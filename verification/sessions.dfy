/** The user session record that the login component stores, the profile
    component reads and rewrites, and logout removes. The record comes from
    the server as a loose object, so it is modelled as a map from field name
    to value; an absent key stands for an absent (or falsy) field. */
module Sessions {

  datatype Session = Session(fields: map<string, string>)

  const UserIdKey := "userId"
  const FirstNameKey := "firstName"
  const LastNameKey := "lastName"
  const EmailKey := "email"

  /** The three fields a profile save rewrites. */
  predicate IsNameKey(key: string) {
    key == FirstNameKey || key == LastNameKey || key == EmailKey
  }

  /** `data.key || ''`: the field's value, or the empty string when absent. */
  function Get(s: Session, key: string): (v: string)
    ensures key in s.fields ==> v == s.fields[key]
    ensures key !in s.fields ==> v == ""
  {
    if key in s.fields then s.fields[key] else ""
  }

  /** The in-place overwrite of first name, last name and email done after a
      successful profile save; every other field, `userId` included, keeps
      its presence and its value. */
  function WithNames(s: Session, firstName: string, lastName: string, email: string): (r: Session)
    ensures Get(r, FirstNameKey) == firstName
    ensures Get(r, LastNameKey) == lastName
    ensures Get(r, EmailKey) == email
    ensures forall key :: !IsNameKey(key) ==>
              (key in r.fields <==> key in s.fields) && Get(r, key) == Get(s, key)
  {
    Session(s.fields[FirstNameKey := firstName][LastNameKey := lastName][EmailKey := email])
  }
}
