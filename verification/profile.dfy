/** The profile component: it shows the signed-in user's first name, last
    name and email, lets the user edit them against a saved snapshot, saves
    them to the server and logs out. */
module Profile {
  import opened Wrappers
  import opened Text
  import opened Sessions
  import opened Effects
  import opened Validators

  /** The three editable fields. */
  datatype Names = Names(firstName: string, lastName: string, email: string)

  datatype Field = FirstNameField | LastNameField | EmailField

  /** The component's state. `current` is what the inputs show; `original`
      is the last loaded or saved snapshot it is compared with.
      `fieldErrors` is the validity message set on each input. */
  datatype ProfileState = ProfileState(
    userId: string,
    current: Names,
    original: Names,
    isEditing: bool,
    isLoading: bool,
    userSession: Option<Session>,
    fieldErrors: map<Field, string>)

  // ---------------------------------------------------------------- derived values

  /** `hasChanges`: some field differs from its snapshot. */
  function HasChanges(s: ProfileState): (b: bool)
    ensures b <==> s.current != s.original
  {
    || s.current.firstName != s.original.firstName
    || s.current.lastName != s.original.lastName
    || s.current.email != s.original.email
  }

  /** `isSaveDisabled`: busy, no field differs from the snapshot, or some
      field is nothing but whitespace. */
  function IsSaveDisabled(s: ProfileState): (b: bool)
    ensures b <==> || s.isLoading || s.current == s.original
                   || Blank(s.current.firstName) || Blank(s.current.lastName)
                   || Blank(s.current.email)
  {
    || s.isLoading
    || !HasChanges(s)
    || Blank(s.current.firstName)
    || Blank(s.current.lastName)
    || Blank(s.current.email)
  }

  /** `displayName`: first and last name joined by a space, then trimmed. */
  function DisplayName(s: ProfileState): (r: string)
    ensures r == "" <==> Blank(s.current.firstName) && Blank(s.current.lastName)
  {
    var joined := s.current.firstName + " " + s.current.lastName;
    assert AllWhitespace(joined) <==> AllWhitespace(s.current.firstName) && AllWhitespace(s.current.lastName) by {
      var f, l := s.current.firstName, s.current.lastName;
      assert joined[|f|] == ' ';
      if AllWhitespace(f) && AllWhitespace(l) {
        forall k | 0 <= k < |joined|
          ensures IsWhitespace(joined[k])
        {
          if k < |f| {
            assert joined[k] == f[k];
          } else if k > |f| {
            assert joined[k] == l[k - |f| - 1];
          }
        }
      }
      if AllWhitespace(joined) {
        forall k | 0 <= k < |f|
          ensures IsWhitespace(f[k])
        {
          assert joined[k] == f[k];
        }
        forall k | 0 <= k < |l|
          ensures IsWhitespace(l[k])
        {
          assert joined[|f| + 1 + k] == l[k];
        }
      }
    }
    Trim(joined)
  }

  /** With both names non-blank, the display name keeps the first name's
      inner and trailing text and the last name's leading and inner text. */
  lemma DisplayNameJoins(s: ProfileState)
    requires !Blank(s.current.firstName) && !Blank(s.current.lastName)
    ensures DisplayName(s) == TrimStart(s.current.firstName) + " " + TrimEnd(s.current.lastName)
  {
    var f, l := s.current.firstName, s.current.lastName;
    assert f + " " + l == f + (" " + l);
    TrimStartAppend(f, " " + l);
    assert TrimStart(f) + (" " + l) == (TrimStart(f) + " ") + l;
    TrimEndAppend(TrimStart(f) + " ", l);
  }

  /** With a blank first name, the display name is the trimmed last name. */
  lemma DisplayNameOfLastOnly(s: ProfileState)
    requires Blank(s.current.firstName)
    ensures DisplayName(s) == Trim(s.current.lastName)
  {
    var f, l := s.current.firstName, s.current.lastName;
    assert AllWhitespace(f + " ") by {
      forall k | 0 <= k < |f + " "|
        ensures IsWhitespace((f + " ")[k])
      {
        if k < |f| {
          assert (f + " ")[k] == f[k];
        }
      }
    }
    TrimStartSkipsBlank(f + " ", l);
  }

  /** With a blank last name, the display name is the trimmed first name. */
  lemma DisplayNameOfFirstOnly(s: ProfileState)
    requires Blank(s.current.lastName)
    ensures DisplayName(s) == Trim(s.current.firstName)
  {
    var f, l := s.current.firstName, s.current.lastName;
    var tail := " " + l;
    assert AllWhitespace(tail) by {
      forall k | 0 <= k < |tail|
        ensures IsWhitespace(tail[k])
      {
        if k > 0 {
          assert tail[k] == l[k - 1];
        }
      }
    }
    assert f + " " + l == f + tail;
    if Blank(f) {
      assert DisplayName(s) == "";
    } else {
      TrimStartAppend(f, tail);
      TrimEndSkipsBlank(TrimStart(f), tail);
    }
  }

  /** One initial: the upper-cased first character, or nothing. */
  function Initial1(name: string): (r: string)
    ensures |r| <= 1 && (r == "" <==> name == "")
    ensures r != "" ==> r[0] == UpperChar(name[0])
  {
    if name == "" then "" else [UpperChar(name[0])]
  }

  /** `initials`: at most two characters, the upper-cased first letters of
      the non-empty names, first name first. */
  function Initials(s: ProfileState): (r: string)
    ensures |r| <= 2
    ensures |r| == (if s.current.firstName == "" then 0 else 1) + (if s.current.lastName == "" then 0 else 1)
    ensures r == "" <==> s.current.firstName == "" && s.current.lastName == ""
    ensures s.current.firstName != "" ==> r[0] == UpperChar(s.current.firstName[0])
    ensures s.current.lastName != "" ==> r[|r| - 1] == UpperChar(s.current.lastName[0])
  {
    Initial1(s.current.firstName) + Initial1(s.current.lastName)
  }

  // ---------------------------------------------------------------- validation

  const FirstNameRequired := "First name is required"
  const LastNameRequired := "Last name is required"
  const EmailRequired := "Email is required"
  const EmailInvalid := "Please enter a valid email address"

  /** The email input's message, if any: required when blank, invalid when
      it does not match the pattern. */
  function EmailError(email: string): (e: Option<string>)
    ensures e == None <==> IsValidEmail(email)
    ensures e.Some? ==> e.value == (if Blank(email) then EmailRequired else EmailInvalid)
  {
    if Blank(email) then
      assert !IsValidEmail(email) by {
        if IsValidEmail(email) {
          ValidEmailNotBlank(email);
        }
      }
      Some(EmailRequired)
    else if !IsValidEmail(email) then Some(EmailInvalid)
    else None
  }

  /** The one-entry error map for an input whose check failed, else empty. */
  function ErrorEntry(f: Field, failed: bool, message: string): (m: map<Field, string>)
    ensures m.Keys <= {f} && (f in m <==> failed) && (failed ==> m[f] == message)
  {
    if failed then map[f := message] else map[]
  }

  /** `validateForm`: the error set on each failing input. Names are required
      after trimming; the email must be non-blank and, untrimmed, match the
      email pattern. Every input is checked, whatever the others give. */
  function ProfileErrors(n: Names): (errs: map<Field, string>)
    ensures FirstNameField in errs <==> Blank(n.firstName)
    ensures LastNameField in errs <==> Blank(n.lastName)
    ensures EmailField in errs <==> !IsValidEmail(n.email)
    ensures FirstNameField in errs ==> errs[FirstNameField] == FirstNameRequired
    ensures LastNameField in errs ==> errs[LastNameField] == LastNameRequired
    ensures EmailField in errs ==>
              errs[EmailField] == (if Blank(n.email) then EmailRequired else EmailInvalid)
  {
    var email := EmailError(n.email);
    ErrorEntry(FirstNameField, Blank(n.firstName), FirstNameRequired)
    + ErrorEntry(LastNameField, Blank(n.lastName), LastNameRequired)
    + ErrorEntry(EmailField, email.Some?, email.GetOr(""))
  }

  /** The form passes exactly when both trimmed names are non-empty and the
      untrimmed email matches the pattern (which also makes it non-blank). */
  lemma ProfileValidIff(n: Names)
    ensures ProfileErrors(n) == map[] <==>
              !Blank(n.firstName) && !Blank(n.lastName) && !Blank(n.email) && IsValidEmail(n.email)
  {
    var errs := ProfileErrors(n);
    if errs != map[] {
      var f :| f in errs;
    }
    if IsValidEmail(n.email) {
      ValidEmailNotBlank(n.email);
    }
  }

  /** A form that passes validation and differs from its snapshot can be
      saved whenever the component is idle. */
  lemma ValidChangesEnableSave(s: ProfileState)
    requires ProfileErrors(s.current) == map[] && HasChanges(s) && !s.isLoading
    ensures !IsSaveDisabled(s)
  {
    ProfileValidIff(s.current);
  }

  /** Conversely, on an idle, changed form a disabled button only ever
      guards a form the save handler would reject without calling the
      server. */
  lemma DisabledSaveIsRejected(s: ProfileState, outcome: Outcome<()>)
    requires !s.isLoading && HasChanges(s) && IsSaveDisabled(s)
    ensures ProfileErrors(s.current) != map[]
    ensures Save(s, outcome).call == None
  {
    ProfileValidIff(s.current);
  }

  // ---------------------------------------------------------------- transitions

  /** `populateUserData`: copies the session's fields into the form (an absent
      field reads as empty) and makes them the new snapshot. */
  function Populate(s: ProfileState, data: Session): (r: ProfileState)
    ensures r.current == r.original && !HasChanges(r)
    ensures r.userId == Get(data, UserIdKey)
    ensures r.current == Names(Get(data, FirstNameKey), Get(data, LastNameKey), Get(data, EmailKey))
    ensures FirstNameKey !in data.fields ==> r.current.firstName == ""
    ensures r.isEditing == s.isEditing && r.isLoading == s.isLoading
    ensures r.userSession == s.userSession && r.fieldErrors == s.fieldErrors
  {
    var names := Names(Get(data, FirstNameKey), Get(data, LastNameKey), Get(data, EmailKey));
    s.(userId := Get(data, UserIdKey), current := names, original := names)
  }

  const LoadRejected := "Unable to load user profile. Please login again."
  const LoadFailed := "Failed to load user profile"

  /** `loadUserProfile`: use the session in storage if there is one;
      otherwise fetch it from the server (`fetched` is how that call ends),
      cache it, or on failure notify and go to the login page. */
  function Load(s: ProfileState, stored: Option<Session>, fetched: Outcome<Session>): (r: Step<ProfileState>)
    ensures !r.state.isLoading
    ensures stored.Some? ==> r.call == None && r.write == None && r.nav == None && r.toasts == []
                             && r.state.userSession == stored
                             && r.state == Populate(s.(isLoading := false, userSession := stored), stored.value)
    ensures stored == None ==> r.call == Some(GetCurrentUser)
    ensures stored == None && fetched.Ok? ==>
              && r.state.userSession == Some(fetched.data)
              && r.write == Some(Put(fetched.data)) && r.nav == None
              && r.state.current == r.state.original
              && r.state.userId == Get(fetched.data, UserIdKey)
              && r.toasts == []
              && r.state == Populate(s.(isLoading := false, userSession := Some(fetched.data)), fetched.data)
    ensures stored == None && !fetched.Ok? ==>
              && r.write == None && r.nav == Some(GoTo(LoginPage)) && Url(r.nav.value.page) == "/login"
              && r.toasts == [ErrorToast(if fetched.Declared? then LoadRejected else LoadFailed)]
              && r.state == s.(isLoading := false)
  {
    var idle := s.(isLoading := false);
    match stored
    case Some(data) =>
      Quiet(Populate(idle.(userSession := stored), data))
    case None =>
      match fetched
      case Ok(_, data) =>
        Step(Populate(idle.(userSession := Some(data)), data), Some(GetCurrentUser), [], None, Some(Put(data)))
      case Declared(_) =>
        Step(idle, Some(GetCurrentUser), [ErrorToast(LoadRejected)], Some(GoTo(LoginPage)), None)
      case Threw =>
        Step(idle, Some(GetCurrentUser), [ErrorToast(LoadFailed)], Some(GoTo(LoginPage)), None)
  }

  /** The `handle*Change` handlers: one input takes a new value. */
  function Edit(s: ProfileState, f: Field, value: string): (r: ProfileState)
    ensures r.original == s.original && r == s.(current := r.current)
    ensures f == FirstNameField ==> r.current == s.current.(firstName := value)
    ensures f == LastNameField ==> r.current == s.current.(lastName := value)
    ensures f == EmailField ==> r.current == s.current.(email := value)
  {
    match f
    case FirstNameField => s.(current := s.current.(firstName := value))
    case LastNameField => s.(current := s.current.(lastName := value))
    case EmailField => s.(current := s.current.(email := value))
  }

  /** Typing a value other than the snapshot's makes the form dirty; typing
      the snapshot's value back into a form otherwise clean makes it clean. */
  lemma EditTracksChanges(s: ProfileState, f: Field, value: string)
    ensures value != FieldOf(s.original, f) ==> HasChanges(Edit(s, f, value))
    ensures !HasChanges(s) && value == FieldOf(s.original, f) ==> !HasChanges(Edit(s, f, value))
  {
  }

  function FieldOf(n: Names, f: Field): string {
    match f
    case FirstNameField => n.firstName
    case LastNameField => n.lastName
    case EmailField => n.email
  }

  /** `handleEditClick`: enter edit mode; no field changes. */
  function EnterEdit(s: ProfileState): (r: ProfileState)
    ensures r.isEditing && r.current == s.current && r.original == s.original
    ensures r.(isEditing := s.isEditing) == s
  {
    s.(isEditing := true)
  }

  /** `handleCancelEdit`: every input goes back to its snapshot, edit mode
      ends and the validity messages are cleared. */
  function CancelEdit(s: ProfileState): (r: ProfileState)
    ensures r.current == s.original && r.original == s.original && !HasChanges(r)
    ensures !r.isEditing && r.fieldErrors == map[]
    ensures r.userId == s.userId && r.isLoading == s.isLoading && r.userSession == s.userSession
  {
    s.(current := s.original, isEditing := false, fieldErrors := map[])
  }

  /** Cancelling twice is cancelling once. */
  lemma CancelIdempotent(s: ProfileState)
    ensures CancelEdit(CancelEdit(s)) == CancelEdit(s)
  {
  }

  /** Whatever was typed, cancelling restores the state cancelling would
      have produced before the edits. */
  lemma CancelUndoesEdit(s: ProfileState, f: Field, value: string)
    ensures CancelEdit(Edit(s, f, value)) == CancelEdit(s)
  {
  }

  const SaveSucceeded := "Profile updated successfully"

  /** `handleSaveProfile`, with `outcome` the result of the update call.
      A form that fails validation only shows its errors. Otherwise the
      current fields are sent; on success they become the snapshot, the
      cached session's three fields are overwritten and stored, and edit
      mode ends. When there is no session object the overwrite throws, after
      the snapshot update, and the failure is reported as unexpected. */
  function Save(s: ProfileState, outcome: Outcome<()>): (r: Step<ProfileState>)
    ensures ProfileErrors(s.current) != map[] ==>
              r == Quiet(s.(fieldErrors := ProfileErrors(s.current)))
    ensures ProfileErrors(s.current) == map[] ==>
              && r.call == Some(UpdateUserProfile(s.userId, s.current.email, s.current.firstName, s.current.lastName))
              && !r.state.isLoading && r.nav == None
              && r.state.current == s.current && r.state.userId == s.userId && r.state.fieldErrors == map[]
    ensures ProfileErrors(s.current) == map[] && outcome.Ok? ==>
              && r.state.original == s.current && !HasChanges(r.state)
              && |r.toasts| >= 1 && r.toasts[0] == SuccessToast(SaveSucceeded)
    ensures ProfileErrors(s.current) == map[] && outcome.Ok? && s.userSession.Some? ==>
              && !r.state.isEditing && r.toasts == [SuccessToast(SaveSucceeded)]
              && r.state.userSession.Some?
              && r.write == Some(Put(r.state.userSession.value))
              && var old_, new_ := s.userSession.value, r.state.userSession.value;
                 && Get(new_, FirstNameKey) == s.current.firstName
                 && Get(new_, LastNameKey) == s.current.lastName
                 && Get(new_, EmailKey) == s.current.email
                 && forall key :: !IsNameKey(key) ==>
                      (key in new_.fields <==> key in old_.fields) && Get(new_, key) == Get(old_, key)
    ensures ProfileErrors(s.current) == map[] && outcome.Ok? && s.userSession == None ==>
              && r.state.isEditing == s.isEditing && r.write == None && r.state.userSession == None
              && r.toasts == [SuccessToast(SaveSucceeded), ErrorToast(UnexpectedError)]
    ensures ProfileErrors(s.current) == map[] && !outcome.Ok? ==>
              && r.state == s.(isLoading := false, fieldErrors := map[])
              && r.write == None
              && r.toasts == [ErrorToast(if outcome.Declared? then outcome.message else UnexpectedError)]
  {
    var errs := ProfileErrors(s.current);
    if errs != map[] then
      Quiet(s.(fieldErrors := errs))
    else
      var ready := s.(isLoading := false, fieldErrors := map[]);
      var call := Some(UpdateUserProfile(s.userId, s.current.email, s.current.firstName, s.current.lastName));
      match outcome
      case Ok(_, _) =>
        var saved := ready.(original := s.current);
        (match s.userSession
         case Some(session) =>
           var updated := WithNames(session, s.current.firstName, s.current.lastName, s.current.email);
           Step(saved.(userSession := Some(updated), isEditing := false), call,
                [SuccessToast(SaveSucceeded)], None, Some(Put(updated)))
         case None =>
           Step(saved, call, [SuccessToast(SaveSucceeded), ErrorToast(UnexpectedError)], None, None))
      case Declared(message) =>
        Step(ready, call, [ErrorToast(message)], None, None)
      case Threw =>
        Step(ready, call, [ErrorToast(UnexpectedError)], None, None)
  }

  const LoggedOut := "Logged out successfully"

  /** `handleLogout`, with `outcome` the result of the logout call: however
      it ends, the stored session is removed, the login page is opened and
      the component is idle. Only a successful call is announced. */
  function Logout(s: ProfileState, outcome: Outcome<()>): (r: Step<ProfileState>)
    ensures r.call == Some(LogoutUser)
    ensures r.write == Some(Remove) && r.nav == Some(GoTo(LoginPage)) && !r.state.isLoading
    ensures Url(r.nav.value.page) == "/login"
    ensures r.state == s.(isLoading := false)
    ensures r.toasts == (if outcome.Ok? then [SuccessToast(LoggedOut)] else [])
  {
    var idle := s.(isLoading := false);
    match outcome
    case Ok(_, _) => Step(idle, Some(LogoutUser), [SuccessToast(LoggedOut)], Some(GoTo(LoginPage)), Some(Remove))
    case Declared(_) => Step(idle, Some(LogoutUser), [], Some(GoTo(LoginPage)), Some(Remove))
    case Threw => Step(idle, Some(LogoutUser), [], Some(GoTo(LoginPage)), Some(Remove))
  }

  /** After logout, whatever was stored before and however the call ended,
      no session is stored. */
  lemma LogoutClearsSession(s: ProfileState, outcome: Outcome<()>, stored: Option<Session>)
    ensures Stored(stored, Logout(s, outcome).write) == None
  {
  }

  /** Loading a profile leaves a clean form, and a successful save of a valid
      form with a session object leaves it clean and out of edit mode. */
  lemma LoadAndSaveLeaveClean(s: ProfileState, stored: Option<Session>, fetched: Outcome<Session>)
    ensures (stored.Some? || fetched.Ok?) ==> !HasChanges(Load(s, stored, fetched).state)
    ensures ProfileErrors(s.current) == map[] && s.userSession.Some? ==>
              var r := Save(s, Ok("", ())).state;
              !HasChanges(r) && !r.isEditing
  {
  }
}
