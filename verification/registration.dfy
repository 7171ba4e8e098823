/** The registration component: a new-account form checked against the
    email pattern and the password policy before it is sent to the server. */
module Registration {
  import opened Wrappers
  import opened Effects
  import opened Validators
  import Visibility

  datatype Field = FirstNameField | LastNameField | EmailField | PasswordField | ConfirmPasswordField

  /** The component's state; `fieldErrors` is the validity message set on
      each input. */
  datatype RegistrationForm = RegistrationForm(
    firstName: string,
    lastName: string,
    email: string,
    password: string,
    confirmPassword: string,
    agreeToTerms: bool,
    isLoading: bool,
    showPassword: bool,
    showConfirmPassword: bool,
    fieldErrors: map<Field, string>)

  const FirstNameRequired := "First name is required"
  const LastNameRequired := "Last name is required"
  const EmailRequired := "Email is required"
  const EmailInvalid := "Please enter a valid email address"
  const PasswordRequired := "Password is required"
  const PasswordWeak := "Password must be at least 8 characters with uppercase, lowercase, number, and special character"
  const ConfirmRequired := "Please confirm your password"
  const PasswordsDiffer := "Passwords do not match"
  const TermsRequired := "Please agree to the Terms and Conditions"
  const AccountCreated := "Account created successfully! You can now sign in."

  /** The delay before the login page opens after a successful registration. */
  const LoginDelayMs := 2000

  /** What `validateForm` reports: the message set on each failing input, and
      whether the terms were left unaccepted (shown as a toast instead). */
  datatype Validation = Validation(errors: map<Field, string>, termsMissing: bool)

  predicate Passes(v: Validation) {
    v.errors == map[] && !v.termsMissing
  }

  /** The message for a required input whose own check may fail: required
      when empty, `invalid` when its check rejects it, nothing otherwise. */
  function Check(value: string, ok: bool, required: string, invalid: string): (e: Option<string>)
    ensures e == None <==> value != "" && ok
    ensures e.Some? ==> e.value == (if value == "" then required else invalid)
  {
    if value == "" then Some(required) else if !ok then Some(invalid) else None
  }

  function Entry(f: Field, e: Option<string>): (m: map<Field, string>)
    ensures m.Keys <= {f} && (f in m <==> e.Some?) && (e.Some? ==> m[f] == e.value)
  {
    if e.Some? then map[f := e.value] else map[]
  }

  /** `validateForm`. Every input is checked on its own, with no trimming,
      so one failure never hides another. */
  function Validate(f: RegistrationForm): (v: Validation)
    ensures FirstNameField in v.errors <==> f.firstName == ""
    ensures LastNameField in v.errors <==> f.lastName == ""
    ensures EmailField in v.errors <==> !IsValidEmail(f.email)
    ensures PasswordField in v.errors <==> !IsValidPassword(f.password)
    ensures ConfirmPasswordField in v.errors <==> f.confirmPassword == "" || f.confirmPassword != f.password
    ensures FirstNameField in v.errors ==> v.errors[FirstNameField] == FirstNameRequired
    ensures LastNameField in v.errors ==> v.errors[LastNameField] == LastNameRequired
    ensures EmailField in v.errors ==>
              v.errors[EmailField] == (if f.email == "" then EmailRequired else EmailInvalid)
    ensures PasswordField in v.errors ==>
              v.errors[PasswordField] == (if f.password == "" then PasswordRequired else PasswordWeak)
    ensures ConfirmPasswordField in v.errors ==>
              v.errors[ConfirmPasswordField] == (if f.confirmPassword == "" then ConfirmRequired else PasswordsDiffer)
    ensures v.termsMissing <==> !f.agreeToTerms
  {
    assert !IsValidEmail("");
    Validation(
      Entry(FirstNameField, Check(f.firstName, true, FirstNameRequired, ""))
      + Entry(LastNameField, Check(f.lastName, true, LastNameRequired, ""))
      + Entry(EmailField, Check(f.email, IsValidEmail(f.email), EmailRequired, EmailInvalid))
      + Entry(PasswordField, Check(f.password, IsValidPassword(f.password), PasswordRequired, PasswordWeak))
      + Entry(ConfirmPasswordField, Check(f.confirmPassword, f.password == f.confirmPassword, ConfirmRequired, PasswordsDiffer)),
      !f.agreeToTerms)
  }

  /** The form passes exactly when all five inputs are filled, the email
      matches the pattern, the password meets the policy, the confirmation
      repeats it and the terms are accepted. */
  lemma ValidateIff(f: RegistrationForm)
    ensures Passes(Validate(f)) <==>
              && f.firstName != "" && f.lastName != "" && f.email != ""
              && f.password != "" && f.confirmPassword != ""
              && IsValidEmail(f.email) && IsValidPassword(f.password)
              && f.password == f.confirmPassword && f.agreeToTerms
  {
    var v := Validate(f);
    if v.errors != map[] {
      var k :| k in v.errors;
    }
    assert !IsValidEmail("");
  }

  /** `handleRegister`, with `outcome` the result of the registration call.
      A form that fails validation shows its field errors (and the terms
      toast) and sends nothing. Otherwise the form is sent; a success is
      announced and the login page opens after the delay, a failure shows
      the server's message or the generic one; the component ends idle. */
  function HandleRegister(f: RegistrationForm, outcome: Outcome<()>): (r: Step<RegistrationForm>)
    ensures r.write == None
    ensures !Passes(Validate(f)) ==>
              && r.call == None && r.nav == None
              && r.state == f.(fieldErrors := Validate(f).errors)
              && r.toasts == (if f.agreeToTerms then [] else [ErrorToast(TermsRequired)])
    ensures Passes(Validate(f)) ==>
              && r.call == Some(RegisterUser(f.email, f.firstName, f.lastName, f.password, f.confirmPassword))
              && r.state == f.(isLoading := false, fieldErrors := map[])
              && (r.nav.Some? <==> outcome.Ok?)
    ensures Passes(Validate(f)) && outcome.Ok? ==>
              && r.nav == Some(Navigation(LoginPage, LoginDelayMs)) && Url(r.nav.value.page) == "/login"
              && r.toasts == [SuccessToast(AccountCreated)]
    ensures Passes(Validate(f)) && !outcome.Ok? ==>
              r.toasts == [ErrorToast(if outcome.Declared? then outcome.message else UnexpectedError)]
  {
    var v := Validate(f);
    if !Passes(v) then
      Step(f.(fieldErrors := v.errors), None,
           if v.termsMissing then [ErrorToast(TermsRequired)] else [], None, None)
    else
      var idle := f.(isLoading := false, fieldErrors := map[]);
      var call := Some(RegisterUser(f.email, f.firstName, f.lastName, f.password, f.confirmPassword));
      match outcome
      case Ok(_, _) =>
        Step(idle, call, [SuccessToast(AccountCreated)], Some(Navigation(LoginPage, LoginDelayMs)), None)
      case Declared(message) =>
        Step(idle, call, [ErrorToast(message)], None, None)
      case Threw =>
        Step(idle, call, [ErrorToast(UnexpectedError)], None, None)
  }

  /** A filled-in confirmation that differs from the password is reported on
      the confirmation input and stops the submission. */
  lemma MismatchBlocksRegister(f: RegistrationForm, outcome: Outcome<()>)
    requires f.confirmPassword != "" && f.confirmPassword != f.password
    ensures Validate(f).errors[ConfirmPasswordField] == PasswordsDiffer
    ensures HandleRegister(f, outcome).call == None
    ensures HandleRegister(f, outcome).state.fieldErrors[ConfirmPasswordField] == PasswordsDiffer
  {
  }

  /** Unaccepted terms are reported by a toast, never as a field error, and
      stop the submission. */
  lemma TermsBlockRegister(f: RegistrationForm, outcome: Outcome<()>)
    requires !f.agreeToTerms
    ensures !Passes(Validate(f))
    ensures ErrorToast(TermsRequired) in HandleRegister(f, outcome).toasts
    ensures HandleRegister(f, outcome).call == None
  {
  }

  /** `isRegisterDisabled`: busy, an input empty, or the terms unaccepted. */
  function IsRegisterDisabled(f: RegistrationForm): (b: bool)
    ensures b <==> || f.isLoading || !f.agreeToTerms
                   || "" in [f.firstName, f.lastName, f.email, f.password, f.confirmPassword]
  {
    || f.isLoading
    || f.firstName == "" || f.lastName == "" || f.email == ""
    || f.password == "" || f.confirmPassword == ""
    || !f.agreeToTerms
  }

  /** For a form that passes validation the button is disabled only while
      busy; a button disabled on an idle form guards a form that would not
      be sent anyway. */
  lemma DisabledMatchesValidation(f: RegistrationForm, outcome: Outcome<()>)
    ensures Passes(Validate(f)) ==> IsRegisterDisabled(f) == f.isLoading
    ensures IsRegisterDisabled(f) && !f.isLoading ==> HandleRegister(f, outcome).call == None
  {
    ValidateIff(f);
  }

  /** `handleKeyPress`: Enter submits, any other key does nothing. */
  function HandleKeyPress(f: RegistrationForm, key: string, outcome: Outcome<()>): (r: Step<RegistrationForm>)
    ensures key != "Enter" ==> r == Quiet(f)
    ensures key == "Enter" ==> r == HandleRegister(f, outcome)
  {
    if key == "Enter" then HandleRegister(f, outcome) else Quiet(f)
  }

  /** The `handle*Change` handlers of the five text inputs. */
  function Edit(f: RegistrationForm, field: Field, value: string): (r: RegistrationForm)
    ensures r.agreeToTerms == f.agreeToTerms && r.isLoading == f.isLoading && r.fieldErrors == f.fieldErrors
    ensures field == FirstNameField ==> r == f.(firstName := value)
    ensures field == LastNameField ==> r == f.(lastName := value)
    ensures field == EmailField ==> r == f.(email := value)
    ensures field == PasswordField ==> r == f.(password := value)
    ensures field == ConfirmPasswordField ==> r == f.(confirmPassword := value)
  {
    match field
    case FirstNameField => f.(firstName := value)
    case LastNameField => f.(lastName := value)
    case EmailField => f.(email := value)
    case PasswordField => f.(password := value)
    case ConfirmPasswordField => f.(confirmPassword := value)
  }

  /** `handleTermsChange`. */
  function SetTerms(f: RegistrationForm, checked: bool): (r: RegistrationForm)
    ensures r.agreeToTerms == checked && r.(agreeToTerms := f.agreeToTerms) == f
  {
    f.(agreeToTerms := checked)
  }

  /** `togglePasswordVisibility`. */
  function TogglePasswordVisibility(f: RegistrationForm): (r: RegistrationForm)
    ensures r.showPassword == !f.showPassword && r.(showPassword := f.showPassword) == f
  {
    f.(showPassword := !f.showPassword)
  }

  /** `toggleConfirmPasswordVisibility`. */
  function ToggleConfirmPasswordVisibility(f: RegistrationForm): (r: RegistrationForm)
    ensures r.showConfirmPassword == !f.showConfirmPassword
    ensures r.(showConfirmPassword := f.showConfirmPassword) == f
  {
    f.(showConfirmPassword := !f.showConfirmPassword)
  }

  /** Each toggle undoes itself, and the two toggles are independent. */
  lemma TogglesInvolutive(f: RegistrationForm)
    ensures TogglePasswordVisibility(TogglePasswordVisibility(f)) == f
    ensures ToggleConfirmPasswordVisibility(ToggleConfirmPasswordVisibility(f)) == f
    ensures TogglePasswordVisibility(ToggleConfirmPasswordVisibility(f))
            == ToggleConfirmPasswordVisibility(TogglePasswordVisibility(f))
  {
  }

  /** `passwordInputType` and `confirmPasswordInputType`. */
  function PasswordInputType(f: RegistrationForm): (t: string)
    ensures t == "text" <==> f.showPassword
    ensures t == "text" || t == "password"
  {
    Visibility.InputType(f.showPassword)
  }

  function ConfirmPasswordInputType(f: RegistrationForm): (t: string)
    ensures t == "text" <==> f.showConfirmPassword
    ensures t == "text" || t == "password"
  {
    Visibility.InputType(f.showConfirmPassword)
  }

  /** `passwordToggleIcon` and `confirmPasswordToggleIcon`. */
  function PasswordToggleIcon(f: RegistrationForm): (icon: string)
    ensures icon == "utility:hide" <==> f.showPassword
    ensures icon == "utility:hide" || icon == "utility:preview"
  {
    Visibility.ToggleIcon(f.showPassword)
  }

  function ConfirmPasswordToggleIcon(f: RegistrationForm): (icon: string)
    ensures icon == "utility:hide" <==> f.showConfirmPassword
    ensures icon == "utility:hide" || icon == "utility:preview"
  {
    Visibility.ToggleIcon(f.showConfirmPassword)
  }

  /** `passwordStrength` of the form's current password, recomputed on every
      keystroke whether or not the rest of the form is valid. */
  function FormPasswordStrength(f: RegistrationForm): (r: Option<Strength>)
    ensures r == PasswordStrength(f.password)
    ensures r == None <==> f.password == ""
    ensures Passes(Validate(f)) ==> r == Some(Strength("Strong", "strength-strong", 100))
  {
    assert Passes(Validate(f)) ==> IsValidPassword(f.password) by {
      ValidateIff(f);
    }
    PasswordStrength(f.password)
  }

  /** `handleLoginClick`: opens the login page at once. */
  function LoginClick(f: RegistrationForm): (r: Step<RegistrationForm>)
    ensures r.nav == Some(GoTo(LoginPage)) && Url(r.nav.value.page) == "/login"
    ensures r.state == f && r.call == None && r.toasts == [] && r.write == None
  {
    Step(f, None, [], Some(GoTo(LoginPage)), None)
  }
}
