/** The login component: a username and password form that calls the
    server's login procedure, stores the returned session and opens the
    dashboard. */
module Login {
  import opened Wrappers
  import opened Sessions
  import opened Effects
  import Visibility

  datatype LoginForm = LoginForm(username: string, password: string, isLoading: bool, showPassword: bool)

  const MissingCredentials := "Please enter both username and password"

  /** `handleLogin`, with `outcome` the result of the login call. Without
      both credentials nothing is sent and only an error is shown. Otherwise
      the credentials are sent; a success stores the returned session and
      opens the dashboard, a failure shows the server's message or the
      generic one; the component ends idle. */
  function HandleLogin(f: LoginForm, outcome: Outcome<Session>): (r: Step<LoginForm>)
    ensures f.username == "" || f.password == "" ==>
              r == Step(f, None, [ErrorToast(MissingCredentials)], None, None)
    ensures f.username != "" && f.password != "" ==>
              && r.call == Some(LoginUser(f.username, f.password))
              && r.state == f.(isLoading := false)
              && |r.toasts| == 1
    ensures f.username != "" && f.password != "" && outcome.Ok? ==>
              && r.toasts == [SuccessToast(outcome.message)]
              && r.write == Some(Put(outcome.data))
              && r.nav == Some(GoTo(DashboardPage)) && Url(r.nav.value.page) == "/dashboard"
    ensures f.username != "" && f.password != "" && outcome.Declared? ==>
              r.toasts == [ErrorToast(outcome.message)] && r.write == None && r.nav == None
    ensures f.username != "" && f.password != "" && outcome.Threw? ==>
              r.toasts == [ErrorToast(UnexpectedError)] && r.write == None && r.nav == None
  {
    if f.username == "" || f.password == "" then
      Step(f, None, [ErrorToast(MissingCredentials)], None, None)
    else
      var idle := f.(isLoading := false);
      var call := Some(LoginUser(f.username, f.password));
      match outcome
      case Ok(message, data) =>
        Step(idle, call, [SuccessToast(message)], Some(GoTo(DashboardPage)), Some(Put(data)))
      case Declared(message) =>
        Step(idle, call, [ErrorToast(message)], None, None)
      case Threw =>
        Step(idle, call, [ErrorToast(UnexpectedError)], None, None)
  }

  /** Every sent login ends idle; only a successful one navigates or touches
      the stored session, and then the stored session is what the server
      returned. */
  lemma LoginEffects(f: LoginForm, outcome: Outcome<Session>, stored: Option<Session>)
    ensures var r := HandleLogin(f, outcome);
            && (r.call.Some? ==> !r.state.isLoading)
            && (r.call == None ==> r.state.isLoading == f.isLoading)
            && (r.nav.Some? <==> r.call.Some? && outcome.Ok?)
            && (r.nav.Some? ==> Stored(stored, r.write) == Some(outcome.data))
            && (r.nav == None ==> Stored(stored, r.write) == stored)
  {
  }

  /** `isLoginDisabled`: busy, or a credential missing. */
  function IsLoginDisabled(f: LoginForm): (b: bool)
    ensures b <==> f.isLoading || "" in [f.username, f.password]
  {
    f.isLoading || f.username == "" || f.password == ""
  }

  /** The button state agrees with the handler: an enabled button always
      reaches the server, and a disabled one on an idle form never does. */
  lemma DisabledMatchesGate(f: LoginForm, outcome: Outcome<Session>)
    ensures !IsLoginDisabled(f) ==> HandleLogin(f, outcome).call.Some?
    ensures IsLoginDisabled(f) && !f.isLoading ==> HandleLogin(f, outcome).call == None
  {
  }

  /** `handleKeyPress`: Enter submits, any other key does nothing. */
  function HandleKeyPress(f: LoginForm, key: string, outcome: Outcome<Session>): (r: Step<LoginForm>)
    ensures key != "Enter" ==> r == Quiet(f)
    ensures key == "Enter" ==> r == HandleLogin(f, outcome)
  {
    if key == "Enter" then HandleLogin(f, outcome) else Quiet(f)
  }

  /** `handleUsernameChange`. */
  function SetUsername(f: LoginForm, value: string): (r: LoginForm)
    ensures r.username == value && r.(username := f.username) == f
  {
    f.(username := value)
  }

  /** `handlePasswordChange`. */
  function SetPassword(f: LoginForm, value: string): (r: LoginForm)
    ensures r.password == value && r.(password := f.password) == f
  {
    f.(password := value)
  }

  /** `togglePasswordVisibility`: flips whether the password is shown. */
  function TogglePasswordVisibility(f: LoginForm): (r: LoginForm)
    ensures r.showPassword == !f.showPassword
    ensures r.(showPassword := f.showPassword) == f
  {
    f.(showPassword := !f.showPassword)
  }

  /** Toggling twice restores the form. */
  lemma ToggleInvolution(f: LoginForm)
    ensures TogglePasswordVisibility(TogglePasswordVisibility(f)) == f
  {
  }

  /** `passwordInputType`. */
  function PasswordInputType(f: LoginForm): (t: string)
    ensures t == "text" <==> f.showPassword
    ensures t == "text" || t == "password"
  {
    Visibility.InputType(f.showPassword)
  }

  /** `passwordToggleIcon`. */
  function PasswordToggleIcon(f: LoginForm): (icon: string)
    ensures icon == "utility:hide" <==> f.showPassword
    ensures icon == "utility:hide" || icon == "utility:preview"
  {
    Visibility.ToggleIcon(f.showPassword)
  }

  /** `handleRegisterClick`: opens the registration page, nothing else. */
  function RegisterClick(f: LoginForm): (r: Step<LoginForm>)
    ensures r.nav == Some(GoTo(RegisterPage)) && Url(r.nav.value.page) == "/register"
    ensures r.state == f && r.call == None && r.toasts == [] && r.write == None
  {
    Step(f, None, [], Some(GoTo(RegisterPage)), None)
  }

  /** `handleForgotPasswordClick`: opens the password-reset page, nothing else. */
  function ForgotPasswordClick(f: LoginForm): (r: Step<LoginForm>)
    ensures r.nav == Some(GoTo(ForgotPasswordPage)) && Url(r.nav.value.page) == "/forgot-password"
    ensures r.state == f && r.call == None && r.toasts == [] && r.write == None
  {
    Step(f, None, [], Some(GoTo(ForgotPasswordPage)), None)
  }
}
