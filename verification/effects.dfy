/** The observable effects of a form transition. The host framework's toast
    events, page navigation, browser session storage and server calls are
    not modelled as such: a transition returns them as values in a `Step`. */
module Effects {
  import opened Wrappers
  import opened Sessions

  datatype Variant = SuccessVariant | ErrorVariant

  /** A dismissable notification with a title, a message and a severity. */
  datatype Toast = Toast(title: string, message: string, variant: Variant)

  function SuccessToast(message: string): Toast {
    Toast("Success", message, SuccessVariant)
  }

  function ErrorToast(message: string): Toast {
    Toast("Error", message, ErrorVariant)
  }

  /** The fixed message shown when a server call throws instead of answering. */
  const UnexpectedError := "An unexpected error occurred. Please try again."

  datatype Page = LoginPage | DashboardPage | RegisterPage | ForgotPasswordPage

  function Url(p: Page): (u: string)
    ensures |u| > 1 && u[0] == '/'
  {
    match p
    case LoginPage => "/login"
    case DashboardPage => "/dashboard"
    case RegisterPage => "/register"
    case ForgotPasswordPage => "/forgot-password"
  }

  /** A navigation to `page`, performed after `delayMs` milliseconds. */
  datatype Navigation = Navigation(page: Page, delayMs: nat)

  function GoTo(p: Page): Navigation {
    Navigation(p, 0)
  }

  /** How a server call ended: a result with `success` true (with its message
      and payload), a result with `success` false (with its message), or a
      rejected promise. */
  datatype Outcome<+T> = Ok(message: string, data: T) | Declared(message: string) | Threw

  /** The server procedures the components call, with the arguments sent. */
  datatype Call =
    | LoginUser(username: string, password: string)
    | GetCurrentUser
    | UpdateUserProfile(userId: string, email: string, firstName: string, lastName: string)
    | LogoutUser
    | RegisterUser(email: string, firstName: string, lastName: string, password: string, confirmPassword: string)

  /** A write to the browser session-storage slot `userSession`. */
  datatype StorageWrite = Put(session: Session) | Remove

  /** The slot's content after an optional write. */
  function Stored(before: Option<Session>, w: Option<StorageWrite>): (after: Option<Session>)
    ensures w == Some(Remove) ==> after == None
    ensures w.Some? && w.value.Put? ==> after == Some(w.value.session)
    ensures w == None ==> after == before
  {
    match w
    case None => before
    case Some(Remove) => None
    case Some(Put(s)) => Some(s)
  }

  /** The result of one user action: the component's new state, the server
      call it issued (if any), the toasts it showed in order, the navigation
      it started (if any) and its session-storage write (if any). */
  datatype Step<S> = Step(state: S, call: Option<Call>, toasts: seq<Toast>,
                          nav: Option<Navigation>, write: Option<StorageWrite>)

  /** A step with no effect besides the new state. */
  function Quiet<S>(s: S): (r: Step<S>)
    ensures r.state == s && r.call == None && r.toasts == [] && r.nav == None && r.write == None
  {
    Step(s, None, [], None, None)
  }
}
