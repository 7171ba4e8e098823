# User-management forms: a Dafny model

This project models the client-side logic of three Lightning web components
of a user-management UI: the password login form (`oktaLogin`), the
profile view/edit form (`userProfile`) and the registration form
(`userRegistration`). It covers the field validators (the email pattern,
the registration password policy, the advisory password-strength meter),
the profile form's dirty tracking and edit/cancel/save/logout state
machine, and the submission gates and outcome branching of login and
registration.

Every user action is a pure function of the component's state (an
immutable record). An action that can call the server, show a toast,
navigate or write storage returns a `Step`: the new state, the server call
it issued (`None` when nothing was sent), the toasts it showed, the
navigation it started and its write to the browser session-storage slot
`userSession`. The other actions (editing an input, entering or cancelling
edit mode, the visibility toggles) return the new state alone.
A server call is not performed; its ending is a parameter of type
`Outcome`: `Ok(message, data)` for a result with `success` true,
`Declared(message)` for a result with `success` false, and `Threw` for
a rejected call. Field-level validity messages are a map from input to
message in the state.

Files, one module each:

- `wrappers.dfy` (`Wrappers`): `Option`.
- `text.dfy` (`Text`): the ASCII whitespace class, `trim`, one-character upper-casing, and JavaScript's UTF-16 `length` with its per-character and concatenation lemmas.
- `sessions.dfy` (`Sessions`): the session record as a field map; field read with the `|| ''` default; the in-place name overwrite.
- `effects.dfy` (`Effects`): toasts, pages, outcomes, server calls, storage writes, `Step`.
- `validators.dfy` (`Validators`): email pattern, password policy, strength meter.
- `visibility.dfy` (`Visibility`): the password show/hide toggle's input type and icon.
- `profile.dfy` (`Profile`), `registration.dfy` (`Registration`), `login.dfy` (`Login`): the three components.

The email pattern `^[^\s@]+@[^\s@]+\.[^\s@]+$` is given twice:
`EmailShape` reads it as a split `L + "@" + D + "." + T` of three runs
without `@` or whitespace, and `EmailScan` checks it as a scanner would
(no whitespace, exactly one `@`, not first, and a dot strictly inside the
part after it). `EmailShapeIff` proves the two agree on every string, and
`IsValidEmail` computes the scan while promising the split. The password
policy is the conjunction of its six conditions written out;
`IsValidPassword` relates it to the strength score. JavaScript's `length`
counts UTF-16 code units, so the meter's length criterion uses
`Utf16Length`.

Behaviour of the code worth noting:

- The profile save handler does not itself check `hasChanges`; only the
  save button's `isSaveDisabled` does. `Profile.Save` sends an unchanged
  but valid form.
- Logout removes the stored session but leaves the component's in-memory
  `userSession` field as it was.
- The login component is password-only.
- When a profile save succeeds but the component holds no session object,
  the code has already made the current fields the snapshot when the
  session overwrite throws. The catch then shows the generic error after
  the success toast and edit mode is kept. `Profile.Save` models exactly
  that.

## Model

| member | source | states |
|---|---|---|
| Text.Trim | force-app/main/default/lwc/userProfile/userProfile.js:227 | `trim` yields the empty string exactly when the input is all whitespace, is a slice of the input with only whitespace cut from either end, and neither starts nor ends with whitespace |
| Text.BlankIsEmptyTrim | force-app/main/default/lwc/userProfile/userProfile.js:166 | the falsiness test `!x.trim()` holds exactly when every character is whitespace |
| Text.Utf16Length | force-app/main/default/lwc/userRegistration/userRegistration.js:218 | JavaScript's `length` is at least the number of characters and at most twice it, and equals it exactly when every character is in the Basic Multilingual Plane |
| Text.Utf16OfChar | force-app/main/default/lwc/userRegistration/userRegistration.js:218 | a character in the Basic Multilingual Plane is one UTF-16 unit and any other character is two |
| Text.Utf16Append | force-app/main/default/lwc/userRegistration/userRegistration.js:218 | the UTF-16 length of a concatenation is the sum of the lengths, so a string's length is the sum of its characters' units |
| Text.UpperChar | force-app/main/default/lwc/userProfile/userProfile.js:231-232 | `toUpperCase` of one character maps `a`-`z` to `A`-`Z` and leaves every other character alone |
| Sessions.Get | force-app/main/default/lwc/userProfile/userProfile.js:55-58 | a session field reads as its value when present and as `""` when absent |
| Sessions.WithNames | force-app/main/default/lwc/userProfile/userProfile.js:118-120 | the save overwrites first name, last name and email of the session and keeps every other field, `userId` included, present or absent with its value |
| Validators.IsValidEmail | force-app/main/default/lwc/userRegistration/userRegistration.js:144-147 | the email check accepts exactly the strings that split as `L@D.T` with three non-empty runs free of `@` and whitespace |
| Validators.EmailShapeIff | force-app/main/default/lwc/userProfile/userProfile.js:187-190 | the email check accepts a string exactly when it splits as `L@D.T` with three non-empty runs free of `@` and whitespace |
| Validators.ValidEmailNotBlank | force-app/main/default/lwc/userProfile/userProfile.js:176-182 | an email that matches the pattern is never blank, so the required check never fires on a matching email |
| Validators.EmailExamples | force-app/main/default/lwc/userRegistration/userRegistration.js:144-147 | `a@b.co` matches; `a@b`, `a.b@` and `ab.co` do not; no string holding whitespace matches |
| Validators.PasswordExamples | force-app/main/default/lwc/userRegistration/userRegistration.js:149-153 | `Abcdef1!` meets the policy; `abcdefgh`, `ABCDEFGH`, `Abcdefgh` and the seven-character `Abcdef1` do not |
| Validators.IsValidPassword | force-app/main/default/lwc/userRegistration/userRegistration.js:149-153 | a password meets the policy exactly when it scores all five strength points and every character is in `[A-Za-z0-9@$!%*?&]`; its length in UTF-16 units is then its length in characters |
| Validators.StrengthScore | force-app/main/default/lwc/userRegistration/userRegistration.js:213-222 | the score is at most 5, and 5 exactly when the password has eight or more UTF-16 code units and a lowercase letter, an uppercase letter, a digit and a special character |
| Validators.ScoreCountsCriteria | force-app/main/default/lwc/userRegistration/userRegistration.js:213-222 | the score is the number of the five criteria met (eight or more UTF-16 units, a lowercase letter, an uppercase letter, a digit, a special character), one point each |
| Validators.StrengthExamples | force-app/main/default/lwc/userRegistration/userRegistration.js:213-252 | `Abcdefgh` meets three criteria and shows Fair at 60 percent; `12345678` meets two and shows Weak at 40 percent |
| Validators.Level | force-app/main/default/lwc/userRegistration/userRegistration.js:224-246 | scores 0 and 1 give the weakest label and each further point the next one of Very Weak, Weak, Fair, Good, Strong; every class is a `strength-` class |
| Validators.StrengthCountsCodeUnits | force-app/main/default/lwc/userRegistration/userRegistration.js:218 | the length criterion counts UTF-16 units: `Ab1!` followed by two emoji gets the full Strong meter and is rejected by the policy |
| Validators.PasswordStrength | force-app/main/default/lwc/userRegistration/userRegistration.js:210-253 | no meter for the empty password; otherwise a width of 20 percent per point, a multiple of 20 up to 100 |
| Validators.StrengthLabels | force-app/main/default/lwc/userRegistration/userRegistration.js:224-246 | widths 0 and 20 show Very Weak, 40 Weak, 60 Fair, 80 Good, 100 Strong, each with its CSS class, and no other combination |
| Validators.ValidPasswordIsStrong | force-app/main/default/lwc/userRegistration/userRegistration.js:218-222 | every password the policy accepts gets the full Strong meter |
| Validators.StrongIsNotValid | force-app/main/default/lwc/userRegistration/userRegistration.js:218-222 | a full meter does not imply the policy: `Abcdef1!#` and `Abcdef1! ` score 5 and are rejected |
| Profile.HasChanges | force-app/main/default/lwc/userProfile/userProfile.js:236-240 | `hasChanges` holds exactly when the current fields differ from the snapshot |
| Profile.IsSaveDisabled | force-app/main/default/lwc/userProfile/userProfile.js:242-244 | the save button is disabled exactly when busy, when nothing differs from the snapshot, or when some field is all whitespace |
| Profile.ValidChangesEnableSave | force-app/main/default/lwc/userProfile/userProfile.js:242-244 | an idle, changed form that passes validation has its save button enabled |
| Profile.DisabledSaveIsRejected | force-app/main/default/lwc/userProfile/userProfile.js:242-244 | on an idle, changed form a disabled button only guards a form the save handler rejects without a server call |
| Profile.DisplayName | force-app/main/default/lwc/userProfile/userProfile.js:226-228 | the display name is empty exactly when both names are blank |
| Profile.DisplayNameJoins | force-app/main/default/lwc/userProfile/userProfile.js:226-228 | with both names non-blank the display name is the first name without leading whitespace, a space, and the last name without trailing whitespace |
| Profile.DisplayNameOfLastOnly | force-app/main/default/lwc/userProfile/userProfile.js:226-228 | with a blank first name the display name is the trimmed last name |
| Profile.DisplayNameOfFirstOnly | force-app/main/default/lwc/userProfile/userProfile.js:226-228 | with a blank last name the display name is the trimmed first name |
| Profile.Initials | force-app/main/default/lwc/userProfile/userProfile.js:230-234 | the initials have one character per non-empty name, so at most two and none exactly when both names are empty, and start with the upper-cased first letter of each non-empty name |
| Profile.EmailError | force-app/main/default/lwc/userProfile/userProfile.js:176-182 | the email input gets no message exactly when it matches the pattern; a blank email gets the required message, any other failing one the invalid message |
| Profile.ProfileErrors | force-app/main/default/lwc/userProfile/userProfile.js:159-185 | each input gets its message exactly when its own check fails: names when blank after trimming, email when it does not match the pattern untrimmed |
| Profile.ProfileValidIff | force-app/main/default/lwc/userProfile/userProfile.js:159-185 | validation passes exactly when both trimmed names and the trimmed email are non-empty and the untrimmed email matches the pattern |
| Profile.Populate | force-app/main/default/lwc/userProfile/userProfile.js:54-64 | loading copies the session's fields (absent ones as empty) into both the current fields and the snapshot, so nothing is changed afterwards |
| Profile.Load | force-app/main/default/lwc/userProfile/userProfile.js:24-52 | a stored session fills the form without a server call or toast; otherwise the fetched session fills the form and is stored, or on failure the rejected-load or failed-load message is shown and the login page opened; the component ends idle |
| Profile.Edit | force-app/main/default/lwc/userProfile/userProfile.js:66-76 | an input change sets exactly that current field and nothing else |
| Profile.EditTracksChanges | force-app/main/default/lwc/userProfile/userProfile.js:236-240 | typing a value other than the snapshot's makes the form dirty; typing the snapshot's value into a clean form keeps it clean |
| Profile.EnterEdit | force-app/main/default/lwc/userProfile/userProfile.js:78-80 | entering edit mode changes no field |
| Profile.CancelEdit | force-app/main/default/lwc/userProfile/userProfile.js:82-91 | cancel restores every current field from the snapshot, ends edit mode and clears every validity message, so nothing is changed afterwards |
| Profile.CancelIdempotent | force-app/main/default/lwc/userProfile/userProfile.js:82-91 | cancelling twice equals cancelling once |
| Profile.CancelUndoesEdit | force-app/main/default/lwc/userProfile/userProfile.js:82-91 | cancelling after an input change equals cancelling before it |
| Profile.Save | force-app/main/default/lwc/userProfile/userProfile.js:93-133 | a form failing validation only gets its messages and sends nothing; a valid one sends its current fields and ends idle; success makes them the snapshot, overwrites and stores the session's three fields only and leaves edit mode (without a session object it reports the generic error, keeps edit mode and stores nothing); failure changes no field or snapshot and shows the server's or the generic message |
| Profile.LoadAndSaveLeaveClean | force-app/main/default/lwc/userProfile/userProfile.js:109-123 | after a successful load, or a successful save of a valid form with a session object, the form has no changes |
| Profile.Logout | force-app/main/default/lwc/userProfile/userProfile.js:135-157 | logout calls the server, removes the stored session, opens the login page and ends idle on every outcome; only success is announced |
| Profile.LogoutClearsSession | force-app/main/default/lwc/userProfile/userProfile.js:135-157 | whatever was stored and however the call ends, no session is stored after logout |
| Login.HandleLogin | force-app/main/default/lwc/oktaLogin/oktaLogin.js:30-67 | a missing credential shows one error and changes nothing else; otherwise the credentials are sent, success stores the returned session and opens the dashboard, a declared failure shows the server's message verbatim and a thrown one the generic message, and the form ends idle |
| Login.LoginEffects | force-app/main/default/lwc/oktaLogin/oktaLogin.js:37-66 | every sent login ends idle; navigation happens exactly when a sent login succeeds, and then the stored session is the server's; otherwise storage is untouched |
| Login.IsLoginDisabled | force-app/main/default/lwc/oktaLogin/oktaLogin.js:107-109 | the login button is disabled exactly when the form is busy or either credential is empty |
| Login.DisabledMatchesGate | force-app/main/default/lwc/oktaLogin/oktaLogin.js:107-109 | an enabled login button always reaches the server; a disabled one on an idle form never does |
| Login.HandleKeyPress | force-app/main/default/lwc/oktaLogin/oktaLogin.js:24-28 | Enter submits the login; any other key changes nothing |
| Login.SetUsername | force-app/main/default/lwc/oktaLogin/oktaLogin.js:12-14 | the username change sets the username and nothing else |
| Login.SetPassword | force-app/main/default/lwc/oktaLogin/oktaLogin.js:16-18 | the password change sets the password and nothing else |
| Login.TogglePasswordVisibility | force-app/main/default/lwc/oktaLogin/oktaLogin.js:20-22 | the toggle flips whether the password is shown and changes nothing else |
| Login.ToggleInvolution | force-app/main/default/lwc/oktaLogin/oktaLogin.js:20-22 | toggling twice restores the form |
| Login.PasswordInputType | force-app/main/default/lwc/oktaLogin/oktaLogin.js:99-101 | the input type is `text` exactly when the password is shown, else `password` |
| Login.PasswordToggleIcon | force-app/main/default/lwc/oktaLogin/oktaLogin.js:103-105 | the icon is `utility:hide` when the password is shown and `utility:preview` otherwise |
| Login.RegisterClick | force-app/main/default/lwc/oktaLogin/oktaLogin.js:69-77 | the register link opens `/register` and does nothing else: no state change, call, toast or storage write |
| Login.ForgotPasswordClick | force-app/main/default/lwc/oktaLogin/oktaLogin.js:79-87 | the forgot-password link opens `/forgot-password` and does nothing else: no state change, call, toast or storage write |
| Registration.Validate | force-app/main/default/lwc/userRegistration/userRegistration.js:95-142 | each input gets its message exactly when its own check fails, with no trimming: names when empty, email when not matching, password when not meeting the policy, confirmation when empty or different; unaccepted terms are flagged separately |
| Registration.ValidateIff | force-app/main/default/lwc/userRegistration/userRegistration.js:95-142 | validation passes exactly when all five inputs are filled, the email matches, the password meets the policy, the confirmation equals it and the terms are accepted |
| Registration.HandleRegister | force-app/main/default/lwc/userRegistration/userRegistration.js:55-93 | a failing form gets its messages (and the terms toast when unaccepted) and sends nothing; a valid one is sent and ends idle, and the login page opens after 2000 ms exactly when the server accepted it |
| Registration.MismatchBlocksRegister | force-app/main/default/lwc/userRegistration/userRegistration.js:128-134 | a filled-in confirmation that differs from the password gets the "do not match" message and nothing is sent |
| Registration.TermsBlockRegister | force-app/main/default/lwc/userRegistration/userRegistration.js:136-139 | unaccepted terms fail validation, show the terms toast and send nothing |
| Registration.IsRegisterDisabled | force-app/main/default/lwc/userRegistration/userRegistration.js:206-208 | the register button is disabled exactly when the form is busy, the terms are unaccepted, or one of the five inputs is empty |
| Registration.DisabledMatchesValidation | force-app/main/default/lwc/userRegistration/userRegistration.js:206-208 | for a form that passes validation the button is disabled exactly while busy; a button disabled on an idle form only guards a form that would not be sent |
| Registration.HandleKeyPress | force-app/main/default/lwc/userRegistration/userRegistration.js:49-53 | Enter submits the registration; any other key changes nothing |
| Registration.Edit | force-app/main/default/lwc/userRegistration/userRegistration.js:17-35 | an input change sets exactly that field and nothing else |
| Registration.SetTerms | force-app/main/default/lwc/userRegistration/userRegistration.js:37-39 | the terms checkbox sets the acceptance flag and nothing else |
| Registration.TogglePasswordVisibility | force-app/main/default/lwc/userRegistration/userRegistration.js:41-43 | the toggle flips whether the password is shown and changes nothing else |
| Registration.ToggleConfirmPasswordVisibility | force-app/main/default/lwc/userRegistration/userRegistration.js:45-47 | the toggle flips whether the confirmation is shown and changes nothing else |
| Registration.TogglesInvolutive | force-app/main/default/lwc/userRegistration/userRegistration.js:41-47 | each toggle undoes itself and the two commute |
| Registration.PasswordInputType | force-app/main/default/lwc/userRegistration/userRegistration.js:190-192 | the password input is `text` when shown and `password` otherwise |
| Registration.ConfirmPasswordInputType | force-app/main/default/lwc/userRegistration/userRegistration.js:194-196 | the confirmation input is `text` when shown and `password` otherwise |
| Registration.PasswordToggleIcon | force-app/main/default/lwc/userRegistration/userRegistration.js:198-200 | the password toggle shows `utility:hide` when the password is shown and `utility:preview` otherwise |
| Registration.ConfirmPasswordToggleIcon | force-app/main/default/lwc/userRegistration/userRegistration.js:202-204 | the confirmation toggle shows `utility:hide` when the confirmation is shown and `utility:preview` otherwise |
| Registration.FormPasswordStrength | force-app/main/default/lwc/userRegistration/userRegistration.js:210-253 | the meter is the password meter of the form's current password whatever the other inputs hold, so it is absent exactly when the password is empty, and is the full Strong meter for every form that passes validation |
| Registration.LoginClick | force-app/main/default/lwc/userRegistration/userRegistration.js:170-178 | the sign-in link opens `/login` at once and does nothing else: no state change, call, toast or storage write |

## Left out

- The host framework (reactive fields, `connectedCallback`), the DOM queries behind `setFieldError` and `resetFieldValidation`, and the toast's `mode`: validity messages are a map in the state, toasts are values.
- The server procedures, `await` and promise rejection: each call's ending is an `Outcome` parameter; `console.error` logging is dropped.
- The transient `isLoading = true` while a call is awaited: a transition returns only the state after the call settles, so re-entry while busy is not modelled.
- `sessionStorage` and JSON serialisation: storage is an `Option<Session>` input to profile loading and a write effect elsewhere; a stored value that fails to parse, and a successful result with no data, are not modelled.
- The `setTimeout` of the registration success path is a `Navigation` with a 2000 ms delay.
- The strength meter's width is a number of percent; the `'%'` suffix of the string is not modelled.
- `profileImage`: building an external avatar URL with `encodeURIComponent` has no property to state.
- Whitespace and case: the whitespace class is the six ASCII whitespace characters and upper-casing covers `a`-`z` only; Unicode whitespace and case mapping are not modelled.
- Profile.Initials: takes the first character of a name as a whole Unicode character, whereas `charAt(0)` returns one UTF-16 unit, which for a name starting outside the Basic Multilingual Plane is a lone surrogate that a Dafny `char` cannot hold.
- Session field values are strings; a present field holding another falsy value is not distinguished from an absent one.
