/** The show/hide toggle of a password input, shared by the login and the
    registration forms. */
module Visibility {

  /** The input's `type` attribute: plain text while shown. */
  function InputType(shown: bool): (t: string)
    ensures t == "text" <==> shown
    ensures t == "text" || t == "password"
  {
    if shown then "text" else "password"
  }

  /** The toggle button's icon: the action the button performs next. */
  function ToggleIcon(shown: bool): (icon: string)
    ensures icon == "utility:hide" <==> shown
    ensures icon == "utility:hide" || icon == "utility:preview"
  {
    if shown then "utility:hide" else "utility:preview"
  }
}
