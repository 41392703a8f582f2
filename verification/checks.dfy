/** The field checks the form pages share. Each returns the message to store
    under the field, or `None` when the field passes; the messages differ
    from page to page and are passed in. */
module Checks {
  import opened JsStrings
  import opened Optional
  import opened Patterns

  /** `if (!value)`: the value must not be empty; nothing is trimmed. */
  function RequireText(value: string, message: string): (r: Option<string>)
    ensures r == None <==> value != ""
    ensures value == "" ==> r == Some(message)
  {
    if value == "" then Some(message) else None
  }

  /** `if (!value.trim())`: the value must not be blank after trimming. */
  function RequireNonBlank(value: string, message: string): (r: Option<string>)
    ensures r == None <==> !AllSpace(value)
    ensures r != None ==> r == Some(message)
  {
    if Trim(value) == [] then Some(message) else None
  }

  /** An email that must be non-empty (untrimmed) and match `\S+@\S+\.\S+`. */
  function RequireEmail(email: string, required: string, invalid: string): (r: Option<string>)
    ensures r == None <==> email != "" && EmailRegexTest(email)
    ensures email == "" ==> r == Some(required)
    ensures email != "" && !EmailRegexTest(email) ==> r == Some(invalid)
  {
    LooksLikeEmailIsRegexTest(email);
    if email == "" then Some(required)
    else if !LooksLikeEmail(email) then Some(invalid)
    else None
  }

  /** An email that must not be blank after trimming and must match `\S+@\S+\.\S+`. */
  function RequireNonBlankEmail(email: string, required: string, invalid: string): (r: Option<string>)
    ensures r == None <==> !AllSpace(email) && EmailRegexTest(email)
    ensures AllSpace(email) ==> r == Some(required)
    ensures !AllSpace(email) && !EmailRegexTest(email) ==> r == Some(invalid)
  {
    LooksLikeEmailIsRegexTest(email);
    if Trim(email) == [] then Some(required)
    else if !LooksLikeEmail(email) then Some(invalid)
    else None
  }

  /** A blank email is reported as missing when trimmed first, but as badly
      formed when only emptiness is checked. */
  lemma BlankEmailMessages(email: string, required: string, invalid: string)
    requires email != "" && AllSpace(email)
    ensures RequireNonBlankEmail(email, required, invalid) == Some(required)
    ensures RequireEmail(email, required, invalid) == Some(invalid)
  {
    BlankIsNotEmail(email);
  }
}
