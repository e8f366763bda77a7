/** The sign-in page (`Auth`): the magic-link form and the username/password
    form in its sign-up and login modes. Each handler is split into the part
    before its call and the part after the answer. */
module AuthForm {
  import opened Wrappers

  datatype Form = Form(email: string, username: string, password: string,
                       loading: bool, magicLinkSent: bool, isSignUp: bool)

  /** The authentication calls the page makes. */
  datatype Call =
    | SendMagicLink(email: string)
    | SignUp(email: string, password: string, username: string)
    | LookupUsername(username: string)
    | SignIn(profileEmail: Option<string>, password: string)

  /** One step: the new form, the call made (if any), the error shown (if
      any), and whether the page moves on to `/home`. */
  datatype Step = Step(form: Form, call: Option<Call>, error: Option<string>, goHome: bool)

  const EmailMissing := "Bitte gib deine E-Mail-Adresse ein"
  const FieldsMissing := "Bitte fülle alle Felder aus"
  const UnknownUsername := "Benutzername nicht gefunden"
  const GenericError := "Ein Fehler ist aufgetreten"

  /** A failed call's message, or the generic one when it is empty. */
  function ErrorText(message: string): string {
    if message != "" then message else GenericError
  }

  /** `handleMagicLink` up to the call: an empty e-mail is refused before
      `loading` is set; otherwise the link is requested. */
  function MagicLinkPressed(f: Form): (r: Step)
    ensures f.email == "" ==> r == Step(f, None, Some(EmailMissing), false)
    ensures f.email != "" ==> r == Step(f.(loading := true), Some(SendMagicLink(f.email)), None, false)
  {
    if f.email == "" then Step(f, None, Some(EmailMissing), false)
    else Step(f.(loading := true), Some(SendMagicLink(f.email)), None, false)
  }

  /** The magic-link request settles: success shows the "check your mail"
      screen and no error; `loading` ends either way, and the fields and the
      mode are kept. */
  function MagicLinkSettled(f: Form, callError: Option<string>): (r: Step)
    ensures !r.form.loading && r.call.None? && !r.goHome
    ensures r.form.magicLinkSent <==> f.magicLinkSent || callError.None?
    ensures callError.Some? ==> r.error == Some(ErrorText(callError.value))
    ensures callError.None? ==> r == Step(f.(loading := false, magicLinkSent := true), None, None, false)
    ensures callError.Some? ==> r == Step(f.(loading := false), None, Some(ErrorText(callError.value)), false)
  {
    match callError
    case None => Step(f.(loading := false, magicLinkSent := true), None, None, false)
    case Some(e) => Step(f.(loading := false), None, Some(ErrorText(e)), false)
  }

  /** The fields the current mode needs: e-mail, username and password to sign
      up; username and password to log in. */
  predicate FieldsComplete(f: Form) {
    (f.isSignUp ==> f.email != "") && f.username != "" && f.password != ""
  }

  /** `handlePasswordAuth` up to its first call: missing fields are refused
      before `loading` is set; sign-up calls `signUp`, login first looks the
      username up. */
  function PasswordPressed(f: Form): (r: Step)
    ensures !FieldsComplete(f) ==> r == Step(f, None, Some(FieldsMissing), false)
    ensures FieldsComplete(f) && f.isSignUp ==>
              r == Step(f.(loading := true), Some(SignUp(f.email, f.password, f.username)), None, false)
    ensures FieldsComplete(f) && !f.isSignUp ==>
              r == Step(f.(loading := true), Some(LookupUsername(f.username)), None, false)
  {
    if !FieldsComplete(f) then Step(f, None, Some(FieldsMissing), false)
    else if f.isSignUp then Step(f.(loading := true), Some(SignUp(f.email, f.password, f.username)), None, false)
    else Step(f.(loading := true), Some(LookupUsername(f.username)), None, false)
  }

  /** Login needs no e-mail: a form with username and password but an empty
      e-mail is refused in sign-up mode and accepted in login mode. */
  lemma LoginIgnoresEmail(f: Form)
    requires f.email == "" && f.username != "" && f.password != ""
    ensures PasswordPressed(f.(isSignUp := true)).error == Some(FieldsMissing)
    ensures PasswordPressed(f.(isSignUp := false)).call == Some(LookupUsername(f.username))
  {
  }

  /** The sign-up settles: success clears the three fields and switches to
      login mode; an error keeps the form. `loading` ends either way. */
  function SignUpSettled(f: Form, callError: Option<string>): (r: Step)
    ensures !r.form.loading && r.call.None? && !r.goHome
    ensures callError.None? ==> r.form == f.(loading := false, isSignUp := false, email := "", username := "", password := "")
    ensures callError.None? ==> r.error.None?
    ensures callError.Some? ==> r == Step(f.(loading := false), None, Some(ErrorText(callError.value)), false)
  {
    match callError
    case None => Step(f.(loading := false, isSignUp := false, email := "", username := "", password := ""), None, None, false)
    case Some(e) => Step(f.(loading := false), None, Some(ErrorText(e)), false)
  }

  /** The username lookup settles. `found` is the `.single()` answer: a
      profile (whose e-mail may be `null`) when exactly one row matched. Without
      one the login stops with "not found" and no sign-in is tried. */
  function LookupSettled(f: Form, found: Option<Option<string>>): (r: Step)
    ensures found.None? ==> r == Step(f.(loading := false), None, Some(UnknownUsername), false)
    ensures found.Some? ==> r == Step(f, Some(SignIn(found.value, f.password)), None, false)
  {
    match found
    case None => Step(f.(loading := false), None, Some(UnknownUsername), false)
    case Some(email) => Step(f, Some(SignIn(email, f.password)), None, false)
  }

  /** The sign-in settles: only success goes to `/home`, with no error;
      `loading` ends either way, and the fields and the mode are kept. */
  function SignInSettled(f: Form, callError: Option<string>): (r: Step)
    ensures !r.form.loading && r.call.None?
    ensures r.goHome <==> callError.None?
    ensures callError.Some? ==> r.error == Some(ErrorText(callError.value))
    ensures callError.None? ==> r == Step(f.(loading := false), None, None, true)
    ensures callError.Some? ==> r == Step(f.(loading := false), None, Some(ErrorText(callError.value)), false)
  {
    match callError
    case None => Step(f.(loading := false), None, None, true)
    case Some(e) => Step(f.(loading := false), None, Some(ErrorText(e)), false)
  }

  /** A login reaches `/home` only when the username was found and the
      password sign-in succeeded. */
  lemma LoginReachesHomeOnlyWhenFoundAndAccepted(f: Form, found: Option<Option<string>>, callError: Option<string>)
    requires FieldsComplete(f) && !f.isSignUp
    ensures var looked := LookupSettled(PasswordPressed(f).form, found);
      (looked.call.None? ==> !looked.goHome) &&
      (looked.call.Some? ==> (SignInSettled(looked.form, callError).goHome <==> found.Some? && callError.None?))
  {
  }
}
