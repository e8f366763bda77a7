/** The onboarding form (`Onboarding`): the username schema, what the profile
    update stores, and how its answer is reported. */
module Onboarding {
  import opened Wrappers
  import opened Text
  import Schemas

  /** The profile update the form sends for the signed-in user. */
  datatype ProfileUpdate = ProfileUpdate(userId: string, username: string, fullName: Option<string>)

  /** What pressing "continue" leads to. */
  datatype Submit = Ignored | Invalid(message: string) | Update(request: ProfileUpdate)

  /** `handleSubmit` up to the update: nothing happens when nobody is signed
      in; a username failing the schema reports the schema's first message;
      otherwise the trimmed username and the trimmed full name (or `null`
      when it trims to nothing) are stored. */
  function Submitted(user: Option<string>, username: string, fullName: string): (r: Submit)
    ensures r == Ignored <==> user.None?
    ensures user.Some? ==> (r.Update? <==> Schemas.Parse(Schemas.UsernameSchema, username).Ok?)
    ensures r.Invalid? ==> Some(r.message) == Schemas.FirstError(Schemas.UsernameSchema, username)
    ensures r.Update? ==> r.request.userId == user.value && r.request.username == Trim(username)
    ensures r.Update? ==> (r.request.fullName.None? <==> IsBlank(fullName))
    ensures r.Update? && r.request.fullName.Some? ==> r.request.fullName.value == Trim(fullName)
  {
    if user.None? then Ignored
    else
      match Schemas.Parse(Schemas.UsernameSchema, username)
      case Err(_) => Invalid(Schemas.FirstError(Schemas.UsernameSchema, username).value)
      case Ok(name) => Update(ProfileUpdate(user.value, name, if Trim(fullName) == "" then None else Some(Trim(fullName))))
  }

  /** A stored username satisfies the schema on its own, without the trimming:
      it has 3 to 20 characters from `[a-zA-Z0-9_]`. */
  lemma StoredUsernameIsClean(user: Option<string>, username: string, fullName: string)
    requires Submitted(user, username, fullName).Update?
    ensures var stored := Submitted(user, username, fullName).request.username;
      3 <= |stored| <= 20 && (forall i :: 0 <= i < |stored| ==> Schemas.UsernameChar(stored[i])) &&
      Trim(stored) == stored
  {
    Schemas.UsernameAcceptance(username);
    TrimIdempotent(username);
  }

  /** PostgreSQL's unique-violation code. */
  const UniqueViolation := "23505"
  const UsernameTaken := "Dieser Benutzername ist bereits vergeben"
  const GenericError := "Ein Fehler ist aufgetreten"

  /** A database error: its code and message. */
  datatype DbError = DbError(code: string, message: string)

  /** How the update ends: an error message, or navigation to `/home`. */
  datatype Ending = Shown(message: string) | GoHome

  /** The update settles: a duplicate username gets its own message, another
      error its message (or a generic one when empty); only success navigates. */
  function Settled(updateError: Option<DbError>): (r: Ending)
    ensures r == GoHome <==> updateError.None?
    ensures updateError.Some? && updateError.value.code == UniqueViolation ==> r == Shown(UsernameTaken)
    ensures updateError.Some? && updateError.value.code != UniqueViolation ==>
              r == Shown(if updateError.value.message != "" then updateError.value.message else GenericError)
  {
    match updateError
    case None => GoHome
    case Some(e) =>
      if e.code == UniqueViolation then Shown(UsernameTaken)
      else Shown(if e.message != "" then e.message else GenericError)
  }
}
