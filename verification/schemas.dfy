/** The client-side string schemas (zod `z.string().trim().min().max()` and
    `.regex()`): the input is trimmed first, every check then runs on the
    trimmed text, and the failures are reported in the order the checks are
    declared. */
module Schemas {
  import opened Wrappers
  import opened Text

  /** One check of a string schema, with the message it reports. The length
      checks count UTF-16 code units, as JavaScript's `length` does; `CharsMatch`
      is a regular expression of the form `^[class]+$`. */
  datatype Check =
    | MinLength(min: nat, message: string)
    | MaxLength(max: nat, message: string)
    | CharsMatch(allowed: char -> bool, message: string)

  function MessageOf(c: Check): string {
    match c
    case MinLength(_, m) => m
    case MaxLength(_, m) => m
    case CharsMatch(_, m) => m
  }

  predicate Passes(c: Check, s: string) {
    match c
    case MinLength(n, _) => Utf16Length(s) >= n
    case MaxLength(n, _) => Utf16Length(s) <= n
    case CharsMatch(allowed, _) => |s| > 0 && forall i :: 0 <= i < |s| ==> allowed(s[i])
  }

  /** The messages of the checks `s` fails, in declaration order. */
  function Failures(checks: seq<Check>, s: string): (r: seq<string>)
    ensures |r| == 0 <==> forall i :: 0 <= i < |checks| ==> Passes(checks[i], s)
  {
    if |checks| == 0 then []
    else
      assert forall i :: 1 <= i < |checks| ==> checks[i] == checks[1..][i - 1];
      (if Passes(checks[0], s) then [] else [MessageOf(checks[0])]) + Failures(checks[1..], s)
  }

  /** The first message reported belongs to the first check that fails. */
  lemma {:induction false} FirstFailureIsEarliest(checks: seq<Check>, s: string)
    requires |Failures(checks, s)| > 0
    ensures exists k :: 0 <= k < |checks| && !Passes(checks[k], s) && Failures(checks, s)[0] == MessageOf(checks[k]) &&
                        forall j :: 0 <= j < k ==> Passes(checks[j], s)
    decreases |checks|
  {
    if !Passes(checks[0], s) {
      assert Failures(checks, s)[0] == MessageOf(checks[0]);
    } else {
      var tail := checks[1..];
      assert Failures(checks, s) == Failures(tail, s);
      FirstFailureIsEarliest(tail, s);
      var k :| 0 <= k < |tail| && !Passes(tail[k], s) && Failures(tail, s)[0] == MessageOf(tail[k]) &&
               forall j :: 0 <= j < k ==> Passes(tail[j], s);
      assert tail[k] == checks[k + 1];
      assert forall j :: 1 <= j < k + 1 ==> checks[j] == tail[j - 1];
    }
  }

  /** `schema.parse`: the trimmed text when every check passes, otherwise the
      failure messages (the application shows the first one). */
  function Parse(checks: seq<Check>, input: string): (r: Result<string, seq<string>>)
    ensures r.Ok? <==> forall i :: 0 <= i < |checks| ==> Passes(checks[i], Trim(input))
    ensures r.Ok? ==> r.value == Trim(input)
    ensures r.Err? ==> |r.error| > 0
  {
    var failures := Failures(checks, Trim(input));
    if failures == [] then Result.Ok(Trim(input)) else Result.Err(failures)
  }

  /** The first message a failed parse reports (`error.errors[0].message`). */
  function FirstError(checks: seq<Check>, input: string): (r: Option<string>)
    ensures r.None? <==> Parse(checks, input).Ok?
    ensures r.Some? ==> exists k :: 0 <= k < |checks| && !Passes(checks[k], Trim(input)) &&
                                    r.value == MessageOf(checks[k]) &&
                                    forall j :: 0 <= j < k ==> Passes(checks[j], Trim(input))
  {
    match Parse(checks, input)
    case Ok(_) => None
    case Err(failures) =>
      FirstFailureIsEarliest(checks, Trim(input));
      Some(failures[0])
  }

  const CommentEmpty := "Kommentar darf nicht leer sein"
  const CommentTooLong := "Kommentar zu lang (max 2.000 Zeichen)"
  const PostEmpty := "Beitrag darf nicht leer sein"
  const PostTooLong := "Beitrag zu lang (max 5.000 Zeichen)"
  const UsernameTooShort := "Benutzername muss mindestens 3 Zeichen haben"
  const UsernameTooLong := "Benutzername darf maximal 20 Zeichen haben"
  const UsernameBadChars := "Nur Buchstaben, Zahlen und Unterstrich erlaubt"

  /** The comment schema of a post. */
  const CommentSchema: seq<Check> := [MinLength(1, CommentEmpty), MaxLength(2000, CommentTooLong)]

  /** The schema of a new post. */
  const PostSchema: seq<Check> := [MinLength(1, PostEmpty), MaxLength(5000, PostTooLong)]

  /** `[a-zA-Z0-9_]`. */
  predicate UsernameChar(c: char) {
    'a' <= c <= 'z' || 'A' <= c <= 'Z' || '0' <= c <= '9' || c == '_'
  }

  /** The onboarding username schema. */
  const UsernameSchema: seq<Check> :=
    [MinLength(3, UsernameTooShort), MaxLength(20, UsernameTooLong), CharsMatch(UsernameChar, UsernameBadChars)]

  /** A comment is accepted exactly when its trimmed length is 1 to 2000 code units. */
  lemma CommentAcceptance(input: string)
    ensures Parse(CommentSchema, input).Ok? <==> 1 <= Utf16Length(Trim(input)) <= 2000
  {
    assert CommentSchema[0] == MinLength(1, CommentEmpty);
    assert CommentSchema[1] == MaxLength(2000, CommentTooLong);
  }

  /** A post is accepted exactly when its trimmed length is 1 to 5000 code units. */
  lemma PostAcceptance(input: string)
    ensures Parse(PostSchema, input).Ok? <==> 1 <= Utf16Length(Trim(input)) <= 5000
  {
    assert PostSchema[0] == MinLength(1, PostEmpty);
    assert PostSchema[1] == MaxLength(5000, PostTooLong);
  }

  /** A username is accepted exactly when its trimmed form has 3 to 20
      characters, each a letter, digit or underscore (each a single code unit,
      so characters and code units agree here). */
  lemma UsernameAcceptance(input: string)
    ensures Parse(UsernameSchema, input).Ok? <==>
      3 <= |Trim(input)| <= 20 && forall i :: 0 <= i < |Trim(input)| ==> UsernameChar(Trim(input)[i])
  {
    assert UsernameSchema[0] == MinLength(3, UsernameTooShort);
    assert UsernameSchema[1] == MaxLength(20, UsernameTooLong);
    assert UsernameSchema[2] == CharsMatch(UsernameChar, UsernameBadChars);
    UsernameCharsAreSingleUnits(Trim(input));
  }

  /** A name made of username characters has one code unit per character. */
  lemma UsernameCharsAreSingleUnits(t: string)
    ensures (forall i :: 0 <= i < |t| ==> UsernameChar(t[i])) ==> Utf16Length(t) == |t|
  {
    if forall i :: 0 <= i < |t| ==> UsernameChar(t[i]) {
      assert forall i :: 0 <= i < |t| ==> InBmp(t[i]);
      Utf16LengthBmp(t);
    }
  }

  /** The length checks come first: a two-character name with a forbidden
      character reports the length, not the characters. */
  lemma UsernameLengthReportedFirst(input: string)
    requires Utf16Length(Trim(input)) < 3
    ensures FirstError(UsernameSchema, input) == Some(UsernameTooShort)
  {
    assert UsernameSchema[0] == MinLength(3, UsernameTooShort);
    assert !Passes(UsernameSchema[0], Trim(input));
  }

  /** A text that is not blank can only fail the comment schema for its length. */
  lemma NonBlankCommentFailsOnlyForLength(input: string)
    requires !IsBlank(input)
    ensures FirstError(CommentSchema, input).Some? ==> FirstError(CommentSchema, input) == Some(CommentTooLong)
  {
    assert CommentSchema[0] == MinLength(1, CommentEmpty);
    assert CommentSchema[1] == MaxLength(2000, CommentTooLong);
  }

  /** A text that is not blank can only fail the post schema for its length. */
  lemma NonBlankPostFailsOnlyForLength(input: string)
    requires !IsBlank(input)
    ensures FirstError(PostSchema, input).Some? ==> FirstError(PostSchema, input) == Some(PostTooLong)
  {
    assert PostSchema[0] == MinLength(1, PostEmpty);
    assert PostSchema[1] == MaxLength(5000, PostTooLong);
  }
}
