/** What the edge functions share: the reply they send and the bearer-token
    check that precedes every request. */
module Http {
  import opened Wrappers
  import opened Text

  /** A reply of an edge function: the CORS preflight answer, an error with its
      HTTP status and message, or status 200 with a payload. */
  datatype Reply<+T> = Preflight | Fail(status: int, error: string) | Success(data: T) {

    /** The HTTP status the reply is sent with. */
    function Status(): int {
      match this
      case Fail(s, _) => s
      case _ => 200
    }
  }

  const BearerPrefix: string := "Bearer "

  /** The `Authorization` header is present and starts with `Bearer `. */
  predicate HasBearerPrefix(header: Option<string>) {
    header.Some? && BearerPrefix <= header.value
  }

  /** The token after the `Bearer ` prefix (`authHeader.substring(7)`). */
  function BearerToken(header: string): (t: string)
    requires BearerPrefix <= header
    ensures BearerPrefix + t == header
  {
    header[|BearerPrefix|..]
  }

  /** `verifyClerkToken` of the messages, conversations, posts and likes
      functions. The call to Clerk's token-verify endpoint is the parameter
      `clerk`: it maps a token to the `sub` claim of a successful verification,
      or to nothing when the call fails or the answer carries no `sub`. An
      empty `sub` is falsy and therefore also rejected. */
  function VerifyClerkToken(header: Option<string>, clerk: string -> Option<string>): (r: Option<string>)
    ensures !HasBearerPrefix(header) ==> r.None?
    ensures r.Some? <==>
      HasBearerPrefix(header) && clerk(BearerToken(header.value)).Some? && clerk(BearerToken(header.value)).value != ""
    ensures r.Some? ==> r.value == clerk(BearerToken(header.value)).value
  {
    if !HasBearerPrefix(header) then None
    else
      match clerk(BearerToken(header.value))
      case Some(sub) => if sub != "" then Some(sub) else None
      case None => None
  }

  /** The content check of the messages and posts functions: content that is
      missing or whitespace-only is refused first, then content whose RAW
      (untrimmed) length in UTF-16 code units exceeds the limit; accepted
      content is stored trimmed. */
  function CheckContent(content: Option<string>, maxRawLength: nat): (r: Result<string, string>)
    ensures r.Ok? <==> content.Some? && !IsBlank(content.value) && Utf16Length(content.value) <= maxRawLength
    ensures r.Ok? ==> r.value == Trim(content.value) && 0 < Utf16Length(r.value) <= maxRawLength
    ensures content.None? || IsBlank(content.value) ==> r == Err("Content required")
    ensures content.Some? && !IsBlank(content.value) && Utf16Length(content.value) > maxRawLength ==> r == Err("Content too long")
  {
    if content.None? || Trim(content.value) == "" then Err("Content required")
    else if Utf16Length(content.value) > maxRawLength then Err("Content too long")
    else
      Utf16LengthOfTrim(content.value);
      Result.Ok(Trim(content.value))
  }

  /** The limit counts the raw text: content padded with spaces to one more
      than the limit fails although its trimmed form fits, while the same
      content padded to exactly the limit passes. */
  lemma {:induction false} LimitCountsRawLength(core: string, pad: nat, maxRawLength: nat)
    requires !IsBlank(core) && pad >= 1
    requires Utf16Length(core) + pad == maxRawLength + 1
    ensures CheckContent(Some(core + seq(pad, _ => ' ')), maxRawLength) == Err("Content too long")
    ensures CheckContent(Some(seq(pad - 1, _ => ' ') + core), maxRawLength).Ok?
  {
    var i :| 0 <= i < |core| && !IsSpace(core[i]);
    var tooLong := core + seq(pad, _ => ' ');
    assert tooLong[i] == core[i];
    assert !IsBlank(tooLong);
    SpacesAreSingleUnits(pad);
    Utf16LengthAppend(core, seq(pad, _ => ' '));
    assert Utf16Length(tooLong) > maxRawLength;
    var fits := seq(pad - 1, _ => ' ') + core;
    assert fits[pad - 1 + i] == core[i];
    assert !IsBlank(fits);
    SpacesAreSingleUnits(pad - 1);
    Utf16LengthAppend(seq(pad - 1, _ => ' '), core);
    assert Utf16Length(fits) <= maxRawLength;
  }

  /** A run of spaces has one code unit per space. */
  lemma SpacesAreSingleUnits(n: nat)
    ensures Utf16Length(seq(n, _ => ' ')) == n
  {
    var spaces := seq(n, _ => ' ');
    assert forall i :: 0 <= i < |spaces| ==> InBmp(spaces[i]);
    Utf16LengthBmp(spaces);
  }
}
