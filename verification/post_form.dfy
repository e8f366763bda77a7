/** The "new post" form (`PostForm`): the blank and signed-out guards, the
    schema, the insert and what the form keeps afterwards. */
module PostForm {
  import opened Wrappers
  import opened Text
  import Schemas
  import Http
  import PostsFunction

  datatype Form = Form(content: string, loading: bool)

  /** What pressing "post" leads to. */
  datatype Submit = Ignored | Invalid(message: string) | InsertPost(content: string, userId: string)

  /** `handleSubmit` up to the insert: nothing happens for a blank text or
      when nobody is signed in; otherwise the schema runs, and a valid post is
      stored trimmed under the signed-in user. A schema failure reports its
      first message, ends `loading` and keeps the text. */
  function Submitted(f: Form, user: Option<string>): (r: (Form, Submit))
    ensures r.1 == Ignored <==> IsBlank(f.content) || user.None?
    ensures r.1 == Ignored ==> r.0 == f
    ensures r.1.Invalid? ==> r.0 == f.(loading := false) && r.1.message == Schemas.PostTooLong && Utf16Length(Trim(f.content)) > 5000
    ensures r.1.InsertPost? <==> user.Some? && 1 <= Utf16Length(Trim(f.content)) <= 5000
    ensures r.1.InsertPost? ==> r.0 == f.(loading := true) && r.1 == InsertPost(Trim(f.content), user.value)
  {
    Schemas.PostAcceptance(f.content);
    if Trim(f.content) == [] || user.None? then (f, Ignored)
    else
      match Schemas.Parse(Schemas.PostSchema, f.content)
      case Ok(content) => (f.(loading := true), InsertPost(content, user.value))
      case Err(_) =>
        Schemas.NonBlankPostFailsOnlyForLength(f.content);
        (f.(loading := false), Invalid(Schemas.FirstError(Schemas.PostSchema, f.content).value))
  }

  /** The insert settles: on success the text is cleared and the feed is told
      (`onPostCreated`, the second component); on error the text is kept.
      `loading` ends either way. */
  function Settled(f: Form, insertError: Option<string>): (r: (Form, bool))
    ensures !r.0.loading
    ensures r.1 <==> insertError.None?
    ensures r.0.content == (if insertError.None? then "" else f.content)
  {
    if insertError.None? then (Form("", false), true) else (f.(loading := false), false)
  }

  /** Every post the form inserts would also pass the `posts` function's own
      check, which would store the same text. */
  lemma FormPostPassesServerCheck(f: Form, user: Option<string>)
    requires Submitted(f, user).1.InsertPost?
    ensures var content := Submitted(f, user).1.content;
      Http.CheckContent(Some(content), PostsFunction.MaxContentLength) == Result.Ok(content)
  {
    TrimIdempotent(f.content);
  }
}
