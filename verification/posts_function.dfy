/** The `posts` edge function: create a post, or delete one's own post. */
module PostsFunction {
  import opened Wrappers
  import opened Text
  import opened Seqs
  import opened Http

  /** The longest raw (untrimmed) post content the function accepts. */
  const MaxContentLength := 5000

  datatype PostRow = PostRow(id: string, userId: string, content: string)

  /** The JSON body: `method` selects the operation; absent fields are `None`. */
  datatype Body = Body(methodName: Option<string>, postId: string, content: Option<string>)

  datatype Request = Request(httpMethod: string, authorization: Option<string>, body: Result<Body, string>)

  /** The payload of a 200 reply: the created row, or `{ success: true }`. */
  datatype Payload = Created(row: PostRow) | Deleted

  datatype Outcome = Outcome(reply: Reply<Payload>, posts: seq<PostRow>)

  function RowId(p: PostRow): string { p.id }

  /** `.eq('id', postId).single()`: the row when exactly one row has the id. */
  function SingleRow(posts: seq<PostRow>, postId: string): (r: Option<PostRow>)
    ensures r.Some? ==> r.value in posts && r.value.id == postId
    ensures r.Some? ==> forall p :: p in posts && p.id == postId ==> p == r.value
    ensures (exists p :: p in posts && p.id == postId) && r.None? ==> |FilterKey(posts, RowId, postId)| > 1
  {
    var matches := FilterKey(posts, RowId, postId);
    if |matches| == 1 then Some(matches[0]) else None
  }

  /** The user the request is made for, when its bearer token verifies. */
  function Caller(req: Request, clerk: string -> Option<string>): Option<string> {
    VerifyClerkToken(req.authorization, clerk)
  }

  /** The request gets past authentication and body parsing. */
  predicate Admitted(req: Request, clerk: string -> Option<string>) {
    req.httpMethod != "OPTIONS" && Caller(req, clerk).Some? && req.body.Ok?
  }

  /** The caller may delete the post: it exists (as a single row) and is theirs. */
  predicate MayDelete(req: Request, clerk: string -> Option<string>, posts: seq<PostRow>)
    requires Admitted(req, clerk)
  {
    var post := SingleRow(posts, req.body.value.postId);
    post.Some? && post.value.userId == Caller(req, clerk).value
  }

  /** The request handler. `insert` is the database's answer to an insert (the
      new row's id or an error message); `deleteError` its answer to a delete. */
  function Serve(req: Request, clerk: string -> Option<string>, insert: Result<string, string>,
                 deleteError: Option<string>, posts: seq<PostRow>): (o: Outcome)
    ensures o.reply.Preflight? <==> req.httpMethod == "OPTIONS"
    ensures !o.reply.Success? ==> o.posts == posts
    ensures req.httpMethod != "OPTIONS" && Caller(req, clerk).None? ==> o.reply == Fail(401, "Unauthorized")
    ensures req.httpMethod != "OPTIONS" && Caller(req, clerk).Some? && req.body.Err? ==>
              o.reply == Fail(500, req.body.error)
    ensures Admitted(req, clerk) && req.body.value.methodName == Some("CREATE") ==>
              var v := CheckContent(req.body.value.content, MaxContentLength);
              (v.Err? ==> o.reply == Fail(400, v.error)) &&
              (v.Ok? && insert.Err? ==> o.reply == Fail(500, insert.error)) &&
              (v.Ok? && insert.Ok? ==>
                 var row := PostRow(insert.value, Caller(req, clerk).value, v.value);
                 o.reply == Success(Created(row)) && o.posts == posts + [row])
    ensures Admitted(req, clerk) && req.body.value.methodName == Some("DELETE") ==>
              (!MayDelete(req, clerk, posts) ==> o.reply == Fail(403, "Forbidden")) &&
              (MayDelete(req, clerk, posts) && deleteError.Some? ==> o.reply == Fail(500, deleteError.value)) &&
              (MayDelete(req, clerk, posts) && deleteError.None? ==>
                 o.reply == Success(Deleted) &&
                 o.posts == FilterOutKey(posts, RowId, req.body.value.postId) &&
                 |o.posts| == |posts| - 1)
    ensures Admitted(req, clerk) && req.body.value.methodName !in {Some("CREATE"), Some("DELETE")} ==>
              o.reply == Fail(400, "Invalid method")
  {
    if req.httpMethod == "OPTIONS" then Outcome(Preflight, posts)
    else
      match Caller(req, clerk)
      case None => Outcome(Fail(401, "Unauthorized"), posts)
      case Some(userId) =>
        match req.body
        case Err(parseError) => Outcome(Fail(500, parseError), posts)
        case Ok(body) =>
          if body.methodName == Some("CREATE") then
            match CheckContent(body.content, MaxContentLength)
            case Err(e) => Outcome(Fail(400, e), posts)
            case Ok(text) =>
              match insert
              case Err(dbError) => Outcome(Fail(500, dbError), posts)
              case Ok(id) =>
                var row := PostRow(id, userId, text);
                Outcome(Success(Created(row)), posts + [row])
          else if body.methodName == Some("DELETE") then
            var post := SingleRow(posts, body.postId);
            if post.None? || post.value.userId != userId then Outcome(Fail(403, "Forbidden"), posts)
            else if deleteError.Some? then Outcome(Fail(500, deleteError.value), posts)
            else
              KeySplitCounts(posts, RowId, body.postId);
              Outcome(Success(Deleted), FilterOutKey(posts, RowId, body.postId))
          else Outcome(Fail(400, "Invalid method"), posts)
  }
}
