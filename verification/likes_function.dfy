/** The `likes` edge function: add or remove the caller's like of a post. */
module LikesFunction {
  import opened Wrappers
  import opened Seqs
  import opened Http

  /** A row of the like relation. */
  datatype Like = Like(postId: string, userId: string)

  /** The JSON body; an absent action is `None`. Any user id a client might
      send is not part of what the function reads. */
  datatype Body = Body(action: Option<string>, postId: string)

  datatype Request = Request(httpMethod: string, authorization: Option<string>, body: Result<Body, string>)

  /** The payload of a 200 reply: the inserted row, or `{ success: true }`. */
  datatype Payload = Added(row: Like) | Removed

  datatype Outcome = Outcome(reply: Reply<Payload>, likes: seq<Like>)

  /** The user the request is made for, when its bearer token verifies. */
  function Caller(req: Request, clerk: string -> Option<string>): Option<string> {
    VerifyClerkToken(req.authorization, clerk)
  }

  /** The request gets past authentication and body parsing. */
  predicate Admitted(req: Request, clerk: string -> Option<string>) {
    req.httpMethod != "OPTIONS" && Caller(req, clerk).Some? && req.body.Ok?
  }

  /** `.delete().eq('post_id', postId).eq('user_id', userId)`. */
  function RemoveLike(likes: seq<Like>, postId: string, userId: string): (r: seq<Like>)
    ensures forall l :: l in r <==> l in likes && l != Like(postId, userId)
    ensures IsSubseq(r, likes)
    ensures forall l :: multiset(r)[l] == if l == Like(postId, userId) then 0 else multiset(likes)[l]
  {
    var keep := (l: Like) => !(l.postId == postId && l.userId == userId);
    FilterCounts(likes, keep);
    Filter(likes, keep)
  }

  /** The request handler; `dbError` is the database's answer to the write. */
  function Serve(req: Request, clerk: string -> Option<string>, dbError: Option<string>, likes: seq<Like>): (o: Outcome)
    ensures o.reply.Preflight? <==> req.httpMethod == "OPTIONS"
    ensures !o.reply.Success? ==> o.likes == likes
    ensures req.httpMethod != "OPTIONS" && Caller(req, clerk).None? ==> o.reply == Fail(401, "Unauthorized")
    ensures req.httpMethod != "OPTIONS" && Caller(req, clerk).Some? && req.body.Err? ==>
              o.reply == Fail(500, req.body.error)
    ensures Admitted(req, clerk) && req.body.value.action in {Some("ADD"), Some("REMOVE")} && dbError.Some? ==>
              o.reply == Fail(500, dbError.value)
    ensures Admitted(req, clerk) && req.body.value.action == Some("ADD") && dbError.None? ==>
              var row := Like(req.body.value.postId, Caller(req, clerk).value);
              o.reply == Success(Added(row)) && o.likes == likes + [row]
    ensures Admitted(req, clerk) && req.body.value.action == Some("REMOVE") && dbError.None? ==>
              o.reply == Success(Removed) &&
              o.likes == RemoveLike(likes, req.body.value.postId, Caller(req, clerk).value)
    ensures Admitted(req, clerk) && req.body.value.action !in {Some("ADD"), Some("REMOVE")} ==>
              o.reply == Fail(400, "Invalid action")
  {
    if req.httpMethod == "OPTIONS" then Outcome(Preflight, likes)
    else
      match Caller(req, clerk)
      case None => Outcome(Fail(401, "Unauthorized"), likes)
      case Some(userId) =>
        match req.body
        case Err(parseError) => Outcome(Fail(500, parseError), likes)
        case Ok(body) =>
          if body.action == Some("ADD") then
            if dbError.Some? then Outcome(Fail(500, dbError.value), likes)
            else
              var row := Like(body.postId, userId);
              Outcome(Success(Added(row)), likes + [row])
          else if body.action == Some("REMOVE") then
            if dbError.Some? then Outcome(Fail(500, dbError.value), likes)
            else Outcome(Success(Removed), RemoveLike(likes, body.postId, userId))
          else Outcome(Fail(400, "Invalid action"), likes)
  }

  /** Removing touches only the caller's like of that post: likes of other
      posts and other users' likes of the same post stay, in order. */
  lemma RemoveKeepsOthers(likes: seq<Like>, postId: string, userId: string, other: Like)
    requires other != Like(postId, userId)
    ensures other in RemoveLike(likes, postId, userId) <==> other in likes
    ensures Like(postId, userId) !in RemoveLike(likes, postId, userId)
  {
  }
}
