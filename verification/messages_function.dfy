/** The `messages` edge function: a verified participant posts a message to a
    conversation. */
module MessagesFunction {
  import opened Wrappers
  import opened Text
  import opened Http

  /** The longest raw (untrimmed) content the function accepts. */
  const MaxContentLength := 10000

  datatype MessageRow = MessageRow(id: string, conversationId: string, senderId: string, content: string)

  /** The rows the function reads and writes: conversation memberships as
      (conversation id, user id) pairs, and the message table. */
  datatype Db = Db(participants: set<(string, string)>, messages: seq<MessageRow>)

  /** The JSON body; `content` is absent when missing or null. */
  datatype SendBody = SendBody(conversationId: string, content: Option<string>)

  /** An HTTP request: method, `Authorization` header and the parsed body
      (`Err` carries the parser's message when the body is not JSON). */
  datatype Request = Request(httpMethod: string, authorization: Option<string>, body: Result<SendBody, string>)

  datatype Outcome = Outcome(reply: Reply<MessageRow>, db: Db)

  /** The user the request is made for, when its bearer token verifies. */
  function Caller(req: Request, clerk: string -> Option<string>): Option<string> {
    VerifyClerkToken(req.authorization, clerk)
  }

  /** The request gets past authentication and body parsing. */
  predicate Admitted(req: Request, clerk: string -> Option<string>) {
    req.httpMethod != "OPTIONS" && Caller(req, clerk).Some? && req.body.Ok?
  }

  /** The caller of an admitted request is a participant of the addressed conversation. */
  predicate IsMember(req: Request, clerk: string -> Option<string>, db: Db)
    requires Admitted(req, clerk)
  {
    (req.body.value.conversationId, Caller(req, clerk).value) in db.participants
  }

  /** The request handler. `clerk` stands for Clerk's token verification and
      `insert` for the database's answer to the insert: the new row's id, or
      an error message. */
  function Serve(req: Request, clerk: string -> Option<string>, insert: Result<string, string>, db: Db): (o: Outcome)
    ensures o.reply.Preflight? <==> req.httpMethod == "OPTIONS"
    ensures !o.reply.Success? ==> o.db == db
    ensures req.httpMethod != "OPTIONS" && Caller(req, clerk).None? ==> o.reply == Fail(401, "Unauthorized")
    ensures req.httpMethod != "OPTIONS" && Caller(req, clerk).Some? && req.body.Err? ==>
              o.reply == Fail(500, req.body.error)
    ensures Admitted(req, clerk) && !IsMember(req, clerk, db) ==> o.reply == Fail(403, "Forbidden")
    ensures Admitted(req, clerk) && IsMember(req, clerk, db) && CheckContent(req.body.value.content, MaxContentLength).Err? ==>
              o.reply == Fail(400, CheckContent(req.body.value.content, MaxContentLength).error)
    ensures Admitted(req, clerk) && IsMember(req, clerk, db) &&
            CheckContent(req.body.value.content, MaxContentLength).Ok? && insert.Err? ==>
              o.reply == Fail(500, insert.error)
    ensures o.reply.Fail? && o.reply.status == 400 ==>
              Admitted(req, clerk) && CheckContent(req.body.value.content, MaxContentLength).Err? &&
              o.reply.error == CheckContent(req.body.value.content, MaxContentLength).error
    ensures o.reply.Success? <==>
              Admitted(req, clerk) && IsMember(req, clerk, db) &&
              CheckContent(req.body.value.content, MaxContentLength).Ok? && insert.Ok?
    ensures o.reply.Success? ==>
              o.reply.data == MessageRow(insert.value, req.body.value.conversationId, Caller(req, clerk).value,
                                         Trim(req.body.value.content.value)) &&
              o.db == db.(messages := db.messages + [o.reply.data])
  {
    if req.httpMethod == "OPTIONS" then Outcome(Preflight, db)
    else
      match VerifyClerkToken(req.authorization, clerk)
      case None => Outcome(Fail(401, "Unauthorized"), db)
      case Some(userId) =>
        match req.body
        case Err(parseError) => Outcome(Fail(500, parseError), db)
        case Ok(body) =>
          if (body.conversationId, userId) !in db.participants then Outcome(Fail(403, "Forbidden"), db)
          else
            match CheckContent(body.content, MaxContentLength)
            case Err(e) => Outcome(Fail(400, e), db)
            case Ok(text) =>
              match insert
              case Err(dbError) => Outcome(Fail(500, dbError), db)
              case Ok(id) =>
                var row := MessageRow(id, body.conversationId, userId, text);
                Outcome(Success(row), db.(messages := db.messages + [row]))
  }

  /** Membership is checked before the content: a non-member who sends empty
      content is told 403, not 400. */
  lemma NonMemberWithEmptyContentIsForbidden(req: Request, clerk: string -> Option<string>, insert: Result<string, string>, db: Db)
    requires Admitted(req, clerk) && req.body.value.content == Some("")
    requires !IsMember(req, clerk, db)
    ensures Serve(req, clerk, insert, db).reply.Status() == 403
  {
  }
}
