/** The `conversations` edge function: open a direct conversation or create a
    group, both through stored procedures whose bodies are outside the model. */
module ConversationsFunction {
  import opened Wrappers
  import opened Text
  import opened Http

  const GetOrCreateDm := "GET_OR_CREATE_DM"
  const CreateGroup := "CREATE_GROUP"

  /** The JSON body; absent or null fields are `None`. */
  datatype Body = Body(action: Option<string>, otherUserId: Option<string>,
                       groupName: Option<string>, participantIds: Option<seq<string>>)

  datatype Request = Request(httpMethod: string, authorization: Option<string>, body: Result<Body, string>)

  /** A call of one of the two stored procedures, with the arguments passed. */
  datatype RpcCall =
    | GetOrCreateConversation(currentUserId: string, otherUserId: Option<string>)
    | CreateGroupConversation(currentUserId: string, groupName: string, participantIds: seq<string>)

  /** The client library's answer to an RPC: its data and its error message. */
  datatype RpcReply = RpcReply(data: Option<string>, error: Option<string>)

  /** The reply (carrying the conversation id, possibly null) and the stored
      procedure called, if any. */
  datatype Outcome = Outcome(reply: Reply<Option<string>>, call: Option<RpcCall>)

  /** Group validation: the name is checked before the participant list, and
      the list is counted as given, duplicates included. A valid request yields
      the trimmed name and the list unchanged. */
  function ValidateGroup(groupName: Option<string>, participantIds: Option<seq<string>>): (r: Result<(string, seq<string>), string>)
    ensures r.Ok? <==> groupName.Some? && !IsBlank(groupName.value) && participantIds.Some? && |participantIds.value| >= 2
    ensures r.Ok? ==> r.value == (Trim(groupName.value), participantIds.value)
    ensures groupName.None? || IsBlank(groupName.value) ==> r == Err("Group name required")
    ensures groupName.Some? && !IsBlank(groupName.value) && (participantIds.None? || |participantIds.value| < 2) ==>
              r == Err("At least 2 participants required")
  {
    if groupName.None? || Trim(groupName.value) == "" then Err("Group name required")
    else if participantIds.None? || |participantIds.value| < 2 then Err("At least 2 participants required")
    else Result.Ok((Trim(groupName.value), participantIds.value))
  }

  /** The user the request is made for, when its bearer token verifies. */
  function Caller(req: Request, clerk: string -> Option<string>): Option<string> {
    VerifyClerkToken(req.authorization, clerk)
  }

  /** The request gets past authentication and body parsing. */
  predicate Admitted(req: Request, clerk: string -> Option<string>) {
    req.httpMethod != "OPTIONS" && Caller(req, clerk).Some? && req.body.Ok?
  }

  /** The request handler; `rpc` is the database's opaque answer to each stored
      procedure call. */
  function Serve(req: Request, clerk: string -> Option<string>, rpc: RpcCall -> RpcReply): (o: Outcome)
    ensures o.reply.Preflight? <==> req.httpMethod == "OPTIONS"
    ensures o.call.Some? ==> Admitted(req, clerk)
    ensures req.httpMethod != "OPTIONS" && Caller(req, clerk).None? ==> o.reply == Fail(401, "Unauthorized")
    ensures req.httpMethod != "OPTIONS" && Caller(req, clerk).Some? && req.body.Err? ==>
              o.reply == Fail(500, req.body.error)
    ensures Admitted(req, clerk) && req.body.value.action == Some(GetOrCreateDm) ==>
              var call := GetOrCreateConversation(Caller(req, clerk).value, req.body.value.otherUserId);
              o.call == Some(call) && o.reply == Success(rpc(call).data)
    ensures Admitted(req, clerk) && req.body.value.action == Some(CreateGroup) ==>
              var v := ValidateGroup(req.body.value.groupName, req.body.value.participantIds);
              (v.Err? ==> o.call.None? && o.reply == Fail(400, v.error)) &&
              (v.Ok? ==>
                 var call := CreateGroupConversation(Caller(req, clerk).value, v.value.0, v.value.1);
                 o.call == Some(call) &&
                 o.reply == (if rpc(call).error.Some? then Fail(500, rpc(call).error.value) else Success(rpc(call).data)))
    ensures Admitted(req, clerk) && req.body.value.action !in {Some(GetOrCreateDm), Some(CreateGroup)} ==>
              o.call.None? && o.reply == Fail(400, "Invalid action")
  {
    if req.httpMethod == "OPTIONS" then Outcome(Preflight, None)
    else
      match Caller(req, clerk)
      case None => Outcome(Fail(401, "Unauthorized"), None)
      case Some(userId) =>
        match req.body
        case Err(parseError) => Outcome(Fail(500, parseError), None)
        case Ok(body) =>
          if body.action == Some(GetOrCreateDm) then
            var call := GetOrCreateConversation(userId, body.otherUserId);
            Outcome(Success(rpc(call).data), Some(call))
          else if body.action == Some(CreateGroup) then
            match ValidateGroup(body.groupName, body.participantIds)
            case Err(e) => Outcome(Fail(400, e), None)
            case Ok((name, ids)) =>
              var call := CreateGroupConversation(userId, name, ids);
              var answer := rpc(call);
              if answer.error.Some? then Outcome(Fail(500, answer.error.value), Some(call))
              else Outcome(Success(answer.data), Some(call))
          else Outcome(Fail(400, "Invalid action"), None)
  }

  /** A direct-conversation request is never refused after authentication: a
      failing procedure still yields 200 (with null data), and a request naming
      the caller as the other user is forwarded as is. */
  lemma DirectRequestAlwaysSucceeds(req: Request, clerk: string -> Option<string>, rpc: RpcCall -> RpcReply)
    requires Admitted(req, clerk) && req.body.value.action == Some(GetOrCreateDm)
    ensures Serve(req, clerk, rpc).reply.Status() == 200
  {
  }
}
