/** The `clerk-proxy` edge function: it checks a Clerk session token itself
    and then runs a generic select/insert/update/delete/rpc against the
    database with the service role, substituting the caller's id where the
    client asks for it. */
module ClerkProxy {
  import opened Wrappers
  import opened Text
  import opened Http
  import Seqs

  /** A JSON value, as far as the proxy looks into one; objects and arrays are
      `JComposite`. Numbers are modelled as integers. `JUndefined` is
      JavaScript's `undefined`: no parsed body holds it, but it is what the
      proxy substitutes for the caller's id when the token has no `sub`. A
      property set to it is dropped when the row is serialised, and a filter
      on it compares with the text `undefined`. */
  datatype Json = JNull | JBool(b: bool) | JNum(n: int) | JStr(s: string) | JComposite | JUndefined

  /** JavaScript truthiness of a property that may be absent (`undefined`). */
  predicate Truthy(v: Option<Json>) {
    match v
    case None => false
    case Some(JNull) => false
    case Some(JBool(b)) => b
    case Some(JNum(n)) => n != 0
    case Some(JStr(s)) => s != ""
    case Some(JComposite) => true
    case Some(JUndefined) => false
  }

  const AuthMarker: Json := JStr("$auth")
  const ProfilesTable := "profiles"

  // ---------------------------------------------------------------- tokens

  /** The decoded JWT header; only `kid` is read. */
  datatype JwtHeader = JwtHeader(kid: Option<string>)

  /** The decoded JWT payload; `sub`, `email` and `exp` are absent when the
      token has none. */
  datatype JwtPayload = JwtPayload(sub: Option<string>, email: Option<string>, exp: Option<int>)

  /** The identity a verified token yields; a token without `sub` still
      yields one, whose `sub` is `undefined`. */
  datatype Identity = Identity(sub: Option<string>, email: Option<string>)

  /** `user.sub` as a JSON value. */
  function SubValue(sub: Option<string>): (v: Json)
    ensures v.JStr? <==> sub.Some?
    ensures sub.Some? ==> v.s == sub.value
    ensures !Truthy(Some(v)) <==> sub.None? || sub.value == ""
  {
    match sub
    case Some(id) => JStr(id)
    case None => JUndefined
  }

  /** What verification takes from outside: the `kid`s of the JWKS document
      (absent when the fetch fails), `atob` + `JSON.parse` of the header and
      payload segments (absent when either throws), and `Date.now()` in
      milliseconds. */
  datatype TokenEnv = TokenEnv(jwksKids: Option<seq<string>>,
                               decodeHeader: string -> Option<JwtHeader>,
                               decodePayload: string -> Option<JwtPayload>,
                               nowMs: int)

  /** Maps one base64url character to standard base64. */
  function UrlCharToStd(c: char): char {
    if c == '-' then '+' else if c == '_' then '/' else c
  }

  /** Maps one standard base64 character to base64url. */
  function StdCharToUrl(c: char): char {
    if c == '+' then '-' else if c == '/' then '_' else c
  }

  /** `.replace(/-/g, '+').replace(/_/g, '/')`, applied to the payload segment. */
  function UrlToStd(s: string): (r: string)
    ensures |r| == |s|
    ensures '-' !in r && '_' !in r
    ensures forall i :: 0 <= i < |s| && s[i] != '-' && s[i] != '_' ==> r[i] == s[i]
  {
    seq(|s|, i requires 0 <= i < |s| => UrlCharToStd(s[i]))
  }

  /** The inverse mapping, standard base64 to base64url. */
  function StdToUrl(s: string): (r: string)
    ensures |r| == |s|
    ensures '+' !in r && '/' !in r
  {
    seq(|s|, i requires 0 <= i < |s| => StdCharToUrl(s[i]))
  }

  /** The mapping loses nothing on a base64url text: mapping back restores it. */
  lemma UrlToStdRoundTrip(s: string)
    requires '+' !in s && '/' !in s
    ensures StdToUrl(UrlToStd(s)) == s
  {
    assert forall i :: 0 <= i < |s| ==> StdToUrl(UrlToStd(s))[i] == s[i];
  }

  /** The first `.`-separated segment (`token.split('.')[0]`). */
  function HeaderSegment(token: string): string {
    BeforeFirst(token, '.')
  }

  /** The second `.`-separated segment (`token.split('.')[1]`), absent when the
      token has no `.`. */
  function PayloadSegment(token: string): (r: Option<string>)
    ensures r.Some? <==> '.' in token
    ensures r.Some? ==> HeaderSegment(token) + "." + r.value <= token && '.' !in r.value
    ensures r.Some? ==> var k := |HeaderSegment(token)| + 1 + |r.value|; k == |token| || token[k] == '.'
  {
    match AfterFirst(token, '.')
    case None => None
    case Some(rest) =>
      var seg := BeforeFirst(rest, '.');
      var k := |HeaderSegment(token)| + 1 + |seg|;
      assert k < |token| ==> token[k] == rest[|seg|];
      Some(seg)
  }

  /** `payload.exp && payload.exp < Date.now() / 1000`: a present, non-zero
      `exp` (in seconds) that lies before now. */
  predicate Expired(exp: Option<int>, nowMs: int) {
    exp.Some? && exp.value != 0 && exp.value * 1000 < nowMs
  }

  /** `verifyClerkToken` of the proxy: the header's `kid` must name a JWKS key,
      the payload must decode, and a present `exp` must not lie in the past.
      The signature is not checked. */
  function VerifyToken(token: string, env: TokenEnv): (r: Option<Identity>)
    ensures r.Some? <==>
      env.jwksKids.Some? &&
      env.decodeHeader(HeaderSegment(token)).Some? &&
      env.decodeHeader(HeaderSegment(token)).value.kid.Some? &&
      env.decodeHeader(HeaderSegment(token)).value.kid.value in env.jwksKids.value &&
      PayloadSegment(token).Some? &&
      env.decodePayload(UrlToStd(PayloadSegment(token).value)).Some? &&
      !Expired(env.decodePayload(UrlToStd(PayloadSegment(token).value)).value.exp, env.nowMs)
    ensures r.Some? ==>
      var p := env.decodePayload(UrlToStd(PayloadSegment(token).value)).value;
      r.value == Identity(p.sub, p.email)
  {
    match env.jwksKids
    case None => None
    case Some(kids) =>
      match env.decodeHeader(HeaderSegment(token))
      case None => None
      case Some(header) =>
        if header.kid.None? || header.kid.value !in kids then None
        else
          match PayloadSegment(token)
          case None => None
          case Some(segment) =>
            match env.decodePayload(UrlToStd(segment))
            case None => None
            case Some(payload) =>
              if Expired(payload.exp, env.nowMs) then None
              else Some(Identity(payload.sub, payload.email))
  }

  /** A token without `exp`, or with `exp` 0, is never refused for its age. */
  lemma NoExpiryNeverExpires(exp: Option<int>, nowMs: int)
    requires exp.None? || exp == Some(0)
    ensures !Expired(exp, nowMs)
  {
  }

  /** `exp` is compared with now in seconds, not truncated: a token expiring at
      second `e` is still accepted at the millisecond `e * 1000` and refused
      one millisecond later. */
  lemma ExpiryBoundary(e: int)
    requires e != 0
    ensures !Expired(Some(e), e * 1000)
    ensures Expired(Some(e), e * 1000 + 1)
  {
  }

  // -------------------------------------------------------------- requests

  /** An equality condition `column = value` of a query. */
  datatype Condition = Eq(column: string, value: Json)

  /** The `order` option; `ascending` is absent when not given. */
  datatype Order = Order(column: string, ascending: Option<bool>)

  /** The JSON body; absent fields are `None`. `filters` lists the entries of
      the filter object in order; `data` is the row object. */
  datatype ProxyBody = ProxyBody(operation: Option<string>, table: string,
                                 data: Option<map<string, Json>>,
                                 filters: Option<seq<(string, Json)>>,
                                 select: Option<string>, order: Option<Order>)

  datatype Request = Request(httpMethod: string, authorization: Option<string>, body: Result<ProxyBody, string>)

  /** The database request the proxy issues. */
  datatype DbRequest =
    | Select(table: string, columns: string, conditions: seq<Condition>, order: Option<(string, bool)>)
    | Insert(table: string, row: map<string, Json>)
    | Update(table: string, changes: Option<map<string, Json>>, conditions: seq<Condition>)
    | Delete(table: string, conditions: seq<Condition>)
    | Rpc(functionName: Option<Json>, params: Option<Json>)

  /** The success body `{ data, user_id }`: the rows (or RPC result) and the
      caller's id, which is left out when the caller's `sub` is `undefined`. */
  datatype ProxyData = ProxyData(data: Json, userId: Option<string>)

  datatype Outcome = Outcome(reply: Reply<ProxyData>, request: Option<DbRequest>)

  /** V8's message when `const { function_name, params } = data` meets `undefined`. */
  const DestructureError := "Cannot destructure property 'function_name' of 'data' as it is undefined."

  /** One filter entry: the pair (`user_id`, `$auth`) becomes `user_id = sub`;
      every other pair is used as given. */
  function RewriteEntry(entry: (string, Json), sub: Option<string>): Condition {
    if entry.0 == "user_id" && entry.1 == AuthMarker then Eq("user_id", SubValue(sub)) else Eq(entry.0, entry.1)
  }

  /** The conditions a filter object yields (none when `filters` is absent),
      one per entry and in the same order: each keeps its column and its
      value, except that the `$auth` marker under `user_id` becomes the
      caller's id. */
  function RewriteFilters(filters: Option<seq<(string, Json)>>, sub: Option<string>): (r: seq<Condition>)
    ensures filters.None? ==> r == []
    ensures filters.Some? ==> |r| == |filters.value|
    ensures filters.Some? ==> forall i :: 0 <= i < |r| ==>
              r[i].column == filters.value[i].0 &&
              (filters.value[i] != ("user_id", AuthMarker) ==> r[i].value == filters.value[i].1) &&
              (filters.value[i] == ("user_id", AuthMarker) ==> r[i].value == SubValue(sub))
  {
    match filters
    case None => []
    case Some(f) => seq(|f|, i requires 0 <= i < |f| => RewriteEntry(f[i], sub))
  }

  /** No `$auth` marker reaches the database (unless the caller's id is
      itself the marker text), and a filter without the marker is passed on
      entry for entry. */
  lemma RewriteReplacesOnlyTheMarker(filters: seq<(string, Json)>, sub: Option<string>)
    requires sub != Some("$auth")
    ensures var r := RewriteFilters(Some(filters), sub);
      (forall i :: 0 <= i < |r| ==> !(r[i].column == "user_id" && r[i].value == AuthMarker)) &&
      ((forall i :: 0 <= i < |filters| ==> filters[i] != ("user_id", AuthMarker)) ==>
         r == seq(|filters|, i requires 0 <= i < |filters| => Eq(filters[i].0, filters[i].1)))
  {
  }

  /** The insert row: a copy of `data` (or `{}`) where, outside `profiles`, a
      falsy `user_id` becomes `sub`, and in `profiles` a falsy `id` becomes
      `sub`. */
  function AutoFill(table: string, data: Option<map<string, Json>>, sub: Option<string>): (r: map<string, Json>)
    ensures table != ProfilesTable ==>
              "user_id" in r &&
              r["user_id"] == (if Truthy(Seqs.Get(data.GetOr(map[]), "user_id")) then data.GetOr(map[])["user_id"] else SubValue(sub))
    ensures table == ProfilesTable ==>
              "id" in r &&
              r["id"] == (if Truthy(Seqs.Get(data.GetOr(map[]), "id")) then data.GetOr(map[])["id"] else SubValue(sub))
    ensures table == ProfilesTable ==> ("user_id" in r <==> "user_id" in data.GetOr(map[]))
    ensures forall k :: k in data.GetOr(map[]) ==> k in r
    ensures table == ProfilesTable ==> forall k :: k in r && k != "id" ==> k in data.GetOr(map[]) && r[k] == data.GetOr(map[])[k]
    ensures table != ProfilesTable ==> forall k :: k in r && k != "user_id" ==> k in data.GetOr(map[]) && r[k] == data.GetOr(map[])[k]
  {
    var row := data.GetOr(map[]);
    var withUser := if !Truthy(Seqs.Get(row, "user_id")) && table != ProfilesTable then row["user_id" := SubValue(sub)] else row;
    if table == ProfilesTable && !Truthy(Seqs.Get(withUser, "id")) then withUser["id" := SubValue(sub)] else withUser
  }

  /** Filling in is idempotent: a row the proxy already completed passes
      through a second time unchanged. */
  lemma AutoFillIdempotent(table: string, data: Option<map<string, Json>>, sub: Option<string>)
    ensures AutoFill(table, Some(AutoFill(table, data, sub)), sub) == AutoFill(table, data, sub)
  {
  }

  /** The request handler. `env` supplies token verification's outside inputs
      and `db` is the database's answer to the request issued: its data, or an
      error message. */
  function Serve(req: Request, env: TokenEnv, db: DbRequest -> Result<Json, string>): (o: Outcome)
    ensures o.reply.Preflight? <==> req.httpMethod == "OPTIONS"
    ensures req.httpMethod != "OPTIONS" && !HasBearerPrefix(req.authorization) ==>
              o == Outcome(Fail(401, "Missing or invalid authorization header"), None)
    ensures req.httpMethod != "OPTIONS" && HasBearerPrefix(req.authorization) &&
            VerifyToken(BearerToken(req.authorization.value), env).None? ==>
              o == Outcome(Fail(401, "Invalid or expired token"), None)
    ensures o.request.Some? ==>
              HasBearerPrefix(req.authorization) && VerifyToken(BearerToken(req.authorization.value), env).Some? &&
              req.body.Ok? && req.body.value.operation in {Some("select"), Some("insert"), Some("update"), Some("delete"), Some("rpc")}
    ensures o.reply.Success? ==>
              o.request.Some? && db(o.request.value).Ok? &&
              o.reply.data == ProxyData(db(o.request.value).value, VerifyToken(BearerToken(req.authorization.value), env).value.sub)
    ensures req.httpMethod != "OPTIONS" && HasBearerPrefix(req.authorization) &&
            VerifyToken(BearerToken(req.authorization.value), env).Some? && req.body.Ok? &&
            (req.body.value.operation in {Some("select"), Some("insert"), Some("update"), Some("delete")} ||
             (req.body.value.operation == Some("rpc") && req.body.value.data.Some?)) ==>
              o.request.Some?
    ensures o.request.Some? && db(o.request.value).Ok? ==> o.reply.Success?
    ensures o.request.Some? && db(o.request.value).Err? ==> o.reply == Fail(400, db(o.request.value).error)
    ensures req.httpMethod != "OPTIONS" && HasBearerPrefix(req.authorization) &&
            VerifyToken(BearerToken(req.authorization.value), env).Some? && req.body.Err? ==>
              o == Outcome(Fail(500, req.body.error), None)
    ensures req.httpMethod != "OPTIONS" && HasBearerPrefix(req.authorization) &&
            VerifyToken(BearerToken(req.authorization.value), env).Some? && req.body.Ok? &&
            req.body.value.operation == Some("rpc") && req.body.value.data.None? ==>
              o == Outcome(Fail(500, DestructureError), None)
    ensures (o.reply == Fail(400, "Invalid operation") && o.request.None?) <==>
              req.httpMethod != "OPTIONS" && HasBearerPrefix(req.authorization) &&
              VerifyToken(BearerToken(req.authorization.value), env).Some? && req.body.Ok? &&
              req.body.value.operation !in {Some("select"), Some("insert"), Some("update"), Some("delete"), Some("rpc")}
    ensures o.request.Some? ==>
              var sub := VerifyToken(BearerToken(req.authorization.value), env).value.sub;
              var b := req.body.value;
              match b.operation.value
              case "select" =>
                o.request.value == Select(b.table, b.select.GetOr("*"), RewriteFilters(b.filters, sub),
                  if b.order.Some? then Some((b.order.value.column, b.order.value.ascending.GetOr(false))) else None)
              case "insert" => o.request.value == Insert(b.table, AutoFill(b.table, b.data, sub))
              case "update" => o.request.value == Update(b.table, b.data, RewriteFilters(b.filters, sub))
              case "delete" => o.request.value == Delete(b.table, RewriteFilters(b.filters, sub))
              case _ => b.data.Some? && o.request.value == Rpc(Seqs.Get(b.data.value, "function_name"), Seqs.Get(b.data.value, "params"))
  {
    if req.httpMethod == "OPTIONS" then Outcome(Preflight, None)
    else if !HasBearerPrefix(req.authorization) then
      Outcome(Fail(401, "Missing or invalid authorization header"), None)
    else
      // `authHeader.replace('Bearer ', '')` replaces the first occurrence,
      // which is the prefix itself.
      match VerifyToken(BearerToken(req.authorization.value), env)
      case None => Outcome(Fail(401, "Invalid or expired token"), None)
      case Some(user) =>
        match req.body
        case Err(parseError) => Outcome(Fail(500, parseError), None)
        case Ok(b) =>
          var request :=
            if b.operation == Some("select") then
              var order := if b.order.Some? then Some((b.order.value.column, b.order.value.ascending.GetOr(false))) else None;
              Some(Select(b.table, b.select.GetOr("*"), RewriteFilters(b.filters, user.sub), order))
            else if b.operation == Some("insert") then Some(Insert(b.table, AutoFill(b.table, b.data, user.sub)))
            else if b.operation == Some("update") then Some(Update(b.table, b.data, RewriteFilters(b.filters, user.sub)))
            else if b.operation == Some("delete") then Some(Delete(b.table, RewriteFilters(b.filters, user.sub)))
            else if b.operation == Some("rpc") && b.data.Some? then
              Some(Rpc(Seqs.Get(b.data.value, "function_name"), Seqs.Get(b.data.value, "params")))
            else None;
          if b.operation == Some("rpc") && b.data.None? then Outcome(Fail(500, DestructureError), None)
          else if request.None? then Outcome(Fail(400, "Invalid operation"), None)
          else
            match db(request.value)
            case Err(message) => Outcome(Fail(400, message), request)
            case Ok(data) => Outcome(Success(ProxyData(data, user.sub)), request)
  }
}
