/** The notification list's join (`useNotifications`): the viewer's
    notifications are fetched, then the actors' profiles and the posts they
    refer to, and each notification is paired with what was found. Query
    answers are inputs; the actor and post queries are not checked for
    errors, so a failed one reads as `null`. */
module Notifications {
  import opened Wrappers
  import Seqs

  /** A `notifications` row; `type` is kept as the text stored. */
  datatype NotificationRow = NotificationRow(id: string, kind: string, actorId: string, postId: Option<string>,
                                             commentId: Option<string>, isRead: bool, createdAt: int)

  datatype ActorRow = ActorRow(id: string, username: Option<string>, fullName: Option<string>, avatarUrl: Option<string>)

  datatype PostSummary = PostSummary(id: string, content: string)

  /** The `post` field: `null` for a notification without a post, `undefined`
      when its post was not fetched, or the post. */
  datatype PostRef = NoPost | MissingPost | FoundPost(post: PostSummary)

  datatype Notification = Notification(row: NotificationRow, actor: Option<ActorRow>, post: PostRef)

  function ActorId(a: ActorRow): string { a.id }
  function SummaryId(p: PostSummary): string { p.id }

  /** `n.post_id` is truthy: present and not empty. */
  predicate HasPost(n: NotificationRow) {
    n.postId.Some? && n.postId.value != ""
  }

  /** The ids the actor query asks for: each actor once. */
  function ActorIds(rows: seq<NotificationRow>): (r: seq<string>)
    ensures Seqs.NoDup(r)
    ensures forall i :: 0 <= i < |rows| ==> rows[i].actorId in r
    ensures forall u :: u in r ==> exists i :: 0 <= i < |rows| && rows[i].actorId == u
  {
    var ids := seq(|rows|, i requires 0 <= i < |rows| => rows[i].actorId);
    var r := Seqs.Dedup(ids);
    forall i | 0 <= i < |rows|
      ensures rows[i].actorId in r
    {
      assert ids[i] == rows[i].actorId;
      assert ids[i] in ids;
    }
    r
  }

  /** The ids the post query asks for: the truthy `post_id`s, in order. */
  function PostIds(rows: seq<NotificationRow>): (r: seq<string>)
    ensures forall i :: 0 <= i < |rows| && HasPost(rows[i]) ==> rows[i].postId.value in r
    ensures forall p :: p in r ==> p != "" && exists i :: 0 <= i < |rows| && rows[i].postId == Some(p)
    ensures |r| <= |rows|
  {
    if |rows| == 0 then []
    else
      var rest := PostIds(rows[1..]);
      assert forall i :: 1 <= i < |rows| ==> rows[i] == rows[1..][i - 1];
      if HasPost(rows[0]) then [rows[0].postId.value] + rest else rest
  }

  /** The `post` a notification gets from the posts fetched. */
  function PostOf(n: NotificationRow, postsMap: map<string, PostSummary>): PostRef {
    if !HasPost(n) then NoPost
    else match Seqs.Get(postsMap, n.postId.value)
      case None => MissingPost
      case Some(p) => FoundPost(p)
  }

  /** The query function. A missing user id throws; a failed notification
      query throws; no notifications give `[]`; otherwise one entry per
      notification, in order, with the actor and post found for it. */
  function Load(userId: Option<string>, rows: Result<Option<seq<NotificationRow>>, string>,
                actors: Option<seq<ActorRow>>, posts: Option<seq<PostSummary>>): (r: Result<seq<Notification>, string>)
    ensures userId.None? || userId.value == "" ==> r == Result.Err("User ID is required")
    ensures userId.Some? && userId.value != "" && rows.Err? ==> r == Result.Err(rows.error)
    ensures userId.Some? && userId.value != "" && rows.Ok? && (rows.value.None? || rows.value.value == []) ==> r == Result.Ok([])
    ensures userId.Some? && userId.value != "" && rows.Ok? && rows.value.Some? && rows.value.value != [] ==>
      r.Ok? &&
      var ns := rows.value.value;
      |r.value| == |ns| &&
      forall i :: 0 <= i < |ns| ==>
        r.value[i].row == ns[i] &&
        r.value[i].actor == Seqs.LastWithKey(actors.GetOr([]), ActorId, ns[i].actorId) &&
        (!HasPost(ns[i]) ==> r.value[i].post == NoPost) &&
        (HasPost(ns[i]) && Seqs.LastWithKey(posts.GetOr([]), SummaryId, ns[i].postId.value).None? ==> r.value[i].post == MissingPost) &&
        (HasPost(ns[i]) && Seqs.LastWithKey(posts.GetOr([]), SummaryId, ns[i].postId.value).Some? ==>
           r.value[i].post == FoundPost(Seqs.LastWithKey(posts.GetOr([]), SummaryId, ns[i].postId.value).value))
  {
    if userId.None? || userId.value == "" then Result.Err("User ID is required")
    else
      match rows
      case Err(e) => Result.Err(e)
      case Ok(found) =>
        if found.None? || found.value == [] then Result.Ok([])
        else
          var ns := found.value;
          var actorsMap := Seqs.IndexBy(actors.GetOr([]), ActorId);
          var postsMap := Seqs.IndexBy(posts.GetOr([]), SummaryId);
          var r := seq(|ns|, i requires 0 <= i < |ns| =>
            Notification(ns[i], Seqs.Get(actorsMap, ns[i].actorId), PostOf(ns[i], postsMap)));
          forall i | 0 <= i < |ns|
            ensures r[i].actor == Seqs.LastWithKey(actors.GetOr([]), ActorId, ns[i].actorId)
            ensures HasPost(ns[i]) ==> Seqs.Get(postsMap, ns[i].postId.value) == Seqs.LastWithKey(posts.GetOr([]), SummaryId, ns[i].postId.value)
          {
            Seqs.IndexByFindsLast(actors.GetOr([]), ActorId, ns[i].actorId);
            if HasPost(ns[i]) {
              Seqs.IndexByFindsLast(posts.GetOr([]), SummaryId, ns[i].postId.value);
            }
          }
          Result.Ok(r)
  }

  /** Each notification's actor was asked for, and so was each post it refers to. */
  lemma QueriesCoverEveryNotification(rows: seq<NotificationRow>, i: nat)
    requires i < |rows|
    ensures rows[i].actorId in ActorIds(rows)
    ensures HasPost(rows[i]) ==> rows[i].postId.value in PostIds(rows)
  {
  }
}
