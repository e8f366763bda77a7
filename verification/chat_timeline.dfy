/** The message pane of a conversation (`ChatInterface`): the initial load,
    the realtime append and the send form. The database is reached through
    answers passed in; the realtime subscription is the `RealtimeInsert`
    transition. */
module ChatTimeline {
  import opened Wrappers
  import opened Text
  import Seqs

  /** A `messages` row; `created_at` is modelled as an integer timestamp. */
  datatype Message = Message(id: string, conversationId: string, senderId: string, content: string, createdAt: int)

  /** The row a send asks the database to insert. */
  datatype NewMessage = NewMessage(conversationId: string, senderId: string, content: string)

  /** The component's state: the shown list, the draft in the input, and the
      two spinners. */
  datatype Chat = Chat(messages: seq<Message>, draft: string, loading: bool, sending: bool)

  /** The state on mount. */
  const Initial := Chat([], "", true, false)

  function ConversationOf(m: Message): string { m.conversationId }

  predicate SortedByTime(s: seq<Message>) {
    forall i, j :: 0 <= i < j < |s| ==> s[i].createdAt <= s[j].createdAt
  }

  /** Inserts `m` before the first later message. */
  function InsertByTime(m: Message, s: seq<Message>): (r: seq<Message>)
    requires SortedByTime(s)
    ensures SortedByTime(r)
    ensures multiset(r) == multiset(s) + multiset{m}
    ensures |r| > 0 && (r[0] == m || (|s| > 0 && r[0] == s[0]))
  {
    if |s| == 0 || m.createdAt <= s[0].createdAt then [m] + s
    else
      var rest := InsertByTime(m, s[1..]);
      assert s == [s[0]] + s[1..];
      [s[0]] + rest
  }

  /** The rows in ascending `created_at` order. */
  function SortByTime(s: seq<Message>): (r: seq<Message>)
    ensures SortedByTime(r)
    ensures multiset(r) == multiset(s)
  {
    if |s| == 0 then []
    else
      assert s == [s[0]] + s[1..];
      InsertByTime(s[0], SortByTime(s[1..]))
  }

  /** What the load query asks of the `messages` table: the conversation's
      rows, oldest first. */
  function LoadQuery(table: seq<Message>, conversationId: string): (r: seq<Message>)
    ensures SortedByTime(r)
    ensures forall m :: m in r <==> m in table && m.conversationId == conversationId
    ensures multiset(r) == multiset(Seqs.FilterKey(table, ConversationOf, conversationId))
  {
    var matching := Seqs.FilterKey(table, ConversationOf, conversationId);
    var r := SortByTime(matching);
    assert forall m :: m in r <==> m in multiset(r);
    assert forall m :: m in matching <==> m in multiset(matching);
    r
  }

  /** The load settles: the list becomes the rows fetched (`[]` when the answer
      carries none) or stays as it was on error; `loading` ends either way. */
  function Loaded(c: Chat, fetched: Result<Option<seq<Message>>, string>): (r: Chat)
    ensures !r.loading
    ensures fetched.Ok? ==> r.messages == fetched.value.GetOr([])
    ensures fetched.Err? ==> r.messages == c.messages
    ensures r.draft == c.draft && r.sending == c.sending
  {
    match fetched
    case Ok(rows) => c.(messages := rows.GetOr([]), loading := false)
    case Err(_) => c.(loading := false)
  }

  /** When the database answers the load query, the pane shows exactly the
      conversation's messages, oldest first. */
  lemma LoadShowsConversationInOrder(c: Chat, table: seq<Message>, conversationId: string)
    ensures var r := Loaded(c, Result.Ok(Some(LoadQuery(table, conversationId))));
      SortedByTime(r.messages) &&
      (forall m :: m in r.messages <==> m in table && m.conversationId == conversationId) &&
      !r.loading
  {
  }

  /** A realtime INSERT: the new row goes to the end, with no check for a
      duplicate and none for its conversation. */
  function RealtimeInsert(c: Chat, m: Message): (r: Chat)
    ensures |r.messages| == |c.messages| + 1
    ensures r.messages[..|c.messages|] == c.messages && r.messages[|c.messages|] == m
    ensures r.draft == c.draft && r.loading == c.loading && r.sending == c.sending
  {
    c.(messages := c.messages + [m])
  }

  /** The same event delivered twice shows the message twice. */
  lemma RealtimeInsertKeepsDuplicates(c: Chat, m: Message)
    ensures multiset(RealtimeInsert(RealtimeInsert(c, m), m).messages)[m] == multiset(c.messages)[m] + 2
  {
    assert RealtimeInsert(RealtimeInsert(c, m), m).messages == c.messages + [m] + [m];
  }

  /** Pressing send: a blank draft does nothing; otherwise `sending` starts and
      the trimmed draft is to be inserted for this conversation and sender.
      The shown list is never touched. */
  function SendStart(c: Chat, conversationId: string, currentUserId: string): (r: (Chat, Option<NewMessage>))
    ensures r.0.messages == c.messages && r.0.draft == c.draft && r.0.loading == c.loading
    ensures r.1.None? <==> IsBlank(c.draft)
    ensures r.1.None? ==> r.0 == c
    ensures r.1.Some? ==> r.0.sending && r.1.value == NewMessage(conversationId, currentUserId, Trim(c.draft))
    ensures r.1.Some? ==> r.1.value.content != [] && |r.1.value.content| <= |c.draft|
  {
    if Trim(c.draft) == [] then (c, None)
    else (c.(sending := true), Some(NewMessage(conversationId, currentUserId, Trim(c.draft))))
  }

  /** The insert settles: the draft is cleared only on success; `sending` ends
      either way and the list is unchanged. */
  function SendSettled(c: Chat, insertError: Option<string>): (r: Chat)
    ensures !r.sending
    ensures r.messages == c.messages && r.loading == c.loading
    ensures r.draft == (if insertError.None? then "" else c.draft)
  {
    if insertError.None? then c.(draft := "", sending := false) else c.(sending := false)
  }

  /** A message is drawn as the viewer's own. */
  predicate IsOwn(m: Message, currentUserId: string) {
    m.senderId == currentUserId
  }

  /** A sent message reaches the list only through the realtime event, and the
      row the database makes of it (whatever id and time it gets) is drawn as
      the sender's own, with the trimmed text. */
  lemma SentMessageComesBackAsOwn(c: Chat, conversationId: string, currentUserId: string, id: string, createdAt: int)
    requires !IsBlank(c.draft)
    ensures var (started, insert) := SendStart(c, conversationId, currentUserId);
      var row := Message(id, insert.value.conversationId, insert.value.senderId, insert.value.content, createdAt);
      var shown := RealtimeInsert(SendSettled(started, None), row);
      shown.messages == c.messages + [row] && IsOwn(row, currentUserId) &&
      row.content == Trim(c.draft) && shown.draft == "" && !shown.sending
  {
  }
}
