/** The conversation rows of a user joined with their other participants'
    profiles (`useConversations`). The three queries' answers are inputs; a
    failed query reads as `null`, as the hook does not check errors. */
module UseConversations {
  import opened Wrappers
  import Seqs

  /** A `conversation_participants` row. */
  datatype MemberRow = MemberRow(conversationId: string, userId: string)

  /** A `conversations` row. */
  datatype ConversationRow = ConversationRow(id: string, name: Option<string>, isGroup: bool)

  /** A `profiles` row as the chat reads it. */
  datatype Profile = Profile(id: string, fullName: Option<string>, email: Option<string>, avatarUrl: Option<string>)

  /** A conversation with the profiles of its other participants. */
  datatype Conversation = Conversation(id: string, name: Option<string>, isGroup: bool, participants: seq<Profile>)

  /** The user ids of the conversation's members other than `me`, in row order. */
  function OtherMembers(rows: seq<MemberRow>, conversationId: string, me: string): (r: seq<string>)
    ensures forall u :: u in r <==> MemberRow(conversationId, u) in rows && u != me
  {
    if |rows| == 0 then []
    else
      var rest := OtherMembers(rows[1..], conversationId, me);
      assert forall x :: x in rows <==> x == rows[0] || x in rows[1..];
      if rows[0].conversationId == conversationId && rows[0].userId != me then [rows[0].userId] + rest else rest
  }

  /** The profiles whose id is listed, in profile order. */
  function ProfilesWithIds(profiles: seq<Profile>, ids: seq<string>): (r: seq<Profile>)
    ensures forall p :: p in r <==> p in profiles && p.id in ids
    ensures Seqs.IsSubseq(r, profiles)
  {
    Seqs.Filter(profiles, (p: Profile) => p.id in ids)
  }

  /** The participants shown for a conversation: profiles of its other
      members, in profile order; a member without a profile is dropped. */
  function ParticipantsOf(profiles: seq<Profile>, rows: seq<MemberRow>, conversationId: string, me: string): (r: seq<Profile>)
    ensures forall p :: p in r <==> p in profiles && p.id != me && MemberRow(conversationId, p.id) in rows
    ensures Seqs.IsSubseq(r, profiles)
  {
    ProfilesWithIds(profiles, OtherMembers(rows, conversationId, me))
  }

  /** The viewer never appears among a conversation's participants. */
  lemma ViewerNeverParticipant(profiles: seq<Profile>, rows: seq<MemberRow>, conversationId: string, me: string)
    ensures forall p :: p in ParticipantsOf(profiles, rows, conversationId, me) ==> p.id != me
  {
  }

  /** The query function. `memberships` answers "conversation ids of `me`",
      `conversations` the rows with those ids, `members` and `profiles` the
      whole tables. */
  function Load(currentUserId: Option<string>, memberships: Option<seq<string>>,
                conversations: Option<seq<ConversationRow>>, members: Option<seq<MemberRow>>,
                profiles: Option<seq<Profile>>): (r: Result<seq<Conversation>, string>)
    ensures r.Err? <==> currentUserId.None? || currentUserId.value == ""
    ensures r.Ok? && (memberships.None? || memberships.value == []) ==> r.value == []
    ensures r.Ok? && memberships.Some? && memberships.value != [] ==>
      var convs := conversations.GetOr([]);
      |r.value| == |convs| &&
      forall i :: 0 <= i < |convs| ==>
        r.value[i] == Conversation(convs[i].id, convs[i].name, convs[i].isGroup,
                                   ParticipantsOf(profiles.GetOr([]), members.GetOr([]), convs[i].id, currentUserId.value))
  {
    if currentUserId.None? || currentUserId.value == "" then Result.Err("User ID is required")
    else if memberships.None? || memberships.value == [] then Result.Ok([])
    else
      var convs := conversations.GetOr([]);
      Result.Ok(seq(|convs|, i requires 0 <= i < |convs| =>
        Conversation(convs[i].id, convs[i].name, convs[i].isGroup,
                     ParticipantsOf(profiles.GetOr([]), members.GetOr([]), convs[i].id, currentUserId.value))))
  }

  /** Every loaded conversation lists exactly the profiles of its members
      other than the viewer. */
  lemma LoadedParticipantsAreOtherMembers(currentUserId: Option<string>, memberships: Option<seq<string>>,
                                          conversations: Option<seq<ConversationRow>>, members: Option<seq<MemberRow>>,
                                          profiles: Option<seq<Profile>>)
    requires Load(currentUserId, memberships, conversations, members, profiles).Ok?
    ensures var r := Load(currentUserId, memberships, conversations, members, profiles).value;
      forall i, p :: 0 <= i < |r| && p in r[i].participants ==>
        p in profiles.GetOr([]) && p.id != currentUserId.value && MemberRow(r[i].id, p.id) in members.GetOr([])
  {
  }
}
