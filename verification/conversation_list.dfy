/** The conversation sidebar (`ConversationList`): how each conversation is
    labelled, the search filter over those labels, what a click selects, and
    the load of the list. */
module ConversationList {
  import opened Wrappers
  import opened Text
  import Seqs
  import opened UseConversations

  const UnnamedGroup := "Unbenannte Gruppe"
  const UnknownUser := "Unbekannter Nutzer"
  const ParticipantsSuffix := " Teilnehmer"

  /** The two lines shown for a conversation. */
  datatype Display = Display(name: string, subtitle: string)

  /** `x || fallback` for an optional string: `null` and `""` fall through. */
  function OrElse(x: Option<string>, fallback: string): (r: string)
    ensures x.Some? && x.value != "" ==> r == x.value
    ensures x.None? || x.value == "" ==> r == fallback
  {
    if x.Some? && x.value != "" then x.value else fallback
  }

  /** `getConversationDisplay`: a group shows its name (or "Unbenannte Gruppe")
      and the head count including the viewer; a direct conversation shows
      the first participant's name (or "Unbekannter Nutzer") and e-mail. */
  function DisplayOf(c: Conversation): (d: Display)
    ensures c.isGroup ==> d.name == OrElse(c.name, UnnamedGroup)
    ensures c.isGroup ==> d.subtitle == NatToString(|c.participants| + 1) + ParticipantsSuffix
    ensures !c.isGroup && |c.participants| == 0 ==> d == Display(UnknownUser, "")
    ensures !c.isGroup && |c.participants| > 0 ==>
              d == Display(OrElse(c.participants[0].fullName, UnknownUser), OrElse(c.participants[0].email, ""))
  {
    if c.isGroup then Display(OrElse(c.name, UnnamedGroup), NatToString(|c.participants| + 1) + ParticipantsSuffix)
    else if |c.participants| == 0 then Display(UnknownUser, "")
    else Display(OrElse(c.participants[0].fullName, UnknownUser), OrElse(c.participants[0].email, ""))
  }

  /** The head count in a group's subtitle reads back as the number of other
      participants plus one. */
  lemma GroupSubtitleCountsViewer(c: Conversation)
    requires c.isGroup
    ensures var s := DisplayOf(c).subtitle;
      var digits := s[..|s| - |ParticipantsSuffix|];
      |s| > |ParticipantsSuffix| && s[|s| - |ParticipantsSuffix|..] == ParticipantsSuffix &&
      (forall i :: 0 <= i < |digits| ==> '0' <= digits[i] <= '9') &&
      DigitsValue(digits) == |c.participants| + 1
  {
    var n := NatToString(|c.participants| + 1);
    var s := DisplayOf(c).subtitle;
    assert s[..|s| - |ParticipantsSuffix|] == n;
    NatToStringRoundTrip(|c.participants| + 1);
  }

  /** A conversation matches when the lowercased query occurs in its
      lowercased name or subtitle. */
  predicate Matches(c: Conversation, query: string) {
    var d := DisplayOf(c);
    Contains(ToLower(d.name), ToLower(query)) || Contains(ToLower(d.subtitle), ToLower(query))
  }

  /** `filteredConversations`, in list order. */
  function Filtered(conversations: seq<Conversation>, query: string): (r: seq<Conversation>)
    ensures forall c :: c in r <==> c in conversations && Matches(c, query)
    ensures Seqs.IsSubseq(r, conversations)
  {
    Seqs.Filter(conversations, (c: Conversation) => Matches(c, query))
  }

  /** An empty search shows the whole list. */
  lemma EmptyQueryKeepsAll(conversations: seq<Conversation>)
    ensures Filtered(conversations, "") == conversations
  {
    forall i | 0 <= i < |conversations|
      ensures Matches(conversations[i], "")
    {
      ContainsEmpty(ToLower(DisplayOf(conversations[i]).name));
    }
    Seqs.FilterKeepsAll(conversations, (c: Conversation) => Matches(c, ""));
  }

  /** What the chat page is told to open. */
  datatype Selection = Selection(id: string, name: Option<string>, isGroup: bool, otherUserId: Option<string>)

  /** The effect of a click: the user id `get_or_create_conversation` was
      called for, if any, and the selection reported, if any. */
  datatype Click = Click(rpcFor: Option<string>, selection: Option<Selection>)

  /** `handleConversationClick`. `rpc` is the answer of
      `get_or_create_conversation` for a user id: a conversation id or an error. */
  function OnClick(c: Conversation, rpc: string -> Result<string, string>): (r: Click)
    ensures c.isGroup ==> r == Click(None, Some(Selection(c.id, c.name, true, None)))
    ensures !c.isGroup && |c.participants| == 0 ==> r == Click(None, None)
    ensures !c.isGroup && |c.participants| > 0 ==>
              var other := c.participants[0];
              r.rpcFor == Some(other.id) &&
              (rpc(other.id).Err? ==> r.selection.None?) &&
              (rpc(other.id).Ok? ==> r.selection == Some(Selection(rpc(other.id).value, other.fullName, false, Some(other.id))))
  {
    if c.isGroup then Click(None, Some(Selection(c.id, c.name, true, None)))
    else if |c.participants| == 0 then Click(None, None)
    else
      var other := c.participants[0];
      match rpc(other.id)
      case Err(_) => Click(Some(other.id), None)
      case Ok(id) => Click(Some(other.id), Some(Selection(id, other.fullName, false, Some(other.id))))
  }

  /** One conversation's participants as the list loads them: the other
      members' ids (a failed query counts as none), then, only if there are
      any, their profiles (a failed query counts as none). */
  function FetchParticipants(conversationId: string, me: string,
                             members: Option<seq<MemberRow>>, profiles: Option<seq<Profile>>): (r: seq<Profile>)
    ensures forall p :: p in r ==> p.id != me && MemberRow(conversationId, p.id) in members.GetOr([])
    ensures members.None? || profiles.None? ==> r == []
  {
    var ids := OtherMembers(members.GetOr([]), conversationId, me);
    if ids == [] then [] else ProfilesWithIds(profiles.GetOr([]), ids)
  }

  /** The list's per-conversation queries and the hook's client-side join
      agree on the participants. */
  lemma FetchAgreesWithHook(conversationId: string, me: string, members: seq<MemberRow>, profiles: seq<Profile>)
    ensures FetchParticipants(conversationId, me, Some(members), Some(profiles)) == ParticipantsOf(profiles, members, conversationId, me)
  {
  }

  /** `fetchConversations`: the list becomes the user's conversations with
      their participants, `[]` when the user has none, and stays as it was
      when the membership or conversation query fails. */
  function LoadList(current: seq<Conversation>, me: string,
                    memberships: Result<seq<string>, string>,
                    conversations: Result<Option<seq<ConversationRow>>, string>,
                    members: Option<seq<MemberRow>>, profiles: Option<seq<Profile>>): (r: seq<Conversation>)
    ensures memberships.Err? ==> r == current
    ensures memberships.Ok? && memberships.value == [] ==> r == []
    ensures memberships.Ok? && memberships.value != [] && conversations.Err? ==> r == current
    ensures memberships.Ok? && memberships.value != [] && conversations.Ok? ==>
              var convs := conversations.value.GetOr([]);
              |r| == |convs| &&
              forall i :: 0 <= i < |convs| ==>
                r[i] == Conversation(convs[i].id, convs[i].name, convs[i].isGroup,
                                     FetchParticipants(convs[i].id, me, members, profiles))
  {
    match memberships
    case Err(_) => current
    case Ok(ids) =>
      if ids == [] then []
      else
        match conversations
        case Err(_) => current
        case Ok(rows) =>
          var convs := rows.GetOr([]);
          seq(|convs|, i requires 0 <= i < |convs| =>
            Conversation(convs[i].id, convs[i].name, convs[i].isGroup, FetchParticipants(convs[i].id, me, members, profiles)))
  }

  /** With every query answering, the sidebar shows the same list as the hook. */
  lemma LoadListAgreesWithHook(me: string, memberships: seq<string>, conversations: Option<seq<ConversationRow>>,
                               members: seq<MemberRow>, profiles: seq<Profile>, current: seq<Conversation>)
    requires me != ""
    ensures Result.Ok(LoadList(current, me, Result.Ok(memberships), Result.Ok(conversations), Some(members), Some(profiles)))
            == Load(Some(me), Some(memberships), conversations, Some(members), Some(profiles))
  {
    if memberships != [] {
      var convs := conversations.GetOr([]);
      var shown := LoadList(current, me, Result.Ok(memberships), Result.Ok(conversations), Some(members), Some(profiles));
      var hook := Load(Some(me), Some(memberships), conversations, Some(members), Some(profiles)).value;
      forall i | 0 <= i < |convs|
        ensures shown[i] == hook[i]
      {
        FetchAgreesWithHook(convs[i].id, me, members, profiles);
      }
      assert shown == hook;
    }
  }
}
