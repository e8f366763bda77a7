/** The user pickers of the chat (`NewDirectMessageDialog` and `UserList`):
    both load every other profile and filter it with the same search rule;
    the dialog then opens a direct conversation with the user picked. */
module UserSearch {
  import opened Wrappers
  import opened Text
  import Seqs
  import ConversationList
  import UseConversations

  /** A `profiles` row as the pickers read it. */
  datatype User = User(id: string, fullName: Option<string>, email: Option<string>)

  /** `field?.toLowerCase().includes(q)`: false for a `null` field. */
  predicate FieldContains(field: Option<string>, query: string) {
    field.Some? && Contains(ToLower(field.value), ToLower(query))
  }

  /** The search rule: the lowercased query occurs in the lowercased name or
      e-mail. */
  predicate Matches(u: User, query: string) {
    FieldContains(u.fullName, query) || FieldContains(u.email, query)
  }

  /** `filteredUsers`, in list order. */
  function Filtered(users: seq<User>, query: string): (r: seq<User>)
    ensures forall u :: u in r <==> u in users && Matches(u, query)
    ensures Seqs.IsSubseq(r, users)
  {
    Seqs.Filter(users, (u: User) => Matches(u, query))
  }

  /** A user with neither name nor e-mail is never listed, whatever the query. */
  lemma NeverShownWithoutNameOrEmail(users: seq<User>, query: string, u: User)
    requires u.fullName.None? && u.email.None?
    ensures u !in Filtered(users, query)
  {
  }

  /** The empty query lists exactly the users with a name or an e-mail (even an
      empty one). */
  lemma EmptyQueryShowsUsersWithNameOrEmail(users: seq<User>, u: User)
    ensures u in Filtered(users, "") <==> u in users && (u.fullName.Some? || u.email.Some?)
  {
    if u.fullName.Some? {
      ContainsEmpty(ToLower(u.fullName.value));
    }
    if u.email.Some? {
      ContainsEmpty(ToLower(u.email.value));
    }
  }

  /** What the profile query asks for: every profile except the viewer's. */
  function OtherUsers(profiles: seq<User>, me: string): (r: seq<User>)
    ensures forall u :: u in r <==> u in profiles && u.id != me
    ensures Seqs.IsSubseq(r, profiles)
  {
    Seqs.Filter(profiles, (u: User) => u.id != me)
  }

  /** `fetchUsers`: the list becomes the rows fetched (`[]` for none) and is
      kept as it was on error; before any load the list is `[]`. */
  function FetchUsers(current: seq<User>, fetched: Result<Option<seq<User>>, string>): (r: seq<User>)
    ensures fetched.Ok? ==> r == fetched.value.GetOr([])
    ensures fetched.Err? ==> r == current
  {
    match fetched
    case Ok(rows) => rows.GetOr([])
    case Err(_) => current
  }

  /** The viewer never appears in a picker loaded from the profile query, and
      a failed first load leaves the picker empty. */
  lemma PickerExcludesViewer(profiles: seq<User>, me: string, failure: string)
    ensures forall u :: u in FetchUsers([], Result.Ok(Some(OtherUsers(profiles, me)))) ==> u.id != me
    ensures FetchUsers([], Result.Err(failure)) == []
  {
  }

  /** `handleUserSelect`: `get_or_create_conversation` for the user picked; on
      success the new direct conversation is reported, on error nothing is. */
  function SelectUser(userId: string, userName: Option<string>, rpc: Result<string, string>): (r: Option<ConversationList.Selection>)
    ensures r.Some? <==> rpc.Ok?
    ensures r.Some? ==> r.value == ConversationList.Selection(rpc.value, userName, false, Some(userId))
  {
    match rpc
    case Ok(id) => Some(ConversationList.Selection(id, userName, false, Some(userId)))
    case Err(_) => None
  }

  /** Picking a user in the dialog reports the same selection as clicking an
      existing direct conversation with that user in the sidebar. */
  lemma DialogAgreesWithSidebar(c: UseConversations.Conversation, rpc: string -> Result<string, string>)
    requires !c.isGroup && |c.participants| > 0
    ensures var other := c.participants[0];
      ConversationList.OnClick(c, rpc).selection == SelectUser(other.id, other.fullName, rpc(other.id))
  {
  }
}
