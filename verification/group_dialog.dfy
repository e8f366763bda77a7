/** The "new group" dialog (`CreateGroupDialog`): the member selection, the
    client-side checks before the `conversations` call, and what happens when
    the call settles. */
module GroupDialog {
  import opened Wrappers
  import opened Text
  import Seqs
  import ConversationsFunction

  /** The dialog's state. `selected` is the JavaScript `Set` of user ids, as
      the duplicate-free sequence `Array.from` yields (insertion order). */
  datatype Dialog = Dialog(groupName: string, selected: seq<string>, creating: bool, open: bool)

  /** The selection without `id`. */
  function Without(selected: seq<string>, id: string): (r: seq<string>)
    ensures forall x :: x in r <==> x in selected && x != id
    ensures Seqs.IsSubseq(r, selected)
  {
    Seqs.Filter(selected, (x: string) => x != id)
  }

  /** Removing an id that is not there changes nothing. */
  lemma {:induction false} WithoutAbsent(selected: seq<string>, id: string)
    requires id !in selected
    ensures Without(selected, id) == selected
    decreases |selected|
  {
    if |selected| > 0 {
      WithoutAbsent(selected[1..], id);
      assert selected == [selected[0]] + selected[1..];
    }
  }

  /** `handleUserToggle`: a selected id is deleted, any other id is added at
      the end. */
  function Toggle(selected: seq<string>, id: string): (r: seq<string>)
    requires Seqs.NoDup(selected)
    ensures Seqs.NoDup(r)
    ensures forall x :: x != id ==> (x in r <==> x in selected)
    ensures id in r <==> id !in selected
    ensures |r| == if id in selected then |selected| - 1 else |selected| + 1
  {
    if id in selected then
      var r := Without(selected, id);
      NoDupWithout(selected, id);
      r
    else selected + [id]
  }

  /** Deleting one present id from a duplicate-free sequence keeps it
      duplicate-free and shortens it by one. */
  lemma {:induction false} NoDupWithout(selected: seq<string>, id: string)
    requires Seqs.NoDup(selected) && id in selected
    ensures Seqs.NoDup(Without(selected, id)) && |Without(selected, id)| == |selected| - 1
    decreases |selected|
  {
    var rest := selected[1..];
    assert Seqs.NoDup(rest);
    if selected[0] == id {
      assert id !in rest;
      WithoutAbsent(rest, id);
    } else {
      NoDupWithout(rest, id);
      assert selected[0] !in rest;
    }
  }

  /** Toggling the same id twice restores the selection as a set, and as a
      sequence when the id was not selected before. (A selected id comes back
      at the end, as re-adding to a `Set` does.) */
  lemma ToggleTwice(selected: seq<string>, id: string)
    requires Seqs.NoDup(selected)
    ensures forall x :: x in Toggle(Toggle(selected, id), id) <==> x in selected
    ensures id !in selected ==> Toggle(Toggle(selected, id), id) == selected
  {
    if id !in selected {
      FilterDropsLast(selected, id);
    }
  }

  /** Removing an id just appended to a sequence without it gives the sequence back. */
  lemma FilterDropsLast(selected: seq<string>, id: string)
    requires id !in selected
    ensures Without(selected + [id], id) == selected
  {
    Seqs.FilterAppend(selected, [id], (x: string) => x != id);
    WithoutAbsent(selected, id);
  }

  /** What pressing "create" leads to. */
  datatype Attempt = NameMissing | TooFewMembers | Call(groupName: string, participantIds: seq<string>)

  /** `handleCreateGroup` up to the call: the name is checked first, then the
      selection size; otherwise `creating` starts and the body carries the
      trimmed name and exactly the selected ids. */
  function Create(d: Dialog): (r: (Dialog, Attempt))
    ensures IsBlank(d.groupName) ==> r == (d, NameMissing)
    ensures !IsBlank(d.groupName) && |d.selected| < 2 ==> r == (d, TooFewMembers)
    ensures r.1.Call? <==> !IsBlank(d.groupName) && |d.selected| >= 2
    ensures r.1.Call? ==> r.0 == d.(creating := true) && r.1 == Call(Trim(d.groupName), d.selected)
  {
    if Trim(d.groupName) == [] then (d, NameMissing)
    else if |d.selected| < 2 then (d, TooFewMembers)
    else (d.(creating := true), Call(Trim(d.groupName), d.selected))
  }

  /** Whatever the dialog sends passes the server's own group validation,
      which stores the same name and ids. */
  lemma CreatedPayloadPassesServer(d: Dialog)
    requires Create(d).1.Call?
    ensures var call := Create(d).1;
      ConversationsFunction.ValidateGroup(Some(call.groupName), Some(call.participantIds))
        == Result.Ok((call.groupName, call.participantIds))
  {
    TrimIdempotent(d.groupName);
  }

  /** The call settles: on success the name and selection are reset and the
      dialog closes; on failure they are kept. `creating` ends either way. */
  function Settled(d: Dialog, callError: Option<string>): (r: Dialog)
    ensures !r.creating
    ensures callError.None? ==> r.groupName == "" && r.selected == [] && !r.open
    ensures callError.Some? ==> r == d.(creating := false)
  {
    if callError.None? then Dialog("", [], false, false) else d.(creating := false)
  }
}
