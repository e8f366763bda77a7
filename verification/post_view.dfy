/** One post card (`Post`): the optimistic like toggle, the comment form and
    the owner's delete. Writes go straight to the tables; their outcome is an
    input. */
module PostView {
  import opened Wrappers
  import opened Text
  import Seqs
  import Schemas

  /** An entry of `post_likes` as the card reads it. */
  datatype LikeEntry = LikeEntry(userId: string)

  /** The likes the post was loaded with, and the optimistic list while a like
      or unlike is in flight. */
  datatype LikeState = LikeState(postLikes: seq<LikeEntry>, optimistic: Option<seq<LikeEntry>>)

  /** `optimisticLikes || post.post_likes`: an optimistic list, even an empty
      one, wins. */
  function CurrentLikes(s: LikeState): (r: seq<LikeEntry>)
    ensures s.optimistic.Some? ==> r == s.optimistic.value
    ensures s.optimistic.None? ==> r == s.postLikes
  {
    s.optimistic.GetOr(s.postLikes)
  }

  /** The heart is filled: some like is the viewer's. */
  predicate IsLiked(likes: seq<LikeEntry>, me: string) {
    LikeEntry(me) in likes
  }

  function LikeUser(l: LikeEntry): string { l.userId }

  /** The viewer's likes removed, the others kept in order. */
  function Unliked(likes: seq<LikeEntry>, me: string): (r: seq<LikeEntry>)
    ensures !IsLiked(r, me)
    ensures forall u :: u != me ==> (LikeEntry(u) in r <==> LikeEntry(u) in likes)
    ensures Seqs.IsSubseq(r, likes)
    ensures forall l :: multiset(r)[l] == if l.userId == me then 0 else multiset(likes)[l]
  {
    Seqs.FilterOutKeyCounts(likes, LikeUser, me);
    Seqs.FilterOutKey(likes, LikeUser, me)
  }

  /** The write a click sends to `post_likes`. */
  datatype LikeWrite = DeleteLike(postId: string, userId: string) | InsertLike(postId: string, userId: string)

  /** `handleLike` up to the write: a liked post drops every like of the viewer,
      an unliked one gains exactly one at the end; the optimistic list shows
      the result at once. */
  function LikeClicked(s: LikeState, postId: string, me: string): (r: (LikeState, LikeWrite))
    ensures r.0.postLikes == s.postLikes && r.0.optimistic.Some?
    ensures IsLiked(CurrentLikes(s), me) ==>
              r.1 == DeleteLike(postId, me) && !IsLiked(CurrentLikes(r.0), me) &&
              Seqs.IsSubseq(CurrentLikes(r.0), CurrentLikes(s)) &&
              forall u :: u != me ==> (LikeEntry(u) in CurrentLikes(r.0) <==> LikeEntry(u) in CurrentLikes(s))
    ensures IsLiked(CurrentLikes(s), me) ==> CurrentLikes(r.0) == Unliked(CurrentLikes(s), me)
    ensures !IsLiked(CurrentLikes(s), me) ==>
              r.1 == InsertLike(postId, me) && IsLiked(CurrentLikes(r.0), me) &&
              |CurrentLikes(r.0)| == |CurrentLikes(s)| + 1 &&
              CurrentLikes(r.0)[..|CurrentLikes(s)|] == CurrentLikes(s)
  {
    var current := CurrentLikes(s);
    if IsLiked(current, me) then (s.(optimistic := Some(Unliked(current, me))), DeleteLike(postId, me))
    else (s.(optimistic := Some(current + [LikeEntry(me)])), InsertLike(postId, me))
  }

  /** The write settles, either way: the optimistic list is dropped and the
      card shows the loaded likes again. */
  function LikeSettled(s: LikeState, writeError: Option<string>): (r: LikeState)
    ensures r.optimistic.None? && r.postLikes == s.postLikes
    ensures CurrentLikes(r) == s.postLikes
  {
    s.(optimistic := None)
  }

  /** The shown count (`currentLikes.length`) drops by exactly the number of
      the viewer's likes when the viewer unlikes. */
  lemma {:induction false} UnlikedCount(likes: seq<LikeEntry>, me: string)
    ensures |Unliked(likes, me)| + multiset(likes)[LikeEntry(me)] == |likes|
    decreases |likes|
  {
    if |likes| > 0 {
      UnlikedCount(likes[1..], me);
      assert likes == [likes[0]] + likes[1..];
      assert multiset(likes) == multiset{likes[0]} + multiset(likes[1..]);
    }
  }

  /** Liking and then unliking, from a list without the viewer's like, shows
      the original list again. */
  lemma {:induction false} LikeThenUnlikeRestores(s: LikeState, postId: string, me: string)
    requires !IsLiked(CurrentLikes(s), me)
    ensures var (liked, _) := LikeClicked(s, postId, me);
      CurrentLikes(LikeClicked(liked, postId, me).0) == CurrentLikes(s)
  {
    var current := CurrentLikes(s);
    Seqs.FilterOutKeySnoc(current, LikeEntry(me), LikeUser, me);
    forall i | 0 <= i < |current|
      ensures LikeUser(current[i]) != me
    {
      assert current[i] in current;
    }
    Seqs.FilterOutAbsentKey(current, LikeUser, me);
  }

  /** What the comment button leads to. */
  datatype CommentAttempt = CommentIgnored | CommentInvalid(message: string) | InsertComment(postId: string, content: string, userId: string)

  /** `handleComment` up to the insert: a blank text returns at once; otherwise
      the schema runs and a valid comment is stored trimmed, as the viewer's. */
  function CommentSubmitted(text: string, postId: string, me: string): (r: CommentAttempt)
    ensures r == CommentIgnored <==> IsBlank(text)
    ensures r.CommentInvalid? ==> r.message == Schemas.CommentTooLong && Utf16Length(Trim(text)) > 2000
    ensures r.InsertComment? <==> 1 <= Utf16Length(Trim(text)) <= 2000
    ensures r.InsertComment? ==> r == InsertComment(postId, Trim(text), me)
  {
    Schemas.CommentAcceptance(text);
    if Trim(text) == [] then CommentIgnored
    else
      match Schemas.Parse(Schemas.CommentSchema, text)
      case Ok(content) => InsertComment(postId, content, me)
      case Err(_) =>
        Schemas.NonBlankCommentFailsOnlyForLength(text);
        CommentInvalid(Schemas.FirstError(Schemas.CommentSchema, text).value)
  }

  /** The comment input after the insert settles: cleared only on success. */
  function CommentSettled(text: string, insertError: Option<string>): (r: string)
    ensures insertError.None? ==> r == ""
    ensures insertError.Some? ==> r == text
  {
    if insertError.None? then "" else text
  }

  /** A `posts` row as far as ownership goes. */
  datatype PostRow = PostRow(id: string, userId: string)

  /** The delete button is offered for the viewer's own posts. */
  predicate IsOwnPost(p: PostRow, me: string) {
    p.userId == me
  }

  /** `delete().eq("id", postId).eq("user_id", me)`: removes the rows with both
      that id and the viewer as author. */
  function DeletePost(table: seq<PostRow>, postId: string, me: string): (r: seq<PostRow>)
    ensures forall p :: p in r <==> p in table && !(p.id == postId && IsOwnPost(p, me))
    ensures Seqs.IsSubseq(r, table)
  {
    Seqs.Filter(table, (p: PostRow) => !(p.id == postId && IsOwnPost(p, me)))
  }

  /** Deleting someone else's post through the card changes nothing. */
  lemma DeleteSparesOthersPosts(table: seq<PostRow>, postId: string, me: string)
    requires forall p :: p in table && p.id == postId ==> !IsOwnPost(p, me)
    ensures DeletePost(table, postId, me) == table
  {
    Seqs.FilterKeepsAll(table, (p: PostRow) => !(p.id == postId && IsOwnPost(p, me)));
  }
}
