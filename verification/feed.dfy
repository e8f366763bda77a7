/** The post feed's client-side join (`usePosts`, `useUserPosts`, the home
    page's `fetchPosts` and the profile page's `fetchProfileAndPosts`): posts
    are fetched alone, then profiles, likes and comments are fetched whole and
    joined to them in memory. Query answers are inputs; the likes, comments
    and profile queries are not checked for errors, so a failed one reads as
    `null`. */
module Feed {
  import opened Wrappers
  import Seqs

  datatype ProfileRow = ProfileRow(id: string, username: Option<string>, fullName: Option<string>, avatarUrl: Option<string>)
  datatype PostRow = PostRow(id: string, userId: string, content: string, createdAt: int)
  datatype LikeRow = LikeRow(postId: string, userId: string)
  datatype CommentRow = CommentRow(id: string, postId: string, userId: string, content: string, createdAt: int)

  /** A comment with its author's profile, if one was found. */
  datatype Comment = Comment(row: CommentRow, author: Option<ProfileRow>)

  /** A post as the cards receive it. */
  datatype EnrichedPost = EnrichedPost(row: PostRow, author: Option<ProfileRow>, likes: seq<LikeRow>, comments: seq<Comment>)

  function ProfileId(p: ProfileRow): string { p.id }
  function PostId(p: PostRow): string { p.id }
  function LikePost(l: LikeRow): string { l.postId }
  function CommentRowPost(c: CommentRow): string { c.postId }
  function CommentPost(c: Comment): string { c.row.postId }
  function EnrichedPostId(p: EnrichedPost): string { p.row.id }

  /** Each comment paired with the profile indexed under its author's id. */
  function Annotate(cs: seq<CommentRow>, index: map<string, ProfileRow>): (r: seq<Comment>)
    ensures |r| == |cs|
    ensures forall i :: 0 <= i < |cs| ==> r[i].row == cs[i] && r[i].author == Seqs.Get(index, cs[i].userId)
  {
    seq(|cs|, i requires 0 <= i < |cs| => Comment(cs[i], Seqs.Get(index, cs[i].userId)))
  }

  /** Annotating and then picking a post's comments is picking them and then
      annotating. */
  lemma {:induction false} AnnotateThenFilter(cs: seq<CommentRow>, index: map<string, ProfileRow>, k: string)
    ensures Seqs.FilterKey(Annotate(cs, index), CommentPost, k) == Annotate(Seqs.FilterKey(cs, CommentRowPost, k), index)
    decreases |cs|
  {
    if |cs| > 0 {
      var a := Annotate(cs, index);
      assert a[1..] == Annotate(cs[1..], index);
      AnnotateThenFilter(cs[1..], index, k);
      assert Seqs.FilterKey(a, CommentPost, k) ==
        (if CommentPost(a[0]) == k then [a[0]] else []) + Seqs.FilterKey(a[1..], CommentPost, k);
      assert Seqs.FilterKey(cs, CommentRowPost, k) ==
        (if CommentRowPost(cs[0]) == k then [cs[0]] else []) + Seqs.FilterKey(cs[1..], CommentRowPost, k);
      var picked := Seqs.FilterKey(cs[1..], CommentRowPost, k);
      if CommentRowPost(cs[0]) == k {
        assert Annotate([cs[0]] + picked, index) == [a[0]] + Annotate(picked, index);
      }
    }
  }

  /** The in-memory join shared by every feed: `profilesMap`, `likesMap` and
      `commentsMap` built from the rows as fetched, then one entry per post. */
  function Enrich(posts: seq<PostRow>, profiles: Option<seq<ProfileRow>>, likes: Option<seq<LikeRow>>,
                  comments: Option<seq<CommentRow>>): (r: seq<EnrichedPost>)
    ensures |r| == |posts|
    ensures forall i :: 0 <= i < |posts| ==> r[i].row == posts[i]
    ensures forall i :: 0 <= i < |posts| ==>
              r[i].author == Seqs.LastWithKey(profiles.GetOr([]), ProfileId, posts[i].userId)
    ensures forall i :: 0 <= i < |posts| ==>
              r[i].likes == Seqs.FilterKey(likes.GetOr([]), LikePost, posts[i].id)
    ensures forall i :: 0 <= i < |posts| ==>
              r[i].comments == Annotate(Seqs.FilterKey(comments.GetOr([]), CommentRowPost, posts[i].id),
                                        Seqs.IndexBy(profiles.GetOr([]), ProfileId))
  {
    var profilesMap := Seqs.IndexBy(profiles.GetOr([]), ProfileId);
    var likesMap := Seqs.GroupBy(likes.GetOr([]), LikePost);
    var annotated := Annotate(comments.GetOr([]), profilesMap);
    var commentsMap := Seqs.GroupBy(annotated, CommentPost);
    var r := seq(|posts|, i requires 0 <= i < |posts| =>
      EnrichedPost(posts[i], Seqs.Get(profilesMap, posts[i].userId),
                   Seqs.Get(likesMap, posts[i].id).GetOr([]), Seqs.Get(commentsMap, posts[i].id).GetOr([])));
    forall i | 0 <= i < |posts|
      ensures r[i].author == Seqs.LastWithKey(profiles.GetOr([]), ProfileId, posts[i].userId)
      ensures r[i].likes == Seqs.FilterKey(likes.GetOr([]), LikePost, posts[i].id)
      ensures r[i].comments == Annotate(Seqs.FilterKey(comments.GetOr([]), CommentRowPost, posts[i].id), profilesMap)
    {
      Seqs.IndexByFindsLast(profiles.GetOr([]), ProfileId, posts[i].userId);
      Seqs.GroupByIsFilter(likes.GetOr([]), LikePost, posts[i].id);
      Seqs.GroupByIsFilter(annotated, CommentPost, posts[i].id);
      AnnotateThenFilter(comments.GetOr([]), profilesMap, posts[i].id);
    }
    r
  }

  /** A comment's author is the last profile fetched with its user id, or none. */
  lemma CommentAuthorIsLookup(posts: seq<PostRow>, profiles: Option<seq<ProfileRow>>, likes: Option<seq<LikeRow>>,
                              comments: Option<seq<CommentRow>>, i: nat, j: nat)
    requires i < |posts| && j < |Enrich(posts, profiles, likes, comments)[i].comments|
    ensures var c := Enrich(posts, profiles, likes, comments)[i].comments[j];
      c.row in comments.GetOr([]) && c.row.postId == posts[i].id &&
      c.author == Seqs.LastWithKey(profiles.GetOr([]), ProfileId, c.row.userId)
  {
    var picked := Seqs.FilterKey(comments.GetOr([]), CommentRowPost, posts[i].id);
    assert picked[j] in picked;
    Seqs.IndexByFindsLast(profiles.GetOr([]), ProfileId, picked[j].userId);
  }

  /** Likes and comments of posts not in the list show up nowhere. */
  lemma OrphansAppearNowhere(posts: seq<PostRow>, profiles: Option<seq<ProfileRow>>, likes: Option<seq<LikeRow>>,
                             comments: Option<seq<CommentRow>>, i: nat)
    requires i < |posts|
    ensures var e := Enrich(posts, profiles, likes, comments)[i];
      (forall l :: l in e.likes ==> l.postId == posts[i].id) &&
      (forall j :: 0 <= j < |e.comments| ==> e.comments[j].row.postId == posts[i].id)
  {
    var picked := Seqs.FilterKey(comments.GetOr([]), CommentRowPost, posts[i].id);
    assert forall j :: 0 <= j < |picked| ==> picked[j] in picked;
  }

  /** `usePosts`' query function: a failed post query throws, no posts give
      `[]`, and otherwise every post is joined. */
  function FeedQuery(posts: Result<Option<seq<PostRow>>, string>, profiles: Option<seq<ProfileRow>>,
                     likes: Option<seq<LikeRow>>, comments: Option<seq<CommentRow>>): (r: Result<seq<EnrichedPost>, string>)
    ensures posts.Err? ==> r == Result.Err(posts.error)
    ensures posts.Ok? && (posts.value.None? || posts.value.value == []) ==> r == Result.Ok([])
    ensures posts.Ok? && posts.value.Some? ==> r.Ok? && |r.value| == |posts.value.value|
  {
    match posts
    case Err(e) => Result.Err(e)
    case Ok(rows) =>
      if rows.None? || rows.value == [] then Result.Ok([])
      else Result.Ok(Enrich(rows.value, profiles, likes, comments))
  }

  /** `useUserPosts`' query function: without a user id it throws before any
      query; otherwise it joins that user's posts like `usePosts`. */
  function UserPostsQuery(userId: Option<string>, posts: Result<Option<seq<PostRow>>, string>, profiles: Option<seq<ProfileRow>>,
                          likes: Option<seq<LikeRow>>, comments: Option<seq<CommentRow>>): (r: Result<seq<EnrichedPost>, string>)
    ensures userId.None? || userId.value == "" ==> r == Result.Err("User ID is required")
    ensures userId.Some? && userId.value != "" ==> r == FeedQuery(posts, profiles, likes, comments)
  {
    if userId.None? || userId.value == "" then Result.Err("User ID is required")
    else FeedQuery(posts, profiles, likes, comments)
  }

  /** The home page's `fetchPosts`: the list becomes the joined posts (`[]`
      for none) and is kept as it was when the post query fails. */
  function HomeLoad(current: seq<EnrichedPost>, posts: Result<Option<seq<PostRow>>, string>, profiles: Option<seq<ProfileRow>>,
                    likes: Option<seq<LikeRow>>, comments: Option<seq<CommentRow>>): (r: seq<EnrichedPost>)
    ensures posts.Err? ==> r == current
    ensures posts.Ok? && (posts.value.None? || posts.value.value == []) ==> r == []
    ensures posts.Ok? && posts.value.Some? && posts.value.value != [] ==> r == Enrich(posts.value.value, profiles, likes, comments)
  {
    match posts
    case Err(_) => current
    case Ok(rows) => if rows.None? || rows.value == [] then [] else Enrich(rows.value, profiles, likes, comments)
  }

  /** The home page shows what `usePosts` returns whenever its query succeeds. */
  lemma HomeAgreesWithHook(current: seq<EnrichedPost>, posts: Result<Option<seq<PostRow>>, string>, profiles: Option<seq<ProfileRow>>,
                           likes: Option<seq<LikeRow>>, comments: Option<seq<CommentRow>>)
    requires posts.Ok?
    ensures FeedQuery(posts, profiles, likes, comments) == Result.Ok(HomeLoad(current, posts, profiles, likes, comments))
  {
  }

  // ------------------------------------------------------------ profile page

  /** The profile page's state. */
  datatype ProfilePage = ProfilePage(profile: Option<ProfileRow>, posts: seq<EnrichedPost>, loading: bool, notFound: bool)

  /** The answers the profile page's queries get, in order. `commentProfiles`
      answers the profile query for the comment authors' ids. */
  datatype ProfileAnswers = ProfileAnswers(profile: Result<Option<ProfileRow>, string>,
                                           posts: Result<Option<seq<PostRow>>, string>,
                                           likes: Option<seq<LikeRow>>, comments: Option<seq<CommentRow>>,
                                           commentProfiles: Option<seq<ProfileRow>>)

  function CommentUser(c: CommentRow): string { c.userId }

  /** The ids the comment-author query asks for: each author once. */
  function CommentAuthorIds(comments: Option<seq<CommentRow>>): (r: seq<string>)
    ensures Seqs.NoDup(r)
    ensures forall u :: u in r <==> exists c :: c in comments.GetOr([]) && c.userId == u
  {
    var cs := comments.GetOr([]);
    var ids := seq(|cs|, i requires 0 <= i < |cs| => cs[i].userId);
    assert forall u :: u in ids <==> exists c :: c in cs && c.userId == u by {
      forall u | u in ids ensures exists c :: c in cs && c.userId == u {
        var i :| 0 <= i < |ids| && ids[i] == u;
        assert cs[i] in cs;
      }
      forall u | exists c :: c in cs && c.userId == u ensures u in ids {
        var c :| c in cs && c.userId == u;
        var i :| 0 <= i < |cs| && cs[i] == c;
        assert ids[i] == u;
      }
    }
    Seqs.Dedup(ids)
  }

  /** `fetchProfileAndPosts`. Without a username nothing happens (and the page
      keeps loading); a failed profile query only ends loading; an unknown
      username marks the page not found without querying posts; a failed
      posts query shows the profile and keeps the previous posts; no posts
      give an empty list; otherwise every post gets the viewed profile as author
      and likes and comments are joined as in the feed, with comment authors
      looked up among the profiles fetched for them. */
  function ProfileLoad(page: ProfilePage, username: Option<string>, a: ProfileAnswers): (r: (ProfilePage, bool))
    ensures username.None? || username.value == "" ==> r == (page, false)
    ensures username.Some? && username.value != "" ==> !r.0.loading
    ensures r.1 <==> username.Some? && username.value != "" && a.profile.Ok? && a.profile.value.Some?
    ensures username.Some? && username.value != "" && a.profile == Result.Ok(None) ==>
              r.0 == page.(notFound := true, loading := false)
    ensures username.Some? && username.value != "" && a.profile.Err? ==> r.0 == page.(loading := false)
    ensures r.1 ==> r.0.profile == a.profile.value && r.0.notFound == page.notFound
    ensures r.1 && a.posts.Err? ==> r.0 == page.(profile := a.profile.value, loading := false)
    ensures r.1 && a.posts.Ok? && (a.posts.value.None? || a.posts.value.value == []) ==> r.0.posts == []
    ensures r.1 && a.posts.Ok? && a.posts.value.Some? && a.posts.value.value != [] ==>
              var rows := a.posts.value.value;
              |r.0.posts| == |rows| &&
              forall i :: 0 <= i < |rows| ==>
                r.0.posts[i].row == rows[i] && r.0.posts[i].author == a.profile.value &&
                r.0.posts[i].likes == Seqs.FilterKey(a.likes.GetOr([]), LikePost, rows[i].id) &&
                r.0.posts[i].comments == Annotate(Seqs.FilterKey(a.comments.GetOr([]), CommentRowPost, rows[i].id),
                                                  Seqs.IndexBy(a.commentProfiles.GetOr([]), ProfileId))
  {
    if username.None? || username.value == "" then (page, false)
    else
      match a.profile
      case Err(_) => (page.(loading := false), false)
      case Ok(None) => (page.(notFound := true, loading := false), false)
      case Ok(Some(p)) =>
        var shown := page.(profile := Some(p), loading := false);
        match a.posts
        case Err(_) => (shown, true)
        case Ok(rows) =>
          if rows.None? || rows.value == [] then (shown.(posts := []), true)
          else
            var joined := Enrich(rows.value, a.commentProfiles, a.likes, a.comments);
            var enriched := seq(|joined|, i requires 0 <= i < |joined| => joined[i].(author := Some(p)));
            (shown.(posts := enriched), true)
  }

  /** The profiles whose id is listed, in profile order (the answer to an `in`
      query on the whole table). */
  function ProfilesWithIds(profiles: seq<ProfileRow>, ids: seq<string>): (r: seq<ProfileRow>)
    ensures forall p :: p in r <==> p in profiles && p.id in ids
  {
    Seqs.Filter(profiles, Listed(ids))
  }

  /** The `in` condition of that query. */
  function Listed(ids: seq<string>): ProfileRow -> bool {
    (p: ProfileRow) => p.id in ids
  }

  /** Looking an id up among the profiles fetched for a list of ids that
      contains it finds what a lookup in the whole table finds. */
  lemma RestrictedLookup(profiles: seq<ProfileRow>, ids: seq<string>, k: string)
    requires k in ids
    ensures Seqs.LastWithKey(ProfilesWithIds(profiles, ids), ProfileId, k) == Seqs.LastWithKey(profiles, ProfileId, k)
  {
    Seqs.FilterKeepsLastWithKey(profiles, Listed(ids), ProfileId, k);
  }

  /** When the comment-author query answers from the profile table, every
      comment's author on the profile page is the one the home feed would
      show. */
  lemma ProfileCommentAuthorsMatchFeed(profiles: seq<ProfileRow>, comments: Option<seq<CommentRow>>, c: CommentRow)
    requires c in comments.GetOr([])
    ensures Seqs.Get(Seqs.IndexBy(ProfilesWithIds(profiles, CommentAuthorIds(comments)), ProfileId), c.userId)
            == Seqs.LastWithKey(profiles, ProfileId, c.userId)
  {
    var ids := CommentAuthorIds(comments);
    assert c.userId in ids;
    Seqs.IndexByFindsLast(ProfilesWithIds(profiles, ids), ProfileId, c.userId);
    RestrictedLookup(profiles, ids, c.userId);
  }

  /** `handlePostDeleted` as written: keeps the posts whose author differs
      from the viewed profile (`profile?.id`, which matches no author when no
      profile is loaded). */
  function HandlePostDeletedAsWritten(posts: seq<EnrichedPost>, profile: Option<ProfileRow>): (r: seq<EnrichedPost>)
    ensures forall p :: p in r <==> p in posts && (profile.None? || p.row.userId != profile.value.id)
  {
    Seqs.Filter(posts, (p: EnrichedPost) => profile.None? || p.row.userId != profile.value.id)
  }

  /** On a loaded profile page every listed post is the profile's own, so the
      handler as written empties the list: deleting one post hides them all. */
  lemma DeletingOnePostHidesAll(posts: seq<EnrichedPost>, profile: ProfileRow)
    requires forall i :: 0 <= i < |posts| ==> posts[i].row.userId == profile.id
    ensures HandlePostDeletedAsWritten(posts, Some(profile)) == []
  {
  }

  /** A two-post page, where deleting one post should leave the other. */
  lemma AsWrittenLosesSurvivingPost(profile: ProfileRow, a: EnrichedPost, b: EnrichedPost)
    requires a.row.userId == profile.id && b.row.userId == profile.id && a.row.id != b.row.id
    ensures HandlePostDeletedAsWritten([a, b], Some(profile)) == []
    ensures HandlePostDeleted([a, b], a.row.id) == [b]
  {
    DeletingOnePostHidesAll([a, b], profile);
    assert Seqs.FilterOutKey([b], EnrichedPostId, a.row.id) == [b];
  }

  /** The corrected handler: only the deleted post leaves the list. */
  function HandlePostDeleted(posts: seq<EnrichedPost>, deletedId: string): (r: seq<EnrichedPost>)
    ensures forall p :: p in r <==> p in posts && p.row.id != deletedId
    ensures Seqs.IsSubseq(r, posts)
    ensures |r| + |Seqs.FilterKey(posts, EnrichedPostId, deletedId)| == |posts|
  {
    Seqs.KeySplitCounts(posts, EnrichedPostId, deletedId);
    Seqs.FilterOutKey(posts, EnrichedPostId, deletedId)
  }
}
