# hellouni1 — a Dafny model of the application core

hellouni1 is a small social network for students. It has a post feed with likes and comments, profiles, notifications, direct and group chats, and a people search. A React single-page client talks to a Supabase database, partly directly and partly through Deno edge functions. This project models the logic of that application as pure Dafny functions over immutable data and proves properties about them.

- **Edge functions** `messages`, `conversations`, `posts` and `likes`: bearer-token check, body validation and membership or ownership check, plus the write or stored-procedure call each makes (modules `Http`, `MessagesFunction`, `ConversationsFunction`, `PostsFunction`, `LikesFunction`).
- **The `clerk-proxy` function**: JWT check against the JWKS key ids and expiry test, rewriting of the `$auth` filter marker, auto-filling of `user_id`/`id` on insert, and dispatch of the five operations (`ClerkProxy`).
- **Feed and profile loading**: joining posts with authors, likes and comments through `new Map` lookups and grouping loops (`Feed`, with the sequence toolkit in `Seqs`). Notifications are joined the same way (`Notifications`).
- **The chat client**: timeline load and realtime append, sending (`ChatTimeline`); conversation list, participants and display names (`UseConversations`, `ConversationList`); user pickers (`UserSearch`); and the group-creation dialog (`GroupDialog`).
- **Forms**: post and comment forms with optimistic likes (`PostForm`, `PostView`), zod schemas (`Schemas`), onboarding (`Onboarding`), sign-in (`AuthForm`), people search (`Search`) and settings with avatar upload (`Settings`).
- **Navigation details**: the unread badge, avatar initial and phone profile link (`Navigation`), route prefetching (`RoutePrefetch`) and the edge-swipe gesture (`Swipe`).

Everything outside the program becomes an input, and each answer is part of the input. This covers the database, Clerk, storage, JWKS fetches, `atob`/`JSON.parse` and the clock. The answers are plain values such as `Result`, `Option`, a row list or an error message, or function-typed parameters for per-call answers. A failed Supabase query that the code does not check reads as `null` (`None`).

Three facts about the code shape the model:

- **Content limits.** The messages function checks its 10,000-character limit on the raw, untrimmed text, and the posts function does the same with its 5,000-character limit. The trimmed text is what gets stored.
- **Lengths are JavaScript lengths.** `.length`, zod's `min`/`max` and the search's `trim().length` all count UTF-16 code units, so a character outside the Basic Multilingual Plane, such as an emoji, counts twice (`Text.Utf16Length`).
- **The chat has no delivery bookkeeping.** The code has no read receipts, no provisional or optimistic chat messages, no broadcast channel and no duplicate suppression. The realtime handler appends every inserted row (`ChatTimeline.RealtimeInsertKeepsDuplicates`), and a sent message appears only when its row comes back through the change feed.

## Model

| member | source | states |
|---|---|---|
| Http.BearerToken | supabase/functions/messages/index.ts:10-14 | the token is what follows the `Bearer ` prefix: prefix and token give back the header |
| Http.VerifyClerkToken | supabase/functions/messages/index.ts:9-38 | a caller results exactly when the header starts with `Bearer ` and Clerk verifies the token with a non-empty `sub`; the caller is that `sub` |
| Http.CheckContent | supabase/functions/messages/index.ts:75-87 | content is accepted exactly when present, not blank and at most the limit in raw length, counted in UTF-16 code units; it is stored trimmed; blank content reports "Content required" before length reports "Content too long" |
| Http.LimitCountsRawLength | supabase/functions/posts/index.ts:62-74 | content padded past the limit is refused although its trimmed form fits, and the same content padded to the limit passes |
| MessagesFunction.Serve | supabase/functions/messages/index.ts:40-111 | preflight exactly for OPTIONS; 401 without a verified caller; 500 for an unparsable body; 403 for a non-participant; for a participant, 400 with the content check's message exactly when that check fails, and 500 with the database's message when the insert fails; success exactly when all checks and the insert pass, appending the row with the trimmed text and the caller as sender; nothing is written otherwise |
| MessagesFunction.NonMemberWithEmptyContentIsForbidden | supabase/functions/messages/index.ts:61-80 | membership is checked before content: a non-member sending empty content gets 403 |
| ConversationsFunction.ValidateGroup | supabase/functions/conversations/index.ts:72-91 | a group request is valid exactly when the name is non-blank and at least two ids are given (duplicates counted); the name is checked first; a valid request yields the trimmed name and the ids unchanged |
| ConversationsFunction.Serve | supabase/functions/conversations/index.ts:40-111 | 401/500 as above; a direct request calls `get_or_create_conversation` with the caller and answers 200 with its data; a group request calls `create_group_conversation` only when valid and reports the procedure's error as 500; any other action is 400 "Invalid action" with no call |
| ConversationsFunction.DirectRequestAlwaysSucceeds | supabase/functions/conversations/index.ts:60-70 | an authenticated direct-conversation request always gets status 200, even when the procedure fails |
| PostsFunction.SingleRow | supabase/functions/posts/index.ts:91-95 | `.single()` finds the one row with the id; when rows with the id exist but none is returned, there are several |
| PostsFunction.Serve | supabase/functions/posts/index.ts:40-127 | CREATE stores the trimmed, length-checked content under the caller; DELETE answers 403 unless the single row with that id belongs to the caller, and otherwise removes exactly the rows with that id, one fewer post; unknown methods get 400; failures write nothing |
| LikesFunction.RemoveLike | supabase/functions/likes/index.ts:74-81 | the delete removes every copy of the caller's like of that post and keeps every other row, with its multiplicity and in order |
| LikesFunction.Serve | supabase/functions/likes/index.ts:40-99 | ADD appends a like of the caller, REMOVE deletes it, a write error is 500 with the list unchanged, other actions are 400 |
| LikesFunction.RemoveKeepsOthers | supabase/functions/likes/index.ts:74-81 | every other like survives removal and the caller's like of the post does not |
| ClerkProxy.UrlToStd | supabase/functions/clerk-proxy/index.ts:41 | the base64url-to-base64 rewrite keeps the length, leaves no `-` or `_`, and changes no other character |
| ClerkProxy.UrlToStdRoundTrip | supabase/functions/clerk-proxy/index.ts:41 | on base64url text the rewrite is undone by the reverse mapping |
| ClerkProxy.PayloadSegment | supabase/functions/clerk-proxy/index.ts:28-41 | the payload segment exists exactly when the token has a `.`; it follows the header segment and that dot and runs up to the next `.` or the end of the token |
| ClerkProxy.VerifyToken | supabase/functions/clerk-proxy/index.ts:20-55 | a token is accepted exactly when the JWKS fetch worked, the header decodes with a `kid` among the key ids, the payload decodes, and a present non-zero `exp` is not before now; the identity is the payload's `sub` and `email`, either of which may be absent |
| ClerkProxy.SubValue | supabase/functions/clerk-proxy/index.ts:105 | `user.sub` is the caller's id as a string when the token has one and the falsy `undefined` otherwise |
| ClerkProxy.NoExpiryNeverExpires | supabase/functions/clerk-proxy/index.ts:44 | a token without `exp`, or with `exp` 0, never counts as expired |
| ClerkProxy.ExpiryBoundary | supabase/functions/clerk-proxy/index.ts:44 | a token is still valid at exactly `exp` seconds and expired one millisecond later |
| ClerkProxy.RewriteFilters | supabase/functions/clerk-proxy/index.ts:103-111 | one equality condition per filter entry, in order; each keeps its column and its value, except that the entry `user_id = "$auth"` gets the caller's `sub` as value (`undefined` when the token has none) |
| ClerkProxy.RewriteReplacesOnlyTheMarker | supabase/functions/clerk-proxy/index.ts:139-147 | no `$auth` marker reaches the database unless the caller's `sub` is that very text, and a filter without the marker is passed on entry for entry |
| ClerkProxy.AutoFill | supabase/functions/clerk-proxy/index.ts:122-130 | on the `profiles` table a falsy `id` becomes the caller; on other tables a falsy `user_id` does (set to `undefined` when the token has no `sub`); every other key keeps its value and none is dropped |
| ClerkProxy.AutoFillIdempotent | supabase/functions/clerk-proxy/index.ts:122-130 | filling an already filled row changes nothing |
| ClerkProxy.Serve | supabase/functions/clerk-proxy/index.ts:57-205 | preflight exactly for OPTIONS; the two 401 replies; 500 with the parser's message for an unreadable body and with the destructuring error for `rpc` without `data`; a verified caller with a parsed body and a known operation (`rpc` with `data`) always gets a database request, and only such a caller does; select, insert, update, delete and rpc each build the request described; a database error is 400 with its message and a database answer is success; success carries the data and the caller's `sub`, left out when the token has none; an unknown operation is 400 |
| ChatTimeline.LoadQuery | src/components/chat/ChatInterface.tsx:85-89 | the history query returns exactly the conversation's messages, each as often as stored, ordered by creation time |
| ChatTimeline.Loaded | src/components/chat/ChatInterface.tsx:83-102 | a successful load replaces the list (null read as empty), a failed one keeps it, and loading ends either way |
| ChatTimeline.LoadShowsConversationInOrder | src/components/chat/ChatInterface.tsx:83-102 | after a load the list shows exactly the conversation's messages in time order |
| ChatTimeline.RealtimeInsert | src/components/chat/ChatInterface.tsx:50-52 | an insert event appends the row at the end and changes nothing before it |
| ChatTimeline.RealtimeInsertKeepsDuplicates | src/components/chat/ChatInterface.tsx:50-52 | the same event delivered twice shows the message twice |
| ChatTimeline.SendStart | src/components/chat/ChatInterface.tsx:104-115 | a blank draft sends nothing; otherwise the trimmed draft is inserted for the conversation and the sender, and the list is untouched |
| ChatTimeline.SendSettled | src/components/chat/ChatInterface.tsx:116-127 | the draft is cleared only on success; sending ends and the list is untouched |
| ChatTimeline.SentMessageComesBackAsOwn | src/components/chat/ChatInterface.tsx:104-118 | a sent message shows up only through the realtime event, as the sender's own message with the trimmed text |
| GroupDialog.Without | src/components/chat/CreateGroupDialog.tsx:77 | removal keeps every other selected id in order |
| GroupDialog.WithoutAbsent | src/components/chat/CreateGroupDialog.tsx:77 | removing an id that is not selected changes nothing |
| GroupDialog.NoDupWithout | src/components/chat/CreateGroupDialog.tsx:77 | removing a selected id from a duplicate-free selection shortens it by one and keeps it duplicate-free |
| GroupDialog.Toggle | src/components/chat/CreateGroupDialog.tsx:74-82 | toggling flips the membership of exactly that id, keeps the selection duplicate-free and changes its size by one |
| GroupDialog.ToggleTwice | src/components/chat/CreateGroupDialog.tsx:74-82 | toggling twice restores the selected set; when the id was not selected it restores the exact order too |
| GroupDialog.FilterDropsLast | src/components/chat/CreateGroupDialog.tsx:76-79 | removing an id that was just added gives back the earlier selection |
| GroupDialog.Create | src/components/chat/CreateGroupDialog.tsx:84-109 | a blank name is refused first, then fewer than two members; otherwise the trimmed name and the selection in insertion order are sent |
| GroupDialog.CreatedPayloadPassesServer | src/components/chat/CreateGroupDialog.tsx:105-109 | every request the dialog sends passes the function's group validation unchanged |
| GroupDialog.Settled | src/components/chat/CreateGroupDialog.tsx:111-128 | success clears the name and selection and closes the dialog; an error keeps the dialog; creating ends either way |
| UseConversations.OtherMembers | src/hooks/useConversations.ts:42-44 | the members of a conversation other than the viewer |
| UseConversations.ParticipantsOf | src/hooks/useConversations.ts:42-53 | the participants are exactly the loaded profiles of the conversation's other members, in profile order |
| UseConversations.ViewerNeverParticipant | src/hooks/useConversations.ts:42-53 | the viewer is never listed as a participant |
| UseConversations.Load | src/hooks/useConversations.ts:16-66 | a missing user id is an error; no memberships give no conversations; otherwise one entry per conversation row with its participants |
| UseConversations.LoadedParticipantsAreOtherMembers | src/hooks/useConversations.ts:16-66 | every listed participant is a loaded profile of another member of that conversation |
| ConversationList.DisplayOf | src/components/chat/ConversationList.tsx:153-168 | a group shows its name or "Unbenannte Gruppe" and its member count plus the viewer; a direct chat shows the other user's name or "Unbekannter Nutzer" and their e-mail |
| ConversationList.GroupSubtitleCountsViewer | src/components/chat/ConversationList.tsx:157 | the group subtitle reads back as the number of participants plus one, followed by " Teilnehmer" |
| ConversationList.Filtered | src/components/chat/ConversationList.tsx:170-177 | the filter keeps exactly the conversations whose name or subtitle contains the query, ignoring case, in list order |
| ConversationList.EmptyQueryKeepsAll | src/components/chat/ConversationList.tsx:170-177 | an empty query keeps the whole list |
| ConversationList.OnClick | src/components/chat/ConversationList.tsx:120-151 | a group is selected directly; a direct chat first calls the conversation procedure for the other user and is selected with the returned id only on success |
| ConversationList.FetchParticipants | src/components/chat/ConversationList.tsx:78-98 | the participants fetched are other members of the conversation; a failed query gives none |
| ConversationList.FetchAgreesWithHook | src/components/chat/ConversationList.tsx:78-98 | with both queries answered, the list's participant fetch equals the hook's |
| ConversationList.LoadList | src/components/chat/ConversationList.tsx:49-118 | failed queries keep the current list, no memberships empty it, and otherwise there is one entry per conversation row |
| ConversationList.LoadListAgreesWithHook | src/components/chat/ConversationList.tsx:49-118 | for a signed-in viewer and answered queries, the list loads the same conversations as the hook |
| UserSearch.Filtered | src/components/chat/UserList.tsx:47-53 | the filter keeps exactly the users whose name or e-mail contains the query, ignoring case, in list order |
| UserSearch.NeverShownWithoutNameOrEmail | src/components/chat/UserList.tsx:47-53 | a user without name and e-mail never matches |
| UserSearch.EmptyQueryShowsUsersWithNameOrEmail | src/components/chat/NewDirectMessageDialog.tsx:100-106 | an empty query shows exactly the users with a name or an e-mail |
| UserSearch.OtherUsers | src/components/chat/UserList.tsx:32-36 | the picker's query returns every profile except the viewer's |
| UserSearch.FetchUsers | src/components/chat/NewDirectMessageDialog.tsx:52-72 | a successful fetch replaces the list (null read as empty); a failure keeps it |
| UserSearch.PickerExcludesViewer | src/components/chat/UserList.tsx:30-45 | the viewer never appears in the picker, and a failed first fetch shows nobody |
| UserSearch.SelectUser | src/components/chat/NewDirectMessageDialog.tsx:74-98 | a user is selected exactly when the procedure returns an id, as a direct chat with that user |
| UserSearch.DialogAgreesWithSidebar | src/components/chat/NewDirectMessageDialog.tsx:74-98 | picking a user in the dialog selects the same conversation as clicking the direct chat in the list |
| Schemas.Failures | src/pages/Onboarding.tsx:13-19 | a text fails no check exactly when it passes all |
| Schemas.FirstFailureIsEarliest | src/pages/Onboarding.tsx:59-60 | the first reported message belongs to the earliest failing check |
| Schemas.Parse | src/pages/Onboarding.tsx:13-19 | parsing succeeds exactly when the trimmed text passes every check, and yields the trimmed text |
| Schemas.FirstError | src/pages/Onboarding.tsx:59-60 | the message shown is the earliest failing check's, and none exactly when parsing succeeds |
| Schemas.CommentAcceptance | src/components/Post.tsx:51-56 | a comment is accepted exactly when its trimmed length is 1 to 2000 UTF-16 code units |
| Schemas.PostAcceptance | src/components/PostForm.tsx:15-20 | a post is accepted exactly when its trimmed length is 1 to 5000 UTF-16 code units |
| Schemas.UsernameAcceptance | src/pages/Onboarding.tsx:13-19 | a username is accepted exactly when, trimmed, it has 3 to 20 letters, digits or underscores |
| Schemas.UsernameLengthReportedFirst | src/pages/Onboarding.tsx:16-18 | a too-short username reports the length message, not the character message |
| Schemas.NonBlankCommentFailsOnlyForLength | src/components/Post.tsx:113-117 | a non-blank comment can only fail for being too long |
| Schemas.NonBlankPostFailsOnlyForLength | src/components/PostForm.tsx:31-35 | a non-blank post can only fail for being too long |
| PostView.Unliked | src/components/Post.tsx:76 | unliking removes the viewer's likes and keeps every other like, with its multiplicity and in order |
| PostView.UnlikedCount | src/components/Post.tsx:67-76 | the shown like count drops by exactly the number of the viewer's likes |
| PostView.LikeClicked | src/components/Post.tsx:71-96 | a liked post is shown with exactly the viewer's likes removed (the others kept, in order) and a delete is sent; an unliked post is shown with the viewer's like appended and an insert is sent; the loaded likes are untouched |
| PostView.LikeSettled | src/components/Post.tsx:98-103 | whether the write succeeded or failed, the optimistic list is dropped and the loaded likes show |
| PostView.LikeThenUnlikeRestores | src/components/Post.tsx:75-79 | liking then unliking before the write settles shows the original likes again |
| PostView.CommentSubmitted | src/components/Post.tsx:112-125 | a blank comment is ignored; a comment whose trimmed form has 1 to 2000 UTF-16 code units is inserted trimmed; a longer one shows the length message |
| PostView.CommentSettled | src/components/Post.tsx:127-148 | the comment field is cleared only on success |
| PostView.DeletePost | src/components/Post.tsx:154-160 | the delete removes exactly the viewer's rows with that id |
| PostView.DeleteSparesOthersPosts | src/components/Post.tsx:154-160 | deleting someone else's post changes nothing |
| PostForm.Submitted | src/components/PostForm.tsx:28-42 | blank content or no user is ignored; content whose trimmed form has 1 to 5000 UTF-16 code units is inserted trimmed for the user; longer content shows the length message |
| PostForm.Settled | src/components/PostForm.tsx:44-66 | success clears the form and notifies the feed; loading ends either way |
| PostForm.FormPostPassesServerCheck | src/components/PostForm.tsx:35-42 | every post the form sends would also pass the posts function's content check unchanged |
| Feed.AnnotateThenFilter | src/hooks/usePosts.ts:62-71 | picking a post's comments out of the annotated list gives the same as annotating that post's comments |
| Feed.Enrich | src/hooks/usePosts.ts:53-78 | one entry per post, in order: the author is the last profile with that id, the likes are exactly the post's likes, and the comments are exactly the post's comments with their authors, in load order |
| Feed.CommentAuthorIsLookup | src/hooks/usePosts.ts:67-70 | every shown comment belongs to its post and carries its author's profile |
| Feed.OrphansAppearNowhere | src/hooks/usePosts.ts:73-78 | likes and comments appear only under the post they name |
| Feed.FeedQuery | src/hooks/usePosts.ts:29-84 | a failed post query is an error, no posts give `[]`, and otherwise there is one enriched entry per post |
| Feed.UserPostsQuery | src/hooks/usePosts.ts:86-145 | without a user id the query fails with "User ID is required"; otherwise it is the feed query on that user's posts |
| Feed.HomeLoad | src/pages/Home.tsx:47-114 | the home page keeps its list on a failed query, empties it without posts, and otherwise shows the enriched posts |
| Feed.HomeAgreesWithHook | src/pages/Home.tsx:47-114 | the home page's loader and the shared hook produce the same feed |
| Feed.CommentAuthorIds | src/pages/Profile.tsx:108 | the author query asks for each comment author exactly once |
| Feed.ProfileLoad | src/pages/Profile.tsx:58-151 | no username does nothing; a failed profile query only ends loading; a missing profile sets not-found, and a found one leaves that flag alone; a failed posts query shows the profile and keeps the previous posts; no posts give an empty list; a found profile is shown with its posts enriched from the likes, comments and comment authors |
| Feed.ProfilesWithIds | src/pages/Profile.tsx:109-112 | the restricted query returns exactly the profiles with the requested ids |
| Feed.RestrictedLookup | src/pages/Profile.tsx:109-114 | looking up a requested id in the restricted profiles finds the same profile as in all profiles |
| Feed.ProfileCommentAuthorsMatchFeed | src/pages/Profile.tsx:108-114 | the profile page shows the same comment author as the feed |
| Feed.HandlePostDeletedAsWritten | src/pages/Profile.tsx:156-158 | the handler as written keeps only posts not by the profile owner |
| Feed.DeletingOnePostHidesAll | src/pages/Profile.tsx:156-158 | on a profile page, where every post is the owner's, the handler empties the list |
| Feed.AsWrittenLosesSurvivingPost | src/pages/Profile.tsx:156-158 | with two posts, deleting one hides both as written, while the corrected handler keeps the other |
| Feed.HandlePostDeleted | src/pages/Profile.tsx:156-158 | corrected handler: removes exactly the deleted post, in order, one fewer per row with that id |
| Notifications.ActorIds | src/hooks/useNotifications.ts:37 | each actor of a notification is requested exactly once |
| Notifications.PostIds | src/hooks/useNotifications.ts:43-49 | the post query asks for exactly the non-empty post ids of the notifications |
| Notifications.Load | src/hooks/useNotifications.ts:22-66 | a missing user id is an error; a failed query is its error; no rows give `[]`; otherwise each notification in order with the last actor with its id and its post, or no post when `post_id` is empty, or a missing post when none matches |
| Notifications.QueriesCoverEveryNotification | src/hooks/useNotifications.ts:37-49 | the two follow-up queries ask for every notification's actor and post |
| Onboarding.Submitted | src/pages/Onboarding.tsx:28-46 | without a user nothing happens; otherwise the username must pass the schema, whose first failure is shown; the update stores the trimmed username and the trimmed full name, or null when blank |
| Onboarding.StoredUsernameIsClean | src/pages/Onboarding.tsx:37-45 | a stored username has 3 to 20 letters, digits or underscores and no surrounding whitespace |
| Onboarding.Settled | src/pages/Onboarding.tsx:48-63 | only success goes home; a unique violation (23505) shows "already taken"; other errors show their message or the generic one |
| AuthForm.MagicLinkPressed | src/pages/Auth.tsx:28-44 | an empty e-mail is refused before loading starts; otherwise a magic link is requested for it |
| AuthForm.MagicLinkSettled | src/pages/Auth.tsx:46-54 | success shows the "link sent" screen with no error; an error shows its message or the generic one and leaves that screen as it was; loading ends, and the fields and the mode are kept either way |
| AuthForm.PasswordPressed | src/pages/Auth.tsx:57-99 | missing fields (e-mail, username and password for sign-up; username and password for login) are refused before loading; sign-up calls `signUp`, login first looks up the username |
| AuthForm.LoginIgnoresEmail | src/pages/Auth.tsx:60-70 | an empty e-mail blocks sign-up but not login |
| AuthForm.SignUpSettled | src/pages/Auth.tsx:87-92 | a successful sign-up clears the fields, switches to login and shows no error; an error keeps them and shows its message or the generic one; loading ends |
| AuthForm.LookupSettled | src/pages/Auth.tsx:95-110 | an unknown username stops with "Benutzername nicht gefunden" and no sign-in; otherwise the found e-mail signs in with the password |
| AuthForm.SignInSettled | src/pages/Auth.tsx:107-119 | success goes to /home with no error; an error shows its message or the generic one and stays; loading ends, and the fields and the mode are kept either way |
| AuthForm.LoginReachesHomeOnlyWhenFoundAndAccepted | src/pages/Auth.tsx:93-115 | a login reaches /home exactly when the username was found and the password accepted |
| Search.Typed | src/pages/Search.tsx:26-40 | the input is always shown; a trimmed length below two UTF-16 code units clears the results with no query; otherwise the untrimmed text is searched, at most 20 rows |
| Search.Answered | src/pages/Search.tsx:42-52 | a successful answer replaces the results; an error keeps them and reports its message or "Fehler bei der Suche"; searching ends |
| Search.MessageOf | src/pages/Search.tsx:82-92 | a running search shows first, then the hint for short queries, then "no results", then the list |
| Search.EmptyAnswerShowsNoResults | src/pages/Search.tsx:42-92 | after a query of at least two UTF-16 code units, an empty answer shows "no results" and a failed one keeps showing the old non-empty list |
| Search.AstralCharacterIsSearched | src/pages/Search.tsx:29-32 | a single character outside the Basic Multilingual Plane counts as two code units, so it alone is already searched for |
| Search.ShortQueryShowsHint | src/pages/Search.tsx:29-32 | a short query sends nothing and shows the hint |
| Search.ProfileClick | src/pages/Search.tsx:55-59 | a click navigates to `/profile/<username>` exactly when the username is non-empty |
| Settings.FetchProfile | src/pages/Settings.tsx:40-61 | a failed load reports an error and an absent row changes nothing; a found row replaces the profile with null names read as "" |
| Settings.Extension | src/pages/Settings.tsx:72 | the extension has no dot and is the whole name or the text after its last dot |
| Settings.OldAvatarPath | src/pages/Settings.tsx:76-80 | an old file is removed exactly when the stored URL is set and its last `/` segment is non-empty; the path is the user's folder, a `/`, and the URL's text after its last `/` |
| Settings.RemovalTargetsPreviousUpload | src/pages/Settings.tsx:72-80 | when the stored URL ends in a path this page uploaded, the removal targets exactly that path |
| Settings.AvatarUpload | src/pages/Settings.tsx:63-113 | without a file nothing happens; otherwise the old file is removed, the file goes to `<uid>/avatar.<ext>`, and the profile shows the public URL only when upload and row update both succeed; errors are reported with their message; uploading ends |
| Settings.FailedUploadAfterRemoval | src/pages/Settings.tsx:75-90 | a failed upload still removed the old file and leaves the profile pointing at it |
| Settings.SavePressed | src/pages/Settings.tsx:116-126 | saving sends exactly the page's username and full name for the user |
| Settings.SaveSettled | src/pages/Settings.tsx:128-135 | a failed save is reported with its message; the page keeps its values either way |
| Settings.SaveAfterLoadStoresLoadedNames | src/pages/Settings.tsx:54-59 | saving after a load writes the loaded names, with null turned into "" |
| RoutePrefetch.Normalize | src/utils/routePrefetch.ts:18 | the path before the first `?`, with its trailing `/` removed when it has one and unchanged otherwise |
| RoutePrefetch.KeyFor | src/utils/routePrefetch.ts:21-33 | `/profile/…` paths share the key `/profile`, table routes are their own key, and every other path has none: outside `/profile/` a path has a key exactly when it is a table route |
| RoutePrefetch.Prefetch | src/utils/routePrefetch.ts:16-40 | a load starts exactly when the path has a key not yet requested, and that key is added; otherwise the set is unchanged |
| RoutePrefetch.LoadFailed | src/utils/routePrefetch.ts:35-38 | a failed load removes exactly its key |
| RoutePrefetch.SecondPrefetchIsNoOp | src/utils/routePrefetch.ts:22 | prefetching the same path again does nothing |
| RoutePrefetch.RetryAfterFailure | src/utils/routePrefetch.ts:35-38 | after a failed load, the same path loads again |
| RoutePrefetch.ProfilePagesShareKey | src/utils/routePrefetch.ts:21-29 | after one profile page is prefetched, any other profile page starts no load |
| RoutePrefetch.ProfilePathKey | src/utils/routePrefetch.ts:18-21 | `/profile/<user>`, for a non-empty user without `?`, gets the shared key `/profile` |
| RoutePrefetch.BareProfilePathIgnored | src/utils/routePrefetch.ts:18-33 | `/profile/` and `/profile` have no loader and leave the set unchanged |
| RoutePrefetch.RouteKeyIgnoresQueryAndSlash | src/utils/routePrefetch.ts:6-18 | a table route keeps its key with a query string or a trailing slash |
| Swipe.TouchStart | src/components/SwipeableLayout.tsx:17-22 | a touch within 50 px of the edge starts tracking at its position; others are ignored; the open state is unchanged |
| Swipe.TouchMove | src/components/SwipeableLayout.tsx:25-28 | the position is recorded only while tracking |
| Swipe.TouchEnd | src/components/SwipeableLayout.tsx:30-43 | after a tracked swipe the sidebar is open exactly when it already was or the swipe went more than 100 px right; tracking resets to zero |
| Swipe.StepKeepsValid | src/components/SwipeableLayout.tsx:10-43 | every event keeps both coordinates at zero while not tracking, and the start inside the 50 px edge strip while tracking |
| Swipe.RunKeepsValidAndOpen | src/components/SwipeableLayout.tsx:10-43 | any sequence of touch events keeps the state valid and never closes an open sidebar (the sidebar's own `onOpenChange` can close it; that is outside the touch handlers) |
| Swipe.TapNeverOpens | src/components/SwipeableLayout.tsx:12 | a touch that starts and ends without moving leaves the sidebar as it was |
| Swipe.SwipeRightOpens | src/components/SwipeableLayout.tsx:17-38 | a swipe from the edge to more than 100 px further right opens the sidebar |
| Navigation.BadgeFor | src/components/Navigation.tsx:120-124 | hidden exactly at zero (null read as zero), "9+" exactly above nine, otherwise the single digit that reads back as the count |
| Navigation.BadgeIsExactUpToNine | src/components/BottomNavigation.tsx:78-83 | two counts with the same badge are equal when either is at most nine |
| Navigation.RefreshedCount | src/components/BottomNavigation.tsx:13-22 | without a user the count stays; otherwise it is the answer, null read as zero |
| Navigation.AvatarInitial | src/components/Navigation.tsx:144-148 | the upper-cased first character of the full name, else the username, else the e-mail, skipping empty values, else "U" |
| Navigation.InitialNeverLowercase | src/components/Navigation.tsx:145-147 | the initial is never an ASCII lower-case letter |
| Navigation.PhoneAvatarUsesEmail | src/components/Navigation.tsx:177 | the phone bar's initial comes from the e-mail alone |
| Navigation.PhoneProfilePath | src/components/Navigation.tsx:174 | the link is `/profile/` plus the e-mail's part before `@`, or `/profile/undefined` without an e-mail |
| Seqs.IndexByFindsLast | src/hooks/usePosts.ts:53 | a `new Map` lookup finds the last row with that key, or nothing |
| Seqs.GroupByIsFilter | src/hooks/usePosts.ts:54-60 | the grouping loop's list for a key is exactly the rows with that key, in order |
| Seqs.Dedup | src/hooks/useNotifications.ts:37 | `[...new Set(xs)]` has the same elements without duplicates |
| Text.Trim | supabase/functions/messages/index.ts:75 | the trimmed text occurs in the input with only whitespace before and after it, has no whitespace at either end, and is empty exactly for blank input |
| Text.Utf16Length | supabase/functions/messages/index.ts:82 | JavaScript's `length` is at least the number of characters and at most twice it |
| Text.Utf16LengthBmp | supabase/functions/messages/index.ts:82 | JavaScript's `length` equals the number of characters exactly when every character lies in the Basic Multilingual Plane |
| Text.Utf16LengthAppend | supabase/functions/messages/index.ts:82 | the length of a concatenation is the sum of the lengths |
| Text.Utf16LengthOfTrim | supabase/functions/messages/index.ts:75-82 | trimming never makes the length grow |
| Text.NatToStringRoundTrip | src/components/chat/ConversationList.tsx:157 | the decimal rendering of a count reads back as that count |

## Left out

- JSX rendering, toasts, icons, styling and routing beyond the paths computed above. The effects themselves are left out too: timers, query caching and `staleTime`, and subscribing and unsubscribing realtime channels. Their handlers are modelled as steps.
- Network, storage, Clerk, JWKS fetches, `atob`/`JSON.parse` and the clock are inputs, as described above.
- The stored procedures' bodies (`get_or_create_conversation`, `create_group_conversation`) and row-level security are not part of this model. Their answers are inputs.
- Database-side ordering (`.order(...)`) is not modelled except in `ChatTimeline.LoadQuery`, `ilike` matching is not modelled, and most queries are given as their result rows. A few state their conditions over the whole table: `ChatTimeline.LoadQuery` (the history query), `UserSearch.OtherUsers` (`.neq`), and `Feed.ProfilesWithIds` and `UseConversations.ProfilesWithIds` (`.in`). The conversation list runs one participants query and one profiles query per conversation; `ConversationList.FetchParticipants` and `ConversationList.LoadList` take one shared answer for all of them, so answers that differ from one conversation to the next are not modelled.
- Strings are sequences of Unicode scalar values, so the lone surrogates a JavaScript string may hold are not modelled.
- Concurrency is out of scope: the order in which overlapping responses arrive, such as two search responses for successive keystrokes or a load racing a realtime insert. Every handler is a sequential step.
- ClerkProxy.VerifyToken: the JWT signature is not checked by the code either. `exp` is an integer, so non-integer `exp` values and JavaScript's number comparison with `Date.now()/1000` are modelled as `exp * 1000 < now`.
- ClerkProxy.Serve: table names, selects and column values are passed through unmodelled. A JSON body that is not an object, and `Object.entries` of non-object filters, are not modelled. An explicit JSON `null` for `select` or `order.ascending` is treated like an absent value and gets the default, whereas the code's destructuring defaults apply only to `undefined`. Likewise an `rpc` body whose `data` is an explicit `null` is treated like one without `data`: the model answers 500 with the "…as it is undefined." message, where the runtime's message ends "…as it is null.".
- Http.CheckContent: a `content` that is not a string (a number, an object) is not modelled; the body's `content` is a string or absent.
- Navigation.InitialNeverLowercase: covers ASCII lower-case letters only; a name starting with a non-ASCII lower-case letter such as `é` is not covered, because `UpperChar` models `toUpperCase` on ASCII letters only.
- Text.Trim: uses the ASCII whitespace set. `ToLower` and `UpperChar` map ASCII letters only, so Unicode whitespace and case mapping are not modelled.
- RoutePrefetch.KeyFor: the route table is a plain set. A path equal to an inherited `Object.prototype` key (such as `constructor`) would find a non-loader in the source; this is not modelled.
- Swipe.TouchStart: coordinates are whole pixels (`int`) rather than floating point.
- Settings.AvatarUpload: the storage `remove` result is ignored, as in the code. File type and size hints in the UI are not enforced by the code and are not modelled.
- The loading and `creating` flags of some dialogs (UserList, NewDirectMessageDialog, the comment box) are not modelled. They only gate buttons.
- `Dashboard`, `Messages`, `Hero`, `AppSidebar` and the profile-sync hooks are not part of this model.

## Findings

| source | as written | input that shows it | evidently intended | confidence | as-written member | corrected member |
|---|---|---|---|---|---|---|
| src/pages/Profile.tsx:156-158 | after a post is deleted, the handler keeps only posts whose author is not the profile owner | a profile page with two posts `a`, `b` of the owner; deleting `a` leaves `[]` | remove only the deleted post, leaving `[b]` | not executed | Feed.HandlePostDeletedAsWritten (with Feed.AsWrittenLosesSurvivingPost and Feed.DeletingOnePostHidesAll) | Feed.HandlePostDeleted |
