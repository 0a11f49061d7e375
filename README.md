# Lumina: a verified model of the feed, profile and circle rules

Lumina is a client-side social app: a masonry feed of image and text posts,
user profiles with an editable bio and interest list, one-to-one "whispers"
and group "circles", a composer for new (optionally anonymous) posts, and a
search over known users and outside sites. Almost all of it is rendering;
this project models the rules that sit inside the components and proves
what they guarantee.

- `types.dfy` (`Types`): the records of `types.ts` (`User`, `Post`,
  `PostType`, `Group`, `GroupPost`, `Tab`) and `Option`.
- `strings.dfy` (`Strings`): the JavaScript string operations the
  components use (`trim`, ASCII `toLowerCase`, `startsWith`, `includes`,
  `split` on one character, `join`, decimal rendering and reading).
- `seqs.dfy` (`Seqs`): `filter` and the subsequence facts about it.
- `feed.dfy` (`FeedLayout`): the shortest-column distribution of the feed.
  `LayoutOf` is the specification. `DistributeColumns` updates the two
  arrays in place, as the source does, and is proved to produce
  `LayoutOf`. Partition, in-column order, the tie-break and the balance
  bound are proved about `LayoutOf`.
- `app.dfy` (`App`): the top-level navigation state as a class with the
  four handlers, and the two profile post filters.
- `community.dfy` (`Community`): whisper threads and circle boards as a
  class whose handlers are proved to perform the map updates
  `WithMessage` and `WithCirclePost`. It also holds the `m:ss` clock label
  and its read-back.
- `profile.dfy` (`Profile`): the profile page. Interests are edited as one
  string joined with ", " and parsed back by split, trim and drop-empty.
  That round trip is proved for clean interests.
- `post_card.dfy` (`PostCard`), `post_detail.dfy` (`PostDetail`): the card
  and the full-screen overlay. The card appends comments and the overlay
  prepends them.
- `create_post.dfy` (`CreatePost`): the post built from the composer's
  draft, or its refusal.
- `search.dfy` (`Search`): user search, the web-search guards and the
  outside-site addresses.

Two facts about the feed code shape its model. The aspect-ratio fallback
`aspectRatio || 1` (components/Feed.tsx:42) replaces only a ratio of
exactly 0. A negative ratio passes through and can give a negative
estimate (`NegativeRatioShrinksColumn`). And the balance bound the greedy
placement guarantees is "at most the largest single estimate", not
"strictly less": one post on two columns already reaches it.

## Model

| member | source | states |
|---|---|---|
| FeedLayout.ColumnCountFor | components/Feed.tsx:18-22 | the count is 2, 3 or 4; it is 4 exactly from width 1280 and 2 exactly below 768 |
| FeedLayout.WiderWindowMoreColumns | components/Feed.tsx:19-21 | a wider window never gets fewer columns |
| FeedLayout.EstimatedHeight | components/Feed.tsx:41-43 | non-images add 1.2; an image adds 1/ratio + 0.4 for every ratio other than 0, negative ones included, and 1 + 0.4 for ratio 0; with a non-negative ratio the estimate exceeds 0.4 |
| FeedLayout.NegativeRatioShrinksColumn | components/Feed.tsx:42 | an image whose ratio lies strictly between -2.5 and 0 gets a negative estimate, because the fallback to 1 does not replace negatives |
| FeedLayout.ShortestIndex | components/Feed.tsx:36 | the index holds a minimum height and every earlier column is strictly taller (first minimum wins) |
| FeedLayout.ShortestIndexIsFirstMinimum | components/Feed.tsx:36 | any index with those two properties is the one chosen, so the choice is unique |
| FeedLayout.EmptyLayout | components/Feed.tsx:31-32 | `columnCount` empty columns, each of height 0 |
| FeedLayout.Place | components/Feed.tsx:36-45 | the post goes at the end of the shortest column, that column's height grows by the post's estimate, and no other column or height changes |
| FeedLayout.LayoutOf | components/Feed.tsx:30-49 | dealing the posts in order gives exactly `columnCount` columns and heights |
| FeedLayout.DistributeColumns | components/Feed.tsx:30-49 | the in-place loop over the two arrays yields `LayoutOf(posts, columnCount).columns`; with 0 columns and some post it fails (`ok` false) |
| FeedLayout.PlaceInto | components/Feed.tsx:36-45 | one in-place step leaves the arrays equal to `Place` of their old contents |
| FeedLayout.IndexOfShortest | components/Feed.tsx:36 | `indexOf(Math.min(...))` computed with two loops equals `ShortestIndex` of the heights |
| FeedLayout.SingleColumnKeepsFeedOrder | components/Feed.tsx:30-49 | with one column, the column is the feed itself |
| FeedLayout.Choices | components/Feed.tsx:36 | one chosen column per post, each below the column count |
| FeedLayout.ChoiceIsShortestColumn | components/Feed.tsx:36 | post i went to a column that was minimal when it was placed, with every lower-indexed column strictly taller |
| FeedLayout.Positions | components/Feed.tsx:34-38 | the feed positions dealt onto a column, strictly increasing, and all of them |
| FeedLayout.ColumnFollowsFeedOrder | components/Feed.tsx:34-38 | each column is spelled out by the increasing feed positions of the posts dealt onto it, so within a column earlier posts come first |
| FeedLayout.ColumnsFollowFeedOrder | components/Feed.tsx:34-38 | the same for all columns at once |
| FeedLayout.EveryPostPlacedOnce | components/Feed.tsx:34-38 | the columns together hold exactly the feed's posts as a multiset, so their lengths sum to the number of posts |
| FeedLayout.HeightsAreColumnEstimates | components/Feed.tsx:41-45 | every running height is the sum of the estimates of the posts in its column |
| FeedLayout.LargestContribution | components/Feed.tsx:41-45 | the largest post estimate, or 0 if that is larger: at least 0, at least every estimate, and either 0 or the estimate of some post |
| FeedLayout.ColumnsStayBalanced | components/Feed.tsx:36-45 | with no negative estimate, no two column heights differ by more than the largest single estimate |
| FeedLayout.BalancedForNonNegativeRatios | components/Feed.tsx:41-45 | the balance bound holds whenever no aspect ratio is negative |
| FeedLayout.ScenarioFirstPost | components/Feed.tsx:30-49 | one text post on two columns goes left, giving heights 1.2 and 0 |
| FeedLayout.ScenarioSecondPost | components/Feed.tsx:30-49 | then a ratio-2 image goes right, giving heights 1.2 and 0.9 |
| FeedLayout.TwoColumnScenario | components/Feed.tsx:30-49 | then another text post goes right again, since 0.9 < 1.2 |
| App.FindUser | App.tsx:36 | `find` returns None exactly when no user has the id, and otherwise the first user with it |
| App.PublicPostsBy | App.tsx:64 | a post is listed exactly when it is in the feed, has that author and is not anonymous |
| App.OwnPosts | App.tsx:93 | a post is listed exactly when it is in the feed and has that author |
| App.ProfilePostsKeepFeedOrder | App.tsx:64 | both profile lists are subsequences of the feed |
| App.PublicIsOwnWithoutAnonymous | App.tsx:64 | another user's view is the owner's own list with the anonymous posts filtered out |
| App.NewPostHeadsOwnProfile | App.tsx:28-31 | a new post heads its author's own list, and every other author's list is unchanged |
| App.AppState.constructor | App.tsx:15-22 | the app opens on the feed as the first known user, with no viewed profile, whisper contact or open post |
| App.AppState.CreatePost | App.tsx:28-31 | the post goes first, the old feed follows unchanged, and the feed tab opens |
| App.AppState.AuthorClick | App.tsx:33-42 | "anon" and "external…" ids (`IsExternalAuthor`) and unknown ids change nothing; a known author is viewed on the profile tab with the open post closed |
| App.AppState.TabChange | App.tsx:44-51 | the viewed profile and open post are cleared; the whisper contact is kept exactly when the tab is the community tab |
| App.AppState.OpenWhisper | App.tsx:53-57 | the contact is set, the community tab opens, the open post closes, and the viewed profile is untouched |
| App.AppState.Render | App.tsx:59-101 | a viewed profile is shown exactly on the profile tab with a viewed user, with the public filter; otherwise the tab decides: the feed gets the whole post list, search and create screens exactly on their tabs, the community screen the whisper contact, and the own profile the own-profile filter |
| Community.ListAt | components/Community.tsx:238 | a contact without a thread, or a group without a board (line 267), has an empty one |
| Community.WithMessage | components/Community.tsx:236-239 | the message is appended to the contact's thread, which is created if missing; no other thread changes |
| Community.ThreadKeepsSendingOrder | components/Community.tsx:236-239 | two messages to one contact stay in sending order |
| Community.SendsToDifferentContactsCommute | components/Community.tsx:236-239 | sends to two different contacts give the same threads in either order |
| Community.WithCirclePost | components/Community.tsx:265-268 | the post goes on top of the group's board; no other board changes |
| Community.BoardShowsNewestFirst | components/Community.tsx:265-268 | after two posts, the newer one is on top of the older one |
| Community.BuildGroupPosts | components/Community.tsx:183-187 | every group id gets a board, and each board holds the posts of the last group with that id |
| Community.SeedStep | components/Community.tsx:184-186 | one more assignment keeps every board that of the last group seen with its id |
| Community.PadTwo | components/Community.tsx:391 | `padStart(2, '0')`: strings of length 2 or more are kept; shorter ones get zeros in front up to length 2 |
| Community.SecondsField | components/Community.tsx:390-391 | the seconds field is two digits that read back as the seconds |
| Community.FormatTime | components/Community.tsx:388-392 | the label is digits, a colon and two digits, and the two digits are below 60 |
| Community.FormatTimeRoundTrip | components/Community.tsx:388-392 | reading the label back gives the number of seconds, i.e. mins * 60 + secs = s |
| Community.ReadClockOfFields | components/Community.tsx:389-391 | the label of m minutes and r < 60 seconds reads back as m * 60 + r |
| Community.CommunityScreen.constructor | components/Community.tsx:126-138 | the initial state; a non-empty whisper id opens that contact, and the boards are seeded from the groups |
| Community.CommunityScreen.ReceiveWhisperId | components/Community.tsx:190-196 | a non-empty id (`IsSet`) opens that contact on the whispers pane and leaves the group; otherwise nothing changes; threads, boards, drafts, menus and the anonymity switch always stay |
| Community.CommunityScreen.SelectContact | components/Community.tsx:218-221 | the contact is selected and the same id is reported to the parent; every other field stays |
| Community.CommunityScreen.SelectGroup | components/Community.tsx:505 | the circle is opened or closed; every other field stays |
| Community.CommunityScreen.SendMessage | components/Community.tsx:223-251 | no open thread (`IsSet` false, the empty id included), or a blank text message, changes nothing; otherwise the message from the current user is appended to the open thread, the draft is cleared and both menus close |
| Community.CommunityScreen.SubmitDraft | components/Community.tsx:655 | submitting sends the draft as a text message under the same guards, clearing it and closing both menus; otherwise nothing changes; the selections, pane, boards and circle composer always stay |
| Community.CommunityScreen.AddEmoji | components/Community.tsx:435-438 | the emoji is appended to the draft; every other field stays |
| Community.CommunityScreen.ToggleCircleAnonymous | components/Community.tsx:730 | the anonymity switch flips; every other field stays |
| Community.CommunityScreen.SendCirclePost | components/Community.tsx:253-272 | no open circle, or a blank draft, changes nothing; otherwise the post (anon/"Anonymous Soul" or the user, likes 0) goes on top of the circle's board, the draft is cleared and anonymity is reset; the pane, selections, threads, chat draft and menus always stay |
| Profile.OrEmpty | components/Profile.tsx:22-23 | a missing value becomes the empty string |
| Profile.DraftOf | components/Profile.tsx:21-25 | the form holds bio and MBTI (or ''), and the interests joined with ", " |
| Profile.TrimAll | components/Profile.tsx:34 | each piece trimmed, with the count kept |
| Profile.ParseInterests | components/Profile.tsx:34 | every saved interest is non-empty, trimmed and comma-free |
| Profile.KeptPiecesAreClean | components/Profile.tsx:34 | dropping the empty trimmed pieces leaves clean interests |
| Profile.TrimmedPiecesHaveNoComma | components/Profile.tsx:34 | trimming comma-free pieces leaves trimmed, comma-free pieces |
| Profile.TrimIsInfix | components/Profile.tsx:34 | trimming adds no character |
| Profile.SplitJoinedInterests | components/Profile.tsx:34 | splitting the ", "-joined interests at commas gives the first interest, then each other one behind a space |
| Profile.TrimJoinedPieces | components/Profile.tsx:34 | trimming those pieces gives the interests back |
| Profile.EmptyTextHasNoInterests | components/Profile.tsx:34 | an empty field saves no interest |
| Profile.CleanPiecesOfJoinedInterests | components/Profile.tsx:34 | split and trim of the joined clean interests gives them back |
| Profile.InterestsRoundTrip | components/Profile.tsx:24 | saving the untouched field of clean interests gives the same list |
| Profile.ParseInterestsIdempotent | components/Profile.tsx:34-43 | save, then Cancel (which refills the field with the joined interests), then save again stores the same interests as the first save |
| Profile.FollowsYouReadsFollowingList | components/Profile.tsx:155 | the "Follows you" badge (`ShowsFollowsYouBadge`, with `FollowsYou` of line 27) shows exactly on another user's page when the viewer's id occurs in the owner's `following` list. It never shows on the own page or without a viewer, and owners with the same `following` list show viewers with the same id the same badge, whatever else differs |
| Profile.FollowerCount | components/Profile.tsx:54 | the followers shown are the stored count, plus one exactly when following |
| Profile.ProfileView.constructor | components/Profile.tsx:16-25 | the page opens not following and not editing, with the form filled in from the user |
| Profile.ProfileView.ToggleFollow | components/Profile.tsx:174 | the follow flag flips and the shown count moves by one in that direction; the "Follows you" badge stays as it was |
| Profile.ProfileView.StartEditing | components/Profile.tsx:84 | edit mode opens; the user and the form are untouched |
| Profile.ProfileView.Edit | components/Profile.tsx:105 | the form takes the typed values |
| Profile.ProfileView.Save | components/Profile.tsx:29-37 | bio and MBTI come from the form and interests are parsed from it; every other field stays, edit mode closes, the stored interests are clean, and the "Follows you" badge stays as it was |
| Profile.ProfileView.Cancel | components/Profile.tsx:39-46 | the form is refilled from the unchanged user and edit mode closes |
| Profile.CancelThenSaveKeepsInterests | components/Profile.tsx:43 | refilling the form and saving it keeps clean interests |
| PostCard.InteractiveAuthorsAreInternal | components/PostCard.tsx:31 | `IsAuthorInteractive` holds iff there is a handler, the post is not anonymous and the author is not external (the app's own test); anonymous posts are never interactive |
| PostCard.AuthorAction | components/PostCard.tsx:33-38 | the click is passed on exactly for an interactive author, with the author's id, which the app does not treat as external |
| PostCard.QuickWhisper | components/PostCard.tsx:40-45 | the whisper is passed on exactly for an interactive author with a whisper handler |
| PostCard.QuickWhisperFollowsAuthorAction | components/PostCard.tsx:31-45 | a quick whisper goes to the same id an author click would |
| PostCard.DisplayedLikes | components/PostCard.tsx:221 | the stored likes, plus one exactly when liked |
| PostCard.VisibleTags | components/PostCard.tsx:177 | at most three tags, a prefix of the list, and all of them when there are three or fewer |
| PostCard.EllipsisMarksHiddenTags | components/PostCard.tsx:182 | the ellipsis shows exactly when some tag is hidden |
| PostCard.LastCodeUnit | components/PostCard.tsx:67 | `charCodeAt` gives a UTF-16 unit: the code point itself below U+10000, a low surrogate otherwise |
| PostCard.StyleIndex | components/PostCard.tsx:67 | a non-empty id picks a background index in 0..2; the empty id picks none |
| PostCard.StyleFollowsLastCharacter | components/PostCard.tsx:67 | ids with the same last character get the same background |
| PostCard.ConsecutiveIdsCycleStyles | components/PostCard.tsx:67 | ids ending in consecutive digits cycle through the three backgrounds |
| PostCard.PostCardView.constructor | components/PostCard.tsx:20-29 | the card opens unliked, with an empty draft and its seed comments |
| PostCard.PostCardView.ToggleLike | components/PostCard.tsx:211 | the like flips and the shown count moves by one in that direction |
| PostCard.PostCardView.TypeComment | components/PostCard.tsx:268 | the draft takes the typed text |
| PostCard.PostCardView.AddComment | components/PostCard.tsx:47-60 | a blank draft changes nothing; otherwise the draft, signed "You", is appended after the unchanged earlier comments, the count grows by one, and the draft clears |
| PostDetail.PostDetailView.constructor | components/PostDetailOverlay.tsx:12-20 | the overlay opens unliked, unsaved, with an empty draft and its seed comments |
| PostDetail.PostDetailView.ToggleLike | components/PostDetailOverlay.tsx:117-121 | the like flips and the shown count moves by one in that direction |
| PostDetail.PostDetailView.ToggleSave | components/PostDetailOverlay.tsx:128 | the saved flag flips |
| PostDetail.PostDetailView.TypeComment | components/PostDetailOverlay.tsx:176 | the draft takes the typed text |
| PostDetail.PostDetailView.Background | components/PostDetailOverlay.tsx:29-34 | the overlay's background index is in 0..2 and is the same index the feed card computes for the post; it selects from the overlay's own list of styles, so the index is shared and the background itself differs |
| PostDetail.PostDetailView.AddComment | components/PostDetailOverlay.tsx:22-27 | a blank draft changes nothing; otherwise the draft, signed "You" with the first clock reading in decimal as its id (read back by `ParseDecimal`) and the second as its time, goes first, the earlier comments follow in order, the count grows by one, and the draft clears |
| CreatePost.HandlePost | components/CreatePost.tsx:18-38 | refused exactly when the content is blank and there is no media (`IsPostDisabled`, the button's condition at line 46); otherwise every field: image iff media, content untrimmed, the anon identity iff anonymous, zero likes and comments, no tags, ratio 1 |
| CreatePost.EmptyDraftIsDisabled | components/CreatePost.tsx:13-19 | the fresh composer cannot post |
| CreatePost.MediaAlwaysPosts | components/CreatePost.tsx:19-23 | media alone is enough to post, and it makes an image post |
| CreatePost.AnonymousPostsHideTheAuthor | components/CreatePost.tsx:26-28 | an anonymous post does not depend on who wrote it |
| CreatePost.NewPostFeedHeight | components/CreatePost.tsx:23-34 | a new post's feed estimate is 1.4 with media and 1.2 without |
| CreatePost.NewPostAuthorIsClickable | components/CreatePost.tsx:26 | for an internal user, the new post's author is clickable exactly when it is not anonymous |
| CreatePost.NewPostOnProfiles | components/CreatePost.tsx:26 | a new post heads the author's own and public lists unless anonymous, and then is on neither |
| Search.InitialState | components/Search.tsx:12-14 | the screen opens in souls mode with an empty query and no web answer |
| Search.InternalResults | components/Search.tsx:17-20 | a user is listed exactly when the lowercased name or username contains the lowercased query |
| Search.ResultsKeepListOrder | components/Search.tsx:17-20 | the results are a subsequence of the user list |
| Search.EmptyQueryMatchesEveryone | components/Search.tsx:17-20 | the empty query lists every user |
| Search.MatchesNarrow | components/Search.tsx:17-20 | a user matching a query matches every piece of it |
| Search.LongerQueryNarrowsResults | components/Search.tsx:17-20 | the results for a longer query are those for its piece, filtered again, and so a subset of them |
| Search.OnQueryChange | components/Search.tsx:70-73 | the query is replaced, and in souls mode the web answer is dropped |
| Search.HandleSearch | components/Search.tsx:22-32 | a blank query or souls mode changes nothing; otherwise the service's answer for the query is stored |
| Search.SoulsModeHoldsNoWebAnswer | components/Search.tsx:26 | in souls mode, an edit followed by a search leaves no web answer |
| Search.PromptStandsInForBlankQueries | components/Search.tsx:147 | `ShowsPrompt` holds exactly when the query trims to nothing; it covers the empty query, which matches everyone, and any query with a non-space character shows the results |
| Search.OpenExternal | components/Search.tsx:34-42 | none for a blank query; otherwise the site's prefix, the encoded query and the site's suffix |
| Search.PlatformsOpenDifferentSites | components/Search.tsx:38-40 | two different platforms never open the same address |
| Search.SiteInitial | components/Search.tsx:38-40 | the site name starts right after "https://www." with g, p or y |
| Search.QueryReadBackFromAddress | components/Search.tsx:36 | with an invertible encoder, the query can be read back from the address |
| Strings.BlankIsTrimmedToEmpty | components/CreatePost.tsx:19 | `!s.trim()` holds exactly for strings of whitespace only, the test the composer, comments, whispers and search all use |

## Left out

- The audio recorder, voice playback and its visualiser, `formatAudioTime` and the seek maths (components/Community.tsx:23-124, 281-386). They are browser media APIs with asynchronous callbacks and floating point.
- The file pickers, `FileReader` and `URL.createObjectURL`, and `handleAttachMedia` (components/Community.tsx:394-433). They only call `handleSendMessage`, which `SendMessage` models for every message kind.
- Window resize listeners, `window.open`, `scrollIntoView`, focus timers and the height of text areas. These are I/O.
- `Math.random` ids and `Date.now` timestamps. They are parameters of the operations that use them.
- The mock messages, comments, users and groups of `constants.tsx` and the components. The constructors take them as parameters.
- `services/gemini.ts` is not part of this model. `getInspiration` is the function parameter `inspire` of `Search.HandleSearch`, and the loading flag is not modelled.
- `encodeURIComponent` is the function parameter `encode` of `Search.OpenExternal`.
- Strings are sequences of Dafny `char`, which are Unicode scalar values, not the UTF-16 code units of JavaScript strings; only PostCard.LastCodeUnit converts between the two. A lone surrogate therefore cannot be represented, and the `URIError` that `encodeURIComponent` throws for one (components/Search.tsx:36) is outside the model.
- Search.InternalResults: lower-casing covers ASCII letters only, not the full Unicode case mapping of `toLowerCase`. Search.MatchesNarrow and Search.LongerQueryNarrowsResults rely on it: JavaScript lower-cases a final capital sigma by context, so "ΑΣ" becomes "ας" while "Σ" alone becomes "σ", and a user named "ας" matches the query "ΑΣ" but not its piece "Σ".
- Search.HandleSearch: the inspiration service is a function, so the same query always gets the same answer, and the `await` is taken to finish at once. In the source every submit sends a new request whose answer may differ, and an answer that arrives after a switch to souls mode and an edit is still stored.
- The Search mode buttons only set `activeMode`. The model keeps `mode` in the state value without a separate setter, and the search state is a value rather than a class.
- FeedLayout.EstimatedHeight: heights are `real`. With JavaScript doubles, rounding can decide ties differently.
- FeedLayout.DistributeColumns: with 0 columns and at least one post the source throws. The model returns `ok` false instead of modelling the exception.
- The composer's `postType` selector is kept in `CreatePost.Draft` but, as in the source, never read when the post is built.
- The card's `isSaved`, `showComments` and `showShare` flags, and the profile's tab selector, only switch what is drawn.
- components/Navigation.tsx and components/ProfileSidebar.tsx and all JSX and CSS rendering are not part of this model.
- Community.CommunityScreen.SelectContact: the parent callback is modelled as the returned id, not as a call into App.
