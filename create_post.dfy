/** The composer of components/CreatePost.tsx: the post it builds from the
    draft, or its refusal when there is neither text nor media. */
module CreatePost {
  import opened Types
  import opened Strings
  import FeedLayout
  import PostCard
  import App

  /** What the composer holds while the user writes. The chosen post type
      is kept but never read when the post is built. */
  datatype Draft = Draft(content: string, isAnonymous: bool, postType: PostType, mediaUrl: string)

  /** The composer opens empty, as a text post under the user's name. */
  const EmptyDraft: Draft := Draft("", false, Text, "")

  /** Who an anonymous post is shown as. */
  const AnonymousId: string := "anon"
  const AnonymousName: string := "Anonymous"
  const AnonymousAvatar: string := "https://www.gravatar.com/avatar/0?d=mp&f=y"

  /** `!content.trim() && !mediaUrl`: the Post button is greyed out and a
      press does nothing. */
  predicate IsPostDisabled(d: Draft) {
    IsBlank(d.content) && d.mediaUrl == ""
  }

  /** `handlePost`: the new post, or nothing when the button is disabled.
      The id and the time come from outside. */
  function HandlePost(d: Draft, user: User, id: string, now: int): (r: Option<Post>)
    ensures r.None? <==> IsPostDisabled(d)
    ensures r.Some? ==>
      && r.value.id == id && r.value.timestamp == now
      && (r.value.kind == Image <==> d.mediaUrl != "")
      && (r.value.kind == Text <==> d.mediaUrl == "")
      && (r.value.mediaUrl.None? <==> d.mediaUrl == "")
      && (r.value.mediaUrl.Some? ==> r.value.mediaUrl.value == d.mediaUrl)
      && r.value.content == d.content
      && r.value.isAnonymous == d.isAnonymous
      && r.value.authorId == (if d.isAnonymous then AnonymousId else user.id)
      && r.value.authorName == (if d.isAnonymous then AnonymousName else user.name)
      && r.value.authorAvatar == (if d.isAnonymous then AnonymousAvatar else user.avatar)
      && r.value.likes == 0 && r.value.commentsCount == 0
      && r.value.tags == [] && r.value.aspectRatio == 1.0
  {
    if IsPostDisabled(d) then None
    else
      Some(Post(
        id := id,
        kind := if d.mediaUrl != "" then Image else Text,
        content := d.content,
        mediaUrl := if d.mediaUrl != "" then Some(d.mediaUrl) else None,
        authorId := if d.isAnonymous then AnonymousId else user.id,
        authorName := if d.isAnonymous then AnonymousName else user.name,
        authorAvatar := if d.isAnonymous then AnonymousAvatar else user.avatar,
        timestamp := now,
        likes := 0,
        commentsCount := 0,
        isAnonymous := d.isAnonymous,
        tags := [],
        aspectRatio := 1.0))
  }

  /** An empty composer cannot post. */
  lemma EmptyDraftIsDisabled(user: User, id: string, now: int)
    ensures HandlePost(EmptyDraft, user, id, now) == None
  {
  }

  /** Media alone is enough to post, whatever the text. */
  lemma MediaAlwaysPosts(d: Draft, user: User, id: string, now: int)
    requires d.mediaUrl != ""
    ensures HandlePost(d, user, id, now).Some?
    ensures HandlePost(d, user, id, now).value.kind == Image
  {
  }

  /** Nothing of the signed-in user leaks into an anonymous post: any two
      users produce the same post. */
  lemma AnonymousPostsHideTheAuthor(d: Draft, u: User, v: User, id: string, now: int)
    requires d.isAnonymous
    ensures HandlePost(d, u, id, now) == HandlePost(d, v, id, now)
  {
  }

  /** A new post takes one feed slot of a square picture with its caption,
      or of a text post. */
  lemma NewPostFeedHeight(d: Draft, user: User, id: string, now: int)
    requires HandlePost(d, user, id, now).Some?
    ensures FeedLayout.EstimatedHeight(HandlePost(d, user, id, now).value)
      == if d.mediaUrl != "" then 1.0 + FeedLayout.CaptionAllowance else FeedLayout.FlatPostHeight
  {
  }

  /** On a card with an author handler, a new post's author is clickable
      exactly when it was not posted anonymously, provided the user's own
      id is not one the app treats as external. */
  lemma NewPostAuthorIsClickable(d: Draft, user: User, id: string, now: int)
    requires HandlePost(d, user, id, now).Some?
    requires !App.IsExternalAuthor(user.id)
    ensures PostCard.IsAuthorInteractive(HandlePost(d, user, id, now).value, true) <==> !d.isAnonymous
  {
  }

  /** Once handed to the app, a new post heads its author's own profile and
      the list others see of it, unless it was anonymous; then it shows on
      neither (the own profile is looked up by the user's id, which is not
      "anon"). */
  lemma NewPostOnProfiles(d: Draft, user: User, id: string, now: int, posts: seq<Post>)
    requires HandlePost(d, user, id, now).Some?
    requires user.id != AnonymousId
    ensures var p := HandlePost(d, user, id, now).value;
      && App.OwnPosts([p] + posts, user.id) == (if d.isAnonymous then [] else [p]) + App.OwnPosts(posts, user.id)
      && App.PublicPostsBy([p] + posts, user.id) == (if d.isAnonymous then [] else [p]) + App.PublicPostsBy(posts, user.id)
  {
    var p := HandlePost(d, user, id, now).value;
    App.NewPostHeadsOwnProfile(posts, p, user.id);
    assert ([p] + posts)[1..] == posts;
  }
}
