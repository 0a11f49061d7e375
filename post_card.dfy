/** One card of the feed, as components/PostCard.tsx draws it: whether the
    author's name leads anywhere, the like button and its count, the first
    three tags, the background picked from the last character of the post
    id, and the comment list a reader can add to. The card shows its own
    local comments, not the post's stored count. */
module PostCard {
  import opened Types
  import opened Strings
  import App

  /** A comment held by the card (or the detail overlay) itself. */
  datatype LocalComment = LocalComment(id: string, authorName: string, content: string, timestamp: int)

  /** The name the reader's own comments are signed with. */
  const OwnCommentAuthor: string := "You"

  /** `isAuthorInteractive`: there is a handler for author clicks, the post
      is not anonymous, and its author is neither "anon" nor external. */
  predicate IsAuthorInteractive(p: Post, hasAuthorHandler: bool) {
    hasAuthorHandler && !p.isAnonymous && p.authorId != "anon" && !StartsWith(p.authorId, "external")
  }

  /** An interactive author always passes the check the app makes before it
      opens a profile, and an anonymous post never leads anywhere. */
  lemma InteractiveAuthorsAreInternal(p: Post, hasAuthorHandler: bool)
    ensures IsAuthorInteractive(p, hasAuthorHandler) <==>
      hasAuthorHandler && !p.isAnonymous && !App.IsExternalAuthor(p.authorId)
    ensures p.isAnonymous ==> !IsAuthorInteractive(p, hasAuthorHandler)
  {
  }

  /** `handleAuthorAction`: the author id handed to `onAuthorClick`, if the
      click is passed on at all. */
  function AuthorAction(p: Post, hasAuthorHandler: bool): (fired: Option<string>)
    ensures fired.Some? <==> IsAuthorInteractive(p, hasAuthorHandler)
    ensures fired.Some? ==> fired.value == p.authorId && !App.IsExternalAuthor(fired.value)
  {
    if IsAuthorInteractive(p, hasAuthorHandler) then Some(p.authorId) else None
  }

  /** `handleQuickWhisper`: the author id handed to `onQuickWhisper`; it
      needs an interactive author and a whisper handler. */
  function QuickWhisper(p: Post, hasAuthorHandler: bool, hasWhisperHandler: bool): (fired: Option<string>)
    ensures fired.Some? <==> IsAuthorInteractive(p, hasAuthorHandler) && hasWhisperHandler
    ensures fired.Some? ==> fired.value == p.authorId
  {
    if IsAuthorInteractive(p, hasAuthorHandler) && hasWhisperHandler then Some(p.authorId) else None
  }

  /** A quick whisper is offered only to authors whose name is clickable,
      and goes to the same person. */
  lemma QuickWhisperFollowsAuthorAction(p: Post, hasAuthorHandler: bool, hasWhisperHandler: bool)
    ensures QuickWhisper(p, hasAuthorHandler, hasWhisperHandler).Some? ==>
      QuickWhisper(p, hasAuthorHandler, hasWhisperHandler) == AuthorAction(p, hasAuthorHandler)
    ensures hasWhisperHandler ==> QuickWhisper(p, hasAuthorHandler, true) == AuthorAction(p, hasAuthorHandler)
  {
  }

  /** `post.likes + (isLiked ? 1 : 0)`: the reader's own like is shown on
      top of the stored count. */
  function DisplayedLikes(likes: int, isLiked: bool): (n: int)
    ensures n == likes || n == likes + 1
    ensures n == likes + 1 <==> isLiked
  {
    likes + (if isLiked then 1 else 0)
  }

  /** `tags.slice(0, 3)`: the tags the card has room for. */
  function VisibleTags(tags: seq<string>): (r: seq<string>)
    ensures |r| <= 3 && |r| <= |tags| && r == tags[..|r|]
    ensures |r| == 3 || r == tags
  {
    if |tags| <= 3 then tags else tags[..3]
  }

  /** `tags.length > 3`: an ellipsis follows the visible tags. */
  predicate ShowsEllipsis(tags: seq<string>) {
    |tags| > 3
  }

  /** The ellipsis is shown exactly when some tag is left out. */
  lemma EllipsisMarksHiddenTags(tags: seq<string>)
    ensures ShowsEllipsis(tags) <==> VisibleTags(tags) != tags
  {
    if ShowsEllipsis(tags) {
      assert |VisibleTags(tags)| < |tags|;
    }
  }

  /** `charCodeAt` of the last character: the UTF-16 code unit, which for a
      code point beyond U+FFFF is the low half of its surrogate pair. */
  function LastCodeUnit(c: char): (u: nat)
    ensures u < 0x1_0000
    ensures (c as int) < 0x1_0000 ==> u == c as int
    ensures (c as int) >= 0x1_0000 ==> 0xDC00 <= u < 0xE000
  {
    if (c as int) < 0x1_0000 then c as int else 0xDC00 + (c as int - 0x1_0000) % 0x400
  }

  /** `textPostStyles[id.charCodeAt(id.length - 1) % 3]`: which of the three
      backgrounds a text post gets. An empty id reads `charCodeAt(-1)`,
      which is NaN, and picks no style. */
  function StyleIndex(id: string): (r: Option<nat>)
    ensures r.None? <==> id == []
    ensures r.Some? ==> r.value < 3
  {
    if id == [] then None else Some(LastCodeUnit(id[|id| - 1]) % 3)
  }

  /** The background depends on the last character of the id and nothing
      else. */
  lemma StyleFollowsLastCharacter(a: string, b: string)
    requires a != [] && b != [] && a[|a| - 1] == b[|b| - 1]
    ensures StyleIndex(a) == StyleIndex(b)
  {
  }

  /** Ids that end in consecutive digits cycle through the three
      backgrounds. */
  lemma ConsecutiveIdsCycleStyles(prefix: string, d: nat)
    requires d < 9
    ensures var next := DigitChar(d + 1);
      StyleIndex(prefix + [DigitChar(d)]).Some? && StyleIndex(prefix + [next]).Some?
      && StyleIndex(prefix + [next]).value == (StyleIndex(prefix + [DigitChar(d)]).value + 1) % 3
  {
  }

  /** The state of one card. */
  class PostCardView {
    const post: Post
    var isLiked: bool
    var commentText: string
    var comments: seq<LocalComment>

    /** A card opens unliked, with an empty draft and the comments it was
        seeded with. */
    constructor (post: Post, initialComments: seq<LocalComment>)
      ensures this.post == post && !isLiked && commentText == "" && comments == initialComments
    {
      this.post := post;
      isLiked := false;
      commentText := "";
      comments := initialComments;
    }

    /** The like button; the shown count moves by one either way. */
    method ToggleLike()
      modifies this
      ensures isLiked == !old(isLiked)
      ensures DisplayedLikes(post.likes, isLiked) ==
        DisplayedLikes(post.likes, old(isLiked)) + (if isLiked then 1 else -1)
      ensures commentText == old(commentText) && comments == old(comments)
    {
      isLiked := !isLiked;
    }

    /** Typing in the comment box. */
    method TypeComment(text: string)
      modifies this
      ensures commentText == text && isLiked == old(isLiked) && comments == old(comments)
    {
      commentText := text;
    }

    /** `handleAddComment`: a draft of spaces only is ignored; otherwise the
        draft, as typed, is appended as the reader's own newest comment and
        the box is cleared. */
    method AddComment(id: string, now: int)
      modifies this
      ensures IsBlank(old(commentText)) ==> comments == old(comments) && commentText == old(commentText)
      ensures !IsBlank(old(commentText)) ==>
        && comments == old(comments) + [LocalComment(id, OwnCommentAuthor, old(commentText), now)]
        && commentText == ""
      ensures |comments| == |old(comments)| + (if IsBlank(old(commentText)) then 0 else 1)
      ensures comments[..|old(comments)|] == old(comments)
      ensures isLiked == old(isLiked)
    {
      if IsBlank(commentText) {
        return;
      }
      comments := comments + [LocalComment(id, OwnCommentAuthor, commentText, now)];
      commentText := "";
    }
  }
}
