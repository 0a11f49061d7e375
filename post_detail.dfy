/** The full-screen view of one post, components/PostDetailOverlay.tsx. It
    shares the like count and the background index with the feed card but
    keeps its comments newest first, and both of its counters are the
    length of that local list. */
module PostDetail {
  import opened Types
  import opened Strings
  import PostCard

  /** The state of the overlay. */
  class PostDetailView {
    const post: Post
    var isLiked: bool
    var isSaved: bool
    var commentText: string
    var comments: seq<PostCard.LocalComment>

    /** The overlay opens unliked, unsaved, with an empty draft and the
        comments it was seeded with. */
    constructor (post: Post, initialComments: seq<PostCard.LocalComment>)
      ensures this.post == post && !isLiked && !isSaved && commentText == ""
      ensures comments == initialComments
    {
      this.post := post;
      isLiked := false;
      isSaved := false;
      commentText := "";
      comments := initialComments;
    }

    /** The overlay's own `bgStyle` index: the last code unit of the id,
        mod 3. It is the index the feed card computes, but it selects from
        the overlay's own list of three styles (a stronger tint fading to
        white), not the card's, so the post keeps the same colour family
        and not the same background. */
    function Background(): (r: Option<nat>)
      ensures r == PostCard.StyleIndex(post.id)
      ensures r.Some? ==> r.value < 3
    {
      if |post.id| == 0 then None else Some(PostCard.LastCodeUnit(post.id[|post.id| - 1]) % 3)
    }

    /** The heart button; the shown count, `post.likes + (isLiked ? 1 : 0)`
        as on the card, moves by one either way. */
    method ToggleLike()
      modifies this
      ensures isLiked == !old(isLiked) && isSaved == old(isSaved)
      ensures PostCard.DisplayedLikes(post.likes, isLiked) ==
        PostCard.DisplayedLikes(post.likes, old(isLiked)) + (if isLiked then 1 else -1)
      ensures commentText == old(commentText) && comments == old(comments)
    {
      isLiked := !isLiked;
    }

    /** The bookmark button. */
    method ToggleSave()
      modifies this
      ensures isSaved == !old(isSaved) && isLiked == old(isLiked)
      ensures commentText == old(commentText) && comments == old(comments)
    {
      isSaved := !isSaved;
    }

    /** Typing in the comment box. */
    method TypeComment(text: string)
      modifies this
      ensures commentText == text && comments == old(comments)
      ensures isLiked == old(isLiked) && isSaved == old(isSaved)
    {
      commentText := text;
    }

    /** `handleAddComment`: a draft of spaces only is ignored; otherwise the
        draft, as typed, goes to the top of the list as the reader's own
        comment and the box is cleared. The clock is read twice: the id is
        the first reading `idClock` written in decimal, the timestamp the
        second reading `now`. The two can differ when a millisecond passes
        between them, and two comments added in the same millisecond share
        an id. */
    method AddComment(idClock: nat, now: nat)
      modifies this
      ensures IsBlank(old(commentText)) ==> comments == old(comments) && commentText == old(commentText)
      ensures !IsBlank(old(commentText)) ==>
        && comments == [PostCard.LocalComment(Decimal(idClock), PostCard.OwnCommentAuthor, old(commentText), now)] + old(comments)
        && commentText == ""
        && ParseDecimal(comments[0].id) == idClock
      ensures |comments| == |old(comments)| + (if IsBlank(old(commentText)) then 0 else 1)
      ensures comments[|comments| - |old(comments)|..] == old(comments)
      ensures isLiked == old(isLiked) && isSaved == old(isSaved)
    {
      if IsBlank(commentText) {
        return;
      }
      ParseDecimalInvertsDecimal(idClock);
      comments := [PostCard.LocalComment(Decimal(idClock), PostCard.OwnCommentAuthor, commentText, now)] + comments;
      commentText := "";
    }
  }
}
