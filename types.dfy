/** The records shared by the feed, profiles, search and the circles (types.ts).
    JavaScript numbers become `int` (timestamps, counters) or `real`
    (the aspect ratio), optional fields become `Option`. */
module Types {

  datatype Option<+T> = None | Some(value: T)

  /** The kind of content a post carries. */
  datatype PostType = Image | Video | Text | Mixed

  datatype User = User(
    id: string,
    name: string,
    username: string,
    avatar: string,
    age: Option<int>,
    mbti: Option<string>,
    interests: seq<string>,
    bio: Option<string>,
    following: seq<string>,
    followers: seq<string>,
    isPrivate: bool,
    showAge: bool,
    showMBTI: bool,
    showInterests: bool)

  datatype Post = Post(
    id: string,
    kind: PostType,
    content: string,
    mediaUrl: Option<string>,
    authorId: string,
    authorName: string,
    authorAvatar: string,
    timestamp: int,
    likes: int,
    commentsCount: int,
    isAnonymous: bool,
    tags: seq<string>,
    aspectRatio: real)

  datatype GroupPost = GroupPost(
    id: string,
    authorId: string,
    authorName: string,
    content: string,
    timestamp: int,
    likes: int)

  datatype Group = Group(
    id: string,
    name: string,
    description: string,
    creatorId: string,
    members: seq<string>,
    isPrivate: bool,
    posts: seq<GroupPost>)

  /** The five top-level screens of the app. */
  datatype Tab = FeedTab | SearchTab | CreateTab | CommunityTab | ProfileTab
}
