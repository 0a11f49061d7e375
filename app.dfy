/** The top-level state of App.tsx: which tab is active, whose profile is
    being viewed, the open post, the whisper contact handed to the
    community screen, and the feed itself. The handlers are the four
    transitions the navigation, the feed and the profiles trigger. */
module App {
  import opened Types
  import Strings
  import Seqs

  /** `users[i]` is the first user whose id is `id`. */
  predicate FirstWithId(users: seq<User>, i: int, id: string) {
    0 <= i < |users| && users[i].id == id && forall j :: 0 <= j < i ==> users[j].id != id
  }

  /** `users.find(u => u.id === id)`: the first user with that id. */
  function FindUser(users: seq<User>, id: string): (r: Option<User>)
    ensures r.None? <==> forall i :: 0 <= i < |users| ==> users[i].id != id
    ensures r.Some? ==> exists i :: FirstWithId(users, i, id) && users[i] == r.value
    decreases |users|
  {
    if users == [] then None
    else if users[0].id == id then
      assert FirstWithId(users, 0, id);
      Some(users[0])
    else
      var r := FindUser(users[1..], id);
      assert forall i :: FirstWithId(users[1..], i, id) ==> FirstWithId(users, i + 1, id);
      r
  }

  /** Authors whose name leads nowhere: anonymous posts and posts pulled
      from outside the app. */
  predicate IsExternalAuthor(authorId: string) {
    authorId == "anon" || Strings.StartsWith(authorId, "external")
  }

  /** The posts shown on another user's profile: theirs, not anonymous,
      in feed order. */
  function PublicPostsBy(posts: seq<Post>, userId: string): (r: seq<Post>)
    ensures forall p :: p in r <==> p in posts && p.authorId == userId && !p.isAnonymous
    ensures forall p {:trigger multiset(r)[p]} :: multiset(r)[p] == if p.authorId == userId && !p.isAnonymous then multiset(posts)[p] else 0
  {
    Seqs.Filter(posts, (p: Post) => p.authorId == userId && !p.isAnonymous)
  }

  /** The posts shown on the user's own profile: all of theirs, anonymous
      ones included. */
  function OwnPosts(posts: seq<Post>, userId: string): (r: seq<Post>)
    ensures forall p :: p in r <==> p in posts && p.authorId == userId
    ensures forall p {:trigger multiset(r)[p]} :: multiset(r)[p] == if p.authorId == userId then multiset(posts)[p] else 0
  {
    Seqs.Filter(posts, (p: Post) => p.authorId == userId)
  }

  /** Both profile lists keep the feed order. */
  lemma ProfilePostsKeepFeedOrder(posts: seq<Post>, userId: string)
    ensures Seqs.IsSubsequence(PublicPostsBy(posts, userId), posts)
    ensures Seqs.IsSubsequence(OwnPosts(posts, userId), posts)
  {
    Seqs.FilterIsSubsequence(posts, (p: Post) => p.authorId == userId && !p.isAnonymous);
    Seqs.FilterIsSubsequence(posts, (p: Post) => p.authorId == userId);
  }

  /** What others see of a profile is the owner's own list with the
      anonymous posts taken out. */
  lemma PublicIsOwnWithoutAnonymous(posts: seq<Post>, userId: string)
    ensures PublicPostsBy(posts, userId) == Seqs.Filter(OwnPosts(posts, userId), (p: Post) => !p.isAnonymous)
  {
    var own := (p: Post) => p.authorId == userId;
    var public := (p: Post) => p.authorId == userId && !p.isAnonymous;
    Seqs.FilterNarrowing(posts, own, public);
    Seqs.FilterNarrowing(OwnPosts(posts, userId), own, public);
    Seqs.FilterKeepsAll(OwnPosts(posts, userId), own);
    assert Seqs.Filter(OwnPosts(posts, userId), public) == Seqs.Filter(OwnPosts(posts, userId), (p: Post) => !p.isAnonymous)
      by { FilterSameOnList(OwnPosts(posts, userId), public, (p: Post) => !p.isAnonymous, userId); }
  }

  /** Two tests that agree on every element of a list of `userId`'s posts
      filter it alike. */
  lemma {:induction false} FilterSameOnList(s: seq<Post>, f: Post -> bool, g: Post -> bool, userId: string)
    requires forall i :: 0 <= i < |s| ==> s[i].authorId == userId
    requires forall p: Post :: p.authorId == userId ==> f(p) == g(p)
    ensures Seqs.Filter(s, f) == Seqs.Filter(s, g)
    decreases |s|
  {
    if s != [] {
      FilterSameOnList(s[1..], f, g, userId);
    }
  }

  /** A new post heads its author's own profile; nobody else's list
      changes. */
  lemma NewPostHeadsOwnProfile(posts: seq<Post>, newPost: Post, userId: string)
    ensures OwnPosts([newPost] + posts, userId)
      == (if newPost.authorId == userId then [newPost] else []) + OwnPosts(posts, userId)
  {
    assert ([newPost] + posts)[1..] == posts;
  }

  /** The main area of the page, as `renderContent` chooses it. */
  datatype Screen =
    | ViewedProfile(user: User, posts: seq<Post>, isOwnProfile: bool)
    | FeedScreen(posts: seq<Post>)
    | SearchScreen
    | CreateScreen
    | CommunityScreen(initialWhisperId: Option<string>)
    | OwnProfile(user: User, posts: seq<Post>)

  class AppState {
    const currentUser: User
    /** The users an author id is looked up among. */
    const directory: seq<User>
    var activeTab: Tab
    var viewingUser: Option<User>
    var posts: seq<Post>
    var activeWhisperId: Option<string>
    var selectedPost: Option<Post>

    /** The app opens on the feed, signed in as the first known user. */
    constructor (directory: seq<User>, posts: seq<Post>)
      requires |directory| > 0
      ensures this.directory == directory && currentUser == directory[0]
      ensures this.posts == posts && activeTab == FeedTab
      ensures viewingUser == None && activeWhisperId == None && selectedPost == None
    {
      this.directory := directory;
      currentUser := directory[0];
      this.posts := posts;
      activeTab := FeedTab;
      viewingUser := None;
      activeWhisperId := None;
      selectedPost := None;
    }

    /** `handleCreatePost`: the new post goes first and the feed is shown. */
    method CreatePost(newPost: Post)
      modifies this
      ensures posts == [newPost] + old(posts)
      ensures activeTab == FeedTab
      ensures viewingUser == old(viewingUser) && activeWhisperId == old(activeWhisperId)
      ensures selectedPost == old(selectedPost)
    {
      posts := [newPost] + posts;
      activeTab := FeedTab;
    }

    /** `handleAuthorClick`: opens a known author's profile; anonymous,
        external and unknown authors change nothing. */
    method AuthorClick(authorId: string)
      modifies this
      ensures IsExternalAuthor(authorId) || FindUser(directory, authorId).None? ==>
        && activeTab == old(activeTab) && viewingUser == old(viewingUser)
        && selectedPost == old(selectedPost)
      ensures !IsExternalAuthor(authorId) && FindUser(directory, authorId).Some? ==>
        && viewingUser == FindUser(directory, authorId)
        && viewingUser.value.id == authorId
        && activeTab == ProfileTab && selectedPost == None
      ensures posts == old(posts) && activeWhisperId == old(activeWhisperId)
    {
      if authorId == "anon" || Strings.StartsWith(authorId, "external") {
        return;
      }
      var user := FindUser(directory, authorId);
      if user.Some? {
        viewingUser := user;
        activeTab := ProfileTab;
        selectedPost := None;
      }
    }

    /** `handleTabChange`: any tab closes the viewed profile and the open
        post; every tab except the community one forgets the whisper
        contact. */
    method TabChange(tab: Tab)
      modifies this
      ensures activeTab == tab && viewingUser == None && selectedPost == None
      ensures activeWhisperId == (if tab == CommunityTab then old(activeWhisperId) else None)
      ensures posts == old(posts)
    {
      viewingUser := None;
      activeTab := tab;
      selectedPost := None;
      if tab != CommunityTab {
        activeWhisperId := None;
      }
    }

    /** `handleOpenWhisper`: the community screen opens on that contact. */
    method OpenWhisper(contactId: string)
      modifies this
      ensures activeWhisperId == Some(contactId) && activeTab == CommunityTab
      ensures selectedPost == None
      ensures viewingUser == old(viewingUser) && posts == old(posts)
    {
      activeWhisperId := Some(contactId);
      activeTab := CommunityTab;
      selectedPost := None;
    }

    /** `renderContent`: a viewed profile takes over the profile tab only;
        otherwise the tab decides. */
    function Render(): (s: Screen)
      reads this
      ensures s.ViewedProfile? <==> viewingUser.Some? && activeTab == ProfileTab
      ensures s.ViewedProfile? ==>
        && s.user == viewingUser.value
        && s.posts == PublicPostsBy(posts, viewingUser.value.id)
        && (s.isOwnProfile <==> viewingUser.value.id == currentUser.id)
      ensures s.OwnProfile? <==> viewingUser.None? && activeTab == ProfileTab
      ensures s.OwnProfile? ==> s.user == currentUser && s.posts == OwnPosts(posts, currentUser.id)
      ensures s.FeedScreen? <==> activeTab == FeedTab
      ensures s.FeedScreen? ==> s.posts == posts
      ensures s.SearchScreen? <==> activeTab == SearchTab
      ensures s.CreateScreen? <==> activeTab == CreateTab
      ensures s.CommunityScreen? <==> activeTab == CommunityTab
      ensures s.CommunityScreen? ==> s.initialWhisperId == activeWhisperId
    {
      if viewingUser.Some? && activeTab == ProfileTab then
        ViewedProfile(viewingUser.value, PublicPostsBy(posts, viewingUser.value.id),
          viewingUser.value.id == currentUser.id)
      else
        match activeTab
        case FeedTab => FeedScreen(posts)
        case SearchTab => SearchScreen
        case CreateTab => CreateScreen
        case CommunityTab => CommunityScreen(activeWhisperId)
        case ProfileTab => OwnProfile(currentUser, OwnPosts(posts, currentUser.id))
    }
  }
}
