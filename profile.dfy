/** The profile page of components/Profile.tsx: the follow toggle and its
    follower count, the "follows you" badge, and the edit form whose
    interests field is the list joined with ", " and is parsed back by
    splitting at commas, trimming and dropping empty pieces. */
module Profile {
  import opened Types
  import opened Strings
  import Seqs

  /** The three fields of the edit form. */
  datatype EditValues = EditValues(bio: string, mbti: string, interests: string)

  /** `x || ''` for an optional string. */
  function OrEmpty(s: Option<string>): (r: string)
    ensures s.None? ==> r == ""
    ensures s.Some? ==> r == s.value
  {
    if s.Some? then s.value else ""
  }

  /** The separator the form puts between interests. */
  const InterestSeparator: string := ", "

  /** The form filled in from a user: bio and MBTI or '', and the
      interests joined with ", ". */
  function DraftOf(u: User): (d: EditValues)
    ensures d.bio == OrEmpty(u.bio) && d.mbti == OrEmpty(u.mbti)
    ensures d.interests == Join(u.interests, InterestSeparator)
  {
    EditValues(OrEmpty(u.bio), OrEmpty(u.mbti), Join(u.interests, InterestSeparator))
  }

  /** `.map(i => i.trim())` */
  function TrimAll(pieces: seq<string>): (r: seq<string>)
    ensures |r| == |pieces| && forall i :: 0 <= i < |r| ==> r[i] == Trim(pieces[i])
  {
    seq(|pieces|, i requires 0 <= i < |pieces| => Trim(pieces[i]))
  }

  /** An interest as the form stores it: trimmed, not empty, no comma. */
  predicate IsCleanInterest(s: string) {
    s != "" && IsTrimmed(s) && ',' !in s
  }

  /** The pieces the parse keeps. */
  predicate NonEmpty(s: string) {
    s != ""
  }

  /** The interests parsed from the form: `split(',')`, `trim()` each
      piece, drop the empty ones. Every interest that comes out is clean. */
  function ParseInterests(text: string): (r: seq<string>)
    ensures forall i :: 0 <= i < |r| ==> IsCleanInterest(r[i])
  {
    TrimmedPiecesHaveNoComma(Split(text, ','));
    KeptPiecesAreClean(TrimAll(Split(text, ',')));
    Seqs.Filter(TrimAll(Split(text, ',')), NonEmpty)
  }

  /** Dropping the empty ones among trimmed, comma-free pieces leaves
      clean interests. */
  lemma KeptPiecesAreClean(pieces: seq<string>)
    requires forall x :: x in pieces ==> IsTrimmed(x) && ',' !in x
    ensures forall i :: 0 <= i < |Seqs.Filter(pieces, NonEmpty)| ==> IsCleanInterest(Seqs.Filter(pieces, NonEmpty)[i])
  {
    var r := Seqs.Filter(pieces, NonEmpty);
    forall i | 0 <= i < |r| ensures IsCleanInterest(r[i]) {
      assert r[i] in r;
      assert NonEmpty(r[i]);
    }
  }

  /** Trimming pieces that hold no comma leaves trimmed pieces that hold
      no comma. */
  lemma TrimmedPiecesHaveNoComma(pieces: seq<string>)
    requires forall i :: 0 <= i < |pieces| ==> ',' !in pieces[i]
    ensures forall x :: x in TrimAll(pieces) ==> IsTrimmed(x) && ',' !in x
  {
    var trimmed := TrimAll(pieces);
    forall x | x in trimmed ensures IsTrimmed(x) && ',' !in x {
      var i :| 0 <= i < |trimmed| && trimmed[i] == x;
      TrimIsInfix(pieces[i]);
    }
  }

  /** What trimming leaves is a piece of the original string. */
  lemma TrimIsInfix(s: string)
    ensures forall c :: c in Trim(s) ==> c in s
  {
    var t := TrimStart(s);
    var r := TrimEnd(t);
    TrimStartIsSuffix(s);
    TrimEndIsPrefix(t);
    forall c | c in r ensures c in s {
      var i :| 0 <= i < |r| && r[i] == c;
      assert t[i] == c;
      assert s[|s| - |t| + i] == c;
    }
  }

  /** Each of `ys` with a space put in front. */
  function Padded(ys: seq<string>): (r: seq<string>)
    ensures |r| == |ys| && forall i :: 0 <= i < |r| ==> r[i] == [' '] + ys[i]
  {
    seq(|ys|, i requires 0 <= i < |ys| => [' '] + ys[i])
  }

  /** Splitting the joined interests at the commas gives the first one,
      then every other one behind the space of the separator. */
  lemma {:induction false} SplitJoinedInterests(xs: seq<string>)
    requires |xs| >= 1 && forall i :: 0 <= i < |xs| ==> ',' !in xs[i]
    ensures Split(Join(xs, InterestSeparator), ',') == [xs[0]] + Padded(xs[1..])
    decreases |xs|
  {
    if |xs| == 1 {
      SplitWithoutSeparator(xs[0], ',');
    } else {
      var rest := Join(xs[1..], InterestSeparator);
      var restPieces := Split(rest, ',');
      assert Split(Join(xs, InterestSeparator), ',') == [xs[0]] + Split([' '] + rest, ',') by {
        assert Join(xs, InterestSeparator) == xs[0] + [','] + ([' '] + rest);
        SplitAtFirstSeparator(xs[0], ',', [' '] + rest);
      }
      assert restPieces[0] == xs[1] && restPieces[1..] == Padded(xs[2..]) by {
        SplitJoinedInterests(xs[1..]);
        assert xs[1..][0] == xs[1] && xs[1..][1..] == xs[2..];
      }
      assert Split([' '] + rest, ',') == [[' '] + restPieces[0]] + restPieces[1..] by {
        SplitLeading(' ', rest, ',');
      }
      assert Padded(xs[1..]) == [[' '] + xs[1]] + Padded(xs[2..]);
    }
  }

  /** Trimming the pieces of the joined interests removes the spaces of
      the separator and nothing else. */
  lemma TrimJoinedPieces(xs: seq<string>)
    requires |xs| >= 1 && forall i :: 0 <= i < |xs| ==> IsCleanInterest(xs[i])
    ensures TrimAll([xs[0]] + Padded(xs[1..])) == xs
  {
    var trimmed := TrimAll([xs[0]] + Padded(xs[1..]));
    forall i | 0 <= i < |xs| ensures trimmed[i] == xs[i] {
      TrimFixesTrimmed(xs[i]);
      if i > 0 {
        TrimDropsLeadingSpace(' ', xs[i]);
      }
    }
  }

  /** Saving an untouched form gives back the interests it was filled
      with, provided each is clean. */
  lemma InterestsRoundTrip(xs: seq<string>)
    requires forall i :: 0 <= i < |xs| ==> IsCleanInterest(xs[i])
    ensures ParseInterests(Join(xs, InterestSeparator)) == xs
  {
    if xs == [] {
      EmptyTextHasNoInterests();
    } else {
      CleanPiecesOfJoinedInterests(xs);
      Seqs.FilterKeepsAll(xs, NonEmpty);
    }
  }

  /** An empty field saves no interest. */
  lemma EmptyTextHasNoInterests()
    ensures ParseInterests("") == []
  {
    assert TrimAll(Split("", ',')) == [""] by {
      assert Split("", ',') == [""];
    }
  }

  /** Splitting and trimming the joined interests gives them back, before
      any piece is dropped. */
  lemma CleanPiecesOfJoinedInterests(xs: seq<string>)
    requires |xs| >= 1 && forall i :: 0 <= i < |xs| ==> IsCleanInterest(xs[i])
    ensures TrimAll(Split(Join(xs, InterestSeparator), ',')) == xs
  {
    SplitJoinedInterests(xs);
    TrimJoinedPieces(xs);
  }

  /** Save, Cancel (which refills the field by joining the stored
      interests) and Save again store the same interests as the first save:
      what a save stores is already in the form the parser produces. */
  lemma ParseInterestsIdempotent(text: string)
    ensures ParseInterests(Join(ParseInterests(text), InterestSeparator)) == ParseInterests(text)
  {
    InterestsRoundTrip(ParseInterests(text));
  }

  /** `followsYou`: there is a signed-in user and the profile's owner
      follows them. */
  predicate FollowsYou(u: User, currentUser: Option<User>) {
    currentUser.Some? && currentUser.value.id in u.following
  }

  /** The "Follows you" badge next to the name: the owner follows the
      viewer, and the page is not the viewer's own. */
  predicate ShowsFollowsYouBadge(u: User, currentUser: Option<User>, isOwnProfile: bool) {
    FollowsYou(u, currentUser) && !isOwnProfile
  }

  /** The badge reads only the owner's `following` list and the viewer's
      id. Two owners with the same `following` list (say, before and after
      a profile edit, or whatever their followers) show the same badge to
      viewers with the same id. The badge never shows on the viewer's own
      page or without a viewer. It is not the Follow button: the
      button's flag and the count it moves are about the viewer
      following the owner, and the badge does not read them. */
  lemma FollowsYouReadsFollowingList(u: User, v: User, currentUser: Option<User>, viewer: Option<User>, isOwnProfile: bool)
    requires u.following == v.following
    requires currentUser.Some? <==> viewer.Some?
    requires currentUser.Some? ==> currentUser.value.id == viewer.value.id
    ensures ShowsFollowsYouBadge(u, currentUser, isOwnProfile) == ShowsFollowsYouBadge(v, viewer, isOwnProfile)
    ensures ShowsFollowsYouBadge(u, currentUser, isOwnProfile) <==>
      !isOwnProfile && currentUser.Some? && exists i :: 0 <= i < |u.following| && u.following[i] == currentUser.value.id
    ensures isOwnProfile || currentUser.None? ==> !ShowsFollowsYouBadge(u, currentUser, isOwnProfile)
  {
    if currentUser.Some? && currentUser.value.id in u.following {
      var i :| 0 <= i < |u.following| && u.following[i] == currentUser.value.id;
    }
  }

  /** The follower count shown: the viewer's own follow is counted on top
      of the stored list. */
  function FollowerCount(u: User, isFollowing: bool): (n: nat)
    ensures n == |u.followers| || n == |u.followers| + 1
    ensures n == |u.followers| + 1 <==> isFollowing
  {
    |u.followers| + (if isFollowing then 1 else 0)
  }

  /** The state of one profile page. */
  class ProfileView {
    const currentUser: Option<User>
    const isOwnProfile: bool
    var user: User
    var isFollowing: bool
    var isEditing: bool
    var editValues: EditValues

    /** The page opens on the given user, not following, not editing, with
        the form filled in from the user. */
    constructor (initialUser: User, currentUser: Option<User>, isOwnProfile: bool)
      ensures user == initialUser && this.currentUser == currentUser && this.isOwnProfile == isOwnProfile
      ensures !isFollowing && !isEditing
      ensures editValues == DraftOf(initialUser)
    {
      user := initialUser;
      this.currentUser := currentUser;
      this.isOwnProfile := isOwnProfile;
      isFollowing := false;
      isEditing := false;
      editValues := DraftOf(initialUser);
    }

    /** Whether the page shows the "Follows you" badge. */
    predicate ShowsBadge()
      reads this
    {
      ShowsFollowsYouBadge(user, currentUser, isOwnProfile)
    }

    /** The follow button (shown on other users' profiles). Following the
        owner does not make the owner follow back: the badge stays. */
    method ToggleFollow()
      modifies this
      ensures isFollowing == !old(isFollowing)
      ensures ShowsBadge() == old(ShowsBadge())
      ensures FollowerCount(user, isFollowing) == if isFollowing then FollowerCount(user, old(isFollowing)) + 1
        else FollowerCount(user, old(isFollowing)) - 1
      ensures user == old(user) && isEditing == old(isEditing) && editValues == old(editValues)
    {
      isFollowing := !isFollowing;
    }

    /** The edit button (own profile only). */
    method StartEditing()
      modifies this
      ensures isEditing && user == old(user) && editValues == old(editValues)
      ensures isFollowing == old(isFollowing)
    {
      isEditing := true;
    }

    /** Typing in the form. */
    method Edit(values: EditValues)
      modifies this
      ensures editValues == values && user == old(user) && isEditing == old(isEditing)
      ensures isFollowing == old(isFollowing)
    {
      editValues := values;
    }

    /** `handleSave`: bio and MBTI are copied from the form, interests are
        parsed from it, every other field of the user stays, and the form
        closes. */
    method Save()
      modifies this
      ensures user == old(user).(bio := Some(old(editValues).bio), mbti := Some(old(editValues).mbti),
        interests := ParseInterests(old(editValues).interests))
      ensures !isEditing && editValues == old(editValues) && isFollowing == old(isFollowing)
      ensures forall i :: 0 <= i < |user.interests| ==> IsCleanInterest(user.interests[i])
      ensures ShowsBadge() == old(ShowsBadge())
    {
      user := user.(bio := Some(editValues.bio), mbti := Some(editValues.mbti),
        interests := ParseInterests(editValues.interests));
      isEditing := false;
    }

    /** `handleCancel`: the form is refilled from the user, who is left as
        is, and closes. */
    method Cancel()
      modifies this
      ensures editValues == DraftOf(user) && user == old(user)
      ensures !isEditing && isFollowing == old(isFollowing)
    {
      editValues := DraftOf(user);
      isEditing := false;
    }
  }

  /** Cancelling and then saving keeps the interests, when they were
      clean to begin with. */
  lemma CancelThenSaveKeepsInterests(u: User)
    requires forall i :: 0 <= i < |u.interests| ==> IsCleanInterest(u.interests[i])
    ensures ParseInterests(DraftOf(u).interests) == u.interests
  {
    InterestsRoundTrip(u.interests);
  }
}
