/** The whispers (one-to-one threads) and circles (group boards) of
    components/Community.tsx. The component's state is a class; the two
    record updates it performs, appending to one contact's thread and
    putting a post on top of one group's board, are the functions
    `WithMessage` and `WithCirclePost`, and the handlers are proved to
    perform exactly those. */
module Community {
  import opened Types
  import opened Strings

  datatype MessageKind = TextMessage | ImageMessage | VideoMessage | ThoughtMessage | AudioMessage

  datatype LocalMessage = LocalMessage(
    id: string,
    senderId: string,
    kind: MessageKind,
    content: string,
    mediaUrl: Option<string>,
    timestamp: int)

  /** Which list the screen shows. */
  datatype Pane = Whispers | Circles

  /** JavaScript truthiness of a `string | null`: the empty string counts
      as no selection. */
  predicate IsSet(s: Option<string>) {
    s.Some? && s.value != ""
  }

  /** `prev[key] || []`: a contact without a thread, or a group without a
      board, has an empty one. */
  function ListAt<T>(lists: map<string, seq<T>>, key: string): (l: seq<T>)
    ensures key !in lists ==> l == []
    ensures key in lists ==> l == lists[key]
  {
    if key in lists then lists[key] else []
  }

  /** The update of `handleSendMessage`: the message goes at the end of the
      contact's thread, which is created if missing; no other thread
      changes. */
  function WithMessage(messages: map<string, seq<LocalMessage>>, contact: string, m: LocalMessage): (r: map<string, seq<LocalMessage>>)
    ensures r.Keys == messages.Keys + {contact}
    ensures |r[contact]| == |ListAt(messages, contact)| + 1
    ensures r[contact][..|r[contact]| - 1] == ListAt(messages, contact)
    ensures r[contact][|r[contact]| - 1] == m
    ensures forall c :: c in messages && c != contact ==> r[c] == messages[c]
  {
    messages[contact := ListAt(messages, contact) + [m]]
  }

  /** Two messages to one contact stay in the order they were sent. */
  lemma ThreadKeepsSendingOrder(messages: map<string, seq<LocalMessage>>, contact: string, m1: LocalMessage, m2: LocalMessage)
    ensures WithMessage(WithMessage(messages, contact, m1), contact, m2)[contact]
      == ListAt(messages, contact) + [m1, m2]
  {
    var once := WithMessage(messages, contact, m1);
    assert ListAt(once, contact) == ListAt(messages, contact) + [m1];
  }

  /** Messages to two different contacts do not interfere: sending them in
      either order gives the same threads. */
  lemma SendsToDifferentContactsCommute(messages: map<string, seq<LocalMessage>>, c1: string, c2: string, m1: LocalMessage, m2: LocalMessage)
    requires c1 != c2
    ensures WithMessage(WithMessage(messages, c1, m1), c2, m2)
      == WithMessage(WithMessage(messages, c2, m2), c1, m1)
  {
    var a := WithMessage(WithMessage(messages, c1, m1), c2, m2);
    var b := WithMessage(WithMessage(messages, c2, m2), c1, m1);
    assert ListAt(WithMessage(messages, c1, m1), c2) == ListAt(messages, c2);
    assert ListAt(WithMessage(messages, c2, m2), c1) == ListAt(messages, c1);
    assert forall c :: c in a ==> c in b && a[c] == b[c];
  }

  /** The update of `handleSendCirclePost`: the post goes on top of the
      group's board; no other board changes. */
  function WithCirclePost(groupPosts: map<string, seq<GroupPost>>, groupId: string, p: GroupPost): (r: map<string, seq<GroupPost>>)
    ensures r.Keys == groupPosts.Keys + {groupId}
    ensures |r[groupId]| == |ListAt(groupPosts, groupId)| + 1
    ensures r[groupId][0] == p && r[groupId][1..] == ListAt(groupPosts, groupId)
    ensures forall g :: g in groupPosts && g != groupId ==> r[g] == groupPosts[g]
  {
    groupPosts[groupId := [p] + ListAt(groupPosts, groupId)]
  }

  /** The newest circle post is always on top. */
  lemma BoardShowsNewestFirst(groupPosts: map<string, seq<GroupPost>>, groupId: string, p1: GroupPost, p2: GroupPost)
    ensures WithCirclePost(WithCirclePost(groupPosts, groupId, p1), groupId, p2)[groupId]
      == [p2, p1] + ListAt(groupPosts, groupId)
  {
    var once := WithCirclePost(groupPosts, groupId, p1);
    assert ListAt(once, groupId) == [p1] + ListAt(groupPosts, groupId);
  }

  /** `groups[i]` is the last group in the list with id `id`. */
  predicate LastWithId(groups: seq<Group>, i: int, id: string) {
    0 <= i < |groups| && groups[i].id == id && forall j :: i < j < |groups| ==> groups[j].id != id
  }

  /** The `forEach` that seeds the boards: one entry per group id, and
      when two groups share an id the later one's posts win. */
  method BuildGroupPosts(groups: seq<Group>) returns (boards: map<string, seq<GroupPost>>)
    ensures forall i :: 0 <= i < |groups| ==> groups[i].id in boards
    ensures forall id :: id in boards ==> exists i :: LastWithId(groups, i, id) && boards[id] == groups[i].posts
  {
    boards := map[];
    var n := 0;
    while n < |groups|
      invariant 0 <= n <= |groups|
      invariant forall i :: 0 <= i < n ==> groups[i].id in boards
      invariant forall id :: id in boards ==> exists i :: LastWithId(groups[..n], i, id) && boards[id] == groups[i].posts
    {
      SeedStep(groups, n, boards);
      boards := boards[groups[n].id := groups[n].posts];
      n := n + 1;
    }
    assert groups[..n] == groups;
  }

  /** Seeding one more group keeps every board the one of the last group
      seen with its id. */
  lemma SeedStep(groups: seq<Group>, n: nat, boards: map<string, seq<GroupPost>>)
    requires n < |groups|
    requires forall id :: id in boards ==> exists i :: LastWithId(groups[..n], i, id) && boards[id] == groups[i].posts
    ensures var after := boards[groups[n].id := groups[n].posts];
      forall id :: id in after ==> exists i :: LastWithId(groups[..n + 1], i, id) && after[id] == groups[i].posts
  {
    var g := groups[n];
    var after := boards[g.id := g.posts];
    forall id | id in after
      ensures exists i :: LastWithId(groups[..n + 1], i, id) && after[id] == groups[i].posts
    {
      if id == g.id {
        assert LastWithId(groups[..n + 1], n, id);
      } else {
        var i :| LastWithId(groups[..n], i, id) && boards[id] == groups[i].posts;
        assert LastWithId(groups[..n + 1], i, id);
      }
    }
  }

  /** `padStart(2, '0')` */
  function PadTwo(s: string): (r: string)
    ensures |s| >= 2 ==> r == s
    ensures |s| < 2 ==> |r| == 2 && r[2 - |s|..] == s && forall i :: 0 <= i < 2 - |s| ==> r[i] == '0'
  {
    if |s| >= 2 then s else if |s| == 1 then ['0'] + s else "00"
  }

  /** The seconds part of the label: `secs.toString().padStart(2, '0')`,
      always two digits. */
  function SecondsField(secs: nat): (f: string)
    requires secs < 60
    ensures |f| == 2 && AllDigits(f) && ParseDecimal(f) == secs
  {
    var d := Decimal(secs);
    ParseDecimalInvertsDecimal(secs);
    if secs < 10 then
      assert PadTwo(d) == ['0'] + d;
      ParseDecimalLeadingZero(d);
      PadTwo(d)
    else
      PadTwo(d)
  }

  /** `formatTime`: whole minutes, a colon, and the remaining seconds as
      two digits. */
  function FormatTime(seconds: nat): (t: string)
    ensures |t| >= 4 && t[|t| - 3] == ':'
    ensures AllDigits(t[..|t| - 3]) && AllDigits(t[|t| - 2..])
    ensures ParseDecimal(t[|t| - 2..]) < 60
  {
    Label(Decimal(seconds / 60), SecondsField(seconds % 60))
  }

  /** Minutes, a colon, and the two-digit seconds field. */
  function Label(mins: string, secs: string): (t: string)
    requires |secs| == 2
    ensures |t| == |mins| + 3 && t[..|t| - 3] == mins && t[|t| - 3] == ':' && t[|t| - 2..] == secs
  {
    mins + [':'] + secs
  }

  /** A leading zero does not change the value of a digit string. */
  lemma {:induction false} ParseDecimalLeadingZero(s: string)
    requires AllDigits(s)
    ensures AllDigits(['0'] + s) && ParseDecimal(['0'] + s) == ParseDecimal(s)
    decreases |s|
  {
    if s != [] {
      var z := ['0'] + s;
      assert z[..|z| - 1] == ['0'] + s[..|s| - 1];
      ParseDecimalLeadingZero(s[..|s| - 1]);
    }
  }

  /** Reading an `m:ss` label back: digits, a colon, two digits, and the
      number of seconds they stand for. */
  function ReadClock(t: string): Option<nat> {
    if |t| >= 4 && t[|t| - 3] == ':' && AllDigits(t[..|t| - 3]) && AllDigits(t[|t| - 2..])
    then Some(ParseDecimal(t[..|t| - 3]) * 60 + ParseDecimal(t[|t| - 2..]))
    else None
  }

  /** The label says exactly how long the recording ran. */
  lemma FormatTimeRoundTrip(seconds: nat)
    ensures ReadClock(FormatTime(seconds)) == Some(seconds)
  {
    var m, r := seconds / 60, seconds % 60;
    ReadClockOfFields(m, r);
    assert FormatTime(seconds) == Label(Decimal(m), SecondsField(r));
    var v := ReadClock(FormatTime(seconds));
    assert v.Some? && v.value == m * 60 + r;
    assert v == Some(v.value);
  }

  /** The label for `m` minutes and `r` seconds reads back as `m * 60 + r`. */
  lemma ReadClockOfFields(m: nat, r: nat)
    requires r < 60
    ensures ReadClock(Label(Decimal(m), SecondsField(r))) == Some(m * 60 + r)
  {
    ParseDecimalInvertsDecimal(m);
    ReadClockOfLabel(Decimal(m), SecondsField(r), m, r);
  }

  /** A label of digits, a colon and two digits reads back as the minutes
      and seconds its two fields spell. */
  lemma ReadClockOfLabel(mins: string, secs: string, m: nat, r: nat)
    requires |mins| >= 1 && AllDigits(mins) && AllDigits(secs) && |secs| == 2
    requires ParseDecimal(mins) == m && ParseDecimal(secs) == r
    ensures ReadClock(Label(mins, secs)) == Some(m * 60 + r)
  {
    var t := Label(mins, secs);
    assert t[..|t| - 3] == mins && t[|t| - 2..] == secs;
  }

  /** The state of the community screen. The audio recorder, the file
      pickers and the focus and scroll effects are not part of this
      model. */
  class CommunityScreen {
    const currentUser: User
    var pane: Pane
    var selectedContact: Option<string>
    var selectedGroup: Option<Group>
    var messageText: string
    var isMediaMenuOpen: bool
    var isEmojiMenuOpen: bool
    var messages: map<string, seq<LocalMessage>>
    var circlePostText: string
    var isCirclePostAnonymous: bool
    var groupPosts: map<string, seq<GroupPost>>

    /** The initial state together with the mount effect: the threads
        come in as `threads`, the boards are seeded from the groups, and a
        non-empty whisper id opens that contact. */
    constructor (groups: seq<Group>, currentUser: User, initialWhisperId: Option<string>, threads: map<string, seq<LocalMessage>>)
      ensures this.currentUser == currentUser && pane == Whispers
      ensures selectedContact == (if IsSet(initialWhisperId) then initialWhisperId else None)
      ensures selectedGroup == None && messageText == "" && circlePostText == ""
      ensures !isMediaMenuOpen && !isEmojiMenuOpen && !isCirclePostAnonymous
      ensures messages == threads
      ensures forall i :: 0 <= i < |groups| ==> groups[i].id in groupPosts
      ensures forall id :: id in groupPosts ==> exists i :: LastWithId(groups, i, id) && groupPosts[id] == groups[i].posts
    {
      var boards := BuildGroupPosts(groups);
      this.currentUser := currentUser;
      pane := Whispers;
      selectedContact := if IsSet(initialWhisperId) then initialWhisperId else None;
      selectedGroup := None;
      messageText := "";
      isMediaMenuOpen := false;
      isEmojiMenuOpen := false;
      messages := threads;
      circlePostText := "";
      isCirclePostAnonymous := false;
      groupPosts := boards;
    }

    /** The effect on a new `initialWhisperId`: a non-empty one opens that
        contact's thread on the whispers pane and leaves any group. */
    method ReceiveWhisperId(id: Option<string>)
      modifies this
      ensures IsSet(id) ==> selectedContact == id && pane == Whispers && selectedGroup == None
      ensures !IsSet(id) ==>
        selectedContact == old(selectedContact) && pane == old(pane) && selectedGroup == old(selectedGroup)
      ensures messages == old(messages) && groupPosts == old(groupPosts)
      ensures messageText == old(messageText) && circlePostText == old(circlePostText)
      ensures isMediaMenuOpen == old(isMediaMenuOpen) && isEmojiMenuOpen == old(isEmojiMenuOpen)
      ensures isCirclePostAnonymous == old(isCirclePostAnonymous)
    {
      if IsSet(id) {
        selectedContact := id;
        pane := Whispers;
        selectedGroup := None;
      }
    }

    /** `handleContactSelect`: opens (or, with `None`, closes) a thread and
        reports the choice to the parent. */
    method SelectContact(id: Option<string>) returns (reported: Option<string>)
      modifies this
      ensures selectedContact == id && reported == id
      ensures messages == old(messages) && messageText == old(messageText)
      ensures selectedGroup == old(selectedGroup) && groupPosts == old(groupPosts)
      ensures pane == old(pane) && circlePostText == old(circlePostText)
      ensures isMediaMenuOpen == old(isMediaMenuOpen) && isEmojiMenuOpen == old(isEmojiMenuOpen)
      ensures isCirclePostAnonymous == old(isCirclePostAnonymous)
    {
      selectedContact := id;
      reported := id;
    }

    /** Opening a circle, or closing it with `None`. */
    method SelectGroup(g: Option<Group>)
      modifies this
      ensures selectedGroup == g
      ensures groupPosts == old(groupPosts) && circlePostText == old(circlePostText)
      ensures selectedContact == old(selectedContact) && messages == old(messages)
      ensures pane == old(pane) && messageText == old(messageText)
      ensures isMediaMenuOpen == old(isMediaMenuOpen) && isEmojiMenuOpen == old(isEmojiMenuOpen)
      ensures isCirclePostAnonymous == old(isCirclePostAnonymous)
    {
      selectedGroup := g;
    }

    /** `handleSendMessage(kind, content, mediaUrl)`. Nothing happens
        without an open thread, nor for a text message that is blank;
        images, videos, thoughts and voice notes go out whatever their
        caption. The message id and the clock are parameters. */
    method SendMessage(kind: MessageKind, content: string, mediaUrl: Option<string>, id: string, now: int)
      modifies this
      ensures !IsSet(old(selectedContact)) || (kind == TextMessage && IsBlank(content)) ==>
        && messages == old(messages) && messageText == old(messageText)
        && isMediaMenuOpen == old(isMediaMenuOpen) && isEmojiMenuOpen == old(isEmojiMenuOpen)
      ensures IsSet(old(selectedContact)) && !(kind == TextMessage && IsBlank(content)) ==>
        && messages == WithMessage(old(messages), old(selectedContact).value,
             LocalMessage(id, currentUser.id, kind, content, mediaUrl, now))
        && messageText == "" && !isMediaMenuOpen && !isEmojiMenuOpen
      ensures selectedContact == old(selectedContact) && selectedGroup == old(selectedGroup)
      ensures groupPosts == old(groupPosts) && circlePostText == old(circlePostText)
      ensures isCirclePostAnonymous == old(isCirclePostAnonymous) && pane == old(pane)
    {
      if IsSet(selectedContact) && !(kind == TextMessage && IsBlank(content)) {
        var m := LocalMessage(id, currentUser.id, kind, content, mediaUrl, now);
        messages := WithMessage(messages, selectedContact.value, m);
        messageText := "";
        isMediaMenuOpen := false;
        isEmojiMenuOpen := false;
      }
    }

    /** Submitting the whisper form: `handleSendMessage()` with its
        defaults, a text message carrying the draft. */
    method SubmitDraft(id: string, now: int)
      modifies this
      ensures IsSet(old(selectedContact)) && !IsBlank(old(messageText)) ==>
        && messages == WithMessage(old(messages), old(selectedContact).value,
             LocalMessage(id, currentUser.id, TextMessage, old(messageText), None, now))
        && messageText == "" && !isMediaMenuOpen && !isEmojiMenuOpen
      ensures !IsSet(old(selectedContact)) || IsBlank(old(messageText)) ==>
        && messages == old(messages) && messageText == old(messageText)
        && isMediaMenuOpen == old(isMediaMenuOpen) && isEmojiMenuOpen == old(isEmojiMenuOpen)
      ensures selectedContact == old(selectedContact) && groupPosts == old(groupPosts)
      ensures pane == old(pane) && selectedGroup == old(selectedGroup)
      ensures circlePostText == old(circlePostText) && isCirclePostAnonymous == old(isCirclePostAnonymous)
    {
      SendMessage(TextMessage, messageText, None, id, now);
    }

    /** `addEmoji`: the emoji goes at the end of the draft. */
    method AddEmoji(emoji: string)
      modifies this
      ensures messageText == old(messageText) + emoji
      ensures messages == old(messages) && selectedContact == old(selectedContact)
      ensures isEmojiMenuOpen == old(isEmojiMenuOpen) && isMediaMenuOpen == old(isMediaMenuOpen)
      ensures pane == old(pane) && selectedGroup == old(selectedGroup) && groupPosts == old(groupPosts)
      ensures circlePostText == old(circlePostText) && isCirclePostAnonymous == old(isCirclePostAnonymous)
    {
      messageText := messageText + emoji;
    }

    /** The anonymity switch of the circle composer. */
    method ToggleCircleAnonymous()
      modifies this
      ensures isCirclePostAnonymous == !old(isCirclePostAnonymous)
      ensures circlePostText == old(circlePostText) && groupPosts == old(groupPosts)
      ensures pane == old(pane) && selectedContact == old(selectedContact) && selectedGroup == old(selectedGroup)
      ensures messageText == old(messageText) && messages == old(messages)
      ensures isMediaMenuOpen == old(isMediaMenuOpen) && isEmojiMenuOpen == old(isEmojiMenuOpen)
    {
      isCirclePostAnonymous := !isCirclePostAnonymous;
    }

    /** `handleSendCirclePost`: without an open circle or with a blank
        draft nothing happens; otherwise the post goes on top of the
        circle's board, signed by the user or by "Anonymous Soul", and
        the composer is reset. */
    method SendCirclePost(id: string, now: int)
      modifies this
      ensures old(selectedGroup).None? || IsBlank(old(circlePostText)) ==>
        && groupPosts == old(groupPosts) && circlePostText == old(circlePostText)
        && isCirclePostAnonymous == old(isCirclePostAnonymous)
      ensures old(selectedGroup).Some? && !IsBlank(old(circlePostText)) ==>
        && groupPosts == WithCirclePost(old(groupPosts), old(selectedGroup).value.id,
             GroupPost(id,
               if old(isCirclePostAnonymous) then "anon" else currentUser.id,
               if old(isCirclePostAnonymous) then "Anonymous Soul" else currentUser.name,
               old(circlePostText), now, 0))
        && circlePostText == "" && !isCirclePostAnonymous
      ensures selectedGroup == old(selectedGroup) && messages == old(messages)
      ensures selectedContact == old(selectedContact) && messageText == old(messageText)
      ensures pane == old(pane)
      ensures isMediaMenuOpen == old(isMediaMenuOpen) && isEmojiMenuOpen == old(isEmojiMenuOpen)
    {
      if selectedGroup.None? || IsBlank(circlePostText) {
        return;
      }
      var post := GroupPost(id,
        if isCirclePostAnonymous then "anon" else currentUser.id,
        if isCirclePostAnonymous then "Anonymous Soul" else currentUser.name,
        circlePostText, now, 0);
      groupPosts := WithCirclePost(groupPosts, selectedGroup.value.id, post);
      circlePostText := "";
      isCirclePostAnonymous := false;
    }
  }
}
