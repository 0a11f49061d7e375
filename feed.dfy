/** The masonry feed of components/Feed.tsx: posts are dealt, in feed order,
    onto the column whose estimated height is smallest (the lowest index
    among equals), and that column's height grows by the post's estimated
    height. `LayoutOf` is the specification, `DistributeColumns` the
    in-place computation over the two arrays of the source. Heights are
    `real`: the model has no floating-point rounding. */
module FeedLayout {
  import opened Types
  import Seqs

  /** Estimated height added under an image for its caption. */
  const CaptionAllowance: real := 0.4
  /** Flat estimated height of every post that is not an image. */
  const FlatPostHeight: real := 1.2

  /** The breakpoint rule of `updateColumns`: the column count for a
      window width. */
  function ColumnCountFor(width: int): (n: nat)
    ensures 2 <= n <= 4
    ensures n == 4 <==> width >= 1280
    ensures n == 2 <==> width < 768
  {
    if width >= 1280 then 4 else if width >= 768 then 3 else 2
  }

  /** A wider window never gets fewer columns. */
  lemma WiderWindowMoreColumns(narrow: int, wide: int)
    requires narrow <= wide
    ensures ColumnCountFor(narrow) <= ColumnCountFor(wide)
  {
  }

  /** The height estimate of one post: `1 / (aspectRatio || 1) + 0.4` for
      an image, where only a ratio of exactly 0 falls back to 1, and a flat
      1.2 for text, video and mixed posts. */
  function EstimatedHeight(p: Post): (h: real)
    ensures p.kind != Image ==> h == FlatPostHeight
    ensures p.kind == Image && p.aspectRatio == 0.0 ==> h == 1.0 + CaptionAllowance
    ensures p.kind == Image && p.aspectRatio != 0.0 ==> h == 1.0 / p.aspectRatio + CaptionAllowance
    ensures p.aspectRatio >= 0.0 ==> h > CaptionAllowance
  {
    if p.kind == Image then
      1.0 / (if p.aspectRatio == 0.0 then 1.0 else p.aspectRatio) + CaptionAllowance
    else
      FlatPostHeight
  }

  /** A negative ratio is not replaced: an image with a ratio between -2.5
      and 0 has a negative estimate and makes its column shorter. */
  lemma NegativeRatioShrinksColumn(p: Post)
    requires p.kind == Image && -2.5 < p.aspectRatio < 0.0
    ensures EstimatedHeight(p) < 0.0
  {
    var r := p.aspectRatio;
    var q := 1.0 / r;
    assert q * r == 1.0;
    assert (q + 0.4) * r == q * r + 0.4 * r;
    assert (q + 0.4) * r > 0.0;
  }

  /** `colHeights.indexOf(Math.min(...colHeights))`: the first position of
      the smallest height. */
  function ShortestIndex(h: seq<real>): (k: nat)
    requires |h| > 0
    ensures k < |h|
    ensures forall j :: 0 <= j < |h| ==> h[k] <= h[j]
    ensures forall j :: 0 <= j < k ==> h[k] < h[j]
    decreases |h|
  {
    if |h| == 1 then 0
    else
      var k := ShortestIndex(h[..|h| - 1]);
      if h[|h| - 1] < h[k] then |h| - 1 else k
  }

  /** The first minimum is unique: any index with its two properties is it. */
  lemma ShortestIndexIsFirstMinimum(h: seq<real>, k: nat)
    requires k < |h|
    requires forall j :: 0 <= j < |h| ==> h[k] <= h[j]
    requires forall j :: 0 <= j < k ==> h[k] < h[j]
    ensures k == ShortestIndex(h)
  {
  }

  /** The columns built so far and their running estimated heights. */
  datatype Layout = Layout(columns: seq<seq<Post>>, heights: seq<real>)

  /** `columnCount` empty columns of height 0. */
  function EmptyLayout(n: nat): (L: Layout)
    ensures |L.columns| == n && |L.heights| == n
    ensures forall j :: 0 <= j < n ==> L.columns[j] == [] && L.heights[j] == 0.0
  {
    Layout(seq(n, _ => []), seq(n, _ => 0.0))
  }

  /** One step of the `forEach`: the post goes to the end of the shortest
      column, that column's height grows by the post's estimate, and no
      other column changes. */
  function Place(L: Layout, p: Post): (r: Layout)
    requires |L.columns| == |L.heights| > 0
    ensures |r.columns| == |r.heights| == |L.heights|
    ensures var k := ShortestIndex(L.heights);
      && r.columns[k] == L.columns[k] + [p]
      && r.heights[k] == L.heights[k] + EstimatedHeight(p)
      && (forall j :: 0 <= j < |L.heights| && j != k ==> r.columns[j] == L.columns[j] && r.heights[j] == L.heights[j])
  {
    var k := ShortestIndex(L.heights);
    Layout(L.columns[k := L.columns[k] + [p]], L.heights[k := L.heights[k] + EstimatedHeight(p)])
  }

  /** The layout after dealing all of `posts` onto `n` columns. With no
      column at all only the empty feed can be laid out. */
  function LayoutOf(posts: seq<Post>, n: nat): (L: Layout)
    requires n > 0 || posts == []
    ensures |L.columns| == n && |L.heights| == n
    decreases |posts|
  {
    if posts == [] then EmptyLayout(n)
    else Place(LayoutOf(posts[..|posts| - 1], n), posts[|posts| - 1])
  }

  /** The `useMemo` of Feed.tsx: `colArrays` and `colHeights` are arrays
      updated in place while the posts are dealt in order. With
      `columnCount` 0 and at least one post the source fails: `indexOf`
      answers -1 and the push onto `colArrays[-1]` throws; `ok` is false
      then. */
  method DistributeColumns(posts: seq<Post>, columnCount: nat) returns (columns: array<seq<Post>>, ok: bool)
    ensures fresh(columns) && columns.Length == columnCount
    ensures ok <==> columnCount > 0 || posts == []
    ensures ok ==> columns[..] == LayoutOf(posts, columnCount).columns
  {
    columns := new seq<Post>[columnCount](_ => []);
    var heights := new real[columnCount](_ => 0.0);
    if columnCount == 0 && posts != [] {
      ok := false;
      return;
    }
    ok := true;
    var i := 0;
    while i < |posts|
      invariant 0 <= i <= |posts|
      invariant columns[..] == LayoutOf(posts[..i], columnCount).columns
      invariant heights[..] == LayoutOf(posts[..i], columnCount).heights
    {
      LayoutStep(posts, columnCount, i);
      PlaceInto(columns, heights, posts[i]);
      i := i + 1;
    }
    assert posts[..|posts|] == posts;
  }

  /** The body of the `forEach`: push the post onto the shortest column and
      raise that column's height, in place. */
  method PlaceInto(columns: array<seq<Post>>, heights: array<real>, p: Post)
    requires columns.Length == heights.Length > 0
    modifies columns, heights
    ensures var L := Place(Layout(old(columns[..]), old(heights[..])), p);
      columns[..] == L.columns && heights[..] == L.heights
  {
    var k := IndexOfShortest(heights);
    columns[k] := columns[k] + [p];
    heights[k] := heights[k] + EstimatedHeight(p);
  }

  /** Dealing one more post is one more `Place`. */
  lemma LayoutStep(posts: seq<Post>, n: nat, i: nat)
    requires n > 0 && i < |posts|
    ensures LayoutOf(posts[..i + 1], n) == Place(LayoutOf(posts[..i], n), posts[i])
  {
    assert posts[..i + 1][..i] == posts[..i];
  }

  /** `Math.min` over the heights, then `indexOf` of that minimum. */
  method IndexOfShortest(heights: array<real>) returns (k: nat)
    requires heights.Length > 0
    ensures k == ShortestIndex(heights[..])
  {
    var m := heights[0];
    var j := 1;
    while j < heights.Length
      invariant 1 <= j <= heights.Length
      invariant exists t :: 0 <= t < j && heights[t] == m
      invariant forall t :: 0 <= t < j ==> m <= heights[t]
    {
      if heights[j] < m {
        m := heights[j];
      }
      j := j + 1;
    }
    k := 0;
    while heights[k] != m
      invariant 0 <= k < heights.Length
      invariant forall t :: 0 <= t < k ==> heights[t] != m
      invariant exists t :: k <= t < heights.Length && heights[t] == m
      decreases heights.Length - k
    {
      k := k + 1;
    }
    ShortestIndexIsFirstMinimum(heights[..], k);
  }

  /** With one column the feed keeps its order. */
  lemma {:induction false} SingleColumnKeepsFeedOrder(posts: seq<Post>)
    ensures LayoutOf(posts, 1).columns == [posts]
    decreases |posts|
  {
    if posts != [] {
      var front := posts[..|posts| - 1];
      SingleColumnKeepsFeedOrder(front);
      assert front + [posts[|posts| - 1]] == posts;
    }
  }

  /** The column each post was dealt onto, in feed order. */
  function Choices(posts: seq<Post>, n: nat): (cs: seq<nat>)
    requires n > 0
    ensures |cs| == |posts|
    ensures forall i :: 0 <= i < |cs| ==> cs[i] < n
    decreases |posts|
  {
    if posts == [] then []
    else
      var front := posts[..|posts| - 1];
      Choices(front, n) + [ShortestIndex(LayoutOf(front, n).heights)]
  }

  /** Post `i` goes to a column that was shortest when it was placed, and
      every column before that one was strictly taller. */
  lemma {:induction false} ChoiceIsShortestColumn(posts: seq<Post>, n: nat, i: nat)
    requires n > 0 && i < |posts|
    ensures Choices(posts, n)[i] == ShortestIndex(LayoutOf(posts[..i], n).heights)
    ensures var h := LayoutOf(posts[..i], n).heights;
      var c := Choices(posts, n)[i];
      && (forall j :: 0 <= j < n ==> h[c] <= h[j])
      && (forall j :: 0 <= j < c ==> h[c] < h[j])
    decreases |posts|
  {
    var front := posts[..|posts| - 1];
    if i < |front| {
      ChoiceIsShortestColumn(front, n, i);
      assert front[..i] == posts[..i];
    }
  }

  /** The positions of `cs` holding `j`, in increasing order. */
  function Positions(cs: seq<nat>, j: nat): (pos: seq<nat>)
    ensures forall t :: 0 <= t < |pos| ==> pos[t] < |cs| && cs[pos[t]] == j
    ensures forall t, u :: 0 <= t < u < |pos| ==> pos[t] < pos[u]
    ensures forall i :: 0 <= i < |cs| && cs[i] == j ==> i in pos
    decreases |cs|
  {
    if cs == [] then []
    else
      var front := Positions(cs[..|cs| - 1], j);
      front + (if cs[|cs| - 1] == j then [|cs| - 1] else [])
  }

  /** Column `j` holds exactly the posts dealt onto `j`, in feed order: it
      is spelled by the increasing positions whose choice is `j`. Together
      with `Positions`, every post sits in one column, once, and within a
      column earlier posts come first. */
  lemma {:induction false} ColumnFollowsFeedOrder(posts: seq<Post>, n: nat, j: nat)
    requires j < n
    ensures Seqs.Embeds(Positions(Choices(posts, n), j), LayoutOf(posts, n).columns[j], posts)
    decreases |posts|
  {
    if posts != [] {
      var front := posts[..|posts| - 1];
      ColumnFollowsFeedOrder(front, n, j);
      var k := ShortestIndex(LayoutOf(front, n).heights);
      PositionsStep(posts, n, j);
      ColumnStep(posts, n, j);
      var before := Positions(Choices(front, n), j);
      var col := LayoutOf(front, n).columns[j];
      var p := posts[|posts| - 1];
      assert front + [p] == posts;
      Seqs.EmbedsStep(before, col, front, p, k == j);
    }
  }

  /** Dealing one more post appends it to the column it went to. */
  lemma ColumnStep(posts: seq<Post>, n: nat, j: nat)
    requires j < n && posts != []
    ensures var front := posts[..|posts| - 1];
      var k := ShortestIndex(LayoutOf(front, n).heights);
      LayoutOf(posts, n).columns[j]
        == LayoutOf(front, n).columns[j] + (if k == j then [posts[|posts| - 1]] else [])
  {
  }

  /** Dealing one more post adds its position to the column it went to. */
  lemma PositionsStep(posts: seq<Post>, n: nat, j: nat)
    requires j < n && posts != []
    ensures var front := posts[..|posts| - 1];
      var k := ShortestIndex(LayoutOf(front, n).heights);
      Positions(Choices(posts, n), j)
        == Positions(Choices(front, n), j) + (if k == j then [|front|] else [])
  {
    var cs := Choices(posts, n);
    assert cs[..|cs| - 1] == Choices(posts[..|posts| - 1], n);
  }

  /** The same for every column at once. */
  lemma ColumnsFollowFeedOrder(posts: seq<Post>, n: nat)
    requires n > 0
    ensures forall j :: 0 <= j < n ==>
      Seqs.Embeds(Positions(Choices(posts, n), j), LayoutOf(posts, n).columns[j], posts)
  {
    forall j | 0 <= j < n
      ensures Seqs.Embeds(Positions(Choices(posts, n), j), LayoutOf(posts, n).columns[j], posts)
    {
      ColumnFollowsFeedOrder(posts, n, j);
    }
  }

  /** All columns, one after the other. */
  function Flatten(cols: seq<seq<Post>>): seq<Post>
    decreases |cols|
  {
    if cols == [] then [] else cols[0] + Flatten(cols[1..])
  }

  lemma {:induction false} FlattenAppendAt(cols: seq<seq<Post>>, k: nat, p: Post)
    requires k < |cols|
    ensures multiset(Flatten(cols[k := cols[k] + [p]])) == multiset(Flatten(cols)) + multiset{p}
    decreases |cols|
  {
    var upd := cols[k := cols[k] + [p]];
    if k == 0 {
      assert upd[1..] == cols[1..];
    } else {
      assert upd[1..] == cols[1..][k - 1 := cols[k] + [p]];
      FlattenAppendAt(cols[1..], k - 1, p);
    }
  }

  lemma {:induction false} FlattenEmptyColumns(n: nat)
    ensures Flatten(EmptyLayout(n).columns) == []
    decreases n
  {
    if n > 0 {
      assert EmptyLayout(n).columns[1..] == EmptyLayout(n - 1).columns;
      FlattenEmptyColumns(n - 1);
    }
  }

  /** No post is lost or duplicated: the columns together hold exactly the
      posts of the feed, so their lengths add up to the number of posts. */
  lemma {:induction false} EveryPostPlacedOnce(posts: seq<Post>, n: nat)
    requires n > 0
    ensures multiset(Flatten(LayoutOf(posts, n).columns)) == multiset(posts)
    ensures |Flatten(LayoutOf(posts, n).columns)| == |posts|
    decreases |posts|
  {
    if posts == [] {
      FlattenEmptyColumns(n);
    } else {
      var front := posts[..|posts| - 1];
      var p := posts[|posts| - 1];
      EveryPostPlacedOnce(front, n);
      var L := LayoutOf(front, n);
      FlattenAppendAt(L.columns, ShortestIndex(L.heights), p);
      assert front + [p] == posts;
    }
    assert |multiset(Flatten(LayoutOf(posts, n).columns))| == |Flatten(LayoutOf(posts, n).columns)|;
  }

  /** The summed estimates of a column's posts. */
  function ColumnHeight(col: seq<Post>): real
    decreases |col|
  {
    if col == [] then 0.0 else ColumnHeight(col[..|col| - 1]) + EstimatedHeight(col[|col| - 1])
  }

  /** The running height of every column is the sum of the estimates of
      the posts in it. */
  lemma {:induction false} HeightsAreColumnEstimates(posts: seq<Post>, n: nat)
    requires n > 0
    ensures forall j :: 0 <= j < n ==>
      LayoutOf(posts, n).heights[j] == ColumnHeight(LayoutOf(posts, n).columns[j])
    decreases |posts|
  {
    if posts != [] {
      var front := posts[..|posts| - 1];
      HeightsAreColumnEstimates(front, n);
      var L := LayoutOf(front, n);
      var k := ShortestIndex(L.heights);
      var p := posts[|posts| - 1];
      var after := LayoutOf(posts, n);
      assert after == Place(L, p);
      forall j | 0 <= j < n ensures after.heights[j] == ColumnHeight(after.columns[j]) {
        assert L.heights[j] == ColumnHeight(L.columns[j]);
        if j == k {
          var col := L.columns[k] + [p];
          assert col[..|col| - 1] == L.columns[k];
          assert ColumnHeight(col) == ColumnHeight(L.columns[k]) + EstimatedHeight(p);
        }
      }
    }
  }

  /** The largest single estimate among `posts`, or 0 when that is larger
      (no post, or only negative estimates). */
  function LargestContribution(posts: seq<Post>): (m: real)
    ensures m >= 0.0
    ensures forall i :: 0 <= i < |posts| ==> EstimatedHeight(posts[i]) <= m
    ensures m == 0.0 || exists i :: 0 <= i < |posts| && EstimatedHeight(posts[i]) == m
    decreases |posts|
  {
    if posts == [] then 0.0
    else
      var front := LargestContribution(posts[..|posts| - 1]);
      var last := EstimatedHeight(posts[|posts| - 1]);
      assert forall i :: 0 <= i < |posts| - 1 ==> posts[..|posts| - 1][i] == posts[i];
      if last > front then last else front
  }

  /** The greedy balance bound: when no estimate is negative, no column is
      taller than any other by more than the largest single estimate. */
  lemma {:induction false} ColumnsStayBalanced(posts: seq<Post>, n: nat)
    requires n > 0
    requires forall i :: 0 <= i < |posts| ==> EstimatedHeight(posts[i]) >= 0.0
    ensures var h := LayoutOf(posts, n).heights;
      forall a, b :: 0 <= a < n && 0 <= b < n ==> h[a] - h[b] <= LargestContribution(posts)
    decreases |posts|
  {
    if posts != [] {
      var front := posts[..|posts| - 1];
      var p := posts[|posts| - 1];
      ColumnsStayBalanced(front, n);
      var h0 := LayoutOf(front, n).heights;
      var h := LayoutOf(posts, n).heights;
      assert LayoutOf(posts, n) == Place(LayoutOf(front, n), p);
      var k := ShortestIndex(h0);
      var c := EstimatedHeight(p);
      var m := LargestContribution(posts);
      assert LargestContribution(front) <= m && c <= m;
      forall a, b | 0 <= a < n && 0 <= b < n ensures h[a] - h[b] <= m {
        if a == k && b != k {
          assert h[a] - h[b] == h0[k] + c - h0[b];
        } else if b == k && a != k {
          assert h[a] - h[b] == h0[a] - h0[k] - c;
          assert h0[a] - h0[k] <= LargestContribution(front);
        } else if a != k && b != k {
          assert h[a] - h[b] == h0[a] - h0[b];
          assert h0[a] - h0[b] <= LargestContribution(front);
        }
      }
    }
  }

  /** The bound holds for every feed whose aspect ratios are non-negative,
      since such posts have positive estimates. */
  lemma BalancedForNonNegativeRatios(posts: seq<Post>, n: nat)
    requires n > 0
    requires forall i :: 0 <= i < |posts| ==> posts[i].aspectRatio >= 0.0
    ensures var h := LayoutOf(posts, n).heights;
      forall a, b :: 0 <= a < n && 0 <= b < n ==> h[a] - h[b] <= LargestContribution(posts)
  {
    ColumnsStayBalanced(posts, n);
  }

  /** A text post with the given id (a helper for the scenario below). */
  function TextPost(id: string): Post {
    Post(id, Text, "", None, "u", "U", "", 0, 0, 0, false, [], 1.0)
  }

  /** An image post with aspect ratio 2 (estimate 0.5 + 0.4 = 0.9). */
  function WideImage(id: string): Post {
    Post(id, Image, "", Some("m"), "u", "U", "", 0, 0, 0, false, [], 2.0)
  }

  lemma ScenarioFirstPost()
    ensures LayoutOf([TextPost("a")], 2) == Layout([[TextPost("a")], []], [1.2, 0.0])
  {
    var a := TextPost("a");
    assert [a][..0] == [];
    var l0 := LayoutOf([], 2);
    assert l0.heights == [0.0, 0.0] && l0.columns == [[], []];
    assert ShortestIndex(l0.heights) == 0;
    assert [] + [a] == [a];
  }

  lemma ScenarioSecondPost()
    ensures LayoutOf([TextPost("a"), WideImage("b")], 2)
      == Layout([[TextPost("a")], [WideImage("b")]], [1.2, 0.9])
  {
    var a, b := TextPost("a"), WideImage("b");
    assert [a, b][..1] == [a];
    ScenarioFirstPost();
    assert ShortestIndex([1.2, 0.0]) == 1;
    assert EstimatedHeight(b) == 0.9;
    assert [] + [b] == [b];
  }

  /** Two columns; a text post, a landscape image with ratio 2 and another
      text post: the first goes left (height 1.2), the image right (0.9),
      and the last text post right again since 0.9 < 1.2. */
  lemma TwoColumnScenario()
    ensures LayoutOf([TextPost("a"), WideImage("b"), TextPost("c")], 2).columns
      == [[TextPost("a")], [WideImage("b"), TextPost("c")]]
  {
    var a, b, c := TextPost("a"), WideImage("b"), TextPost("c");
    assert [a, b, c][..2] == [a, b];
    ScenarioSecondPost();
    assert ShortestIndex([1.2, 0.9]) == 1;
    assert [b] + [c] == [b, c];
  }
}
