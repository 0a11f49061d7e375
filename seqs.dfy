/** `Array.prototype.filter` and the order it keeps. */
module Seqs {

  /** `s.filter(keep)`: the elements of `s` that `keep` accepts, in order,
      each as often as it occurs in `s`. */
  function Filter<T(==,!new)>(s: seq<T>, keep: T -> bool): (r: seq<T>)
    ensures |r| <= |s|
    ensures forall x :: x in r <==> x in s && keep(x)
    ensures forall x {:trigger multiset(r)[x]} :: multiset(r)[x] == if keep(x) then multiset(s)[x] else 0
    decreases |s|
  {
    if s == [] then []
    else
      assert s == [s[0]] + s[1..];
      (if keep(s[0]) then [s[0]] else []) + Filter(s[1..], keep)
  }

  /** The strictly increasing positions `idx` of `b` spell out `a`. */
  ghost predicate Embeds<T>(idx: seq<nat>, a: seq<T>, b: seq<T>) {
    && |idx| == |a|
    && (forall t :: 0 <= t < |idx| ==> idx[t] < |b| && b[idx[t]] == a[t])
    && (forall t, u :: 0 <= t < u < |idx| ==> idx[t] < idx[u])
  }

  /** Appending `x` to the longer sequence keeps an embedding; when `x`
      is also appended to the shorter one, its new position joins. */
  lemma EmbedsStep<T>(idx: seq<nat>, a: seq<T>, b: seq<T>, x: T, taken: bool)
    requires Embeds(idx, a, b)
    ensures Embeds(idx + (if taken then [|b|] else []), a + (if taken then [x] else []), b + [x])
  {
    var idx' := idx + (if taken then [|b|] else []);
    var a' := a + (if taken then [x] else []);
    forall t | 0 <= t < |idx'| ensures idx'[t] < |b + [x]| && (b + [x])[idx'[t]] == a'[t] {
    }
  }

  /** `a` is `b` with some elements left out, the rest in their order. */
  ghost predicate IsSubsequence<T>(a: seq<T>, b: seq<T>) {
    exists idx :: Embeds(idx, a, b)
  }

  /** Every position moved one place on. */
  function Shifted(idx: seq<nat>): (r: seq<nat>)
    ensures |r| == |idx| && forall t :: 0 <= t < |idx| ==> r[t] == idx[t] + 1
  {
    seq(|idx|, t requires 0 <= t < |idx| => idx[t] + 1)
  }

  /** An embedding into the tail of `b` is one into `b`, one place on; when
      the head of `b` is also put in front of `a`, position 0 joins. */
  lemma EmbedsPrepend<T>(idx: seq<nat>, a: seq<T>, b: seq<T>, taken: bool)
    requires b != [] && Embeds(idx, a, b[1..])
    ensures Embeds((if taken then [0] else []) + Shifted(idx), (if taken then [b[0]] else []) + a, b)
  {
    var idx' := (if taken then [0] else []) + Shifted(idx);
    var a' := (if taken then [b[0]] else []) + a;
    forall t | 0 <= t < |idx'| ensures idx'[t] < |b| && b[idx'[t]] == a'[t] {
      if taken && t > 0 {
        assert b[idx'[t]] == b[1..][idx[t - 1]];
      } else if !taken {
        assert b[idx'[t]] == b[1..][idx[t]];
      }
    }
  }

  /** The positions of `s` that `Filter(s, keep)` keeps. */
  ghost function KeptPositions<T(!new)>(s: seq<T>, keep: T -> bool): (idx: seq<nat>)
    ensures Embeds(idx, Filter(s, keep), s)
    decreases |s|
  {
    if s == [] then []
    else
      var rest := KeptPositions(s[1..], keep);
      EmbedsPrepend(rest, Filter(s[1..], keep), s, keep(s[0]));
      (if keep(s[0]) then [0] else []) + Shifted(rest)
  }

  /** Filtering keeps the relative order of what it keeps. */
  lemma FilterIsSubsequence<T(!new)>(s: seq<T>, keep: T -> bool)
    ensures IsSubsequence(Filter(s, keep), s)
  {
    assert Embeds(KeptPositions(s, keep), Filter(s, keep), s);
  }

  /** Filtering what was already filtered by a weaker test is filtering once. */
  lemma {:induction false} FilterNarrowing<T(!new)>(s: seq<T>, weak: T -> bool, strong: T -> bool)
    requires forall x :: strong(x) ==> weak(x)
    ensures Filter(Filter(s, weak), strong) == Filter(s, strong)
    decreases |s|
  {
    if s != [] {
      FilterNarrowing(s[1..], weak, strong);
      if weak(s[0]) {
        var f := Filter(s, weak);
        assert f == [s[0]] + Filter(s[1..], weak);
        assert f[0] == s[0] && f[1..] == Filter(s[1..], weak);
        assert Filter(f, strong) == (if strong(s[0]) then [s[0]] else []) + Filter(f[1..], strong);
        assert Filter(s, strong) == (if strong(s[0]) then [s[0]] else []) + Filter(s[1..], strong);
      } else {
        assert Filter(s, weak) == Filter(s[1..], weak);
        assert Filter(s, strong) == Filter(s[1..], strong);
      }
    }
  }

  /** A test that accepts every element keeps the whole list. */
  lemma {:induction false} FilterKeepsAll<T(!new)>(s: seq<T>, keep: T -> bool)
    requires forall i :: 0 <= i < |s| ==> keep(s[i])
    ensures Filter(s, keep) == s
    decreases |s|
  {
    if s != [] {
      FilterKeepsAll(s[1..], keep);
    }
  }
}
