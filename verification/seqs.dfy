/** The two list shapes the extractors build with their accumulator loops:
    keep the elements that pass a test, and convert every element. Both are
    defined from the back so that a loop which pushes onto an array keeps
    `acc == F(xs[..i])` as its invariant. */
module Seqs {

  function Filter<T>(xs: seq<T>, keep: T -> bool): (r: seq<T>)
  {
    if |xs| == 0 then []
    else Filter(xs[..|xs| - 1], keep) + (if keep(xs[|xs| - 1]) then [xs[|xs| - 1]] else [])
  }

  function Map<T, U>(xs: seq<T>, f: T -> U): (r: seq<U>)
  {
    if |xs| == 0 then [] else Map(xs[..|xs| - 1], f) + [f(xs[|xs| - 1])]
  }

  /** Map converts every element, in place. */
  lemma {:induction false} MapAt<T, U>(xs: seq<T>, f: T -> U)
    ensures |Map(xs, f)| == |xs|
    ensures forall i :: 0 <= i < |xs| ==> Map(xs, f)[i] == f(xs[i])
  {
    if |xs| > 0 {
      MapAt(xs[..|xs| - 1], f);
    }
  }

  /** One more loop step of a filtering accumulator. */
  lemma FilterSnoc<T>(xs: seq<T>, i: nat, keep: T -> bool)
    requires i < |xs|
    ensures Filter(xs[..i + 1], keep)
         == Filter(xs[..i], keep) + (if keep(xs[i]) then [xs[i]] else [])
  {
    assert xs[..i + 1][..i] == xs[..i];
  }

  /** One more loop step of a converting accumulator. */
  lemma MapSnoc<T, U>(xs: seq<T>, x: T, f: T -> U)
    ensures Map(xs + [x], f) == Map(xs, f) + [f(x)]
  {
    assert (xs + [x])[..|xs|] == xs;
  }

  /** One more step of a loop that converts the elements passing a test. */
  lemma FilterMapSnoc<T, U>(xs: seq<T>, i: nat, keep: T -> bool, f: T -> U)
    requires i < |xs|
    ensures Map(Filter(xs[..i + 1], keep), f)
         == Map(Filter(xs[..i], keep), f) + (if keep(xs[i]) then [f(xs[i])] else [])
  {
    FilterSnoc(xs, i, keep);
    if keep(xs[i]) {
      MapSnoc(Filter(xs[..i], keep), xs[i], f);
    } else {
      assert Filter(xs[..i + 1], keep) == Filter(xs[..i], keep) + [] == Filter(xs[..i], keep);
    }
  }

  /** `idx` lists, in increasing order, the positions in `xs` that `r` was taken from. */
  ghost predicate Embedding<T>(r: seq<T>, xs: seq<T>, idx: seq<nat>) {
    && |idx| == |r|
    && (forall k :: 0 <= k < |idx| ==> idx[k] < |xs| && r[k] == xs[idx[k]])
    && (forall k, l :: 0 <= k < l < |idx| ==> idx[k] < idx[l])
  }

  /** Filter keeps exactly the elements that pass the test, each once, in their
      original order: its result is the subsequence of `xs` at the positions
      whose element passes. */
  lemma {:induction false} FilterPositions<T>(xs: seq<T>, keep: T -> bool) returns (idx: seq<nat>)
    ensures Embedding(Filter(xs, keep), xs, idx)
    ensures forall j :: 0 <= j < |xs| ==> (keep(xs[j]) <==> j in idx)
  {
    if |xs| == 0 {
      idx := [];
    } else {
      var last := |xs| - 1;
      var init := xs[..last];
      var prev := FilterPositions(init, keep);
      idx := prev + (if keep(xs[last]) then [last] else []);
      assert Filter(xs, keep) == Filter(init, keep) + (if keep(xs[last]) then [xs[last]] else []);
      if keep(xs[last]) {
        EmbeddingExtend(Filter(init, keep), xs, prev, last);
      } else {
        assert idx == prev;
      }
      MembershipStep(xs, keep, prev, idx);
    }
  }

  /** The positions kept after one more element: the old ones, and the new
      position exactly when its element passes. */
  lemma MembershipStep<T>(xs: seq<T>, keep: T -> bool, prev: seq<nat>, idx: seq<nat>)
    requires |xs| > 0
    requires forall k :: 0 <= k < |prev| ==> prev[k] < |xs| - 1
    requires forall j :: 0 <= j < |xs| - 1 ==> (keep(xs[..|xs| - 1][j]) <==> j in prev)
    requires idx == prev + (if keep(xs[|xs| - 1]) then [|xs| - 1] else [])
    ensures forall j :: 0 <= j < |xs| ==> (keep(xs[j]) <==> j in idx)
  {
    forall j | 0 <= j < |xs|
      ensures keep(xs[j]) <==> j in idx
    {
      if j < |xs| - 1 {
        assert xs[j] == xs[..|xs| - 1][j];
        assert j in idx <==> j in prev;
      } else {
        assert |xs| - 1 !in prev;
      }
    }
  }

  lemma EmbeddingExtend<T>(r: seq<T>, xs: seq<T>, idx: seq<nat>, last: nat)
    requires last < |xs|
    requires Embedding(r, xs[..last], idx)
    ensures Embedding(r + [xs[last]], xs, idx + [last])
  {
    var r', idx' := r + [xs[last]], idx + [last];
    forall k | 0 <= k < |idx'|
      ensures idx'[k] < |xs| && r'[k] == xs[idx'[k]]
    {
      if k < |idx| {
        assert xs[..last][idx[k]] == xs[idx[k]];
      }
    }
  }

  /** The filtered list is empty exactly when no element passes the test. */
  lemma FilterEmptyIff<T>(xs: seq<T>, keep: T -> bool)
    ensures |Filter(xs, keep)| == 0 <==> forall j :: 0 <= j < |xs| ==> !keep(xs[j])
  {
    var idx := FilterPositions(xs, keep);
    if |Filter(xs, keep)| == 0 {
      forall j | 0 <= j < |xs| ensures !keep(xs[j]) {
        assert j !in idx;
      }
    } else {
      assert keep(xs[idx[0]]);
    }
  }
}
