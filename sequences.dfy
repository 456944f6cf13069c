/**
 * The two array idioms the dashboard uses on its collections:
 * `Array.prototype.filter` (Select) and `[...new Set(xs)]` (Distinct).
 */
module Seqs {

  /** `xs.filter(p)`: the elements of xs that satisfy p, in their original order. */
  function Select<T>(xs: seq<T>, p: T -> bool): seq<T>
    decreases |xs|
  {
    if xs == [] then []
    else
      var init := Select(xs[..|xs| - 1], p);
      if p(xs[|xs| - 1]) then init + [xs[|xs| - 1]] else init
  }

  /** Select never lengthens its input, and every element it keeps satisfies p. */
  lemma {:induction false} SelectSpec<T>(xs: seq<T>, p: T -> bool)
    ensures |Select(xs, p)| <= |xs|
    ensures forall k :: 0 <= k < |Select(xs, p)| ==> p(Select(xs, p)[k])
    decreases |xs|
  {
    if xs != [] {
      SelectSpec(xs[..|xs| - 1], p);
    }
  }

  /** An element is selected exactly when it occurs in xs and satisfies p. */
  lemma {:induction false} SelectMembership<T>(xs: seq<T>, p: T -> bool)
    ensures forall x :: x in Select(xs, p) <==> x in xs && p(x)
    decreases |xs|
  {
    if xs != [] {
      var init, x := xs[..|xs| - 1], xs[|xs| - 1];
      assert xs == init + [x];
      SelectMembership(init, p);
    }
  }

  ghost predicate Increasing(idx: seq<int>) {
    forall i, j :: 0 <= i < j < |idx| ==> idx[i] < idx[j]
  }

  /** The positions of xs whose element satisfies p, in increasing order. */
  function SelectedIndices<T>(xs: seq<T>, p: T -> bool): seq<nat>
    decreases |xs|
  {
    if xs == [] then []
    else
      var init := SelectedIndices(xs[..|xs| - 1], p);
      if p(xs[|xs| - 1]) then init + [|xs| - 1] else init
  }

  /** The selected positions are increasing, in range, and exactly those whose element satisfies p. */
  lemma {:induction false} SelectedIndicesSpec<T>(xs: seq<T>, p: T -> bool)
    ensures var idx := SelectedIndices(xs, p);
      && Increasing(idx)
      && (forall j :: 0 <= j < |idx| ==> idx[j] < |xs|)
      && (forall k :: 0 <= k < |xs| ==> (k in idx <==> p(xs[k])))
    decreases |xs|
  {
    if xs != [] {
      SelectedIndicesSpec(xs[..|xs| - 1], p);
    }
  }

  /**
   * Select keeps exactly the positions that satisfy p, in order: it is the
   * ordered subsequence of xs picked out by SelectedIndices.
   */
  lemma {:induction false} SelectIsOrderedSubsequence<T>(xs: seq<T>, p: T -> bool)
    ensures var r, idx := Select(xs, p), SelectedIndices(xs, p);
      |r| == |idx| && forall j :: 0 <= j < |r| ==> idx[j] < |xs| && r[j] == xs[idx[j]]
    decreases |xs|
  {
    if xs != [] {
      SelectIsOrderedSubsequence(xs[..|xs| - 1], p);
      SelectedIndicesSpec(xs[..|xs| - 1], p);
    }
  }

  /** Two predicates that agree on every element select the same subsequence. */
  lemma {:induction false} SelectPointwise<T>(xs: seq<T>, p: T -> bool, q: T -> bool)
    requires forall k :: 0 <= k < |xs| ==> p(xs[k]) == q(xs[k])
    ensures Select(xs, p) == Select(xs, q)
    decreases |xs|
  {
    if xs != [] {
      SelectPointwise(xs[..|xs| - 1], p, q);
    }
  }

  /** A predicate that holds of every element keeps the whole sequence. */
  lemma {:induction false} SelectAll<T>(xs: seq<T>, p: T -> bool)
    requires forall k :: 0 <= k < |xs| ==> p(xs[k])
    ensures Select(xs, p) == xs
    decreases |xs|
  {
    if xs != [] {
      SelectAll(xs[..|xs| - 1], p);
      assert xs[..|xs| - 1] + [xs[|xs| - 1]] == xs;
    }
  }

  /** Select distributes over appending one element. */
  lemma SelectSnoc<T>(xs: seq<T>, x: T, p: T -> bool)
    ensures Select(xs + [x], p) == if p(x) then Select(xs, p) + [x] else Select(xs, p)
  {
    assert (xs + [x])[..|xs|] == xs;
  }

  /** Filtering twice is filtering once by the conjunction. */
  lemma {:induction false} SelectSelect<T>(xs: seq<T>, p: T -> bool, q: T -> bool, pq: T -> bool)
    requires forall k :: 0 <= k < |xs| ==> pq(xs[k]) == (p(xs[k]) && q(xs[k]))
    ensures Select(Select(xs, p), q) == Select(xs, pq)
    decreases |xs|
  {
    if xs != [] {
      var init, x := xs[..|xs| - 1], xs[|xs| - 1];
      assert xs == init + [x];
      SelectSelect(init, p, q, pq);
      if p(x) {
        SelectSnoc(Select(init, p), x, q);
      }
    }
  }

  /** `[...new Set(xs)]`: the distinct elements of xs, in order of first occurrence. */
  function Distinct<T(==)>(xs: seq<T>): seq<T>
    decreases |xs|
  {
    if xs == [] then []
    else
      var d := Distinct(xs[..|xs| - 1]);
      var x := xs[|xs| - 1];
      if x in d then d else d + [x]
  }

  /** Distinct(xs) has no repeated element and holds exactly the elements of xs. */
  lemma {:induction false} DistinctSpec<T>(xs: seq<T>)
    ensures var r := Distinct(xs);
      && (forall i, j :: 0 <= i < j < |r| ==> r[i] != r[j])
      && (forall k :: 0 <= k < |r| ==> r[k] in xs)
      && (forall k :: 0 <= k < |xs| ==> xs[k] in r)
    decreases |xs|
  {
    if xs != [] {
      DistinctSpec(xs[..|xs| - 1]);
    }
  }

  lemma DistinctSnoc<T>(xs: seq<T>, x: T)
    ensures Distinct(xs + [x]) == if x in Distinct(xs) then Distinct(xs) else Distinct(xs) + [x]
  {
    assert (xs + [x])[..|xs|] == xs;
  }

  /** The position of the first occurrence of x in xs. */
  function FirstIndex<T(==)>(xs: seq<T>, x: T): (i: nat)
    requires x in xs
    ensures i < |xs| && xs[i] == x
    ensures forall j :: 0 <= j < i ==> xs[j] != x
  {
    if xs[0] == x then 0 else 1 + FirstIndex(xs[1..], x)
  }

  lemma FirstIndexSnoc<T>(xs: seq<T>, y: T, x: T)
    requires x in xs
    ensures FirstIndex(xs + [y], x) == FirstIndex(xs, x)
  {
    assert (xs + [y])[FirstIndex(xs, x)] == x;
  }

  lemma FirstIndexOfNew<T>(xs: seq<T>, x: T)
    requires x !in xs
    ensures FirstIndex(xs + [x], x) == |xs|
  {
  }

  /** The elements of Distinct(xs) appear in the order of their first occurrence in xs. */
  lemma {:induction false} DistinctInFirstOccurrenceOrder<T>(xs: seq<T>)
    ensures var r := Distinct(xs);
      forall i, j :: 0 <= i < j < |r| ==> r[i] in xs && r[j] in xs && FirstIndex(xs, r[i]) < FirstIndex(xs, r[j])
    decreases |xs|
  {
    if xs != [] {
      var init, x := xs[..|xs| - 1], xs[|xs| - 1];
      assert xs == init + [x];
      DistinctInFirstOccurrenceOrder(init);
      DistinctSpec(init);
      var d, r := Distinct(init), Distinct(xs);
      assert r == if x in d then d else d + [x];
      forall i, j | 0 <= i < j < |r|
        ensures r[i] in xs && r[j] in xs && FirstIndex(xs, r[i]) < FirstIndex(xs, r[j])
      {
        DistinctPairStep(init, x, i, j);
      }
    }
  }

  lemma DistinctPairStep<T>(init: seq<T>, x: T, i: nat, j: nat)
    requires var d := Distinct(init);
      forall i, j :: 0 <= i < j < |d| ==> d[i] in init && d[j] in init && FirstIndex(init, d[i]) < FirstIndex(init, d[j])
    requires var d := Distinct(init);
      i < j < |if x in d then d else d + [x]|
    ensures var d := Distinct(init); var r := if x in d then d else d + [x];
      r[i] in init + [x] && r[j] in init + [x] && FirstIndex(init + [x], r[i]) < FirstIndex(init + [x], r[j])
  {
    var d := Distinct(init);
    var r := if x in d then d else d + [x];
    DistinctSpec(init);
    assert r[i] == d[i] && r[i] in init;
    FirstIndexSnoc(init, x, r[i]);
    if j < |d| {
      assert r[j] == d[j] && r[j] in init;
      FirstIndexSnoc(init, x, r[j]);
      assert FirstIndex(init, d[i]) < FirstIndex(init, d[j]);
    } else {
      assert r[j] == x;
      FirstIndexOfNew(init, x);
    }
  }
}
