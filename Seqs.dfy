/**
 * `Array.prototype.filter` over immutable sequences, and what it guarantees:
 * the elements kept are exactly those that pass the test, in their original order.
 */
module Seqs {

  /** The elements of `xs` for which `keep` holds, in order (`xs.filter(keep)`). */
  function Filter<T>(xs: seq<T>, keep: T -> bool): (r: seq<T>)
    ensures |r| <= |xs|
    ensures forall k :: 0 <= k < |r| ==> keep(r[k])
  {
    if xs == [] then []
    else (if keep(xs[0]) then [xs[0]] else []) + Filter(xs[1..], keep)
  }

  /** Strictly increasing indices, each below `n`. */
  ghost predicate IncreasingBelow(idx: seq<int>, n: int) {
    (forall k :: 0 <= k < |idx| ==> 0 <= idx[k] < n) &&
    (forall k, l :: 0 <= k < l < |idx| ==> idx[k] < idx[l])
  }

  /** Every index raised by one. */
  ghost function Shift(idx: seq<int>): (r: seq<int>)
    ensures |r| == |idx|
    ensures forall k :: 0 <= k < |r| ==> r[k] == idx[k] + 1
  {
    seq(|idx|, k requires 0 <= k < |idx| => idx[k] + 1)
  }

  /** The positions of `xs` whose element passes `keep`, in increasing order. */
  ghost function KeptIndices<T>(xs: seq<T>, keep: T -> bool): seq<int>
  {
    if xs == [] then []
    else (if keep(xs[0]) then [0] else []) + Shift(KeptIndices(xs[1..], keep))
  }

  /** `r` is `xs` read at the positions `idx`, one element per position. */
  ghost predicate ReadsAt<T>(xs: seq<T>, idx: seq<int>, r: seq<T>) {
    |idx| == |r| && forall k :: 0 <= k < |r| ==> 0 <= idx[k] < |xs| && r[k] == xs[idx[k]]
  }

  /** Positions in the tail of `xs`, raised by one, are positions in `xs`. */
  lemma ShiftReads<T>(xs: seq<T>, ti: seq<int>, tr: seq<T>)
    requires xs != [] && ReadsAt(xs[1..], ti, tr)
    ensures ReadsAt(xs, Shift(ti), tr)
  {
    var sti := Shift(ti);
    forall k | 0 <= k < |tr|
      ensures 0 <= sti[k] < |xs| && tr[k] == xs[sti[k]]
    {
      assert sti[k] == ti[k] + 1;
    }
  }

  /** Reading the first element at position 0 extends a reading of `xs`. */
  lemma FrontReads<T>(xs: seq<T>, idx: seq<int>, r: seq<T>)
    requires xs != [] && ReadsAt(xs, idx, r)
    ensures ReadsAt(xs, [0] + idx, [xs[0]] + r)
  {
    var idx', r' := [0] + idx, [xs[0]] + r;
    forall k | 1 <= k < |r'|
      ensures 0 <= idx'[k] < |xs| && r'[k] == xs[idx'[k]]
    {
      assert idx'[k] == idx[k - 1] && r'[k] == r[k - 1];
    }
  }

  /** `Filter` reads `xs` at the kept positions, one element per position. */
  lemma {:induction false} FilterReadsKeptIndices<T>(xs: seq<T>, keep: T -> bool)
    ensures ReadsAt(xs, KeptIndices(xs, keep), Filter(xs, keep))
  {
    if xs != [] {
      var tail := xs[1..];
      FilterReadsKeptIndices(tail, keep);
      var ti, tr := KeptIndices(tail, keep), Filter(tail, keep);
      ShiftReads(xs, ti, tr);
      if keep(xs[0]) {
        FrontReads(xs, Shift(ti), tr);
      }
    }
  }

  /** The kept positions are strictly increasing: `Filter` preserves order. */
  lemma {:induction false} KeptIndicesIncrease<T>(xs: seq<T>, keep: T -> bool)
    ensures IncreasingBelow(KeptIndices(xs, keep), |xs|)
  {
    if xs != [] {
      KeptIndicesIncrease(xs[1..], keep);
    }
  }

  /** A position is kept exactly when its element passes the test. */
  lemma {:induction false} KeptIndicesComplete<T>(xs: seq<T>, keep: T -> bool)
    ensures forall i :: 0 <= i < |xs| ==> (keep(xs[i]) <==> i in KeptIndices(xs, keep))
  {
    if xs != [] {
      var tail := xs[1..];
      KeptIndicesComplete(tail, keep);
      KeptIndicesIncrease(tail, keep);
      var ti := KeptIndices(tail, keep);
      var idx := KeptIndices(xs, keep);
      forall i | 0 <= i < |xs|
        ensures keep(xs[i]) <==> i in idx
      {
        if i > 0 {
          assert xs[i] == tail[i - 1];
          if keep(xs[i]) {
            var k :| 0 <= k < |ti| && ti[k] == i - 1;
            assert Shift(ti)[k] == i;
          }
          if i in idx {
            assert i in Shift(ti);
          }
        } else {
          assert 0 !in Shift(ti);
        }
      }
    }
  }

  /**
   * `Filter` keeps precisely the passing elements and keeps them in order:
   * the result is `xs` read at the increasing list of passing positions.
   */
  lemma FilterIsOrderedSelection<T>(xs: seq<T>, keep: T -> bool)
    ensures var r, idx := Filter(xs, keep), KeptIndices(xs, keep);
      && |idx| == |r|
      && IncreasingBelow(idx, |xs|)
      && (forall k :: 0 <= k < |idx| ==> r[k] == xs[idx[k]])
      && (forall i :: 0 <= i < |xs| ==> (keep(xs[i]) <==> i in idx))
  {
    FilterReadsKeptIndices(xs, keep);
    KeptIndicesIncrease(xs, keep);
    KeptIndicesComplete(xs, keep);
  }

  /** An element is in the filtered sequence exactly when it is in `xs` and passes. */
  lemma FilterMembers<T>(xs: seq<T>, keep: T -> bool)
    ensures forall x :: x in Filter(xs, keep) <==> x in xs && keep(x)
  {
    FilterIsOrderedSelection(xs, keep);
    var r, idx := Filter(xs, keep), KeptIndices(xs, keep);
    forall x | x in xs && keep(x)
      ensures x in r
    {
      var i :| 0 <= i < |xs| && xs[i] == x;
      var k :| 0 <= k < |idx| && idx[k] == i;
      assert r[k] == x;
    }
  }

  /** A test that every element passes removes nothing. */
  lemma {:induction false} FilterAllPass<T>(xs: seq<T>, keep: T -> bool)
    requires forall i :: 0 <= i < |xs| ==> keep(xs[i])
    ensures Filter(xs, keep) == xs
  {
    if xs != [] {
      assert xs == [xs[0]] + xs[1..];
      FilterAllPass(xs[1..], keep);
    }
  }

  /** Filtering a sequence with a known first element. */
  lemma FilterCons<T>(x: T, ys: seq<T>, keep: T -> bool)
    ensures Filter([x] + ys, keep) == (if keep(x) then [x] else []) + Filter(ys, keep)
  {
    assert ([x] + ys)[1..] == ys;
  }

  /** Of two elements, only the second kept: the filter is that element alone. */
  lemma FilterSecondOnly<T>(xs: seq<T>, keep: T -> bool)
    requires |xs| == 2 && !keep(xs[0]) && keep(xs[1])
    ensures Filter(xs, keep) == [xs[1]]
  {
    assert xs == [xs[0]] + [xs[1]];
    FilterCons(xs[0], [xs[1]], keep);
    FilterCons(xs[1], [], keep);
  }

  /** Filtering distributes over concatenation. */
  lemma {:induction false} FilterAppend<T>(xs: seq<T>, ys: seq<T>, keep: T -> bool)
    ensures Filter(xs + ys, keep) == Filter(xs, keep) + Filter(ys, keep)
  {
    if xs == [] {
      assert xs + ys == ys;
    } else {
      assert (xs + ys)[1..] == xs[1..] + ys;
      FilterAppend(xs[1..], ys, keep);
    }
  }

  /**
   * When every element of `ys` that passes `q` sits opposite an element of
   * `xs` that passes `p`, `ys` keeps no more elements than `xs`.
   */
  lemma {:induction false} FilterCountMonotone<T>(ys: seq<T>, xs: seq<T>, q: T -> bool, p: T -> bool)
    requires |ys| == |xs|
    requires forall k :: 0 <= k < |ys| && q(ys[k]) ==> p(xs[k])
    ensures |Filter(ys, q)| <= |Filter(xs, p)|
  {
    if ys != [] {
      FilterCountMonotone(ys[1..], xs[1..], q, p);
    }
  }

  /** Nothing passes, nothing is kept. */
  lemma {:induction false} FilterNonePass<T>(xs: seq<T>, keep: T -> bool)
    requires forall k :: 0 <= k < |xs| ==> !keep(xs[k])
    ensures Filter(xs, keep) == []
  {
    if xs != [] {
      FilterNonePass(xs[1..], keep);
    }
  }
}
