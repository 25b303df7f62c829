/** `Array.prototype.filter` and what it means: the result is exactly the
    elements that pass, in their original order. Used by the table's row
    filter and by the list pages' local delete. */
module Seqs {

  /** `xs.filter(p)` */
  function Filter<T(==)>(xs: seq<T>, p: T -> bool): (r: seq<T>)
    ensures |r| <= |xs|
    ensures forall i :: 0 <= i < |r| ==> p(r[i]) && r[i] in xs
    ensures forall i :: 0 <= i < |xs| && p(xs[i]) ==> xs[i] in r
  {
    if |xs| == 0 then []
    else if p(xs[0]) then [xs[0]] + Filter(xs[1..], p)
    else Filter(xs[1..], p)
  }

  /** The strictly increasing positions `idx` select `r` out of `xs`:
      `r` is an order-preserving subsequence of `xs`. */
  ghost predicate Picks<T>(r: seq<T>, xs: seq<T>, idx: seq<nat>)
  {
    && |idx| == |r|
    && (forall k :: 0 <= k < |idx| ==> idx[k] < |xs| && r[k] == xs[idx[k]])
    && (forall k, l :: 0 <= k < l < |idx| ==> idx[k] < idx[l])
  }

  /** Every position moved one place to the right. */
  function Shift(idx: seq<nat>): (r: seq<nat>)
    ensures |r| == |idx|
    ensures forall k :: 0 <= k < |idx| ==> r[k] == idx[k] + 1
  {
    seq(|idx|, k requires 0 <= k < |idx| => idx[k] + 1)
  }

  lemma ShiftMembers(idx: seq<nat>)
    ensures 0 !in Shift(idx)
    ensures forall i :: i in Shift(idx) <==> i >= 1 && (i - 1) in idx
  {
    var s := Shift(idx);
    forall i | i >= 1 && (i - 1) in idx
      ensures i in s
    {
      var k :| 0 <= k < |idx| && idx[k] == i - 1;
      assert s[k] == i;
    }
  }

  /** Prepending an element to the source keeps a selection valid once
      its positions are shifted; prepending it to both keeps it too. */
  lemma PicksCons<T>(x: T, xs: seq<T>, r: seq<T>, idx: seq<nat>)
    requires Picks(r, xs, idx)
    ensures Picks(r, [x] + xs, Shift(idx))
    ensures Picks([x] + r, [x] + xs, [0] + Shift(idx))
  {
    var s := Shift(idx);
    var xs' := [x] + xs;
    assert forall k :: 0 <= k < |s| ==> xs'[s[k]] == xs[idx[k]];
  }

  /** The filter keeps precisely the positions whose element passes, and
      keeps them in order. */
  lemma {:induction false} FilterPicksExactly<T>(xs: seq<T>, p: T -> bool) returns (idx: seq<nat>)
    ensures Picks(Filter(xs, p), xs, idx)
    ensures forall i :: 0 <= i < |xs| ==> (i in idx <==> p(xs[i]))
  {
    if |xs| == 0 {
      idx := [];
    } else {
      var rest := FilterPicksExactly(xs[1..], p);
      PicksCons(xs[0], xs[1..], Filter(xs[1..], p), rest);
      ShiftMembers(rest);
      assert xs == [xs[0]] + xs[1..];
      if p(xs[0]) {
        idx := [0] + Shift(rest);
      } else {
        idx := Shift(rest);
      }
      forall i | 1 <= i < |xs|
        ensures i in idx <==> p(xs[i])
      {
        assert xs[1..][i - 1] == xs[i];
      }
    }
  }

  /** No element occurs twice. */
  predicate NoDuplicates<T(==)>(xs: seq<T>)
  {
    forall i, j :: 0 <= i < j < |xs| ==> xs[i] != xs[j]
  }

  /** Where `Array.prototype.slice` starts or stops for a relative index:
      a negative index counts from the end, and the result is clamped to
      the length. */
  function SliceBound(len: nat, x: int): (b: nat)
    ensures b <= len
    ensures 0 <= x ==> b == if x < len then x else len
  {
    if x < 0 then (if len + x < 0 then 0 else len + x)
    else if x < len then x else len
  }

  /** `xs.slice(start, end)` */
  function Slice<T>(xs: seq<T>, start: int, end: int): (r: seq<T>)
    ensures |r| <= |xs|
  {
    var from := SliceBound(|xs|, start);
    var to := SliceBound(|xs|, end);
    if from < to then xs[from..to] else []
  }
}
