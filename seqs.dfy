/**
 * Sequence helpers shared by the modules of the model: the JavaScript
 * `Array.prototype.filter` and `Array.prototype.slice` operations, and the
 * facts about them that the schedule generators and reports rely on.
 */
module Seqs {

  /** `xs.filter(p)`: the elements of `xs` that satisfy `p`, in their order. */
  function Filter<T>(xs: seq<T>, p: T -> bool): (r: seq<T>)
    ensures |r| <= |xs|
  {
    if xs == [] then []
    else Filter(xs[..|xs| - 1], p) + (if p(xs[|xs| - 1]) then [xs[|xs| - 1]] else [])
  }

  /** What a filter keeps: exactly the occurrences of elements that satisfy `p`. */
  lemma {:induction false} FilterMultiset<T>(xs: seq<T>, p: T -> bool)
    ensures forall x {:trigger multiset(Filter(xs, p))[x]} ::
      multiset(Filter(xs, p))[x] == if p(x) then multiset(xs)[x] else 0
  {
    if xs != [] {
      var init := xs[..|xs| - 1];
      assert xs == init + [xs[|xs| - 1]];
      FilterMultiset(init, p);
    }
  }

  /** Membership in a filter's result. */
  lemma FilterMembership<T>(xs: seq<T>, p: T -> bool, x: T)
    ensures x in Filter(xs, p) <==> x in xs && p(x)
  {
    FilterMultiset(xs, p);
    assert x in Filter(xs, p) <==> multiset(Filter(xs, p))[x] > 0;
    assert x in xs <==> multiset(xs)[x] > 0;
  }

  /** Membership in a filter's result, for every element at once. */
  lemma FilterMembers<T>(xs: seq<T>, p: T -> bool)
    ensures forall x :: x in Filter(xs, p) <==> x in xs && p(x)
  {
    forall x ensures x in Filter(xs, p) <==> x in xs && p(x) {
      FilterMembership(xs, p, x);
    }
  }

  /** Filtering distributes over concatenation (order is kept). */
  lemma {:induction false} FilterAppend<T>(xs: seq<T>, ys: seq<T>, p: T -> bool)
    ensures Filter(xs + ys, p) == Filter(xs, p) + Filter(ys, p)
    decreases |ys|
  {
    if ys == [] {
      assert xs + ys == xs;
    } else {
      var ys' := ys[..|ys| - 1];
      assert (xs + ys)[..|xs + ys| - 1] == xs + ys';
      FilterAppend(xs, ys', p);
    }
  }

  /** Filtering the front element off: the recursion read left to right. */
  lemma FilterCons<T>(x: T, xs: seq<T>, p: T -> bool)
    ensures Filter([x] + xs, p) == (if p(x) then [x] else []) + Filter(xs, p)
  {
    FilterAppend([x], xs, p);
    assert Filter([x], p) == Filter([], p) + (if p(x) then [x] else []) by {
      assert [x][..0] == [];
    }
  }

  /** A filter that keeps everything is the identity. */
  lemma {:induction false} FilterKeepsAll<T>(xs: seq<T>, p: T -> bool)
    requires forall i :: 0 <= i < |xs| ==> p(xs[i])
    ensures Filter(xs, p) == xs
  {
    if xs != [] {
      FilterKeepsAll(xs[..|xs| - 1], p);
    }
  }

  /** A filter that keeps nothing is empty. */
  lemma {:induction false} FilterKeepsNone<T>(xs: seq<T>, p: T -> bool)
    requires forall i :: 0 <= i < |xs| ==> !p(xs[i])
    ensures Filter(xs, p) == []
  {
    if xs != [] {
      FilterKeepsNone(xs[..|xs| - 1], p);
    }
  }

  /** The elements a filter keeps and the ones it drops add up to the input. */
  lemma {:induction false} FilterSplit<T>(xs: seq<T>, p: T -> bool, q: T -> bool)
    requires forall i :: 0 <= i < |xs| ==> (q(xs[i]) <==> !p(xs[i]))
    ensures |Filter(xs, p)| + |Filter(xs, q)| == |xs|
    ensures multiset(Filter(xs, p)) + multiset(Filter(xs, q)) == multiset(xs)
  {
    if xs != [] {
      var init := xs[..|xs| - 1];
      assert xs == init + [xs[|xs| - 1]];
      FilterSplit(init, p, q);
    }
  }

  /** No element occurs twice. */
  predicate NoDuplicates<T(==)>(xs: seq<T>)
  {
    forall i, j :: 0 <= i < j < |xs| ==> xs[i] != xs[j]
  }

  /** Filtering a duplicate-free sequence leaves it duplicate-free. */
  lemma {:induction false} FilterNoDuplicates<T>(xs: seq<T>, p: T -> bool)
    requires NoDuplicates(xs)
    ensures NoDuplicates(Filter(xs, p))
  {
    if xs != [] {
      var init := xs[..|xs| - 1];
      FilterNoDuplicates(init, p);
      var last := xs[|xs| - 1];
      assert last !in init;
      FilterMembership(init, p, last);
    }
  }

  /**
   * How `slice` turns an argument into a position: a negative argument counts
   * from the end, and the position is clamped to `[0, len]`.
   */
  function SlicePosition(k: int, len: nat): (r: nat)
    ensures r <= len
    ensures 0 <= k ==> r == if k < len then k else len
    ensures k < 0 ==> r == if len + k < 0 then 0 else len + k
  {
    if k < 0 then (if len + k < 0 then 0 else len + k)
    else if k < len then k
    else len
  }

  /** `a.slice(begin, end)`. */
  function Slice<T(==)>(a: seq<T>, begin: int, end: int): (r: seq<T>)
    ensures |r| <= |a|
    ensures forall i :: 0 <= i < |r| ==> r[i] in a
  {
    var b := SlicePosition(begin, |a|);
    var e := SlicePosition(end, |a|);
    if b <= e then a[b..e] else []
  }

  /** `a.slice(begin)`. */
  function SliceFrom<T(==)>(a: seq<T>, begin: int): (r: seq<T>)
    ensures |r| <= |a|
    ensures forall i :: 0 <= i < |r| ==> r[i] in a
  {
    a[SlicePosition(begin, |a|)..]
  }

  /** The smaller of two integers (`Math.min`). */
  function Min(a: int, b: int): (r: int)
    ensures r <= a && r <= b
    ensures r == a || r == b
  {
    if a <= b then a else b
  }
}
