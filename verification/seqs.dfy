/**
 Generic sequence utilities used by the engine: duplicate-freedom, pairwise
 ordering, an order-preserving filter, and Python's `list.remove` (delete the
 first equal element). The engine's "collect the rejects, then remove each
 one" idiom is modelled by `MarkThenRemove` and proved to be a plain filter
 whenever the input holds no duplicates.
 */
module Seqs {

  /** No element occurs twice. */
  ghost predicate NoDup<T>(xs: seq<T>) {
    forall i, j :: 0 <= i < j < |xs| ==> xs[i] != xs[j]
  }

  /** Every earlier element is `less` than every later one. */
  ghost predicate Increasing<T>(less: (T, T) -> bool, xs: seq<T>) {
    forall i, j :: 0 <= i < j < |xs| ==> less(xs[i], xs[j])
  }

  /** The predicate that holds exactly where `p` does not. */
  function Not<T>(p: T -> bool): T -> bool {
    x => !p(x)
  }

  /** Conjunction of two predicates. */
  function And<T>(p: T -> bool, q: T -> bool): T -> bool {
    x => p(x) && q(x)
  }

  /** Holds of everything except `y`. */
  function AllBut<T(==)>(y: T): T -> bool {
    x => x != y
  }

  /** Holds of everything not listed in `ys`. */
  function Outside<T(==)>(ys: seq<T>): T -> bool {
    x => x !in ys
  }

  /** The elements of `xs` satisfying `p`, in their original order. */
  function Filter<T(!new)>(p: T -> bool, xs: seq<T>): (r: seq<T>)
    ensures |r| <= |xs|
    ensures forall x :: x in r <==> x in xs && p(x)
  {
    if |xs| == 0 then []
    else (if p(xs[0]) then [xs[0]] else []) + Filter(p, xs[1..])
  }

  /** Python's `list.index(y)`: the position of the first element equal to `y`. */
  function FirstIndex<T(==)>(xs: seq<T>, y: T): (k: nat)
    requires y in xs
    ensures k < |xs| && xs[k] == y && y !in xs[..k]
  {
    if xs[0] == y then 0
    else
      var k := FirstIndex(xs[1..], y) + 1;
      assert xs[..k] == [xs[0]] + xs[1..][..k - 1];
      k
  }

  /** Python's `list.remove(y)`: delete the first element equal to `y`,
      keeping the others in order. Python raises `ValueError` when `y` is
      absent, hence the precondition. */
  function RemoveFirst<T(==,!new)>(xs: seq<T>, y: T): (r: seq<T>)
    requires y in xs
    ensures |r| == |xs| - 1
    ensures r == xs[..FirstIndex(xs, y)] + xs[FirstIndex(xs, y) + 1..]
  {
    if xs[0] == y then xs[1..]
    else
      var k := FirstIndex(xs[1..], y);
      assert xs[..k + 1] == [xs[0]] + xs[1..][..k];
      assert xs[k + 2..] == xs[1..][k + 1..];
      [xs[0]] + RemoveFirst(xs[1..], y)
  }

  /** Dropping the head of a duplicate-free sequence keeps it duplicate-free. */
  lemma {:induction false} NoDupTail<T>(xs: seq<T>)
    requires |xs| > 0 && NoDup(xs)
    ensures xs[0] !in xs[1..] && NoDup(xs[1..])
  {
    var tl := xs[1..];
    forall k | 0 <= k < |tl|
      ensures tl[k] != xs[0]
    {
      assert tl[k] == xs[k + 1];
    }
    forall i, j | 0 <= i < j < |tl|
      ensures tl[i] != tl[j]
    {
      assert tl[i] == xs[i + 1] && tl[j] == xs[j + 1];
    }
  }

  /** Prepending a new element keeps a sequence duplicate-free. */
  lemma {:induction false} NoDupCons<T>(x: T, xs: seq<T>)
    requires x !in xs && NoDup(xs)
    ensures NoDup([x] + xs)
  {
    var ys := [x] + xs;
    forall i, j | 0 <= i < j < |ys|
      ensures ys[i] != ys[j]
    {
      assert ys[j] == xs[j - 1];
      if i > 0 {
        assert ys[i] == xs[i - 1];
      }
    }
  }

  /** A prefix one longer is the prefix extended by the next element. */
  lemma PrefixSnoc<T>(xs: seq<T>, k: nat)
    requires k < |xs|
    ensures xs[..k + 1] == xs[..k] + [xs[k]]
  {
  }

  /** The prefix of full length is the whole sequence. */
  lemma PrefixAll<T>(xs: seq<T>)
    ensures xs[..|xs|] == xs
  {
  }

  /** Filtering distributes over concatenation. */
  lemma {:induction false} FilterConcat<T(!new)>(p: T -> bool, a: seq<T>, b: seq<T>)
    ensures Filter(p, a + b) == Filter(p, a) + Filter(p, b)
  {
    if |a| == 0 {
      assert a + b == b;
    } else {
      assert (a + b)[0] == a[0];
      assert (a + b)[1..] == a[1..] + b;
      FilterConcat(p, a[1..], b);
    }
  }

  /** Predicates that agree on the elements of `xs` filter it identically. */
  lemma {:induction false} FilterExt<T(!new)>(p: T -> bool, q: T -> bool, xs: seq<T>)
    requires forall x :: x in xs ==> p(x) == q(x)
    ensures Filter(p, xs) == Filter(q, xs)
  {
    if |xs| > 0 {
      assert xs[0] in xs;
      forall x | x in xs[1..]
        ensures p(x) == q(x)
      {
        assert x in xs;
      }
      FilterExt(p, q, xs[1..]);
    }
  }

  /** Filtering twice is filtering once by the conjunction. */
  lemma {:induction false} FilterFilter<T(!new)>(p: T -> bool, q: T -> bool, xs: seq<T>)
    ensures Filter(q, Filter(p, xs)) == Filter(And(p, q), xs)
  {
    if |xs| > 0 {
      FilterFilter(p, q, xs[1..]);
      var head := if p(xs[0]) then [xs[0]] else [];
      FilterConcat(q, head, Filter(p, xs[1..]));
      if p(xs[0]) {
        assert head[1..] == [];
      }
    }
  }

  /** A filter is idempotent. */
  lemma {:induction false} FilterIdempotent<T(!new)>(p: T -> bool, xs: seq<T>)
    ensures Filter(p, Filter(p, xs)) == Filter(p, xs)
  {
    FilterFilter(p, p, xs);
    FilterExt(And(p, p), p, xs);
  }

  /** A filter of a duplicate-free sequence is duplicate-free. */
  lemma {:induction false} FilterNoDup<T(!new)>(p: T -> bool, xs: seq<T>)
    ensures NoDup(xs) ==> NoDup(Filter(p, xs))
  {
    if |xs| > 0 && NoDup(xs) {
      NoDupTail(xs);
      FilterNoDup(p, xs[1..]);
      if p(xs[0]) {
        NoDupCons(xs[0], Filter(p, xs[1..]));
      }
    }
  }

  /** A filter keeps the relative order of what it keeps. */
  lemma {:induction false} FilterIncreasing<T(!new)>(less: (T, T) -> bool, p: T -> bool, xs: seq<T>)
    ensures Increasing(less, xs) ==> Increasing(less, Filter(p, xs))
  {
    if |xs| > 0 && Increasing(less, xs) {
      var tl := xs[1..];
      assert Increasing(less, tl) by {
        forall i, j | 0 <= i < j < |tl|
          ensures less(tl[i], tl[j])
        {
          assert tl[i] == xs[i + 1] && tl[j] == xs[j + 1];
        }
      }
      FilterIncreasing(less, p, tl);
      var rest := Filter(p, tl);
      if p(xs[0]) {
        var r := [xs[0]] + rest;
        forall i, j | 0 <= i < j < |r|
          ensures less(r[i], r[j])
        {
          assert r[j] == rest[j - 1];
          if i == 0 {
            assert rest[j - 1] in tl;
            var k :| 0 <= k < |tl| && tl[k] == rest[j - 1];
            assert tl[k] == xs[k + 1];
          } else {
            assert r[i] == rest[i - 1];
          }
        }
      }
    }
  }

  /** Concatenating ordered pieces, each earlier piece wholly before the later one. */
  lemma IncreasingConcat<T>(less: (T, T) -> bool, a: seq<T>, b: seq<T>)
    requires Increasing(less, a) && Increasing(less, b)
    requires forall i, j :: 0 <= i < |a| && 0 <= j < |b| ==> less(a[i], b[j])
    ensures Increasing(less, a + b)
  {
    var c := a + b;
    forall i, j | 0 <= i < j < |c|
      ensures less(c[i], c[j])
    {
      if j < |a| {
        assert c[i] == a[i] && c[j] == a[j];
      } else if i < |a| {
        assert c[i] == a[i] && c[j] == b[j - |a|];
      } else {
        assert c[i] == b[i - |a|] && c[j] == b[j - |a|];
      }
    }
  }

  /** A sequence increasing under an irreflexive relation has no duplicates. */
  lemma IncreasingNoDup<T>(less: (T, T) -> bool, xs: seq<T>)
    requires Increasing(less, xs)
    requires forall i :: 0 <= i < |xs| ==> !less(xs[i], xs[i])
    ensures NoDup(xs)
  {
    forall i, j | 0 <= i < j < |xs|
      ensures xs[i] != xs[j]
    {
      assert less(xs[i], xs[j]) && !less(xs[j], xs[j]);
    }
  }

  /** On a duplicate-free sequence, removing the first `y` is filtering `y` out. */
  lemma {:induction false} RemoveFirstIsFilter<T(!new)>(xs: seq<T>, y: T)
    requires y in xs && NoDup(xs)
    ensures RemoveFirst(xs, y) == Filter(AllBut(y), xs)
  {
    NoDupTail(xs);
    if xs[0] == y {
      FilterExt(AllBut(y), x => true, xs[1..]);
      FilterAll(xs[1..]);
    } else {
      RemoveFirstIsFilter(xs[1..], y);
    }
  }

  /** Filtering by the always-true predicate keeps everything. */
  lemma {:induction false} FilterAll<T(!new)>(xs: seq<T>)
    ensures Filter(x => true, xs) == xs
  {
    if |xs| > 0 {
      FilterAll(xs[1..]);
    }
  }

  /** One step of the marking scan: the next element is never already marked. */
  lemma MarkStep<T(!new)>(xs: seq<T>, keep: T -> bool, i: nat)
    requires NoDup(xs) && i < |xs|
    ensures xs[i] !in Filter(Not(keep), xs[..i])
    ensures Filter(Not(keep), xs[..i + 1])
         == Filter(Not(keep), xs[..i]) + (if keep(xs[i]) then [] else [xs[i]])
  {
    PrefixSnoc(xs, i);
    FilterConcat(Not(keep), xs[..i], [xs[i]]);
    assert Filter(Not(keep), [xs[i]]) == (if keep(xs[i]) then [] else [xs[i]]) by {
      assert [xs[i]][1..] == [];
    }
    forall j | 0 <= j < i
      ensures xs[..i][j] != xs[i]
    {
      assert xs[..i][j] == xs[j];
    }
  }

  /** In a duplicate-free sequence, an element does not occur before its position. */
  lemma NotBefore<T>(xs: seq<T>, k: nat)
    requires NoDup(xs) && k < |xs|
    ensures xs[k] !in xs[..k]
  {
    forall i | 0 <= i < k
      ensures xs[..k][i] != xs[k]
    {
      assert xs[..k][i] == xs[i];
    }
  }

  /** Excluding `before` and then `m` is excluding `before + [m]`. */
  lemma OutsideSnoc<T(!new)>(xs: seq<T>, before: seq<T>, m: T)
    ensures Filter(And(Outside(before), AllBut(m)), xs) == Filter(Outside(before + [m]), xs)
  {
    FilterExt(And(Outside(before), AllBut(m)), Outside(before + [m]), xs);
  }

  /** One step of the removal pass: removing the next marked element `m`. */
  lemma RemoveNext<T(!new)>(xs: seq<T>, before: seq<T>, m: T)
    requires NoDup(xs) && m in xs && m !in before
    ensures m in Filter(Outside(before), xs)
    ensures RemoveFirst(Filter(Outside(before), xs), m) == Filter(Outside(before + [m]), xs)
  {
    var r := Filter(Outside(before), xs);
    FilterNoDup(Outside(before), xs);
    RemoveFirstIsFilter(r, m);
    FilterFilter(Outside(before), AllBut(m), xs);
    OutsideSnoc(xs, before, m);
  }

  /** Removing nothing leaves the sequence as it is. */
  lemma RemovalStart<T(!new)>(xs: seq<T>, marked: seq<T>)
    ensures Filter(Outside(marked[..0]), xs) == xs
  {
    FilterExt(Outside(marked[..0]), x => true, xs);
    FilterAll(xs);
  }

  /**
   The marking pass: scan `xs` collecting every element that `keep` rejects,
   skipping one already collected. On duplicate-free input the collected
   list is the order-preserving filter by the negation of `keep`; the
   "already collected" test never fires there (`MarkStep`), so passes that
   omit it behave the same.
   */
  method Mark<T(==,!new)>(xs: seq<T>, keep: T -> bool) returns (marked: seq<T>)
    requires NoDup(xs)
    ensures marked == Filter(Not(keep), xs)
  {
    marked := [];
    for i := 0 to |xs|
      invariant marked == Filter(Not(keep), xs[..i])
    {
      MarkStep(xs, keep, i);
      if !keep(xs[i]) && xs[i] !in marked {
        marked := marked + [xs[i]];
      }
    }
    PrefixAll(xs);
  }

  /**
   The removal pass: `list.remove` each element of `marked` in turn. When
   both lists are duplicate-free and every marked element occurs in `xs`,
   this leaves exactly the elements of `xs` outside `marked`, in order.
   */
  method RemoveAll<T(==,!new)>(xs: seq<T>, marked: seq<T>) returns (r: seq<T>)
    requires NoDup(xs) && NoDup(marked)
    requires forall m :: m in marked ==> m in xs
    ensures r == Filter(Outside(marked), xs)
  {
    r := xs;
    RemovalStart(xs, marked);
    for k := 0 to |marked|
      invariant r == Filter(Outside(marked[..k]), xs)
    {
      assert marked[k] in marked;
      NotBefore(marked, k);
      RemoveNext(xs, marked[..k], marked[k]);
      PrefixSnoc(marked, k);
      r := RemoveFirst(r, marked[k]);
    }
    PrefixAll(marked);
  }

  /**
   The engine's two-pass pruning: collect the rejects, then remove each one.
   On duplicate-free input this is exactly the order-preserving filter by
   `keep`.
   */
  method MarkThenRemove<T(==,!new)>(xs: seq<T>, keep: T -> bool) returns (r: seq<T>)
    requires NoDup(xs)
    ensures r == Filter(keep, xs)
  {
    var marked := Mark(xs, keep);
    FilterNoDup(Not(keep), xs);
    r := RemoveAll(xs, marked);
    FilterExt(Outside(marked), keep, xs);
  }
}
