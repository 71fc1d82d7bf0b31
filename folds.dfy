/** `Array.prototype.map`, `filter` and `findIndex`, and summation over
    sequences, with the facts that mapping and summing respect permutations
    (a sorted copy has the same mapped elements and the same sums as the
    original) and that filtering keeps the order of what it keeps. */
module Folds {

  /** `s.map(f)`. */
  function MapSeq<A, B>(s: seq<A>, f: A -> B): (r: seq<B>)
    ensures |r| == |s|
    ensures forall i :: 0 <= i < |s| ==> r[i] == f(s[i])
  {
    seq(|s|, i requires 0 <= i < |s| => f(s[i]))
  }

  /** The sum of `w` over the elements of `s`. */
  function SumBy<T>(s: seq<T>, w: T -> nat): nat
  {
    if |s| == 0 then 0 else SumBy(s[..|s| - 1], w) + w(s[|s| - 1])
  }

  lemma {:induction false} SumByAppend<T>(a: seq<T>, b: seq<T>, w: T -> nat)
    ensures SumBy(a + b, w) == SumBy(a, w) + SumBy(b, w)
    decreases |b|
  {
    if |b| == 0 {
      assert a + b == a;
    } else {
      assert (a + b)[..|a + b| - 1] == a + b[..|b| - 1];
      SumByAppend(a, b[..|b| - 1], w);
    }
  }

  lemma SplitAt<T>(b: seq<T>, k: nat)
    requires k < |b|
    ensures b == b[..k] + [b[k]] + b[k + 1..]
    ensures multiset(b[..k] + b[k + 1..]) == multiset(b) - multiset{b[k]}
  {
    assert b == b[..k] + [b[k]] + b[k + 1..];
  }

  /** Where `x` sits in `b`, when `b` is a permutation of `rest + [x]`. */
  lemma IndexOf<T>(b: seq<T>, x: T, rest: multiset<T>) returns (k: nat)
    requires multiset(b) == rest + multiset{x}
    ensures k < |b| && b[k] == x
    ensures multiset(b[..k] + b[k + 1..]) == rest
  {
    assert x in multiset(b);
    assert x in b;
    k :| 0 <= k < |b| && b[k] == x;
    SplitAt(b, k);
  }

  /** Sums do not depend on the order of the elements. */
  lemma {:induction false} SumByPermutation<T>(a: seq<T>, b: seq<T>, w: T -> nat)
    requires multiset(a) == multiset(b)
    ensures SumBy(a, w) == SumBy(b, w)
    decreases |a|
  {
    if |a| == 0 {
      assert |multiset(b)| == 0;
    } else {
      var a', x := a[..|a| - 1], a[|a| - 1];
      assert a == a' + [x];
      var k := IndexOf(b, x, multiset(a'));
      var b' := b[..k] + b[k + 1..];
      SumByPermutation(a', b', w);
      SumByAppend(b[..k], [x] + b[k + 1..], w);
      SumByAppend([x], b[k + 1..], w);
      SumByAppend(b[..k], b[k + 1..], w);
      assert b == b[..k] + ([x] + b[k + 1..]);
      assert SumBy([x], w) == w(x) by {
        assert [x][..0] == [];
      }
    }
  }

  /** Mapping a permutation gives a permutation of the mapped elements. */
  lemma {:induction false} MapSeqPermutation<A, B>(a: seq<A>, b: seq<A>, f: A -> B)
    requires multiset(a) == multiset(b)
    ensures multiset(MapSeq(a, f)) == multiset(MapSeq(b, f))
    decreases |a|
  {
    if |a| == 0 {
      assert |multiset(b)| == 0;
      assert MapSeq(a, f) == [] && MapSeq(b, f) == [];
    } else {
      var a', x := a[..|a| - 1], a[|a| - 1];
      assert a == a' + [x];
      var k := IndexOf(b, x, multiset(a'));
      var b' := b[..k] + b[k + 1..];
      MapSeqPermutation(a', b', f);
      MapSeqSplit(b, k, f);
      MapSeqSplit(a, |a| - 1, f);
      assert a[..|a| - 1] + a[|a| - 1 + 1..] == a';
    }
  }

  /** Taking out element `k` takes its image out of the mapped multiset. */
  lemma MapSeqSplit<A, B>(b: seq<A>, k: nat, f: A -> B)
    requires k < |b|
    ensures multiset(MapSeq(b, f)) == multiset(MapSeq(b[..k] + b[k + 1..], f)) + multiset{f(b[k])}
  {
    var l, x, r := b[..k], b[k], b[k + 1..];
    assert b == l + ([x] + r);
    MapSeqAppend(l, [x] + r, f);
    MapSeqAppend([x], r, f);
    MapSeqAppend(l, r, f);
    var fl, fx, fr := MapSeq(l, f), MapSeq([x], f), MapSeq(r, f);
    assert fx == [f(x)];
    assert MapSeq(b, f) == fl + (fx + fr);
    assert multiset(MapSeq(b, f)) == multiset(fl) + multiset(fx) + multiset(fr);
  }

  lemma MapSeqAppend<A, B>(a: seq<A>, b: seq<A>, f: A -> B)
    ensures MapSeq(a + b, f) == MapSeq(a, f) + MapSeq(b, f)
  {
    var l, r := MapSeq(a + b, f), MapSeq(a, f) + MapSeq(b, f);
    assert |l| == |r|;
    forall i | 0 <= i < |l|
      ensures l[i] == r[i]
    {
      if i < |a| {
        assert (a + b)[i] == a[i];
      } else {
        assert (a + b)[i] == b[i - |a|];
      }
    }
  }

  /** No element occurs twice. */
  ghost predicate Distinct<T>(s: seq<T>)
  {
    forall i, j :: 0 <= i < j < |s| ==> s[i] != s[j]
  }

  lemma {:induction false} DistinctMultiplicity<T>(s: seq<T>, x: T)
    requires Distinct(s)
    ensures multiset(s)[x] <= 1
    decreases |s|
  {
    if |s| > 0 {
      var s', y := s[..|s| - 1], s[|s| - 1];
      assert s == s' + [y];
      assert Distinct(s');
      assert y !in s';
      DistinctMultiplicity(s', x);
    }
  }

  lemma RepeatMultiplicity<T>(s: seq<T>, i: nat, j: nat)
    requires i < j < |s|
    ensures s[i] == s[j] ==> multiset(s)[s[i]] >= 2
  {
    assert s == s[..j] + [s[j]] + s[j + 1..];
    assert s[i] in s[..j];
  }

  /** A permutation of a list without duplicates has none either. */
  lemma DistinctPermutation<T>(a: seq<T>, b: seq<T>)
    requires multiset(a) == multiset(b) && Distinct(a)
    ensures Distinct(b)
  {
    forall i, j | 0 <= i < j < |b|
      ensures b[i] != b[j]
    {
      RepeatMultiplicity(b, i, j);
      DistinctMultiplicity(a, b[i]);
    }
  }

  /** `s.filter(p)`. */
  function Filter<T>(s: seq<T>, p: T -> bool): (r: seq<T>)
    ensures |r| <= |s|
    ensures forall i :: 0 <= i < |r| ==> p(r[i])
  {
    if |s| == 0 then []
    else Filter(s[..|s| - 1], p) + (if p(s[|s| - 1]) then [s[|s| - 1]] else [])
  }

  /** Filtering a concatenation filters each part, in order: what is kept
      keeps its relative order. */
  lemma {:induction false} FilterAppend<T>(a: seq<T>, b: seq<T>, p: T -> bool)
    ensures Filter(a + b, p) == Filter(a, p) + Filter(b, p)
    decreases |b|
  {
    if |b| == 0 {
      assert a + b == a;
    } else {
      assert (a + b)[..|a + b| - 1] == a + b[..|b| - 1];
      FilterAppend(a, b[..|b| - 1], p);
    }
  }

  /** The filter keeps exactly the elements that pass. */
  lemma {:induction false} FilterMembers<T>(s: seq<T>, p: T -> bool, x: T)
    ensures x in Filter(s, p) <==> x in s && p(x)
    decreases |s|
  {
    if |s| > 0 {
      var init := s[..|s| - 1];
      assert s == init + [s[|s| - 1]];
      FilterMembers(init, p, x);
    }
  }

  /** A filter that every element passes changes nothing. */
  lemma {:induction false} FilterAll<T>(s: seq<T>, p: T -> bool)
    requires forall i :: 0 <= i < |s| ==> p(s[i])
    ensures Filter(s, p) == s
    decreases |s|
  {
    if |s| > 0 {
      FilterAll(s[..|s| - 1], p);
    }
  }

  /** `s.findIndex(p)`: the first position that passes, or -1. */
  function FindIndex<T>(s: seq<T>, p: T -> bool): (r: int)
    ensures -1 <= r < |s|
    ensures r >= 0 ==> p(s[r]) && forall k :: 0 <= k < r ==> !p(s[k])
    ensures r < 0 ==> forall k :: 0 <= k < |s| ==> !p(s[k])
  {
    if |s| == 0 then -1
    else if p(s[0]) then 0
    else
      var k := FindIndex(s[1..], p);
      assert forall j :: 1 <= j < |s| ==> s[j] == s[1..][j - 1];
      if k < 0 then -1 else k + 1
  }

  /** Replacing one element changes the sum by the difference. */
  lemma SumByUpdate<T>(s: seq<T>, i: nat, x: T, w: T -> nat)
    requires i < |s|
    ensures SumBy(s[i := x], w) + w(s[i]) == SumBy(s, w) + w(x)
  {
    var s' := s[i := x];
    SplitAt(s, i);
    SplitAt(s', i);
    assert s'[..i] == s[..i] && s'[i + 1..] == s[i + 1..];
    SumByAppend(s[..i] + [s[i]], s[i + 1..], w);
    SumByAppend(s[..i], [s[i]], w);
    SumByAppend(s[..i] + [x], s[i + 1..], w);
    SumByAppend(s[..i], [x], w);
    assert [s[i]][..0] == [] && [x][..0] == [];
  }

  /** Removing the element at `i` lowers the sum by its weight. */
  lemma SumByRemove<T>(s: seq<T>, i: nat, w: T -> nat)
    requires i < |s|
    ensures SumBy(s[..i] + s[i + 1..], w) + w(s[i]) == SumBy(s, w)
  {
    SplitAt(s, i);
    SumByAppend(s[..i] + [s[i]], s[i + 1..], w);
    SumByAppend(s[..i], [s[i]], w);
    SumByAppend(s[..i], s[i + 1..], w);
    assert [s[i]][..0] == [];
  }
}
