/** A stable sort by a comparator, the behaviour JavaScript guarantees for
    `Array.prototype.sort` (ECMAScript 2019 and later): elements the comparator
    cannot tell apart keep their relative order.

    The comparator is given as `before(a, b)`: "a must come strictly before b",
    i.e. the source's `compare(a, b) < 0`. It must be a strict weak order. */
module Sorting {

  /** `before` is irreflexive, transitive, and incomparability is transitive
      (stated here in its contrapositive form). */
  ghost predicate StrictWeakOrder<T(!new)>(before: (T, T) -> bool)
  {
    && (forall x :: !before(x, x))
    && (forall x, y, z :: before(x, y) && before(y, z) ==> before(x, z))
    && (forall x, y, z :: before(x, z) ==> before(x, y) || before(y, z))
  }

  /** Neither element must come before the other: the comparator returns 0. */
  predicate Tied<T>(before: (T, T) -> bool, x: T, y: T)
  {
    !before(x, y) && !before(y, x)
  }

  /** No later element must come before an earlier one. */
  predicate SortedBy<T>(s: seq<T>, before: (T, T) -> bool)
  {
    forall i, j :: 0 <= i < j < |s| ==> !before(s[j], s[i])
  }

  /** The elements of `s` tied with `y`, in their order in `s`. */
  function TiesWith<T>(s: seq<T>, before: (T, T) -> bool, y: T): seq<T>
  {
    if |s| == 0 then []
    else (if Tied(before, s[0], y) then [s[0]] else []) + TiesWith(s[1..], before, y)
  }

  /** Insert `x` after every element that need not come after it. */
  function Insert<T>(s: seq<T>, x: T, before: (T, T) -> bool): (r: seq<T>)
    ensures |r| == |s| + 1
    ensures multiset(r) == multiset(s) + multiset{x}
  {
    if |s| == 0 then [x]
    else if before(x, s[0]) then [x] + s
    else
      assert s == [s[0]] + s[1..];
      [s[0]] + Insert(s[1..], x, before)
  }

  /** Stable insertion sort: the result is ordered by `before`, is a
      permutation of `s`, and every class of tied elements appears in the
      order it has in `s`. */
  function Sort<T(!new)>(s: seq<T>, before: (T, T) -> bool): (r: seq<T>)
    requires StrictWeakOrder(before)
    ensures |r| == |s|
    ensures multiset(r) == multiset(s)
    ensures SortedBy(r, before)
    ensures forall y :: TiesWith(r, before, y) == TiesWith(s, before, y)
    decreases |s|
  {
    if |s| == 0 then []
    else
      var init, x := s[..|s| - 1], s[|s| - 1];
      assert s == init + [x];
      var sortedInit := Sort(init, before);
      InsertSorted(sortedInit, x, before);
      InsertKeepsTies(init, sortedInit, x, before);
      Insert(sortedInit, x, before)
  }

  lemma {:induction false} TiesAppend<T>(a: seq<T>, b: seq<T>, before: (T, T) -> bool, y: T)
    ensures TiesWith(a + b, before, y) == TiesWith(a, before, y) + TiesWith(b, before, y)
    decreases |a|
  {
    if |a| == 0 {
      assert a + b == b;
    } else {
      var h := if Tied(before, a[0], y) then [a[0]] else [];
      assert (a + b)[0] == a[0];
      assert (a + b)[1..] == a[1..] + b;
      TiesAppend(a[1..], b, before, y);
      assert TiesWith(a + b, before, y) == h + (TiesWith(a[1..], before, y) + TiesWith(b, before, y));
      assert TiesWith(a, before, y) == h + TiesWith(a[1..], before, y);
    }
  }

  lemma {:induction false} NoTies<T>(s: seq<T>, before: (T, T) -> bool, y: T)
    requires forall k :: 0 <= k < |s| ==> !Tied(before, s[k], y)
    ensures TiesWith(s, before, y) == []
    decreases |s|
  {
    if |s| > 0 {
      NoTies(s[1..], before, y);
    }
  }

  lemma {:induction false} InsertSorted<T(!new)>(s: seq<T>, x: T, before: (T, T) -> bool)
    requires StrictWeakOrder(before)
    requires SortedBy(s, before)
    ensures SortedBy(Insert(s, x, before), before)
    decreases |s|
  {
    if |s| == 0 {
    } else if before(x, s[0]) {
      forall j | 0 <= j < |s|
        ensures !before(s[j], x)
      {
        assert j == 0 || !before(s[j], s[0]);
      }
      ConsSorted(x, s, before);
      assert [x] + s == Insert(s, x, before);
    } else {
      var tail := Insert(s[1..], x, before);
      SortedTail(s, before);
      InsertSorted(s[1..], x, before);
      InsertAfterHead(s, x, before);
      ConsSorted(s[0], tail, before);
      assert [s[0]] + tail == Insert(s, x, before);
    }
  }

  /** A sorted list stays sorted under a head nothing in it must precede. */
  lemma ConsSorted<T>(h: T, t: seq<T>, before: (T, T) -> bool)
    requires SortedBy(t, before)
    requires forall j :: 0 <= j < |t| ==> !before(t[j], h)
    ensures SortedBy([h] + t, before)
  {
    var r := [h] + t;
    forall i, j | 0 <= i < j < |r|
      ensures !before(r[j], r[i])
    {
      assert r[j] == t[j - 1];
      if i > 0 {
        assert r[i] == t[i - 1];
      }
    }
  }

  /** Inserting behind the head of a sorted list puts nothing before it. */
  lemma InsertAfterHead<T>(s: seq<T>, x: T, before: (T, T) -> bool)
    requires SortedBy(s, before)
    requires |s| > 0 && !before(x, s[0])
    ensures forall j :: 0 <= j < |Insert(s[1..], x, before)| ==> !before(Insert(s[1..], x, before)[j], s[0])
  {
    var tail := Insert(s[1..], x, before);
    forall j | 0 <= j < |tail|
      ensures !before(tail[j], s[0])
    {
      var z := tail[j];
      assert z in multiset(tail);
      assert z == x || z in multiset(s[1..]);
      if z != x {
        assert z in s[1..];
        var k :| 0 <= k < |s[1..]| && s[1..][k] == z;
        assert s[k + 1] == z;
      }
    }
  }

  lemma SortedTail<T>(s: seq<T>, before: (T, T) -> bool)
    requires |s| > 0 && SortedBy(s, before)
    ensures SortedBy(s[1..], before)
  {
    forall i, j | 0 <= i < j < |s[1..]|
      ensures !before(s[1..][j], s[1..][i])
    {
      assert s[1..][j] == s[j + 1] && s[1..][i] == s[i + 1];
    }
  }

  /** Everything in a sorted list headed by an element after `x` is after
      every element tied with `x`, so none of it is tied with `y`. */
  lemma AfterHeadNoTies<T(!new)>(s: seq<T>, x: T, before: (T, T) -> bool, y: T)
    requires StrictWeakOrder(before)
    requires SortedBy(s, before)
    requires |s| > 0 && before(x, s[0]) && Tied(before, x, y)
    ensures TiesWith(s, before, y) == []
  {
    forall k | 0 <= k < |s|
      ensures !Tied(before, s[k], y)
    {
      assert k == 0 || !before(s[k], s[0]);
      assert before(x, s[k]);
      assert before(y, s[k]);
    }
    NoTies(s, before, y);
  }

  /** Inserting into a sorted list adds `x` at the end of its own tie class. */
  lemma {:induction false} InsertTies<T(!new)>(s: seq<T>, x: T, before: (T, T) -> bool, y: T)
    requires StrictWeakOrder(before)
    requires SortedBy(s, before)
    ensures TiesWith(Insert(s, x, before), before, y)
         == TiesWith(s, before, y) + (if Tied(before, x, y) then [x] else [])
    decreases |s|
  {
    if |s| == 0 {
    } else if before(x, s[0]) {
      InsertTiesHead(s, x, before, y);
    } else {
      var rest := Insert(s[1..], x, before);
      var r := [s[0]] + rest;
      assert r == Insert(s, x, before);
      assert r[1..] == rest;
      var head := if Tied(before, s[0], y) then [s[0]] else [];
      assert TiesWith(r, before, y) == head + TiesWith(rest, before, y);
      assert TiesWith(s, before, y) == head + TiesWith(s[1..], before, y);
      SortedTail(s, before);
      InsertTies(s[1..], x, before, y);
    }
  }

  lemma InsertTiesHead<T(!new)>(s: seq<T>, x: T, before: (T, T) -> bool, y: T)
    requires StrictWeakOrder(before)
    requires SortedBy(s, before)
    requires |s| > 0 && before(x, s[0])
    ensures TiesWith(Insert(s, x, before), before, y)
         == TiesWith(s, before, y) + (if Tied(before, x, y) then [x] else [])
  {
    var r := [x] + s;
    assert r == Insert(s, x, before);
    assert r[1..] == s;
    if Tied(before, x, y) {
      AfterHeadNoTies(s, x, before, y);
    }
  }

  lemma InsertKeepsTies<T(!new)>(init: seq<T>, sortedInit: seq<T>, x: T, before: (T, T) -> bool)
    requires StrictWeakOrder(before)
    requires SortedBy(sortedInit, before)
    requires forall y :: TiesWith(sortedInit, before, y) == TiesWith(init, before, y)
    ensures forall y :: TiesWith(Insert(sortedInit, x, before), before, y) == TiesWith(init + [x], before, y)
  {
    forall y
      ensures TiesWith(Insert(sortedInit, x, before), before, y) == TiesWith(init + [x], before, y)
    {
      InsertTies(sortedInit, x, before, y);
      TiesAppend(init, [x], before, y);
      assert TiesWith([x], before, y) == (if Tied(before, x, y) then [x] else []) by {
        assert [x][1..] == [];
      }
    }
  }

  /** `x` occurs in `s` somewhere before `z`. */
  ghost predicate Precedes<T>(s: seq<T>, x: T, z: T)
  {
    exists p, q :: 0 <= p < q < |s| && s[p] == x && s[q] == z
  }

  lemma PrecedesCons<T>(h: T, t: seq<T>, x: T, z: T)
    ensures Precedes([h] + t, x, z) <==> (h == x && z in t) || Precedes(t, x, z)
  {
    var s := [h] + t;
    if Precedes(s, x, z) {
      var p, q :| 0 <= p < q < |s| && s[p] == x && s[q] == z;
      assert s[q] == t[q - 1];
      if p > 0 {
        assert s[p] == t[p - 1];
      }
    }
    if h == x && z in t {
      var q :| 0 <= q < |t| && t[q] == z;
      assert s[0] == x && s[q + 1] == z;
    }
    if Precedes(t, x, z) {
      var p, q :| 0 <= p < q < |t| && t[p] == x && t[q] == z;
      assert s[p + 1] == x && s[q + 1] == z;
    }
  }

  lemma {:induction false} TiesMember<T>(s: seq<T>, before: (T, T) -> bool, y: T, z: T)
    ensures z in TiesWith(s, before, y) <==> z in s && Tied(before, z, y)
    decreases |s|
  {
    if |s| > 0 {
      assert s == [s[0]] + s[1..];
      TiesMember(s[1..], before, y, z);
    }
  }

  /** Two elements tied with `y` occur in the same order in `s` and among
      the elements of `s` tied with `y`. */
  lemma {:induction false} TiesPrecedes<T>(s: seq<T>, before: (T, T) -> bool, y: T, x: T, z: T)
    requires Tied(before, x, y) && Tied(before, z, y)
    ensures Precedes(TiesWith(s, before, y), x, z) <==> Precedes(s, x, z)
    decreases |s|
  {
    if |s| > 0 {
      var h, t := s[0], s[1..];
      assert s == [h] + t;
      TiesPrecedes(t, before, y, x, z);
      TiesMember(t, before, y, z);
      PrecedesCons(h, t, x, z);
      if Tied(before, h, y) {
        assert TiesWith(s, before, y) == [h] + TiesWith(t, before, y);
        PrecedesCons(h, TiesWith(t, before, y), x, z);
      } else {
        assert TiesWith(s, before, y) == TiesWith(t, before, y);
      }
    }
  }

  /** What stability means for two positions of a sorted copy `r` of `s`:
      tied elements keep the order they have in `s`. */
  lemma StableOrder<T>(s: seq<T>, r: seq<T>, before: (T, T) -> bool, i: nat, j: nat)
    requires forall y :: TiesWith(r, before, y) == TiesWith(s, before, y)
    requires i < j < |r| && Tied(before, r[i], r[j]) && !before(r[i], r[i])
    ensures Precedes(s, r[i], r[j])
  {
    var y := r[i];
    TiesPrecedes(r, before, y, r[i], r[j]);
    TiesPrecedes(s, before, y, r[i], r[j]);
  }
}
