/** Lexicographic order on strings, character by character.  This is the order
    JavaScript's default `Array.prototype.sort` uses for deck names, and the
    chronological order of ISO `YYYY-MM-DD` date strings. */
module StringOrder {
  import Sorting

  /** `a` sorts strictly before `b`. */
  predicate Less(a: string, b: string)
    decreases |a|
  {
    if |a| == 0 then |b| > 0
    else if |b| == 0 then false
    else if a[0] != b[0] then a[0] < b[0]
    else Less(a[1..], b[1..])
  }

  lemma {:induction false} LessIrreflexive(a: string)
    ensures !Less(a, a)
    decreases |a|
  {
    if |a| > 0 {
      LessIrreflexive(a[1..]);
    }
  }

  lemma {:induction false} LessTransitive(a: string, b: string, c: string)
    requires Less(a, b) && Less(b, c)
    ensures Less(a, c)
    decreases |a|
  {
    if |a| > 0 && a[0] == b[0] && b[0] == c[0] {
      LessTransitive(a[1..], b[1..], c[1..]);
    }
  }

  /** Any two different strings are ordered one way or the other. */
  lemma {:induction false} LessTotal(a: string, b: string)
    requires a != b
    ensures Less(a, b) || Less(b, a)
    decreases |a|
  {
    if |a| > 0 && |b| > 0 && a[0] == b[0] {
      assert a == [a[0]] + a[1..] && b == [b[0]] + b[1..];
      LessTotal(a[1..], b[1..]);
    }
  }

  lemma LessAsymmetric(a: string, b: string)
    requires Less(a, b)
    ensures !Less(b, a)
  {
    if Less(b, a) {
      LessTransitive(a, b, a);
      LessIrreflexive(a);
    }
  }

  /** Strings in strictly increasing order (hence free of duplicates). */
  predicate StrictlySorted(s: seq<string>)
  {
    forall i, j :: 0 <= i < j < |s| ==> Less(s[i], s[j])
  }

  /** Strings that agree before position `k` and differ there compare as
      their characters at `k`. */
  lemma {:induction false} LessAtFirstDifference(a: string, b: string, k: nat)
    requires k < |a| && k < |b| && a[..k] == b[..k] && a[k] < b[k]
    ensures Less(a, b)
    decreases k
  {
    if k > 0 {
      assert a[0] == a[..k][0] && b[0] == b[..k][0];
      assert a[1..][..k - 1] == a[..k][1..];
      assert b[1..][..k - 1] == b[..k][1..];
      LessAtFirstDifference(a[1..], b[1..], k - 1);
    }
  }

  /** `Less` is a strict weak order, so it can drive the stable sort. */
  lemma LessIsWeakOrder()
    ensures Sorting.StrictWeakOrder(Less)
  {
    forall x: string
      ensures !Less(x, x)
    {
      LessIrreflexive(x);
    }
    forall x: string, y: string, z: string | Less(x, y) && Less(y, z)
      ensures Less(x, z)
    {
      LessTransitive(x, y, z);
    }
    forall x: string, y: string, z: string | Less(x, z)
      ensures Less(x, y) || Less(y, z)
    {
      if y != x && y != z {
        LessTotal(x, y);
        if Less(y, x) {
          LessTransitive(y, x, z);
        }
      }
    }
  }

  /** A list sorted by `Less` without duplicates is strictly increasing. */
  lemma SortedDistinctIsStrict(s: seq<string>)
    requires Sorting.SortedBy(s, Less)
    requires forall i, j :: 0 <= i < j < |s| ==> s[i] != s[j]
    ensures StrictlySorted(s)
  {
    forall i, j | 0 <= i < j < |s|
      ensures Less(s[i], s[j])
    {
      LessTotal(s[i], s[j]);
    }
  }

  /** Two strictly sorted lists with the same members start alike. */
  lemma SameMembersSameHead(a: seq<string>, b: seq<string>)
    requires StrictlySorted(a) && StrictlySorted(b)
    requires forall x :: x in a <==> x in b
    requires |a| > 0
    ensures |b| > 0 && a[0] == b[0]
  {
    assert a[0] in a;
    var k :| 0 <= k < |b| && b[k] == a[0];
    assert b[0] in b;
    var m :| 0 <= m < |a| && a[m] == b[0];
    if k > 0 {
      assert Less(b[0], a[0]);
      if m > 0 {
        assert Less(a[0], b[0]);
        LessAsymmetric(a[0], b[0]);
      } else {
        LessIrreflexive(a[0]);
      }
      assert false;
    }
  }

  /** The head of a strictly sorted list occurs nowhere in its tail. */
  lemma HeadNotInTail(a: seq<string>, x: string)
    requires StrictlySorted(a) && |a| > 0
    ensures x in a[1..] <==> x in a && x != a[0]
  {
    if x in a[1..] {
      var p :| 0 <= p < |a| - 1 && a[1..][p] == x;
      assert Less(a[0], a[p + 1]);
      LessIrreflexive(a[0]);
    }
    if x in a && x != a[0] {
      var p :| 0 <= p < |a| && a[p] == x;
      assert a[1..][p - 1] == x;
    }
  }

  /** A set of strings has exactly one strictly increasing listing. */
  lemma {:induction false} StrictlySortedUnique(a: seq<string>, b: seq<string>)
    requires StrictlySorted(a) && StrictlySorted(b)
    requires forall x :: x in a <==> x in b
    ensures a == b
    decreases |a|
  {
    if |a| > 0 {
      SameMembersSameHead(a, b);
      var a', b' := a[1..], b[1..];
      forall x
        ensures x in a' <==> x in b'
      {
        HeadNotInTail(a, x);
        HeadNotInTail(b, x);
      }
      StrictlySortedUnique(a', b');
      assert a == [a[0]] + a' && b == [b[0]] + b';
    } else if |b| > 0 {
      SameMembersSameHead(b, a);
    }
  }
}
