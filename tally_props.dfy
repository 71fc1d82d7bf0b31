/** The grouping map of calculateDeckStats and calculateMatchupStats: which
    keys it holds, what it counts under each key, how many matches it counts
    in all, and the order in which its keys were first seen. */
module TallyProperties {
  import opened Types
  import opened StatsSpec

  /** Some match of `ms` is filed under `k`. */
  ghost predicate Occurs(ms: seq<Match>, side: Side, k: string)
  {
    exists i :: 0 <= i < |ms| && GroupKey(ms[i], side) == Some(k)
  }

  /** How many matches of `ms` are filed under `k` with the given outcome. */
  function CountKeyed(ms: seq<Match>, side: Side, k: string, won: bool): nat
  {
    if |ms| == 0 then 0
    else
      var m := ms[|ms| - 1];
      CountKeyed(ms[..|ms| - 1], side, k, won)
        + (if GroupKey(m, side) == Some(k) && CalculateMatchResult(m).won == won then 1 else 0)
  }

  /** How many matches of `ms` are filed under some key. */
  function CountGrouped(ms: seq<Match>, side: Side): nat
  {
    if |ms| == 0 then 0
    else CountGrouped(ms[..|ms| - 1], side) + (if GroupKey(ms[|ms| - 1], side).Some? then 1 else 0)
  }

  lemma OccursSnoc(ms: seq<Match>, m: Match, side: Side, k: string)
    ensures Occurs(ms + [m], side, k) <==> Occurs(ms, side, k) || GroupKey(m, side) == Some(k)
  {
    var ms' := ms + [m];
    if Occurs(ms, side, k) {
      var i :| 0 <= i < |ms| && GroupKey(ms[i], side) == Some(k);
      assert ms'[i] == ms[i];
    }
    if GroupKey(m, side) == Some(k) {
      assert ms'[|ms|] == m;
    }
    if Occurs(ms', side, k) {
      var i :| 0 <= i < |ms'| && GroupKey(ms'[i], side) == Some(k);
      assert i < |ms| ==> ms'[i] == ms[i];
    }
  }

  /** A key no match is filed under counts nothing. */
  lemma {:induction false} CountKeyedAbsent(ms: seq<Match>, side: Side, k: string, won: bool)
    ensures !Occurs(ms, side, k) ==> CountKeyed(ms, side, k, won) == 0
    decreases |ms|
  {
    if |ms| > 0 {
      var init, m := ms[..|ms| - 1], ms[|ms| - 1];
      assert ms == init + [m];
      OccursSnoc(init, m, side, k);
      CountKeyedAbsent(init, side, k, won);
    }
  }

  /** A key some match is filed under counts that match as a win or a loss. */
  lemma {:induction false} CountKeyedPositive(ms: seq<Match>, side: Side, k: string)
    ensures Occurs(ms, side, k) ==> CountKeyed(ms, side, k, true) + CountKeyed(ms, side, k, false) > 0
    decreases |ms|
  {
    if |ms| > 0 {
      var init, m := ms[..|ms| - 1], ms[|ms| - 1];
      assert ms == init + [m];
      OccursSnoc(init, m, side, k);
      CountKeyedPositive(init, side, k);
    }
  }

  /** Some match filed under `k1` comes before every match filed under `k2`. */
  ghost predicate SeenFirst(ms: seq<Match>, side: Side, k1: string, k2: string)
  {
    exists a :: 0 <= a < |ms| && GroupKey(ms[a], side) == Some(k1) &&
      forall b :: 0 <= b <= a ==> GroupKey(ms[b], side) != Some(k2)
  }

  lemma FirstIndexSeenFirst(ms: seq<Match>, side: Side, k1: string, k2: string)
    requires FirstIndex(ms, side, k1) < FirstIndex(ms, side, k2)
    ensures SeenFirst(ms, side, k1, k2)
  {
    var a := FirstIndex(ms, side, k1);
    assert GroupKey(ms[a], side) == Some(k1);
  }

  /** The map holds exactly the keys some match is filed under, and under
      each key the wins and losses of exactly those matches. */
  lemma TallyCounts(ms: seq<Match>, side: Side, k: string)
    ensures k in TallyOf(ms, side).counts <==> Occurs(ms, side, k)
    ensures k in TallyOf(ms, side).counts ==>
      TallyOf(ms, side).counts[k] == WinLoss(CountKeyed(ms, side, k, true), CountKeyed(ms, side, k, false))
  {
    TallyKeys(ms, side, k);
    TallyEntry(ms, side, k);
  }

  lemma {:induction false} TallyKeys(ms: seq<Match>, side: Side, k: string)
    ensures k in TallyOf(ms, side).counts <==> Occurs(ms, side, k)
    decreases |ms|
  {
    if |ms| > 0 {
      var init, m := ms[..|ms| - 1], ms[|ms| - 1];
      assert ms == init + [m];
      TallyKeys(init, side, k);
      OccursSnoc(init, m, side, k);
      TallyOfSnoc(init, m, side);
      if GroupKey(m, side).Some? {
        RecordEntry(TallyOf(init, side), GroupKey(m, side).value, CalculateMatchResult(m).won, k);
      }
    }
  }

  /** The entry of `k` counts the wins and losses filed under `k`; without
      an entry there are none. */
  lemma {:induction false} TallyEntry(ms: seq<Match>, side: Side, k: string)
    ensures k in TallyOf(ms, side).counts ==>
      TallyOf(ms, side).counts[k] == WinLoss(CountKeyed(ms, side, k, true), CountKeyed(ms, side, k, false))
    ensures k !in TallyOf(ms, side).counts ==>
      CountKeyed(ms, side, k, true) == 0 && CountKeyed(ms, side, k, false) == 0
    decreases |ms|
  {
    if |ms| > 0 {
      var init, m := ms[..|ms| - 1], ms[|ms| - 1];
      TallyEntry(init, side, k);
      assert TallyOf(ms, side) == Step(TallyOf(init, side), m, side);
      var won := CalculateMatchResult(m).won;
      var hit := GroupKey(m, side) == Some(k);
      assert CountKeyed(ms, side, k, true) == CountKeyed(init, side, k, true) + (if hit && won then 1 else 0);
      assert CountKeyed(ms, side, k, false) == CountKeyed(init, side, k, false) + (if hit && !won then 1 else 0);
      if GroupKey(m, side).Some? {
        RecordEntry(TallyOf(init, side), GroupKey(m, side).value, won, k);
      }
    }
  }

  /** The map lists exactly the keys some match is filed under. */
  lemma ListedOccurs(ms: seq<Match>, side: Side, k: string)
    ensures k in TallyOf(ms, side).order <==> Occurs(ms, side, k)
  {
    TallyCounts(ms, side, k);
  }

  /** The entry of `k` after one match is recorded under `key`. */
  lemma RecordEntry(t: Tally, key: string, won: bool, k: string)
    ensures var c := Record(t, key, won).counts;
      var cur := if k in t.counts then t.counts[k] else WinLoss(0, 0);
      && (k in c <==> k in t.counts || k == key)
      && (k == key ==> c[k] == WinLoss(cur.wins + (if won then 1 else 0), cur.losses + (if won then 0 else 1)))
      && (k != key && k in t.counts ==> c[k] == t.counts[k])
  {
  }

  /** Total wins plus losses over the keys in `order`. */
  function KeySum(order: seq<string>, counts: map<string, WinLoss>): nat
    requires forall k :: k in order ==> k in counts
  {
    if |order| == 0 then 0
    else
      var k := order[|order| - 1];
      KeySum(order[..|order| - 1], counts) + counts[k].wins + counts[k].losses
  }

  lemma {:induction false} KeySumFrame(order: seq<string>, c1: map<string, WinLoss>, c2: map<string, WinLoss>)
    requires forall k :: k in order ==> k in c1 && k in c2 && c1[k] == c2[k]
    ensures KeySum(order, c1) == KeySum(order, c2)
    decreases |order|
  {
    if |order| > 0 {
      KeySumFrame(order[..|order| - 1], c1, c2);
    }
  }

  /** Changing the entry of a key listed once changes the sum by the difference. */
  lemma {:induction false} KeySumBump(order: seq<string>, c: map<string, WinLoss>, k: string, v: WinLoss)
    requires forall key :: key in order ==> key in c
    requires forall i, j :: 0 <= i < j < |order| ==> order[i] != order[j]
    requires k in order
    ensures KeySum(order, c[k := v]) + c[k].wins + c[k].losses == KeySum(order, c) + v.wins + v.losses
    decreases |order|
  {
    var init, last := order[..|order| - 1], order[|order| - 1];
    assert order == init + [last];
    if last == k {
      assert k !in init;
      KeySumFrame(init, c[k := v], c);
    } else {
      assert k in init;
      KeySumBump(init, c, k, v);
    }
  }

  lemma KeySumSnoc(order: seq<string>, counts: map<string, WinLoss>, k: string)
    requires forall key :: key in order + [k] ==> key in counts
    ensures KeySum(order + [k], counts) == KeySum(order, counts) + counts[k].wins + counts[k].losses
  {
    assert (order + [k])[..|order|] == order;
  }

  /** Over all keys, the map counts every match that is filed under a key once. */
  lemma {:induction false} TallyTotal(ms: seq<Match>, side: Side)
    ensures KeySum(TallyOf(ms, side).order, TallyOf(ms, side).counts) == CountGrouped(ms, side)
    decreases |ms|
  {
    if |ms| > 0 {
      var init, m := ms[..|ms| - 1], ms[|ms| - 1];
      assert ms == init + [m];
      TallyTotal(init, side);
      TallyOfSnoc(init, m, side);
      match GroupKey(m, side)
      case None =>
      case Some(k) =>
        RecordTotal(TallyOf(init, side), k, CalculateMatchResult(m).won);
    }
  }

  /** Recording one match adds one to the total over all keys. */
  lemma RecordTotal(t: Tally, k: string, won: bool)
    requires TallyValid(t)
    ensures var t' := Record(t, k, won);
      (forall key :: key in t'.order ==> key in t'.counts) &&
      KeySum(t'.order, t'.counts) == KeySum(t.order, t.counts) + 1
  {
    var t' := Record(t, k, won);
    if k in t.counts {
      KeySumBump(t.order, t.counts, k, t'.counts[k]);
    } else {
      KeySumFrame(t.order, t'.counts, t.counts);
      KeySumSnoc(t.order, t'.counts, k);
    }
  }

  /** Matches grouped by their own deck: every match is filed. */
  lemma {:induction false} OwnDeckGroupsAll(ms: seq<Match>)
    ensures CountGrouped(ms, OwnDeck) == |ms|
    decreases |ms|
  {
    if |ms| > 0 {
      OwnDeckGroupsAll(ms[..|ms| - 1]);
    }
  }

  /** The index of the first match filed under `k`, or `|ms|` when none is. */
  ghost function FirstIndex(ms: seq<Match>, side: Side, k: string): (r: nat)
    ensures r <= |ms|
    ensures r < |ms| <==> Occurs(ms, side, k)
    ensures r < |ms| ==> GroupKey(ms[r], side) == Some(k)
    ensures forall q :: 0 <= q < r ==> GroupKey(ms[q], side) != Some(k)
    decreases |ms|
  {
    if |ms| == 0 then 0
    else
      var init, m := ms[..|ms| - 1], ms[|ms| - 1];
      var p := FirstIndex(init, side, k);
      OccursSnoc(init, m, side, k);
      assert ms == init + [m];
      assert forall q :: 0 <= q < |init| ==> ms[q] == init[q];
      if p < |init| then p
      else if GroupKey(m, side) == Some(k) then |init|
      else |ms|
  }

  /** The map lists its keys in the order in which they were first seen:
      each key is that of some match, and an earlier key's first match comes
      before a later key's. */
  lemma {:induction false} TallyOrderFirstSeen(ms: seq<Match>, side: Side)
    ensures var order := TallyOf(ms, side).order;
      forall i, j :: 0 <= i < j < |order| ==>
        FirstIndex(ms, side, order[i]) < FirstIndex(ms, side, order[j]) < |ms|
    decreases |ms|, 1
  {
    var order := TallyOf(ms, side).order;
    forall i, j | 0 <= i < j < |order|
      ensures FirstIndex(ms, side, order[i]) < FirstIndex(ms, side, order[j]) < |ms|
    {
      OrderPair(ms, side, i, j);
    }
  }

  /** Two listed keys are in first-seen order: a key already in the map
      without the last match keeps its first index, and a key the last match
      adds is first seen there. */
  lemma OrderPair(ms: seq<Match>, side: Side, i: nat, j: nat)
    requires i < j < |TallyOf(ms, side).order|
    ensures var order := TallyOf(ms, side).order;
      FirstIndex(ms, side, order[i]) < FirstIndex(ms, side, order[j]) < |ms|
    decreases |ms|, 0
  {
    var init, m := ms[..|ms| - 1], ms[|ms| - 1];
    var t := TallyOf(init, side);
    assert TallyOf(ms, side) == Step(t, m, side);
    var order := TallyOf(ms, side).order;
    assert |t.order| <= |order| && forall q :: 0 <= q < |t.order| ==> order[q] == t.order[q];
    var a, b := order[i], order[j];
    assert a == t.order[i];
    ListedOccurs(init, side, a);
    assert FirstIndex(ms, side, a) == FirstIndex(init, side, a);
    if j < |t.order| {
      assert b == t.order[j];
      TallyOrderFirstSeen(init, side);
      ListedOccurs(init, side, b);
      assert FirstIndex(ms, side, b) == FirstIndex(init, side, b);
    } else {
      var k := GroupKey(m, side).value;
      assert b == k && k !in t.order;
      ListedOccurs(init, side, k);
      assert FirstIndex(ms, side, k) == |init|;
    }
  }

  lemma TallyOrderPair(ms: seq<Match>, side: Side, p: nat, q: nat)
    requires p < q < |TallyOf(ms, side).order|
    ensures var order := TallyOf(ms, side).order;
      FirstIndex(ms, side, order[p]) < FirstIndex(ms, side, order[q]) < |ms|
  {
    TallyOrderFirstSeen(ms, side);
  }
}
