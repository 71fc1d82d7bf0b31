/** Win rates as exact percentages.  The source computes `(wins / total) * 100`
    in floating point behind a `total > 0` guard, and some call sites round it
    with `Math.round`; here a rate is a fraction with a positive denominator and
    the rounded rate is computed in integers. */
module Rates {

  type Pos = n: nat | n > 0 witness 1

  /** The exact value `num / den`. */
  datatype Ratio = Ratio(num: nat, den: Pos)

  /** `a` is strictly larger than `b`, by cross-multiplication. */
  predicate Greater(a: Ratio, b: Ratio)
  {
    a.num * b.den > b.num * a.den
  }

  /** `total > 0 ? (wins / total) * 100 : 0`, as an exact fraction. */
  function Percent(wins: nat, total: nat): (r: Ratio)
  {
    if total > 0 then Ratio(100 * wins, total) else Ratio(0, 1)
  }

  /** `Math.round((wins / total) * 100)` behind the same zero guard: for
      non-negative x, `Math.round(x)` is `floor(x + 1/2)`. */
  function RoundedPercent(wins: nat, total: nat): (r: nat)
  {
    if total > 0 then (200 * wins + total) / (2 * total) else 0
  }

  /** An empty denominator gives rate 0, never a fault. */
  lemma PercentOfNothing(wins: nat)
    ensures Percent(wins, 0).num == 0 && RoundedPercent(wins, 0) == 0
  {
  }

  /** The exact rate is `100 * wins / total`, between 0 and 100 when the
      wins are part of the total. */
  lemma PercentValue(wins: nat, total: nat)
    requires 0 < total && wins <= total
    ensures Percent(wins, total).num * total == 100 * wins * Percent(wins, total).den
    ensures Percent(wins, total).num <= 100 * Percent(wins, total).den
  {
  }

  /** The rounded rate is the integer nearest to `100 * wins / total`, halves
      rounded up: `r - 1/2 <= 100 * wins / total < r + 1/2`. */
  lemma RoundedPercentNearest(wins: nat, total: nat)
    requires total > 0
    ensures var r := RoundedPercent(wins, total);
            2 * total * r <= 200 * wins + total < 2 * total * r + 2 * total
  {
    var d := 2 * total;
    var n := 200 * wins + total;
    var r := n / d;
    assert n == d * r + n % d;
    assert 0 <= n % d < d;
  }

  /** The rounded rate of a part of a total lies in 0..100. */
  lemma RoundedPercentBounded(wins: nat, total: nat)
    requires wins <= total
    ensures 0 <= RoundedPercent(wins, total) <= 100
  {
    if total > 0 {
      var r := RoundedPercent(wins, total);
      RoundedPercentNearest(wins, total);
      assert r * (2 * total) < 101 * (2 * total);
      MulCancelLt(r, 101, 2 * total);
    }
  }

  /** Two guarded rates compare as their cross-products `w1 * t2` and `w2 * t1`. */
  lemma PercentGreater(w1: nat, t1: nat, w2: nat, t2: nat)
    requires t1 > 0 && t2 > 0
    ensures Greater(Percent(w1, t1), Percent(w2, t2)) <==> w1 * t2 > w2 * t1
  {
    assert (100 * w1) * t2 == 100 * (w1 * t2);
    assert (100 * w2) * t1 == 100 * (w2 * t1);
  }

  lemma MulMono(x: nat, y: nat, k: nat)
    requires x <= y
    ensures x * k <= y * k
  {
  }

  lemma MulCancelLe(x: nat, y: nat, k: nat)
    requires k > 0 && x * k <= y * k
    ensures x <= y
  {
  }

  lemma MulCancelLt(x: nat, y: nat, k: nat)
    requires x * k < y * k
    ensures x < y
  {
  }

  /** Cross-multiplied "at most" is transitive. */
  lemma AtMostTransitive(a: Ratio, b: Ratio, c: Ratio)
    requires !Greater(a, b) && !Greater(b, c)
    ensures !Greater(a, c)
  {
    var an, ad, bn, bd, cn, cd := a.num, a.den, b.num, b.den, c.num, c.den;
    MulMono(an * bd, bn * ad, cd);
    MulMono(bn * cd, cn * bd, ad);
    ProductShuffle(an, bd, cd);
    ProductShuffle(bn, ad, cd);
    ProductShuffle(cn, bd, ad);
    MulCancelLe(an * cd, cn * ad, bd);
  }

  /** Cross-multiplied "greater" is transitive. */
  lemma GreaterTransitive(a: Ratio, b: Ratio, c: Ratio)
    requires Greater(a, b) && Greater(b, c)
    ensures Greater(a, c)
  {
    var an, ad, bn, bd, cn, cd := a.num, a.den, b.num, b.den, c.num, c.den;
    MulMono(bn * ad, an * bd, cd);
    MulMono(cn * bd, bn * cd, ad);
    ProductShuffle(an, bd, cd);
    ProductShuffle(bn, ad, cd);
    ProductShuffle(cn, bd, ad);
    assert (cn * ad) * bd < (an * cd) * bd by {
      MulStrictPos(cn * bd, bn * cd, ad);
    }
    MulCancelLt(cn * ad, an * cd, bd);
  }

  lemma MulStrictPos(x: nat, y: nat, k: nat)
    requires x < y && k > 0
    ensures x * k < y * k
  {
  }

  lemma ProductShuffle(x: nat, y: nat, z: nat)
    ensures (x * y) * z == (x * z) * y
  {
  }
}
