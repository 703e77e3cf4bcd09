/** The completion percentage shown by the checklist and the strategy history:
    `Math.round(count / total * 100)` when there is at least one step, else 0. */
module Percent {

  /** Integer round-half-up of 100 * count / total. The second ensures says the
      result is the nearest whole percentage, ties going up: the exact value
      100 * count / total lies in [p - 1/2, p + 1/2). */
  function RoundedPercent(count: nat, total: nat): (p: nat)
    ensures total == 0 ==> p == 0
    ensures total > 0 ==> -(total as int) <= 2 * (100 * count - total * p) < total
  {
    if total == 0 then 0
    else
      var p := (200 * count + total) / (2 * total);
      DivBounds(200 * count + total, 2 * total);
      p
  }

  lemma DivBounds(a: nat, b: nat)
    requires b > 0
    ensures b * (a / b) <= a < b * (a / b) + b
  {
  }

  /** A count of at most `total` completed steps never shows more than 100%,
      all steps done shows exactly 100% and none done shows 0%. */
  lemma PercentInRange(count: nat, total: nat)
    requires count <= total
    ensures RoundedPercent(count, total) <= 100
    ensures count == total ==> RoundedPercent(count, total) == (if total == 0 then 0 else 100)
    ensures count == 0 ==> RoundedPercent(count, total) == 0
  {
    var p := RoundedPercent(count, total);
    if total > 0 {
      assert total * p <= 100 * count + total / 2 + 1;
      if p > 100 {
        assert total * p >= total * 101 by { MulMono(total, 101, p); }
        assert false;
      }
      if count == total {
        if p < 100 {
          assert total * p <= total * 99 by { MulMono(total, p, 99); }
          assert false;
        }
      }
      if count == 0 && p > 0 {
        assert total * p >= total by { MulMono(total, 1, p); }
        assert false;
      }
    }
  }

  lemma MulMono(a: nat, x: nat, y: nat)
    requires x <= y
    ensures a * x <= a * y
  {
  }

  /** More completed steps never show a smaller percentage. */
  lemma PercentMonotone(c1: nat, c2: nat, total: nat)
    requires c1 <= c2
    ensures RoundedPercent(c1, total) <= RoundedPercent(c2, total)
  {
    if total > 0 {
      var p1 := RoundedPercent(c1, total);
      var p2 := RoundedPercent(c2, total);
      if p1 > p2 {
        assert total * p1 >= total * (p2 + 1) by { MulMono(total, p2 + 1, p1); }
        assert false;
      }
    }
  }
}
