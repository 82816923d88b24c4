/** The decimation planner: from the declared point count and the caller's
    point budget, the decimation factor (how many consecutive points one
    stored point stands for) and the planned number of stored points. */
module Decimation {

  import opened NatArith

  datatype DecimationPlan = DecimationPlan(decimate: nat, npoints: nat)

  /** The smallest whole number of blocks of `d` points that covers `total`
      points, computed as a quotient and a carry so that nothing overflows. */
  function CeilDiv(total: nat, d: nat): (n: nat)
    requires d >= 1
    ensures n * d >= total
    ensures n == 0 || (n - 1) * d < total
    ensures n <= total
  {
    var q, r := total / d, total % d;
    assert total == q * d + r;
    MulMonotone(1, d, q);
    if r == 0 then q else q + 1
  }

  /** The decimation factor: 1 for an empty or small file, otherwise the
      least factor for which `budget` blocks cover every declared point. An
      empty file never divides, so it needs no positive budget. */
  function DecimationFactor(total: nat, budget: nat): (d: nat)
    requires budget > 0 || total == 0
    ensures d >= 1
    ensures total <= d * budget
    ensures d == 1 || (d - 1) * budget < total
  {
    if total == 0 then 1
    else
      var q := (total - 1) / budget;
      assert q * budget <= total - 1 < q * budget + budget;
      assert (1 + q) * budget == q * budget + budget;
      1 + q
  }

  /** The plan: the factor and ceil(total / factor) stored points. */
  function PlanDecimation(total: nat, budget: nat): (p: DecimationPlan)
    requires budget > 0 || total == 0
    ensures p.decimate >= 1
    ensures p.npoints <= budget && p.npoints <= total
    ensures p.npoints * p.decimate >= total
    ensures p.npoints == 0 || (p.npoints - 1) * p.decimate < total
    ensures total == 0 ==> p == DecimationPlan(1, 0)
    ensures total <= budget ==> p == DecimationPlan(1, total)
  {
    var d := DecimationFactor(total, budget);
    var n := CeilDiv(total, d);
    CeilDivWithinBudget(total, budget, d);
    DecimationPlan(d, n)
  }

  lemma CeilDivWithinBudget(total: nat, budget: nat, d: nat)
    requires (budget > 0 || total == 0) && d == DecimationFactor(total, budget)
    ensures CeilDiv(total, d) <= budget
    ensures total <= budget ==> d == 1 && CeilDiv(total, d) == total
  {
    if total > 0 {
      // (n - 1) * d < total <= d * budget forces n - 1 < budget
      MulMonotone(budget, CeilDiv(total, d) - 1, d);
      if total <= budget {
        DivUnique(total - 1, budget, 0);
        assert total / 1 == total && total % 1 == 0;
      }
    }
  }

  /** No smaller factor keeps the planned count within the budget. */
  lemma DecimationIsMinimal(total: nat, budget: nat, d': nat)
    requires budget > 0 && 1 <= d' < PlanDecimation(total, budget).decimate
    ensures CeilDiv(total, d') > budget
  {
    var d := PlanDecimation(total, budget).decimate;
    MulMonotone(d', d - 1, budget);
    MulMonotone(CeilDiv(total, d'), budget, d');
  }

  /** The planned count as the source writes it, `(total + decimate - 1) /
      decimate`, in 64-bit unsigned arithmetic. */
  function PlannedCountAsWritten(total: nat, d: nat): (n: nat)
    requires total < U64 && 1 <= d < U64
    ensures n <= (total + d - 1) / d
  {
    var sum := (total + d - 1) % U64;
    assert sum <= total + d - 1;
    DivMonotone(sum, total + d - 1, d);
    sum / d
  }

  /** Without a wrap-around, the source's expression is the ceiling. */
  lemma PlannedCountAsWrittenAgrees(total: nat, d: nat)
    requires total < U64 && 1 <= d < U64 && total + d - 1 < U64
    ensures PlannedCountAsWritten(total, d) == CeilDiv(total, d)
  {
    var q, r := total / d, total % d;
    assert total == q * d + r;
    if r == 0 {
      DivUnique(total + d - 1, d, q);
    } else {
      assert (q + 1) * d == q * d + d;
      DivUnique(total + d - 1, d, q + 1);
    }
  }

  /** A declared count of 2^64 - 1 with a budget of 2 gives the factor 2^63;
      the sum in the source's expression wraps and the planned count becomes
      0 although the file declares points. */
  lemma PlannedCountAsWrittenOverflows()
    ensures DecimationFactor(U64 - 1, 2) == U64 / 2
    ensures PlannedCountAsWritten(U64 - 1, DecimationFactor(U64 - 1, 2)) == 0
    ensures PlanDecimation(U64 - 1, 2).npoints == 2
  {
    var d := DecimationFactor(U64 - 1, 2);
    assert d == U64 / 2;
    assert (U64 - 1 + d - 1) % U64 == U64 / 2 - 2;
    DivUnique(U64 - 1, d, 1);
  }
}
