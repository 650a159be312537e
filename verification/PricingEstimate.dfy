/** The marketing site's price estimate, over the reals. */
module PricingEstimate {
  import opened Options

  /** A plan as the calculator reads it: dollars a month, emails included, dollars per email beyond. */
  datatype Rates = Rates(marketing: real, transactional: real)
  datatype Plan = Plan(base: real, included: real, rates: Option<Rates>)

  ghost predicate Sound(plan: Plan) {
    plan.included >= 0.0 &&
    (plan.rates.Some? ==> plan.rates.value.marketing >= 0.0 && plan.rates.value.transactional >= 0.0)
  }

  function Max(a: real, b: real): real {
    if a < b then b else a
  }

  function Min(a: real, b: real): real {
    if a < b then a else b
  }

  function Overage(plan: Plan, marketing: real, transactional: real): real {
    Max(0.0, marketing + transactional - plan.included)
  }

  function Share(part: real, total: real): real {
    if total > 0.0 then part / total else 0.0
  }

  function MarketingOverage(plan: Plan, marketing: real, transactional: real): real {
    Overage(plan, marketing, transactional) * Share(marketing, marketing + transactional)
  }

  function TransactionalOverage(plan: Plan, marketing: real, transactional: real): real {
    Overage(plan, marketing, transactional) * Share(transactional, marketing + transactional)
  }

  function OverageCost(plan: Plan, marketing: real, transactional: real): real {
    match plan.rates
    case None => 0.0
    case Some(r) =>
      MarketingOverage(plan, marketing, transactional) * r.marketing +
      TransactionalOverage(plan, marketing, transactional) * r.transactional
  }

  function Estimate(plan: Plan, marketing: real, transactional: real): real {
    plan.base + OverageCost(plan, marketing, transactional)
  }

  /** The two parts of the overage make up the whole of it, and neither is negative. */
  lemma SharesSum(plan: Plan, marketing: real, transactional: real)
    requires marketing >= 0.0 && transactional >= 0.0 && Sound(plan)
    ensures MarketingOverage(plan, marketing, transactional) + TransactionalOverage(plan, marketing, transactional) ==
            Overage(plan, marketing, transactional)
    ensures MarketingOverage(plan, marketing, transactional) >= 0.0
    ensures TransactionalOverage(plan, marketing, transactional) >= 0.0
  {
    var total, over := marketing + transactional, Overage(plan, marketing, transactional);
    if total > 0.0 {
      var x, y := marketing / total, transactional / total;
      Undivide(marketing, total);
      Undivide(transactional, total);
      SharesAreOne(x, y, marketing, transactional, total);
      Distribute(x, y, over);
      assert over * x == x * over && over * y == y * over && 1.0 * over == over;
      QuotientSign(marketing, total);
      QuotientSign(transactional, total);
      ProductSign(over, x);
      ProductSign(over, y);
    }
  }

  lemma Distribute(a: real, b: real, k: real)
    ensures (a + b) * k == a * k + b * k
  {
  }

  lemma SharesAreOne(x: real, y: real, a: real, b: real, total: real)
    requires total > 0.0 && total == a + b && x * total == a && y * total == b
    ensures x + y == 1.0
  {
    Distribute(x, y, total);
    SameFactor(x + y, 1.0, total);
  }

  lemma Undivide(a: real, b: real)
    requires b > 0.0
    ensures a / b * b == a
  {
  }

  lemma Regroup(a: real, b: real, c: real)
    ensures a * b * c == a * (b * c)
  {
  }

  lemma SameFactor(a: real, b: real, k: real)
    requires k > 0.0 && a * k == b * k
    ensures a == b
  {
    assert (a - b) * k == 0.0;
  }

  lemma QuotientSign(a: real, b: real)
    requires a >= 0.0 && b > 0.0
    ensures a / b >= 0.0
  {
  }

  lemma ProductSign(a: real, b: real)
    requires a >= 0.0 && b >= 0.0
    ensures a * b >= 0.0
  {
  }

  lemma ProductOrder(a: real, b: real, k: real)
    requires k >= 0.0 && a <= b
    ensures a * k <= b * k && k * a <= k * b
  {
    ProductSign(b - a, k);
    assert (b - a) * k == b * k - a * k;
  }

  /** Overage costs between the lower and the higher rate for every email beyond the allowance. */
  lemma CostBetweenRates(plan: Plan, marketing: real, transactional: real)
    requires marketing >= 0.0 && transactional >= 0.0 && Sound(plan) && plan.rates.Some?
    ensures var r := plan.rates.value;
            var over := Overage(plan, marketing, transactional);
            over * Min(r.marketing, r.transactional) <= OverageCost(plan, marketing, transactional) <=
            over * Max(r.marketing, r.transactional)
  {
    var r := plan.rates.value;
    var a, b := MarketingOverage(plan, marketing, transactional), TransactionalOverage(plan, marketing, transactional);
    var lo, hi := Min(r.marketing, r.transactional), Max(r.marketing, r.transactional);
    SharesSum(plan, marketing, transactional);
    ProductOrder(lo, r.marketing, a);
    ProductOrder(lo, r.transactional, b);
    ProductOrder(r.marketing, hi, a);
    ProductOrder(r.transactional, hi, b);
    assert (a + b) * lo == a * lo + b * lo && (a + b) * hi == a * hi + b * hi;
  }

  /** The part of a volume that is charged. */
  function Charged(included: real, total: real): real
    requires total > 0.0
  {
    Max(0.0, total - included) / total
  }

  /** The charged part never shrinks as the total grows. */
  lemma ChargedGrows(included: real, a: real, b: real)
    requires included >= 0.0 && 0.0 < a <= b
    ensures 0.0 <= Charged(included, a) <= Charged(included, b)
  {
    var oa, ob := Max(0.0, a - included), Max(0.0, b - included);
    QuotientSign(oa, a);
    QuotientSign(ob, b);
    if oa > 0.0 {
      var x, y := oa / a, ob / b;
      assert x * a == oa && y * b == ob;
      CrossOrder(included, a, b);
      Regroup(x, a, b);
      Regroup(y, b, a);
      ProductPositive(a, b);
      assert x * (a * b) == oa * b && y * (a * b) == ob * a;
      Divides(x, y, a * b);
    }
  }

  lemma CrossOrder(included: real, a: real, b: real)
    requires included >= 0.0 && 0.0 < a <= b
    ensures (a - included) * b <= (b - included) * a
  {
    ProductOrder(a, b, included);
    Distribute(a, -included, b);
    Distribute(b, -included, a);
    assert (-included) * b == -(included * b) && (-included) * a == -(included * a);
  }

  lemma ProductPositive(a: real, b: real)
    requires a > 0.0 && b > 0.0
    ensures a * b > 0.0
  {
  }

  lemma StrictOrder(x: real, y: real, k: real)
    requires k > 0.0 && y < x
    ensures y * k < x * k
  {
    ProductPositive(x - y, k);
    Distribute(x, -y, k);
    assert (-y) * k == -(y * k);
  }

  lemma Divides(x: real, y: real, k: real)
    requires k > 0.0 && x * k <= y * k
    ensures x <= y
  {
    if y < x {
      StrictOrder(x, y, k);
    }
  }

  lemma CostIsCharged(plan: Plan, marketing: real, transactional: real)
    requires marketing >= 0.0 && transactional >= 0.0 && marketing + transactional > 0.0 && plan.rates.Some?
    ensures var r := plan.rates.value;
            OverageCost(plan, marketing, transactional) ==
            Charged(plan.included, marketing + transactional) * AtRates(r, marketing, transactional)
  {
    var r := plan.rates.value;
    var total, over := marketing + transactional, Overage(plan, marketing, transactional);
    var c := Charged(plan.included, total);
    assert c == over / total;
    PartIs(over, marketing, total);
    PartIs(over, transactional, total);
    assert MarketingOverage(plan, marketing, transactional) == c * marketing;
    assert TransactionalOverage(plan, marketing, transactional) == c * transactional;
    assert c * marketing * r.marketing + c * transactional * r.transactional ==
           c * (marketing * r.marketing + transactional * r.transactional);
  }

  lemma PartIs(over: real, part: real, total: real)
    requires total > 0.0
    ensures over * (part / total) == over / total * part
  {
    var x, y := part / total, over / total;
    assert x * total == part && y * total == over;
    assert over * x == y * total * x == y * (x * total);
  }

  function AtRates(r: Rates, marketing: real, transactional: real): real {
    marketing * r.marketing + transactional * r.transactional
  }

  lemma AtRatesGrows(r: Rates, m1: real, t1: real, m2: real, t2: real)
    requires r.marketing >= 0.0 && r.transactional >= 0.0 && 0.0 <= m1 <= m2 && 0.0 <= t1 <= t2
    ensures 0.0 <= AtRates(r, m1, t1) <= AtRates(r, m2, t2)
  {
    ProductOrder(m1, m2, r.marketing);
    ProductOrder(t1, t2, r.transactional);
    ProductSign(m1, r.marketing);
    ProductSign(t1, r.transactional);
  }

  /** A product of two factors that grow, neither of them negative, grows. */
  lemma ProductGrows(a1: real, b1: real, a2: real, b2: real)
    requires 0.0 <= a1 <= a2 && 0.0 <= b1 <= b2
    ensures 0.0 <= a1 * b1 <= a2 * b2
  {
    ProductSign(a1, b1);
    ProductOrder(a1, a2, b1);
    ProductOrder(b1, b2, a2);
  }

  lemma NothingSentCostsNothing(plan: Plan)
    requires Sound(plan)
    ensures OverageCost(plan, 0.0, 0.0) == 0.0
  {
  }

  /** More email of either kind never makes the estimate smaller. */
  lemma EstimateGrows(plan: Plan, m1: real, t1: real, m2: real, t2: real)
    requires Sound(plan) && 0.0 <= m1 <= m2 && 0.0 <= t1 <= t2
    ensures Estimate(plan, m1, t1) <= Estimate(plan, m2, t2)
  {
    if plan.rates.Some? && m2 + t2 > 0.0 {
      var r := plan.rates.value;
      CostIsCharged(plan, m2, t2);
      AtRatesGrows(r, m1, t1, m2, t2);
      ChargedGrows(plan.included, m2 + t2, m2 + t2);
      ProductSign(Charged(plan.included, m2 + t2), AtRates(r, m2, t2));
      if m1 + t1 > 0.0 {
        CostIsCharged(plan, m1, t1);
        ChargedGrows(plan.included, m1 + t1, m2 + t2);
        ProductGrows(Charged(plan.included, m1 + t1), AtRates(r, m1, t1), Charged(plan.included, m2 + t2),
                     AtRates(r, m2, t2));
      } else {
        NothingSentCostsNothing(plan);
      }
    }
  }

  /**
   Without usage rates, or with no more email than the allowance, the estimate is the plan's own price. Beyond
   the allowance, what comes on top is to the excess as the price of all the email, at its rates, is to all of it.
   */
  lemma EstimateIs(plan: Plan, marketing: real, transactional: real)
    requires Sound(plan) && marketing >= 0.0 && transactional >= 0.0
    ensures plan.rates.None? || marketing + transactional <= plan.included ==>
              Estimate(plan, marketing, transactional) == plan.base
    ensures plan.rates.Some? && marketing + transactional > plan.included ==>
              (Estimate(plan, marketing, transactional) - plan.base) * (marketing + transactional) ==
              (marketing + transactional - plan.included) *
              (marketing * plan.rates.value.marketing + transactional * plan.rates.value.transactional)
  {
    var total := marketing + transactional;
    if plan.rates.Some? {
      if total > plan.included {
        CostIsCharged(plan, marketing, transactional);
        var c, all := Charged(plan.included, total), AtRates(plan.rates.value, marketing, transactional);
        Undivide(total - plan.included, total);
        assert c * all * total == c * total * all;
      } else {
        WithinAllowance(plan, marketing, transactional);
      }
    }
  }

  lemma WithinAllowance(plan: Plan, marketing: real, transactional: real)
    requires marketing + transactional <= plan.included
    ensures OverageCost(plan, marketing, transactional) == 0.0
  {
    assert Overage(plan, marketing, transactional) == 0.0;
  }
}
