/** Usage billing: transactional emails count as a fraction of a unit, rounded down. */
module Usage {
  import opened Options
  import opened StripeRemote
  import opened StripeSync

  datatype Kind = Marketing | Transactional

  /** The rates of the BASIC plan, in ten-thousandths of a cent per email. */
  const UNIT_PRICE: int := 600
  const TRANSACTIONAL_PRICE: int := 350

  const CONVERSION: real := UNIT_PRICE as real / TRANSACTIONAL_PRICE as real

  /** They are the plan table's. */
  lemma RatesAreTheTables(describe: Plan -> string)
    ensures exists i :: 0 <= i < |PlanTable(describe)| && PlanTable(describe)[i].plan == BASIC &&
                        PlanTable(describe)[i].rates == Some(Rates(UNIT_PRICE, TRANSACTIONAL_PRICE))
  {
    assert PlanTable(describe)[3].plan == BASIC;
  }

  function Floored(transactional: nat): int {
    (transactional as real / CONVERSION).Floor
  }

  function Units(marketing: nat, transactional: nat): int {
    marketing + Floored(transactional)
  }

  function Cost(usage: nat, kind: Kind): int {
    (if kind.Marketing? then usage else Floored(usage)) * UNIT_PRICE
  }

  /** Twelve transactional emails are seven units. */
  lemma FlooredIs(t: nat)
    ensures Floored(t) == 7 * t / 12
  {
    var r := t as real / CONVERSION;
    assert CONVERSION * 7.0 == 12.0;
    assert r * 12.0 == 7.0 * t as real by {
      assert r * CONVERSION == t as real;
      assert r * 12.0 == r * CONVERSION * 7.0;
    }
    var n := 7 * t / 12;
    assert 12 * n <= 7 * t < 12 * (n + 1);
    assert n as real <= r < (n + 1) as real;
  }

  lemma CostIsUnits(marketing: nat, transactional: nat)
    ensures Cost(marketing, Marketing) + Cost(transactional, Transactional) ==
              Units(marketing, transactional) * UNIT_PRICE
  {
  }

  /** Rounding is in the customer's favour, by less than one unit, and by nothing just when twelve divides the count. */
  lemma RoundingBound(t: nat)
    ensures 0 <= TRANSACTIONAL_PRICE * t - Cost(t, Transactional) < UNIT_PRICE
    ensures Cost(t, Transactional) == TRANSACTIONAL_PRICE * t <==> t % 12 == 0
  {
    FlooredIs(t);
  }

  function Sum(periods: seq<nat>): nat {
    if periods == [] then 0 else periods[0] + Sum(periods[1..])
  }

  function UnitsApart(periods: seq<nat>): int {
    if periods == [] then 0 else Floored(periods[0]) + UnitsApart(periods[1..])
  }

  /** How many twelfths of a unit billing the periods apart rounds away. */
  function Lost(periods: seq<nat>): nat {
    if periods == [] then 0 else 7 * periods[0] % 12 + Lost(periods[1..])
  }

  lemma {:induction false} LostIs(periods: seq<nat>)
    ensures 7 * Sum(periods) == 12 * UnitsApart(periods) + Lost(periods) && Lost(periods) <= 11 * |periods|
    decreases periods
  {
    if periods != [] {
      FlooredIs(periods[0]);
      LostIs(periods[1..]);
    }
  }

  /** Billing periods apart never charges more than billing their sum, and at most 11/12 of a unit a period less. */
  lemma SplittingBound(periods: seq<nat>)
    ensures 0 <= Floored(Sum(periods)) - UnitsApart(periods) <= 11 * |periods| / 12
    ensures periods != [] ==> Floored(Sum(periods)) - UnitsApart(periods) <= |periods| - 1
  {
    LostIs(periods);
    FlooredIs(Sum(periods));
  }

  function Fives(n: nat): (r: seq<nat>)
    ensures |r| == n
  {
    if n == 0 then [] else [5] + Fives(n - 1)
  }

  /** No smaller bound holds: periods of five emails each lose exactly that much. */
  lemma {:induction false} SplittingBoundIsTight(n: nat)
    ensures Floored(Sum(Fives(n))) - UnitsApart(Fives(n)) == 11 * n / 12
  {
    FivesAre(n);
    FlooredIs(5 * n);
  }

  lemma {:induction false} FivesAre(n: nat)
    ensures Sum(Fives(n)) == 5 * n && UnitsApart(Fives(n)) == 2 * n
  {
    if n > 0 {
      FivesAre(n - 1);
      FlooredIs(5);
      assert Fives(n)[1..] == Fives(n - 1);
    }
  }
}
