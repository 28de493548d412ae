/**
 Position arithmetic.  Units and prices are reals, money is whole paise, and rounding is
 half away from zero; the representation error of IEEE-754 doubles is idealised away.
 */
module Position {
  import opened Wrappers

  const UNIT_EPSILON: real := 0.000000001

  datatype Holding = Holding(fundId: string, fundName: string, units: real, invested: int)

  /** math.Round. */
  function Round(x: real): int {
    if x >= 0.0 then (x + 0.5).Floor else -((0.5 - x).Floor)
  }

  lemma RoundIsNear(x: real)
    ensures -0.5 <= Round(x) as real - x <= 0.5
  {
  }

  lemma RoundWithin(x: real, lo: int, hi: int)
    requires lo as real <= x <= hi as real
    ensures lo <= Round(x) <= hi
  {
    RoundIsNear(x);
  }

  lemma RoundOfWhole(n: int)
    ensures Round(n as real) == n
  {
    RoundIsNear(n as real);
  }

  // ----- the two movements -----

  datatype SellError = NotPositive | Oversold | NoPosition | UnknownSide

  function Bought(h: Holding, units: real, amount: int): Holding {
    h.(units := h.units + units, invested := h.invested + amount)
  }

  /** The cost a partial sale releases: its share of the whole, rounded once. */
  function Released(cost: int, held: real, units: real): int
    requires held != 0.0
  {
    Round(cost as real * units / held)
  }

  /** The holding after a sale, and the cost released with it. */
  function Sold(h: Holding, units: real): (r: Result<(Holding, int), SellError>) {
    if units <= 0.0 then Err(NotPositive)
    else if units > h.units + UNIT_EPSILON then Err(Oversold)
    else if h.units - units <= UNIT_EPSILON then Ok((h.(units := 0.0, invested := 0), h.invested))
    else
      var released := Released(h.invested, h.units, units);
      Ok((h.(units := h.units - units, invested := h.invested - released), released))
  }

  predicate IsClosed(h: Holding) {
    h.units <= UNIT_EPSILON
  }

  function AvgCost(h: Holding): int {
    if h.units <= UNIT_EPSILON then 0 else Round(h.invested as real / h.units)
  }

  /** The holding as the ledger updates it in place. */
  class Cell {
    var fundId: string
    var fundName: string
    var units: real
    var invested: int

    constructor (h: Holding)
      ensures Value() == h
    {
      fundId, fundName, units, invested := h.fundId, h.fundName, h.units, h.invested;
    }

    function Value(): Holding
      reads this
    {
      Holding(fundId, fundName, units, invested)
    }

    method ApplyBuy(units: real, amount: int)
      modifies this
      ensures Value() == Bought(old(Value()), units, amount)
    {
      this.units := this.units + units;
      this.invested := this.invested + amount;
    }

    method ApplySell(units: real) returns (r: Result<int, SellError>)
      modifies this
      ensures match Sold(old(Value()), units)
              case Ok((after, released)) => r == Ok(released) && Value() == after
              case Err(e) => r == Err(e) && Value() == old(Value())
    {
      if units <= 0.0 {
        return Err(NotPositive);
      }
      if units > this.units + UNIT_EPSILON {
        return Err(Oversold);
      }
      var remaining := this.units - units;
      if remaining <= UNIT_EPSILON {
        var released := invested;
        this.units := 0.0;
        invested := 0;
        return Ok(released);
      }
      var released := Released(invested, this.units, units);
      this.units := remaining;
      invested := invested - released;
      r := Ok(released);
    }
  }

  // ----- one sale -----

  lemma ReleasedWithin(cost: int, held: real, units: real)
    requires cost >= 0 && 0.0 < units <= held
    ensures 0 <= Released(cost, held, units) <= cost
  {
    var share := units / held;
    assert 0.0 <= share <= 1.0;
    assert cost as real * units / held == cost as real * share;
    assert 0.0 <= cost as real * share <= cost as real;
    RoundWithin(cost as real * units / held, 0, cost);
  }

  /** A sale that goes through releases between nothing and everything, and a close leaves no cost. */
  lemma SaleReleasesPart(h: Holding, units: real)
    requires h.units > 0.0 && h.invested >= 0 && Sold(h, units).Ok?
    ensures var (after, released) := Sold(h, units).value;
            && 0 <= released <= h.invested
            && after.invested == h.invested - released >= 0
            && after.units >= 0.0
            && (IsClosed(after) ==> after.units == 0.0 && after.invested == 0)
  {
    if h.units - units > UNIT_EPSILON {
      ReleasedWithin(h.invested, h.units, units);
    }
  }

  // ----- any number of buys -----

  datatype Instalment = Instalment(units: real, amount: int)

  function BoughtAll(h: Holding, buys: seq<Instalment>): Holding {
    if buys == [] then h
    else
      var last := buys[|buys| - 1];
      Bought(BoughtAll(h, buys[..|buys| - 1]), last.units, last.amount)
  }

  function PaidFor(buys: seq<Instalment>): int {
    if buys == [] then 0 else PaidFor(buys[..|buys| - 1]) + buys[|buys| - 1].amount
  }

  function UnitsGot(buys: seq<Instalment>): real {
    if buys == [] then 0.0 else UnitsGot(buys[..|buys| - 1]) + buys[|buys| - 1].units
  }

  lemma {:induction false} BuysAccumulate(h: Holding, buys: seq<Instalment>)
    ensures BoughtAll(h, buys) == h.(units := h.units + UnitsGot(buys), invested := h.invested + PaidFor(buys))
  {
    if buys == [] {
    } else {
      BuysAccumulate(h, buys[..|buys| - 1]);
    }
  }

  /** However many instalments built the position, its average cost has been rounded once, not once for each. */
  lemma {:induction false} InstalmentsRoundOnce(h: Holding, buys: seq<Instalment>)
    requires !IsClosed(BoughtAll(h, buys))
    ensures h.units + UnitsGot(buys) > 0.0
    ensures -0.5 <= AvgCost(BoughtAll(h, buys)) as real
                    - (h.invested + PaidFor(buys)) as real / (h.units + UnitsGot(buys)) <= 0.5
  {
    BuysAccumulate(h, buys);
    RoundIsNear((h.invested + PaidFor(buys)) as real / (h.units + UnitsGot(buys)));
  }

  // ----- average cost under repeated sales -----

  predicate Partial(h: Holding, units: real) {
    0.0 < units && h.units - units > UNIT_EPSILON
  }

  function SoldAll(h: Holding, sales: seq<real>): Holding {
    if sales == [] then h
    else
      var before := SoldAll(h, sales[..|sales| - 1]);
      match Sold(before, sales[|sales| - 1])
      case Ok((after, _)) => after
      case Err(_) => before
  }

  /** Every sale of the list leaves the position open. */
  predicate AllPartial(h: Holding, sales: seq<real>) {
    sales == []
    || (AllPartial(h, sales[..|sales| - 1]) && Partial(SoldAll(h, sales[..|sales| - 1]), sales[|sales| - 1]))
  }

  function Abs(x: real): real {
    if x < 0.0 then -x else x
  }

  /** What the cost on the books is off from the given average price. */
  function Drift(cost: int, units: real, average: real): real {
    cost as real - average * units
  }

  lemma ShrinkPositive(x: real, factor: real)
    requires x >= 0.0 && 0.0 <= factor <= 1.0
    ensures 0.0 <= x * factor <= x
  {
  }

  lemma ShrinkAbs(x: real, factor: real)
    requires 0.0 <= factor <= 1.0
    ensures Abs(x * factor) <= Abs(x)
  {
    var y := Abs(x);
    ShrinkPositive(y, factor);
    assert x * factor == if x < 0.0 then 0.0 - y * factor else y * factor;
  }

  lemma ScaleDifference(c: real, p: real, share: real)
    ensures (c - p) * (1.0 - share) == c - p - c * share + p * share
  {
  }

  /** An exact proportional release scales the drift down by the share that is left. */
  lemma ExactDrift(cost: real, held: real, units: real, average: real)
    requires 0.0 < units < held
    ensures cost - cost * units / held - average * (held - units)
         == (cost - average * held) * (1.0 - units / held)
  {
    var share := units / held;
    assert held * share == units;
    assert average * held * share == average * units;
    assert cost * units / held == cost * share;
    ScaleDifference(cost, average * held, share);
    assert average * (held - units) == average * held - average * units;
  }

  /** One sale shrinks the drift, and its rounding adds at most half a paisa. */
  lemma SaleDrift(cost: int, held: real, units: real, average: real)
    requires 0.0 < units < held
    ensures Abs(Drift(cost - Released(cost, held, units), held - units, average))
         <= Abs(Drift(cost, held, average)) + 0.5
  {
    var exact := cost as real * units / held;
    var left := 1.0 - units / held;
    var drift := Drift(cost, held, average);
    var drift' := Drift(cost - Released(cost, held, units), held - units, average);
    assert 0.0 <= left <= 1.0;
    assert Abs(drift * left) <= Abs(drift) by {
      ShrinkAbs(drift, left);
    }
    assert drift' == drift * left + (exact - Round(exact) as real) by {
      ExactDrift(cost as real, held, units, average);
    }
    RoundIsNear(exact);
    WithinHalf(drift', drift * left, exact - Round(exact) as real);
  }

  lemma WithinHalf(sum: real, x: real, rounding: real)
    requires sum == x + rounding && -0.5 <= rounding <= 0.5
    ensures Abs(sum) <= Abs(x) + 0.5
  {
  }

  lemma PartialSale(h: Holding, units: real)
    requires Partial(h, units)
    ensures Sold(h, units) == Ok((h.(units := h.units - units,
                                     invested := h.invested - Released(h.invested, h.units, units)),
                                  Released(h.invested, h.units, units)))
  {
  }

  lemma {:induction false} DriftAgainst(h: Holding, sales: seq<real>, average: real, bound: real)
    requires h.units > 0.0 && AllPartial(h, sales)
    requires Abs(Drift(h.invested, h.units, average)) <= bound
    ensures SoldAll(h, sales).units > 0.0
    ensures Abs(Drift(SoldAll(h, sales).invested, SoldAll(h, sales).units, average)) <= bound + |sales| as real * 0.5
  {
    if sales == [] {
    } else {
      var front, last := sales[..|sales| - 1], sales[|sales| - 1];
      var before := SoldAll(h, front);
      DriftAgainst(h, front, average, bound);
      PartialSale(before, last);
      SaleDrift(before.invested, before.units, last, average);
      assert |sales| as real * 0.5 == |front| as real * 0.5 + 0.5;
    }
  }

  lemma NoDriftAtFirst(h: Holding, average: real)
    requires average * h.units == h.invested as real
    ensures Abs(Drift(h.invested, h.units, average)) <= 0.0
  {
  }

  /**
   After n sales that leave the position open, the remaining cost is within n/2 paise of the
   original average price (the one with average * units == invested) times the remaining units.
   */
  lemma RemainingCostDrift(h: Holding, sales: seq<real>, average: real)
    requires h.units > 0.0 && AllPartial(h, sales)
    requires average * h.units == h.invested as real
    ensures SoldAll(h, sales).units > 0.0
    ensures Abs(Drift(SoldAll(h, sales).invested, SoldAll(h, sales).units, average)) <= |sales| as real * 0.5
  {
    NoDriftAtFirst(h, average);
    DriftAgainst(h, sales, average, 0.0);
  }

  /** So the average price itself is off by at most n/2 paise spread over the units that are left. */
  lemma AverageCostDrift(h: Holding, sales: seq<real>, average: real)
    requires h.units > 0.0 && AllPartial(h, sales)
    requires average * h.units == h.invested as real
    ensures var after := SoldAll(h, sales);
            after.units > 0.0
            && Abs(after.invested as real / after.units - average) <= |sales| as real * 0.5 / after.units
  {
    var after := SoldAll(h, sales);
    RemainingCostDrift(h, sales, average);
    PerUnit(after.invested, after.units, average, |sales| as real * 0.5);
  }

  /** The average cost as reported is rounded once more, so it is off by half a paisa on top. */
  lemma ReportedAverageDrift(h: Holding, sales: seq<real>, average: real)
    requires h.units > 0.0 && AllPartial(h, sales) && !IsClosed(SoldAll(h, sales))
    requires average * h.units == h.invested as real
    ensures var after := SoldAll(h, sales);
            after.units > 0.0
            && Abs(AvgCost(after) as real - average) <= |sales| as real * 0.5 / after.units + 0.5
  {
    var after := SoldAll(h, sales);
    AverageCostDrift(h, sales, average);
    var exact := after.invested as real / after.units;
    RoundIsNear(exact);
    WithinHalf(AvgCost(after) as real - average, exact - average, Round(exact) as real - exact);
  }

  lemma PerUnit(cost: int, units: real, average: real, bound: real)
    requires units > 0.0 && Abs(Drift(cost, units, average)) <= bound
    ensures Abs(cost as real / units - average) <= bound / units
  {
    DividedAbs(Drift(cost, units, average), bound, units);
    DriftPerUnit(cost as real, units, average);
  }

  lemma DriftPerUnit(cost: real, units: real, average: real)
    requires units > 0.0
    ensures (cost - average * units) / units == cost / units - average
  {
    assert average * units / units == average;
  }

  lemma DividedAbs(x: real, bound: real, d: real)
    requires d > 0.0 && Abs(x) <= bound
    ensures Abs(x / d) <= bound / d
  {
    var q := 1.0 / d;
    assert q > 0.0;
    assert x / d == x * q && bound / d == bound * q;
    assert -bound * q <= x * q <= bound * q;
  }

  // ----- any sequence of movements on one position -----

  datatype Move = Buy(units: real, amount: int) | Sell(units: real)

  /** What has gone in and out of a position since it was first looked at. */
  datatype Totals = Totals(paid: int, released: int, bought: real, sold: real, closes: nat)

  datatype Account = Account(holding: Option<Holding>, totals: Totals)

  function UnitsHeld(p: Option<Holding>): real {
    if p.None? then 0.0 else p.value.units
  }

  function CostHeld(p: Option<Holding>): int {
    if p.None? then 0 else p.value.invested
  }

  /** One movement on the position of one fund; None is no position.  A movement that fails changes nothing. */
  function Moved(p: Option<Holding>, fundId: string, fundName: string, m: Move): Result<Option<Holding>, SellError> {
    match m
    case Buy(units, amount) =>
      Ok(Some(if p.None? then Holding(fundId, fundName, units, amount) else Bought(p.value, units, amount)))
    case Sell(units) =>
      if p.None? then Err(NoPosition)
      else
        match Sold(p.value, units)
        case Err(e) => Err(e)
        case Ok((after, _)) => Ok(if IsClosed(after) then None else Some(after))
  }

  /** The cost that ApplySell reports as released; a refused sale releases none. */
  function ReleasedBy(p: Option<Holding>, units: real): int {
    if p.None? then 0
    else
      match Sold(p.value, units)
      case Ok((_, released)) => released
      case Err(_) => 0
  }

  function Booked(a: Account, fundId: string, fundName: string, m: Move): Account {
    match Moved(a.holding, fundId, fundName, m)
    case Err(_) => a
    case Ok(p) =>
      var t := a.totals;
      match m
      case Buy(units, amount) => Account(p, t.(paid := t.paid + amount, bought := t.bought + units))
      case Sell(units) =>
        Account(p, t.(released := t.released + ReleasedBy(a.holding, units), sold := t.sold + units,
                      closes := t.closes + (if p.None? then 1 else 0)))
  }

  function BookedAll(a: Account, fundId: string, fundName: string, moves: seq<Move>): Account {
    if moves == [] then a
    else Booked(BookedAll(a, fundId, fundName, moves[..|moves| - 1]), fundId, fundName, moves[|moves| - 1])
  }

  /** Money balances to the paisa; units balance up to one epsilon a close. */
  ghost predicate Balanced(a: Account) {
    && a.totals.paid == CostHeld(a.holding) + a.totals.released
    && CostHeld(a.holding) >= 0 && a.totals.released >= 0
    && (a.holding.Some? ==> a.holding.value.units > 0.0)
    && Abs(a.totals.bought - a.totals.sold - UnitsHeld(a.holding)) <= a.totals.closes as real * UNIT_EPSILON
  }

  /** A movement as the event path produces it: positive units, positive consideration. */
  predicate Positive(m: Move) {
    m.units > 0.0 && (m.Buy? ==> m.amount > 0)
  }

  lemma MoveBalances(a: Account, fundId: string, fundName: string, m: Move)
    requires Balanced(a) && Positive(m)
    ensures Balanced(Booked(a, fundId, fundName, m))
  {
    if m.Sell? && a.holding.Some? && Sold(a.holding.value, m.units).Ok? {
      SaleReleasesPart(a.holding.value, m.units);
    }
  }

  /**
   Over any sequence of movements, refused ones included: paid equals held cost plus released
   cost exactly, the held cost is never negative and is gone when the position is, and units
   bought less sold less held is within one epsilon per close.
   */
  lemma {:induction false} BooksBalance(fundId: string, fundName: string, moves: seq<Move>)
    requires forall i :: 0 <= i < |moves| ==> Positive(moves[i])
    ensures Balanced(BookedAll(Account(None, Totals(0, 0, 0.0, 0.0, 0)), fundId, fundName, moves))
  {
    if moves == [] {
    } else {
      BooksBalance(fundId, fundName, moves[..|moves| - 1]);
      MoveBalances(BookedAll(Account(None, Totals(0, 0, 0.0, 0.0, 0)), fundId, fundName, moves[..|moves| - 1]),
                   fundId, fundName, moves[|moves| - 1]);
    }
  }

  // ----- pricing -----

  /** paiseFromProduct: the market value of some units, rounded once. */
  function MarketValue(nav: real, units: real): int {
    Round(nav * 100.0 * units)
  }

  /** The units an amount buys; no units at a price that is not positive. */
  function UnitsFor(amount: int, nav: real): real {
    if nav <= 0.0 then 0.0 else amount as real / 100.0 / nav
  }

  function SumPaid(amounts: seq<int>): int {
    if amounts == [] then 0 else SumPaid(amounts[..|amounts| - 1]) + amounts[|amounts| - 1]
  }

  function UnitsBought(amounts: seq<int>, nav: real): real {
    if amounts == [] then 0.0
    else UnitsBought(amounts[..|amounts| - 1], nav) + UnitsFor(amounts[|amounts| - 1], nav)
  }

  lemma {:induction false} UnitsAddUp(amounts: seq<int>, nav: real)
    requires nav > 0.0
    ensures nav * 100.0 * UnitsBought(amounts, nav) == SumPaid(amounts) as real
  {
    if amounts == [] {
    } else {
      var front, last := amounts[..|amounts| - 1], amounts[|amounts| - 1];
      UnitsAddUp(front, nav);
      assert nav * 100.0 * UnitsFor(last, nav) == last as real;
      assert nav * 100.0 * (UnitsBought(front, nav) + UnitsFor(last, nav))
          == nav * 100.0 * UnitsBought(front, nav) + nav * 100.0 * UnitsFor(last, nav);
    }
  }

  /** Any list of buys at one positive price, valued at that price, is worth exactly what was paid. */
  lemma BuysAreWorthWhatWasPaid(amounts: seq<int>, nav: real)
    requires nav > 0.0
    ensures MarketValue(nav, UnitsBought(amounts, nav)) == SumPaid(amounts)
  {
    UnitsAddUp(amounts, nav);
    RoundOfWhole(SumPaid(amounts));
  }
}
