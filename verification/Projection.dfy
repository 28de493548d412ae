/** From an order event to a ledger movement, and from a ledger to a valuation. */
module Projection {
  import opened Wrappers
  import opened Orders
  import opened Position
  import opened Ledger

  const SUPPORTED_VERSION := 2

  datatype Invalid = WrongVersion | NoEventId | NoOrderId | NoUserId | NoFundId | AmountNotPositive

  /** The envelope checks, in the order they are made. */
  function Validate(e: OrderEvent): Option<Invalid> {
    if e.version != SUPPORTED_VERSION then Some(WrongVersion)
    else if e.eventId == "" then Some(NoEventId)
    else if e.order.id == "" then Some(NoOrderId)
    else if e.order.userId == "" then Some(NoUserId)
    else if e.order.fundId == "" then Some(NoFundId)
    else if e.order.amount <= 0 then Some(AmountNotPositive)
    else None
  }

  predicate IsExecuted(e: OrderEvent) {
    e.eventType == EVENT_ORDER_STATUS_CHANGED && e.order.status == Executed
  }

  function SideOf(kind: string): Side {
    if kind in {"SIP", "LUMPSUM", "BUY"} then BUY
    else if kind in {"REDEEM", "SELL", "SWITCH_OUT"} then SELL
    else Unmapped(kind)
  }

  datatype Permanent = BadEnvelope(invalid: Invalid) | UnknownType(kind: string) | Contradiction(error: SellError)

  /** What handing one event to the ledger comes to; Unpriced is the one failure worth a retry. */
  datatype Verdict = Changed | NotAFill | AlreadyApplied | Rejected(reason: Permanent) | Unpriced

  predicate Succeeds(v: Verdict) {
    v.Changed? || v.NotAFill? || v.AlreadyApplied?
  }

  function MovementOf(e: OrderEvent, nav: real): Movement {
    Movement(e.eventId, e.order.userId, e.order.fundId, SideOf(e.order.kind), UnitsFor(e.order.amount, nav),
        e.order.amount)
  }

  /** The events that reach the ledger at all, given a price. */
  predicate IsFill(e: OrderEvent) {
    Validate(e).None? && IsExecuted(e) && !SideOf(e.order.kind).Unmapped?
  }

  /** The projection of one event at one price. */
  function Project(b: Book, e: OrderEvent, nav: real, cap: nat): (Book, Verdict) {
    if Validate(e).Some? then (b, Rejected(BadEnvelope(Validate(e).value)))
    else if !IsExecuted(e) then (b, NotAFill)
    else if SideOf(e.order.kind).Unmapped? then (b, Rejected(UnknownType(e.order.kind)))
    else if UnitsFor(e.order.amount, nav) <= 0.0 then (b, Unpriced)
    else
      var (b', outcome) := ApplyTo(b, MovementOf(e, nav), cap);
      (b', match outcome
           case Applied => Changed
           case Duplicate => AlreadyApplied
           case Failed(error) => Rejected(Contradiction(error)))
  }

  /**
   The ledger changes exactly when the verdict says so.  Then the event was a valid executed
   fill of a known type at a positive price, its movement was a positive one, and its id was new.
   */
  lemma OnlyFillsChangeTheLedger(b: Book, e: OrderEvent, nav: real, cap: nat)
    requires cap > 0
    ensures var (b', v) := Project(b, e, nav, cap);
            && (v.Changed? <==> b' != b)
            && (v.Changed? ==>
                  && IsFill(e) && nav > 0.0 && e.eventId !in b.order && e.eventId in b'.order
                  && PositiveMovement(MovementOf(e, nav))
                  && ApplyTo(b, MovementOf(e, nav), cap) == (b', Applied))
  {
    var (b', v) := Project(b, e, nav, cap);
    if v.Changed? {
      var all := b.order + [e.eventId];
      assert all[|all| - 1] == e.eventId;
      assert Recent(all, cap)[|Recent(all, cap)| - 1] == e.eventId;
      PriceIsPositive(e.order.amount, nav);
    }
  }

  lemma PriceIsPositive(amount: int, nav: real)
    ensures UnitsFor(amount, nav) > 0.0 <==> nav > 0.0 && amount > 0
  {
    if nav > 0.0 {
      var rupees := amount as real / 100.0;
      assert rupees / nav * nav == rupees;
    }
  }

  /** The failures that retrying cannot cure stay the same at every price. */
  lemma EnvelopeFailuresArePermanent(b: Book, e: OrderEvent, nav: real, nav': real, cap: nat)
    requires !IsFill(e)
    ensures Project(b, e, nav, cap) == Project(b, e, nav', cap)
    ensures Project(b, e, nav, cap).0 == b
    ensures Project(b, e, nav, cap).1.NotAFill? || Project(b, e, nav, cap).1.Rejected?
  {
  }

  // ----- pricing through the cache -----

  /**
   One NAV lookup's luck: the cache read (an expired entry reads as a failure), the feed's answer,
   the cache write.
   */
  datatype NavWeather = NavWeather(readFails: bool, feed: Option<real>, writeFails: bool)

  function Price(cache: map<string, real>, fundId: string, w: NavWeather): real {
    if !w.readFails && fundId in cache then cache[fundId]
    else if w.feed.Some? then w.feed.value
    else 0.0
  }

  /** A hit leaves the cache alone; a price from the feed is stored if the write succeeds. */
  function CacheAfter(cache: map<string, real>, fundId: string, w: NavWeather): map<string, real> {
    if (!w.readFails && fundId in cache) || w.feed.None? || w.writeFails then cache
    else cache[fundId := w.feed.value]
  }

  datatype Lookup = Lookup(fundId: string, w: NavWeather)

  /** The cache after a series of lookups. */
  function CacheAfterAll(cache: map<string, real>, lookups: seq<Lookup>): map<string, real> {
    if lookups == [] then cache
    else
      var last := lookups[|lookups| - 1];
      CacheAfter(CacheAfterAll(cache, lookups[..|lookups| - 1]), last.fundId, last.w)
  }

  /** Nothing but what was there and what the feed answered for that very fund ever gets into the cache. */
  lemma {:induction false} CacheHoldsFeedAnswers(cache: map<string, real>, lookups: seq<Lookup>, fundId: string)
    requires fundId in CacheAfterAll(cache, lookups)
    ensures var price := CacheAfterAll(cache, lookups)[fundId];
            || (fundId in cache && cache[fundId] == price)
            || exists i :: 0 <= i < |lookups| && lookups[i].fundId == fundId && lookups[i].w.feed == Some(price)
  {
    if lookups == [] {
    } else {
      var front, last := lookups[..|lookups| - 1], lookups[|lookups| - 1];
      var before, after := CacheAfterAll(cache, front), CacheAfterAll(cache, lookups);
      if fundId in before && before[fundId] == after[fundId] {
        CacheHoldsFeedAnswers(cache, front, fundId);
        assert forall i :: 0 <= i < |front| ==> front[i] == lookups[i];
      } else {
        assert last.fundId == fundId && last.w.feed == Some(after[fundId]);
      }
    }
  }

  /** While its cache entry can be read, a fund keeps its price through any lookups, whatever the feed answers. */
  lemma {:induction false} CachedPriceStands(cache: map<string, real>, lookups: seq<Lookup>, fundId: string,
                                             w: NavWeather)
    requires fundId in cache && !w.readFails
    requires forall i :: 0 <= i < |lookups| && lookups[i].fundId == fundId ==> !lookups[i].w.readFails
    ensures fundId in CacheAfterAll(cache, lookups)
    ensures Price(CacheAfterAll(cache, lookups), fundId, w) == cache[fundId]
  {
    if lookups == [] {
    } else {
      CachedPriceStands(cache, lookups[..|lookups| - 1], fundId, w);
    }
  }

  /** A holding marked to a price; the one rounding is in MarketValue. */
  datatype Valued = Valued(holding: Holding, nav: real, currentValue: int, unrealizedGain: int)

  function ValueOf(h: Holding, nav: real): Valued {
    var current := MarketValue(nav, h.units);
    Valued(h, nav, current, current - h.invested)
  }

  function TotalValue(rows: seq<Valued>): int {
    if rows == [] then 0 else TotalValue(rows[..|rows| - 1]) + rows[|rows| - 1].currentValue
  }

  function TotalGain(rows: seq<Valued>): int {
    if rows == [] then 0 else TotalGain(rows[..|rows| - 1]) + rows[|rows| - 1].unrealizedGain
  }

  function TotalCost(holdings: seq<Holding>): int {
    if holdings == [] then 0 else TotalCost(holdings[..|holdings| - 1]) + holdings[|holdings| - 1].invested
  }

  /** The portfolio being added up. */
  class PortfolioValuation {
    var userId: string
    var totalValue: int
    var totalUnrealizedGain: int
    var rows: seq<Valued>

    ghost predicate Valid()
      reads this
    {
      totalValue == TotalValue(rows) && totalUnrealizedGain == TotalGain(rows)
    }

    constructor (userId: string)
      ensures Valid() && this.userId == userId && rows == []
    {
      this.userId := userId;
      totalValue, totalUnrealizedGain, rows := 0, 0, [];
    }

    method Add(valued: Valued)
      requires Valid()
      modifies this
      ensures Valid() && rows == old(rows) + [valued] && userId == old(userId)
    {
      totalValue := totalValue + valued.currentValue;
      totalUnrealizedGain := totalUnrealizedGain + valued.unrealizedGain;
      rows := rows + [valued];
      assert rows[..|rows| - 1] == old(rows);
    }
  }

  function FundsOf(held: seq<Holding>): set<string> {
    set i | 0 <= i < |held| :: held[i].fundId
  }

  /** Every holding at its fund's price, in order. */
  function MarkedTo(held: seq<Holding>, prices: map<string, real>): seq<Valued> {
    seq(|held|, i requires 0 <= i < |held| =>
      ValueOf(held[i], if held[i].fundId in prices then prices[held[i].fundId] else 0.0))
  }

  /** Each priced fund had one lookup of its own, and its price is what cache and feed had for it at that turn. */
  ghost predicate Priced(prices: map<string, real>, turn: map<string, nat>, before: map<string, real>,
                         weather: nat -> NavWeather) {
    && turn.Keys == prices.Keys
    && (forall f :: f in prices ==> turn[f] < |prices| && prices[f] == Price(before, f, weather(turn[f])))
    && (forall f, g :: f in turn && g in turn && turn[f] == turn[g] ==> f == g)
  }

  /** The cache is as before for every fund not priced yet. */
  ghost predicate AgreeElsewhere(cache: map<string, real>, before: map<string, real>, prices: map<string, real>) {
    forall f :: f !in prices ==> (f in cache <==> f in before) && (f in cache ==> cache[f] == before[f])
  }

  lemma PricedNext(prices: map<string, real>, turn: map<string, nat>, before: map<string, real>,
                                      weather: nat -> NavWeather, fundId: string, cache: map<string, real>)
    requires Priced(prices, turn, before, weather) && AgreeElsewhere(cache, before, prices) && fundId !in prices
    ensures var w := weather(|prices|);
            var prices' := prices[fundId := Price(cache, fundId, w)];
            && Priced(prices', turn[fundId := |prices|], before, weather)
            && AgreeElsewhere(CacheAfter(cache, fundId, w), before, prices')
  {
    var w := weather(|prices|);
    var prices', turn' := prices[fundId := Price(cache, fundId, w)], turn[fundId := |prices|];
    assert |prices'| == |prices| + 1;
    forall f | f in prices' ensures turn'[f] < |prices'| && prices'[f] == Price(before, f, weather(turn'[f])) {
      assert f != fundId ==> f in prices;
    }
    forall f, g | f in turn' && g in turn' && turn'[f] == turn'[g] ensures f == g {
      assert f != fundId ==> turn[f] < |prices|;
      assert g != fundId ==> turn[g] < |prices|;
    }
  }

  lemma FundsNext(held: seq<Holding>, i: nat)
    requires i < |held|
    ensures FundsOf(held[..i + 1]) == FundsOf(held[..i]) + {held[i].fundId}
  {
    assert held[..i + 1][i] == held[i];
    forall f | f in FundsOf(held[..i]) ensures f in FundsOf(held[..i + 1]) {
      var j :| 0 <= j < i && held[..i][j].fundId == f;
      assert held[..i + 1][j].fundId == f;
    }
  }

  lemma MarkedNext(held: seq<Holding>, i: nat, prices: map<string, real>, prices': map<string, real>)
    requires i < |held| && prices.Keys == FundsOf(held[..i]) && held[i].fundId in prices'
    requires forall f :: f in prices ==> f in prices' && prices'[f] == prices[f]
    ensures MarkedTo(held[..i + 1], prices')
        == MarkedTo(held[..i], prices) + [ValueOf(held[i], prices'[held[i].fundId])]
  {
    forall j | 0 <= j < i ensures held[..i][j].fundId in prices {
      assert held[..i][j].fundId in FundsOf(held[..i]);
    }
  }

  class PortfolioService {
    const holdings: HoldingsRepository
    var cache: map<string, real>
    ghost var lookups: nat

    constructor (holdings: HoldingsRepository)
      ensures this.holdings == holdings && cache == map[] && lookups == 0
    {
      this.holdings := holdings;
      cache := map[];
      lookups := 0;
    }

    /** Cache first, then the feed; no price reads as zero.  lookups counts the calls. */
    method ResolveNAV(fundId: string, w: NavWeather) returns (price: real)
      modifies this`cache, this`lookups
      ensures lookups == old(lookups) + 1
      ensures price == Price(old(cache), fundId, w)
      ensures cache == CacheAfter(old(cache), fundId, w)
    {
      lookups := lookups + 1;
      if !w.readFails && fundId in cache {
        return cache[fundId];
      }
      if w.feed.None? {
        return 0.0;
      }
      price := w.feed.value;
      if !w.writeFails {
        cache := cache[fundId := price];
      }
    }

    /** The price of a fund, looked up only if the call has not priced it yet. */
    method PriceOnce(fundId: string, seen: map<string, real>, ghost turn: map<string, nat>,
                     ghost before: map<string, real>,
                     weather: nat -> NavWeather)
      returns (seen': map<string, real>, ghost turn': map<string, nat>)
      requires Priced(seen, turn, before, weather) && AgreeElsewhere(cache, before, seen)
      modifies this`cache, this`lookups
      ensures lookups + |seen| == old(lookups) + |seen'|
      ensures Priced(seen', turn', before, weather) && AgreeElsewhere(cache, before, seen')
      ensures seen'.Keys == seen.Keys + {fundId}
      ensures forall f :: f in seen ==> seen'[f] == seen[f]
    {
      seen', turn' := seen, turn;
      if fundId !in seen {
        PricedNext(seen, turn, before, weather, fundId, cache);
        var price := ResolveNAV(fundId, weather(|seen|));
        seen', turn' := seen[fundId := price], turn[fundId := |seen|];
      }
    }

    /** Marks the i-th holding. */
    method MarkNext(valuation: PortfolioValuation, held: seq<Holding>, i: nat, seen: map<string, real>,
                    ghost turn: map<string, nat>,
                    ghost before: map<string, real>, weather: nat -> NavWeather)
      returns (seen': map<string, real>, ghost turn': map<string, nat>)
      requires i < |held| && seen.Keys == FundsOf(held[..i])
      requires valuation.Valid() && valuation.rows == MarkedTo(held[..i], seen)
      requires Priced(seen, turn, before, weather) && AgreeElsewhere(cache, before, seen)
      modifies this`cache, this`lookups, valuation
      ensures Priced(seen', turn', before, weather) && AgreeElsewhere(cache, before, seen')
      ensures lookups + |seen| == old(lookups) + |seen'| && seen'.Keys == FundsOf(held[..i + 1])
      ensures valuation.Valid() && valuation.userId == old(valuation.userId)
      ensures valuation.rows == MarkedTo(held[..i + 1], seen')
    {
      FundsNext(held, i);
      seen', turn' := PriceOnce(held[i].fundId, seen, turn, before, weather);
      valuation.Add(ValueOf(held[i], seen'[held[i].fundId]));
      MarkedNext(held, i, seen, seen');
    }

    /**
     Marks every holding of a user.  One lookup is made for each fund held, and turn says which
     one priced it.
     */
    method Valuate(userId: string, weather: nat -> NavWeather)
      returns (valuation: PortfolioValuation, ghost prices: map<string, real>, ghost turn: map<string, nat>)
      modifies this`cache, this`lookups
      ensures lookups == old(lookups) + |prices|
      ensures fresh(valuation) && valuation.Valid() && valuation.userId == userId
      ensures Priced(prices, turn, old(cache), weather)
      ensures prices.Keys == FundsOf(HoldingsOf(holdings.byUser, userId))
      ensures valuation.rows == MarkedTo(HoldingsOf(holdings.byUser, userId), prices)
      ensures valuation.totalUnrealizedGain
           == valuation.totalValue - TotalCost(HoldingsOf(holdings.byUser, userId))
    {
      var held := holdings.ListByUser(userId);
      valuation := new PortfolioValuation(userId);
      turn := map[];
      var seen: map<string, real> := map[];
      var i := 0;
      while i < |held|
        invariant 0 <= i <= |held|
        invariant fresh(valuation) && valuation.Valid() && valuation.userId == userId
        invariant Priced(seen, turn, old(cache), weather) && AgreeElsewhere(cache, old(cache), seen)
        invariant lookups == old(lookups) + |seen|
        invariant seen.Keys == FundsOf(held[..i])
        invariant valuation.rows == MarkedTo(held[..i], seen)
      {
        seen, turn := MarkNext(valuation, held, i, seen, turn, old(cache), weather);
        i := i + 1;
      }
      prices := seen;
      assert held[..i] == held;
      GainIsValueLessCost(held, prices);
    }

    /**
     Projects one event at the price found under the given weather; the error is the verdict
     itself when it is not a success.
     */
    method ApplyOrderEvent(e: OrderEvent, w: NavWeather) returns (applied: bool, verdict: Verdict)
      requires holdings.Valid()
      modifies this`cache, this`lookups, holdings
      ensures holdings.Valid()
      ensures (holdings.View(), verdict)
           == Project(old(holdings.View()), e, Price(old(cache), e.order.fundId, w), MAX_APPLIED_EVENTS)
      ensures applied == verdict.Changed?
      ensures cache == if IsFill(e) then CacheAfter(old(cache), e.order.fundId, w) else old(cache)
    {
      var invalid := Validate(e);
      if invalid.Some? {
        return false, Rejected(BadEnvelope(invalid.value));
      }
      if !IsExecuted(e) {
        return false, NotAFill;
      }
      var side := SideOf(e.order.kind);
      if side.Unmapped? {
        return false, Rejected(UnknownType(e.order.kind));
      }
      var nav := ResolveNAV(e.order.fundId, w);
      var units := UnitsFor(e.order.amount, nav);
      if units <= 0.0 {
        return false, Unpriced;
      }
      var err;
      applied, err := holdings.Apply(Movement(e.eventId, e.order.userId, e.order.fundId, side, units, e.order.amount));
      if err.Some? {
        return false, Rejected(Contradiction(err.value));
      }
      verdict := if applied then Changed else AlreadyApplied;
    }
  }

  /** Marked holding by holding, gain is value less cost, so in total it is too. */
  lemma {:induction false} GainIsValueLessCost(held: seq<Holding>, prices: map<string, real>)
    ensures var rows := MarkedTo(held, prices);
            TotalGain(rows) == TotalValue(rows) - TotalCost(held)
  {
    if held == [] {
    } else {
      var front := held[..|held| - 1];
      GainIsValueLessCost(front, prices);
      assert MarkedTo(held, prices)[..|held| - 1] == MarkedTo(front, prices);
    }
  }
}
