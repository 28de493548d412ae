/**
 The holdings ledger: positions per user behind a bounded first-in-first-out set of
 applied event ids.
 */
module Ledger {
  import opened Wrappers
  import opened Position

  const MAX_APPLIED_EVENTS: nat := 100_000

  datatype Side = BUY | SELL | Unmapped(text: string)

  datatype Movement = Movement(eventId: string, userId: string, fundId: string, side: Side, units: real, amount: int)

  type Positions = map<string, seq<Holding>>

  /** The ledger as a value; the ids in order are exactly those of the dedup set. */
  datatype Book = Book(byUser: Positions, order: seq<string>)

  datatype Outcome = Applied | Duplicate | Failed(error: SellError)

  const FUND_NAMES: map<string, string> := map[
    "fund-axi-blue" := "AXI Bluechip",
    "fund-icici-growth" := "ICICI Growth",
    "fund-hdfc-top" := "HDFC Top 100"]

  function FundName(fundId: string): string {
    if fundId in FUND_NAMES then FUND_NAMES[fundId] else fundId
  }

  // ----- the ledger as functions -----

  function IndexOfFund(holdings: seq<Holding>, fundId: string): (index: int)
    ensures -1 <= index < |holdings|
    ensures index >= 0 ==> holdings[index].fundId == fundId
    ensures index < 0 ==> forall i :: 0 <= i < |holdings| ==> holdings[i].fundId != fundId
  {
    if holdings == [] then -1
    else if holdings[0].fundId == fundId then 0
    else
      var rest := IndexOfFund(holdings[1..], fundId);
      assert forall i :: 0 < i < |holdings| ==> holdings[i] == holdings[1..][i - 1];
      if rest < 0 then -1 else rest + 1
  }

  function HoldingsOf(byUser: Positions, userId: string): seq<Holding> {
    if userId in byUser then byUser[userId] else []
  }

  function BuyInto(byUser: Positions, m: Movement): Positions {
    var holdings := HoldingsOf(byUser, m.userId);
    var index := IndexOfFund(holdings, m.fundId);
    byUser[m.userId :=
      if index >= 0 then holdings[index := Bought(holdings[index], m.units, m.amount)]
      else holdings + [Holding(m.fundId, FundName(m.fundId), m.units, m.amount)]]
  }

  /** The holdings after a sale: a closed position is removed, an open one stays in its place. */
  function Kept(holdings: seq<Holding>, index: nat, after: Holding): seq<Holding>
    requires index < |holdings|
  {
    if IsClosed(after) then holdings[..index] + holdings[index + 1..] else holdings[index := after]
  }

  function SellFrom(byUser: Positions, m: Movement): Result<Positions, SellError> {
    var holdings := HoldingsOf(byUser, m.userId);
    var index := IndexOfFund(holdings, m.fundId);
    if index < 0 then Err(NoPosition)
    else
      match Sold(holdings[index], m.units)
      case Err(e) => Err(e)
      case Ok((after, _)) =>
        var kept := Kept(holdings, index, after);
        Ok(if kept == [] then byUser - {m.userId} else byUser[m.userId := kept])
  }

  function MoveIn(byUser: Positions, m: Movement): Result<Positions, SellError> {
    match m.side
    case BUY => Ok(BuyInto(byUser, m))
    case SELL => SellFrom(byUser, m)
    case Unmapped(_) => Err(UnknownSide)
  }

  /** The last cap ids of an order list: what the window still remembers. */
  function Recent(order: seq<string>, cap: nat): seq<string> {
    if |order| <= cap then order else order[|order| - cap..]
  }

  function ApplyTo(b: Book, m: Movement, cap: nat): (Book, Outcome) {
    if m.eventId in b.order then (b, Duplicate)
    else
      match MoveIn(b.byUser, m)
      case Err(e) => (b, Failed(e))
      case Ok(byUser) => (Book(byUser, Recent(b.order + [m.eventId], cap)), Applied)
  }

  // ----- the ledger in place -----

  /** The demo positions. */
  const SEED: Positions := map[
    "user-1" := [Holding("fund-axi-blue", "AXI Bluechip", 12.5, 150000),
                 Holding("fund-icici-growth", "ICICI Growth", 8.2, 120000)],
    "user-2" := [Holding("fund-hdfc-top", "HDFC Top 100", 20.0, 320000)]]

  function Elements(s: seq<string>): set<string> {
    set i | 0 <= i < |s| :: s[i]
  }

  ghost predicate NoRepeats(s: seq<string>) {
    forall i, j :: 0 <= i < j < |s| ==> s[i] != s[j]
  }

  class HoldingsRepository {
    var byUser: Positions
    var appliedEvents: set<string>
    var appliedOrder: seq<string>

    ghost predicate Valid()
      reads this
    {
      appliedEvents == Elements(appliedOrder) && NoRepeats(appliedOrder) && |appliedOrder| <= MAX_APPLIED_EVENTS
    }

    ghost function View(): Book
      reads this
    {
      Book(byUser, appliedOrder)
    }

    constructor (seed: bool)
      ensures Valid()
      ensures !seed ==> View() == Book(map[], [])
      ensures seed ==> View() == Book(SEED, [])
    {
      appliedEvents, appliedOrder := {}, [];
      byUser := if seed then SEED else map[];
    }

    method ListByUser(userId: string) returns (holdings: seq<Holding>)
      ensures holdings == HoldingsOf(byUser, userId)
    {
      holdings := HoldingsOf(byUser, userId);
    }

    /** The index loop. */
    static method FindFund(holdings: seq<Holding>, fundId: string) returns (index: int)
      ensures index == IndexOfFund(holdings, fundId)
    {
      index := 0;
      while index < |holdings|
        invariant 0 <= index <= |holdings|
        invariant IndexOfFund(holdings, fundId) == -1 || IndexOfFund(holdings, fundId) >= index
      {
        if holdings[index].fundId == fundId {
          FirstIndex(holdings, fundId, index);
          return;
        }
        index := index + 1;
      }
      index := -1;
    }

    method ApplyBuy(m: Movement)
      modifies this`byUser
      ensures byUser == BuyInto(old(byUser), m)
    {
      var holdings := HoldingsOf(byUser, m.userId);
      var index := FindFund(holdings, m.fundId);
      if index >= 0 {
        var cell := new Cell(holdings[index]);
        cell.ApplyBuy(m.units, m.amount);
        byUser := byUser[m.userId := holdings[index := cell.Value()]];
        return;
      }
      byUser := byUser[m.userId := holdings + [Holding(m.fundId, FundName(m.fundId), m.units, m.amount)]];
    }

    method ApplySell(m: Movement) returns (err: Option<SellError>)
      modifies this`byUser
      ensures match SellFrom(old(byUser), m)
              case Ok(after) => err == None && byUser == after
              case Err(e) => err == Some(e) && byUser == old(byUser)
    {
      var holdings := HoldingsOf(byUser, m.userId);
      var index := FindFund(holdings, m.fundId);
      if index < 0 {
        return Some(NoPosition);
      }
      var cell := new Cell(holdings[index]);
      var sale := cell.ApplySell(m.units);
      if sale.Err? {
        return Some(sale.error);
      }
      if IsClosed(cell.Value()) {
        holdings := holdings[..index] + holdings[index + 1..];
      } else {
        holdings := holdings[index := cell.Value()];
      }
      if |holdings| == 0 {
        byUser := byUser - {m.userId};
        return None;
      }
      byUser := byUser[m.userId := holdings];
      err := None;
    }

    /** Records an id and evicts the oldest ones beyond the bound, set and list alike. */
    method MarkApplied(eventId: string)
      requires Valid() && eventId !in appliedOrder
      modifies this`appliedEvents, this`appliedOrder
      ensures Valid()
      ensures appliedOrder == Recent(old(appliedOrder) + [eventId], MAX_APPLIED_EVENTS)
    {
      appliedEvents := appliedEvents + {eventId};
      appliedOrder := appliedOrder + [eventId];
      assert appliedEvents == Elements(appliedOrder) by {
        ElementsAppend(old(appliedOrder), eventId);
      }
      if |appliedOrder| <= MAX_APPLIED_EVENTS {
        return;
      }
      var evict := |appliedOrder| - MAX_APPLIED_EVENTS;
      var i := 0;
      while i < evict
        invariant 0 <= i <= evict < |appliedOrder|
        invariant appliedOrder == old(appliedOrder) + [eventId]
        invariant NoRepeats(appliedOrder)
        invariant appliedEvents == Elements(appliedOrder[i..])
      {
        ElementsDropFirst(appliedOrder[i..]);
        assert appliedOrder[i..][1..] == appliedOrder[i + 1..];
        appliedEvents := appliedEvents - {appliedOrder[i]};
        i := i + 1;
      }
      appliedOrder := appliedOrder[evict..];
    }

    /** One movement, checked and applied under the lock; None for the error means success or a skipped duplicate. */
    method Apply(m: Movement) returns (applied: bool, err: Option<SellError>)
      requires Valid()
      modifies this
      ensures Valid()
      ensures var (book, outcome) := ApplyTo(old(View()), m, MAX_APPLIED_EVENTS);
              && View() == book
              && applied == outcome.Applied?
              && err == if outcome.Failed? then Some(outcome.error) else None
    {
      if m.eventId in appliedEvents {
        return false, None;
      }
      err := None;
      match m.side {
        case BUY => ApplyBuy(m);
        case SELL => err := ApplySell(m);
        case Unmapped(_) => err := Some(UnknownSide);
      }
      if err.Some? {
        return false, err;
      }
      MarkApplied(m.eventId);
      applied := true;
    }
  }

  lemma {:induction false} FirstIndex(holdings: seq<Holding>, fundId: string, index: nat)
    requires index < |holdings| && holdings[index].fundId == fundId
    requires IndexOfFund(holdings, fundId) == -1 || IndexOfFund(holdings, fundId) >= index
    ensures IndexOfFund(holdings, fundId) == index
  {
    if index == 0 {
    } else {
      FirstIndex(holdings[1..], fundId, index - 1);
    }
  }

  lemma ElementsAppend(s: seq<string>, x: string)
    ensures Elements(s + [x]) == Elements(s) + {x}
  {
    assert (s + [x])[|s|] == x;
    forall y | y in Elements(s) ensures y in Elements(s + [x]) {
      var i :| 0 <= i < |s| && s[i] == y;
      assert (s + [x])[i] == y;
    }
  }

  lemma ElementsDropFirst(s: seq<string>)
    requires s != [] && NoRepeats(s)
    ensures Elements(s[1..]) == Elements(s) - {s[0]}
  {
    forall y | y in Elements(s) && y != s[0] ensures y in Elements(s[1..]) {
      var i :| 0 <= i < |s| && s[i] == y;
      assert s[1..][i - 1] == y;
    }
  }

  // ----- what every movement keeps -----

  ghost predicate SoundHoldings(holdings: seq<Holding>) {
    && holdings != []
    && (forall i :: 0 <= i < |holdings| ==> holdings[i].units > 0.0 && holdings[i].invested >= 0)
    && (forall i, j :: 0 <= i < j < |holdings| ==> holdings[i].fundId != holdings[j].fundId)
  }

  /** No empty user entry, one holding per user and fund, positive units, no negative cost. */
  ghost predicate SoundPositions(byUser: Positions) {
    forall u :: u in byUser ==> SoundHoldings(byUser[u])
  }

  ghost predicate Sound(b: Book, cap: nat) {
    SoundPositions(b.byUser) && NoRepeats(b.order) && |b.order| <= cap
  }

  /** What the event path sends: positive units and consideration on either side. */
  predicate PositiveMovement(m: Movement) {
    m.units > 0.0 && m.amount > 0
  }

  /** Seeded or not, a new ledger is sound and has applied nothing. */
  lemma NewLedgerIsSound(cap: nat)
    ensures Sound(Book(map[], []), cap) && Sound(Book(SEED, []), cap)
  {
    assert SoundHoldings(SEED["user-1"]) && SoundHoldings(SEED["user-2"]);
  }

  lemma BuySound(byUser: Positions, m: Movement)
    requires SoundPositions(byUser) && PositiveMovement(m)
    ensures SoundPositions(BuyInto(byUser, m))
  {
    assert SoundHoldings(BuyInto(byUser, m)[m.userId]);
  }

  lemma SellSound(byUser: Positions, m: Movement)
    requires SoundPositions(byUser) && PositiveMovement(m) && SellFrom(byUser, m).Ok?
    ensures SoundPositions(SellFrom(byUser, m).value)
  {
    var holdings := HoldingsOf(byUser, m.userId);
    var index := IndexOfFund(holdings, m.fundId);
    assert SoundHoldings(holdings);
    SaleReleasesPart(holdings[index], m.units);
  }

  lemma RecentSound(order: seq<string>, id: string, cap: nat)
    requires NoRepeats(order) && id !in order
    ensures NoRepeats(Recent(order + [id], cap)) && |Recent(order + [id], cap)| <= cap
  {
  }

  /**
   Every Apply keeps the ledger sound, and one that does not apply, for whatever reason,
   leaves the whole state as it was.
   */
  lemma ApplyKeepsSound(b: Book, m: Movement, cap: nat)
    requires Sound(b, cap) && PositiveMovement(m)
    ensures var (b', outcome) := ApplyTo(b, m, cap);
            && Sound(b', cap)
            && (!outcome.Applied? ==> b' == b)
            && (outcome.Applied? && cap > 0 ==> m.eventId in b'.order)
  {
    if m.eventId !in b.order && MoveIn(b.byUser, m).Ok? {
      RecentSound(b.order, m.eventId, cap);
      if m.side.BUY? {
        BuySound(b.byUser, m);
      } else {
        SellSound(b.byUser, m);
      }
      var all := b.order + [m.eventId];
      assert all[|all| - 1] == m.eventId;
      assert cap > 0 ==> Recent(all, cap)[|Recent(all, cap)| - 1] == m.eventId;
    }
  }

  // ----- positions, one at a time -----

  function PositionOf(byUser: Positions, userId: string, fundId: string): Option<Holding> {
    Find(HoldingsOf(byUser, userId), fundId)
  }

  function Find(holdings: seq<Holding>, fundId: string): Option<Holding> {
    var index := IndexOfFund(holdings, fundId);
    if index < 0 then None else Some(holdings[index])
  }

  function MoveOf(m: Movement): Move {
    if m.side.BUY? then Buy(m.units, m.amount) else Sell(m.units)
  }

  lemma IndexUnique(holdings: seq<Holding>, fundId: string, i: nat)
    requires forall x, y :: 0 <= x < y < |holdings| ==> holdings[x].fundId != holdings[y].fundId
    requires i < |holdings| && holdings[i].fundId == fundId
    ensures IndexOfFund(holdings, fundId) == i
  {
  }

  lemma Dropped(holdings: seq<Holding>, index: nat, fundId: string)
    requires SoundHoldings(holdings) && index < |holdings|
    ensures Find(holdings[..index] + holdings[index + 1..], fundId)
         == if fundId == holdings[index].fundId then None else Find(holdings, fundId)
  {
    var kept := holdings[..index] + holdings[index + 1..];
    var i, k := IndexOfFund(holdings, fundId), IndexOfFund(kept, fundId);
    if i >= 0 && i != index {
      assert kept[if i < index then i else i - 1] == holdings[i];
    }
    if k >= 0 {
      var j := if k < index then k else k + 1;
      assert kept[k] == holdings[j];
      IndexUnique(holdings, fundId, j);
    }
  }

  lemma Replaced(holdings: seq<Holding>, index: nat, h: Holding, fundId: string)
    requires SoundHoldings(holdings) && index < |holdings| && h.fundId == holdings[index].fundId
    ensures Find(holdings[index := h], fundId) == if fundId == h.fundId then Some(h) else Find(holdings, fundId)
  {
    var kept := holdings[index := h];
    var i := if fundId == h.fundId then index else IndexOfFund(holdings, fundId);
    if i >= 0 {
      IndexUnique(kept, fundId, i);
    } else {
      assert forall x :: 0 <= x < |kept| ==> kept[x].fundId == holdings[x].fundId;
    }
  }

  lemma Appended(holdings: seq<Holding>, h: Holding, fundId: string)
    requires IndexOfFund(holdings, h.fundId) < 0
    requires holdings != [] ==> SoundHoldings(holdings)
    ensures Find(holdings + [h], fundId) == if fundId == h.fundId then Some(h) else Find(holdings, fundId)
  {
    var all := holdings + [h];
    var i := IndexOfFund(holdings, fundId);
    if fundId == h.fundId {
      IndexUnique(all, fundId, |holdings|);
    } else if i >= 0 {
      IndexUnique(all, fundId, i);
    } else {
      assert forall x :: 0 <= x < |all| ==> all[x].fundId != fundId;
    }
  }

  lemma BuyIsLocal(byUser: Positions, m: Movement, userId: string, fundId: string)
    requires SoundPositions(byUser)
    ensures PositionOf(BuyInto(byUser, m), userId, fundId)
         == if userId == m.userId && fundId == m.fundId
            then Moved(PositionOf(byUser, m.userId, m.fundId), m.fundId, FundName(m.fundId),
                       Buy(m.units, m.amount)).value
            else PositionOf(byUser, userId, fundId)
  {
    var holdings := HoldingsOf(byUser, m.userId);
    var index := IndexOfFund(holdings, m.fundId);
    if index >= 0 {
      Replaced(holdings, index, Bought(holdings[index], m.units, m.amount), fundId);
    } else {
      Appended(holdings, Holding(m.fundId, FundName(m.fundId), m.units, m.amount), fundId);
    }
  }

  lemma KeptFind(holdings: seq<Holding>, index: nat, after: Holding, fundId: string)
    requires SoundHoldings(holdings) && index < |holdings| && after.fundId == holdings[index].fundId
    ensures Find(Kept(holdings, index, after), fundId)
         == if fundId != after.fundId then Find(holdings, fundId) else if IsClosed(after) then None else Some(after)
  {
    if IsClosed(after) {
      Dropped(holdings, index, fundId);
    } else {
      Replaced(holdings, index, after, fundId);
    }
  }

  lemma SellIsLocal(byUser: Positions, m: Movement, userId: string, fundId: string)
    requires SoundPositions(byUser)
    ensures match (SellFrom(byUser, m), Moved(PositionOf(byUser, m.userId, m.fundId), m.fundId, FundName(m.fundId),
                                            Sell(m.units)))
            case (Ok(after), Ok(p)) =>
              PositionOf(after, userId, fundId)
              == if userId == m.userId && fundId == m.fundId then p else PositionOf(byUser, userId, fundId)
            case (Err(e), Err(e')) => e == e'
            case _ => false
  {
    var holdings := HoldingsOf(byUser, m.userId);
    var index := IndexOfFund(holdings, m.fundId);
    if index >= 0 && Sold(holdings[index], m.units).Ok? {
      var after := Sold(holdings[index], m.units).value.0;
      assert SoundHoldings(holdings);
      KeptFind(holdings, index, after, fundId);
    }
  }

  /** A movement touches the one position it names, as the position arithmetic says, and no other. */
  lemma MoveIsLocal(byUser: Positions, m: Movement, userId: string, fundId: string)
    requires SoundPositions(byUser) && !m.side.Unmapped?
    ensures match (MoveIn(byUser, m), Moved(PositionOf(byUser, m.userId, m.fundId), m.fundId, FundName(m.fundId),
                                           MoveOf(m)))
            case (Ok(after), Ok(p)) =>
              PositionOf(after, userId, fundId)
              == if userId == m.userId && fundId == m.fundId then p else PositionOf(byUser, userId, fundId)
            case (Err(e), Err(e')) => e == e'
            case _ => false
  {
    if m.side.BUY? {
      BuyIsLocal(byUser, m, userId, fundId);
    } else {
      SellIsLocal(byUser, m, userId, fundId);
    }
  }
}
