/**
 How often one order can move the ledger.  Repeating EXECUTED is a legal edge and writes an
 event of its own, so an order takes effect at most once exactly as long as its history holds
 one execution.  On the way: nothing that is committed is ever out of the consumer's reach.
 */
module Executions {
  import opened Wrappers
  import opened Orders
  import opened Outbox
  import opened OrderHistory
  import opened Position
  import opened Ledger
  import opened Window
  import opened Projection
  import opened Pipeline
  import Relays
  import RelayRuns
  import OrderSystem

  /** The n-th delivery put the event of some row of the order to the ledger. */
  ghost predicate OfOrder(s: State, n: nat, id: OrderId)
    requires n < |s.deliveries|
  {
    exists x :: 0 <= x < |s.sys.rows| && s.sys.rows[x].event.eventId == s.deliveries[n].eventId
                && s.sys.rows[x].Aggregate() == id
  }

  /** The order has moved the ledger more than once. */
  ghost predicate TwiceEffective(s: State, id: OrderId) {
    exists i, j :: 0 <= i < j < |s.deliveries| && TookEffect(s, i) && TookEffect(s, j) && OfOrder(s, i, id)
        && OfOrder(s, j, id)
  }

  /** The order has been EXECUTED more than once: PENDING, PROCESSING, EXECUTED, and EXECUTED again. */
  predicate TwiceExecuted(rows: seq<Row>, id: OrderId) {
    |History(rows, id)| > 3 && History(rows, id)[3] == Executed
  }

  lemma {:induction false} TwoInHistory(rows: seq<Row>, x: nat, y: nat) returns (p: nat, q: nat)
    requires x < y < |rows| && rows[x].Aggregate() == rows[y].Aggregate()
    ensures var walk := History(rows, rows[x].Aggregate());
            p < q < |walk| && walk[p] == rows[x].event.order.status && walk[q] == rows[y].event.order.status
  {
    if x == 0 {
      q := InHistory(rows[1..], y - 1);
      p, q := 0, q + 1;
    } else {
      p, q := TwoInHistory(rows[1..], x - 1, y - 1);
      if rows[0].Aggregate() == rows[x].Aggregate() {
        p, q := p + 1, q + 1;
      }
    }
  }

  /** An entry of an order's history is a row of that order. */
  lemma {:induction false} RowOfEntry(rows: seq<Row>, id: OrderId, p: nat) returns (x: nat)
    requires p < |History(rows, id)|
    ensures x < |rows| && rows[x].Aggregate() == id && rows[x].event.order.status == History(rows, id)[p]
    ensures |History(rows[..x], id)| == p
  {
    var own := rows[0].Aggregate() == id;
    if own && p == 0 {
      x := 0;
      assert rows[..0] == [];
    } else {
      var rest := RowOfEntry(rows[1..], id, if own then p - 1 else p);
      x := rest + 1;
      assert rows[..x][1..] == rows[1..][..rest];
    }
  }

  lemma TwoExecutions(rows: seq<Row>, x: nat, y: nat)
    requires x < y < |rows| && rows[x].Aggregate() == rows[y].Aggregate()
    requires rows[x].event.order.status == Executed && rows[y].event.order.status == Executed
    requires LegalWalk(History(rows, rows[x].Aggregate()))
    ensures TwiceExecuted(rows, rows[x].Aggregate())
  {
    var p, q := TwoInHistory(rows, x, y);
    ExecutionPath(History(rows, rows[x].Aggregate()), p);
  }

  /**
   Inside the dedup window an order that has been executed once moves the ledger at most once,
   whatever its type, however often it is shipped and redelivered.
   */
  lemma OneExecutionOneEffect(s: State, maxAttempts: nat, id: OrderId)
    requires Reachable(s, maxAttempts) && WindowKept(s.opening, s.deliveries, CAP)
    requires !TwiceExecuted(s.sys.rows, id)
    ensures !TwiceEffective(s, id)
  {
    ReachableKeeps(s, maxAttempts);
    forall i, j | 0 <= i < j < |s.deliveries| && TookEffect(s, i) && TookEffect(s, j) && OfOrder(s, i, id)
        && OfOrder(s, j, id)
      ensures false
    {
      var x, y := EachEventOnce(s, maxAttempts, i, j);
      ExecutedRow(s, maxAttempts, i, id, x);
      ExecutedRow(s, maxAttempts, j, id, y);
      TwoExecutions(s.sys.rows, if x < y then x else y, if x < y then y else x);
    }
  }

  lemma ExecutedRow(s: State, maxAttempts: nat, n: nat, id: OrderId, x: nat)
    requires Reachable(s, maxAttempts) && n < |s.deliveries| && OfOrder(s, n, id)
    requires x < |s.sys.rows| && s.sys.rows[x].event.eventId == s.deliveries[n].eventId
    ensures s.sys.rows[x].Aggregate() == id && s.sys.rows[x].event.order.status == Executed
  {
    var y :| 0 <= y < |s.sys.rows| && s.sys.rows[y].event.eventId == s.deliveries[n].eventId
             && s.sys.rows[y].Aggregate() == id;
    var z := EffectsComeFromExecutions(s, maxAttempts, n);
    assert x == z && y == z;
  }

  // ----- everything committed can still be shipped -----

  /** No order moves and nothing is put to the ledger. */
  ghost predicate ShipsOnly(steps: seq<Step>, limit: nat) {
    forall i :: 0 <= i < |steps| ==> steps[i].Ship? && (steps[i].relay.Begin? ==> steps[i].relay.limit == limit)
  }

  /** No order moves. */
  ghost predicate NoOrderMoves(steps: seq<Step>) {
    forall i :: 0 <= i < |steps| ==> !steps[i].Api?
  }

  function Shipped(s: State, r: Relays.State): State {
    s.(sys := s.sys.(rows := r.rows), log := r.log, txns := r.txns)
  }

  lemma {:induction false} ShipRun(s: State, relay: seq<Relays.Step>, limit: nat, maxAttempts: nat)
    returns (steps: seq<Step>)
    requires Relays.Possible(RelaysOf(s), relay, maxAttempts)
    requires (forall i :: 0 <= i < |relay| ==> !relay[i].Insert?) && RelayRuns.Sized(relay, limit)
    ensures ShipsOnly(steps, limit)
    ensures RunsTo(s, steps, Shipped(s, Relays.After(RelaysOf(s), relay, maxAttempts)), maxAttempts)
  {
    if relay == [] {
      steps := [];
    } else {
      var n := |relay| - 1;
      var front := ShipRun(s, relay[..n], limit, maxAttempts);
      var mid := Shipped(s, Relays.After(RelaysOf(s), relay[..n], maxAttempts));
      assert RelaysOf(mid) == Relays.After(RelaysOf(s), relay[..n], maxAttempts);
      OneMore(s, front, mid, Ship(relay[n]), maxAttempts);
      steps := front + [Ship(relay[n])];
    }
  }

  /** After a requeue whatever the log lacks is PENDING. */
  lemma RequeuedIsPending(rows: seq<Row>, log: seq<Message>, i: nat)
    requires Relays.ProcessedInLog(rows, log) && i < |rows|
    ensures var r := Relays.Requeued(rows)[i]; r.status.OutboxPending? || r.Record() in log
  {
  }

  /** The table has kept its payloads, and all of them are on the log. */
  ghost predicate AllLogged(rows: seq<Row>, rows': seq<Row>, log: seq<Message>) {
    && |rows'| == |rows|
    && forall i :: 0 <= i < |rows| ==> rows'[i].Record() == rows[i].Record() && rows[i].Record() in log
  }

  lemma RequeuedIsLogged(rows: seq<Row>, rows': seq<Row>, log: seq<Message>, log': seq<Message>)
    requires Relays.ProcessedInLog(rows, log) && log <= log'
    requires forall r :: r in Relays.Requeued(rows) && r.status.OutboxPending? ==> r.Record() in log'
    requires RelayRuns.SamePayloads(Relays.Requeued(rows), rows')
    ensures AllLogged(rows, rows', log')
  {
    var again := Relays.Requeued(rows);
    forall i | 0 <= i < |rows| ensures rows'[i].Record() == rows[i].Record() && rows[i].Record() in log' {
      RequeuedIsPending(rows, log, i);
      assert again[i] in again && rows'[i].Record() == again[i].Record();
    }
  }

  lemma RequeueFirst(rest: seq<Relays.Step>, limit: nat)
    requires RelayRuns.Tidy(rest, limit)
    ensures var steps := [Relays.Requeue] + rest;
            RelayRuns.Sized(steps, limit) && forall i :: 0 <= i < |steps| ==> !steps[i].Insert?
  {
    var steps := [Relays.Requeue] + rest;
    forall i | 0 <= i < |steps| ensures !steps[i].Insert? && (steps[i].Begin? ==> steps[i].limit == limit) {
      if i > 0 {
        assert steps[i] == rest[i - 1];
        assert RelayRuns.NoSupply(rest[i - 1]);
      }
    }
  }

  /** The relays can put every committed row on the log, from any state they can get into and with any batch size. */
  lemma AllCanBeLogged(r: Relays.State, limit: nat, maxAttempts: nat)
    returns (steps: seq<Relays.Step>, r': Relays.State)
    requires Relays.Inv(r, maxAttempts) && limit > 0
    ensures AllLogged(r.rows, r'.rows, r'.log)
    ensures RelayRuns.Sized(steps, limit) && forall i :: 0 <= i < |steps| ==> !steps[i].Insert?
    ensures RelayRuns.RunsTo(r, steps, r', maxAttempts)
  {
    var r1 := Relays.Exec(r, Relays.Requeue, maxAttempts);
    assert Sorted(r1.rows);
    var rest;
    rest, r' := RelayRuns.PendingCanBeDelivered(r1, limit, maxAttempts);
    RequeuedIsLogged(r.rows, r'.rows, r.log, r'.log);
    RequeueFirst(rest, limit);
    steps := [Relays.Requeue] + rest;
    RelayRuns.OneStep(r, Relays.Requeue, r1, maxAttempts);
    RelayRuns.RunsConcat(r, [Relays.Requeue], r1, rest, r', maxAttempts);
  }

  /** Nothing is stranded: from every state of the pipeline each committed event can still reach the log. */
  lemma NothingIsStranded(s: State, limit: nat, maxAttempts: nat) returns (steps: seq<Step>, s': State)
    requires Inv(s, maxAttempts) && limit > 0
    ensures s'.opening == s.opening && s'.book == s.book && s'.deliveries == s.deliveries
    ensures AllLogged(s.sys.rows, s'.sys.rows, s'.log)
    ensures ShipsOnly(steps, limit) && RunsTo(s, steps, s', maxAttempts)
  {
    var relay, r' := AllCanBeLogged(RelaysOf(s), limit, maxAttempts);
    steps := ShipRun(s, relay, limit, maxAttempts);
    s' := Shipped(s, r');
  }

  // ----- each logged buy can take effect -----

  ghost predicate HasEffect(s: State, eventId: string) {
    exists n :: 0 <= n < |s.deliveries| && TookEffect(s, n) && s.deliveries[n].eventId == eventId
  }

  /** Inside the window the ledger knows exactly the events that took effect and are recent; a new one is unknown. */
  lemma UnknownUntilEffective(s: State, maxAttempts: nat, eventId: string)
    requires Inv(s, maxAttempts) && WindowKept(s.opening, s.deliveries, CAP) && !HasEffect(s, eventId)
    ensures eventId !in s.book.order && eventId !in Remembered(s.opening, s.deliveries).0.order
  {
    var ms := s.deliveries;
    WindowRefinesSet(s.opening, ms, CAP);
    assert ms[..|ms|] == ms;
    if eventId in Remembered(s.opening, ms).0.order {
      OrderIsEffective(s.opening, ms, |ms|, eventId);
      var i :| 0 <= i < |ms| && Remembered(s.opening, ms).1[i].Applied? && ms[i].eventId == eventId;
      assert TookEffect(s, i);
    }
  }

  /** What took effect stays so when more is delivered. */
  lemma EffectStays(s: State, m: Movement, n: nat)
    requires n < |s.deliveries|
    ensures Delivered(s.opening, s.deliveries + [m], CAP).1[n] == Delivered(s.opening, s.deliveries, CAP).1[n]
  {
    var all := s.deliveries + [m];
    assert all[..|all| - 1] == s.deliveries;
    OutcomesPrefix(s.opening, all, |s.deliveries|, CAP);
    assert Delivered(s.opening, all, CAP).1[..|s.deliveries|][n] == Delivered(s.opening, all, CAP).1[n];
  }

  /** Some price lets the ledger take the event: any buy, and a sale from a position that is not about to close. */
  predicate Takable(byUser: Positions, e: OrderEvent) {
    IsFill(e) && (SideOf(e.order.kind).SELL?
        ==> UnitsHeld(PositionOf(byUser, e.order.userId, e.order.fundId)) > UNIT_EPSILON)
  }

  lemma PriceForUnits(amount: int, units: real)
    requires amount > 0 && units > 0.0
    ensures var nav := amount as real / 100.0 / units; nav > 0.0 && UnitsFor(amount, nav) == units
  {
    var rupees := amount as real / 100.0;
    var nav := rupees / units;
    assert nav * units == rupees;
    assert rupees / nav == units;
  }

  /** A price at which the event moves half of what is held above the epsilon, or one rupee's worth. */
  function Modest(byUser: Positions, e: OrderEvent): real {
    var held := UnitsHeld(PositionOf(byUser, e.order.userId, e.order.fundId));
    var units := if held > UNIT_EPSILON then (held - UNIT_EPSILON) / 2.0 else 1.0;
    e.order.amount as real / 100.0 / units
  }

  /** At a modest price a takable event goes through and leaves whatever was takable so. */
  lemma ModestMoveGoesThrough(byUser: Positions, e: OrderEvent, other: OrderEvent)
    requires SoundPositions(byUser) && Takable(byUser, e) && Takable(byUser, other)
    ensures var m := MovementOf(e, Modest(byUser, e));
            && ReachesLedger(e, Modest(byUser, e))
            && MoveIn(byUser, m).Ok? && Takable(MoveIn(byUser, m).value, other)
  {
    var held := UnitsHeld(PositionOf(byUser, e.order.userId, e.order.fundId));
    var units := if held > UNIT_EPSILON then (held - UNIT_EPSILON) / 2.0 else 1.0;
    PriceForUnits(e.order.amount, units);
    var m := MovementOf(e, Modest(byUser, e));
    assert m.units == units;
    MoveIsLocal(byUser, m, m.userId, m.fundId);
    MoveIsLocal(byUser, m, other.order.userId, other.order.fundId);
  }

  lemma BookIsSound(s: State, maxAttempts: nat)
    requires Inv(s, maxAttempts)
    ensures SoundPositions(s.book.byUser)
  {
    DeliveriesPositive(s, maxAttempts);
    DeliveredSound(s.opening, s.deliveries, CAP);
  }

  /** A movement that goes through while the ledger does not know its event takes effect, inside the window. */
  lemma NewMoveApplies(s: State, m: Movement, maxAttempts: nat)
    requires Inv(s, maxAttempts) && WindowKept(s.opening, s.deliveries, CAP)
    requires MoveIn(s.book.byUser, m).Ok? && !HasEffect(s, m.eventId)
    ensures var all := s.deliveries + [m];
            && WindowKept(s.opening, all, CAP)
            && Delivered(s.opening, all, CAP).1[|s.deliveries|].Applied?
            && Delivered(s.opening, all, CAP).0.byUser == MoveIn(s.book.byUser, m).value
  {
    var all := s.deliveries + [m];
    assert all[..|all| - 1] == s.deliveries;
    UnknownUntilEffective(s, maxAttempts, m.eventId);
    WindowKeptFront(s.opening, all, CAP);
  }

  lemma EffectsStay(s: State, s': State, m: Movement)
    requires s'.opening == s.opening && s'.deliveries == s.deliveries + [m]
    ensures forall id :: HasEffect(s, id) ==> HasEffect(s', id)
  {
    forall id | HasEffect(s, id) ensures HasEffect(s', id) {
      var n :| 0 <= n < |s.deliveries| && TookEffect(s, n) && s.deliveries[n].eventId == id;
      EffectStays(s, m, n);
      assert TookEffect(s', n) && s'.deliveries[n] == s.deliveries[n];
    }
  }

  /** Delivering a logged event that is takable and new gives it its effect and keeps every other. */
  lemma DeliverOnce(s: State, k: nat, maxAttempts: nat, other: OrderEvent)
    requires Inv(s, maxAttempts) && WindowKept(s.opening, s.deliveries, CAP)
    requires k < |s.log| && Takable(s.book.byUser, s.log[k].event) && Takable(s.book.byUser, other)
    requires !HasEffect(s, s.log[k].event.eventId)
    ensures var s' := Exec(s, Deliver(k, Modest(s.book.byUser, s.log[k].event)), maxAttempts);
            && s'.sys == s.sys && s'.log == s.log && s'.opening == s.opening
            && Inv(s', maxAttempts) && WindowKept(s'.opening, s'.deliveries, CAP)
            && Takable(s'.book.byUser, other)
            && HasEffect(s', s.log[k].event.eventId)
            && (forall id :: HasEffect(s, id) ==> HasEffect(s', id))
  {
    var e := s.log[k].event;
    var nav := Modest(s.book.byUser, e);
    var s' := Exec(s, Deliver(k, nav), maxAttempts);
    BookIsSound(s, maxAttempts);
    ModestMoveGoesThrough(s.book.byUser, e, other);
    NewMoveApplies(s, MovementOf(e, nav), maxAttempts);
    DeliverKeeps(s, k, nav, maxAttempts);
    assert TookEffect(s', |s.deliveries|);
    EffectsStay(s, s', MovementOf(e, nav));
  }

  lemma DeliveryRun(s: State, k: nat, nav: real, maxAttempts: nat)
    requires k < |s.log|
    ensures NoOrderMoves([Deliver(k, nav)])
    ensures RunsTo(s, [Deliver(k, nav)], Exec(s, Deliver(k, nav), maxAttempts), maxAttempts)
  {
    OneMore(s, [], s, Deliver(k, nav), maxAttempts);
    assert [] + [Deliver(k, nav)] == [Deliver(k, nav)];
  }

  /**
   A logged event that is takable either took effect or can be made to by one delivery, and that
   undoes no other effect.
   */
  lemma LoggedTakesEffect(s: State, k: nat, maxAttempts: nat, other: OrderEvent) returns (steps: seq<Step>, s': State)
    requires Inv(s, maxAttempts) && WindowKept(s.opening, s.deliveries, CAP)
    requires k < |s.log| && Takable(s.book.byUser, s.log[k].event) && Takable(s.book.byUser, other)
    ensures s'.sys == s.sys && s'.log == s.log && s'.opening == s.opening
    ensures Inv(s', maxAttempts) && WindowKept(s'.opening, s'.deliveries, CAP) && Takable(s'.book.byUser, other)
    ensures HasEffect(s', s.log[k].event.eventId)
    ensures forall id :: HasEffect(s, id) ==> HasEffect(s', id)
    ensures NoOrderMoves(steps) && RunsTo(s, steps, s', maxAttempts)
  {
    if HasEffect(s, s.log[k].event.eventId) {
      steps, s' := [], s;
    } else {
      var nav := Modest(s.book.byUser, s.log[k].event);
      steps, s' := [Deliver(k, nav)], Exec(s, Deliver(k, nav), maxAttempts);
      DeliverOnce(s, k, maxAttempts, other);
      DeliveryRun(s, k, nav, maxAttempts);
    }
  }

  // ----- a second execution -----

  /** Two rows of one order whose events both took effect. */
  lemma TwoEffects(s: State, x: nat, y: nat)
    requires x < |s.sys.rows| && y < |s.sys.rows| && s.sys.rows[x].Aggregate() == s.sys.rows[y].Aggregate()
    requires s.sys.rows[x].event.eventId != s.sys.rows[y].event.eventId
    requires HasEffect(s, s.sys.rows[x].event.eventId) && HasEffect(s, s.sys.rows[y].event.eventId)
    ensures TwiceEffective(s, s.sys.rows[x].Aggregate())
  {
    var id := s.sys.rows[x].Aggregate();
    var i :| 0 <= i < |s.deliveries| && TookEffect(s, i) && s.deliveries[i].eventId == s.sys.rows[x].event.eventId;
    var j :| 0 <= j < |s.deliveries| && TookEffect(s, j) && s.deliveries[j].eventId == s.sys.rows[y].event.eventId;
    assert OfOrder(s, i, id) && OfOrder(s, j, id);
    assert i != j;
  }

  lemma BothLoggedTakeEffect(s: State, maxAttempts: nat, k: nat, l: nat) returns (steps: seq<Step>, s': State)
    requires Inv(s, maxAttempts) && WindowKept(s.opening, s.deliveries, CAP)
    requires k < |s.log| && Takable(s.book.byUser, s.log[k].event)
    requires l < |s.log| && Takable(s.book.byUser, s.log[l].event)
    ensures s'.opening == s.opening && s'.sys == s.sys && WindowKept(s'.opening, s'.deliveries, CAP)
    ensures HasEffect(s', s.log[k].event.eventId) && HasEffect(s', s.log[l].event.eventId)
    ensures NoOrderMoves(steps) && RunsTo(s, steps, s', maxAttempts)
  {
    var first, s1 := LoggedTakesEffect(s, k, maxAttempts, s.log[l].event);
    var second;
    second, s' := LoggedTakesEffect(s1, l, maxAttempts, s.log[l].event);
    RunsConcat(s, first, s1, second, s', maxAttempts);
    steps := first + second;
  }

  /** Two logged records of a table are found on the log. */
  lemma FoundOnLog(log: seq<Message>, m: Message) returns (k: nat)
    requires m in log
    ensures k < |log| && log[k] == m
  {
    k :| 0 <= k < |log| && log[k] == m;
  }

  lemma ShippedKeeps(s: State, steps: seq<Step>, s': State, maxAttempts: nat)
    requires Inv(s, maxAttempts) && RunsTo(s, steps, s', maxAttempts)
    ensures Inv(s', maxAttempts)
  {
    RunKeeps(s, steps, maxAttempts);
  }

  lemma DistinctIds(s: State, maxAttempts: nat, x: nat, y: nat)
    requires Inv(s, maxAttempts) && x < y < |s.sys.rows|
    ensures s.sys.rows[x].event.eventId != s.sys.rows[y].event.eventId
  {
  }

  lemma BothCanBeLogged(s: State, maxAttempts: nat, x: nat, y: nat)
    returns (steps: seq<Step>, s': State, k: nat, l: nat)
    requires Inv(s, maxAttempts) && x < |s.sys.rows| && y < |s.sys.rows|
    ensures s'.opening == s.opening && s'.book == s.book && s'.deliveries == s.deliveries && Inv(s', maxAttempts)
    ensures x < |s'.sys.rows| && y < |s'.sys.rows| && k < |s'.log| && l < |s'.log|
    ensures s'.log[k] == s'.sys.rows[x].Record() == s.sys.rows[x].Record()
    ensures s'.log[l] == s'.sys.rows[y].Record() == s.sys.rows[y].Record()
    ensures NoOrderMoves(steps) && RunsTo(s, steps, s', maxAttempts)
  {
    steps, s' := NothingIsStranded(s, 1, maxAttempts);
    ShippedKeeps(s, steps, s', maxAttempts);
    k := FoundOnLog(s'.log, s.sys.rows[x].Record());
    l := FoundOnLog(s'.log, s.sys.rows[y].Record());
  }

  /** Both rows of two executions the ledger can take can be made to take effect. */
  lemma BothCanTakeEffect(s: State, maxAttempts: nat, x: nat, y: nat) returns (steps: seq<Step>, s': State)
    requires Inv(s, maxAttempts) && WindowKept(s.opening, s.deliveries, CAP)
    requires x < y < |s.sys.rows| && s.sys.rows[x].Aggregate() == s.sys.rows[y].Aggregate()
    requires Takable(s.book.byUser, s.sys.rows[x].event) && Takable(s.book.byUser, s.sys.rows[y].event)
    ensures s'.opening == s.opening && WindowKept(s'.opening, s'.deliveries, CAP)
    ensures TwiceEffective(s', s.sys.rows[x].Aggregate())
    ensures NoOrderMoves(steps) && RunsTo(s, steps, s', maxAttempts)
  {
    DistinctIds(s, maxAttempts, x, y);
    var ship, s1, k, l := BothCanBeLogged(s, maxAttempts, x, y);
    var rest;
    rest, s' := BothLoggedTakeEffect(s1, maxAttempts, k, l);
    RunsConcat(s, ship, s1, rest, s', maxAttempts);
    steps := ship + rest;
    TwoEffects(s', x, y);
  }

  /** The ledger could take the executions of the order. */
  ghost predicate TakableWhenExecuted(s: State, id: OrderId) {
    forall x :: 0 <= x < |s.sys.rows| && s.sys.rows[x].Aggregate() == id && s.sys.rows[x].event.order.status == Executed
                ==> Takable(s.book.byUser, s.sys.rows[x].event)
  }

  ghost predicate CanTakeEffectTwice(s: State, maxAttempts: nat, id: OrderId) {
    exists steps, s' :: NoOrderMoves(steps) && RunsTo(s, steps, s', maxAttempts)
                        && WindowKept(s'.opening, s'.deliveries, CAP) && TwiceEffective(s', id)
  }

  lemma {:induction false} HistoryStays(s: State, steps: seq<Step>, maxAttempts: nat, id: OrderId)
    requires Possible(s, steps, maxAttempts) && NoOrderMoves(steps)
    ensures var s' := After(s, steps, maxAttempts);
            s'.opening == s.opening && History(s'.sys.rows, id) == History(s.sys.rows, id)
  {
    if steps == [] {
    } else {
      var n := |steps| - 1;
      HistoryStays(s, steps[..n], maxAttempts, id);
      var mid := After(s, steps[..n], maxAttempts);
      assert !steps[n].Api?;
      if steps[n].Ship? {
        RelayKeepsPayloads(RelaysOf(mid), steps[n].relay, maxAttempts);
        HistoryOfPayloads(mid.sys.rows, After(s, steps, maxAttempts).sys.rows, id);
      }
    }
  }

  lemma RowsOfExecutions(rows: seq<Row>, id: OrderId) returns (x: nat, y: nat)
    requires TwiceExecuted(rows, id) && LegalWalk(History(rows, id))
    ensures x < y < |rows| && rows[x].Aggregate() == id && rows[y].Aggregate() == id
    ensures rows[x].event.order.status == Executed && rows[y].event.order.status == Executed
  {
    ExecutionPath(History(rows, id), 3);
    x := RowOfEntry(rows, id, 2);
    y := RowOfEntry(rows, id, 3);
    if y <= x {
      assert rows[..x] == rows[..y] + rows[y..x];
      HistoryConcat(rows[..y], rows[y..x], id);
      assert false;
    }
  }

  /**
   The promise that repeating a terminal status is harmless, exactly: an order whose executions
   the ledger could take can, without moving any further, take effect twice if and only if it
   was executed twice.
   */
  lemma SecondExecutionIff(s: State, maxAttempts: nat, id: OrderId)
    requires Reachable(s, maxAttempts) && WindowKept(s.opening, s.deliveries, CAP)
    requires TakableWhenExecuted(s, id)
    ensures CanTakeEffectTwice(s, maxAttempts, id) <==> TwiceExecuted(s.sys.rows, id)
  {
    ReachableKeeps(s, maxAttempts);
    if TwiceExecuted(s.sys.rows, id) {
      var x, y := RowsOfExecutions(s.sys.rows, id);
      var steps, s' := BothCanTakeEffect(s, maxAttempts, x, y);
    } else {
      forall steps, s' | NoOrderMoves(steps) && RunsTo(s, steps, s', maxAttempts)
                         && WindowKept(s'.opening, s'.deliveries, CAP)
        ensures !TwiceEffective(s', id)
      {
        HistoryStays(s, steps, maxAttempts, id);
        StillReachable(s, steps, s', maxAttempts);
        OneExecutionOneEffect(s', maxAttempts, id);
      }
    }
  }
}
