/**
 The pipeline end to end: order actors, relays whose batches may roll back after publishing,
 and deliveries from the log to the ledger in any order and any number of times.
 */
module Pipeline {
  import opened Wrappers
  import opened Orders
  import opened Outbox
  import opened OrderHistory
  import opened Position
  import opened Ledger
  import opened Window
  import opened Projection
  import Relays
  import OrderSystem

  /** deliveries lists the movements that were put to the ledger, in that order, from its opening on. */
  datatype State = State(
    sys: OrderSystem.State,
    log: seq<Message>,
    txns: map<Relays.RelayId, Relays.Txn>,
    opening: Book,
    book: Book,
    deliveries: seq<Movement>)

  /** An order step, a relay step, or the delivery of some logged message priced at some NAV. */
  datatype Step = Api(order: OrderSystem.Step) | Ship(relay: Relays.Step) | Deliver(k: nat, nav: real)

  const CAP := MAX_APPLIED_EVENTS

  function RelaysOf(s: State): Relays.State {
    Relays.State(s.sys.rows, s.log, s.txns)
  }

  ghost predicate Enabled(s: State, step: Step) {
    match step
    case Api(order) => OrderSystem.Enabled(s.sys, order)
    case Ship(relay) => !relay.Insert? && Relays.Enabled(RelaysOf(s), relay)
    case Deliver(k, _) => k < |s.log|
  }

  predicate ReachesLedger(e: OrderEvent, nav: real) {
    IsFill(e) && UnitsFor(e.order.amount, nav) > 0.0
  }

  ghost function Exec(s: State, step: Step, maxAttempts: nat): State
    requires Enabled(s, step)
  {
    match step
    case Api(order) => s.(sys := OrderSystem.Exec(s.sys, order))
    case Ship(relay) =>
      var r := Relays.Exec(RelaysOf(s), relay, maxAttempts);
      s.(sys := s.sys.(rows := r.rows), log := r.log, txns := r.txns)
    case Deliver(k, nav) =>
      var e := s.log[k].event;
      s.(book := Project(s.book, e, nav, CAP).0,
         deliveries := if ReachesLedger(e, nav) then s.deliveries + [MovementOf(e, nav)] else s.deliveries)
  }

  ghost predicate Possible(s: State, steps: seq<Step>, maxAttempts: nat)
    decreases |steps|, 0
  {
    steps == []
    || (var n := |steps| - 1;
        Possible(s, steps[..n], maxAttempts) && Enabled(After(s, steps[..n], maxAttempts), steps[n]))
  }

  ghost function After(s: State, steps: seq<Step>, maxAttempts: nat): State
    requires Possible(s, steps, maxAttempts)
    decreases |steps|, 1
  {
    if steps == [] then s
    else
      var n := |steps| - 1;
      Exec(After(s, steps[..n], maxAttempts), steps[n], maxAttempts)
  }

  ghost predicate RunsTo(s: State, steps: seq<Step>, s': State, maxAttempts: nat) {
    Possible(s, steps, maxAttempts) && After(s, steps, maxAttempts) == s'
  }

  lemma OneMore(s: State, steps: seq<Step>, s': State, step: Step, maxAttempts: nat)
    requires RunsTo(s, steps, s', maxAttempts) && Enabled(s', step)
    ensures RunsTo(s, steps + [step], Exec(s', step, maxAttempts), maxAttempts)
  {
    assert (steps + [step])[..|steps|] == steps;
  }

  lemma {:induction false} RunsConcat(s: State, xs: seq<Step>, s': State, ys: seq<Step>, s'': State, maxAttempts: nat)
    requires RunsTo(s, xs, s', maxAttempts) && RunsTo(s', ys, s'', maxAttempts)
    ensures RunsTo(s, xs + ys, s'', maxAttempts)
  {
    if ys == [] {
      assert xs + ys == xs;
    } else {
      var n := |ys| - 1;
      var mid := After(s', ys[..n], maxAttempts);
      RunsConcat(s, xs, s', ys[..n], mid, maxAttempts);
      OneMore(s, xs + ys[..n], mid, ys[n], maxAttempts);
      AppendLast(xs, ys);
    }
  }

  /** Nothing ordered, shipped or applied yet; the ledger may open with positions. */
  function Initial(opening: Book): State {
    State(OrderSystem.EMPTY, [], map[], opening, opening, [])
  }

  ghost predicate FreshLedger(b: Book) {
    Sound(b, CAP) && b.order == []
  }

  // ----- the invariant -----

  /** The movement is the fill of an event some committed outbox row carries. */
  ghost predicate FromRow(rows: seq<Row>, m: Movement) {
    exists i, nav :: 0 <= i < |rows| && ReachesLedger(rows[i].event, nav) && m == MovementOf(rows[i].event, nav)
  }

  ghost predicate DeliveriesFromRows(rows: seq<Row>, ms: seq<Movement>) {
    forall n :: 0 <= n < |ms| ==> FromRow(rows, ms[n])
  }

  ghost predicate Inv(s: State, maxAttempts: nat) {
    && OrderSystem.Inv(s.sys)
    && Relays.Inv(RelaysOf(s), maxAttempts)
    && DeliveriesFromRows(s.sys.rows, s.deliveries)
    && FreshLedger(s.opening)
    && s.book == Delivered(s.opening, s.deliveries, CAP).0
  }

  ghost predicate Carries(rows: seq<Row>, e: OrderEvent) {
    exists j :: 0 <= j < |rows| && rows[j].event == e
  }

  lemma StillFromRows(rows: seq<Row>, rows': seq<Row>, ms: seq<Movement>)
    requires DeliveriesFromRows(rows, ms)
    requires forall i :: 0 <= i < |rows| ==> Carries(rows', rows[i].event)
    ensures DeliveriesFromRows(rows', ms)
  {
    forall n | 0 <= n < |ms| ensures FromRow(rows', ms[n]) {
      assert FromRow(rows, ms[n]);
      var i, nav :| 0 <= i < |rows| && ReachesLedger(rows[i].event, nav) && ms[n] == MovementOf(rows[i].event, nav);
      assert Carries(rows', rows[i].event);
      var j :| 0 <= j < |rows'| && rows'[j].event == rows[i].event;
      assert ReachesLedger(rows'[j].event, nav) && ms[n] == MovementOf(rows'[j].event, nav);
    }
  }

  // ----- order steps -----

  /** An order step leaves the table alone or inserts one row, as the relays know it. */
  lemma ApiInserts(s: OrderSystem.State, step: OrderSystem.Step)
    returns (insert: Option<Relays.Step>)
    requires OrderSystem.Inv(s) && OrderSystem.Enabled(s, step)
    ensures insert.None? ==> OrderSystem.Exec(s, step).rows == s.rows
    ensures insert.Some? ==>
              insert.value.Insert?
              && Insertable(s.rows, insert.value.at, insert.value.row)
              && OrderSystem.Exec(s, step).rows == Inserted(s.rows, insert.value.at, insert.value.row)
  {
    match step
    case InsertOrder(a, id, t) =>
      insert := Some(Relays.Insert(t.at, OrderSystem.NewRow(s.actors[a].order.(id := id), t)));
    case MarkProcessing(a, t) =>
      insert := Some(Relays.Insert(t.at, OrderSystem.NewRow(s.orders[s.actors[a].order.id].(status := Processing), t)));
    case Finalize(a, t) =>
      var order := s.orders[s.actors[a].id].(status := s.actors[a].final);
      insert := Some(Relays.Insert(t.at, OrderSystem.NewRow(order, t)));
    case FinishUpdate(a, t) =>
      insert := Some(Relays.Insert(t.at, OrderSystem.NewRow(s.orders[s.actors[a].id].(status := s.actors[a].next), t)));
    case _ => insert := None;
  }

  lemma InsertKeepsFromRows(rows: seq<Row>, at: nat, row: Row, ms: seq<Movement>)
    requires at <= |rows| && DeliveriesFromRows(rows, ms)
    ensures DeliveriesFromRows(Inserted(rows, at, row), ms)
  {
    var rows' := Inserted(rows, at, row);
    forall i | 0 <= i < |rows| ensures Carries(rows', rows[i].event) {
      var j := if i < at then i else i + 1;
      InsertedAt(rows, at, row, j);
      assert rows'[j].event == rows[i].event;
    }
    StillFromRows(rows, rows', ms);
  }

  lemma ApiKeeps(s: State, step: OrderSystem.Step, maxAttempts: nat)
    requires Inv(s, maxAttempts) && Enabled(s, Api(step))
    ensures Inv(Exec(s, Api(step), maxAttempts), maxAttempts)
  {
    var s' := Exec(s, Api(step), maxAttempts);
    OrderSystem.StepKeeps(s.sys, step);
    var insert := ApiInserts(s.sys, step);
    if insert.Some? {
      var at, row := insert.value.at, insert.value.row;
      Relays.StepKeeps(RelaysOf(s), insert.value, maxAttempts);
      assert RelaysOf(s') == Relays.Exec(RelaysOf(s), insert.value, maxAttempts);
      InsertKeepsFromRows(s.sys.rows, at, row, s.deliveries);
    }
  }

  // ----- relay steps -----

  lemma RelayKeepsPayloads(s: Relays.State, step: Relays.Step, maxAttempts: nat)
    requires !step.Insert? && Relays.Enabled(s, step)
    ensures var rows' := Relays.Exec(s, step, maxAttempts).rows;
            |rows'| == |s.rows| && forall i :: 0 <= i < |rows'| ==> rows'[i].event == s.rows[i].event
  {
  }

  /** Relays write statuses and attempts only, so all that is said about orders stands. */
  lemma SamePayloadsKeep(s: OrderSystem.State, rows': seq<Row>)
    requires OrderSystem.Inv(s) && Sorted(rows')
    requires |rows'| == |s.rows| && forall i :: 0 <= i < |rows'| ==> rows'[i].event == s.rows[i].event
    ensures OrderSystem.Inv(s.(rows := rows'))
  {
    var s' := s.(rows := rows');
    forall id ensures History(rows', id) == History(s.rows, id) {
      HistoryOfPayloads(s.rows, rows', id);
    }
    assert OrderSystem.ExactHistory(s') && OrderSystem.TrailMatches(s');
  }

  lemma ShipKeeps(s: State, step: Relays.Step, maxAttempts: nat)
    requires Inv(s, maxAttempts) && Enabled(s, Ship(step))
    ensures Inv(Exec(s, Ship(step), maxAttempts), maxAttempts)
  {
    var rows' := Relays.Exec(RelaysOf(s), step, maxAttempts).rows;
    Relays.StepKeeps(RelaysOf(s), step, maxAttempts);
    RelayKeepsPayloads(RelaysOf(s), step, maxAttempts);
    SamePayloadsKeep(s.sys, rows');
    forall i | 0 <= i < |s.sys.rows| ensures Carries(rows', s.sys.rows[i].event) {
      assert rows'[i].event == s.sys.rows[i].event;
    }
    StillFromRows(s.sys.rows, rows', s.deliveries);
  }

  // ----- deliveries -----

  lemma DeliveryFromRow(rows: seq<Row>, log: seq<Message>, k: nat, nav: real)
    requires Relays.LogFromTable(rows, log) && k < |log| && ReachesLedger(log[k].event, nav)
    ensures FromRow(rows, MovementOf(log[k].event, nav))
  {
    assert Relays.FromTable(rows, log[k]);
    var i :| 0 <= i < |rows| && rows[i].Record() == log[k];
    assert rows[i].event == log[k].event;
  }

  /** A projection that reaches the ledger is one more delivery to it; any other leaves it alone. */
  lemma ProjectDelivers(opening: Book, ms: seq<Movement>, e: OrderEvent, nav: real)
    ensures Project(Delivered(opening, ms, CAP).0, e, nav, CAP).0
         == Delivered(opening, if ReachesLedger(e, nav) then ms + [MovementOf(e, nav)] else ms, CAP).0
  {
    if ReachesLedger(e, nav) {
      assert (ms + [MovementOf(e, nav)])[..|ms|] == ms;
    }
  }

  lemma DeliverKeeps(s: State, k: nat, nav: real, maxAttempts: nat)
    requires Inv(s, maxAttempts) && Enabled(s, Deliver(k, nav))
    ensures Inv(Exec(s, Deliver(k, nav), maxAttempts), maxAttempts)
  {
    ProjectDelivers(s.opening, s.deliveries, s.log[k].event, nav);
    if ReachesLedger(s.log[k].event, nav) {
      DeliveryFromRow(s.sys.rows, s.log, k, nav);
    }
  }

  lemma {:induction false} RunKeeps(s: State, steps: seq<Step>, maxAttempts: nat)
    requires Inv(s, maxAttempts) && Possible(s, steps, maxAttempts)
    ensures Inv(After(s, steps, maxAttempts), maxAttempts)
  {
    if steps == [] {
    } else {
      var n := |steps| - 1;
      var before := After(s, steps[..n], maxAttempts);
      RunKeeps(s, steps[..n], maxAttempts);
      match steps[n]
      case Api(order) => ApiKeeps(before, order, maxAttempts);
      case Ship(relay) => ShipKeeps(before, relay, maxAttempts);
      case Deliver(k, nav) => DeliverKeeps(before, k, nav, maxAttempts);
    }
  }

  // ----- what holds end to end -----

  /** Some run from some opening ledger leads here. */
  ghost predicate Reachable(s: State, maxAttempts: nat) {
    FreshLedger(s.opening) && exists steps :: RunsTo(Initial(s.opening), steps, s, maxAttempts)
  }

  lemma InitialKeeps(opening: Book, maxAttempts: nat)
    requires FreshLedger(opening)
    ensures Inv(Initial(opening), maxAttempts)
  {
    OrderSystem.EmptyKeeps();
  }

  lemma ReachableKeeps(s: State, maxAttempts: nat)
    requires Reachable(s, maxAttempts)
    ensures Inv(s, maxAttempts)
  {
    var steps :| RunsTo(Initial(s.opening), steps, s, maxAttempts);
    InitialKeeps(s.opening, maxAttempts);
    RunKeeps(Initial(s.opening), steps, maxAttempts);
  }

  lemma StillReachable(s: State, steps: seq<Step>, s': State, maxAttempts: nat)
    requires Reachable(s, maxAttempts) && RunsTo(s, steps, s', maxAttempts) && s'.opening == s.opening
    ensures Reachable(s', maxAttempts)
  {
    var before :| RunsTo(Initial(s.opening), before, s, maxAttempts);
    RunsConcat(Initial(s.opening), before, s, steps, s', maxAttempts);
  }

  /** Whether the n-th delivery changed the ledger. */
  ghost predicate TookEffect(s: State, n: nat)
    requires n < |s.deliveries|
  {
    Delivered(s.opening, s.deliveries, CAP).1[n].Applied?
  }

  /** Every movement put to the ledger is the fill of one committed EXECUTED row, and of no other. */
  lemma EffectsComeFromExecutions(s: State, maxAttempts: nat, n: nat) returns (i: nat)
    requires Reachable(s, maxAttempts)
    requires n < |s.deliveries|
    ensures var m := s.deliveries[n];
            && i < |s.sys.rows|
            && var e := s.sys.rows[i].event;
            && e.order.status == Executed
            && m.eventId == e.eventId && Names(m, e.order.userId, e.order.fundId) && m.amount == e.order.amount
            && m.side == SideOf(e.order.kind)
            && (forall j :: 0 <= j < |s.sys.rows| && s.sys.rows[j].event.eventId == m.eventId ==> j == i)
  {
    ReachableKeeps(s, maxAttempts);
    assert FromRow(s.sys.rows, s.deliveries[n]);
    var k, nav :| 0 <= k < |s.sys.rows| && ReachesLedger(s.sys.rows[k].event, nav)
                  && s.deliveries[n] == MovementOf(s.sys.rows[k].event, nav);
    i := k;
  }

  lemma DeliveriesPositive(s: State, maxAttempts: nat)
    requires Inv(s, maxAttempts)
    ensures forall n :: 0 <= n < |s.deliveries| ==> PositiveMovement(s.deliveries[n])
  {
    forall n | 0 <= n < |s.deliveries| ensures PositiveMovement(s.deliveries[n]) {
      assert FromRow(s.sys.rows, s.deliveries[n]);
      var i, nav :| 0 <= i < |s.sys.rows| && ReachesLedger(s.sys.rows[i].event, nav)
                    && s.deliveries[n] == MovementOf(s.sys.rows[i].event, nav);
      PriceIsPositive(s.sys.rows[i].event.order.amount, nav);
    }
  }

  /**
   End to end, over every run in which redeliveries stay inside the dedup window: two
   deliveries that change the ledger carry the events of two different outbox rows, so each
   row takes effect at most once, however often relays publish it and rebalances replay it.
   */
  lemma EachEventOnce(s: State, maxAttempts: nat, i: nat, j: nat) returns (x: nat, y: nat)
    requires Reachable(s, maxAttempts) && WindowKept(s.opening, s.deliveries, CAP)
    requires i < j < |s.deliveries| && TookEffect(s, i) && TookEffect(s, j)
    ensures x < |s.sys.rows| && y < |s.sys.rows| && x != y
    ensures s.sys.rows[x].event.eventId == s.deliveries[i].eventId
    ensures s.sys.rows[y].event.eventId == s.deliveries[j].eventId
  {
    x := EffectsComeFromExecutions(s, maxAttempts, i);
    y := EffectsComeFromExecutions(s, maxAttempts, j);
    AtMostOnce(s.opening, s.deliveries, CAP, i, j);
  }

  /**
   End to end, over every run: on each position, invested plus released paise are exactly
   what it opened with plus the amounts of the buys that took effect; the held cost is never negative, and the units are
   accounted for to one epsilon a close.
   */
  lemma MoneyIsConserved(s: State, maxAttempts: nat, userId: string, fundId: string)
    requires Reachable(s, maxAttempts)
    ensures var account := AccountOf(s.opening, s.deliveries, CAP, userId, fundId);
            && account.holding == PositionOf(s.book.byUser, userId, fundId)
            && Balanced(account)
            && CostHeld(PositionOf(s.book.byUser, userId, fundId)) + account.totals.released
               == CostHeld(PositionOf(s.opening.byUser, userId, fundId))
                  + PaidIn(s.deliveries, Delivered(s.opening, s.deliveries, CAP).1, userId, fundId)
  {
    ReachableKeeps(s, maxAttempts);
    DeliveriesPositive(s, maxAttempts);
    LedgerBalances(s.opening, s.deliveries, CAP, userId, fundId);
  }

  // ----- each executed buy counts once -----

  /** The ids of the events that took effect. */
  ghost function EffectiveIds(ms: seq<Movement>, outcomes: seq<Outcome>): set<string>
    requires |ms| == |outcomes|
  {
    set n | 0 <= n < |ms| && outcomes[n].Applied? :: ms[n].eventId
  }

  /** What an outbox row puts into one position if it takes effect. */
  function Worth(e: OrderEvent, userId: string, fundId: string): int {
    if e.order.status == Executed && SideOf(e.order.kind).BUY? && e.order.userId == userId && e.order.fundId == fundId
    then e.order.amount else 0
  }

  /** The amounts of the EXECUTED buy rows whose event is among the given ids, each row once. */
  function BuysAmong(rows: seq<Row>, ids: set<string>, userId: string, fundId: string): int {
    if rows == [] then 0
    else
      var last := rows[|rows| - 1].event;
      BuysAmong(rows[..|rows| - 1], ids, userId, fundId)
      + (if last.eventId in ids then Worth(last, userId, fundId) else 0)
  }

  lemma {:induction false} NoBuysAmong(rows: seq<Row>, userId: string, fundId: string)
    ensures BuysAmong(rows, {}, userId, fundId) == 0
  {
    if rows == [] {
    } else {
      NoBuysAmong(rows[..|rows| - 1], userId, fundId);
    }
  }

  lemma {:induction false} ForeignId(rows: seq<Row>, ids: set<string>, id: string, userId: string, fundId: string)
    requires forall i :: 0 <= i < |rows| ==> rows[i].event.eventId != id
    ensures BuysAmong(rows, ids + {id}, userId, fundId) == BuysAmong(rows, ids, userId, fundId)
  {
    if rows == [] {
    } else {
      ForeignId(rows[..|rows| - 1], ids, id, userId, fundId);
    }
  }

  lemma {:induction false} NewId(rows: seq<Row>, ids: set<string>, k: nat, userId: string, fundId: string)
    requires OrderSystem.DistinctEvents(rows) && k < |rows| && rows[k].event.eventId !in ids
    ensures BuysAmong(rows, ids + {rows[k].event.eventId}, userId, fundId)
         == BuysAmong(rows, ids, userId, fundId) + Worth(rows[k].event, userId, fundId)
  {
    var n := |rows| - 1;
    if k < n {
      NewId(rows[..n], ids, k, userId, fundId);
    } else {
      ForeignId(rows[..n], ids, rows[k].event.eventId, userId, fundId);
    }
  }

  lemma OneMoreId(ms: seq<Movement>, outcomes: seq<Outcome>, m: Movement, outcome: Outcome)
    requires |ms| == |outcomes|
    ensures EffectiveIds(ms + [m], outcomes + [outcome])
         == EffectiveIds(ms, outcomes) + if outcome.Applied? then {m.eventId} else {}
  {
    var all, results := ms + [m], outcomes + [outcome];
    forall id | id in EffectiveIds(ms, outcomes) ensures id in EffectiveIds(all, results) {
      var n :| 0 <= n < |ms| && outcomes[n].Applied? && ms[n].eventId == id;
      assert results[n].Applied? && all[n].eventId == id;
    }
    if outcome.Applied? {
      assert results[|ms|].Applied? && all[|ms|].eventId == m.eventId;
    }
  }

  ghost predicate EffectsDiffer(ms: seq<Movement>, outcomes: seq<Outcome>)
    requires |ms| == |outcomes|
  {
    forall i, j :: 0 <= i < j < |ms| && outcomes[i].Applied? && outcomes[j].Applied? ==> ms[i].eventId != ms[j].eventId
  }

  /** A new effect of a row's fill adds what its movement pays in. */
  lemma NewEffect(rows: seq<Row>, ids: set<string>, m: Movement, userId: string, fundId: string)
    requires OrderSystem.DistinctEvents(rows) && FromRow(rows, m) && m.eventId !in ids
    ensures BuysAmong(rows, ids + {m.eventId}, userId, fundId)
         == BuysAmong(rows, ids, userId, fundId) + (if m.side.BUY? && Names(m, userId, fundId) then m.amount else 0)
  {
    var k, nav :| 0 <= k < |rows| && ReachesLedger(rows[k].event, nav) && m == MovementOf(rows[k].event, nav);
    NewId(rows, ids, k, userId, fundId);
  }

  lemma NewlyEffective(ms: seq<Movement>, outcomes: seq<Outcome>)
    requires |ms| == |outcomes| && ms != [] && EffectsDiffer(ms, outcomes) && outcomes[|ms| - 1].Applied?
    ensures ms[|ms| - 1].eventId !in EffectiveIds(ms[..|ms| - 1], outcomes[..|ms| - 1])
  {
  }

  lemma {:induction false} PaidByRows(rows: seq<Row>, ms: seq<Movement>, outcomes: seq<Outcome>, userId: string,
                                      fundId: string)
    requires |ms| == |outcomes| && OrderSystem.DistinctEvents(rows)
    requires DeliveriesFromRows(rows, ms) && EffectsDiffer(ms, outcomes)
    ensures PaidIn(ms, outcomes, userId, fundId) == BuysAmong(rows, EffectiveIds(ms, outcomes), userId, fundId)
  {
    if ms == [] {
      NoBuysAmong(rows, userId, fundId);
      assert EffectiveIds(ms, outcomes) == {};
    } else {
      var n := |ms| - 1;
      var front, earlier := ms[..n], outcomes[..n];
      PaidByRows(rows, front, earlier, userId, fundId);
      OneMoreId(front, earlier, ms[n], outcomes[n]);
      assert front + [ms[n]] == ms && earlier + [outcomes[n]] == outcomes;
      if outcomes[n].Applied? {
        NewlyEffective(ms, outcomes);
        NewEffect(rows, EffectiveIds(front, earlier), ms[n], userId, fundId);
      } else {
        assert EffectiveIds(ms, outcomes) == EffectiveIds(front, earlier);
      }
    }
  }

  /**
   End to end, over every run in which redeliveries stay inside the dedup window: what a
   position holds plus what it has released is what it opened with plus the sum over the
   distinct EXECUTED buy rows of the outbox whose event took effect, each counted once, however often it was shipped.
   */
  lemma EachBuyCountsOnce(s: State, maxAttempts: nat, userId: string, fundId: string)
    requires Reachable(s, maxAttempts)
    requires WindowKept(s.opening, s.deliveries, CAP)
    ensures CostHeld(PositionOf(s.book.byUser, userId, fundId))
            + AccountOf(s.opening, s.deliveries, CAP, userId, fundId).totals.released
            == CostHeld(PositionOf(s.opening.byUser, userId, fundId))
               + BuysAmong(s.sys.rows, EffectiveIds(s.deliveries, Delivered(s.opening, s.deliveries, CAP).1),
                           userId, fundId)
  {
    var outcomes := Delivered(s.opening, s.deliveries, CAP).1;
    ReachableKeeps(s, maxAttempts);
    MoneyIsConserved(s, maxAttempts, userId, fundId);
    forall i, j | 0 <= i < j < |s.deliveries| && outcomes[i].Applied? && outcomes[j].Applied?
      ensures s.deliveries[i].eventId != s.deliveries[j].eventId
    {
      AtMostOnce(s.opening, s.deliveries, CAP, i, j);
    }
    PaidByRows(s.sys.rows, s.deliveries, outcomes, userId, fundId);
  }

  /** An order whose money reached the ledger was PENDING, then PROCESSING, then EXECUTED and nothing else since. */
  lemma EffectsFollowTheLifecycle(s: State, maxAttempts: nat, n: nat)
    requires Reachable(s, maxAttempts)
    requires n < |s.deliveries|
    ensures exists id :: var walk := History(s.sys.rows, id);
                         && |walk| >= 3 && walk[0] == Pending && walk[1] == Processing
                         && (forall k :: 2 <= k < |walk| ==> walk[k] == Executed)
                         && exists i :: 0 <= i < |s.sys.rows| && s.sys.rows[i].Aggregate() == id
                                        && s.sys.rows[i].event.eventId == s.deliveries[n].eventId
  {
    var i := EffectsComeFromExecutions(s, maxAttempts, n);
    ReachableKeeps(s, maxAttempts);
    var id := s.sys.rows[i].Aggregate();
    var j := InHistory(s.sys.rows, i);
    ExecutionPath(History(s.sys.rows, id), j);
  }

  lemma {:induction false} InHistory(rows: seq<Row>, i: nat) returns (j: nat)
    requires i < |rows|
    ensures var walk := History(rows, rows[i].Aggregate());
            j < |walk| && walk[j] == rows[i].event.order.status
  {
    if i == 0 {
      j := 0;
    } else {
      j := InHistory(rows[1..], i - 1);
      if rows[0].Aggregate() == rows[i].Aggregate() {
        j := j + 1;
      }
    }
  }
}
