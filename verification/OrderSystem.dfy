/**
 The order service as interleaved actors: requests and lifecycle workers that read, then
 compare and set, over one order table and its outbox, with the Redis reservations beside
 them.  Every read may be stale by the time it is acted on, every actor may stop anywhere.
 */
module OrderSystem {
  import opened Wrappers
  import opened Orders
  import opened Outbox
  import opened OrderHistory

  type ActorId = nat

  /** Where an actor stands, with what it remembers from its read. */
  datatype Actor =
    | Placing(order: Order)                                              // key reserved, insert to come
    | Releasing(key: string)                                             // reservation to be given back
    | Starting(id: OrderId)                                              // lifecycle worker before its read
    | Loaded(order: Order)                                               // worker saw PENDING
    | Processed(id: OrderId, final: OrderStatus, key: string)            // worker moved it to PROCESSING
    | Confirming(key: string)
    | Updating(id: OrderId, current: OrderStatus, next: OrderStatus)     // operator's checked transition
    | Deleting(id: OrderId, key: string)                                 // saw PENDING, delete to come

  datatype Mark = Placed(key: string, id: OrderId) | Removed(key: string, id: OrderId)

  datatype State = State(
    orders: map<OrderId, Order>,
    rows: seq<Row>,
    reserved: set<string>,
    actors: map<ActorId, Actor>,
    trail: seq<Mark>)

  /** The identities a write draws for its outbox row, and where the row falls in the table. */
  datatype Ticket = Ticket(at: nat, rowId: nat, eventId: string)

  datatype Step =
    | ClaimKey(a: ActorId, order: Order)
    | Expire(key: string)
    | InsertOrder(a: ActorId, id: OrderId, t: Ticket)
    | InsertFails(a: ActorId)
    | Release(a: ActorId, ok: bool)
    | Load(a: ActorId)
    | MarkProcessing(a: ActorId, t: Ticket)
    | Finalize(a: ActorId, t: Ticket)
    | Confirm(a: ActorId, ok: bool)
    | BeginUpdate(a: ActorId, id: OrderId, next: OrderStatus)
    | FinishUpdate(a: ActorId, t: Ticket)
    | BeginDelete(a: ActorId, id: OrderId)
    | FinishDelete(a: ActorId)
    | GiveUp(a: ActorId)

  function NewRow(order: Order, t: Ticket): Row {
    Row(t.rowId, StatusChanged(order, t.eventId), OutboxPending, 0)
  }

  ghost predicate FreshEvent(rows: seq<Row>, eventId: string) {
    eventId != "" && forall i :: 0 <= i < |rows| ==> rows[i].event.eventId != eventId
  }

  ghost predicate Ticketed(rows: seq<Row>, order: Order, t: Ticket) {
    Insertable(rows, t.at, NewRow(order, t)) && FreshEvent(rows, t.eventId)
  }

  predicate KeyTaken(orders: map<OrderId, Order>, key: string) {
    exists id :: id in orders && orders[id].key == key
  }

  ghost predicate FreshOrder(s: State, id: OrderId) {
    id != "" && id !in s.orders && forall i :: 0 <= i < |s.rows| ==> s.rows[i].Aggregate() != id
  }

  /** The conditional UPDATE finds the row with the expected status. */
  predicate Matches(orders: map<OrderId, Order>, id: OrderId, expected: OrderStatus) {
    id in orders && orders[id].status == expected
  }

  ghost predicate CanWrite(s: State, id: OrderId, expected: OrderStatus, next: OrderStatus, t: Ticket) {
    Matches(s.orders, id, expected) && Ticketed(s.rows, s.orders[id].(status := next), t)
  }

  /** One transaction: the order row and its event row. */
  function Write(s: State, order: Order, t: Ticket): State
    requires t.at <= |s.rows|
  {
    s.(orders := s.orders[order.id := order], rows := Inserted(s.rows, t.at, NewRow(order, t)))
  }

  ghost predicate Enabled(s: State, step: Step) {
    match step
    case ClaimKey(a, order) => a !in s.actors && order.key !in s.reserved && order.status == Pending
    case Expire(key) => true
    case InsertOrder(a, id, t) =>
      a in s.actors && s.actors[a].Placing? && FreshOrder(s, id)
      && !KeyTaken(s.orders, s.actors[a].order.key)
      && Ticketed(s.rows, s.actors[a].order.(id := id), t)
    case InsertFails(a) => a in s.actors && s.actors[a].Placing?
    case Release(a, _) => a in s.actors && s.actors[a].Releasing?
    case Load(a) => a in s.actors && s.actors[a].Starting?
    case MarkProcessing(a, t) =>
      a in s.actors && s.actors[a].Loaded? && CanWrite(s, s.actors[a].order.id, Pending, Processing, t)
    case Finalize(a, t) =>
      a in s.actors && s.actors[a].Processed? && CanWrite(s, s.actors[a].id, Processing, s.actors[a].final, t)
    case Confirm(a, _) => a in s.actors && s.actors[a].Confirming?
    case BeginUpdate(a, id, next) =>
      a !in s.actors && id in s.orders && Transition(s.orders[id], next).Some?
    case FinishUpdate(a, t) =>
      a in s.actors && s.actors[a].Updating? && CanWrite(s, s.actors[a].id, s.actors[a].current, s.actors[a].next, t)
    case BeginDelete(a, id) => a !in s.actors && Matches(s.orders, id, Pending)
    case FinishDelete(a) => a in s.actors && s.actors[a].Deleting? && s.actors[a].id in s.orders
    case GiveUp(a) => a in s.actors
  }

  /** Where the lifecycle worker takes an order, by the amount it read. */
  function FinalStatus(order: Order): OrderStatus {
    if order.amount > 0 then Executed else OrderStatus.Failed
  }

  ghost function Exec(s: State, step: Step): State
    requires Enabled(s, step)
  {
    match step
    case ClaimKey(a, order) =>
      s.(reserved := s.reserved + {order.key}, actors := s.actors[a := Placing(order)])
    case Expire(key) => s.(reserved := s.reserved - {key})
    case InsertOrder(a, id, t) =>
      var order := s.actors[a].order.(id := id);
      Write(s, order, t).(actors := s.actors[a := Starting(id)], trail := s.trail + [Placed(order.key, id)])
    case InsertFails(a) => s.(actors := s.actors[a := Releasing(s.actors[a].order.key)])
    case Release(a, ok) =>
      s.(reserved := if ok then s.reserved - {s.actors[a].key} else s.reserved, actors := s.actors - {a})
    case Load(a) =>
      var id := s.actors[a].id;
      s.(actors := if Matches(s.orders, id, Pending) then s.actors[a := Loaded(s.orders[id])] else s.actors - {a})
    case MarkProcessing(a, t) =>
      var seen := s.actors[a].order;
      Write(s, s.orders[seen.id].(status := Processing), t)
        .(actors := s.actors[a := Actor.Processed(seen.id, FinalStatus(seen), seen.key)])
    case Finalize(a, t) =>
      var w := s.actors[a];
      Write(s, s.orders[w.id].(status := w.final), t).(actors := s.actors[a := Confirming(w.key)])
    case Confirm(a, ok) =>
      s.(reserved := if ok then s.reserved + {s.actors[a].key} else s.reserved, actors := s.actors - {a})
    case BeginUpdate(a, id, next) => s.(actors := s.actors[a := Updating(id, s.orders[id].status, next)])
    case FinishUpdate(a, t) =>
      var u := s.actors[a];
      Write(s, s.orders[u.id].(status := u.next), t).(actors := s.actors - {a})
    case BeginDelete(a, id) => s.(actors := s.actors[a := Deleting(id, s.orders[id].key)])
    case FinishDelete(a) =>
      var d := s.actors[a];
      s.(orders := s.orders - {d.id}, actors := s.actors[a := Releasing(d.key)],
         trail := s.trail + [Removed(s.orders[d.id].key, d.id)])
    case GiveUp(a) => s.(actors := s.actors - {a})
  }

  const EMPTY := State(map[], [], {}, map[], [])

  ghost predicate Possible(s: State, steps: seq<Step>)
    decreases |steps|, 0
  {
    steps == []
    || (var n := |steps| - 1; Possible(s, steps[..n]) && Enabled(After(s, steps[..n]), steps[n]))
  }

  ghost function After(s: State, steps: seq<Step>): State
    requires Possible(s, steps)
    decreases |steps|, 1
  {
    if steps == [] then s
    else
      var n := |steps| - 1;
      Exec(After(s, steps[..n]), steps[n])
  }

  lemma OneMore(s: State, steps: seq<Step>, step: Step)
    requires Possible(s, steps) && Enabled(After(s, steps), step)
    ensures Possible(s, steps + [step])
    ensures After(s, steps + [step]) == Exec(After(s, steps), step)
  {
    assert (steps + [step])[..|steps|] == steps;
  }

  // ----- the invariant -----

  /** The outbox tells each order's story: a legal walk that ends where the live row stands. */
  ghost predicate ExactHistory(s: State) {
    && (forall id :: LegalWalk(History(s.rows, id)))
    && (forall id :: id in s.orders ==>
          && s.orders[id].id == id
          && History(s.rows, id) != []
          && History(s.rows, id)[|History(s.rows, id)| - 1] == s.orders[id].status)
  }

  /** What an actor intends is an edge of the status graph, whatever has become of the order. */
  ghost predicate LegalIntents(s: State) {
    forall a :: a in s.actors ==>
      match s.actors[a]
      case Placing(order) => order.status == Pending
      case Processed(_, final, _) => CanTransition(Processing, final)
      case Updating(_, current, next) => CanTransition(current, next)
      case _ => true
  }

  ghost predicate DistinctEvents(rows: seq<Row>) {
    && (forall i :: 0 <= i < |rows| ==> rows[i].event.eventId != "")
    && (forall i, j :: 0 <= i < j < |rows| ==> rows[i].event.eventId != rows[j].event.eventId)
  }

  ghost predicate UniqueKeys(orders: map<OrderId, Order>) {
    forall x, y :: x in orders && y in orders && orders[x].key == orders[y].key ==> x == y
  }

  /** Whether the trail's last word on a key is a placement. */
  function Standing(trail: seq<Mark>, key: string): bool {
    if trail == [] then false
    else
      var last := trail[|trail| - 1];
      if last.key == key then last.Placed? else Standing(trail[..|trail| - 1], key)
  }

  /** No placement of a key while an earlier one of the same key still stands. */
  ghost predicate OnePlacementAtATime(trail: seq<Mark>) {
    forall i :: 0 <= i < |trail| && trail[i].Placed? ==> !Standing(trail[..i], trail[i].key)
  }

  ghost predicate TrailMatches(s: State) {
    forall key :: Standing(s.trail, key) <==> KeyTaken(s.orders, key)
  }

  ghost predicate Inv(s: State) {
    && Sorted(s.rows)
    && DistinctEvents(s.rows)
    && ExactHistory(s)
    && LegalIntents(s)
    && UniqueKeys(s.orders)
    && OnePlacementAtATime(s.trail)
    && TrailMatches(s)
  }

  // ----- writes -----

  lemma WriteRows(s: State, order: Order, t: Ticket)
    requires Sorted(s.rows) && DistinctEvents(s.rows) && Ticketed(s.rows, order, t)
    ensures Sorted(Write(s, order, t).rows) && DistinctEvents(Write(s, order, t).rows)
  {
    var rows' := Write(s, order, t).rows;
    InsertedSorted(s.rows, t.at, NewRow(order, t));
    forall i | 0 <= i < |rows'| ensures rows'[i].event.eventId != "" {
      InsertedAt(s.rows, t.at, NewRow(order, t), i);
    }
    forall i, j | 0 <= i < j < |rows'| ensures rows'[i].event.eventId != rows'[j].event.eventId {
      InsertedAt(s.rows, t.at, NewRow(order, t), i);
      InsertedAt(s.rows, t.at, NewRow(order, t), j);
    }
  }

  /** A write extends the one history by the one status, and that status is the live row's. */
  lemma WriteHistory(s: State, order: Order, t: Ticket)
    requires ExactHistory(s) && Ticketed(s.rows, order, t)
    requires if order.id in s.orders then CanTransition(s.orders[order.id].status, order.status)
             else History(s.rows, order.id) == [] && order.status == Pending
    ensures ExactHistory(Write(s, order, t))
  {
    var s' := Write(s, order, t);
    forall id ensures LegalWalk(History(s'.rows, id)) {
      WriteWalks(s, order, t, id);
    }
    forall id | id in s'.orders
      ensures History(s'.rows, id) != [] && History(s'.rows, id)[|History(s'.rows, id)| - 1] == s'.orders[id].status
    {
      WriteWalks(s, order, t, id);
    }
  }

  lemma WriteWalks(s: State, order: Order, t: Ticket, id: OrderId)
    requires ExactHistory(s) && Ticketed(s.rows, order, t)
    requires if order.id in s.orders then CanTransition(s.orders[order.id].status, order.status)
             else History(s.rows, order.id) == [] && order.status == Pending
    ensures var walk := History(Write(s, order, t).rows, id);
            && LegalWalk(walk)
            && (id == order.id ==> walk != [] && walk[|walk| - 1] == order.status)
            && (id != order.id ==> walk == History(s.rows, id))
  {
    HistoryInserted(s.rows, t.at, NewRow(order, t), id);
    var walk := History(s.rows, id);
    assert LegalWalk(walk);
    if id != order.id {
      assert walk + [] == walk;
    } else if id in s.orders {
      WalkExtends(walk, order.status);
    }
  }

  /** An update in place leaves keys and trail as they were. */
  lemma UpdateKeys(s: State, id: OrderId, next: OrderStatus, t: Ticket)
    requires UniqueKeys(s.orders) && TrailMatches(s) && id in s.orders && s.orders[id].id == id && t.at <= |s.rows|
    ensures var s' := Write(s, s.orders[id].(status := next), t);
            UniqueKeys(s'.orders) && TrailMatches(s')
  {
    var s' := Write(s, s.orders[id].(status := next), t);
    forall key ensures KeyTaken(s'.orders, key) <==> KeyTaken(s.orders, key) {
      if KeyTaken(s.orders, key) {
        var x :| x in s.orders && s.orders[x].key == key;
        assert s'.orders[x].key == key;
      }
    }
  }

  lemma UpdateKeeps(s: State, id: OrderId, next: OrderStatus, t: Ticket, actors: map<ActorId, Actor>)
    requires Inv(s) && id in s.orders && CanTransition(s.orders[id].status, next)
    requires Ticketed(s.rows, s.orders[id].(status := next), t)
    requires LegalIntents(s.(actors := actors))
    ensures Inv(Write(s, s.orders[id].(status := next), t).(actors := actors))
  {
    var s' := Write(s, s.orders[id].(status := next), t);
    WriteRows(s, s.orders[id].(status := next), t);
    WriteHistory(s, s.orders[id].(status := next), t);
    UpdateKeys(s, id, next, t);
    assert ExactHistory(s'.(actors := actors)) && TrailMatches(s'.(actors := actors));
  }

  // ----- the trail -----

  lemma StandingNext(trail: seq<Mark>, mark: Mark, key: string)
    ensures Standing(trail + [mark], key) == if mark.key == key then mark.Placed? else Standing(trail, key)
  {
    assert (trail + [mark])[..|trail|] == trail;
  }

  lemma TrailNext(trail: seq<Mark>, mark: Mark)
    requires OnePlacementAtATime(trail) && (mark.Placed? ==> !Standing(trail, mark.key))
    ensures OnePlacementAtATime(trail + [mark])
  {
    var trail' := trail + [mark];
    forall i | 0 <= i < |trail'| && trail'[i].Placed? ensures !Standing(trail'[..i], trail'[i].key) {
      assert trail'[..i] == if i < |trail| then trail[..i] else trail;
    }
  }

  lemma InsertTrail(s: State, order: Order, t: Ticket)
    requires UniqueKeys(s.orders) && OnePlacementAtATime(s.trail) && TrailMatches(s) && t.at <= |s.rows|
    requires order.id !in s.orders && !KeyTaken(s.orders, order.key)
    ensures var s' := Write(s, order, t).(trail := s.trail + [Placed(order.key, order.id)]);
            UniqueKeys(s'.orders) && OnePlacementAtATime(s'.trail) && TrailMatches(s')
  {
    var s' := Write(s, order, t).(trail := s.trail + [Placed(order.key, order.id)]);
    TrailNext(s.trail, Placed(order.key, order.id));
    forall key ensures Standing(s'.trail, key) <==> KeyTaken(s'.orders, key) {
      StandingNext(s.trail, Placed(order.key, order.id), key);
      if key == order.key {
        assert s'.orders[order.id].key == key;
      } else if KeyTaken(s.orders, key) {
        var x :| x in s.orders && s.orders[x].key == key;
        assert s'.orders[x].key == key;
      }
    }
  }

  lemma DeleteTrail(s: State, id: OrderId)
    requires UniqueKeys(s.orders) && OnePlacementAtATime(s.trail) && TrailMatches(s) && id in s.orders
    ensures var s' := s.(orders := s.orders - {id}, trail := s.trail + [Removed(s.orders[id].key, id)]);
            UniqueKeys(s'.orders) && OnePlacementAtATime(s'.trail) && TrailMatches(s')
  {
    var mark := Removed(s.orders[id].key, id);
    var s' := s.(orders := s.orders - {id}, trail := s.trail + [mark]);
    TrailNext(s.trail, mark);
    forall key ensures Standing(s'.trail, key) <==> KeyTaken(s'.orders, key) {
      StandingNext(s.trail, mark, key);
      if key != mark.key && KeyTaken(s.orders, key) {
        var x :| x in s.orders && s.orders[x].key == key;
        assert s'.orders[x].key == key;
      }
    }
  }

  // ----- every step -----

  lemma InsertKeeps(s: State, a: ActorId, id: OrderId, t: Ticket)
    requires Inv(s) && Enabled(s, InsertOrder(a, id, t))
    ensures Inv(Exec(s, InsertOrder(a, id, t)))
  {
    var order := s.actors[a].order.(id := id);
    var s' := Exec(s, InsertOrder(a, id, t));
    WriteRows(s, order, t);
    HistoryElsewhere(s.rows, id);
    WriteHistory(s, order, t);
    assert ExactHistory(s') by {
      assert s'.orders == Write(s, order, t).orders && s'.rows == Write(s, order, t).rows;
    }
    InsertTrail(s, order, t);
    assert TrailMatches(s');
  }

  lemma DeleteKeeps(s: State, a: ActorId)
    requires Inv(s) && Enabled(s, FinishDelete(a))
    ensures Inv(Exec(s, FinishDelete(a)))
  {
    DeleteTrail(s, s.actors[a].id);
    assert TrailMatches(Exec(s, FinishDelete(a)));
  }

  /** A step that touches neither table nor trail. */
  lemma QuietKeeps(s: State, reserved: set<string>, actors: map<ActorId, Actor>)
    requires Inv(s) && LegalIntents(s.(actors := actors))
    ensures Inv(s.(reserved := reserved, actors := actors))
  {
    var s' := s.(reserved := reserved, actors := actors);
    assert ExactHistory(s') && TrailMatches(s');
  }

  predicate Quiet(step: Step) {
    !(step.InsertOrder? || step.MarkProcessing? || step.Finalize? || step.FinishUpdate? || step.FinishDelete?)
  }

  lemma IntentsKept(s: State, step: Step)
    requires LegalIntents(s) && Enabled(s, step)
    ensures LegalIntents(Exec(s, step))
  {
  }

  lemma WriteStepKeeps(s: State, step: Step)
    requires Inv(s) && Enabled(s, step) && (step.MarkProcessing? || step.Finalize? || step.FinishUpdate?)
    ensures Inv(Exec(s, step))
  {
    var actors := Exec(s, step).actors;
    assert LegalIntents(s.(actors := actors)) by {
      IntentsKept(s, step);
    }
    match step
    case MarkProcessing(a, t) => UpdateKeeps(s, s.actors[a].order.id, Processing, t, actors);
    case Finalize(a, t) => UpdateKeeps(s, s.actors[a].id, s.actors[a].final, t, actors);
    case FinishUpdate(a, t) => UpdateKeeps(s, s.actors[a].id, s.actors[a].next, t, actors);
  }

  lemma StepKeeps(s: State, step: Step)
    requires Inv(s) && Enabled(s, step)
    ensures Inv(Exec(s, step))
  {
    if Quiet(step) {
      var s' := Exec(s, step);
      IntentsKept(s, step);
      assert s' == s.(reserved := s'.reserved, actors := s'.actors);
      assert LegalIntents(s.(actors := s'.actors));
      QuietKeeps(s, s'.reserved, s'.actors);
    } else if step.InsertOrder? {
      InsertKeeps(s, step.a, step.id, step.t);
    } else if step.FinishDelete? {
      DeleteKeeps(s, step.a);
    } else {
      WriteStepKeeps(s, step);
    }
  }

  lemma {:induction false} RunKeeps(s: State, steps: seq<Step>)
    requires Inv(s) && Possible(s, steps)
    ensures Inv(After(s, steps))
  {
    if steps == [] {
    } else {
      var n := |steps| - 1;
      RunKeeps(s, steps[..n]);
      StepKeeps(After(s, steps[..n]), steps[n]);
    }
  }

  lemma EmptyKeeps()
    ensures Inv(EMPTY)
  {
    forall key ensures Standing(EMPTY.trail, key) <==> KeyTaken(EMPTY.orders, key) {
    }
  }

  /**
   In every reachable state, under stale reads and racing writers, the outbox holds the
   exact history of each order: a legal walk from PENDING that ends at the live row's status.
   */
  lemma OutboxIsExactHistory(steps: seq<Step>, id: OrderId)
    requires Possible(EMPTY, steps)
    ensures var s := After(EMPTY, steps);
            var walk := History(s.rows, id);
            && LegalWalk(walk)
            && (id in s.orders ==> walk != [] && walk[|walk| - 1] == s.orders[id].status)
  {
    EmptyKeeps();
    RunKeeps(EMPTY, steps);
  }

  /**
   Whatever races, expiries and releases happen, between two successful placements of one
   key lies a removal of that key's order, and no two live orders share a key.
   */
  lemma PlacementIsIdempotent(steps: seq<Step>, i: nat, j: nat)
    requires Possible(EMPTY, steps)
    requires var trail := After(EMPTY, steps).trail;
             i < j < |trail| && trail[i].Placed? && trail[j].Placed? && trail[i].key == trail[j].key
    ensures var trail := After(EMPTY, steps).trail;
            exists k :: i < k < j && trail[k].Removed? && trail[k].key == trail[i].key
    ensures UniqueKeys(After(EMPTY, steps).orders)
  {
    var trail := After(EMPTY, steps).trail;
    EmptyKeeps();
    RunKeeps(EMPTY, steps);
    RemovalBetween(trail, i, j);
  }

  lemma {:induction false} RemovalBetween(trail: seq<Mark>, i: nat, j: nat)
    requires i < j <= |trail| && trail[i].Placed? && !Standing(trail[..j], trail[i].key)
    ensures exists k :: i < k < j && trail[k].Removed? && trail[k].key == trail[i].key
    decreases j
  {
    assert trail[..j][|trail[..j]| - 1] == trail[j - 1] && trail[..j][..j - 1] == trail[..j - 1];
    if trail[j - 1].key != trail[i].key {
      RemovalBetween(trail, i, j - 1);
      var k :| i < k < j - 1 && trail[k].Removed? && trail[k].key == trail[i].key;
    }
  }

  // ----- what does not hold -----

  /** An executed order can be executed again: the edge is legal and draws a second event id. */
  lemma ExecutedTwice(s: State, a: ActorId, id: OrderId, t: Ticket)
    requires Inv(s) && a !in s.actors && Matches(s.orders, id, Executed)
    requires Ticketed(s.rows, s.orders[id], t)
    ensures Enabled(s, BeginUpdate(a, id, Executed))
    ensures var s1 := Exec(s, BeginUpdate(a, id, Executed));
            && Enabled(s1, FinishUpdate(a, t))
            && var s2 := Exec(s1, FinishUpdate(a, t));
            && s2.orders == s.orders
            && History(s2.rows, id) == History(s.rows, id) + [Executed]
            && Inv(s2)
  {
    var s1 := Exec(s, BeginUpdate(a, id, Executed));
    assert s.orders[id].(status := Executed) == s.orders[id];
    StepKeeps(s, BeginUpdate(a, id, Executed));
    StepKeeps(s1, FinishUpdate(a, t));
    HistoryInserted(s.rows, t.at, NewRow(s.orders[id], t), id);
  }

  /** A delete checks for PENDING first and removes unconditionally: a worker may have moved the order meanwhile. */
  lemma DeleteOfAMovedOrder(s: State, a: ActorId, w: ActorId, id: OrderId, t: Ticket)
    requires a !in s.actors && w in s.actors && s.actors[w].Loaded? && s.actors[w].order.id == id
    requires CanWrite(s, id, Pending, Processing, t) && s.orders[id].id == id
    ensures Enabled(s, BeginDelete(a, id))
    ensures var s1 := Exec(s, BeginDelete(a, id));
            && Enabled(s1, MarkProcessing(w, t))
            && var s2 := Exec(s1, MarkProcessing(w, t));
            && Enabled(s2, FinishDelete(a)) && s2.orders[id].status == Processing
            && id !in Exec(s2, FinishDelete(a)).orders
  {
    var s1 := Exec(s, BeginDelete(a, id));
    assert a != w && s1.actors[w] == s.actors[w];
  }

  // ----- when a delete removes a PENDING order -----

  /** An order is PENDING exactly while its creation is all its history. */
  lemma PendingIff(s: State, id: OrderId)
    requires ExactHistory(s) && id in s.orders
    ensures s.orders[id].status == Pending <==> |History(s.rows, id)| == 1
  {
    var walk := History(s.rows, id);
    assert LegalWalk(walk);
    if |walk| > 1 {
      assert CanTransition(walk[|walk| - 2], walk[|walk| - 1]);
    }
  }

  /** The step writes a status of this order. */
  predicate Writes(s: State, step: Step, id: OrderId) {
    match step
    case MarkProcessing(a, _) => a in s.actors && s.actors[a].Loaded? && s.actors[a].order.id == id
    case Finalize(a, _) => a in s.actors && s.actors[a].Processed? && s.actors[a].id == id
    case FinishUpdate(a, _) => a in s.actors && s.actors[a].Updating? && s.actors[a].id == id
    case _ => false
  }

  /** An order that has a history gets one more entry from a write of it, and none from any other step. */
  lemma StepHistory(s: State, step: Step, id: OrderId)
    requires Inv(s) && Enabled(s, step) && History(s.rows, id) != []
    ensures |History(Exec(s, step).rows, id)| == |History(s.rows, id)| + (if Writes(s, step, id) then 1 else 0)
  {
    match step
    case InsertOrder(a, x, t) =>
      HistoryElsewhere(s.rows, x);
      HistoryInserted(s.rows, t.at, NewRow(s.actors[a].order.(id := x), t), id);
    case MarkProcessing(a, t) =>
      HistoryInserted(s.rows, t.at, NewRow(s.orders[s.actors[a].order.id].(status := Processing), t), id);
    case Finalize(a, t) =>
      HistoryInserted(s.rows, t.at, NewRow(s.orders[s.actors[a].id].(status := s.actors[a].final), t), id);
    case FinishUpdate(a, t) =>
      HistoryInserted(s.rows, t.at, NewRow(s.orders[s.actors[a].id].(status := s.actors[a].next), t), id);
    case _ =>
  }

  /** How many steps after the m-th wrote a status of the order. */
  ghost function WritesSince(steps: seq<Step>, m: nat, id: OrderId): nat
    requires Possible(EMPTY, steps)
  {
    if |steps| <= m + 1 then 0
    else
      var n := |steps| - 1;
      WritesSince(steps[..n], m, id) + (if Writes(After(EMPTY, steps[..n]), steps[n], id) then 1 else 0)
  }

  lemma {:induction false} HistorySince(steps: seq<Step>, m: nat, id: OrderId)
    requires Possible(EMPTY, steps) && m < |steps| && steps[m].BeginDelete? && steps[m].id == id
    ensures |History(After(EMPTY, steps).rows, id)| == 1 + WritesSince(steps, m, id)
  {
    var n := |steps| - 1;
    var before := After(EMPTY, steps[..n]);
    EmptyKeeps();
    RunKeeps(EMPTY, steps[..n]);
    if m == n {
      PendingIff(before, id);
    } else {
      HistorySince(steps[..n], m, id);
    }
    StepHistory(before, steps[n], id);
  }

  /**
   Exactly when a delete removes an order that is still PENDING: the order it is about to
   remove is PENDING if and only if no worker and no operator has written its status since the
   delete read it.
   */
  lemma DeletesPendingIff(steps: seq<Step>, m: nat, a: ActorId, id: OrderId)
    requires Possible(EMPTY, steps) && m < |steps| && steps[m] == BeginDelete(a, id)
    requires var s := After(EMPTY, steps);
             Enabled(s, FinishDelete(a)) && s.actors[a].id == id
    ensures After(EMPTY, steps).orders[id].status == Pending <==> WritesSince(steps, m, id) == 0
  {
    EmptyKeeps();
    RunKeeps(EMPTY, steps);
    HistorySince(steps, m, id);
    PendingIff(After(EMPTY, steps), id);
  }
}
