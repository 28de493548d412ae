/**
 The order service's calls: what each returns, what it leaves in the tables and among the
 reservations, and the run of the actor system that it is.  Between a call's read and its
 write any other actors may run; what they leave is a parameter.
 */
module OrderService {
  import opened Wrappers
  import opened Orders
  import opened Outbox
  import opened OrderHistory
  import opened Database
  import opened OrderSystem
  import OrderRepository

  datatype ServiceError = DuplicateOrder | NotCancelable | Illegal | Redis | Repo(error: OrderRepository.RepoError)

  /** The row a sequential insert draws: the next id, at the end of the table. */
  function NextTicket(rows: seq<Row>, eventId: string): Ticket {
    Ticket(|rows|, if rows == [] then 1 else rows[|rows| - 1].id + 1, eventId)
  }

  lemma NextIsTicketed(rows: seq<Row>, order: Order, eventId: string)
    requires Sorted(rows) && FreshEvent(rows, eventId)
    ensures Ticketed(rows, order, NextTicket(rows, eventId))
  {
  }

  /** A row at the end of the table is the newest entry of its order's history, and spends only its own event id. */
  lemma {:induction false} AfterInsert(rows: seq<Row>, order: Order, eventId: string, other: string)
    requires Sorted(rows) && FreshEvent(rows, eventId)
    ensures var rows' := Inserted(rows, |rows|, NewRow(order, NextTicket(rows, eventId)));
            && Sorted(rows')
            && History(rows', order.id) == History(rows, order.id) + [order.status]
            && (FreshEvent(rows, other) && other != eventId ==> FreshEvent(rows', other))
  {
    var row := NewRow(order, NextTicket(rows, eventId));
    NextIsTicketed(rows, order, eventId);
    InsertedSorted(rows, |rows|, row);
    HistoryInserted(rows, |rows|, row, order.id);
  }

  /** Which of a call's outside calls fail; cleanupOk is the fate of the reservation's release or confirmation. */
  datatype Luck = Luck(redisDown: bool, loadFails: bool, writes: nat -> OrderRepository.Fault, deleteFails: bool,
                       cleanupOk: bool)

  // ----- the calls as runs -----

  ghost predicate RunsTo(s: State, steps: seq<Step>, s': State) {
    Possible(s, steps) && After(s, steps) == s'
  }

  lemma OneStep(s: State, x: Step)
    requires Enabled(s, x)
    ensures RunsTo(s, [x], Exec(s, x))
  {
    OneMore(s, [], x);
    assert [] + [x] == [x];
  }

  // ----- a call with others in between -----

  lemma {:induction false} RunsConcat(s: State, xs: seq<Step>, s': State, ys: seq<Step>, s'': State)
    requires RunsTo(s, xs, s') && RunsTo(s', ys, s'')
    ensures RunsTo(s, xs + ys, s'')
  {
    if ys == [] {
      assert xs + ys == xs;
    } else {
      var n := |ys| - 1;
      RunsConcat(s, xs, s', ys[..n], After(s', ys[..n]));
      OneMore(s, xs + ys[..n], ys[n]);
      AppendLast(xs, ys);
    }
  }

  /** Other actors take the system from s to s', while a waits. */
  ghost predicate Meanwhile(s: State, theirs: seq<Step>, s': State, a: ActorId) {
    RunsTo(s, theirs, s') && a in s.actors && a in s'.actors && s'.actors[a] == s.actors[a]
  }

  /** What holds of the tables in every state the actors can reach, as far as a write of this order needs it. */
  ghost predicate Writable(s: State, id: OrderId, eventId: string) {
    Sorted(s.rows) && FreshEvent(s.rows, eventId) && (id in s.orders ==> s.orders[id].id == id)
  }

  /** A step, then what others do, then one more step. */
  lemma RunsAround(s: State, x: Step, theirs: seq<Step>, others: State, y: Step)
    requires Enabled(s, x) && RunsTo(Exec(s, x), theirs, others) && Enabled(others, y)
    ensures RunsTo(s, [x] + theirs + [y], Exec(others, y))
  {
    OneStep(s, x);
    RunsConcat(s, [x], Exec(s, x), theirs, others);
    OneMore(s, [x] + theirs, y);
  }

  /** The creation of a fresh order is the only entry of its history. */
  lemma FirstEntry(s: State, order: Order, eventId: string)
    requires Sorted(s.rows) && FreshOrder(s, order.id) && FreshEvent(s.rows, eventId)
    ensures History(Appended(s.rows, order, eventId), order.id) == [order.status]
  {
    HistoryElsewhere(s.rows, order.id);
    AfterInsert(s.rows, order, eventId, eventId);
    assert [] + [order.status] == [order.status];
  }

  /** A placement that goes through: the key, then the order with its event. */
  lemma PlaceRuns(s: State, a: ActorId, order: Order, theirs: seq<Step>, others: State, id: OrderId, t: Ticket)
    requires Enabled(s, ClaimKey(a, order)) && Meanwhile(Exec(s, ClaimKey(a, order)), theirs, others, a)
    requires FreshOrder(others, id) && !KeyTaken(others.orders, order.key) && Ticketed(others.rows, order.(id := id), t)
    ensures var placed := order.(id := id);
            RunsTo(s, [ClaimKey(a, order)] + theirs + [InsertOrder(a, id, t)],
                   others.(orders := others.orders[id := placed],
                           rows := Inserted(others.rows, t.at, NewRow(placed, t)),
                           actors := others.actors[a := Starting(id)], trail := others.trail + [Placed(order.key, id)]))
  {
    RunsAround(s, ClaimKey(a, order), theirs, others, InsertOrder(a, id, t));
  }

  /** A placement whose insert fails gives its reservation back and leaves the tables to the others. */
  lemma PlaceRollsBack(s: State, a: ActorId, order: Order, theirs: seq<Step>, others: State, releaseOk: bool)
    requires Enabled(s, ClaimKey(a, order)) && Meanwhile(Exec(s, ClaimKey(a, order)), theirs, others, a)
    ensures RunsTo(s, [ClaimKey(a, order)] + theirs + [InsertFails(a)] + [Release(a, releaseOk)],
                   others.(reserved := if releaseOk then others.reserved - {order.key} else others.reserved,
                           actors := others.actors - {a}))
  {
    RunsAround(s, ClaimKey(a, order), theirs, others, InsertFails(a));
    OneMore(s, [ClaimKey(a, order)] + theirs + [InsertFails(a)], Release(a, releaseOk));
    assert others.actors[a := Releasing(order.key)] - {a} == others.actors - {a};
  }

  function Appended(rows: seq<Row>, order: Order, eventId: string): seq<Row> {
    Inserted(rows, |rows|, NewRow(order, NextTicket(rows, eventId)))
  }

  /** The tables after one write of an order's status. */
  function Moved(s: State, id: OrderId, next: OrderStatus, eventId: string): State
    requires id in s.orders
  {
    var order := s.orders[id].(status := next);
    s.(orders := s.orders[id := order], rows := Appended(s.rows, order, eventId))
  }

  /** A write is the newest entry of its order's history. */
  lemma MovedHistory(s: State, id: OrderId, next: OrderStatus, eventId: string)
    requires Writable(s, id, eventId) && id in s.orders
    ensures History(Moved(s, id, next, eventId).rows, id) == History(s.rows, id) + [next]
    ensures Ticketed(s.rows, s.orders[id].(status := next), NextTicket(s.rows, eventId))
  {
    NextIsTicketed(s.rows, s.orders[id].(status := next), eventId);
    AfterInsert(s.rows, s.orders[id].(status := next), eventId, eventId);
  }

  lemma UpdateRuns(s: State, a: ActorId, id: OrderId, next: OrderStatus, theirs: seq<Step>, others: State,
                                      eventId: string)
    requires Enabled(s, BeginUpdate(a, id, next)) && Meanwhile(Exec(s, BeginUpdate(a, id, next)), theirs, others, a)
    requires Writable(others, id, eventId) && Matches(others.orders, id, s.orders[id].status)
    ensures RunsTo(s, [BeginUpdate(a, id, next)] + theirs + [FinishUpdate(a, NextTicket(others.rows, eventId))],
                   Moved(others, id, next, eventId).(actors := others.actors - {a}))
  {
    MovedHistory(others, id, next, eventId);
    RunsAround(s, BeginUpdate(a, id, next), theirs, others, FinishUpdate(a, NextTicket(others.rows, eventId)));
  }

  lemma DeleteRuns(s: State, a: ActorId, id: OrderId, theirs: seq<Step>, others: State, releaseOk: bool)
    requires Enabled(s, BeginDelete(a, id)) && Meanwhile(Exec(s, BeginDelete(a, id)), theirs, others, a)
    requires id in others.orders
    ensures var key := s.orders[id].key;
            RunsTo(s, [BeginDelete(a, id)] + theirs + [FinishDelete(a)] + [Release(a, releaseOk)],
                   others.(orders := others.orders - {id},
                           reserved := if releaseOk then others.reserved - {key} else others.reserved,
                           actors := others.actors - {a}, trail := others.trail + [Removed(others.orders[id].key, id)]))
  {
    RunsAround(s, BeginDelete(a, id), theirs, others, FinishDelete(a));
    var key := s.orders[id].key;
    var deleted := Exec(others, FinishDelete(a));
    assert deleted.actors == others.actors[a := Releasing(key)];
    OneMore(s, [BeginDelete(a, id)] + theirs + [FinishDelete(a)], Release(a, releaseOk));
    assert others.actors[a := Releasing(key)] - {a} == others.actors - {a};
  }

  // ----- the lifecycle worker -----

  function Seen(s: State, a: ActorId, id: OrderId): State
    requires id in s.orders
  {
    s.(actors := s.actors[a := Loaded(s.orders[id])])
  }

  /** The worker's first write, on what others left. */
  function Marked(s: State, a: ActorId, order: Order, first: string): State
    requires order.id in s.orders
  {
    Moved(s, order.id, Processing, first)
      .(actors := s.actors[a := Actor.Processed(order.id, FinalStatus(order), order.key)])
  }

  /** The compare-and-set finds the order as expected and does not fail. */
  predicate Lands(s: State, id: OrderId, expected: OrderStatus, fault: OrderRepository.Fault) {
    fault.NoFault? && Matches(s.orders, id, expected)
  }

  /** What the others do between the worker's read and its first write, and between its two writes. */
  ghost predicate Disturbed(s: State, a: ActorId, id: OrderId, first: string, second: string, luck: Luck,
                            theirs: seq<Step>, others: State, theirs': seq<Step>, others': State)
  {
    Matches(s.orders, id, Pending) && s.orders[id].id == id ==>
      && Meanwhile(Seen(s, a, id), theirs, others, a) && Writable(others, id, first)
      && (Lands(others, id, Pending, luck.writes(0)) ==>
            Meanwhile(Marked(others, a, s.orders[id], first), theirs', others', a) && Writable(others', id, second))
  }

  /** The state the worker leaves. */
  function Carried(s: State, a: ActorId, id: OrderId, first: string, second: string, luck: Luck, others: State,
                   others': State): State {
    if luck.loadFails || !Matches(s.orders, id, Pending) then s.(actors := s.actors - {a})
    else if !Lands(others, id, Pending, luck.writes(0)) then others.(actors := others.actors - {a})
    else if !Lands(others', id, Processing, luck.writes(1)) then others'.(actors := others'.actors - {a})
    else
      var key := s.orders[id].key;
      Moved(others', id, FinalStatus(s.orders[id]), second)
        .(actors := others'.actors - {a},
          reserved := if luck.cleanupOk then others'.reserved + {key} else others'.reserved)
  }

  function CarrySteps(s: State, a: ActorId, id: OrderId, first: string, second: string, luck: Luck,
                      theirs: seq<Step>, others: State, theirs': seq<Step>, others': State): seq<Step>
  {
    if luck.loadFails then [GiveUp(a)]
    else if !Matches(s.orders, id, Pending) then [Load(a)]
    else if !Lands(others, id, Pending, luck.writes(0)) then [Load(a)] + theirs + [GiveUp(a)]
    else
      var marked := [Load(a)] + theirs + [MarkProcessing(a, NextTicket(others.rows, first))];
      if !Lands(others', id, Processing, luck.writes(1)) then marked + theirs' + [GiveUp(a)]
      else marked + theirs' + [Finalize(a, NextTicket(others'.rows, second))] + [Confirm(a, luck.cleanupOk)]
  }

  lemma MarkRuns(s: State, a: ActorId, id: OrderId, first: string, theirs: seq<Step>, others: State)
    requires a in s.actors && s.actors[a] == Starting(id) && Matches(s.orders, id, Pending) && s.orders[id].id == id
    requires Meanwhile(Seen(s, a, id), theirs, others, a) && Writable(others, id, first)
        && Matches(others.orders, id, Pending)
    ensures RunsTo(s, [Load(a)] + theirs + [MarkProcessing(a, NextTicket(others.rows, first))],
                   Marked(others, a, s.orders[id], first))
  {
    MovedHistory(others, id, Processing, first);
    RunsAround(s, Load(a), theirs, others, MarkProcessing(a, NextTicket(others.rows, first)));
  }

  /** A worker that gives up after others have run. */
  lemma GivesUp(s: State, steps: seq<Step>, s1: State, theirs: seq<Step>, others: State, a: ActorId)
    requires RunsTo(s, steps, s1) && Meanwhile(s1, theirs, others, a)
    ensures RunsTo(s, steps + theirs + [GiveUp(a)], others.(actors := others.actors - {a}))
  {
    RunsConcat(s, steps, s1, theirs, others);
    OneMore(s, steps + theirs, GiveUp(a));
  }

  lemma GivesUpAfter(s: State, x: Step, theirs: seq<Step>, others: State, a: ActorId)
    requires Enabled(s, x) && Meanwhile(Exec(s, x), theirs, others, a)
    ensures RunsTo(s, [x] + theirs + [GiveUp(a)], others.(actors := others.actors - {a}))
  {
    OneStep(s, x);
    GivesUp(s, [x], Exec(s, x), theirs, others, a);
  }

  lemma FinalizeEnds(s: State, a: ActorId, id: OrderId, final: OrderStatus, key: string, second: string,
                     cleanupOk: bool)
    requires a in s.actors && s.actors[a] == Actor.Processed(id, final, key)
        && Enabled(s, Finalize(a, NextTicket(s.rows, second)))
    requires id in s.orders && s.orders[id].id == id
    ensures var s' := Exec(s, Finalize(a, NextTicket(s.rows, second)));
            && Enabled(s', Confirm(a, cleanupOk))
            && Exec(s', Confirm(a, cleanupOk))
               == Moved(s, id, final, second)
                    .(actors := s.actors - {a}, reserved := if cleanupOk then s.reserved + {key} else s.reserved)
  {
    assert s.actors[a := Confirming(key)] - {a} == s.actors - {a};
  }

  lemma FinalizeRuns(s: State, steps: seq<Step>, s1: State, theirs: seq<Step>, others: State, a: ActorId,
                                        id: OrderId, final: OrderStatus, key: string, second: string, cleanupOk: bool)
    requires RunsTo(s, steps, s1) && Meanwhile(s1, theirs, others, a)
    requires s1.actors[a] == Actor.Processed(id, final, key)
    requires Enabled(others, Finalize(a, NextTicket(others.rows, second))) && id in others.orders
        && others.orders[id].id == id
    ensures RunsTo(s, steps + theirs + [Finalize(a, NextTicket(others.rows, second))] + [Confirm(a, cleanupOk)],
                   Moved(others, id, final, second)
                     .(actors := others.actors - {a},
                       reserved := if cleanupOk then others.reserved + {key} else others.reserved))
  {
    RunsConcat(s, steps, s1, theirs, others);
    OneMore(s, steps + theirs, Finalize(a, NextTicket(others.rows, second)));
    FinalizeEnds(others, a, id, final, key, second, cleanupOk);
    OneMore(s, steps + theirs + [Finalize(a, NextTicket(others.rows, second))], Confirm(a, cleanupOk));
  }

  /** The worker's call, whatever others do in between and however its writes fare, is a run of the actor system. */
  lemma CarriedRuns(s: State, a: ActorId, id: OrderId, first: string, second: string, luck: Luck,
                                       theirs: seq<Step>, others: State, theirs': seq<Step>, others': State)
    requires a in s.actors && s.actors[a] == Starting(id) && (id in s.orders ==> s.orders[id].id == id)
    requires Disturbed(s, a, id, first, second, luck, theirs, others, theirs', others')
    ensures RunsTo(s, CarrySteps(s, a, id, first, second, luck, theirs, others, theirs', others'),
                   Carried(s, a, id, first, second, luck, others, others'))
  {
    if luck.loadFails {
      OneStep(s, GiveUp(a));
    } else if !Matches(s.orders, id, Pending) {
      OneStep(s, Load(a));
    } else if !Lands(others, id, Pending, luck.writes(0)) {
      OneStep(s, Load(a));
      GivesUp(s, [Load(a)], Seen(s, a, id), theirs, others, a);
    } else {
      var marked := [Load(a)] + theirs + [MarkProcessing(a, NextTicket(others.rows, first))];
      var s1 := Marked(others, a, s.orders[id], first);
      MarkRuns(s, a, id, first, theirs, others);
      if !Lands(others', id, Processing, luck.writes(1)) {
        GivesUp(s, marked, s1, theirs', others', a);
      } else {
        MovedHistory(others', id, FinalStatus(s.orders[id]), second);
        FinalizeRuns(s, marked, s1, theirs', others', a, id, FinalStatus(s.orders[id]), s.orders[id].key, second,
            luck.cleanupOk);
      }
    }
  }

  /** Nobody else ran. */
  ghost predicate LeftAlone(s: State, a: ActorId, id: OrderId, first: string, others: State, others': State)
    requires Matches(s.orders, id, Pending)
  {
    others == Seen(s, a, id) && (s.orders[id].id == id ==> others' == Marked(others, a, s.orders[id], first))
  }

  /**
   Left alone and without failures the worker carries a PENDING order through PROCESSING to
   EXECUTED, or to FAILED if its amount is not positive, with one event for each.
   */
  lemma CarriedThrough(s: State, a: ActorId, id: OrderId, first: string, second: string, luck: Luck,
                                          others: State, others': State)
    requires Matches(s.orders, id, Pending) && s.orders[id].id == id && LeftAlone(s, a, id, first, others, others')
    requires Writable(s, id, first) && FreshEvent(s.rows, second) && second != first
    requires !luck.loadFails && luck.writes(0).NoFault? && luck.writes(1).NoFault?
    ensures var s' := Carried(s, a, id, first, second, luck, others, others');
            && s'.orders == s.orders[id := s.orders[id].(status := FinalStatus(s.orders[id]))]
            && History(s'.rows, id) == History(s.rows, id) + [Processing, FinalStatus(s.orders[id])]
  {
    var order := s.orders[id];
    MovedHistory(s, id, Processing, first);
    AfterInsert(s.rows, order.(status := Processing), first, second);
    assert Writable(others', id, second);
    MovedHistory(others', id, FinalStatus(order), second);
    assert History(s.rows, id) + [Processing] + [FinalStatus(order)]
        == History(s.rows, id) + [Processing, FinalStatus(order)];
  }

  class OrderService {
    const repo: OrderRepository.Repository
    var reserved: set<string>
    ghost var actors: map<ActorId, Actor>
    ghost var trail: seq<Mark>

    constructor (repo: OrderRepository.Repository)
      ensures this.repo == repo && reserved == {} && actors == map[] && trail == []
    {
      this.repo, reserved, actors, trail := repo, {}, map[], [];
    }

    ghost function View(): State
      reads this, repo.db
    {
      State(repo.db.orders, repo.db.outbox, reserved, actors, trail)
    }

    /** SETNX on the idempotency key. */
    method ClaimIdempotency(key: string) returns (claimed: bool)
      modifies this`reserved
      ensures claimed == (key !in old(reserved))
      ensures reserved == old(reserved) + {key}
    {
      claimed := key !in reserved;
      reserved := reserved + {key};
    }

    method ConfirmIdempotency(key: string, ok: bool)
      modifies this`reserved
      ensures reserved == if ok then old(reserved) + {key} else old(reserved)
    {
      if ok {
        reserved := reserved + {key};
      }
    }

    method ReleaseIdempotency(key: string, ok: bool)
      modifies this`reserved
      ensures reserved == if ok then old(reserved) - {key} else old(reserved)
    {
      if ok {
        reserved := reserved - {key};
      }
    }

    /**
     Reserves the key, persists the order with its creation event, and leaves a lifecycle
     worker behind.  input carries the caller's fields; id and eventId are the fresh ones;
     others is the state at the insert.
     */
    method Place(input: Order, id: OrderId, eventId: string, luck: Luck, ghost a: ActorId,
                 ghost theirs: seq<Step>, others: State)
      returns (r: Result<Order, ServiceError>, ghost steps: seq<Step>)
      requires a !in actors
      requires var order := input.(id := id, status := Pending);
               Enabled(View(), ClaimKey(a, order)) ==>
                 && Meanwhile(Exec(View(), ClaimKey(a, order)), theirs, others, a)
                 && Sorted(others.rows) && FreshOrder(others, id) && FreshEvent(others.rows, eventId)
      modifies this`reserved, this`actors, this`trail, repo.db
      ensures var order := input.(id := id, status := Pending);
              if luck.redisDown then r == Err(Redis) && View() == old(View())
              else if input.key in old(reserved) then r == Err(DuplicateOrder) && View() == old(View())
              else if !luck.writes(0).NoFault? || KeyTaken(others.orders, input.key) then
                && r.Err? && repo.db.orders == others.orders && repo.db.outbox == others.rows
                && reserved == if luck.cleanupOk then others.reserved - {input.key} else others.reserved
              else
                && r == Ok(order)
                && repo.db.orders == others.orders[id := order]
                && History(repo.db.outbox, id) == [Pending]
                && reserved == others.reserved && actors == others.actors[a := Starting(id)]
      ensures RunsTo(old(View()), steps, View())
    {
      ghost var s := View();
      steps := [];
      if luck.redisDown {
        return Err(Redis), steps;
      }
      var claimed := ClaimIdempotency(input.key);
      if !claimed {
        assert reserved == old(reserved);
        return Err(DuplicateOrder), steps;
      }
      var order := input.(id := id, status := Pending);
      Yield(others);
      var t := NextTicket(others.rows, eventId);
      NextIsTicketed(others.rows, order, eventId);
      var created := repo.CreateWithOutbox(order, t, luck.writes(0));
      if created.Err? {
        steps := RollBack(s, order, luck, a, theirs, others);
        return Err(if created.error.Duplicate? then DuplicateOrder else Repo(created.error)), steps;
      }
      FirstEntry(others, order, eventId);
      PlaceRuns(s, a, order, theirs, others, id, t);
      steps := [ClaimKey(a, order)] + theirs + [InsertOrder(a, id, t)];
      actors, trail := actors[a := Starting(id)], trail + [Placed(order.key, id)];
      r := Ok(order);
    }

    /** The way out of a failed placement. */
    method RollBack(ghost s: State, order: Order, luck: Luck, ghost a: ActorId, ghost theirs: seq<Step>,
                    ghost others: State)
      returns (ghost steps: seq<Step>)
      requires Enabled(s, ClaimKey(a, order)) && Meanwhile(Exec(s, ClaimKey(a, order)), theirs, others, a)
      requires View() == others
      modifies this`reserved, this`actors
      ensures reserved == if luck.cleanupOk then others.reserved - {order.key} else others.reserved
      ensures RunsTo(s, steps, View())
    {
      ReleaseIdempotency(order.key, luck.cleanupOk);
      actors := actors - {a};
      PlaceRollsBack(s, a, order, theirs, others, luck.cleanupOk);
      steps := [ClaimKey(a, order)] + theirs + [InsertFails(a)] + [Release(a, luck.cleanupOk)];
    }

    /** Whatever others have done to the system by now. */
    method Yield(others: State)
      modifies this`reserved, this`actors, this`trail, repo.db
      ensures View() == others
    {
      repo.db.orders, repo.db.outbox, reserved := others.orders, others.rows, others.reserved;
      actors, trail := others.actors, others.trail;
    }

    /**
     An operator's transition: read, check the edge, compare and set.  others is the state at
     the compare-and-set, which their steps have brought about since the read.
     */
    method UpdateStatus(id: OrderId, next: OrderStatus, eventId: string, luck: Luck, ghost a: ActorId,
                        ghost theirs: seq<Step>, others: State)
      returns (r: Result<Order, ServiceError>, ghost steps: seq<Step>)
      requires a !in actors
      requires Enabled(View(), BeginUpdate(a, id, next)) ==>
                 Meanwhile(Exec(View(), BeginUpdate(a, id, next)), theirs, others, a) && Writable(others, id, eventId)
      modifies this`reserved, this`actors, this`trail, repo.db
      ensures var orders := old(repo.db.orders);
              if luck.loadFails || id !in orders || !CanTransition(orders[id].status, next) then
                r.Err? && View() == old(View())
              else if !luck.writes(0).NoFault? || !Matches(others.orders, id, orders[id].status) then
                r.Err? && View() == others.(actors := others.actors - {a})
              else
                && r == Ok(others.orders[id].(status := next))
                && View() == Moved(others, id, next, eventId).(actors := others.actors - {a})
                && History(repo.db.outbox, id) == History(others.rows, id) + [next]
      ensures RunsTo(old(View()), steps, View())
    {
      ghost var s := View();
      steps := [];
      var loaded := repo.GetByID(id, luck.loadFails);
      if loaded.Err? {
        return Err(Repo(loaded.error)), steps;
      }
      var current := loaded.value.status;
      if Transition(loaded.value, next).None? {
        return Err(Illegal), steps;
      }
      Yield(others);
      if Matches(others.orders, id, current) {
        UpdateRuns(s, a, id, next, theirs, others, eventId);
        MovedHistory(others, id, next, eventId);
      }
      var written := WriteStatus(id, current, next, eventId, luck.writes(0));
      actors := actors - {a};
      if written.Err? {
        GivesUpAfter(s, BeginUpdate(a, id, next), theirs, others, a);
        return Err(Repo(written.error)), [BeginUpdate(a, id, next)] + theirs + [GiveUp(a)];
      }
      steps := [BeginUpdate(a, id, next)] + theirs + [FinishUpdate(a, NextTicket(others.rows, eventId))];
      r := Ok(written.value);
    }

    /** One compare-and-set with the next id of the table. */
    method WriteStatus(id: OrderId, expected: OrderStatus, next: OrderStatus, eventId: string,
                       fault: OrderRepository.Fault)
      returns (r: Result<Order, OrderRepository.RepoError>)
      requires Writable(View(), id, eventId)
      modifies repo.db
      ensures r.Ok? <==> Lands(old(View()), id, expected, fault)
      ensures r.Ok? ==> r.value == old(repo.db.orders)[id].(status := next)
      ensures View() == if r.Ok? then Moved(old(View()), id, next, eventId) else old(View())
    {
      if id in repo.db.orders {
        NextIsTicketed(repo.db.outbox, repo.db.orders[id].(status := next), eventId);
      }
      r := repo.UpdateStatusWithOutbox(id, expected, next, NextTicket(repo.db.outbox, eventId), fault);
    }

    /**
     Removes an order seen PENDING, then gives its reservation back.  others is the state at
     the delete, which does not look at the status again.
     */
    method Delete(id: OrderId, luck: Luck, ghost a: ActorId, ghost theirs: seq<Step>, others: State)
      returns (err: Option<ServiceError>, ghost steps: seq<Step>)
      requires a !in actors
      requires Enabled(View(), BeginDelete(a, id)) ==> Meanwhile(Exec(View(), BeginDelete(a, id)), theirs, others, a)
      modifies this`reserved, this`actors, this`trail, repo.db
      ensures var orders := old(repo.db.orders);
              if luck.loadFails || !Matches(orders, id, Pending) then
                View() == old(View()) && err.Some? && (!luck.loadFails && id in orders ==> err == Some(NotCancelable))
              else if luck.deleteFails || id !in others.orders then
                View() == others.(actors := others.actors - {a}) && err.Some?
              else
                && err.None?
                && repo.db.orders == others.orders - {id} && repo.db.outbox == others.rows
                && reserved == if luck.cleanupOk then others.reserved - {orders[id].key} else others.reserved
      ensures RunsTo(old(View()), steps, View())
    {
      ghost var s := View();
      steps := [];
      var loaded := repo.GetByID(id, luck.loadFails);
      if loaded.Err? {
        return Some(Repo(loaded.error)), steps;
      }
      if loaded.value.status != Pending {
        return Some(NotCancelable), steps;
      }
      Yield(others);
      var failure := repo.Delete(id, luck.deleteFails);
      actors := actors - {a};
      if failure.Some? {
        GivesUpAfter(s, BeginDelete(a, id), theirs, others, a);
        assert repo.db.orders == others.orders;
        return Some(Repo(failure.value)), [BeginDelete(a, id)] + theirs + [GiveUp(a)];
      }
      ReleaseIdempotency(loaded.value.key, luck.cleanupOk);
      DeleteRuns(s, a, id, theirs, others, luck.cleanupOk);
      trail := trail + [Removed(others.orders[id].key, id)];
      steps := [BeginDelete(a, id)] + theirs + [FinishDelete(a)] + [Release(a, luck.cleanupOk)];
      err := None;
    }

    /** The detached worker and the run of the actor system that it is. */
    method StartLifecycle(id: OrderId, first: string, second: string, luck: Luck, ghost a: ActorId,
                          ghost theirs: seq<Step>, others: State, ghost theirs': seq<Step>, others': State)
      returns (ghost steps: seq<Step>)
      requires a in actors && actors[a] == Starting(id) && (id in repo.db.orders ==> repo.db.orders[id].id == id)
      requires Disturbed(View(), a, id, first, second, luck, theirs, others, theirs', others')
      modifies this`reserved, this`actors, this`trail, repo.db
      ensures View() == Carried(old(View()), a, id, first, second, luck, others, others')
      ensures RunsTo(old(View()), steps, View())
    {
      CarriedRuns(View(), a, id, first, second, luck, theirs, others, theirs', others');
      steps := CarrySteps(View(), a, id, first, second, luck, theirs, others, theirs', others');
      ProcessLifecycle(id, first, second, luck, a, others, others');
    }

    /**
     The worker, from its read on.  others and others' are the states at its two writes; a
     write that finds the order elsewhere, or fails, ends it.
     */
    method ProcessLifecycle(id: OrderId, first: string, second: string, luck: Luck, ghost a: ActorId, others: State,
                            others': State)
      requires id in repo.db.orders ==> repo.db.orders[id].id == id
      requires Matches(repo.db.orders, id, Pending) ==>
                 Writable(others, id, first)
                     && (Lands(others, id, Pending, luck.writes(0)) ==> Writable(others', id, second))
      modifies this`reserved, this`actors, this`trail, repo.db
      ensures View() == Carried(old(View()), a, id, first, second, luck, others, others')
    {
      var loaded := repo.GetByID(id, luck.loadFails);
      if loaded.Err? || loaded.value.status != Pending {
        actors := actors - {a};
        return;
      }
      var order := loaded.value;
      Yield(others);
      var moved := WriteStatus(id, Pending, Processing, first, luck.writes(0));
      if moved.Err? {
        actors := actors - {a};
        return;
      }
      Yield(others');
      var final := if order.amount <= 0 then OrderStatus.Failed else Executed;
      var done := WriteStatus(id, Processing, final, second, luck.writes(1));
      actors := actors - {a};
      if done.Err? {
        return;
      }
      ConfirmIdempotency(order.key, luck.cleanupOk);
    }
  }
}
