/**
 The whole pipeline with its consumer: order actors and relays on one side, and on the other
 the delivery protocol with its cursor, committed offset and dead-letter log, on the very log
 the relays write.  Every run of it is a run of Pipeline and of Delivery, so what is proved of
 either holds of it; together they say that committed money arrives.
 */
module EndToEnd {
  import opened Wrappers
  import opened Orders
  import opened Outbox
  import opened Position
  import opened Ledger
  import opened Window
  import opened Projection
  import opened Executions
  import Relays
  import OrderSystem
  import Pipeline
  import Delivery

  datatype State = State(pipe: Pipeline.State, history: seq<string>, cursor: nat, committed: nat, parked: seq<nat>)

  /** An order or relay step, or a turn of the consumer. */
  datatype Step = Produce(step: Pipeline.Step) | Consume(turn: Delivery.Step)

  /** What the consumer reads: outbox payloads decode. */
  function Records(log: seq<Message>): (records: seq<Delivery.Record>)
    ensures |records| == |log|
  {
    seq(|log|, i requires 0 <= i < |log| => Delivery.Parsed(log[i].event))
  }

  function ConsumerOf(s: State): Delivery.State {
    Delivery.State(s.pipe.book, s.history, s.cursor, s.committed, s.parked)
  }

  ghost predicate Enabled(s: State, step: Step) {
    match step
    case Produce(p) => !p.Deliver? && Pipeline.Enabled(s.pipe, p)
    case Consume(turn) => Delivery.Enabled(ConsumerOf(s), Records(s.pipe.log), turn)
  }

  /** A turn of the consumer delivers the message under its cursor; a rebalance delivers nothing. */
  ghost function Exec(s: State, step: Step, maxAttempts: nat): State
    requires Enabled(s, step)
  {
    match step
    case Produce(p) => s.(pipe := Pipeline.Exec(s.pipe, p, maxAttempts))
    case Consume(turn) =>
      var c := Delivery.Exec(ConsumerOf(s), Records(s.pipe.log), turn);
      State(if turn.Rebalance? then s.pipe
            else Pipeline.Exec(s.pipe, Pipeline.Deliver(s.cursor, turn.nav), maxAttempts),
            c.history, c.cursor, c.committed, c.parked)
  }

  ghost predicate Possible(s: State, steps: seq<Step>, maxAttempts: nat)
    decreases |steps|, 0
  {
    steps == []
    || (var n := |steps| - 1;
        Possible(s, steps[..n], maxAttempts) && Enabled(After(s, steps[..n], maxAttempts), steps[n]))
  }

  ghost function After(s: State, steps: seq<Step>, maxAttempts: nat): State
    requires Possible(s, steps, maxAttempts)
    decreases |steps|, 1
  {
    if steps == [] then s
    else
      var n := |steps| - 1;
      Exec(After(s, steps[..n], maxAttempts), steps[n], maxAttempts)
  }

  function Initial(opening: Book): State {
    State(Pipeline.Initial(opening), [], 0, 0, [])
  }

  ghost predicate Reaches(opening: Book, steps: seq<Step>, s: State, maxAttempts: nat) {
    Pipeline.FreshLedger(opening) && Possible(Initial(opening), steps, maxAttempts)
        && After(Initial(opening), steps, maxAttempts) == s
  }

  // ----- a run of the pipeline -----

  /** What the run does to the pipeline, step by step. */
  ghost function Piped(opening: Book, steps: seq<Step>, maxAttempts: nat): seq<Pipeline.Step>
    requires Possible(Initial(opening), steps, maxAttempts)
  {
    if steps == [] then []
    else
      var n := |steps| - 1;
      Piped(opening, steps[..n], maxAttempts)
      + match steps[n]
        case Produce(p) => [p]
        case Consume(turn) =>
          if turn.Rebalance? then []
          else [Pipeline.Deliver(After(Initial(opening), steps[..n], maxAttempts).cursor, turn.nav)]
  }

  lemma {:induction false} IsAPipelineRun(opening: Book, steps: seq<Step>, s: State, maxAttempts: nat)
    requires Reaches(opening, steps, s, maxAttempts)
    ensures Pipeline.RunsTo(Pipeline.Initial(opening), Piped(opening, steps, maxAttempts), s.pipe, maxAttempts)
    ensures s.pipe.opening == opening
  {
    if steps == [] {
    } else {
      var n := |steps| - 1;
      var before := After(Initial(opening), steps[..n], maxAttempts);
      IsAPipelineRun(opening, steps[..n], before, maxAttempts);
      var front := Piped(opening, steps[..n], maxAttempts);
      match steps[n]
      case Produce(p) => Pipeline.OneMore(Pipeline.Initial(opening), front, before.pipe, p, maxAttempts);
      case Consume(turn) =>
        if turn.Rebalance? {
          assert front + [] == front;
        } else {
          Pipeline.OneMore(Pipeline.Initial(opening), front, before.pipe, Pipeline.Deliver(before.cursor, turn.nav),
              maxAttempts);
        }
    }
  }

  lemma PipelineReached(opening: Book, steps: seq<Step>, s: State, maxAttempts: nat)
    requires Reaches(opening, steps, s, maxAttempts)
    ensures Pipeline.Reachable(s.pipe, maxAttempts) && s.pipe.opening == opening
  {
    IsAPipelineRun(opening, steps, s, maxAttempts);
  }

  // ----- a run of the delivery protocol -----

  /** Both sides see the same ledger: a turn delivers what the protocol says it does. */
  lemma TurnIsADelivery(s: State, turn: Delivery.Step, maxAttempts: nat)
    requires Enabled(s, Consume(turn))
    ensures ConsumerOf(Exec(s, Consume(turn), maxAttempts)) == Delivery.Exec(ConsumerOf(s), Records(s.pipe.log), turn)
    ensures Exec(s, Consume(turn), maxAttempts).pipe.log == s.pipe.log
  {
    if turn.Park? || turn.Hold? {
      OnlyFillsChangeTheLedger(s.pipe.book, s.pipe.log[s.cursor].event, turn.nav, MAX_APPLIED_EVENTS);
    }
  }

  /** The relays only ever add to the log, and the ledger is none of their business. */
  lemma ProducingAppends(s: State, p: Pipeline.Step, maxAttempts: nat)
    requires Enabled(s, Produce(p))
    ensures s.pipe.log <= Exec(s, Produce(p), maxAttempts).pipe.log
    ensures ConsumerOf(Exec(s, Produce(p), maxAttempts)) == ConsumerOf(s)
  {
  }

  /** A run over a log is a run over any longer one. */
  lemma {:induction false} LogMayGrow(c: Delivery.State, log: seq<Delivery.Record>, log': seq<Delivery.Record>,
                                      turns: seq<Delivery.Step>)
    requires Delivery.Possible(c, log, turns) && log <= log'
    ensures Delivery.Possible(c, log', turns) && Delivery.After(c, log', turns) == Delivery.After(c, log, turns)
  {
    if turns == [] {
    } else {
      LogMayGrow(c, log, log', turns[..|turns| - 1]);
    }
  }

  lemma RecordsGrow(log: seq<Message>, log': seq<Message>)
    requires log <= log'
    ensures Records(log) <= Records(log')
  {
  }

  /** The consumer's turns of a run. */
  function Consumed(steps: seq<Step>): seq<Delivery.Step> {
    if steps == [] then []
    else
      var n := |steps| - 1;
      Consumed(steps[..n]) + (if steps[n].Consume? then [steps[n].turn] else [])
  }

  lemma {:induction false} IsADeliveryRun(opening: Book, steps: seq<Step>, s: State, maxAttempts: nat)
    requires Reaches(opening, steps, s, maxAttempts)
    ensures var (c, log, turns) := (Delivery.Start(opening, 0), Records(s.pipe.log), Consumed(steps));
            Delivery.Possible(c, log, turns) && Delivery.After(c, log, turns) == ConsumerOf(s)
  {
    var c := Delivery.Start(opening, 0);
    if steps == [] {
    } else {
      var n := |steps| - 1;
      var before := After(Initial(opening), steps[..n], maxAttempts);
      IsADeliveryRun(opening, steps[..n], before, maxAttempts);
      match steps[n]
      case Produce(p) =>
        ProducingAppends(before, p, maxAttempts);
        RecordsGrow(before.pipe.log, s.pipe.log);
        LogMayGrow(c, Records(before.pipe.log), Records(s.pipe.log), Consumed(steps[..n]));
        assert Consumed(steps) == Consumed(steps[..n]);
      case Consume(turn) =>
        TurnIsADelivery(before, turn, maxAttempts);
        Delivery.OneMore(c, Records(s.pipe.log), Consumed(steps[..n]), turn);
    }
  }

  // ----- the consumer's history is made of effects -----

  ghost predicate HistoryHasEffect(s: State) {
    forall id :: id in s.history ==> HasEffect(s.pipe, id)
  }

  /** An event the projection applies is the last effect of the deliveries that end with it. */
  lemma ChangeIsAnEffect(opening: Book, ms: seq<Movement>, e: OrderEvent, nav: real)
    requires Project(Delivered(opening, ms, Pipeline.CAP).0, e, nav, Pipeline.CAP).1.Changed?
    ensures Pipeline.ReachesLedger(e, nav)
    ensures Delivered(opening, ms + [MovementOf(e, nav)], Pipeline.CAP).1[|ms|].Applied?
  {
    assert (ms + [MovementOf(e, nav)])[..|ms|] == ms;
  }

  lemma DeliveryKeepsEffects(p: Pipeline.State, k: nat, nav: real, maxAttempts: nat)
    requires k < |p.log|
    ensures var p' := Pipeline.Exec(p, Pipeline.Deliver(k, nav), maxAttempts);
            forall id :: HasEffect(p, id) ==> HasEffect(p', id)
  {
    var e := p.log[k].event;
    var p' := Pipeline.Exec(p, Pipeline.Deliver(k, nav), maxAttempts);
    if Pipeline.ReachesLedger(e, nav) {
      EffectsStay(p, p', MovementOf(e, nav));
    } else {
      forall id | HasEffect(p, id) ensures HasEffect(p', id) {
        var n :| 0 <= n < |p.deliveries| && Pipeline.TookEffect(p, n) && p.deliveries[n].eventId == id;
        assert Pipeline.TookEffect(p', n);
      }
    }
  }

  lemma DeliveryHasEffect(p: Pipeline.State, k: nat, nav: real, maxAttempts: nat)
    requires k < |p.log| && p.book == Delivered(p.opening, p.deliveries, Pipeline.CAP).0
    requires Project(p.book, p.log[k].event, nav, Pipeline.CAP).1.Changed?
    ensures HasEffect(Pipeline.Exec(p, Pipeline.Deliver(k, nav), maxAttempts), p.log[k].event.eventId)
  {
    ChangeIsAnEffect(p.opening, p.deliveries, p.log[k].event, nav);
    assert Pipeline.TookEffect(Pipeline.Exec(p, Pipeline.Deliver(k, nav), maxAttempts), |p.deliveries|);
  }

  lemma TurnHasEffect(s: State, turn: Delivery.Step, maxAttempts: nat)
    requires Pipeline.Inv(s.pipe, maxAttempts) && HistoryHasEffect(s) && Enabled(s, Consume(turn))
    ensures HistoryHasEffect(Exec(s, Consume(turn), maxAttempts))
  {
    if !turn.Rebalance? {
      DeliveryKeepsEffects(s.pipe, s.cursor, turn.nav, maxAttempts);
    }
    if turn.Settle? && Project(s.pipe.book, s.pipe.log[s.cursor].event, turn.nav, Pipeline.CAP).1.Changed? {
      DeliveryHasEffect(s.pipe, s.cursor, turn.nav, maxAttempts);
    }
  }

  lemma {:induction false} RunHasEffect(opening: Book, steps: seq<Step>, s: State, maxAttempts: nat)
    requires Reaches(opening, steps, s, maxAttempts)
    ensures HistoryHasEffect(s)
  {
    if steps == [] {
    } else {
      var n := |steps| - 1;
      var before := After(Initial(opening), steps[..n], maxAttempts);
      RunHasEffect(opening, steps[..n], before, maxAttempts);
      if steps[n].Consume? {
        PipelineReached(opening, steps[..n], before, maxAttempts);
        Pipeline.ReachableKeeps(before.pipe, maxAttempts);
        TurnHasEffect(before, steps[n].turn, maxAttempts);
      }
    }
  }

  // ----- committed money arrives -----

  /**
   No executed order gets lost between the outbox and the ledger: in every run in which held
   messages are rewound to before anything after them is committed, an executed fill whose
   record lies below the committed offset has taken effect or is on the dead-letter log.
   */
  lemma CommittedFillArrived(opening: Book, steps: seq<Step>, s: State, maxAttempts: nat, o: nat, row: Row)
    requires Reaches(opening, steps, s, maxAttempts) && Delivery.HoldsRewound(Consumed(steps))
    requires o < s.committed && row in s.pipe.sys.rows && IsFill(row.event)
    requires o < |s.pipe.log| && s.pipe.log[o] == row.Record()
    ensures HasEffect(s.pipe, row.event.eventId) || o in s.parked
  {
    IsADeliveryRun(opening, steps, s, maxAttempts);
    RunHasEffect(opening, steps, s, maxAttempts);
    Delivery.CommittedIsAccountedFor(opening, 0, Records(s.pipe.log), Consumed(steps), o);
  }

  /** And a PROCESSED row has its record on the log. */
  lemma ProcessedIsLogged(opening: Book, steps: seq<Step>, s: State, maxAttempts: nat, row: Row) returns (o: nat)
    requires Reaches(opening, steps, s, maxAttempts)
    requires row in s.pipe.sys.rows && row.status.OutboxProcessed?
    ensures o < |s.pipe.log| && s.pipe.log[o] == row.Record()
  {
    PipelineReached(opening, steps, s, maxAttempts);
    Pipeline.ReachableKeeps(s.pipe, maxAttempts);
    var i :| 0 <= i < |s.pipe.sys.rows| && s.pipe.sys.rows[i] == row;
    assert row.Record() in s.pipe.log;
    o :| 0 <= o < |s.pipe.log| && s.pipe.log[o] == row.Record();
  }

  /** Inside the window it has taken effect only once. */
  lemma ArrivedOnce(opening: Book, steps: seq<Step>, s: State, maxAttempts: nat, i: nat, j: nat)
    requires Reaches(opening, steps, s, maxAttempts) && WindowKept(opening, s.pipe.deliveries, Pipeline.CAP)
    requires i < |s.pipe.deliveries| && Pipeline.TookEffect(s.pipe, i)
    requires j < |s.pipe.deliveries| && Pipeline.TookEffect(s.pipe, j)
    ensures s.pipe.deliveries[i].eventId == s.pipe.deliveries[j].eventId ==> i == j
  {
    PipelineReached(opening, steps, s, maxAttempts);
    if i != j {
      AtMostOnce(opening, s.pipe.deliveries, Pipeline.CAP, if i < j then i else j, if i < j then j else i);
    }
  }

  /** The amounts of all EXECUTED buy rows of a position. */
  function AllBuys(rows: seq<Row>, userId: string, fundId: string): int {
    if rows == [] then 0
    else AllBuys(rows[..|rows| - 1], userId, fundId) + Pipeline.Worth(rows[|rows| - 1].event, userId, fundId)
  }

  /** The amounts of the EXECUTED buy rows whose event is not among the given ids. */
  function BuysOutside(rows: seq<Row>, ids: set<string>, userId: string, fundId: string): int {
    if rows == [] then 0
    else
      var last := rows[|rows| - 1].event;
      BuysOutside(rows[..|rows| - 1], ids, userId, fundId)
      + (if last.eventId in ids then 0 else Pipeline.Worth(last, userId, fundId))
  }

  lemma {:induction false} BuysSplit(rows: seq<Row>, ids: set<string>, userId: string, fundId: string)
    ensures AllBuys(rows, userId, fundId)
         == Pipeline.BuysAmong(rows, ids, userId, fundId) + BuysOutside(rows, ids, userId, fundId)
  {
    if rows == [] {
    } else {
      BuysSplit(rows[..|rows| - 1], ids, userId, fundId);
    }
  }

  lemma {:induction false} NothingOutside(rows: seq<Row>, ids: set<string>, userId: string, fundId: string)
    requires forall i :: 0 <= i < |rows| && Pipeline.Worth(rows[i].event, userId, fundId) != 0
                         ==> rows[i].event.eventId in ids
    ensures BuysOutside(rows, ids, userId, fundId) == 0
  {
    if rows == [] {
    } else {
      NothingOutside(rows[..|rows| - 1], ids, userId, fundId);
    }
  }

  /** The ids of the events that took effect. */
  ghost function Arrived(s: State): set<string> {
    Pipeline.EffectiveIds(s.pipe.deliveries, Delivered(s.pipe.opening, s.pipe.deliveries, Pipeline.CAP).1)
  }

  lemma EffectArrived(s: State, eventId: string)
    requires HasEffect(s.pipe, eventId)
    ensures eventId in Arrived(s)
  {
    var n :| 0 <= n < |s.pipe.deliveries| && Pipeline.TookEffect(s.pipe, n) && s.pipe.deliveries[n].eventId == eventId;
  }

  /** The record is on the log, and each copy of it is parked or not yet acknowledged. */
  ghost predicate UnderWay(s: State, m: Message) {
    && (exists o :: 0 <= o < |s.pipe.log| && s.pipe.log[o] == m)
    && forall o :: 0 <= o < |s.pipe.log| && s.pipe.log[o] == m ==> o in s.parked || o >= s.committed
  }

  /**
   The ledger and the orders, in every run that keeps the window: each position holds and has
   released what it opened with plus all its EXECUTED buy rows, less those without effect.
   */
  lemma LedgerIsTheOrders(opening: Book, steps: seq<Step>, s: State, maxAttempts: nat, userId: string, fundId: string)
    requires Reaches(opening, steps, s, maxAttempts) && WindowKept(opening, s.pipe.deliveries, Pipeline.CAP)
    ensures CostHeld(PositionOf(s.pipe.book.byUser, userId, fundId))
            + AccountOf(opening, s.pipe.deliveries, Pipeline.CAP, userId, fundId).totals.released
            == CostHeld(PositionOf(opening.byUser, userId, fundId))
               + AllBuys(s.pipe.sys.rows, userId, fundId) - BuysOutside(s.pipe.sys.rows, Arrived(s), userId, fundId)
  {
    PipelineReached(opening, steps, s, maxAttempts);
    Pipeline.EachBuyCountsOnce(s.pipe, maxAttempts, userId, fundId);
    BuysSplit(s.pipe.sys.rows, Arrived(s), userId, fundId);
  }

  /** And where held messages are rewound to, a PROCESSED fill without effect is parked or still under way. */
  lemma MissingIsUnderWay(opening: Book, steps: seq<Step>, s: State, maxAttempts: nat, row: Row)
    requires Reaches(opening, steps, s, maxAttempts) && Delivery.HoldsRewound(Consumed(steps))
    requires row in s.pipe.sys.rows && row.status.OutboxProcessed? && IsFill(row.event)
    requires row.event.eventId !in Arrived(s)
    ensures UnderWay(s, row.Record())
  {
    var found := ProcessedIsLogged(opening, steps, s, maxAttempts, row);
    forall o | 0 <= o < |s.pipe.log| && s.pipe.log[o] == row.Record() ensures o in s.parked || o >= s.committed {
      if o < s.committed {
        CommittedFillArrived(opening, steps, s, maxAttempts, o, row);
        if HasEffect(s.pipe, row.event.eventId) {
          EffectArrived(s, row.event.eventId);
        }
      }
    }
  }

  /** Everything is shipped and committed, nothing is parked, and what was bought makes valid events. */
  ghost predicate CaughtUp(s: State, userId: string, fundId: string) {
    && s.committed == |s.pipe.log| && s.parked == []
    && forall i :: 0 <= i < |s.pipe.sys.rows| ==>
         && s.pipe.sys.rows[i].status.OutboxProcessed?
         && (Pipeline.Worth(s.pipe.sys.rows[i].event, userId, fundId) != 0 ==> IsFill(s.pipe.sys.rows[i].event))
  }

  /**
   Once everything is shipped and committed with nothing parked, each position holds and has
   released exactly what it opened with plus the amounts of all its EXECUTED buy rows.
   */
  lemma CaughtUpLedger(opening: Book, steps: seq<Step>, s: State, maxAttempts: nat, userId: string, fundId: string)
    requires Reaches(opening, steps, s, maxAttempts) && Delivery.HoldsRewound(Consumed(steps))
    requires WindowKept(opening, s.pipe.deliveries, Pipeline.CAP) && CaughtUp(s, userId, fundId)
    ensures CostHeld(PositionOf(s.pipe.book.byUser, userId, fundId))
            + AccountOf(opening, s.pipe.deliveries, Pipeline.CAP, userId, fundId).totals.released
            == CostHeld(PositionOf(opening.byUser, userId, fundId)) + AllBuys(s.pipe.sys.rows, userId, fundId)
  {
    var rows := s.pipe.sys.rows;
    LedgerIsTheOrders(opening, steps, s, maxAttempts, userId, fundId);
    forall i | 0 <= i < |rows| && Pipeline.Worth(rows[i].event, userId, fundId) != 0
      ensures rows[i].event.eventId in Arrived(s)
    {
      if rows[i].event.eventId !in Arrived(s) {
        MissingIsUnderWay(opening, steps, s, maxAttempts, rows[i]);
        assert false;
      }
    }
    NothingOutside(rows, Arrived(s), userId, fundId);
  }
}
