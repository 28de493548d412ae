/** The relay's drain: batch after batch until the backlog is empty, stuck or cancelled. */
module Relay {
  import opened Wrappers
  import opened Orders
  import opened Outbox
  import opened Database
  import opened OutboxRepository
  import Relays
  import opened RelayRuns
  import DeliveryOrder

  /** What the world does during one batch. */
  datatype Weather = Weather(replies: nat -> Answer, faults: Faults)

  function Config(batchSize: int, maxAttempts: int): (r: (nat, nat))
    ensures r.0 > 0 && r.1 > 0
  {
    (if batchSize <= 0 then 100 else batchSize, if maxAttempts <= 0 then 10 else maxAttempts)
  }

  /** Every PENDING row left over belongs to an aggregate that the batch blocked. */
  lemma LeftOverIsBlocked(rows: seq<Row>, limit: nat, answers: seq<Answer>, maxAttempts: nat, r': Row)
    requires Sorted(rows) && limit > 0
    requires |Claim(rows, {}, limit)| < limit && |answers| == |Claim(rows, {}, limit)|
    requires var p := Handled(Claim(rows, {}, limit), answers);
             r' in Settled(rows, p, maxAttempts) && r'.status.OutboxPending?
    ensures r'.Aggregate() in Handled(Claim(rows, {}, limit), answers).blocked
  {
    var batch := Claim(rows, {}, limit);
    var p := Handled(batch, answers);
    var r := SettledOrigin(rows, p, maxAttempts, r');
    assert r.status.OutboxPending?;
    ClaimShort(rows, {}, limit, r);
    assert Sorted(batch) by {
      ClaimMembers(rows, {}, limit);
    }
    HandledTallied(batch, answers);
    var i :| 0 <= i < |batch| && batch[i] == r;
  }

  lemma LeftOversAreBlocked(rows: seq<Row>, limit: nat, answers: seq<Answer>, maxAttempts: nat)
    requires Sorted(rows) && limit > 0
    requires |Claim(rows, {}, limit)| < limit && |answers| == |Claim(rows, {}, limit)|
    ensures var p := Handled(Claim(rows, {}, limit), answers);
            forall r :: r in Settled(rows, p, maxAttempts) && r.status.OutboxPending? ==> r.Aggregate() in p.blocked
  {
    var p := Handled(Claim(rows, {}, limit), answers);
    forall r | r in Settled(rows, p, maxAttempts) && r.status.OutboxPending? ensures r.Aggregate() in p.blocked {
      LeftOverIsBlocked(rows, limit, answers, maxAttempts, r);
    }
  }

  /** A batch that claimed rows and published none carries the broker's error. */
  lemma NothingPublishedIsAnError(rows: seq<Row>, limit: nat, answers: seq<Answer>)
    requires Sorted(rows) && |answers| == |Claim(rows, {}, limit)| && answers != []
    requires Handled(Claim(rows, {}, limit), answers).published == []
    ensures Handled(Claim(rows, {}, limit), answers).err.Some?
  {
    var batch := Claim(rows, {}, limit);
    assert Sorted(batch) by {
      ClaimMembers(rows, {}, limit);
    }
    HandledTallied(batch, answers);
    HandledAccounted(batch, answers);
  }

  lemma {:induction false} TurnsOnly(relay: Relays.RelayId, answers: seq<Answer>)
    ensures forall i :: 0 <= i < |HandleSteps(relay, answers)| ==> HandleSteps(relay, answers)[i].Handle?
  {
    if answers == [] {
    } else {
      TurnsOnly(relay, answers[..|answers| - 1]);
    }
  }

  /** A lone batch keeps the invariant and the delivery order, whether it commits or rolls back. */
  lemma BatchKeepsOrder(s: Relays.State, limit: nat, answers: seq<Answer>, committed: bool, maxAttempts: nat)
    requires Relays.Inv(s, maxAttempts) && DeliveryOrder.InOrder(s) && s.txns == map[] && limit > 0
    requires Relays.Possible(s, BatchSteps(0, limit, answers, committed), maxAttempts)
    ensures var s' := Relays.After(s, BatchSteps(0, limit, answers, committed), maxAttempts);
            Relays.Inv(s', maxAttempts) && DeliveryOrder.InOrder(s')
  {
    var steps := BatchSteps(0, limit, answers, committed);
    TurnsOnly(0, answers);
    OneClaim(s, steps, maxAttempts);
    DeliveryOrder.LoneRunIsCareful(s, steps, maxAttempts);
    DeliveryOrder.RunInOrder(s, steps, maxAttempts);
    Relays.RunKeeps(s, steps, maxAttempts);
  }

  class Relay {
    const store: Repository
    const broker: Broker
    const batchSize: nat
    const maxAttempts: nat

    constructor (store: Repository, broker: Broker, batchSize: int, maxAttempts: int)
      ensures this.store == store && this.broker == broker
      ensures (this.batchSize, this.maxAttempts) == Config(batchSize, maxAttempts)
    {
      this.store, this.broker := store, broker;
      this.batchSize := Config(batchSize, maxAttempts).0;
      this.maxAttempts := Config(batchSize, maxAttempts).1;
    }

    ghost predicate Valid() {
      batchSize > 0 && maxAttempts > 0
    }

    /** The table and the log with no batch under way. */
    ghost function View(): Relays.State
      reads store.db, broker
    {
      Relays.State(store.db.outbox, broker.log, map[])
    }

    /**
     Publishes batches until the backlog is empty.  cancelled(k) says whether the context
     is cancelled before batch k, weather(k) what happens during it.  The whole call is a
     run of the relay system.  When it ends without an error and not by cancellation, the
     last batch, described by before and answered, has left no row PENDING but those of
     the aggregates it blocked.  When it ends with an error, the last batch rolled back, or it
     published nothing and the error is the broker's first.
     */
    method Drain(cancelled: nat -> bool, weather: nat -> Weather)
      returns (err: Option<string>, stopped: bool, ghost steps: seq<Relays.Step>,
               ghost before: seq<Row>, ghost answered: seq<Answer>)
      requires Valid() && Sorted(store.db.outbox)
      modifies store.db`outbox, broker
      ensures Sorted(store.db.outbox)
      ensures Relays.Possible(old(View()), steps, maxAttempts)
      ensures View() == Relays.After(old(View()), steps, maxAttempts)
      ensures Relays.Inv(old(View()), maxAttempts) && DeliveryOrder.InOrder(old(View()))
              ==> Relays.Inv(View(), maxAttempts) && DeliveryOrder.InOrder(View())
      ensures err.None? && !stopped ==>
                var batch := Claim(before, {}, batchSize);
                && |answered| == |batch| < batchSize
                && store.db.outbox == Settled(before, Handled(batch, answered), maxAttempts)
                && forall r :: r in store.db.outbox && r.status.OutboxPending?
                               ==> r.Aggregate() in Handled(batch, answered).blocked
      ensures err.Some? ==>
                store.db.outbox == before
                || (|answered| == |Claim(before, {}, batchSize)|
                    && var p := Handled(Claim(before, {}, batchSize), answered);
                    store.db.outbox == Settled(before, p, maxAttempts) && p.published == [] && err == p.err)
      ensures stopped ==> err.None?
    {
      err, stopped, steps, before, answered := None, false, [], store.db.outbox, [];
      var k := 0;
      while true
        invariant Sorted(store.db.outbox)
        invariant Relays.Possible(old(View()), steps, maxAttempts)
        invariant View() == Relays.After(old(View()), steps, maxAttempts)
        invariant Relays.Inv(old(View()), maxAttempts) && DeliveryOrder.InOrder(old(View()))
                  ==> Relays.Inv(View(), maxAttempts) && DeliveryOrder.InOrder(View())
        decreases Budget(store.db.outbox, maxAttempts)
      {
        if cancelled(k) {
          return None, true, steps, before, answered;
        }
        ghost var s := View();
        before := store.db.outbox;
        var res, failure;
        res, failure, answered :=
          store.PublishBatch(batchSize, maxAttempts, broker, {}, weather(k).replies, weather(k).faults);
        ghost var batch := Claim(before, {}, batchSize);
        SettledSorted(before, Handled(batch, answered), maxAttempts);
        ExtendRun(old(View()), steps, s, batchSize, answered, failure.None?, maxAttempts);
        steps := steps + BatchSteps(0, batchSize, answered, failure.None?);
        if failure.Some? {
          return failure, false, steps, before, answered;
        }
        if res.claimed == 0 {
          LeftOversAreBlocked(before, batchSize, answered, maxAttempts);
          return None, false, steps, before, answered;
        }
        if res.published == 0 {
          NothingPublishedIsAnError(before, batchSize, answered);
          return res.err, false, steps, before, answered;
        }
        if res.claimed < batchSize {
          LeftOversAreBlocked(before, batchSize, answered, maxAttempts);
          return None, false, steps, before, answered;
        }
        BatchSpends(before, {}, batchSize, maxAttempts, answered);
        k := k + 1;
      }
    }
  }

  lemma ExtendRun(s0: Relays.State, steps: seq<Relays.Step>, s: Relays.State, limit: nat, answers: seq<Answer>,
                  committed: bool, maxAttempts: nat)
    requires Relays.Possible(s0, steps, maxAttempts) && s == Relays.After(s0, steps, maxAttempts)
    requires s.txns == map[] && limit > 0
    requires |answers| <= |Claim(s.rows, {}, limit)|
    requires committed ==> |answers| == |Claim(s.rows, {}, limit)|
    ensures var p := Handled(Claim(s.rows, {}, limit), answers);
            var steps' := steps + BatchSteps(0, limit, answers, committed);
            var s' := Relays.State(if committed then Settled(s.rows, p, maxAttempts) else s.rows,
                                   s.log + p.sent, map[]);
            && Relays.Possible(s0, steps', maxAttempts)
            && Relays.After(s0, steps', maxAttempts) == s'
            && (Relays.Inv(s, maxAttempts) && DeliveryOrder.InOrder(s)
                ==> Relays.Inv(s', maxAttempts) && DeliveryOrder.InOrder(s'))
  {
    assert Relays.Locked(s) == {};
    BatchIsARun(s, 0, limit, answers, committed, maxAttempts);
    var batch := BatchSteps(0, limit, answers, committed);
    RunsConcat(s0, steps, s, batch, Relays.After(s, batch, maxAttempts), maxAttempts);
    if Relays.Inv(s, maxAttempts) && DeliveryOrder.InOrder(s) {
      BatchKeepsOrder(s, limit, answers, committed, maxAttempts);
    }
  }
}
