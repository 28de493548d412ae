/**
 Per-order delivery order.  A step keeps it in every continuation exactly when it is careful:
 a claim leaves behind no undelivered PENDING row older than one it takes, and a requeue
 revives no undelivered row behind a younger one that was, or is about to be, delivered.  A
 lone relay's claims always are.
 */
module DeliveryOrder {
  import opened Wrappers
  import opened Orders
  import opened Outbox
  import opened Relays
  import opened RelayRuns

  ghost predicate DeliveredBefore(log: seq<Message>, k: int, id: nat) {
    exists i :: 0 <= i < k && i < |log| && log[i].outboxId == id
  }

  /** When a row is delivered, each older row of its order was delivered before it or is retired. */
  ghost predicate OlderFirst(rows: seq<Row>, log: seq<Message>) {
    forall k, i :: 0 <= k < |log| && 0 <= i < |rows|
                   && rows[i].Aggregate() == log[k].Aggregate() && rows[i].id < log[k].outboxId
                   ==> rows[i].status.OutboxFailed? || DeliveredBefore(log, k, rows[i].id)
  }

  /** Only a repeat is ever delivered behind a younger row of its order. */
  ghost predicate FirstsInOrder(log: seq<Message>) {
    forall i, j :: 0 <= i < j < |log|
                   && log[i].Aggregate() == log[j].Aggregate() && log[j].outboxId < log[i].outboxId
                   ==> DeliveredBefore(log, i, log[j].outboxId)
  }

  /** The batch has still to hand over its j-th row, and will unless something fails. */
  ghost predicate Due(t: Txn, j: int) {
    |t.answers| <= j < |t.batch| && t.batch[j].Aggregate() !in Tally(t).blocked
  }

  predicate Younger(b: Row, r: Row) {
    r.Aggregate() == b.Aggregate() && r.id < b.id
  }

  /** No PENDING row that the batch and the log lack is older than one the batch is still to deliver. */
  ghost predicate Whole(rows: seq<Row>, log: seq<Message>, t: Txn) {
    forall j, r :: Due(t, j) && r in rows && r.status.OutboxPending? && Younger(t.batch[j], r)
                   ==> r in t.batch || r.Record() in log
  }

  ghost predicate WholeClaims(s: State) {
    forall q :: q in s.txns ==> Whole(s.rows, s.log, s.txns[q])
  }

  ghost predicate InOrder(s: State) {
    OlderFirst(s.rows, s.log) && FirstsInOrder(s.log) && WholeClaims(s)
  }

  /** No retired row that was not delivered before is older than a delivered one of its order. */
  ghost predicate NoneRetiredBehind(rows: seq<Row>, log: seq<Message>) {
    forall k, i :: 0 <= k < |log| && 0 <= i < |rows| && rows[i].status.OutboxFailed?
                   && rows[i].Aggregate() == log[k].Aggregate() && rows[i].id < log[k].outboxId
                   ==> DeliveredBefore(log, k, rows[i].id)
  }

  /** No undelivered retired row is older than one that the batch is still to deliver. */
  ghost predicate NoneRetiredUnder(rows: seq<Row>, log: seq<Message>, t: Txn) {
    forall j, r :: Due(t, j) && r in rows && r.status.OutboxFailed? && Younger(t.batch[j], r) ==> r.Record() in log
  }

  ghost predicate RequeueIsSafe(s: State) {
    NoneRetiredBehind(s.rows, s.log) && forall q :: q in s.txns ==> NoneRetiredUnder(s.rows, s.log, s.txns[q])
  }

  /** What a claim or a requeue has to look out for; every other step is free. */
  ghost predicate Careful(s: State, step: Step) {
    match step
    case Begin(relay, limit) => Whole(s.rows, s.log, Txn(Claim(s.rows, Locked(s), limit), []))
    case Requeue => RequeueIsSafe(s)
    case _ => true
  }

  lemma LoneIsCareful(s: State, step: Step)
    requires Sorted(s.rows) && Lone(s, step)
    ensures Careful(s, step)
  {
    if step.Begin? {
      var batch := Claim(s.rows, Locked(s), step.limit);
      assert Locked(s) == {};
      forall j, r | Due(Txn(batch, []), j) && r in s.rows && r.status.OutboxPending? && Younger(batch[j], r)
        ensures r in batch
      {
        ClaimOldest(s.rows, {}, step.limit, batch[j], r);
      }
    }
  }

  // ----- inserting -----

  /** A row goes in behind every row of its order that the table already has. */
  lemma InsertedIsYoungest(rows: seq<Row>, at: nat, row: Row, i: nat)
    requires Insertable(rows, at, row) && i < |rows| && rows[i].Aggregate() == row.Aggregate()
    ensures rows[i].id < row.id
  {
  }

  lemma InsertOlderFirst(rows: seq<Row>, at: nat, row: Row, log: seq<Message>)
    requires Insertable(rows, at, row) && LogFromTable(rows, log) && OlderFirst(rows, log)
    ensures OlderFirst(Inserted(rows, at, row), log)
  {
    var rows' := Inserted(rows, at, row);
    forall k, j | 0 <= k < |log| && 0 <= j < |rows'|
                  && rows'[j].Aggregate() == log[k].Aggregate() && rows'[j].id < log[k].outboxId
      ensures rows'[j].status.OutboxFailed? || DeliveredBefore(log, k, rows'[j].id)
    {
      InsertedAt(rows, at, row, j);
      if log[k].Aggregate() == row.Aggregate() {
        var i :| 0 <= i < |rows| && rows[i].Record() == log[k];
        InsertedIsYoungest(rows, at, row, i);
      }
    }
  }

  lemma InsertWhole(rows: seq<Row>, at: nat, row: Row, log: seq<Message>, t: Txn)
    requires Insertable(rows, at, row) && Whole(rows, log, t)
    requires forall b :: b in t.batch ==> b in rows
    ensures Whole(Inserted(rows, at, row), log, t)
  {
    forall j, r | Due(t, j) && r in Inserted(rows, at, row) && r.status.OutboxPending? && Younger(t.batch[j], r)
      ensures r in t.batch || r.Record() in log
    {
      InsertedMembers(rows, at, row, r);
      assert t.batch[j] in t.batch;
      var i :| 0 <= i < |rows| && rows[i] == t.batch[j];
      if rows[i].Aggregate() == row.Aggregate() {
        InsertedIsYoungest(rows, at, row, i);
      }
    }
  }

  // ----- delivering -----

  /** An older claimed row of an order that is not blocked was sent in its own turn. */
  lemma OlderWasSent(t: Txn, r: Row)
    requires Sorted(t.batch) && |t.answers| < |t.batch| && r in t.batch
    requires var b := t.batch[|t.answers|];
             b.Aggregate() !in Tally(t).blocked && r.Aggregate() == b.Aggregate() && r.id < b.id
    ensures r.Record() in Tally(t).sent
  {
    var i :| 0 <= i < |t.batch| && t.batch[i] == r;
    assert i < |t.answers|;
    HandledTallied(t.batch, t.answers);
  }

  /** An older row of the order whose turn it is has been delivered, or is retired. */
  lemma OlderIsOut(s: State, relay: RelayId, r: Row, maxAttempts: nat)
    requires Inv(s, maxAttempts) && WholeClaims(s)
    requires relay in s.txns && |s.txns[relay].answers| < |s.txns[relay].batch|
    requires var t := s.txns[relay];
             var b := t.batch[|t.answers|];
             && b.Aggregate() !in Tally(t).blocked
             && r in s.rows && r.Aggregate() == b.Aggregate() && r.id < b.id
    ensures r.status.OutboxFailed? || r.Record() in s.log
  {
    var t := s.txns[relay];
    var b := t.batch[|t.answers|];
    assert b in t.batch;
    if r.status.OutboxPending? {
      assert Whole(s.rows, s.log, t) && Due(t, |t.answers|) && Younger(b, r);
      if r in t.batch {
        OlderWasSent(t, r);
      }
    } else if r.status.OutboxProcessed? {
      var i :| 0 <= i < |s.rows| && s.rows[i] == r;
    }
  }

  lemma LogGrowsOlderFirst(rows: seq<Row>, log: seq<Message>, row: Row)
    requires OlderFirst(rows, log)
    requires forall i :: 0 <= i < |rows| && rows[i].Aggregate() == row.Aggregate() && rows[i].id < row.id
                         ==> rows[i].status.OutboxFailed? || rows[i].Record() in log
    ensures OlderFirst(rows, log + [row.Record()])
  {
    var log' := log + [row.Record()];
    forall k, i | 0 <= k < |log'| && 0 <= i < |rows|
                  && rows[i].Aggregate() == log'[k].Aggregate() && rows[i].id < log'[k].outboxId
      ensures rows[i].status.OutboxFailed? || DeliveredBefore(log', k, rows[i].id)
    {
      if !rows[i].status.OutboxFailed? {
        if k < |log| {
          assert DeliveredBefore(log, k, rows[i].id);
          var h :| 0 <= h < k && h < |log| && log[h].outboxId == rows[i].id;
          assert log'[h] == log[h];
        } else {
          var h :| 0 <= h < |log| && log[h] == rows[i].Record();
          assert log'[h] == log[h];
        }
      }
    }
  }

  lemma LogGrowsFirstsInOrder(rows: seq<Row>, log: seq<Message>, row: Row)
    requires OlderFirst(rows, log) && FirstsInOrder(log)
    requires row in rows && row.status.OutboxPending?
    ensures FirstsInOrder(log + [row.Record()])
  {
    var log' := log + [row.Record()];
    var at :| 0 <= at < |rows| && rows[at] == row;
    forall i, j | 0 <= i < j < |log'|
                  && log'[i].Aggregate() == log'[j].Aggregate() && log'[j].outboxId < log'[i].outboxId
      ensures DeliveredBefore(log', i, log'[j].outboxId)
    {
      assert log'[i] == log[i];
      assert DeliveredBefore(log, i, log'[j].outboxId) by {
        if j < |log| {
          assert log'[j] == log[j];
        } else {
          assert rows[at].id < log[i].outboxId;
        }
      }
      var h :| 0 <= h < i && h < |log| && log[h].outboxId == log'[j].outboxId;
      assert log'[h] == log[h];
    }
  }

  /** A turn leaves less to deliver, and the log only grows. */
  lemma HandleWhole(s: State, relay: RelayId, answer: Answer, q: RelayId, maxAttempts: nat)
    requires WholeClaims(s) && Enabled(s, Handle(relay, answer)) && q in s.txns
    ensures var s' := Exec(s, Handle(relay, answer), maxAttempts); Whole(s'.rows, s'.log, s'.txns[q])
  {
    var s' := Exec(s, Handle(relay, answer), maxAttempts);
    var t, t' := s.txns[q], s'.txns[q];
    assert Whole(s.rows, s.log, t);
    if q == relay {
      TallyNext(t, answer);
    }
    forall j | Due(t', j) ensures Due(t, j) {
    }
    assert forall m :: m in s.log ==> m in s'.log;
  }

  lemma HandleInOrder(s: State, relay: RelayId, answer: Answer, maxAttempts: nat)
    requires Inv(s, maxAttempts) && InOrder(s) && Enabled(s, Handle(relay, answer))
    ensures InOrder(Exec(s, Handle(relay, answer), maxAttempts))
  {
    forall q | q in s.txns
      ensures var s' := Exec(s, Handle(relay, answer), maxAttempts); Whole(s'.rows, s'.log, s'.txns[q])
    {
      HandleWhole(s, relay, answer, q, maxAttempts);
    }
    HandleLogInOrder(s, relay, answer, maxAttempts);
  }

  lemma HandleLogInOrder(s: State, relay: RelayId, answer: Answer, maxAttempts: nat)
    requires Inv(s, maxAttempts) && InOrder(s) && Enabled(s, Handle(relay, answer))
    ensures var log' := s.log + Delivery(s.txns[relay], answer); OlderFirst(s.rows, log') && FirstsInOrder(log')
  {
    var t := s.txns[relay];
    var b := t.batch[|t.answers|];
    assert b in t.batch;
    if Delivery(t, answer) != [] {
      forall i | 0 <= i < |s.rows| && s.rows[i].Aggregate() == b.Aggregate() && s.rows[i].id < b.id
        ensures s.rows[i].status.OutboxFailed? || s.rows[i].Record() in s.log
      {
        OlderIsOut(s, relay, s.rows[i], maxAttempts);
      }
      LogGrowsOlderFirst(s.rows, s.log, b);
      LogGrowsFirstsInOrder(s.rows, s.log, b);
    } else {
      assert s.log + [] == s.log;
    }
  }

  // ----- committing -----

  /** A commit leaves a retired row retired. */
  lemma RetiredStays(s: State, relay: RelayId, row: Row, maxAttempts: nat)
    requires Sorted(s.rows) && ClaimsHeld(s) && relay in s.txns && row in s.rows && row.status.OutboxFailed?
    ensures SettledRow(row, Tally(s.txns[relay]), maxAttempts) == row
  {
    var p := Tally(s.txns[relay]);
    if row.id in p.published || row.id in p.refused {
      HandledWasClaimed(s, relay, row);
      assert false;
    }
  }

  lemma CommitOlderFirst(s: State, relay: RelayId, maxAttempts: nat)
    requires Sorted(s.rows) && ClaimsHeld(s) && OlderFirst(s.rows, s.log) && Enabled(s, Commit(relay))
    ensures OlderFirst(Settled(s.rows, Tally(s.txns[relay]), maxAttempts), s.log)
  {
    var rows' := Settled(s.rows, Tally(s.txns[relay]), maxAttempts);
    forall k, i | 0 <= k < |s.log| && 0 <= i < |rows'|
                  && rows'[i].Aggregate() == s.log[k].Aggregate() && rows'[i].id < s.log[k].outboxId
      ensures rows'[i].status.OutboxFailed? || DeliveredBefore(s.log, k, rows'[i].id)
    {
      assert s.rows[i].id == rows'[i].id && s.rows[i].Aggregate() == rows'[i].Aggregate();
      if s.rows[i].status.OutboxFailed? {
        RetiredStays(s, relay, s.rows[i], maxAttempts);
      }
    }
  }

  /** A commit leaves another batch's row as it was. */
  lemma CommitSpares(s: State, relay: RelayId, other: RelayId, r: Row, maxAttempts: nat)
    requires Disjoint(s) && Enabled(s, Commit(relay))
    requires other in s.txns && other != relay && r in s.txns[other].batch
    ensures SettledRow(r, Tally(s.txns[relay]), maxAttempts) == r
  {
    var t := s.txns[relay];
    assert r.id in Ids(s.txns[other].batch);
    forall b | b in t.batch ensures b.id != r.id {
      assert b.id in Ids(t.batch);
    }
    SettledElsewhere(t, r, maxAttempts);
  }

  lemma CommitWhole(s: State, relay: RelayId, other: RelayId, maxAttempts: nat)
    requires Disjoint(s) && WholeClaims(s) && Enabled(s, Commit(relay))
    requires other in s.txns && other != relay
    ensures Whole(Settled(s.rows, Tally(s.txns[relay]), maxAttempts), s.log, s.txns[other])
  {
    var p, u := Tally(s.txns[relay]), s.txns[other];
    assert Whole(s.rows, s.log, u);
    forall j, r' | Due(u, j) && r' in Settled(s.rows, p, maxAttempts) && r'.status.OutboxPending?
        && Younger(u.batch[j], r')
      ensures r' in u.batch || r'.Record() in s.log
    {
      var r := SettledOrigin(s.rows, p, maxAttempts, r');
      assert Younger(u.batch[j], r) && r'.Record() == r.Record();
      if r in u.batch {
        CommitSpares(s, relay, other, r, maxAttempts);
      }
    }
  }

  // ----- requeueing -----

  lemma RequeueOlderFirst(rows: seq<Row>, log: seq<Message>)
    requires OlderFirst(rows, log)
    ensures OlderFirst(Requeued(rows), log) <==> NoneRetiredBehind(rows, log)
  {
    var rows' := Requeued(rows);
    forall i | 0 <= i < |rows|
      ensures rows'[i].id == rows[i].id && rows'[i].Aggregate() == rows[i].Aggregate() && !rows'[i].status.OutboxFailed?
    {
    }
    if OlderFirst(rows', log) {
      forall k, i | 0 <= k < |log| && 0 <= i < |rows| && rows[i].status.OutboxFailed?
                    && rows[i].Aggregate() == log[k].Aggregate() && rows[i].id < log[k].outboxId
        ensures DeliveredBefore(log, k, rows[i].id)
      {
        assert rows'[i].id < log[k].outboxId;
      }
    }
  }

  lemma RequeuedOrigin(rows: seq<Row>, r': Row) returns (r: Row)
    requires r' in Requeued(rows)
    ensures r in rows && r' == RequeuedRow(r) && r'.Record() == r.Record()
  {
    var i :| 0 <= i < |rows| && Requeued(rows)[i] == r';
    r := rows[i];
  }

  lemma RequeuedMember(rows: seq<Row>, r: Row)
    requires r in rows
    ensures RequeuedRow(r) in Requeued(rows)
  {
    var i :| 0 <= i < |rows| && rows[i] == r;
    assert Requeued(rows)[i] == RequeuedRow(r);
  }

  lemma RequeueWhole(rows: seq<Row>, log: seq<Message>, t: Txn)
    requires Sorted(rows) && Whole(rows, log, t)
    requires forall b :: b in t.batch ==> b in rows && b.status.OutboxPending?
    ensures Whole(Requeued(rows), log, t) <==> NoneRetiredUnder(rows, log, t)
  {
    if Whole(Requeued(rows), log, t) {
      forall j, r | Due(t, j) && r in rows && r.status.OutboxFailed? && Younger(t.batch[j], r)
        ensures r.Record() in log {
        var r' := RequeuedRow(r);
        RequeuedMember(rows, r);
        assert Younger(t.batch[j], r');
        if r' in t.batch {
          SameRow(rows, r, r');
        }
      }
    }
    if NoneRetiredUnder(rows, log, t) {
      forall j, r' | Due(t, j) && r' in Requeued(rows) && r'.status.OutboxPending? && Younger(t.batch[j], r')
        ensures r' in t.batch || r'.Record() in log
      {
        var r := RequeuedOrigin(rows, r');
        assert Younger(t.batch[j], r);
      }
    }
  }

  /** A requeue leaves the system in order exactly when it is careful. */
  lemma RequeueKeepsOrderIff(s: State, maxAttempts: nat)
    requires Inv(s, maxAttempts) && InOrder(s)
    ensures InOrder(Exec(s, Requeue, maxAttempts)) <==> RequeueIsSafe(s)
  {
    RequeueOlderFirst(s.rows, s.log);
    forall q | q in s.txns
      ensures Whole(Requeued(s.rows), s.log, s.txns[q]) <==> NoneRetiredUnder(s.rows, s.log, s.txns[q])
    {
      assert Whole(s.rows, s.log, s.txns[q]);
      RequeueWhole(s.rows, s.log, s.txns[q]);
    }
  }

  /** A claim leaves the system in order exactly when it is careful. */
  lemma BeginKeepsOrderIff(s: State, relay: RelayId, limit: nat, maxAttempts: nat)
    requires InOrder(s) && Enabled(s, Begin(relay, limit))
    ensures InOrder(Exec(s, Begin(relay, limit), maxAttempts)) <==> Careful(s, Begin(relay, limit))
  {
    var s' := Exec(s, Begin(relay, limit), maxAttempts);
    forall q | q in s.txns ensures Whole(s'.rows, s'.log, s'.txns[q]) {
      assert q != relay;
    }
    assert relay in s'.txns;
  }

  // ----- every careful run -----

  /** A step from an ordered state leaves one exactly when it is careful. */
  lemma StepInOrder(s: State, step: Step, maxAttempts: nat)
    requires Inv(s, maxAttempts) && InOrder(s) && Enabled(s, step)
    ensures InOrder(Exec(s, step, maxAttempts)) <==> Careful(s, step)
  {
    match step
    case Insert(at, row) =>
      InsertOlderFirst(s.rows, at, row, s.log);
      forall q | q in s.txns ensures Whole(Inserted(s.rows, at, row), s.log, s.txns[q]) {
        InsertWhole(s.rows, at, row, s.log, s.txns[q]);
      }
    case Begin(relay, limit) => BeginKeepsOrderIff(s, relay, limit, maxAttempts);
    case Handle(relay, answer) => HandleInOrder(s, relay, answer, maxAttempts);
    case Commit(relay) =>
      CommitOlderFirst(s, relay, maxAttempts);
      forall q | q in s.txns && q != relay
        ensures Whole(Settled(s.rows, Tally(s.txns[relay]), maxAttempts), s.log, s.txns[q])
      {
        CommitWhole(s, relay, q, maxAttempts);
      }
    case Abort(relay) =>
    case Requeue => RequeueKeepsOrderIff(s, maxAttempts);
  }

  ghost predicate CarefulRun(s: State, steps: seq<Step>, maxAttempts: nat)
    requires Possible(s, steps, maxAttempts)
  {
    steps == []
    || (var n := |steps| - 1;
        CarefulRun(s, steps[..n], maxAttempts) && Careful(After(s, steps[..n], maxAttempts), steps[n]))
  }

  /** In every run of careful steps deliveries stay in order. */
  lemma {:induction false} RunInOrder(s: State, steps: seq<Step>, maxAttempts: nat)
    requires Inv(s, maxAttempts) && InOrder(s)
    requires Possible(s, steps, maxAttempts) && CarefulRun(s, steps, maxAttempts)
    ensures InOrder(After(s, steps, maxAttempts))
  {
    if steps == [] {
    } else {
      var n := |steps| - 1;
      RunInOrder(s, steps[..n], maxAttempts);
      RunKeeps(s, steps[..n], maxAttempts);
      StepInOrder(After(s, steps[..n], maxAttempts), steps[n], maxAttempts);
    }
  }

  lemma {:induction false} LoneRunIsCareful(s: State, steps: seq<Step>, maxAttempts: nat)
    requires Inv(s, maxAttempts) && Possible(s, steps, maxAttempts) && LoneRun(s, steps, maxAttempts)
    ensures CarefulRun(s, steps, maxAttempts)
  {
    if steps == [] {
    } else {
      var n := |steps| - 1;
      LoneRunIsCareful(s, steps[..n], maxAttempts);
      RunKeeps(s, steps[..n], maxAttempts);
      LoneIsCareful(After(s, steps[..n], maxAttempts), steps[n]);
    }
  }

  /**
   With one relay and no requeue, across batches, refusals, retirements and transactions
   that roll back after publishing: each order's first deliveries come in outbox-id order,
   and a delivered row has every older row of its order delivered before it or retired.
   */
  lemma LoneRelayDeliversInOrder(steps: seq<Step>, maxAttempts: nat)
    requires var s := State([], [], map[]);
             Possible(s, steps, maxAttempts) && LoneRun(s, steps, maxAttempts)
    ensures var s' := After(State([], [], map[]), steps, maxAttempts);
            OlderFirst(s'.rows, s'.log) && FirstsInOrder(s'.log)
  {
    var s := State([], [], map[]);
    LoneRunIsCareful(s, steps, maxAttempts);
    RunInOrder(s, steps, maxAttempts);
  }

  // ----- care is needed -----

  /**
   Nothing a lone relay with this batch size does from here on ever delivers an order's events for
   the first time out of order.
   */
  ghost predicate KeepsOrder(s: State, limit: nat, maxAttempts: nat) {
    forall steps, s' :: LoneTo(s, steps, s', maxAttempts) && Sized(steps, limit) ==> FirstsInOrder(s'.log)
  }

  /** A row the log lacks is PENDING behind a delivered younger one of its order. */
  ghost predicate Overtaken(s: State, k: nat, r: Row) {
    && k < |s.log| && r in s.rows && r.status.OutboxPending?
    && r.Aggregate() == s.log[k].Aggregate() && r.id < s.log[k].outboxId
    && forall h :: 0 <= h < |s.log| ==> s.log[h].outboxId != r.id
  }

  /** An overtaken row can still be delivered, and is then late. */
  lemma OvertakenIsLate(s: State, k: nat, r: Row, limit: nat, maxAttempts: nat)
    requires Sorted(s.rows) && Overtaken(s, k, r) && limit > 0
    ensures !KeepsOrder(s, limit, maxAttempts)
  {
    var steps, s' := PendingCanBeDelivered(s, limit, maxAttempts);
    assert forall h :: 0 <= h < |s.log| ==> s'.log[h] == s.log[h];
    DeliveredLate(s'.log, k, r);
  }

  lemma Undelivered(s: State, r: Row)
    requires Sorted(s.rows) && LogFromTable(s.rows, s.log) && r in s.rows && r.Record() !in s.log
    ensures forall h :: 0 <= h < |s.log| ==> s.log[h].outboxId != r.id
  {
    forall h | 0 <= h < |s.log| ensures s.log[h].outboxId != r.id {
      assert FromTable(s.rows, s.log[h]);
      var i :| 0 <= i < |s.rows| && s.rows[i].Record() == s.log[h];
      if s.log[h].outboxId == r.id {
        SameRow(s.rows, s.rows[i], r);
      }
    }
  }

  lemma DeliveredLate(log: seq<Message>, k: nat, r: Row)
    requires k < |log| && r.Record() in log && !DeliveredBefore(log, k, r.id)
    requires r.Aggregate() == log[k].Aggregate() && r.id < log[k].outboxId
    ensures !FirstsInOrder(log)
  {
    var j :| 0 <= j < |log| && log[j] == r.Record();
    assert log[j].outboxId == r.id;
    assert j > k;
  }

  /** A row that is not retired and was not delivered before a younger one is late, or can be. */
  lemma NotBeforeIsLate(s: State, k: nat, r: Row, limit: nat, maxAttempts: nat)
    requires Sorted(s.rows) && LogFromTable(s.rows, s.log) && ProcessedInLog(s.rows, s.log) && limit > 0
    requires k < |s.log| && r in s.rows && !r.status.OutboxFailed?
    requires r.Aggregate() == s.log[k].Aggregate() && r.id < s.log[k].outboxId && !DeliveredBefore(s.log, k, r.id)
    ensures !KeepsOrder(s, limit, maxAttempts)
  {
    if r.Record() in s.log {
      DeliveredLate(s.log, k, r);
      assert LoneTo(s, [], s, maxAttempts);
    } else {
      Undelivered(s, r);
      OvertakenIsLate(s, k, r, limit, maxAttempts);
    }
  }

  /** A table and log out of step are, or can become, deliveries out of order. */
  lemma OlderFirstIsNeeded(s: State, limit: nat, maxAttempts: nat)
    requires Inv(s, maxAttempts) && !OlderFirst(s.rows, s.log) && limit > 0
    ensures !KeepsOrder(s, limit, maxAttempts)
  {
    var k, i :| 0 <= k < |s.log| && 0 <= i < |s.rows|
                && s.rows[i].Aggregate() == s.log[k].Aggregate() && s.rows[i].id < s.log[k].outboxId
                && !s.rows[i].status.OutboxFailed? && !DeliveredBefore(s.log, k, s.rows[i].id);
    NotBeforeIsLate(s, k, s.rows[i], limit, maxAttempts);
  }

  /** A row the log lacks behind a logged younger one can still be delivered, and is then late. */
  lemma BehindIsLate(s: State, b: Row, r: Row, limit: nat, maxAttempts: nat)
    requires Sorted(s.rows) && LogFromTable(s.rows, s.log) && b.Record() in s.log && Younger(b, r) && limit > 0
    requires r in s.rows && r.status.OutboxPending? && r.Record() !in s.log
    ensures !KeepsOrder(s, limit, maxAttempts)
  {
    var k :| 0 <= k < |s.log| && s.log[k] == b.Record();
    Undelivered(s, r);
    OvertakenIsLate(s, k, r, limit, maxAttempts);
  }

  lemma NotGained(rows: seq<Row>, batch: seq<Row>, log: seq<Message>, log': seq<Message>, r: Row)
    requires Sorted(rows) && r in rows && r !in batch && r.Record() !in log
    requires forall b :: b in batch ==> b in rows
    requires GainedFrom(batch, log, log')
    ensures r.Record() !in log'
  {
    forall b | b in batch ensures b.Record() != r.Record() {
      if b.id == r.id {
        SameRow(rows, b, r);
      }
    }
  }

  /** A batch that is to deliver a row while an older one is left out can overtake it. */
  lemma LeftOutIsLate(s: State, q: RelayId, j: nat, r: Row, limit: nat, maxAttempts: nat)
    requires Inv(s, maxAttempts) && q in s.txns && Due(s.txns[q], j) && limit > 0
    requires r in s.rows && r.status.OutboxPending? && Younger(s.txns[q].batch[j], r)
    requires r !in s.txns[q].batch && r.Record() !in s.log
    ensures !KeepsOrder(s, limit, maxAttempts)
  {
    var t := s.txns[q];
    var steps, s' := AckTheRest(s, q, limit, maxAttempts);
    NotGained(s.rows, t.batch, s.log, s'.log, r);
    assert s'.log == After(s, steps, maxAttempts).log && t.batch[j].Record() in s'.log;
    LogStaysFromTable(s, steps, maxAttempts);
    BehindIsLate(s', t.batch[j], r, limit, maxAttempts);
    LaterIsWorse(s, steps, s', limit, maxAttempts);
  }

  lemma LogStaysFromTable(s: State, steps: seq<Step>, maxAttempts: nat)
    requires Inv(s, maxAttempts) && Possible(s, steps, maxAttempts)
    ensures var s' := After(s, steps, maxAttempts); LogFromTable(s'.rows, s'.log)
  {
    RunKeeps(s, steps, maxAttempts);
  }

  lemma WholeIsNeeded(s: State, q: RelayId, limit: nat, maxAttempts: nat)
    requires Inv(s, maxAttempts) && q in s.txns && !Whole(s.rows, s.log, s.txns[q]) && limit > 0
    ensures !KeepsOrder(s, limit, maxAttempts)
  {
    var t := s.txns[q];
    var j, r :| Due(t, j) && r in s.rows && r.status.OutboxPending? && Younger(t.batch[j], r)
                && r !in t.batch && r.Record() !in s.log;
    LeftOutIsLate(s, q, j, r, limit, maxAttempts);
  }

  lemma LaterIsWorse(s: State, steps: seq<Step>, s': State, limit: nat, maxAttempts: nat)
    requires LoneTo(s, steps, s', maxAttempts) && Sized(steps, limit) && !KeepsOrder(s', limit, maxAttempts)
    ensures !KeepsOrder(s, limit, maxAttempts)
  {
    var rest, s'' :| LoneTo(s', rest, s'', maxAttempts) && Sized(rest, limit) && !FirstsInOrder(s''.log);
    LoneConcat(s, steps, s', rest, s'', maxAttempts);
  }

  /** The ordered states are exactly those from which a lone relay keeps delivering in order. */
  lemma InOrderIff(s: State, limit: nat, maxAttempts: nat)
    requires Inv(s, maxAttempts) && limit > 0
    ensures InOrder(s) <==> KeepsOrder(s, limit, maxAttempts)
  {
    if InOrder(s) {
      forall steps, s' | LoneTo(s, steps, s', maxAttempts) && Sized(steps, limit) ensures FirstsInOrder(s'.log) {
        LoneRunIsCareful(s, steps, maxAttempts);
        RunInOrder(s, steps, maxAttempts);
      }
    } else if !OlderFirst(s.rows, s.log) {
      OlderFirstIsNeeded(s, limit, maxAttempts);
    } else if !FirstsInOrder(s.log) {
      assert LoneTo(s, [], s, maxAttempts);
    } else {
      var q :| q in s.txns && !Whole(s.rows, s.log, s.txns[q]);
      WholeIsNeeded(s, q, limit, maxAttempts);
    }
  }

  /** Not even any number of relays with careful steps ever deliver out of order from here on. */
  ghost predicate KeepsOrderTogether(s: State, maxAttempts: nat) {
    forall steps :: Possible(s, steps, maxAttempts) && CarefulRun(s, steps, maxAttempts)
                    ==> FirstsInOrder(After(s, steps, maxAttempts).log)
  }

  /**
   Exactly when a step is harmless, beside any number of relays and open batches.  A claim that
   skips locked rows must leave behind no undelivered PENDING row older than one it takes, and a
   requeue must revive no undelivered row older than one that was delivered or that an open
   batch is still to deliver.  After a careful step no careful steps of any relays deliver out
   of order; after any other even a lone relay can, whatever its batch size.
   */
  lemma CareIsExact(s: State, step: Step, limit: nat, maxAttempts: nat)
    requires Inv(s, maxAttempts) && InOrder(s) && Enabled(s, step) && limit > 0
    ensures Careful(s, step) <==> KeepsOrder(Exec(s, step, maxAttempts), limit, maxAttempts)
    ensures Careful(s, step) <==> KeepsOrderTogether(Exec(s, step, maxAttempts), maxAttempts)
  {
    var s' := Exec(s, step, maxAttempts);
    StepKeeps(s, step, maxAttempts);
    StepInOrder(s, step, maxAttempts);
    InOrderIff(s', limit, maxAttempts);
    TogetherIff(s', limit, maxAttempts);
  }

  lemma TogetherIff(s: State, limit: nat, maxAttempts: nat)
    requires Inv(s, maxAttempts) && limit > 0
    ensures InOrder(s) <==> KeepsOrderTogether(s, maxAttempts)
  {
    if InOrder(s) {
      forall steps | Possible(s, steps, maxAttempts) && CarefulRun(s, steps, maxAttempts)
        ensures FirstsInOrder(After(s, steps, maxAttempts).log)
      {
        RunInOrder(s, steps, maxAttempts);
      }
    } else {
      InOrderIff(s, limit, maxAttempts);
      var steps, s' :| LoneTo(s, steps, s', maxAttempts) && Sized(steps, limit) && !FirstsInOrder(s'.log);
      LoneRunIsCareful(s, steps, maxAttempts);
    }
  }

  // ----- two runs that go wrong -----

  function Sample(id: nat, status: OrderStatus): Row {
    var order := Order("order-1", "user-1", "fund-1", 100, "SIP", status, "key-1");
    Row(id, StatusChanged(order, if id == 1 then "e-1" else "e-2"), OutboxPending, 0)
  }

  lemma RevivedClaim()
    ensures var a, b := Sample(1, Pending), Sample(2, Processing).(status := OutboxProcessed);
            Requeued([a.(status := OutboxFailed, attempts := 3), b]) == [a, b] && Claim([a, b], {}, 1) == [a]
  {
    var a, b := Sample(1, Pending), Sample(2, Processing).(status := OutboxProcessed);
    assert [a, b][1..] == [b] && [b][1..] == [];
    assert Claimable([b], {}) == [];
  }

  lemma RetiredIsInOrder(a: Row, b: Row)
    requires a == Sample(1, Pending).(status := OutboxFailed, attempts := 3)
    requires b == Sample(2, Processing).(status := OutboxProcessed)
    ensures var s := State([a, b], [b.Record()], map[]); Inv(s, 3) && InOrder(s)
  {
    var s := State([a, b], [b.Record()], map[]);
    assert s.rows[1].Record() == s.log[0];
    assert FromTable(s.rows, s.log[0]);
  }

  /** A retired row revived behind its delivered successor is delivered late. */
  lemma RequeueCanBreakOrder()
    ensures var a, b := Sample(1, Pending).(status := OutboxFailed, attempts := 3),
                        Sample(2, Processing).(status := OutboxProcessed);
            var s := State([a, b], [b.Record()], map[]);
            var steps := [Requeue, Begin(0, 1), Handle(0, Acked)];
            && Inv(s, 3) && InOrder(s) && Possible(s, steps, 3)
            && After(s, steps, 3).log == [b.Record(), a.Record()] && !FirstsInOrder(After(s, steps, 3).log)
  {
    var a, b := Sample(1, Pending).(status := OutboxFailed, attempts := 3),
                Sample(2, Processing).(status := OutboxProcessed);
    var s := State([a, b], [b.Record()], map[]);
    var s1 := Exec(s, Requeue, 3);
    RetiredIsInOrder(a, b);
    RevivedClaim();
    assert Locked(s1) == {};
    var s2 := Exec(s1, Begin(0, 1), 3);
    FirstAcked(s2, 0, Sample(1, Pending));
    ThreeSteps(s, Requeue, s1, Begin(0, 1), s2, Handle(0, Acked), Exec(s2, Handle(0, Acked), 3), 3);
    LateLog(a, b);
  }

  lemma LateLog(a: Row, b: Row)
    requires a.Aggregate() == b.Aggregate() && a.id < b.id
    ensures !FirstsInOrder([b.Record(), a.Record()])
  {
    var log := [b.Record(), a.Record()];
    assert log[0].Aggregate() == log[1].Aggregate() && log[1].outboxId < log[0].outboxId;
    assert !DeliveredBefore(log, 0, log[1].outboxId);
  }

  /** A table nobody has touched yet is in order. */
  lemma UntouchedIsInOrder(s: State, maxAttempts: nat)
    requires Sorted(s.rows) && s.log == [] && s.txns == map[]
    requires forall i :: 0 <= i < |s.rows| ==> s.rows[i].status.OutboxPending?
    ensures Inv(s, maxAttempts) && InOrder(s)
  {
  }

  lemma SampleClaims()
    ensures var a, b := Sample(1, Pending), Sample(2, Processing);
            Claim([a, b], {}, 1) == [a] && Claim([a, b], {1}, 1) == [b]
  {
    var a, b := Sample(1, Pending), Sample(2, Processing);
    assert [a, b][1..] == [b] && [b][1..] == [];
    assert Claimable([b], {}) == [b] && Claimable([b], {1}) == [b];
  }

  lemma OneLock(s: State, relay: RelayId, row: Row)
    requires s.txns == map[relay := Txn([row], [])]
    ensures Locked(s) == {row.id}
  {
    assert [row][0].id == row.id;
    assert row.id in Ids(s.txns[relay].batch);
  }

  lemma SampleBegins(s: State)
    requires s == State([Sample(1, Pending), Sample(2, Processing)], [], map[])
    ensures var s1 := s.(txns := map[0 := Txn([Sample(1, Pending)], [])]);
            && Exec(s, Begin(0, 1), 3) == s1
            && Exec(s1, Begin(1, 1), 3) == s.(txns := s1.txns[1 := Txn([Sample(2, Processing)], [])])
  {
    SampleClaims();
    assert Locked(s) == {};
    OneLock(s.(txns := map[0 := Txn([Sample(1, Pending)], [])]), 0, Sample(1, Pending));
  }

  lemma FirstAcked(s: State, relay: RelayId, row: Row)
    requires relay in s.txns && s.txns[relay] == Txn([row], [])
    ensures Enabled(s, Handle(relay, Acked))
    ensures Exec(s, Handle(relay, Acked), 3).rows == s.rows
    ensures Exec(s, Handle(relay, Acked), 3).log == s.log + [row.Record()]
  {
  }

  lemma SampleEnds(s: State)
    requires s == State([Sample(1, Pending), Sample(2, Processing)], [], map[])
    ensures var steps := [Begin(0, 1), Begin(1, 1), Handle(1, Acked)];
            && Possible(s, steps, 3) && Enabled(After(s, steps, 3), Handle(0, Acked))
            && Exec(After(s, steps, 3), Handle(0, Acked), 3).log
                == [Sample(2, Processing).Record(), Sample(1, Pending).Record()]
  {
    var a, b := Sample(1, Pending), Sample(2, Processing);
    var s1 := s.(txns := map[0 := Txn([a], [])]);
    var s2 := s.(txns := s1.txns[1 := Txn([b], [])]);
    var s3 := Exec(s2, Handle(1, Acked), 3);
    SampleBegins(s);
    FirstAcked(s2, 1, b);
    ThreeSteps(s, Begin(0, 1), s1, Begin(1, 1), s2, Handle(1, Acked), s3, 3);
    FirstAcked(s3, 0, a);
  }

  /** A second relay that skips the first one's locked row overtakes it. */
  lemma TwoRelaysOvertake()
    ensures var a, b := Sample(1, Pending), Sample(2, Processing);
            var s := State([a, b], [], map[]);
            var steps := [Begin(0, 1), Begin(1, 1), Handle(1, Acked)] + [Handle(0, Acked)];
            && Inv(s, 3) && InOrder(s) && Possible(s, steps, 3)
            && After(s, steps, 3).log == [b.Record(), a.Record()] && !FirstsInOrder(After(s, steps, 3).log)
  {
    var a, b := Sample(1, Pending), Sample(2, Processing);
    var s := State([a, b], [], map[]);
    UntouchedIsInOrder(s, 3);
    SampleEnds(s);
    OneMore(s, [Begin(0, 1), Begin(1, 1), Handle(1, Acked)], Handle(0, Acked), 3);
    LateLog(a, b);
  }
}
