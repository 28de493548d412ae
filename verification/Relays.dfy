/**
 Any number of relays over one outbox table and one broker log, as a small-step system.
 Each relay's batch is an open transaction; what it handed to the broker stays there
 whether the transaction commits or aborts.

 Over every run: live claims are disjoint, nothing committed is lost and the log invents
 nothing.
 */
module Relays {
  import opened Wrappers
  import opened Orders
  import opened Outbox

  type RelayId = nat

  /** An open batch: the rows it locked and the broker's answers so far. */
  datatype Txn = Txn(batch: seq<Row>, answers: seq<Answer>)

  datatype State = State(rows: seq<Row>, log: seq<Message>, txns: map<RelayId, Txn>)

  datatype Step =
    | Insert(at: nat, row: Row)
    | Begin(relay: RelayId, limit: nat)
    | Handle(relay: RelayId, answer: Answer)
    | Commit(relay: RelayId)
    | Abort(relay: RelayId)
    | Requeue

  function Ids(rows: seq<Row>): set<nat> {
    set i | 0 <= i < |rows| :: rows[i].id
  }

  function Locked(s: State): set<nat> {
    set r, id | r in s.txns && id in Ids(s.txns[r].batch) :: id
  }

  function Tally(t: Txn): Progress {
    if |t.answers| <= |t.batch| then Handled(t.batch, t.answers) else START
  }

  ghost predicate Enabled(s: State, step: Step) {
    match step
    case Insert(at, row) => Insertable(s.rows, at, row)
    case Begin(relay, limit) => relay !in s.txns && limit > 0
    case Handle(relay, _) => relay in s.txns && |s.txns[relay].answers| < |s.txns[relay].batch|
    case Commit(relay) => relay in s.txns && |s.txns[relay].answers| == |s.txns[relay].batch|
    case Abort(relay) => relay in s.txns
    case Requeue => true
  }

  function RequeuedRow(row: Row): Row {
    if row.status.OutboxFailed? then row.(status := OutboxPending, attempts := 0) else row
  }

  function Requeued(rows: seq<Row>): seq<Row> {
    seq(|rows|, i requires 0 <= i < |rows| => RequeuedRow(rows[i]))
  }

  /** What the next turn of a batch adds to the log. */
  function Delivery(t: Txn, answer: Answer): seq<Message>
    requires |t.answers| < |t.batch|
  {
    var row := t.batch[|t.answers|];
    if row.Aggregate() !in Tally(t).blocked && (answer.Acked? || answer.appended) then [row.Record()] else []
  }

  ghost function Exec(s: State, step: Step, maxAttempts: nat): State
    requires Enabled(s, step)
  {
    match step
    case Insert(at, row) => s.(rows := Inserted(s.rows, at, row))
    case Begin(relay, limit) => s.(txns := s.txns[relay := Txn(Claim(s.rows, Locked(s), limit), [])])
    case Handle(relay, answer) =>
      var t := s.txns[relay];
      s.(log := s.log + Delivery(t, answer), txns := s.txns[relay := Txn(t.batch, t.answers + [answer])])
    case Commit(relay) =>
      State(Settled(s.rows, Tally(s.txns[relay]), maxAttempts), s.log, s.txns - {relay})
    case Abort(relay) => s.(txns := s.txns - {relay})
    case Requeue => s.(rows := Requeued(s.rows))
  }

  ghost predicate Possible(s: State, steps: seq<Step>, maxAttempts: nat)
    decreases |steps|, 0
  {
    steps == []
    || (var n := |steps| - 1;
        Possible(s, steps[..n], maxAttempts) && Enabled(After(s, steps[..n], maxAttempts), steps[n]))
  }

  ghost function After(s: State, steps: seq<Step>, maxAttempts: nat): State
    requires Possible(s, steps, maxAttempts)
    decreases |steps|, 1
  {
    if steps == [] then s
    else
      var n := |steps| - 1;
      Exec(After(s, steps[..n], maxAttempts), steps[n], maxAttempts)
  }

  lemma OneMore(s: State, steps: seq<Step>, step: Step, maxAttempts: nat)
    requires Possible(s, steps, maxAttempts) && Enabled(After(s, steps, maxAttempts), step)
    ensures Possible(s, steps + [step], maxAttempts)
    ensures After(s, steps + [step], maxAttempts) == Exec(After(s, steps, maxAttempts), step, maxAttempts)
  {
    assert (steps + [step])[..|steps|] == steps;
  }

  // ----- the invariant -----

  /** Every open batch holds PENDING rows of the table, in id order. */
  ghost predicate ClaimsHeld(s: State) {
    forall r :: r in s.txns ==>
      var t := s.txns[r];
      && Sorted(t.batch) && |t.answers| <= |t.batch|
      && forall b :: b in t.batch ==> b in s.rows && b.status.OutboxPending?
  }

  /** No row is in two open batches. */
  ghost predicate Disjoint(s: State) {
    forall r, q :: r in s.txns && q in s.txns && r != q ==> Ids(s.txns[r].batch) !! Ids(s.txns[q].batch)
  }

  /** What an open batch sent is in the log. */
  ghost predicate SentInLog(s: State) {
    forall r, m :: r in s.txns && m in Tally(s.txns[r]).sent ==> m in s.log
  }

  ghost predicate ProcessedInLog(rows: seq<Row>, log: seq<Message>) {
    forall i :: 0 <= i < |rows| && rows[i].status.OutboxProcessed? ==> rows[i].Record() in log
  }

  ghost predicate FromTable(rows: seq<Row>, m: Message) {
    exists i :: 0 <= i < |rows| && rows[i].Record() == m
  }

  ghost predicate LogFromTable(rows: seq<Row>, log: seq<Message>) {
    forall k :: 0 <= k < |log| ==> FromTable(rows, log[k])
  }

  /** A retired row has spent its attempts. */
  ghost predicate RetiredSpent(rows: seq<Row>, maxAttempts: nat) {
    forall i :: 0 <= i < |rows| && rows[i].status.OutboxFailed? ==> 0 < maxAttempts <= rows[i].attempts
  }

  ghost predicate Inv(s: State, maxAttempts: nat) {
    && Sorted(s.rows)
    && ClaimsHeld(s)
    && Disjoint(s)
    && SentInLog(s)
    && ProcessedInLog(s.rows, s.log)
    && LogFromTable(s.rows, s.log)
    && RetiredSpent(s.rows, maxAttempts)
  }

  // ----- inserting -----

  lemma StillFromTable(rows: seq<Row>, rows': seq<Row>, log: seq<Message>)
    requires LogFromTable(rows, log)
    requires forall i :: 0 <= i < |rows| ==> FromTable(rows', rows[i].Record())
    ensures LogFromTable(rows', log)
  {
    forall k | 0 <= k < |log| ensures FromTable(rows', log[k]) {
      var i :| 0 <= i < |rows| && rows[i].Record() == log[k];
    }
  }

  lemma InsertFromTable(rows: seq<Row>, at: nat, row: Row, log: seq<Message>)
    requires at <= |rows| && LogFromTable(rows, log)
    ensures LogFromTable(Inserted(rows, at, row), log)
  {
    var rows' := Inserted(rows, at, row);
    forall i | 0 <= i < |rows| ensures FromTable(rows', rows[i].Record()) {
      var j := if i < at then i else i + 1;
      InsertedAt(rows, at, row, j);
      assert rows'[j].Record() == rows[i].Record();
    }
    StillFromTable(rows, rows', log);
  }

  lemma InsertKeeps(s: State, at: nat, row: Row, maxAttempts: nat)
    requires Inv(s, maxAttempts) && Enabled(s, Insert(at, row))
    ensures Inv(Exec(s, Insert(at, row), maxAttempts), maxAttempts)
  {
    var rows' := Inserted(s.rows, at, row);
    InsertedSorted(s.rows, at, row);
    InsertFromTable(s.rows, at, row, s.log);
    forall r | r in s.rows ensures r in rows' {
      InsertedMembers(s.rows, at, row, r);
    }
    forall j | 0 <= j < |rows'| ensures rows'[j] in s.rows || rows'[j] == row {
      InsertedMembers(s.rows, at, row, rows'[j]);
    }
  }

  // ----- claiming and handing over -----

  lemma BeginDisjoint(s: State, relay: RelayId, limit: nat)
    requires Sorted(s.rows) && Disjoint(s) && Enabled(s, Begin(relay, limit))
    ensures Disjoint(Exec(s, Begin(relay, limit), 0))
  {
    var s' := Exec(s, Begin(relay, limit), 0);
    ClaimMembers(s.rows, Locked(s), limit);
    forall r, q | r in s'.txns && q in s'.txns && r != q ensures Ids(s'.txns[r].batch) !! Ids(s'.txns[q].batch) {
      forall id | id in Ids(s'.txns[r].batch) ensures id !in Ids(s'.txns[q].batch) {
        if r == relay {
          assert id !in Locked(s);
        } else if q == relay {
          assert id in Locked(s);
        }
      }
    }
  }

  lemma BeginHeld(s: State, relay: RelayId, limit: nat)
    requires Sorted(s.rows) && ClaimsHeld(s) && SentInLog(s) && Enabled(s, Begin(relay, limit))
    ensures ClaimsHeld(Exec(s, Begin(relay, limit), 0)) && SentInLog(Exec(s, Begin(relay, limit), 0))
  {
    ClaimMembers(s.rows, Locked(s), limit);
  }

  lemma BeginKeeps(s: State, relay: RelayId, limit: nat, maxAttempts: nat)
    requires Inv(s, maxAttempts) && Enabled(s, Begin(relay, limit))
    ensures Inv(Exec(s, Begin(relay, limit), maxAttempts), maxAttempts)
  {
    BeginDisjoint(s, relay, limit);
    BeginHeld(s, relay, limit);
  }

  lemma TallyNext(t: Txn, answer: Answer)
    requires |t.answers| < |t.batch|
    ensures var t' := Txn(t.batch, t.answers + [answer]);
            && Tally(t') == Advance(Tally(t), t.batch[|t.answers|], answer)
            && Tally(t').sent == Tally(t).sent + Delivery(t, answer)
  {
    HandledNext(t.batch, t.answers, answer);
  }

  lemma HandleSent(s: State, relay: RelayId, answer: Answer)
    requires SentInLog(s) && Enabled(s, Handle(relay, answer))
    ensures SentInLog(Exec(s, Handle(relay, answer), 0))
  {
    TallyNext(s.txns[relay], answer);
  }

  lemma HandleFromTable(s: State, relay: RelayId, answer: Answer)
    requires ClaimsHeld(s) && LogFromTable(s.rows, s.log) && Enabled(s, Handle(relay, answer))
    ensures LogFromTable(s.rows, Exec(s, Handle(relay, answer), 0).log)
  {
    var t := s.txns[relay];
    var row := t.batch[|t.answers|];
    assert row in t.batch;
    var i :| 0 <= i < |s.rows| && s.rows[i] == row;
    assert FromTable(s.rows, row.Record());
  }

  lemma HandleHeld(s: State, relay: RelayId, answer: Answer)
    requires ClaimsHeld(s) && Disjoint(s) && Enabled(s, Handle(relay, answer))
    ensures ClaimsHeld(Exec(s, Handle(relay, answer), 0)) && Disjoint(Exec(s, Handle(relay, answer), 0))
  {
  }

  lemma HandleKeeps(s: State, relay: RelayId, answer: Answer, maxAttempts: nat)
    requires Inv(s, maxAttempts) && Enabled(s, Handle(relay, answer))
    ensures Inv(Exec(s, Handle(relay, answer), maxAttempts), maxAttempts)
  {
    HandleHeld(s, relay, answer);
    HandleSent(s, relay, answer);
    HandleFromTable(s, relay, answer);
    var s' := Exec(s, Handle(relay, answer), maxAttempts);
    assert s' == Exec(s, Handle(relay, answer), 0);
    assert ProcessedInLog(s'.rows, s'.log) by {
      assert forall m :: m in s.log ==> m in s'.log;
    }
  }

  // ----- committing -----

  /** A commit writes to the rows of its own batch only. */
  lemma SettledElsewhere(t: Txn, row: Row, maxAttempts: nat)
    requires |t.answers| <= |t.batch|
    requires forall b :: b in t.batch ==> b.id != row.id
    ensures SettledRow(row, Tally(t), maxAttempts) == row
  {
    HandledAccounted(t.batch, t.answers);
  }

  /** A row that a batch handled was claimed, so it was PENDING. */
  lemma HandledWasClaimed(s: State, relay: RelayId, row: Row)
    requires Sorted(s.rows) && ClaimsHeld(s) && relay in s.txns && row in s.rows
    requires row.id in Tally(s.txns[relay]).published || row.id in Tally(s.txns[relay]).refused
    ensures row in s.txns[relay].batch && row.status.OutboxPending?
  {
    var t := s.txns[relay];
    HandledAccounted(t.batch, t.answers);
    var i :| 0 <= i < |t.answers| && t.batch[i].id == row.id;
    assert t.batch[i] in t.batch;
    SameRow(s.rows, row, t.batch[i]);
  }

  lemma PublishedWasSent(t: Txn, row: Row)
    requires Sorted(t.batch) && |t.answers| <= |t.batch| && row in t.batch
    requires row.id in Tally(t).published
    ensures row.Record() in Tally(t).sent
  {
    HandledTallied(t.batch, t.answers);
    var i :| 0 <= i < |t.batch| && t.batch[i] == row;
  }

  /** A row that a commit changes was PENDING; if it is PROCESSED now, its record is in the log. */
  lemma SettledWell(s: State, relay: RelayId, row: Row, maxAttempts: nat)
    requires Inv(s, maxAttempts) && relay in s.txns && row in s.rows
    ensures var row' := SettledRow(row, Tally(s.txns[relay]), maxAttempts);
            && (row' != row ==> row.status.OutboxPending?)
            && (row'.status.OutboxProcessed? ==> row'.Record() in s.log)
            && (row'.status.OutboxFailed? ==> 0 < maxAttempts <= row'.attempts)
  {
    var t := s.txns[relay];
    if row.id in Tally(t).published || row.id in Tally(t).refused {
      HandledWasClaimed(s, relay, row);
      if row.id in Tally(t).published {
        PublishedWasSent(t, row);
      }
    }
  }

  lemma CommitHeld(s: State, relay: RelayId, maxAttempts: nat)
    requires ClaimsHeld(s) && Disjoint(s) && Enabled(s, Commit(relay))
    ensures ClaimsHeld(Exec(s, Commit(relay), maxAttempts))
  {
    var s' := Exec(s, Commit(relay), maxAttempts);
    var t := s.txns[relay];
    forall r, b | r in s'.txns && b in s'.txns[r].batch ensures b in s'.rows {
      assert b in s.rows && b.id in Ids(s.txns[r].batch);
      assert b.id !in Ids(t.batch);
      SettledElsewhere(t, b, maxAttempts);
      SettledMember(s.rows, Tally(t), maxAttempts, b);
    }
  }

  lemma SettledFromTable(rows: seq<Row>, p: Progress, log: seq<Message>, maxAttempts: nat)
    requires LogFromTable(rows, log)
    ensures LogFromTable(Settled(rows, p, maxAttempts), log)
  {
    var rows' := Settled(rows, p, maxAttempts);
    forall i | 0 <= i < |rows| ensures FromTable(rows', rows[i].Record()) {
      assert rows'[i].Record() == rows[i].Record();
    }
    StillFromTable(rows, rows', log);
  }

  lemma CommitKeeps(s: State, relay: RelayId, maxAttempts: nat)
    requires Inv(s, maxAttempts) && Enabled(s, Commit(relay))
    ensures Inv(Exec(s, Commit(relay), maxAttempts), maxAttempts)
  {
    var p := Tally(s.txns[relay]);
    SettledSorted(s.rows, p, maxAttempts);
    CommitHeld(s, relay, maxAttempts);
    SettledFromTable(s.rows, p, s.log, maxAttempts);
    forall i | 0 <= i < |s.rows|
      ensures var row' := SettledRow(s.rows[i], p, maxAttempts);
              && (row'.status.OutboxProcessed? ==> row'.Record() in s.log)
              && (row'.status.OutboxFailed? ==> 0 < maxAttempts <= row'.attempts)
    {
      SettledWell(s, relay, s.rows[i], maxAttempts);
    }
  }

  // ----- requeueing, and every step -----

  lemma RequeueKeeps(s: State, maxAttempts: nat)
    requires Inv(s, maxAttempts)
    ensures Inv(Exec(s, Requeue, maxAttempts), maxAttempts)
  {
    var s' := Exec(s, Requeue, maxAttempts);
    assert ClaimsHeld(s') by {
      forall r, b | r in s.txns && b in s.txns[r].batch ensures b in s'.rows {
        var i :| 0 <= i < |s.rows| && s.rows[i] == b;
        assert s'.rows[i] == b;
      }
    }
    forall i | 0 <= i < |s.rows| ensures FromTable(s'.rows, s.rows[i].Record()) {
      assert s'.rows[i].Record() == s.rows[i].Record();
    }
    StillFromTable(s.rows, s'.rows, s.log);
  }

  lemma StepKeeps(s: State, step: Step, maxAttempts: nat)
    requires Inv(s, maxAttempts) && Enabled(s, step)
    ensures Inv(Exec(s, step, maxAttempts), maxAttempts)
  {
    match step
    case Insert(at, row) => InsertKeeps(s, at, row, maxAttempts);
    case Begin(relay, limit) => BeginKeeps(s, relay, limit, maxAttempts);
    case Handle(relay, answer) => HandleKeeps(s, relay, answer, maxAttempts);
    case Commit(relay) => CommitKeeps(s, relay, maxAttempts);
    case Abort(relay) =>
    case Requeue => RequeueKeeps(s, maxAttempts);
  }

  lemma {:induction false} RunKeeps(s: State, steps: seq<Step>, maxAttempts: nat)
    requires Inv(s, maxAttempts) && Possible(s, steps, maxAttempts)
    ensures Inv(After(s, steps, maxAttempts), maxAttempts)
  {
    if steps == [] {
    } else {
      var n := |steps| - 1;
      RunKeeps(s, steps[..n], maxAttempts);
      StepKeeps(After(s, steps[..n], maxAttempts), steps[n], maxAttempts);
    }
  }

  lemma StepPersists(s: State, step: Step, maxAttempts: nat, m: Message)
    requires Enabled(s, step) && FromTable(s.rows, m)
    ensures FromTable(Exec(s, step, maxAttempts).rows, m)
  {
    var i :| 0 <= i < |s.rows| && s.rows[i].Record() == m;
    var rows' := Exec(s, step, maxAttempts).rows;
    var j := if step.Insert? && i >= step.at then i + 1 else i;
    if step.Insert? {
      InsertedAt(s.rows, step.at, step.row, j);
    }
    assert rows'[j].Record() == m;
  }

  lemma {:induction false} RunPersists(s: State, steps: seq<Step>, maxAttempts: nat, m: Message)
    requires Possible(s, steps, maxAttempts) && FromTable(s.rows, m)
    ensures FromTable(After(s, steps, maxAttempts).rows, m)
  {
    if steps == [] {
    } else {
      var n := |steps| - 1;
      RunPersists(s, steps[..n], maxAttempts, m);
      StepPersists(After(s, steps[..n], maxAttempts), steps[n], maxAttempts, m);
    }
  }

  /**
   No event is lost, whatever the relays, the broker and the transactions do: a committed
   row is in the table for good with its payload unchanged, and wherever the table calls a
   row PROCESSED that very payload is in the log.
   */
  lemma NothingIsLost(s: State, steps: seq<Step>, maxAttempts: nat, row: Row)
    requires Inv(s, maxAttempts) && Possible(s, steps, maxAttempts)
    requires row in s.rows
    ensures var s' := After(s, steps, maxAttempts);
            exists row' :: row' in s'.rows && row'.Record() == row.Record()
                           && (row'.status.OutboxProcessed? ==> row.Record() in s'.log)
                           && (row'.status.OutboxFailed? ==> 0 < maxAttempts <= row'.attempts)
  {
    var s' := After(s, steps, maxAttempts);
    var i :| 0 <= i < |s.rows| && s.rows[i] == row;
    assert FromTable(s.rows, row.Record());
    RunPersists(s, steps, maxAttempts, row.Record());
    RunKeeps(s, steps, maxAttempts);
    var j :| 0 <= j < |s'.rows| && s'.rows[j].Record() == row.Record();
    assert s'.rows[j] in s'.rows;
  }

  /** The log invents nothing: every message is a committed row's payload under that row's id. */
  lemma NothingIsInvented(s: State, steps: seq<Step>, maxAttempts: nat, m: Message)
    requires Inv(s, maxAttempts) && Possible(s, steps, maxAttempts)
    requires m in After(s, steps, maxAttempts).log
    ensures exists row :: row in After(s, steps, maxAttempts).rows && row.Record() == m
  {
    var s' := After(s, steps, maxAttempts);
    RunKeeps(s, steps, maxAttempts);
    var k :| 0 <= k < |s'.log| && s'.log[k] == m;
    var i :| 0 <= i < |s'.rows| && s'.rows[i].Record() == m;
    assert s'.rows[i] in s'.rows;
  }
}
