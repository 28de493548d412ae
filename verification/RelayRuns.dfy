/**
 Runs of the relay system: how they are put together, that a batch is one, what they spend
 of the attempt budget, and that from any state all that is PENDING can still be delivered.
 */
module RelayRuns {
  import opened Wrappers
  import opened Orders
  import opened Outbox
  import opened Relays

  ghost predicate RunsTo(s: State, steps: seq<Step>, s': State, maxAttempts: nat) {
    Possible(s, steps, maxAttempts) && After(s, steps, maxAttempts) == s'
  }

  lemma OneMoreTo(s: State, steps: seq<Step>, s': State, step: Step, maxAttempts: nat)
    requires RunsTo(s, steps, s', maxAttempts) && Enabled(s', step)
    ensures RunsTo(s, steps + [step], Exec(s', step, maxAttempts), maxAttempts)
  {
    OneMore(s, steps, step, maxAttempts);
  }

  lemma {:induction false} RunsConcat(s: State, xs: seq<Step>, s': State, ys: seq<Step>, s'': State, maxAttempts: nat)
    requires RunsTo(s, xs, s', maxAttempts) && RunsTo(s', ys, s'', maxAttempts)
    ensures RunsTo(s, xs + ys, s'', maxAttempts)
  {
    if ys == [] {
      assert xs + ys == xs;
    } else {
      var n := |ys| - 1;
      var mid := After(s', ys[..n], maxAttempts);
      RunsConcat(s, xs, s', ys[..n], mid, maxAttempts);
      OneMoreTo(s, xs + ys[..n], mid, ys[n], maxAttempts);
      AppendLast(xs, ys);
    }
  }

  lemma OneStep(s: State, x: Step, s1: State, maxAttempts: nat)
    requires Enabled(s, x) && Exec(s, x, maxAttempts) == s1
    ensures RunsTo(s, [x], s1, maxAttempts)
  {
    OneMoreTo(s, [], s, x, maxAttempts);
    assert [] + [x] == [x];
  }

  lemma TwoSteps(s: State, x: Step, s1: State, y: Step, s2: State, maxAttempts: nat)
    requires Enabled(s, x) && Exec(s, x, maxAttempts) == s1
    requires Enabled(s1, y) && Exec(s1, y, maxAttempts) == s2
    ensures RunsTo(s, [x, y], s2, maxAttempts)
  {
    OneStep(s, x, s1, maxAttempts);
    OneMoreTo(s, [x], s1, y, maxAttempts);
    assert [x] + [y] == [x, y];
  }

  /** Three steps in a row, through the states between them. */
  lemma ThreeSteps(s: State, x: Step, s1: State, y: Step, s2: State, z: Step, s3: State, maxAttempts: nat)
    requires Enabled(s, x) && Exec(s, x, maxAttempts) == s1
    requires Enabled(s1, y) && Exec(s1, y, maxAttempts) == s2
    requires Enabled(s2, z) && Exec(s2, z, maxAttempts) == s3
    ensures RunsTo(s, [x, y, z], s3, maxAttempts)
  {
    TwoSteps(s, x, s1, y, s2, maxAttempts);
    OneMoreTo(s, [x, y], s2, z, maxAttempts);
    assert [x, y] + [z] == [x, y, z];
  }

  // ----- the batch as small steps -----

  function HandleSteps(relay: RelayId, answers: seq<Answer>): seq<Step> {
    if answers == [] then []
    else HandleSteps(relay, answers[..|answers| - 1]) + [Handle(relay, answers[|answers| - 1])]
  }

  /** Claim, one turn per answer, and the transaction's end. */
  function BatchSteps(relay: RelayId, limit: nat, answers: seq<Answer>, committed: bool): seq<Step> {
    [Begin(relay, limit)] + HandleSteps(relay, answers)
    + [if committed then Commit(relay) else Abort(relay)]
  }

  /** A batch under way in a system that otherwise stands still. */
  ghost function UnderWay(s: State, relay: RelayId, limit: nat, answers: seq<Answer>): State
    requires |answers| <= |Claim(s.rows, Locked(s), limit)|
  {
    var batch := Claim(s.rows, Locked(s), limit);
    State(s.rows, s.log + Handled(batch, answers).sent, s.txns[relay := Txn(batch, answers)])
  }

  lemma TurnIsAStep(s: State, relay: RelayId, limit: nat, answers: seq<Answer>, answer: Answer, maxAttempts: nat)
    requires |answers| < |Claim(s.rows, Locked(s), limit)|
    ensures var handle := Handle(relay, answer);
            && Enabled(UnderWay(s, relay, limit, answers), handle)
            && Exec(UnderWay(s, relay, limit, answers), handle, maxAttempts)
               == UnderWay(s, relay, limit, answers + [answer])
  {
    var t := Txn(Claim(s.rows, Locked(s), limit), answers);
    TallyNext(t, answer);
    assert s.log + (Tally(t).sent + Delivery(t, answer))
        == s.log + Tally(t).sent + Delivery(t, answer);
  }

  lemma BeginIsAStep(s: State, relay: RelayId, limit: nat, maxAttempts: nat)
    requires Enabled(s, Begin(relay, limit))
    ensures var steps := [Begin(relay, limit)];
            && Possible(s, steps, maxAttempts)
            && After(s, steps, maxAttempts) == UnderWay(s, relay, limit, [])
  {
    OneMore(s, [], Begin(relay, limit), maxAttempts);
    assert [] + [Begin(relay, limit)] == [Begin(relay, limit)];
    assert s.log + [] == s.log;
  }

  lemma StepsSplit(relay: RelayId, limit: nat, answers: seq<Answer>)
    requires answers != []
    ensures var front, last := answers[..|answers| - 1], answers[|answers| - 1];
            && [Begin(relay, limit)] + HandleSteps(relay, answers)
               == ([Begin(relay, limit)] + HandleSteps(relay, front)) + [Handle(relay, last)]
            && front + [last] == answers
  {
  }

  lemma {:induction false} TurnsAreSteps(s: State, relay: RelayId, limit: nat, answers: seq<Answer>, maxAttempts: nat)
    requires Enabled(s, Begin(relay, limit))
    requires |answers| <= |Claim(s.rows, Locked(s), limit)|
    ensures var steps := [Begin(relay, limit)] + HandleSteps(relay, answers);
            && Possible(s, steps, maxAttempts)
            && After(s, steps, maxAttempts) == UnderWay(s, relay, limit, answers)
  {
    if answers == [] {
      BeginIsAStep(s, relay, limit, maxAttempts);
      assert [Begin(relay, limit)] + HandleSteps(relay, answers) == [Begin(relay, limit)];
    } else {
      var front, last := answers[..|answers| - 1], answers[|answers| - 1];
      StepsSplit(relay, limit, answers);
      TurnsAreSteps(s, relay, limit, front, maxAttempts);
      TurnIsAStep(s, relay, limit, front, last, maxAttempts);
      OneMore(s, [Begin(relay, limit)] + HandleSteps(relay, front), Handle(relay, last), maxAttempts);
    }
  }

  /** What PublishBatch does to the table and the log is what this run of the relay system does to them. */
  lemma BatchIsARun(s: State, relay: RelayId, limit: nat, answers: seq<Answer>, committed: bool, maxAttempts: nat)
    requires Enabled(s, Begin(relay, limit))
    requires |answers| <= |Claim(s.rows, Locked(s), limit)|
    requires committed ==> |answers| == |Claim(s.rows, Locked(s), limit)|
    ensures var p := Handled(Claim(s.rows, Locked(s), limit), answers);
            var steps := BatchSteps(relay, limit, answers, committed);
            && Possible(s, steps, maxAttempts)
            && After(s, steps, maxAttempts)
               == State(if committed then Settled(s.rows, p, maxAttempts) else s.rows, s.log + p.sent, s.txns)
  {
    var steps := [Begin(relay, limit)] + HandleSteps(relay, answers);
    TurnsAreSteps(s, relay, limit, answers, maxAttempts);
    var batch := Claim(s.rows, Locked(s), limit);
    OneMore(s, steps, if committed then Commit(relay) else Abort(relay), maxAttempts);
    assert s.txns[relay := Txn(batch, answers)] - {relay} == s.txns;
  }

  // ----- what commits spend -----

  lemma HeadWasHandled(t: Txn)
    requires Sorted(t.batch) && t.batch != [] && |t.answers| == |t.batch|
    ensures t.batch[0].id in Tally(t).published || t.batch[0].id in Tally(t).refused
  {
    HandledTallied(t.batch, t.answers);
  }

  /** A commit never raises what a row can still cost, and lowers it for a row it handled. */
  lemma CommitCost(s: State, relay: RelayId, row: Row, maxAttempts: nat)
    requires Sorted(s.rows) && ClaimsHeld(s) && relay in s.txns && row in s.rows && maxAttempts > 0
    ensures var p := Tally(s.txns[relay]);
            && Cost(SettledRow(row, p, maxAttempts), maxAttempts) <= Cost(row, maxAttempts)
            && (row.id in p.published || row.id in p.refused
                ==> Cost(SettledRow(row, p, maxAttempts), maxAttempts) < Cost(row, maxAttempts))
  {
    var p := Tally(s.txns[relay]);
    if row.id in p.published || row.id in p.refused {
      HandledWasClaimed(s, relay, row);
    }
    SettledCost(row, p, maxAttempts);
  }

  /** Beside any number of other relays, a commit that claimed something spends some of the budget. */
  lemma CommitSpends(s: State, relay: RelayId, maxAttempts: nat)
    requires Sorted(s.rows) && ClaimsHeld(s) && Enabled(s, Commit(relay)) && maxAttempts > 0
    ensures Budget(Exec(s, Commit(relay), maxAttempts).rows, maxAttempts) <= Budget(s.rows, maxAttempts)
    ensures s.txns[relay].batch != []
            ==> Budget(Exec(s, Commit(relay), maxAttempts).rows, maxAttempts) < Budget(s.rows, maxAttempts)
  {
    var t := s.txns[relay];
    var rows' := Settled(s.rows, Tally(t), maxAttempts);
    forall i | 0 <= i < |s.rows|
      ensures Cost(rows'[i], maxAttempts) <= Cost(s.rows[i], maxAttempts)
      ensures s.rows[i].id in Tally(t).published || s.rows[i].id in Tally(t).refused
              ==> Cost(rows'[i], maxAttempts) < Cost(s.rows[i], maxAttempts)
    {
      CommitCost(s, relay, s.rows[i], maxAttempts);
    }
    BudgetMonotone(s.rows, rows', maxAttempts);
    if t.batch != [] {
      HeadWasHandled(t);
      assert t.batch[0] in t.batch;
      var k :| 0 <= k < |s.rows| && s.rows[k] == t.batch[0];
      BudgetDrops(s.rows, rows', k, maxAttempts);
    }
  }

  /** How many commits of a run had claimed something. */
  ghost function Spending(s: State, steps: seq<Step>, maxAttempts: nat): nat
    requires Possible(s, steps, maxAttempts)
  {
    if steps == [] then 0
    else
      var n := |steps| - 1;
      Spending(s, steps[..n], maxAttempts)
      + (if steps[n].Commit? && After(s, steps[..n], maxAttempts).txns[steps[n].relay].batch != [] then 1 else 0)
  }

  /** A step that adds no row to the backlog. */
  predicate NoSupply(step: Step) {
    !step.Insert? && !step.Requeue?
  }

  predicate Supplied(steps: seq<Step>) {
    exists i :: 0 <= i < |steps| && !NoSupply(steps[i])
  }

  /**
   However many relays there are, whatever they claim beside each other, whatever the broker
   answers and whoever rolls back: without inserts and requeues the commits that had claimed
   something are at most as many as the attempts left at the start, and once they are that
   many no row is PENDING.
   */
  lemma {:induction false} CommitsAreBounded(s: State, steps: seq<Step>, maxAttempts: nat)
    requires Inv(s, maxAttempts) && maxAttempts > 0 && Possible(s, steps, maxAttempts)
    requires !Supplied(steps)
    ensures Spending(s, steps, maxAttempts) + Budget(After(s, steps, maxAttempts).rows, maxAttempts)
        <= Budget(s.rows, maxAttempts)
    ensures Spending(s, steps, maxAttempts) >= Budget(s.rows, maxAttempts)
            ==> forall r :: r in After(s, steps, maxAttempts).rows ==> !r.status.OutboxPending?
  {
    if steps == [] {
    } else {
      var n := |steps| - 1;
      var before := After(s, steps[..n], maxAttempts);
      assert NoSupply(steps[n]) && !Supplied(steps[..n]) by {
        forall i | 0 <= i < |steps| ensures NoSupply(steps[i]) {
        }
      }
      CommitsAreBounded(s, steps[..n], maxAttempts);
      RunKeeps(s, steps[..n], maxAttempts);
      if steps[n].Commit? {
        CommitSpends(before, steps[n].relay, maxAttempts);
      }
    }
    BudgetZero(After(s, steps, maxAttempts).rows, maxAttempts);
  }

  // ----- runs of a lone relay -----

  /** A step that claims only while no batch is open and does not requeue. */
  ghost predicate Lone(s: State, step: Step) {
    !step.Requeue? && (step.Begin? ==> s.txns == map[])
  }

  ghost predicate LoneRun(s: State, steps: seq<Step>, maxAttempts: nat)
    requires Possible(s, steps, maxAttempts)
  {
    steps == []
    || (var n := |steps| - 1;
        LoneRun(s, steps[..n], maxAttempts) && Lone(After(s, steps[..n], maxAttempts), steps[n]))
  }

  /** A run that claims at its first step at most is a lone one, if that step is. */
  lemma {:induction false} OneClaim(s: State, steps: seq<Step>, maxAttempts: nat)
    requires Possible(s, steps, maxAttempts) && (steps != [] ==> Lone(s, steps[0]))
    requires forall i :: 1 <= i < |steps| ==> !steps[i].Begin? && !steps[i].Requeue?
    ensures LoneRun(s, steps, maxAttempts)
  {
    if steps == [] {
    } else {
      var n := |steps| - 1;
      OneClaim(s, steps[..n], maxAttempts);
      assert n == 0 ==> steps[..n] == [];
    }
  }

  ghost predicate LoneTo(s: State, steps: seq<Step>, s': State, maxAttempts: nat) {
    Possible(s, steps, maxAttempts) && LoneRun(s, steps, maxAttempts) && After(s, steps, maxAttempts) == s'
  }

  lemma OneMoreLone(s: State, steps: seq<Step>, s': State, step: Step, maxAttempts: nat)
    requires LoneTo(s, steps, s', maxAttempts) && Enabled(s', step) && Lone(s', step)
    ensures LoneTo(s, steps + [step], Exec(s', step, maxAttempts), maxAttempts)
  {
    OneMore(s, steps, step, maxAttempts);
    assert (steps + [step])[..|steps|] == steps;
  }

  lemma {:induction false} LoneConcat(s: State, xs: seq<Step>, s': State, ys: seq<Step>, s'': State, maxAttempts: nat)
    requires LoneTo(s, xs, s', maxAttempts) && LoneTo(s', ys, s'', maxAttempts)
    ensures LoneTo(s, xs + ys, s'', maxAttempts)
  {
    if ys == [] {
      assert xs + ys == xs;
    } else {
      var n := |ys| - 1;
      var mid := After(s', ys[..n], maxAttempts);
      LoneConcat(s, xs, s', ys[..n], mid, maxAttempts);
      OneMoreLone(s, xs + ys[..n], mid, ys[n], maxAttempts);
      AppendLast(xs, ys);
    }
  }

  // ----- what can still be delivered -----

  /** Every claim is of the one size the relay is configured with. */
  predicate Sized(steps: seq<Step>, limit: nat) {
    forall i :: 0 <= i < |steps| && steps[i].Begin? ==> steps[i].limit == limit
  }

  /** Nothing is inserted or requeued, and every claim is of the one size the relay is configured with. */
  predicate Tidy(steps: seq<Step>, limit: nat) {
    forall i :: 0 <= i < |steps| ==> NoSupply(steps[i]) && (steps[i].Begin? ==> steps[i].limit == limit)
  }

  /** Every open batch can roll back. */
  lemma {:induction false} AbortAll(s: State, limit: nat, maxAttempts: nat) returns (steps: seq<Step>)
    ensures Tidy(steps, limit)
    ensures LoneTo(s, steps, s.(txns := map[]), maxAttempts)
    decreases |s.txns|
  {
    steps := [];
    if s.txns != map[] {
      var relay :| relay in s.txns;
      OneMoreLone(s, [], s, Abort(relay), maxAttempts);
      var rest := AbortAll(s.(txns := s.txns - {relay}), limit, maxAttempts);
      LoneConcat(s, [] + [Abort(relay)], s.(txns := s.txns - {relay}), rest, s.(txns := map[]), maxAttempts);
      steps := [] + [Abort(relay)] + rest;
    } else {
      assert s == s.(txns := map[]);
    }
  }

  /** The log holds every row the batch has from the given turn on, but for the blocked orders. */
  ghost predicate HandedFrom(t: Txn, turn: nat, log: seq<Message>) {
    forall j :: turn <= j < |t.batch| && t.batch[j].Aggregate() !in Tally(t).blocked ==> t.batch[j].Record() in log
  }

  /** What the log has gained are records of the batch. */
  ghost predicate GainedFrom(batch: seq<Row>, log: seq<Message>, log': seq<Message>) {
    log <= log' && forall m :: m in log' ==> m in log || exists b :: b in batch && b.Record() == m
  }

  /** A turn the broker acknowledges. */
  lemma AckTurn(s: State, relay: RelayId, maxAttempts: nat)
    requires relay in s.txns && |s.txns[relay].answers| < |s.txns[relay].batch|
    ensures var t := s.txns[relay];
            var s' := Exec(s, Handle(relay, Acked), maxAttempts);
            && Tally(s'.txns[relay]).blocked == Tally(t).blocked
            && Tally(s'.txns[relay]).refused == Tally(t).refused
            && GainedFrom(t.batch, s.log, s'.log)
            && (t.batch[|t.answers|].Aggregate() !in Tally(t).blocked ==> t.batch[|t.answers|].Record() in s'.log)
  {
    var t := s.txns[relay];
    var row := t.batch[|t.answers|];
    assert row in t.batch;
    TallyNext(t, Acked);
  }

  lemma HandedOneEarlier(t: Txn, t': Txn, log: seq<Message>, log': seq<Message>)
    requires |t.answers| < |t.batch| && t'.batch == t.batch && Tally(t').blocked == Tally(t).blocked
    requires log <= log' && HandedFrom(t', |t.answers| + 1, log')
    requires t.batch[|t.answers|].Aggregate() !in Tally(t).blocked ==> t.batch[|t.answers|].Record() in log
    ensures HandedFrom(t, |t.answers|, log')
  {
  }

  /** The same system with one batch at its end, and nothing more refused in it. */
  ghost predicate HandedOver(s: State, relay: RelayId, s': State)
    requires relay in s.txns
  {
    && s'.rows == s.rows && relay in s'.txns && s'.txns - {relay} == s.txns - {relay}
    && s'.txns[relay].batch == s.txns[relay].batch && |s'.txns[relay].answers| == |s'.txns[relay].batch|
    && Tally(s'.txns[relay]).refused == Tally(s.txns[relay]).refused
  }

  /** An open batch can hand over all it has left, and the broker can acknowledge it all. */
  lemma {:induction false} AckTheRest(s: State, relay: RelayId, limit: nat, maxAttempts: nat)
    returns (steps: seq<Step>, s': State)
    requires relay in s.txns && |s.txns[relay].answers| <= |s.txns[relay].batch|
    ensures HandedOver(s, relay, s') && GainedFrom(s.txns[relay].batch, s.log, s'.log)
    ensures HandedFrom(s.txns[relay], |s.txns[relay].answers|, s'.log)
    ensures Tidy(steps, limit)
    ensures LoneTo(s, steps, s', maxAttempts)
    decreases |s.txns[relay].batch| - |s.txns[relay].answers|
  {
    var t := s.txns[relay];
    if |t.answers| == |t.batch| {
      steps, s' := [], s;
    } else {
      var s1 := Exec(s, Handle(relay, Acked), maxAttempts);
      AckTurn(s, relay, maxAttempts);
      OneMoreLone(s, [], s, Handle(relay, Acked), maxAttempts);
      assert s1.txns - {relay} == s.txns - {relay};
      var rest;
      rest, s' := AckTheRest(s1, relay, limit, maxAttempts);
      HandedOneEarlier(t, s1.txns[relay], s1.log, s'.log);
      steps := [] + [Handle(relay, Acked)] + rest;
      LoneConcat(s, [] + [Handle(relay, Acked)], s1, rest, s', maxAttempts);
    }
  }

  /** The table has kept its rows' payloads. */
  ghost predicate SamePayloads(rows: seq<Row>, rows': seq<Row>) {
    |rows'| == |rows| && forall i :: 0 <= i < |rows| ==> rows'[i].Record() == rows[i].Record()
  }

  /** What a batch without refusals has left: the claimed rows are on the log, the others PENDING as they were. */
  ghost predicate Progressed(s: State, s': State) {
    && Sorted(s'.rows) && SamePayloads(s.rows, s'.rows) && s.log <= s'.log && s'.txns == map[]
    && forall r :: r in s.rows && r.status.OutboxPending? ==> r.Record() in s'.log || r in s'.rows
  }

  /** A lone batch on its way. */
  function Claimed(s: State, limit: nat): State {
    s.(txns := map[0 := Txn(Claim(s.rows, {}, limit), [])])
  }

  /** A lone batch can be claimed, and the broker can acknowledge it all. */
  lemma BatchHandedOver(s: State, limit: nat, maxAttempts: nat) returns (steps: seq<Step>, s': State)
    requires s.txns == map[] && limit > 0
    ensures HandedOver(Claimed(s, limit), 0, s') && s.log <= s'.log
    ensures HandedFrom(Txn(Claim(s.rows, {}, limit), []), 0, s'.log)
    ensures Tidy(steps, limit)
    ensures LoneTo(s, steps, s', maxAttempts)
  {
    assert Locked(s) == {};
    assert Exec(s, Begin(0, limit), maxAttempts) == Claimed(s, limit);
    OneMoreLone(s, [], s, Begin(0, limit), maxAttempts);
    var rest;
    rest, s' := AckTheRest(Claimed(s, limit), 0, limit, maxAttempts);
    steps := [] + [Begin(0, limit)] + rest;
    LoneConcat(s, [] + [Begin(0, limit)], Claimed(s, limit), rest, s', maxAttempts);
  }

  /** A lone batch that the broker acknowledges can be claimed, handed over and committed. */
  lemma OneBatch(s: State, limit: nat, maxAttempts: nat) returns (steps: seq<Step>, s': State)
    requires Sorted(s.rows) && s.txns == map[] && limit > 0
    ensures Progressed(s, s') && Tidy(steps, limit)
    ensures Claim(s.rows, {}, limit) != [] ==> Budget(s'.rows, 1) < Budget(s.rows, 1)
    ensures LoneTo(s, steps, s', maxAttempts)
  {
    var handed, s2 := BatchHandedOver(s, limit, maxAttempts);
    AckedCommit(s, limit, s2, maxAttempts);
    s' := Exec(s2, Commit(0), maxAttempts);
    steps := handed + [Commit(0)];
    OneMoreLone(s, handed, s2, Commit(0), maxAttempts);
  }

  /** The commit of an acknowledged lone batch. */
  lemma AckedCommit(s: State, limit: nat, s2: State, maxAttempts: nat)
    requires Sorted(s.rows) && s.txns == map[] && limit > 0
    requires HandedOver(Claimed(s, limit), 0, s2) && s.log <= s2.log
    requires HandedFrom(Txn(Claim(s.rows, {}, limit), []), 0, s2.log)
    ensures Enabled(s2, Commit(0))
    ensures var s' := Exec(s2, Commit(0), maxAttempts);
            && Progressed(s, s')
            && (Claim(s.rows, {}, limit) != [] ==> Budget(s'.rows, 1) < Budget(s.rows, 1))
  {
    var batch := Claim(s.rows, {}, limit);
    var s' := Exec(s2, Commit(0), maxAttempts);
    ClaimMembers(s.rows, {}, limit);
    assert s2.txns[0].batch == batch;
    SettledSorted(s.rows, Tally(s2.txns[0]), maxAttempts);
    NothingRefused(s.rows, Tally(s2.txns[0]), maxAttempts);
    if batch != [] {
      BatchSpends(s.rows, {}, limit, 1, s2.txns[0].answers);
    }
    forall r | r in s.rows && r.status.OutboxPending? ensures r.Record() in s'.log || r in s'.rows {
      ClaimedOrLeft(s.rows, s2.txns[0], r, s2.log, maxAttempts);
    }
    assert s2.txns - {0} == map[];
  }

  /** Where nothing was refused the attempt limit does not matter. */
  lemma NothingRefused(rows: seq<Row>, p: Progress, maxAttempts: nat)
    requires p.refused == []
    ensures Settled(rows, p, maxAttempts) == Settled(rows, p, 1)
  {
  }

  lemma ClaimedOrLeft(rows: seq<Row>, t: Txn, r: Row, log: seq<Message>, maxAttempts: nat)
    requires Sorted(rows) && r in rows && |t.answers| == |t.batch| && (forall b :: b in t.batch ==> b in rows)
    requires HandedFrom(Txn(t.batch, []), 0, log)
    ensures r.Record() in log || r in Settled(rows, Tally(t), maxAttempts)
  {
    if r in t.batch {
      var j :| 0 <= j < |t.batch| && t.batch[j] == r;
      assert t.batch[j].Record() in log;
    } else {
      forall b | b in t.batch ensures b.id != r.id {
        if b.id == r.id {
          SameRow(rows, b, r);
        }
      }
      SettledElsewhere(t, r, maxAttempts);
      SettledMember(rows, Tally(t), maxAttempts, r);
    }
  }

  /** Batch after batch of the configured size a lone relay can deliver every row that is PENDING. */
  lemma {:induction false} BatchesDeliver(s: State, limit: nat, maxAttempts: nat) returns (steps: seq<Step>, s': State)
    requires Sorted(s.rows) && s.txns == map[] && limit > 0
    ensures SamePayloads(s.rows, s'.rows) && s.log <= s'.log
    ensures forall r :: r in s.rows && r.status.OutboxPending? ==> r.Record() in s'.log
    ensures Tidy(steps, limit)
    ensures LoneTo(s, steps, s', maxAttempts)
    decreases Budget(s.rows, 1)
  {
    if Claim(s.rows, {}, limit) == [] {
      steps, s' := [], s;
      EmptyClaim(s.rows, limit, 1, _ => Acked);
    } else {
      var first, s1 := OneBatch(s, limit, maxAttempts);
      var rest;
      rest, s' := BatchesDeliver(s1, limit, maxAttempts);
      steps := first + rest;
      LoneConcat(s, first, s1, rest, s', maxAttempts);
    }
  }

  /** So it is from any state, open batches rolled back first. */
  lemma PendingCanBeDelivered(s: State, limit: nat, maxAttempts: nat) returns (steps: seq<Step>, s': State)
    requires Sorted(s.rows) && limit > 0
    ensures SamePayloads(s.rows, s'.rows) && s.log <= s'.log
    ensures forall r :: r in s.rows && r.status.OutboxPending? ==> r.Record() in s'.log
    ensures Tidy(steps, limit)
    ensures LoneTo(s, steps, s', maxAttempts)
  {
    var aborts := AbortAll(s, limit, maxAttempts);
    var rest;
    rest, s' := BatchesDeliver(s.(txns := map[]), limit, maxAttempts);
    steps := aborts + rest;
    LoneConcat(s, aborts, s.(txns := map[]), rest, s', maxAttempts);
  }
}
