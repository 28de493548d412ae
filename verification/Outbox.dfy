/**
 The outbox table and one relay batch over it: what is claimed, what each broker
 answer does to the batch, and what a commit writes back.

 A table is a sequence of rows in id order.
 */
module Outbox {
  import opened Wrappers
  import opened Orders

  datatype OutboxStatus = OutboxPending | OutboxProcessed | OutboxFailed

  datatype Row = Row(id: nat, event: OrderEvent, status: OutboxStatus, attempts: nat) {
    function Aggregate(): OrderId {
      event.order.id
    }

    function Record(): Message {
      Message(id, event)
    }
  }

  /** What the broker stores: the committed payload under its outbox id, keyed by the order. */
  datatype Message = Message(outboxId: nat, event: OrderEvent) {
    function Aggregate(): OrderId {
      event.order.id
    }
  }

  /** A publish either is acknowledged, or fails with the record stored or not stored. */
  datatype Answer = Acked | Refused(cause: string, appended: bool)

  ghost predicate Sorted(rows: seq<Row>) {
    forall i, j :: 0 <= i < j < |rows| ==> rows[i].id < rows[j].id
  }

  lemma SameRow(rows: seq<Row>, r: Row, r': Row)
    requires Sorted(rows) && r in rows && r' in rows && r.id == r'.id
    ensures r == r'
  {
    var i :| 0 <= i < |rows| && rows[i] == r;
    var j :| 0 <= j < |rows| && rows[j] == r';
    assert !(i < j) && !(j < i);
  }

  // ----- inserting -----

  /**
   Where a new row may go in the table.  Ids are handed out before commit, so a row can
   commit behind a larger id, but never behind one of its own order: the order's row
   lock is held from before the id is drawn until the commit.
   */
  ghost predicate Insertable(rows: seq<Row>, at: nat, row: Row) {
    && at <= |rows|
    && row.status.OutboxPending? && row.attempts == 0
    && (forall i :: 0 <= i < at ==> rows[i].id < row.id)
    && (forall i :: at <= i < |rows| ==> row.id < rows[i].id && rows[i].Aggregate() != row.Aggregate())
  }

  function Inserted(rows: seq<Row>, at: nat, row: Row): seq<Row>
    requires at <= |rows|
  {
    rows[..at] + [row] + rows[at..]
  }

  lemma InsertedAt(rows: seq<Row>, at: nat, row: Row, j: nat)
    requires at <= |rows| && j <= |rows|
    ensures Inserted(rows, at, row)[j] == if j < at then rows[j] else if j == at then row else rows[j - 1]
  {
  }

  lemma InsertedSorted(rows: seq<Row>, at: nat, row: Row)
    requires Sorted(rows) && Insertable(rows, at, row)
    ensures Sorted(Inserted(rows, at, row))
  {
    var rows' := Inserted(rows, at, row);
    forall i, j | 0 <= i < j < |rows'| ensures rows'[i].id < rows'[j].id {
      InsertedAt(rows, at, row, i);
      InsertedAt(rows, at, row, j);
    }
  }

  lemma InsertedMembers(rows: seq<Row>, at: nat, row: Row, r: Row)
    requires at <= |rows|
    ensures r in Inserted(rows, at, row) <==> r in rows || r == row
  {
    assert rows == rows[..at] + rows[at..];
  }

  // ----- claiming -----

  function Claimable(rows: seq<Row>, locked: set<nat>): seq<Row> {
    if rows == [] then []
    else (if rows[0].status.OutboxPending? && rows[0].id !in locked then [rows[0]] else [])
         + Claimable(rows[1..], locked)
  }

  /** SELECT … WHERE status = PENDING ORDER BY id LIMIT limit FOR UPDATE SKIP LOCKED. */
  function Claim(rows: seq<Row>, locked: set<nat>, limit: nat): seq<Row> {
    var open := Claimable(rows, locked);
    if |open| <= limit then open else open[..limit]
  }

  lemma {:induction false} ClaimableFacts(rows: seq<Row>, locked: set<nat>)
    requires Sorted(rows)
    ensures Sorted(Claimable(rows, locked))
    ensures forall r :: r in Claimable(rows, locked)
                        <==> r in rows && r.status.OutboxPending? && r.id !in locked
  {
    if rows == [] {
    } else {
      var rest := Claimable(rows[1..], locked);
      ClaimableFacts(rows[1..], locked);
      forall r | r in rest ensures rows[0].id < r.id {
        assert r in rows[1..];
      }
      assert rows == [rows[0]] + rows[1..];
    }
  }

  lemma {:induction false} ClaimableShort(rows: seq<Row>, locked: set<nat>)
    ensures |Claimable(rows, locked)| <= |rows|
  {
    if rows == [] {
    } else {
      ClaimableShort(rows[1..], locked);
    }
  }

  /** A claim holds unlocked PENDING rows, in id order. */
  lemma ClaimMembers(rows: seq<Row>, locked: set<nat>, limit: nat)
    requires Sorted(rows)
    ensures var batch := Claim(rows, locked, limit);
            && Sorted(batch) && |batch| <= limit
            && forall r :: r in batch ==> r in rows && r.status.OutboxPending? && r.id !in locked
  {
    ClaimableFacts(rows, locked);
  }

  /** A claim passes over no unlocked PENDING row older than one it takes. */
  lemma ClaimOldest(rows: seq<Row>, locked: set<nat>, limit: nat, b: Row, r: Row)
    requires Sorted(rows)
    requires b in Claim(rows, locked, limit)
    requires r in rows && r.status.OutboxPending? && r.id !in locked && r.id < b.id
    ensures r in Claim(rows, locked, limit)
  {
    ClaimableFacts(rows, locked);
    var open, batch := Claimable(rows, locked), Claim(rows, locked, limit);
    var i :| 0 <= i < |batch| && batch[i] == b;
    var j :| 0 <= j < |open| && open[j] == r;
    assert open[i] == b;
    assert j < i;
    assert batch[j] == r;
  }

  /** A claim shorter than the limit took every unlocked PENDING row. */
  lemma ClaimShort(rows: seq<Row>, locked: set<nat>, limit: nat, r: Row)
    requires Sorted(rows) && |Claim(rows, locked, limit)| < limit
    requires r in rows && r.status.OutboxPending? && r.id !in locked
    ensures r in Claim(rows, locked, limit)
  {
    ClaimableFacts(rows, locked);
  }

  // ----- handling the claimed rows one by one -----

  datatype Progress = Progress(
    blocked: set<OrderId>,
    published: seq<nat>,
    refused: seq<nat>,
    sent: seq<Message>,
    err: Option<string>)

  const START := Progress({}, [], [], [], None)

  /** One turn of the batch loop; a row of a blocked aggregate is skipped and its answer never asked for. */
  function Advance(p: Progress, row: Row, answer: Answer): Progress {
    if row.Aggregate() in p.blocked then p
    else
      match answer
      case Acked => p.(published := p.published + [row.id], sent := p.sent + [row.Record()])
      case Refused(cause, appended) =>
        Progress(p.blocked + {row.Aggregate()}, p.published, p.refused + [row.id],
                 if appended then p.sent + [row.Record()] else p.sent,
                 if p.err.None? then Some(cause) else p.err)
  }

  /** The batch after as many turns as there are answers. */
  function Handled(batch: seq<Row>, answers: seq<Answer>): Progress
    requires |answers| <= |batch|
  {
    if answers == [] then START
    else
      var n := |answers| - 1;
      Advance(Handled(batch, answers[..n]), batch[n], answers[n])
  }

  lemma HandledNext(batch: seq<Row>, answers: seq<Answer>, answer: Answer)
    requires |answers| < |batch|
    ensures Handled(batch, answers + [answer]) == Advance(Handled(batch, answers), batch[|answers|], answer)
  {
    assert (answers + [answer])[..|answers|] == answers;
  }

  /** What the turns taken so far have established about each row of the batch. */
  ghost predicate Tallied(batch: seq<Row>, n: nat, p: Progress)
    requires n <= |batch|
  {
    && (forall i :: 0 <= i < n ==> batch[i].id in p.published || batch[i].Aggregate() in p.blocked)
    && (forall i :: 0 <= i < n && batch[i].id in p.published ==> batch[i].Record() in p.sent)
    && (forall i :: n <= i < |batch| ==> batch[i].id !in p.published && batch[i].id !in p.refused)
    && (forall id :: id in p.published ==> id !in p.refused)
    && (n == 0 ==> p.blocked == {})
    && (n > 0 ==> batch[0].id in p.published || batch[0].id in p.refused)
  }

  /** Nothing is published, refused, sent or blocked but on account of a row already handled. */
  ghost predicate Accounted(batch: seq<Row>, n: nat, p: Progress)
    requires n <= |batch|
  {
    && (forall id :: id in p.published || id in p.refused ==> exists i :: 0 <= i < n && batch[i].id == id)
    && (forall m :: m in p.sent ==> exists i :: 0 <= i < n && batch[i].Record() == m)
    && (forall a :: a in p.blocked ==> exists i :: 0 <= i < n && batch[i].Aggregate() == a && batch[i].id in p.refused)
    && (p.err.Some? <==> p.refused != [])
    && |p.published| + |p.refused| <= n
  }

  lemma TalliedNext(batch: seq<Row>, n: nat, p: Progress, answer: Answer)
    requires Sorted(batch) && n < |batch| && Tallied(batch, n, p)
    ensures Tallied(batch, n + 1, Advance(p, batch[n], answer))
  {
    var q := Advance(p, batch[n], answer);
    forall i | 0 <= i < n && batch[i].id in q.published ensures batch[i].Record() in q.sent {
      assert batch[i].id < batch[n].id;
    }
    forall i | n + 1 <= i < |batch| ensures batch[i].id !in q.published && batch[i].id !in q.refused {
      assert batch[n].id < batch[i].id;
    }
  }

  lemma AccountedNext(batch: seq<Row>, n: nat, p: Progress, answer: Answer)
    requires n < |batch| && Accounted(batch, n, p)
    ensures Accounted(batch, n + 1, Advance(p, batch[n], answer))
  {
    var q := Advance(p, batch[n], answer);
    forall id | id in q.published || id in q.refused ensures exists i :: 0 <= i < n + 1 && batch[i].id == id {
      if id in p.published || id in p.refused {
        var i :| 0 <= i < n && batch[i].id == id;
      } else {
        assert batch[n].id == id;
      }
    }
    forall m | m in q.sent ensures exists i :: 0 <= i < n + 1 && batch[i].Record() == m {
      if m in p.sent {
        var i :| 0 <= i < n && batch[i].Record() == m;
      } else {
        assert batch[n].Record() == m;
      }
    }
    forall a | a in q.blocked
      ensures exists i :: 0 <= i < n + 1 && batch[i].Aggregate() == a && batch[i].id in q.refused {
      if a in p.blocked {
        var i :| 0 <= i < n && batch[i].Aggregate() == a && batch[i].id in p.refused;
        assert batch[i].id in q.refused;
      } else {
        assert batch[n].Aggregate() == a && batch[n].id in q.refused;
      }
    }
  }

  lemma {:induction false} HandledTallied(batch: seq<Row>, answers: seq<Answer>)
    requires Sorted(batch) && |answers| <= |batch|
    ensures Tallied(batch, |answers|, Handled(batch, answers))
  {
    if answers == [] {
    } else {
      var n := |answers| - 1;
      HandledTallied(batch, answers[..n]);
      TalliedNext(batch, n, Handled(batch, answers[..n]), answers[n]);
    }
  }

  lemma {:induction false} HandledAccounted(batch: seq<Row>, answers: seq<Answer>)
    requires |answers| <= |batch|
    ensures Accounted(batch, |answers|, Handled(batch, answers))
  {
    if answers == [] {
    } else {
      var n := |answers| - 1;
      HandledAccounted(batch, answers[..n]);
      AccountedNext(batch, n, Handled(batch, answers[..n]), answers[n]);
    }
  }

  // ----- writing back -----

  /** One more attempt on the row, and retirement once its budget is spent. */
  function Refusal(row: Row, maxAttempts: nat): Row {
    row.(attempts := row.attempts + 1,
         status := if maxAttempts > 0 && row.attempts + 1 >= maxAttempts then OutboxFailed else row.status)
  }

  function SettledRow(row: Row, p: Progress, maxAttempts: nat): Row {
    if row.id in p.published then row.(status := OutboxProcessed)
    else if row.id in p.refused then Refusal(row, maxAttempts)
    else row
  }

  /** The table a committed batch leaves behind. */
  function Settled(rows: seq<Row>, p: Progress, maxAttempts: nat): (settled: seq<Row>)
    ensures |settled| == |rows|
    ensures forall i :: 0 <= i < |rows| ==> settled[i] == SettledRow(rows[i], p, maxAttempts)
  {
    seq(|rows|, i requires 0 <= i < |rows| => SettledRow(rows[i], p, maxAttempts))
  }

  lemma SettledMember(rows: seq<Row>, p: Progress, maxAttempts: nat, r: Row)
    requires r in rows
    ensures SettledRow(r, p, maxAttempts) in Settled(rows, p, maxAttempts)
  {
    var i :| 0 <= i < |rows| && rows[i] == r;
    assert Settled(rows, p, maxAttempts)[i] == SettledRow(r, p, maxAttempts);
  }

  lemma SettledOrigin(rows: seq<Row>, p: Progress, maxAttempts: nat, r': Row) returns (r: Row)
    requires r' in Settled(rows, p, maxAttempts)
    ensures r in rows && r' == SettledRow(r, p, maxAttempts)
  {
    var i :| 0 <= i < |rows| && Settled(rows, p, maxAttempts)[i] == r';
    r := rows[i];
  }

  // ----- the attempt budget -----

  /** How many more refusals a row can cost; a row that is not PENDING costs none. */
  function Cost(row: Row, maxAttempts: nat): nat {
    if !row.status.OutboxPending? then 0
    else if row.attempts < maxAttempts then maxAttempts - row.attempts
    else 1
  }

  function Budget(rows: seq<Row>, maxAttempts: nat): nat {
    if rows == [] then 0 else Cost(rows[0], maxAttempts) + Budget(rows[1..], maxAttempts)
  }

  lemma {:induction false} BudgetSplit(rows: seq<Row>, k: nat, maxAttempts: nat)
    requires k < |rows|
    ensures Budget(rows, maxAttempts)
         == Budget(rows[..k], maxAttempts) + Cost(rows[k], maxAttempts) + Budget(rows[k + 1..], maxAttempts)
  {
    if k == 0 {
    } else {
      BudgetSplit(rows[1..], k - 1, maxAttempts);
      assert rows[..k][1..] == rows[1..][..k - 1];
      assert rows[1..][k..] == rows[k + 1..];
    }
  }

  lemma {:induction false} BudgetMonotone(rows: seq<Row>, rows': seq<Row>, maxAttempts: nat)
    requires |rows| == |rows'|
    requires forall i :: 0 <= i < |rows| ==> Cost(rows'[i], maxAttempts) <= Cost(rows[i], maxAttempts)
    ensures Budget(rows', maxAttempts) <= Budget(rows, maxAttempts)
  {
    if rows == [] {
    } else {
      BudgetMonotone(rows[1..], rows'[1..], maxAttempts);
    }
  }

  lemma {:induction false} BudgetZero(rows: seq<Row>, maxAttempts: nat)
    requires maxAttempts > 0
    ensures Budget(rows, maxAttempts) == 0 <==> forall r :: r in rows ==> !r.status.OutboxPending?
  {
    if rows == [] {
    } else {
      BudgetZero(rows[1..], maxAttempts);
      assert rows == [rows[0]] + rows[1..];
    }
  }

  /** n PENDING rows that were never refused have n times maxAttempts to spend. */
  lemma {:induction false} FreshBudget(rows: seq<Row>, maxAttempts: nat)
    requires maxAttempts > 0
    requires forall r :: r in rows ==> r.status.OutboxPending? && r.attempts == 0
    ensures Budget(rows, maxAttempts) == |rows| * maxAttempts
  {
    if rows == [] {
    } else {
      assert rows[0] in rows;
      FreshBudget(rows[1..], maxAttempts);
      assert |rows| * maxAttempts == (|rows| - 1) * maxAttempts + maxAttempts;
    }
  }

  /** The table after one committed lone batch, whatever the broker replies. */
  function CommitBatch(rows: seq<Row>, limit: nat, maxAttempts: nat, replies: nat -> Answer): seq<Row> {
    var batch := Claim(rows, {}, limit);
    Settled(rows, Handled(batch, seq(|batch|, replies)), maxAttempts)
  }

  function CommitBatches(rows: seq<Row>, limit: nat, maxAttempts: nat, replies: seq<nat -> Answer>): seq<Row> {
    if replies == [] then rows
    else CommitBatch(CommitBatches(rows, limit, maxAttempts, replies[..|replies| - 1]),
                     limit, maxAttempts, replies[|replies| - 1])
  }

  lemma SettledSorted(rows: seq<Row>, p: Progress, maxAttempts: nat)
    requires Sorted(rows)
    ensures Sorted(Settled(rows, p, maxAttempts))
  {
  }

  /** A settled PENDING row never costs more, and costs less if it was handed to the broker. */
  lemma SettledCost(row: Row, p: Progress, maxAttempts: nat)
    requires maxAttempts > 0
    requires row.id in p.published || row.id in p.refused ==> row.status.OutboxPending?
    ensures Cost(SettledRow(row, p, maxAttempts), maxAttempts) <= Cost(row, maxAttempts)
    ensures row.id in p.published || row.id in p.refused
            ==> Cost(SettledRow(row, p, maxAttempts), maxAttempts) < Cost(row, maxAttempts)
  {
  }

  lemma {:induction false} BudgetDrops(rows: seq<Row>, rows': seq<Row>, k: nat, maxAttempts: nat)
    requires |rows| == |rows'| && k < |rows|
    requires forall i :: 0 <= i < |rows| ==> Cost(rows'[i], maxAttempts) <= Cost(rows[i], maxAttempts)
    requires Cost(rows'[k], maxAttempts) < Cost(rows[k], maxAttempts)
    ensures Budget(rows', maxAttempts) < Budget(rows, maxAttempts)
  {
    BudgetSplit(rows, k, maxAttempts);
    BudgetSplit(rows', k, maxAttempts);
    BudgetMonotone(rows[..k], rows'[..k], maxAttempts);
    BudgetMonotone(rows[k + 1..], rows'[k + 1..], maxAttempts);
  }

  /** Every row a batch published or refused was a PENDING row of the table. */
  lemma {:induction false} HandledArePending(rows: seq<Row>, locked: set<nat>, limit: nat, answers: seq<Answer>, r: Row)
    requires Sorted(rows) && |answers| <= |Claim(rows, locked, limit)| && r in rows
    requires var p := Handled(Claim(rows, locked, limit), answers); r.id in p.published || r.id in p.refused
    ensures r.status.OutboxPending?
  {
    var batch := Claim(rows, locked, limit);
    ClaimMembers(rows, locked, limit);
    HandledAccounted(batch, answers);
    var k :| 0 <= k < |batch| && batch[k].id == r.id;
    SameRow(rows, r, batch[k]);
  }

  /** The head of the batch is always handed to the broker. */
  lemma HeadHandled(rows: seq<Row>, locked: set<nat>, limit: nat, answers: seq<Answer>)
    requires Sorted(rows) && answers != [] && |answers| <= |Claim(rows, locked, limit)|
    ensures var batch := Claim(rows, locked, limit);
            var p := Handled(batch, answers);
            batch[0] in rows && (batch[0].id in p.published || batch[0].id in p.refused)
  {
    var batch := Claim(rows, locked, limit);
    assert Sorted(batch) && batch[0] in rows by {
      ClaimMembers(rows, locked, limit);
    }
    HandledTallied(batch, answers);
  }

  /**
   Every committed batch that claimed something spends some of the budget, whatever others hold and
   the broker replies.
   */
  lemma BatchSpends(rows: seq<Row>, locked: set<nat>, limit: nat, maxAttempts: nat, answers: seq<Answer>)
    requires Sorted(rows) && limit > 0 && maxAttempts > 0
    requires Claim(rows, locked, limit) != [] && |answers| == |Claim(rows, locked, limit)|
    ensures Budget(Settled(rows, Handled(Claim(rows, locked, limit), answers), maxAttempts), maxAttempts)
          < Budget(rows, maxAttempts)
  {
    var batch := Claim(rows, locked, limit);
    var p := Handled(batch, answers);
    var rows' := Settled(rows, p, maxAttempts);
    forall i | 0 <= i < |rows|
      ensures Cost(rows'[i], maxAttempts) <= Cost(rows[i], maxAttempts)
      ensures rows[i].id in p.published || rows[i].id in p.refused
              ==> Cost(rows'[i], maxAttempts) < Cost(rows[i], maxAttempts)
    {
      if rows[i].id in p.published || rows[i].id in p.refused {
        HandledArePending(rows, locked, limit, answers, rows[i]);
      }
      SettledCost(rows[i], p, maxAttempts);
    }
    HeadHandled(rows, locked, limit, answers);
    var k :| 0 <= k < |rows| && rows[k] == batch[0];
    BudgetDrops(rows, rows', k, maxAttempts);
  }

  lemma EmptyClaim(rows: seq<Row>, limit: nat, maxAttempts: nat, replies: nat -> Answer)
    requires Sorted(rows) && limit > 0 && Claim(rows, {}, limit) == []
    ensures CommitBatch(rows, limit, maxAttempts, replies) == rows
    ensures forall r :: r in rows ==> !r.status.OutboxPending?
  {
    forall r | r in rows ensures !r.status.OutboxPending? {
      if r.status.OutboxPending? {
        ClaimShort(rows, {}, limit, r);
      }
    }
  }

  /** Within as many committed batches as the budget allows, no row is PENDING any more. */
  lemma {:induction false} BacklogRunsOut(rows: seq<Row>, limit: nat, maxAttempts: nat, replies: seq<nat -> Answer>)
    requires Sorted(rows) && limit > 0 && maxAttempts > 0
    ensures var rows' := CommitBatches(rows, limit, maxAttempts, replies);
            && Sorted(rows')
            && (Budget(rows', maxAttempts) == 0 || Budget(rows', maxAttempts) + |replies| <= Budget(rows, maxAttempts))
            && (|replies| >= Budget(rows, maxAttempts) ==> forall r :: r in rows' ==> !r.status.OutboxPending?)
  {
    var rows' := CommitBatches(rows, limit, maxAttempts, replies);
    if replies == [] {
    } else {
      var n := |replies| - 1;
      var before := CommitBatches(rows, limit, maxAttempts, replies[..n]);
      BacklogRunsOut(rows, limit, maxAttempts, replies[..n]);
      var batch := Claim(before, {}, limit);
      SettledSorted(before, Handled(batch, seq(|batch|, replies[n])), maxAttempts);
      if batch != [] {
        BatchSpends(before, {}, limit, maxAttempts, seq(|batch|, replies[n]));
      } else {
        EmptyClaim(before, limit, maxAttempts, replies[n]);
        BudgetZero(before, maxAttempts);
      }
    }
    BudgetZero(rows', maxAttempts);
  }
}
