/**
 The relay's persistence adapter: one batch as one transaction around the broker round
 trips, and the proof that it is a run of the small-step relay system.
 */
module OutboxRepository {
  import opened Wrappers
  import opened Orders
  import opened Outbox
  import opened Database
  import Relays

  datatype BatchResult = BatchResult(claimed: nat, published: nat, failed: nat, err: Option<string>)

  /** Which database calls of a batch fail: the claim, the bookkeeping of some rows, the final mark, the commit. */
  datatype Faults = Faults(claim: bool, record: set<nat>, mark: bool, commit: bool)

  predicate AllRecorded(refused: seq<nat>, fails: set<nat>) {
    forall i :: 0 <= i < |refused| ==> refused[i] !in fails
  }

  lemma RecordedNext(refused: seq<nat>, id: nat, fails: set<nat>)
    ensures AllRecorded(refused + [id], fails) <==> AllRecorded(refused, fails) && id !in fails
  {
    assert (refused + [id])[|refused|] == id;
    forall i | 0 <= i < |refused| ensures (refused + [id])[i] == refused[i] {
    }
  }

  /** Whether the transaction gets through, given what it handled. */
  predicate Commits(faults: Faults, p: Progress) {
    && !faults.claim
    && AllRecorded(p.refused, faults.record)
    && !(p.published != [] && faults.mark)
    && !faults.commit
  }

  /** UPDATE … SET status = PROCESSED WHERE id IN published. */
  function MarkProcessed(table: seq<Row>, published: seq<nat>): seq<Row> {
    seq(|table|, i requires 0 <= i < |table| =>
      if table[i].id in published then table[i].(status := OutboxProcessed) else table[i])
  }

  /** UPDATE … WHERE id = msg.ID: one more attempt, and retirement when the budget is spent. */
  function RecordFailure(table: seq<Row>, msg: Row, maxAttempts: nat): seq<Row> {
    seq(|table|, i requires 0 <= i < |table| =>
      if table[i].id != msg.id then table[i]
      else table[i].(attempts := msg.attempts + 1,
                     status := if maxAttempts > 0 && msg.attempts + 1 >= maxAttempts then OutboxFailed
                               else table[i].status))
  }

  /** Recording a failure is the settlement with one more refusal. */
  lemma OneMoreRefusal(rows: seq<Row>, refused: seq<nat>, msg: Row, maxAttempts: nat)
    requires Sorted(rows) && msg in rows && msg.id !in refused
    ensures RecordFailure(Settled(rows, START.(refused := refused), maxAttempts), msg, maxAttempts)
         == Settled(rows, START.(refused := refused + [msg.id]), maxAttempts)
  {
    forall i | 0 <= i < |rows| && rows[i].id == msg.id ensures rows[i] == msg {
      SameRow(rows, rows[i], msg);
    }
  }

  /** The bookkeeping of the refusals followed by the mark is the settled table. */
  lemma MarkedIsSettled(rows: seq<Row>, p: Progress, maxAttempts: nat)
    requires forall id :: id in p.published ==> id !in p.refused
    ensures var table := Settled(rows, START.(refused := p.refused), maxAttempts);
            Settled(rows, p, maxAttempts) == if p.published == [] then table else MarkProcessed(table, p.published)
  {
  }

  /** The row whose turn it is belongs to the table and has not been handled before. */
  lemma InTurn(rows: seq<Row>, locked: set<nat>, limit: nat, answered: seq<Answer>)
    requires Sorted(rows) && |answered| < |Claim(rows, locked, limit)|
    ensures var batch := Claim(rows, locked, limit);
            batch[|answered|] in rows && batch[|answered|].id !in Handled(batch, answered).refused
  {
    var batch := Claim(rows, locked, limit);
    ClaimMembers(rows, locked, limit);
    HandledTallied(batch, answered);
    assert batch[|answered|] in batch;
  }

  lemma PublishedNotRefused(rows: seq<Row>, locked: set<nat>, limit: nat, answered: seq<Answer>)
    requires Sorted(rows) && |answered| <= |Claim(rows, locked, limit)|
    ensures var p := Handled(Claim(rows, locked, limit), answered);
            forall id :: id in p.published ==> id !in p.refused
  {
    ClaimMembers(rows, locked, limit);
    HandledTallied(Claim(rows, locked, limit), answered);
  }

  class Repository {
    const db: Tables

    constructor (db: Tables)
      ensures this.db == db
    {
      this.db := db;
    }

    /** The bookkeeping of one refusal, on the table as the refusals so far have left it. */
    method NoteRefusal(rows: seq<Row>, table: seq<Row>, msg: Row, maxAttempts: nat, recordFails: set<nat>,
                       ghost refused: seq<nat>)
      returns (table': seq<Row>, ok: bool)
      requires Sorted(rows) && msg in rows && msg.id !in refused
      requires table == Settled(rows, START.(refused := refused), maxAttempts)
      ensures ok == (msg.id !in recordFails)
      ensures ok ==> table' == Settled(rows, START.(refused := refused + [msg.id]), maxAttempts)
    {
      table', ok := table, msg.id !in recordFails;
      if ok {
        OneMoreRefusal(rows, refused, msg, maxAttempts);
        table' := RecordFailure(table, msg, maxAttempts);
      }
    }

    /**
     The batch loop: hands each claimed row to the broker and keeps the books on a copy of
     the table.  answered is as much of the broker's replies as the loop asked for; it stops
     short only at a row whose bookkeeping fails.
     */
    method HandOver(rows: seq<Row>, locked: set<nat>, limit: nat, maxAttempts: nat, broker: Broker,
                    replies: nat -> Answer, recordFails: set<nat>)
      returns (table: seq<Row>, published: seq<nat>, failed: nat, firstErr: Option<string>, ok: bool,
               ghost answered: seq<Answer>)
      requires Sorted(rows)
      modifies broker
      ensures |answered| <= |Claim(rows, locked, limit)|
      ensures forall i :: 0 <= i < |answered| ==> answered[i] == replies(i)
      ensures var p := Handled(Claim(rows, locked, limit), answered);
              && broker.log == old(broker.log) + p.sent
              && published == p.published && failed == |p.refused| && firstErr == p.err
              && ok == AllRecorded(p.refused, recordFails)
              && (ok ==> |answered| == |Claim(rows, locked, limit)|
                         && table == Settled(rows, START.(refused := p.refused), maxAttempts))
    {
      var batch := Claim(rows, locked, limit);
      table, published, failed, firstErr, ok, answered := rows, [], 0, None, true, [];
      assert table == Settled(rows, START, maxAttempts);
      var blocked: set<OrderId> := {};
      ghost var p := START;
      var index := 0;
      while index < |batch|
        invariant 0 <= index <= |batch| && ok
        invariant |answered| == index && forall i :: 0 <= i < index ==> answered[i] == replies(i)
        invariant p == Handled(batch, answered)
        invariant p.blocked == blocked && p.published == published && |p.refused| == failed && p.err == firstErr
        invariant broker.log == old(broker.log) + p.sent
        invariant AllRecorded(p.refused, recordFails)
        invariant table == Settled(rows, START.(refused := p.refused), maxAttempts)
      {
        var msg, reply := batch[index], replies(index);
        ghost var q := p;
        HandledNext(batch, answered, reply);
        InTurn(rows, locked, limit, answered);
        answered, p := answered + [reply], Advance(q, msg, reply);
        index := index + 1;
        if msg.Aggregate() in blocked {
          assert p == q;
          continue;
        }
        var err := broker.PublishOutbox(msg, reply);
        assert broker.log == old(broker.log) + p.sent;
        if err.Some? {
          blocked := blocked + {msg.Aggregate()};
          failed := failed + 1;
          if firstErr.None? {
            firstErr := err;
          }
          table, ok := NoteRefusal(rows, table, msg, maxAttempts, recordFails, q.refused);
          assert p == Progress(q.blocked + {msg.Aggregate()}, q.published, q.refused + [msg.id], p.sent, firstErr);
          RecordedNext(q.refused, msg.id, recordFails);
          if !ok {
            return;
          }
        } else {
          published := published + [msg.id];
          assert p == q.(published := published, sent := p.sent);
        }
      }
    }

    /**
     One batch as one transaction.  locked are the rows other transactions hold.  A failed
     transaction leaves the table as it was, but the log keeps what was sent.
     */
    method PublishBatch(limit: nat, maxAttempts: nat, broker: Broker,
                        locked: set<nat>, replies: nat -> Answer, faults: Faults)
      returns (result: BatchResult, failure: Option<string>, ghost answered: seq<Answer>)
      requires limit > 0
      requires Sorted(db.outbox)
      modifies db`outbox, broker
      ensures |answered| <= |Claim(old(db.outbox), locked, limit)|
      ensures forall i :: 0 <= i < |answered| ==> answered[i] == replies(i)
      ensures var batch := Claim(old(db.outbox), locked, limit);
              var p := Handled(batch, answered);
              && broker.log == old(broker.log) + p.sent
              && (failure.None? <==> Commits(faults, p))
              && (failure.Some? ==> db.outbox == old(db.outbox))
              && (failure.None? ==>
                    && |answered| == |batch|
                    && db.outbox == Settled(old(db.outbox), p, maxAttempts)
                    && result == BatchResult(|batch|, |p.published|, |p.refused|, p.err))
    {
      answered := [];
      result := BatchResult(0, 0, 0, None);
      if faults.claim {
        assert Handled(Claim(db.outbox, locked, limit), answered) == START;
        return result, Some("claim outbox batch"), answered;
      }
      var table, published, failed, firstErr, ok;
      table, published, failed, firstErr, ok, answered :=
        HandOver(db.outbox, locked, limit, maxAttempts, broker, replies, faults.record);
      result := BatchResult(|Claim(db.outbox, locked, limit)|, 0, failed, firstErr);
      if !ok {
        return result, Some("record outbox failure"), answered;
      }
      result := result.(published := |published|);
      if |published| != 0 {
        if faults.mark {
          return result, Some("mark outbox processed"), answered;
        }
        table := MarkProcessed(table, published);
      }
      if faults.commit {
        return result, Some("commit"), answered;
      }
      PublishedNotRefused(db.outbox, locked, limit, answered);
      MarkedIsSettled(db.outbox, Handled(Claim(db.outbox, locked, limit), answered), maxAttempts);
      db.outbox := table;
      failure := None;
    }

    /** Returns every retired row to the queue with a fresh budget, and says how many there were. */
    method RequeueFailed() returns (affected: nat)
      modifies db`outbox
      ensures db.outbox == Relays.Requeued(old(db.outbox))
      ensures affected == |set i | 0 <= i < |old(db.outbox)| && old(db.outbox)[i].status.OutboxFailed?|
    {
      var i := 0;
      affected := 0;
      ghost var retired: set<int> := {};
      var table := db.outbox;
      while i < |table|
        invariant 0 <= i <= |table| == |db.outbox|
        invariant forall k :: 0 <= k < |table| ==>
                    table[k] == if k < i then Relays.RequeuedRow(db.outbox[k]) else db.outbox[k]
        invariant db.outbox == old(db.outbox)
        invariant retired == (set k | 0 <= k < i && db.outbox[k].status.OutboxFailed?) && affected == |retired|
      {
        if table[i].status.OutboxFailed? {
          retired, affected := retired + {i}, affected + 1;
          table := table[i := table[i].(status := OutboxPending, attempts := 0)];
        }
        i := i + 1;
      }
      assert table == Relays.Requeued(db.outbox);
      db.outbox := table;
    }
  }
}
