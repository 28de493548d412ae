/**
 At-least-once delivery from one partition, as a small-step system: a cursor, a committed
 offset, a ledger that survives rebalances, and a dead-letter log.
 */
module Delivery {
  import opened Wrappers
  import opened Orders
  import opened Ledger
  import opened Projection

  /** What stands at an offset: an envelope, or bytes that do not decode. */
  datatype Record = Parsed(event: OrderEvent) | Unparseable

  /** history lists the ids of the events that ever changed the ledger, in that order. */
  datatype State = State(book: Book, history: seq<string>, cursor: nat, committed: nat, parked: seq<nat>)

  /**
   One turn of the consumer.  Settle: the projection succeeded at some price.  Park and
   Hold: it failed, and the dead-letter write went through or did not.  A commit may fail.
   */
  datatype Step =
    | Settle(nav: real, commitOk: bool)
    | Park(nav: real, commitOk: bool)
    | Hold(nav: real)
    | Rebalance

  ghost predicate Fails(b: Book, r: Record, nav: real) {
    r.Unparseable? || !Succeeds(Project(b, r.event, nav, MAX_APPLIED_EVENTS).1)
  }

  ghost predicate Enabled(s: State, log: seq<Record>, step: Step) {
    match step
    case Settle(nav, _) =>
      s.cursor < |log| && log[s.cursor].Parsed? && !Fails(s.book, log[s.cursor], nav)
    case Park(nav, _) => s.cursor < |log| && Fails(s.book, log[s.cursor], nav)
    case Hold(nav) => s.cursor < |log| && Fails(s.book, log[s.cursor], nav)
    case Rebalance => true
  }

  /** The cursor moves on whatever happens; a commit acknowledges everything up to and with this offset. */
  function Moved(s: State, commitOk: bool): State {
    s.(cursor := s.cursor + 1, committed := if commitOk then s.cursor + 1 else s.committed)
  }

  ghost function Exec(s: State, log: seq<Record>, step: Step): State
    requires Enabled(s, log, step)
  {
    match step
    case Settle(nav, commitOk) =>
      var e := log[s.cursor].event;
      var (book, verdict) := Project(s.book, e, nav, MAX_APPLIED_EVENTS);
      Moved(s.(book := book, history := if verdict.Changed? then s.history + [e.eventId] else s.history), commitOk)
    case Park(_, commitOk) => Moved(s.(parked := s.parked + [s.cursor]), commitOk)
    case Hold(_) => Moved(s, false)
    case Rebalance => s.(cursor := s.committed)
  }

  ghost predicate Possible(s: State, log: seq<Record>, steps: seq<Step>)
    decreases |steps|, 0
  {
    steps == []
    || (var n := |steps| - 1;
        Possible(s, log, steps[..n]) && Enabled(After(s, log, steps[..n]), log, steps[n]))
  }

  ghost function After(s: State, log: seq<Record>, steps: seq<Step>): State
    requires Possible(s, log, steps)
    decreases |steps|, 1
  {
    if steps == [] then s
    else
      var n := |steps| - 1;
      Exec(After(s, log, steps[..n]), log, steps[n])
  }

  lemma OneMore(s: State, log: seq<Record>, steps: seq<Step>, step: Step)
    requires Possible(s, log, steps) && Enabled(After(s, log, steps), log, step)
    ensures Possible(s, log, steps + [step])
    ensures After(s, log, steps + [step]) == Exec(After(s, log, steps), log, step)
  {
    assert (steps + [step])[..|steps|] == steps;
  }

  function Start(b: Book, offset: nat): State {
    State(b, b.order, offset, offset, [])
  }

  // ----- committed means accounted for -----

  /** An event this service has nothing to do for. */
  predicate NoOp(r: Record) {
    r.Parsed? && Validate(r.event).None? && !IsExecuted(r.event)
  }

  /** Applied to the ledger, skipped as a no-op, or durable on the dead-letter log. */
  predicate AccountedFor(s: State, log: seq<Record>, o: nat)
    requires o < |log|
  {
    NoOp(log[o]) || o in s.parked || (log[o].Parsed? && log[o].event.eventId in s.history)
  }

  ghost predicate AccountedUpTo(s: State, log: seq<Record>, start: nat, end: nat) {
    forall o :: start <= o < end && o < |log| ==> AccountedFor(s, log, o)
  }

  ghost predicate Inv(s: State, log: seq<Record>) {
    && s.committed <= s.cursor <= |log|
    && (forall id :: id in s.book.order ==> id in s.history)
  }

  lemma RecentSubset(order: seq<string>, id: string, cap: nat)
    requires id in Recent(order, cap)
    ensures id in order
  {
  }

  /** What was accounted for stays so, and the settled or parked offset joins it. */
  lemma StepAccounts(s: State, log: seq<Record>, step: Step)
    requires Inv(s, log) && Enabled(s, log, step)
    ensures var s' := Exec(s, log, step);
            && Inv(s', log)
            && (forall o :: 0 <= o < |log| && AccountedFor(s, log, o) ==> AccountedFor(s', log, o))
            && (step.Settle? || step.Park? ==> AccountedFor(s', log, s.cursor))
  {
    var s' := Exec(s, log, step);
    if step.Settle? {
      var e := log[s.cursor].event;
      var (book, verdict) := Project(s.book, e, step.nav, MAX_APPLIED_EVENTS);
      forall id | id in book.order ensures id in s'.history {
        if id !in s.book.order {
          assert verdict.Changed?;
          RecentSubset(s.book.order + [e.eventId], id, MAX_APPLIED_EVENTS);
        }
      }
      assert (s.history + [e.eventId])[|s.history|] == e.eventId;
    }
  }

  ghost predicate ParksSucceed(steps: seq<Step>) {
    forall i :: 0 <= i < |steps| ==> !steps[i].Hold?
  }

  predicate Commits(step: Step) {
    (step.Settle? || step.Park?) && step.commitOk
  }

  /** A message was held since the last rebalance. */
  predicate HoldPending(steps: seq<Step>) {
    if steps == [] then false
    else
      var n := |steps| - 1;
      match steps[n]
      case Hold(_) => true
      case Rebalance => false
      case _ => HoldPending(steps[..n])
  }

  /** After every held message the partition is rebalanced before anything is committed. */
  predicate HoldsRewound(steps: seq<Step>) {
    if steps == [] then true
    else
      var n := |steps| - 1;
      HoldsRewound(steps[..n]) && !(Commits(steps[n]) && HoldPending(steps[..n]))
  }

  /** Where no park fails there is nothing to rewind. */
  lemma {:induction false} NothingHeld(steps: seq<Step>)
    requires ParksSucceed(steps)
    ensures !HoldPending(steps) && HoldsRewound(steps)
  {
    if steps == [] {
    } else {
      NothingHeld(steps[..|steps| - 1]);
    }
  }

  /** Between a held message and a later commit lies a rebalance. */
  ghost predicate RewoundBetween(steps: seq<Step>, i: int, j: int)
    requires 0 <= i < j < |steps|
  {
    steps[i].Hold? && Commits(steps[j]) ==> exists k :: i < k < j && steps[k].Rebalance?
  }

  /** The i-th step held a message, and no rebalance has followed. */
  ghost predicate HeldSince(steps: seq<Step>, i: int)
    requires 0 <= i < |steps|
  {
    steps[i].Hold? && forall k :: i < k < |steps| ==> !steps[k].Rebalance?
  }

  lemma HeldSinceNext(front: seq<Step>, step: Step, i: nat)
    requires i < |front|
    ensures HeldSince(front + [step], i) <==> HeldSince(front, i) && !step.Rebalance?
  {
    var steps := front + [step];
    assert steps[|front|] == step && forall k :: 0 <= k < |front| ==> steps[k] == front[k];
  }

  lemma {:induction false} HoldPendingIff(steps: seq<Step>)
    ensures HoldPending(steps) <==> exists i :: 0 <= i < |steps| && HeldSince(steps, i)
  {
    if steps == [] {
    } else {
      var n := |steps| - 1;
      HoldPendingIff(steps[..n]);
      assert steps == steps[..n] + [steps[n]];
      forall i | 0 <= i < n ensures HeldSince(steps, i) <==> HeldSince(steps[..n], i) && !steps[n].Rebalance? {
        HeldSinceNext(steps[..n], steps[n], i);
      }
      assert HeldSince(steps, n) <==> steps[n].Hold?;
    }
  }

  /** The recursive reading of a rewound run is the plain one. */
  lemma {:induction false} HoldsRewoundIff(steps: seq<Step>)
    ensures HoldsRewound(steps) <==> forall i, j :: 0 <= i < j < |steps| ==> RewoundBetween(steps, i, j)
  {
    if steps == [] {
    } else {
      var n := |steps| - 1;
      var front := steps[..n];
      HoldsRewoundIff(front);
      HoldPendingIff(front);
      forall i, j | 0 <= i < j < n ensures RewoundBetween(front, i, j) <==> RewoundBetween(steps, i, j) {
        SameBetween(front, steps, i, j);
      }
      forall i | 0 <= i < n
        ensures RewoundBetween(steps, i, n)
           <==> !(Commits(steps[n]) && HeldSince(front, i))
      {
        assert forall k :: i < k < n ==> front[k] == steps[k];
      }
    }
  }

  lemma SameBetween(front: seq<Step>, steps: seq<Step>, i: nat, j: nat)
    requires |front| <= |steps| && front == steps[..|front|] && i < j < |front|
    ensures RewoundBetween(front, i, j) <==> RewoundBetween(steps, i, j)
  {
    assert forall k :: 0 <= k < |front| ==> front[k] == steps[k];
  }

  lemma {:induction false} RunAccounts(b: Book, start: nat, log: seq<Record>, steps: seq<Step>)
    requires start <= |log| && Possible(Start(b, start), log, steps) && HoldsRewound(steps)
    ensures var s := After(Start(b, start), log, steps);
            && Inv(s, log) && start <= s.committed
            && AccountedUpTo(s, log, start, s.committed)
            && (!HoldPending(steps) ==> AccountedUpTo(s, log, start, s.cursor))
  {
    if steps == [] {
    } else {
      var n := |steps| - 1;
      var before := After(Start(b, start), log, steps[..n]);
      RunAccounts(b, start, log, steps[..n]);
      StepAccounts(before, log, steps[n]);
    }
  }

  /**
   In every run in which a held message is rewound to before anything after it is committed,
   with commits failing and partitions rebalancing at will: each offset below the committed
   one has been applied, was a no-op, or is on the dead-letter log.
   */
  lemma CommittedIsAccountedFor(b: Book, start: nat, log: seq<Record>, steps: seq<Step>, o: nat)
    requires start <= |log| && Possible(Start(b, start), log, steps) && HoldsRewound(steps)
    requires start <= o < After(Start(b, start), log, steps).committed
    ensures o < |log| && AccountedFor(After(Start(b, start), log, steps), log, o)
  {
    RunAccounts(b, start, log, steps);
  }

  /** So it is in every run where parks succeed. */
  lemma CommittedWhenParksSucceed(b: Book, start: nat, log: seq<Record>, steps: seq<Step>, o: nat)
    requires start <= |log| && Possible(Start(b, start), log, steps) && ParksSucceed(steps)
    requires start <= o < After(Start(b, start), log, steps).committed
    ensures o < |log| && AccountedFor(After(Start(b, start), log, steps), log, o)
  {
    NothingHeld(steps);
    CommittedIsAccountedFor(b, start, log, steps, o);
  }

  /** This settle is about to apply the event that stands at an earlier offset, too. */
  predicate AppliesToo(s: State, log: seq<Record>, step: Step, o: nat)
    requires o < |log|
  {
    && step.Settle? && s.cursor < |log| && log[s.cursor].Parsed? && log[o].Parsed?
    && log[o].event.eventId == log[s.cursor].event.eventId
    && Project(s.book, log[s.cursor].event, step.nav, MAX_APPLIED_EVENTS).1.Changed?
  }

  /** A step accounts for its own offset and for the copies of an event it applies, and for nothing else. */
  lemma AccountsForIff(s: State, log: seq<Record>, step: Step, o: nat)
    requires Inv(s, log) && Enabled(s, log, step) && o < |log|
    requires (step.Settle? || step.Park?) && o < s.cursor
    ensures AccountedFor(Exec(s, log, step), log, o) <==> AccountedFor(s, log, o) || AppliesToo(s, log, step, o)
  {
    if step.Settle? {
      var e := log[s.cursor].event;
      assert (s.history + [e.eventId])[|s.history|] == e.eventId;
    }
  }

  /**
   Exactly when a commit keeps the committed prefix accounted for, seen before it is made:
   each offset it would skip is accounted for already, or holds a copy of the event that is
   just being applied.
   */
  lemma CommitIsSafeIff(s: State, log: seq<Record>, start: nat, step: Step)
    requires Inv(s, log) && start <= s.committed && AccountedUpTo(s, log, start, s.committed)
    requires Enabled(s, log, step) && Commits(step)
    ensures var s' := Exec(s, log, step);
            AccountedUpTo(s', log, start, s'.committed)
            <==> forall o :: s.committed <= o < s.cursor ==> AccountedFor(s, log, o) || AppliesToo(s, log, step, o)
  {
    var s' := Exec(s, log, step);
    StepAccounts(s, log, step);
    forall o | s.committed <= o < s.cursor
      ensures AccountedFor(s', log, o) <==> AccountedFor(s, log, o) || AppliesToo(s, log, step, o)
    {
      AccountsForIff(s, log, step, o);
    }
  }

  /** A failed park followed by a committed message acknowledges an event that is nowhere. */
  lemma HeldOffsetIsPassed()
    ensures var log := [Unparseable, Unparseable];
            var steps := [Hold(0.0), Park(0.0, true)];
            var s := Start(Book(map[], []), 0);
            && Possible(s, log, steps)
            && After(s, log, steps).committed == 2
            && !AccountedFor(After(s, log, steps), log, 0)
  {
    var log := [Unparseable, Unparseable];
    var s := Start(Book(map[], []), 0);
    OneMore(s, log, [], Hold(0.0));
    OneMore(s, log, [Hold(0.0)], Park(0.0, true));
    assert [] + [Hold(0.0)] == [Hold(0.0)];
    assert [Hold(0.0)] + [Park(0.0, true)] == [Hold(0.0), Park(0.0, true)];
  }
}
