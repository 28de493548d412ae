/**
 The consumer itself: fetch, bounded retries with doubling waits, park or commit.  Each
 message it processes is one step of the delivery system.
 */
module Consumer {
  import opened Wrappers
  import opened Orders
  import opened Ledger
  import opened Projection
  import opened Delivery

  /** What happens around one message: prices at each try, cancellation, the dead-letter write, the commit. */
  datatype Luck = Luck(weather: nat -> NavWeather, cancelled: nat -> bool, parkOk: bool, commitOk: bool)

  datatype Reason = Undecodable | Permanent | Exhausted

  datatype Result = Succeeded(applied: bool) | DeadLettered(reason: Reason, attempts: nat) | Held

  function Pow2(n: nat): (p: nat)
    ensures p >= 1
  {
    if n == 0 then 1 else 2 * Pow2(n - 1)
  }

  /** The wait after the n-th try that failed, counted from zero: it doubles every time. */
  function Delay(base: nat, n: nat): nat {
    if n == 0 then base else 2 * Delay(base, n - 1)
  }

  /** The first n waits together. */
  function Waited(base: nat, n: nat): nat {
    if n == 0 then 0 else Waited(base, n - 1) + Delay(base, n - 1)
  }

  lemma {:induction false} WaitedGrows(base: nat, m: nat, n: nat)
    requires m <= n
    ensures Waited(base, m) <= Waited(base, n)
    decreases n
  {
    if m < n {
      WaitedGrows(base, m, n - 1);
    }
  }

  /** The first n waits add up to 2^n - 1 base delays. */
  lemma {:induction false} WaitedInAll(base: nat, n: nat)
    ensures Delay(base, n) == base * Pow2(n) && Waited(base, n) == base * (Pow2(n) - 1)
  {
    if n == 0 {
    } else {
      WaitedInAll(base, n - 1);
      Doubled(base, Pow2(n - 1));
    }
  }

  lemma Doubled(base: nat, p: nat)
    ensures base * (2 * p) == 2 * (base * p)
    ensures base * (p - 1) + base * p == base * (2 * p - 1)
  {
  }

  /** The cache as the k-th try for an event finds it. */
  function CacheAt(cache: map<string, real>, e: OrderEvent, luck: Luck, k: nat): map<string, real> {
    if k <= 1 then cache
    else CacheAfter(CacheAt(cache, e, luck, k - 1), e.order.fundId, luck.weather(k - 1))
  }

  function PriceAt(cache: map<string, real>, e: OrderEvent, luck: Luck, k: nat): real {
    Price(CacheAt(cache, e, luck, k), e.order.fundId, luck.weather(k))
  }

  function VerdictAt(b: Book, cache: map<string, real>, e: OrderEvent, luck: Luck, k: nat): Verdict {
    Project(b, e, PriceAt(cache, e, luck, k), MAX_APPLIED_EVENTS).1
  }

  /** All tries before the n-th lacked a price and were waited out. */
  ghost predicate WaitedOut(b: Book, cache: map<string, real>, e: OrderEvent, luck: Luck, n: nat) {
    forall k :: 1 <= k < n ==> VerdictAt(b, cache, e, luck, k).Unpriced? && !luck.cancelled(k)
  }

  lemma WaitedOutNext(b: Book, cache: map<string, real>, e: OrderEvent, luck: Luck, n: nat)
    requires WaitedOut(b, cache, e, luck, n) && VerdictAt(b, cache, e, luck, n).Unpriced? && !luck.cancelled(n)
    ensures WaitedOut(b, cache, e, luck, n + 1)
  {
  }

  /** The n-th try is the one that ends it: it did not lack a price, or was the last, or its wait was cancelled. */
  ghost predicate EndsAt(b: Book, cache: map<string, real>, e: OrderEvent, luck: Luck, maxAttempts: nat, n: nat) {
    && 1 <= n <= maxAttempts
    && WaitedOut(b, cache, e, luck, n)
    && (VerdictAt(b, cache, e, luck, n).Unpriced? ==> n == maxAttempts || luck.cancelled(n))
  }

  /** What one try at a price leaves of the ledger, and what it returns. */
  ghost predicate Returned(b: Book, e: OrderEvent, nav: real, after: Book, err: Option<Verdict>, applied: bool) {
    var (book, verdict) := Project(b, e, nav, MAX_APPLIED_EVENTS);
    after == book && err == (if Succeeds(verdict) then None else Some(verdict)) && applied == verdict.Changed?
  }

  /** Giving up for want of a price takes all attempts exactly when no wait was cancelled. */
  lemma ExhaustedIff(b: Book, cache: map<string, real>, e: OrderEvent, luck: Luck, maxAttempts: nat, n: nat)
    requires EndsAt(b, cache, e, luck, maxAttempts, n) && VerdictAt(b, cache, e, luck, n).Unpriced?
    ensures n < maxAttempts <==> exists k :: 1 <= k < maxAttempts && luck.cancelled(k)
  {
    if n < maxAttempts {
      assert luck.cancelled(n);
    }
  }

  /** The tries can end in one place only. */
  lemma EndsOnce(b: Book, cache: map<string, real>, e: OrderEvent, luck: Luck, maxAttempts: nat, m: nat, n: nat)
    requires EndsAt(b, cache, e, luck, maxAttempts, m) && EndsAt(b, cache, e, luck, maxAttempts, n)
    ensures m == n
  {
  }

  /** The first look for a price finds neither a cache entry nor a feed. */
  predicate Priceless(cache: map<string, real>, e: OrderEvent, luck: Luck) {
    var w := luck.weather(1);
    (w.readFails || e.order.fundId !in cache) && w.feed == None
  }

  /** With no price and the first wait cancelled a valid fill is given up after one try, however many are allowed. */
  lemma GivenUpAfterOne(b: Book, cache: map<string, real>, e: OrderEvent, luck: Luck, maxAttempts: nat)
    requires maxAttempts > 1 && IsFill(e)
    requires Priceless(cache, e, luck) && luck.cancelled(1)
    ensures EndsAt(b, cache, e, luck, maxAttempts, 1) && VerdictAt(b, cache, e, luck, 1) == Unpriced
  {
    PriceIsPositive(e.order.amount, 0.0);
  }

  /** What a processed message promises of its step, given the try that ended it. */
  ghost predicate Processed(c: State, cache: map<string, real>, log: seq<Record>, luck: Luck, maxAttempts: nat,
                            result: Result, step: Step, tries: nat)
  {
    && c.cursor < |log| && Enabled(c, log, step)
    && step == StepFor(result, luck, PriceOf(step))
    && (result.Held? ==> !luck.parkOk) && (result.DeadLettered? ==> luck.parkOk)
    && (log[c.cursor].Parsed? ==>
          && EndsAt(c.book, cache, log[c.cursor].event, luck, maxAttempts, tries)
          && PriceOf(step) == PriceAt(cache, log[c.cursor].event, luck, tries))
  }

  /**
   The comment on the interruptible wait promises that the event is redelivered after a
   restart.  A valid fill whose first wait is cancelled never takes effect, and it is parked
   and acknowledged, instead of being left for redelivery, exactly when the park and the
   commit go through.
   */
  lemma CancelledWaitIsParked(c: State, cache: map<string, real>, log: seq<Record>, luck: Luck, maxAttempts: nat,
                              result: Result, step: Step, tries: nat)
    requires Processed(c, cache, log, luck, maxAttempts, result, step, tries) && c.committed <= c.cursor
    requires log[c.cursor].Parsed? && IsFill(log[c.cursor].event) && maxAttempts > 1
    requires Priceless(cache, log[c.cursor].event, luck) && luck.cancelled(1)
    ensures tries == 1
    ensures var c' := Exec(c, log, step);
            && c'.book == c.book && c'.history == c.history
            && (c.cursor < c'.committed <==> luck.parkOk && luck.commitOk)
            && (c.cursor < c'.committed ==> c.cursor in c'.parked)
  {
    var e := log[c.cursor].event;
    GivenUpAfterOne(c.book, cache, e, luck, maxAttempts);
    EndsOnce(c.book, cache, e, luck, maxAttempts, 1, tries);
    assert Fails(c.book, log[c.cursor], PriceOf(step));
    if step.Park? {
      assert Exec(c, log, step).parked[|c.parked|] == c.cursor;
    }
  }

  /** What the fetch loop meets next. */
  datatype Fetch = Message(luck: Luck) | Rebalanced | FetchFailed

  class OrderEventConsumer {
    const service: PortfolioService
    const maxAttempts: nat
    const retryBackoff: nat
    var cursor: nat
    var committed: nat
    var parked: seq<nat>
    ghost var history: seq<string>

    constructor (service: PortfolioService, maxAttempts: nat, retryBackoff: nat, offset: nat)
      requires maxAttempts >= 1 && service.holdings.Valid()
      ensures this.service == service && this.maxAttempts == maxAttempts && this.retryBackoff == retryBackoff
      ensures Valid() && View() == Start(service.holdings.View(), offset)
    {
      this.service, this.maxAttempts, this.retryBackoff := service, maxAttempts, retryBackoff;
      cursor, committed, parked := offset, offset, [];
      history := service.holdings.appliedOrder;
    }

    ghost predicate Valid()
      reads this, service, service.holdings
    {
      maxAttempts >= 1 && service.holdings.Valid()
    }

    ghost function View(): State
      reads this, service, service.holdings
    {
      State(service.holdings.View(), history, cursor, committed, parked)
    }

    /** One try: what it returns is what the projection makes of the event at this try's price. */
    method Try(e: OrderEvent, luck: Luck, attempt: nat, ghost b: Book, ghost cache: map<string, real>)
      returns (applied: bool, verdict: Verdict)
      requires attempt >= 1 && Valid() && service.holdings.View() == b
          && service.cache == CacheAt(cache, e, luck, attempt)
      modifies service`cache, service`lookups, service.holdings
      ensures Valid()
      ensures verdict == VerdictAt(b, cache, e, luck, attempt)
      ensures Returned(b, e, PriceAt(cache, e, luck, attempt), service.holdings.View(),
                       if Succeeds(verdict) then None else Some(verdict), applied)
      ensures verdict.Unpriced?
          ==> service.holdings.View() == b && service.cache == CacheAt(cache, e, luck, attempt + 1)
    {
      applied, verdict := service.ApplyOrderEvent(e, luck.weather(attempt));
    }

    /**
     Runs the projection until it succeeds, fails for good or runs out of attempts; a
     cancelled wait ends it early with the error it has.  nav is the price of the last try,
     waited counts the waits begun.
     */
    method ApplyWithRetries(e: OrderEvent, luck: Luck)
      returns (applied: bool, attempts: nat, err: Option<Verdict>, ghost nav: real, ghost waited: nat)
      requires Valid()
      modifies service`cache, service`lookups, service.holdings
      ensures Valid()
      ensures EndsAt(old(service.holdings.View()), old(service.cache), e, luck, maxAttempts, attempts)
      ensures nav == PriceAt(old(service.cache), e, luck, attempts)
      ensures Returned(old(service.holdings.View()), e, nav, service.holdings.View(), err, applied)
      ensures waited <= Waited(retryBackoff, maxAttempts - 1)
    {
      var backoff := retryBackoff;
      ghost var b, cache := service.holdings.View(), service.cache;
      waited := 0;
      var attempt := 1;
      var verdict;
      while true
        invariant 1 <= attempt <= maxAttempts && Valid()
        invariant WaitedOut(b, cache, e, luck, attempt)
        invariant service.holdings.View() == b && service.cache == CacheAt(cache, e, luck, attempt)
        invariant backoff == Delay(retryBackoff, attempt - 1) && waited == Waited(retryBackoff, attempt - 1)
        decreases maxAttempts - attempt
      {
        applied, verdict := Try(e, luck, attempt, b, cache);
        WaitedGrows(retryBackoff, attempt - 1, maxAttempts - 1);
        if Succeeds(verdict) {
          break;
        }
        if verdict.Rejected? {
          break;
        }
        if attempt == maxAttempts {
          break;
        }
        WaitedGrows(retryBackoff, attempt, maxAttempts - 1);
        waited := waited + backoff;
        if luck.cancelled(attempt) {
          break;
        }
        WaitedOutNext(b, cache, e, luck, attempt);
        backoff := backoff * 2;
        attempt := attempt + 1;
      }
      nav := PriceAt(cache, e, luck, attempt);
      attempts, err := attempt, if Succeeds(verdict) then None else Some(verdict);
    }

    /** Moves the committed offset past this message, unless the broker refuses. */
    method Commit(offset: nat, ok: bool)
      modifies this`committed
      ensures committed == if ok then offset + 1 else old(committed)
    {
      if ok {
        committed := offset + 1;
      }
    }

    /** Parks the message and only then commits it; a failed park leaves the offset alone. */
    method DeadLetter(offset: nat, reason: Reason, attempts: nat, luck: Luck) returns (result: Result)
      modifies this`parked, this`committed
      ensures result == if luck.parkOk then DeadLettered(reason, attempts) else Held
      ensures parked == if luck.parkOk then old(parked) + [offset] else old(parked)
      ensures committed == if luck.parkOk && luck.commitOk then offset + 1 else old(committed)
    {
      if !luck.parkOk {
        return Held;
      }
      parked := parked + [offset];
      Commit(offset, luck.commitOk);
      result := DeadLettered(reason, attempts);
    }

    /**
     One message, from fetch to commit or park.  It is one step of the delivery system; the
     outcome and the reason of a park are those of the projection at the last price.
     */
    method Process(log: seq<Record>, luck: Luck) returns (result: Result, ghost step: Step, ghost tries: nat)
      requires Valid() && cursor < |log|
      modifies this`cursor, this`committed, this`parked, this`history, service`cache, service`lookups, service.holdings
      ensures Valid()
      ensures Processed(old(View()), old(service.cache), log, luck, maxAttempts, result, step, tries)
      ensures View() == Exec(old(View()), log, step)
      ensures RightReason(result, old(service.holdings.View()), log[old(cursor)], PriceOf(step))
      ensures result.DeadLettered? ==> result.attempts == tries <= maxAttempts
      ensures result.DeadLettered? && result.reason.Exhausted?
              ==> (result.attempts < maxAttempts <==> exists k :: 1 <= k < maxAttempts && luck.cancelled(k))
    {
      var offset := cursor;
      cursor, tries := cursor + 1, 0;
      ghost var nav := 0.0;
      if log[offset].Unparseable? {
        result := DeadLetter(offset, Undecodable, 0, luck);
      } else {
        var e := log[offset].event;
        var applied, attempts, err;
        ghost var waited;
        applied, attempts, err, nav, waited := ApplyWithRetries(e, luck);
        tries := attempts;
        if err.None? {
          if applied {
            history := history + [e.eventId];
          }
          Commit(offset, luck.commitOk);
          result := Succeeded(applied);
        } else {
          FailureLeavesLedger(old(service.holdings.View()), e, nav);
          if err.value.Unpriced? {
            ExhaustedIff(old(service.holdings.View()), old(service.cache), e, luck, maxAttempts, attempts);
          }
          result := DeadLetter(offset, if err.value.Rejected? then Reason.Permanent else Exhausted, attempts, luck);
        }
      }
      step := StepFor(result, luck, nav);
    }

    /** One turn of the fetch loop: a message, a rebalance, or nothing to do. */
    method Turn(log: seq<Record>, fetch: Fetch) returns (ghost step: Option<Step>)
      requires Valid()
      modifies this`cursor, this`committed, this`parked, this`history, service`cache, service`lookups, service.holdings
      ensures Valid()
      ensures step.None? ==> View() == old(View())
      ensures step.Some? ==> Enabled(old(View()), log, step.value) && View() == Exec(old(View()), log, step.value)
      ensures step.Some? && step.value.Hold? ==> fetch.Message? && !fetch.luck.parkOk
    {
      step := None;
      match fetch {
        case Message(luck) =>
          if cursor < |log| {
            ghost var taken;
            var result;
            ghost var tries;
            result, taken, tries := Process(log, luck);
            step := Some(taken);
          }
        case Rebalanced =>
          cursor := committed;
          step := Some(Rebalance);
        case FetchFailed =>
      }
    }

    /**
     The fetch loop over the first turns of its luck.  Whatever it meets, it makes a run of
     the delivery system, so what is proved of every run holds of it.
     */
    method Run(log: seq<Record>, turns: nat, fetches: nat -> Fetch) returns (ghost steps: seq<Step>)
      requires Valid()
      modifies this`cursor, this`committed, this`parked, this`history, service`cache, service`lookups, service.holdings
      ensures Valid()
      ensures Possible(old(View()), log, steps) && View() == After(old(View()), log, steps)
      ensures ParksGoThrough(fetches, turns) ==> ParksSucceed(steps)
    {
      steps := [];
      ghost var start := View();
      var k := 0;
      while k < turns
        invariant 0 <= k <= turns && Valid()
        invariant Possible(start, log, steps) && View() == After(start, log, steps)
        invariant ParksGoThrough(fetches, turns) ==> ParksSucceed(steps)
      {
        ghost var step := Turn(log, fetches(k));
        if step.Some? {
          OneMore(start, log, steps, step.value);
          steps := steps + [step.value];
        }
        k := k + 1;
      }
    }
  }

  /** No dead-letter write fails. */
  ghost predicate ParksGoThrough(fetches: nat -> Fetch, turns: nat) {
    forall k :: 0 <= k < turns && fetches(k).Message? ==> fetches(k).luck.parkOk
  }

  /** The step an outcome amounts to. */
  function StepFor(result: Result, luck: Luck, nav: real): Step {
    match result
    case Succeeded(_) => Settle(nav, luck.commitOk)
    case DeadLettered(_, _) => Park(nav, luck.commitOk)
    case Held => Hold(nav)
  }

  function PriceOf(step: Step): real {
    if step.Rebalance? then 0.0 else step.nav
  }

  /** The outcome says whether the ledger changed, and the reason of a park says why it did not. */
  ghost predicate RightReason(result: Result, before: Book, r: Record, nav: real) {
    match result
    case Held => true
    case Succeeded(applied) => r.Parsed? && applied == Project(before, r.event, nav, MAX_APPLIED_EVENTS).1.Changed?
    case DeadLettered(reason, _) =>
      match reason
      case Undecodable => r.Unparseable?
      case Permanent => r.Parsed? && Project(before, r.event, nav, MAX_APPLIED_EVENTS).1.Rejected?
      case Exhausted => r.Parsed? && Project(before, r.event, nav, MAX_APPLIED_EVENTS).1.Unpriced?
  }

  lemma FailureLeavesLedger(b: Book, e: OrderEvent, nav: real)
    requires !Succeeds(Project(b, e, nav, MAX_APPLIED_EVENTS).1)
    ensures Project(b, e, nav, MAX_APPLIED_EVENTS).0 == b
  {
    OnlyFillsChangeTheLedger(b, e, nav, MAX_APPLIED_EVENTS);
  }

  /** A message changes the ledger at most once, and not at all unless it settles as a fill. */
  lemma ParkedLeavesLedger(s: State, log: seq<Record>, result: Result, luck: Luck, nav: real)
    requires var step := StepFor(result, luck, nav);
             Enabled(s, log, step) && RightReason(result, s.book, log[s.cursor], nav)
    ensures var s' := Exec(s, log, StepFor(result, luck, nav));
            && (s'.book != s.book <==> result == Succeeded(true))
            && s'.history == s.history + if s'.book != s.book then [log[s.cursor].event.eventId] else []
  {
    if result.Succeeded? {
      OnlyFillsChangeTheLedger(s.book, log[s.cursor].event, nav, MAX_APPLIED_EVENTS);
    }
  }
}
