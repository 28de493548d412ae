/**
 The ledger over whole delivery sequences: when the bounded dedup window is as good as an
 unbounded one, that no event then takes effect twice, and that the books balance.
 */
module Window {
  import opened Wrappers
  import opened Position
  import opened Ledger

  /** The ledger after some deliveries, and what each of them came to. */
  function Delivered(b: Book, ms: seq<Movement>, cap: nat): (r: (Book, seq<Outcome>))
    ensures |r.1| == |ms|
  {
    if ms == [] then (b, [])
    else
      var (before, outcomes) := Delivered(b, ms[..|ms| - 1], cap);
      var (after, outcome) := ApplyTo(before, ms[|ms| - 1], cap);
      (after, outcomes + [outcome])
  }

  /** The same with a dedup set that never forgets. */
  function Remembered(b: Book, ms: seq<Movement>): (r: (Book, seq<Outcome>))
    ensures |r.1| == |ms|
  {
    if ms == [] then (b, [])
    else
      var (before, outcomes) := Remembered(b, ms[..|ms| - 1]);
      var (after, outcome) := ApplyTo(before, ms[|ms| - 1], |before.order| + 1);
      (after, outcomes + [outcome])
  }

  // ----- the window -----

  /** An id that was ever applied is still in the window. */
  predicate StillKnown(order: seq<string>, id: string, cap: nat) {
    id in order ==> id in Recent(order, cap)
  }

  /** The n-th delivery's event, if it was ever applied, is still in the window when it comes. */
  ghost predicate KnownAt(b: Book, ms: seq<Movement>, cap: nat, n: nat)
    requires n < |ms|
  {
    StillKnown(Remembered(b, ms[..n]).0.order, ms[n].eventId, cap)
  }

  /** Every redelivery of an applied event comes while the window still knows it. */
  ghost predicate WindowKept(b: Book, ms: seq<Movement>, cap: nat) {
    forall n :: 0 <= n < |ms| ==> KnownAt(b, ms, cap, n)
  }

  /** The j-th applied id is known exactly while fewer than cap further applies have succeeded. */
  lemma KnownIff(order: seq<string>, j: nat, cap: nat)
    requires NoRepeats(order) && j < |order|
    ensures order[j] in Recent(order, cap) <==> |order| - 1 - j < cap
  {
    var recent := Recent(order, cap);
    if |order| > cap {
      var start := |order| - cap;
      assert forall k :: 0 <= k < |recent| ==> recent[k] == order[start + k];
      if j >= start {
        assert recent[j - start] == order[j];
      }
    }
  }

  lemma RecentAppend(order: seq<string>, id: string, cap: nat)
    ensures Recent(Recent(order, cap) + [id], cap) == Recent(order + [id], cap)
  {
    if |order| > cap {
      assert order + [id] == order[..|order| - cap] + (order[|order| - cap..] + [id]);
    }
  }

  /** The bounded ledger holds the same positions and the recent end of the same order list. */
  ghost predicate InStep(bounded: Book, full: Book, cap: nat) {
    bounded.byUser == full.byUser && bounded.order == Recent(full.order, cap)
  }

  /** One delivery comes to the same on both sides exactly when the window still knows the id. */
  lemma SameOutcomeIff(bounded: Book, full: Book, m: Movement, cap: nat)
    requires InStep(bounded, full, cap)
    ensures var (b', o) := ApplyTo(bounded, m, cap);
            var (f', p) := ApplyTo(full, m, |full.order| + 1);
            && (o == p <==> StillKnown(full.order, m.eventId, cap))
            && (o == p ==> InStep(b', f', cap))
  {
    RecentAppend(full.order, m.eventId, cap);
    assert m.eventId in bounded.order ==> m.eventId in full.order;
  }

  lemma {:induction false} OutcomesPrefix(b: Book, ms: seq<Movement>, n: nat, cap: nat)
    requires n <= |ms|
    ensures Delivered(b, ms, cap).1[..n] == Delivered(b, ms[..n], cap).1
    ensures Remembered(b, ms).1[..n] == Remembered(b, ms[..n]).1
    decreases |ms|
  {
    if n < |ms| {
      var front := ms[..|ms| - 1];
      OutcomesPrefix(b, front, n, cap);
      assert front[..n] == ms[..n];
      assert Delivered(b, ms, cap).1[..n] == Delivered(b, front, cap).1[..n];
      assert Remembered(b, ms).1[..n] == Remembered(b, front).1[..n];
    } else {
      assert ms[..n] == ms;
    }
  }

  lemma WindowKeptFront(b: Book, ms: seq<Movement>, cap: nat)
    requires ms != []
    ensures WindowKept(b, ms, cap) <==> WindowKept(b, ms[..|ms| - 1], cap) && KnownAt(b, ms, cap, |ms| - 1)
  {
    var front := ms[..|ms| - 1];
    forall n | 0 <= n < |front| ensures KnownAt(b, front, cap, n) <==> KnownAt(b, ms, cap, n) {
      assert front[..n] == ms[..n];
    }
  }

  /**
   From any ledger and on every delivery sequence the bounded ledger gives the same results as
   the unbounded one exactly when each redelivery comes within the window; and then it holds
   the same positions.
   */
  lemma {:induction false} WindowRefinesSet(b: Book, ms: seq<Movement>, cap: nat)
    requires |b.order| <= cap
    ensures Delivered(b, ms, cap).1 == Remembered(b, ms).1 <==> WindowKept(b, ms, cap)
    ensures WindowKept(b, ms, cap) ==> InStep(Delivered(b, ms, cap).0, Remembered(b, ms).0, cap)
  {
    if ms == [] {
    } else {
      var front, last := ms[..|ms| - 1], ms[|ms| - 1];
      var (bounded, os) := Delivered(b, front, cap);
      var (full, ps) := Remembered(b, front);
      WindowRefinesSet(b, front, cap);
      WindowKeptFront(b, ms, cap);
      if os == ps {
        SameOutcomeIff(bounded, full, last, cap);
        var (o, p) := (ApplyTo(bounded, last, cap).1, ApplyTo(full, last, |full.order| + 1).1);
        assert (os + [o] == ps + [p]) <==> o == p by {
          assert (os + [o])[|os|] == o && (ps + [p])[|ps|] == p;
        }
      } else {
        assert Delivered(b, ms, cap).1[..|front|] == os && Remembered(b, ms).1[..|front|] == ps;
      }
    }
  }

  // ----- the window in numbers -----

  /** How many of the deliveries lo..hi took effect. */
  function AppliedIn(outcomes: seq<Outcome>, lo: nat, hi: nat): nat
    requires lo <= hi <= |outcomes|
  {
    if lo == hi then 0
    else AppliedIn(outcomes, lo, hi - 1) + (if outcomes[hi - 1].Applied? then 1 else 0)
  }

  lemma {:induction false} AppliedFrom(outcomes: seq<Outcome>, lo: nat, hi: nat)
    requires lo < hi <= |outcomes|
    ensures AppliedIn(outcomes, lo, hi) == (if outcomes[lo].Applied? then 1 else 0) + AppliedIn(outcomes, lo + 1, hi)
    decreases hi
  {
    if hi != lo + 1 {
      AppliedFrom(outcomes, lo, hi - 1);
    }
  }

  lemma {:induction false} AppliedSplit(outcomes: seq<Outcome>, mid: nat, hi: nat)
    requires mid <= hi <= |outcomes|
    ensures AppliedIn(outcomes, 0, hi) == AppliedIn(outcomes, 0, mid) + AppliedIn(outcomes, mid, hi)
    decreases hi
  {
    if hi != mid {
      AppliedSplit(outcomes, mid, hi - 1);
    }
  }

  lemma RememberedNext(b: Book, ms: seq<Movement>, n: nat)
    requires n < |ms|
    ensures var (before, outcome) := (Remembered(b, ms[..n]).0, Remembered(b, ms).1[n]);
            Remembered(b, ms[..n + 1]).0.order
            == if outcome.Applied? then before.order + [ms[n].eventId] else before.order
    ensures Remembered(b, ms).1[n].Applied? ==> ms[n].eventId !in Remembered(b, ms[..n]).0.order
  {
    OutcomesPrefix(b, ms, n + 1, 0);
    assert ms[..n + 1][..n] == ms[..n] && ms[..n + 1][n] == ms[n];
    var before := Remembered(b, ms[..n]).0;
    assert Remembered(b, ms).1[..n + 1][n] == Remembered(b, ms).1[n];
    assert Remembered(b, ms[..n + 1]).1[n] == ApplyTo(before, ms[n], |before.order| + 1).1;
  }

  /** Every id a ledger that forgets nothing has in its list took effect. */
  lemma {:induction false} OrderIsEffective(b: Book, ms: seq<Movement>, n: nat, id: string)
    requires b.order == [] && n <= |ms| && id in Remembered(b, ms[..n]).0.order
    ensures exists i :: 0 <= i < n && Remembered(b, ms).1[i].Applied? && ms[i].eventId == id
    decreases n
  {
    assert ms[..0] == [];
    if n == 0 {
    } else {
      RememberedNext(b, ms, n - 1);
      if id in Remembered(b, ms[..n - 1]).0.order {
        OrderIsEffective(b, ms, n - 1, id);
        var i :| 0 <= i < n - 1 && Remembered(b, ms).1[i].Applied? && ms[i].eventId == id;
      } else {
        assert Remembered(b, ms).1[n - 1].Applied? && ms[n - 1].eventId == id;
      }
    }
  }

  /** The ids that took effect, in the order they did, each once. */
  ghost predicate Listed(order: seq<string>, ms: seq<Movement>, outcomes: seq<Outcome>, n: nat)
    requires n <= |ms| == |outcomes|
  {
    && NoRepeats(order) && |order| == AppliedIn(outcomes, 0, n)
    && forall i :: 0 <= i < n && outcomes[i].Applied?
                   ==> AppliedIn(outcomes, 0, i) < |order| && order[AppliedIn(outcomes, 0, i)] == ms[i].eventId
  }

  /** Such is the order list of a ledger that forgets nothing. */
  lemma {:induction false} OrderCounts(b: Book, ms: seq<Movement>, n: nat)
    requires b.order == [] && n <= |ms|
    ensures Listed(Remembered(b, ms[..n]).0.order, ms, Remembered(b, ms).1, n)
    decreases n
  {
    if n == 0 {
      assert ms[..0] == [];
    } else {
      OrderCounts(b, ms, n - 1);
      RememberedNext(b, ms, n - 1);
      ListedNext(Remembered(b, ms[..n - 1]).0.order, ms, Remembered(b, ms).1, n - 1);
    }
  }

  lemma ListedNext(order: seq<string>, ms: seq<Movement>, outcomes: seq<Outcome>, n: nat)
    requires n < |ms| == |outcomes| && Listed(order, ms, outcomes, n)
    requires outcomes[n].Applied? ==> ms[n].eventId !in order
    ensures Listed(if outcomes[n].Applied? then order + [ms[n].eventId] else order, ms, outcomes, n + 1)
  {
  }

  /** An applied delivery is still known later on exactly while fewer than cap others have taken effect since. */
  lemma KnownWhile(b: Book, ms: seq<Movement>, cap: nat, i: nat, n: nat)
    requires b.order == [] && i < n <= |ms| && Remembered(b, ms).1[i].Applied?
    ensures var order := Remembered(b, ms[..n]).0.order;
            && ms[i].eventId in order
            && (ms[i].eventId in Recent(order, cap) <==> AppliedIn(Remembered(b, ms).1, i + 1, n) < cap)
  {
    var (order, outcomes) := (Remembered(b, ms[..n]).0.order, Remembered(b, ms).1);
    OrderCounts(b, ms, n);
    AppliedSplit(outcomes, i, n);
    AppliedFrom(outcomes, i, n);
    KnownIff(order, AppliedIn(outcomes, 0, i), cap);
  }

  /** Fewer than cap events have taken effect between each earlier effect of the n-th delivery's event and it. */
  ghost predicate Timely(ms: seq<Movement>, outcomes: seq<Outcome>, cap: nat, n: int)
    requires |ms| == |outcomes| && 0 <= n < |ms|
  {
    forall i :: 0 <= i < n && outcomes[i].Applied? && ms[i].eventId == ms[n].eventId
        ==> AppliedIn(outcomes, i + 1, n) < cap
  }

  ghost predicate AllTimely(ms: seq<Movement>, outcomes: seq<Outcome>, cap: nat)
    requires |ms| == |outcomes|
  {
    forall n :: 0 <= n < |ms| ==> Timely(ms, outcomes, cap, n)
  }

  lemma KnownIfTimely(b: Book, ms: seq<Movement>, cap: nat, n: nat)
    requires b.order == [] && n < |ms|
    ensures KnownAt(b, ms, cap, n) <==> Timely(ms, Remembered(b, ms).1, cap, n)
  {
    var (order, outcomes) := (Remembered(b, ms[..n]).0.order, Remembered(b, ms).1);
    forall i | 0 <= i < n && outcomes[i].Applied? && ms[i].eventId == ms[n].eventId
      ensures ms[n].eventId in order
      ensures ms[n].eventId in Recent(order, cap) <==> AppliedIn(outcomes, i + 1, n) < cap
    {
      KnownWhile(b, ms, cap, i, n);
    }
    if ms[n].eventId in order {
      OrderIsEffective(b, ms, n, ms[n].eventId);
      var i :| 0 <= i < n && outcomes[i].Applied? && ms[i].eventId == ms[n].eventId;
      assert ms[n].eventId in Recent(order, cap) <==> AppliedIn(outcomes, i + 1, n) < cap;
    }
  }

  /**
   The window is kept exactly when every redelivery of an event that took effect comes before
   cap others have taken effect since.
   */
  lemma WindowKeptIff(b: Book, ms: seq<Movement>, cap: nat)
    requires b.order == []
    ensures WindowKept(b, ms, cap) <==> AllTimely(ms, Remembered(b, ms).1, cap)
  {
    var outcomes := Remembered(b, ms).1;
    forall n | 0 <= n < |ms| ensures KnownAt(b, ms, cap, n) <==> Timely(ms, outcomes, cap, n) {
      KnownIfTimely(b, ms, cap, n);
    }
  }

  // ----- at most once -----

  lemma {:induction false} NeverForgotten(b: Book, ms: seq<Movement>, i: nat, n: nat)
    requires i < n <= |ms| && Remembered(b, ms).1[i].Applied?
    ensures ms[i].eventId in Remembered(b, ms[..n]).0.order
    decreases n
  {
    RememberedNext(b, ms, n - 1);
    if i < n - 1 {
      NeverForgotten(b, ms, i, n - 1);
    }
  }

  /** An unbounded ledger applies no event id twice. */
  lemma SetAppliesOnce(b: Book, ms: seq<Movement>, i: nat, j: nat)
    requires i < j < |ms| && Remembered(b, ms).1[i].Applied? && Remembered(b, ms).1[j].Applied?
    ensures ms[i].eventId != ms[j].eventId
  {
    NeverForgotten(b, ms, i, j);
    RememberedNext(b, ms, j);
  }

  /** So within the window no event changes the ledger more than once, however often it is delivered. */
  lemma AtMostOnce(b: Book, ms: seq<Movement>, cap: nat, i: nat, j: nat)
    requires |b.order| <= cap && WindowKept(b, ms, cap)
    requires i < j < |ms| && Delivered(b, ms, cap).1[i].Applied? && Delivered(b, ms, cap).1[j].Applied?
    ensures ms[i].eventId != ms[j].eventId
  {
    WindowRefinesSet(b, ms, cap);
    SetAppliesOnce(b, ms, i, j);
  }

  // ----- outside the window -----

  function Tag(n: nat): string {
    seq(n, i requires 0 <= i < n => 'x')
  }

  function Tags(n: nat): seq<string> {
    seq(n, i requires 0 <= i < n => Tag(i))
  }

  /** The n-th of a stream of buys with ids of their own. */
  function NthBuy(n: nat): Movement {
    Movement(Tag(n), "user-1", "fund-1", BUY, 1.0, 100)
  }

  function Buys(n: nat): seq<Movement> {
    seq(n, i requires 0 <= i < n => NthBuy(i))
  }

  /** Tags are told apart by their length. */
  lemma TagsOnwards(n: nat, cap: nat, i: nat)
    requires i < |Recent(Tags(n), cap)|
    ensures |Recent(Tags(n), cap)[i]| == if n <= cap then i else n - cap + i
  {
  }

  lemma NewTag(n: nat, cap: nat)
    ensures Tag(n) !in Recent(Tags(n), cap)
  {
    var recent := Recent(Tags(n), cap);
    if Tag(n) in recent {
      var i :| 0 <= i < |recent| && recent[i] == Tag(n);
      TagsOnwards(n, cap, i);
    }
  }

  lemma FirstTagForgotten(cap: nat)
    ensures Tag(0) !in Recent(Tags(cap + 1), cap)
  {
    var recent := Recent(Tags(cap + 1), cap);
    if Tag(0) in recent {
      var i :| 0 <= i < |recent| && recent[i] == Tag(0);
      TagsOnwards(cap + 1, cap, i);
    }
  }

  lemma NewBuyApplies(b: Book, m: Movement, cap: nat)
    requires m.side.BUY? && m.eventId !in b.order
    ensures ApplyTo(b, m, cap).1.Applied? && ApplyTo(b, m, cap).0.order == Recent(b.order + [m.eventId], cap)
  {
  }

  lemma BuysNext(n: nat)
    ensures Buys(n + 1) == Buys(n) + [NthBuy(n)] && Tags(n + 1) == Tags(n) + [Tag(n)]
  {
  }

  lemma DeliveredNext(b: Book, ms: seq<Movement>, m: Movement, cap: nat)
    ensures var (before, outcomes) := Delivered(b, ms, cap);
            var (after, outcome) := ApplyTo(before, m, cap);
            Delivered(b, ms + [m], cap) == (after, outcomes + [outcome])
  {
    assert (ms + [m])[..|ms|] == ms;
  }

  ghost predicate AllApply(b: Book, ms: seq<Movement>, tags: seq<string>, cap: nat) {
    && Delivered(b, ms, cap).0.order == Recent(tags, cap)
    && forall i :: 0 <= i < |ms| ==> Delivered(b, ms, cap).1[i].Applied?
  }

  lemma OneBuyMore(b: Book, ms: seq<Movement>, tags: seq<string>, m: Movement, cap: nat)
    requires AllApply(b, ms, tags, cap) && m.side.BUY? && m.eventId !in Recent(tags, cap)
    ensures AllApply(b, ms + [m], tags + [m.eventId], cap)
  {
    DeliveredNext(b, ms, m, cap);
    NewBuyApplies(Delivered(b, ms, cap).0, m, cap);
    RecentAppend(tags, m.eventId, cap);
  }

  lemma {:induction false} BuysApply(b: Book, n: nat, cap: nat)
    requires b.order == []
    ensures AllApply(b, Buys(n), Tags(n), cap)
  {
    if n == 0 {
    } else {
      BuysApply(b, n - 1, cap);
      BuysNext(n - 1);
      NewTag(n - 1, cap);
      OneBuyMore(b, Buys(n - 1), Tags(n - 1), NthBuy(n - 1), cap);
    }
  }

  /** Whatever the bound, that many further buys make a redelivery of the first take effect again. */
  lemma ForgottenAppliesTwice(b: Book, cap: nat)
    requires b.order == []
    ensures var ms := Buys(cap + 1) + [NthBuy(0)];
            var outcomes := Delivered(b, ms, cap).1;
            ms[0] == ms[cap + 1] && outcomes[0].Applied? && outcomes[cap + 1].Applied?
  {
    BuysApply(b, cap + 1, cap);
    FirstTagForgotten(cap);
    DeliveredNext(b, Buys(cap + 1), NthBuy(0), cap);
    NewBuyApplies(Delivered(b, Buys(cap + 1), cap).0, NthBuy(0), cap);
  }

  // ----- the books -----

  predicate Names(m: Movement, userId: string, fundId: string) {
    m.userId == userId && m.fundId == fundId
  }

  /** What stood on the position at the start, entered as paid and bought. */
  function Opening(p: Option<Holding>): Account {
    Account(p, Totals(CostHeld(p), 0, UnitsHeld(p), 0.0, 0))
  }

  /** The account of one position: every movement on it that took effect, booked in turn. */
  function AccountOf(b: Book, ms: seq<Movement>, cap: nat, userId: string, fundId: string): Account {
    if ms == [] then Opening(PositionOf(b.byUser, userId, fundId))
    else
      var front, last := ms[..|ms| - 1], ms[|ms| - 1];
      var account := AccountOf(b, front, cap, userId, fundId);
      if ApplyTo(Delivered(b, front, cap).0, last, cap).1.Applied? && Names(last, userId, fundId)
      then Booked(account, fundId, FundName(fundId), MoveOf(last))
      else account
  }

  /** The amounts of the buys on one position that took effect. */
  function PaidIn(ms: seq<Movement>, outcomes: seq<Outcome>, userId: string, fundId: string): int
    requires |ms| == |outcomes|
  {
    if ms == [] then 0
    else
      var n := |ms| - 1;
      PaidIn(ms[..n], outcomes[..n], userId, fundId)
      + (if outcomes[n].Applied? && ms[n].side.BUY? && Names(ms[n], userId, fundId) then ms[n].amount else 0)
  }

  lemma {:induction false} DeliveredSound(b: Book, ms: seq<Movement>, cap: nat)
    requires Sound(b, cap) && forall i :: 0 <= i < |ms| ==> PositiveMovement(ms[i])
    ensures Sound(Delivered(b, ms, cap).0, cap)
  {
    if ms == [] {
    } else {
      DeliveredSound(b, ms[..|ms| - 1], cap);
      ApplyKeepsSound(Delivered(b, ms[..|ms| - 1], cap).0, ms[|ms| - 1], cap);
    }
  }

  /** One delivery, seen from one position. */
  lemma OneDelivery(b: Book, m: Movement, cap: nat, account: Account, userId: string, fundId: string)
    requires Sound(b, cap) && PositiveMovement(m) && Balanced(account)
    requires account.holding == PositionOf(b.byUser, userId, fundId)
    ensures var (b', outcome) := ApplyTo(b, m, cap);
            var account' := if outcome.Applied? && Names(m, userId, fundId)
                            then Booked(account, fundId, FundName(fundId), MoveOf(m)) else account;
            && account'.holding == PositionOf(b'.byUser, userId, fundId)
            && Balanced(account')
            && account'.totals.paid == account.totals.paid
               + (if outcome.Applied? && m.side.BUY? && Names(m, userId, fundId) then m.amount else 0)
  {
    if ApplyTo(b, m, cap).1.Applied? {
      MoveIsLocal(b.byUser, m, userId, fundId);
      if Names(m, userId, fundId) {
        MoveBalances(account, fundId, FundName(fundId), MoveOf(m));
      }
    }
  }

  /**
   The books of every position balance after any deliveries: what stood there at the start
   plus the amounts of the buys that took effect is what is held plus what was released.
   */
  lemma LedgerBalances(b: Book, ms: seq<Movement>, cap: nat, userId: string, fundId: string)
    requires Sound(b, cap) && forall i :: 0 <= i < |ms| ==> PositiveMovement(ms[i])
    ensures var (after, outcomes) := Delivered(b, ms, cap);
            var account := AccountOf(b, ms, cap, userId, fundId);
            && account.holding == PositionOf(after.byUser, userId, fundId)
            && Balanced(account)
            && CostHeld(PositionOf(b.byUser, userId, fundId)) + PaidIn(ms, outcomes, userId, fundId)
               == CostHeld(PositionOf(after.byUser, userId, fundId)) + account.totals.released
  {
    BooksOf(b, ms, cap, userId, fundId);
  }

  lemma {:induction false} BooksOf(b: Book, ms: seq<Movement>, cap: nat, userId: string, fundId: string)
    requires Sound(b, cap) && forall i :: 0 <= i < |ms| ==> PositiveMovement(ms[i])
    ensures var (after, outcomes) := Delivered(b, ms, cap);
            var account := AccountOf(b, ms, cap, userId, fundId);
            && account.holding == PositionOf(after.byUser, userId, fundId)
            && Balanced(account)
            && account.totals.paid
               == CostHeld(PositionOf(b.byUser, userId, fundId)) + PaidIn(ms, outcomes, userId, fundId)
  {
    if ms == [] {
      assert Balanced(Opening(PositionOf(b.byUser, userId, fundId))) by {
        assert userId in b.byUser ==> SoundHoldings(b.byUser[userId]);
      }
    } else {
      var front, last := ms[..|ms| - 1], ms[|ms| - 1];
      BooksOf(b, front, cap, userId, fundId);
      DeliveredSound(b, front, cap);
      var (before, outcomes) := Delivered(b, front, cap);
      OneDelivery(before, last, cap, AccountOf(b, front, cap, userId, fundId), userId, fundId);
      var outcome := ApplyTo(before, last, cap).1;
      assert Delivered(b, ms, cap).1 == outcomes + [outcome];
      assert (outcomes + [outcome])[..|front|] == outcomes;
    }
  }
}
