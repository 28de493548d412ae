/** The order aggregate, its status graph, and the event envelope the outbox carries. */
module Orders {
  import opened Wrappers

  datatype OrderStatus = Pending | Processing | Executed | Failed | Unlisted(text: string)

  type OrderId = string

  datatype Order = Order(
    id: OrderId,
    userId: string,
    fundId: string,
    amount: int,
    kind: string,
    status: OrderStatus,
    key: string)

  const EVENT_ORDER_STATUS_CHANGED := "order.status_changed"
  const ORDER_EVENT_VERSION := 2

  /** The envelope; the payload of an outbox row is fixed when the row is committed. */
  datatype OrderEvent = OrderEvent(eventId: string, eventType: string, version: int, order: Order)

  function StatusChanged(order: Order, eventId: string): OrderEvent {
    OrderEvent(eventId, EVENT_ORDER_STATUS_CHANGED, ORDER_EVENT_VERSION, order)
  }

  /** The legal edges; terminal states only repeat themselves, an unlisted status goes nowhere. */
  predicate CanTransition(current: OrderStatus, next: OrderStatus) {
    match current
    case Pending => next == Processing || next == Failed
    case Processing => next == Executed || next == Failed
    case Executed => next == current
    case Failed => next == current
    case Unlisted(_) => false
  }

  predicate IsTerminal(status: OrderStatus) {
    status == Executed || status == Failed
  }

  function Transition(order: Order, next: OrderStatus): Option<Order> {
    if CanTransition(order.status, next) then Some(order.(status := next)) else None
  }

  /** A sequence of statuses that starts at PENDING and follows legal edges only. */
  ghost predicate LegalWalk(walk: seq<OrderStatus>) {
    && (walk != [] ==> walk[0] == Pending)
    && forall i :: 0 < i < |walk| ==> CanTransition(walk[i - 1], walk[i])
  }

  lemma WalkExtends(walk: seq<OrderStatus>, next: OrderStatus)
    requires LegalWalk(walk) && walk != [] && CanTransition(walk[|walk| - 1], next)
    ensures LegalWalk(walk + [next])
  {
  }

  /** Once a legal walk is in a terminal status it never leaves it. */
  lemma {:induction false} TerminalIsForever(walk: seq<OrderStatus>, i: nat, j: nat)
    requires LegalWalk(walk) && i <= j < |walk| && IsTerminal(walk[i])
    ensures walk[j] == walk[i]
    decreases j - i
  {
    if i < j {
      TerminalIsForever(walk, i, j - 1);
      assert CanTransition(walk[j - 1], walk[j]);
    }
  }

  /** An execution is the third entry of the history at the earliest, behind PENDING and PROCESSING and nothing else. */
  lemma ExecutionPath(walk: seq<OrderStatus>, j: nat)
    requires LegalWalk(walk) && j < |walk| && walk[j] == Executed
    ensures j >= 2 && walk[0] == Pending && walk[1] == Processing
    ensures forall k :: 2 <= k < |walk| ==> walk[k] == Executed
  {
    if walk[1] == Failed {
      TerminalIsForever(walk, 1, j);
    }
    assert CanTransition(walk[0], walk[1]) && CanTransition(walk[1], walk[2]);
    if walk[2] == Failed {
      TerminalIsForever(walk, 2, j);
    }
    forall k | 2 <= k < |walk| ensures walk[k] == Executed {
      TerminalIsForever(walk, 2, k);
    }
  }
}
