/** The stores the order service mutates: its Postgres tables and the broker's log. */
module Database {
  import opened Wrappers
  import opened Orders
  import opened Outbox

  class Tables {
    var orders: map<OrderId, Order>
    var outbox: seq<Row>

    constructor ()
      ensures orders == map[] && outbox == []
    {
      orders, outbox := map[], [];
    }
  }

  /** The order_events topic; the answer to each publish is the broker's to give. */
  class Broker {
    var log: seq<Message>

    constructor ()
      ensures log == []
    {
      log := [];
    }

    method PublishOutbox(msg: Row, answer: Answer) returns (err: Option<string>)
      modifies this
      ensures log == old(log) + (if answer.Acked? || answer.appended then [msg.Record()] else [])
      ensures err == if answer.Acked? then None else Some(answer.cause)
    {
      if answer.Acked? {
        log := log + [msg.Record()];
        return None;
      }
      if answer.appended {
        log := log + [msg.Record()];
      }
      err := Some(answer.cause);
    }
  }
}
