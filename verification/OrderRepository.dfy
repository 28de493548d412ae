/**
 The order table's adapter.  Each method is one transaction: the order row and its outbox
 row change together or not at all.
 */
module OrderRepository {
  import opened Wrappers
  import opened Orders
  import opened Outbox
  import opened Database
  import OrderSystem

  datatype RepoError = Duplicate | InvalidTransition | NotFound | Storage(cause: string)

  /** Where a transaction breaks, if it does: at the order row, at the event, or at the commit. */
  datatype Fault = NoFault | AtOrder | AtEvent | AtCommit

  class Repository {
    const db: Tables

    constructor (db: Tables)
      ensures this.db == db
    {
      this.db := db;
    }

    method KeyExists(key: string) returns (found: bool)
      ensures found <==> OrderSystem.KeyTaken(db.orders, key)
    {
      found := OrderSystem.KeyTaken(db.orders, key);
    }

    /**
     Inserts the order under its fresh id, then its event, in one transaction.  The unique
     index on the idempotency key has the last word.
     */
    method CreateWithOutbox(order: Order, t: OrderSystem.Ticket, fault: Fault) returns (r: Result<Order, RepoError>)
      requires OrderSystem.Ticketed(db.outbox, order, t)
      modifies db
      ensures r.Err? ==> db.orders == old(db.orders) && db.outbox == old(db.outbox)
      ensures r.Ok? <==> fault == NoFault && !OrderSystem.KeyTaken(old(db.orders), order.key)
      ensures OrderSystem.KeyTaken(old(db.orders), order.key) && fault != AtOrder ==> r == Err(Duplicate)
      ensures r.Ok? ==> r.value == order
                        && db.orders == old(db.orders)[order.id := order]
                        && db.outbox == Inserted(old(db.outbox), t.at, OrderSystem.NewRow(order, t))
    {
      if fault == AtOrder {
        return Err(Storage("insert order"));
      }
      var taken := KeyExists(order.key);
      if taken {
        return Err(Duplicate);
      }
      var orders := db.orders[order.id := order];
      if fault == AtEvent {
        return Err(Storage("insert outbox row"));
      }
      var outbox := Inserted(db.outbox, t.at, OrderSystem.NewRow(order, t));
      if fault == AtCommit {
        return Err(Storage("commit"));
      }
      db.orders, db.outbox := orders, outbox;
      r := Ok(order);
    }

    method GetByID(id: OrderId, down: bool) returns (r: Result<Order, RepoError>)
      ensures r == if down then Err(Storage("select order"))
                   else if id in db.orders then Ok(db.orders[id]) else Err(NotFound)
    {
      if down {
        return Err(Storage("select order"));
      }
      if id !in db.orders {
        return Err(NotFound);
      }
      r := Ok(db.orders[id]);
    }

    /**
     The compare-and-set and its event in one transaction.  The event carries the row as it
     is after the update, not the caller's copy.
     */
    method UpdateStatusWithOutbox(id: OrderId, expected: OrderStatus, next: OrderStatus, t: OrderSystem.Ticket,
                                  fault: Fault)
      returns (r: Result<Order, RepoError>)
      requires id in db.orders ==>
                 db.orders[id].id == id
                 && OrderSystem.Ticketed(db.outbox, db.orders[id].(status := next), t)
      modifies db
      ensures r.Err? ==> db.orders == old(db.orders) && db.outbox == old(db.outbox)
      ensures r.Ok? <==> fault == NoFault && OrderSystem.Matches(old(db.orders), id, expected)
      ensures !OrderSystem.Matches(old(db.orders), id, expected) && fault != AtOrder ==> r == Err(InvalidTransition)
      ensures r.Ok? ==> var updated := old(db.orders)[id].(status := next);
                        && r.value == updated
                        && db.orders == old(db.orders)[id := updated]
                        && db.outbox == Inserted(old(db.outbox), t.at, OrderSystem.NewRow(updated, t))
    {
      if fault == AtOrder {
        return Err(Storage("update order"));
      }
      if !OrderSystem.Matches(db.orders, id, expected) {
        return Err(InvalidTransition);
      }
      var orders := db.orders[id := db.orders[id].(status := next)];
      var updated := orders[id];
      if fault == AtEvent {
        return Err(Storage("insert outbox row"));
      }
      var outbox := Inserted(db.outbox, t.at, OrderSystem.NewRow(updated, t));
      if fault == AtCommit {
        return Err(Storage("commit"));
      }
      db.orders, db.outbox := orders, outbox;
      r := Ok(updated);
    }

    /** Deletes whatever status the order has by now; its events stay in the outbox. */
    method Delete(id: OrderId, down: bool) returns (err: Option<RepoError>)
      modifies db`orders
      ensures db.orders == if down then old(db.orders) else old(db.orders) - {id}
      ensures err == if down then Some(Storage("delete order"))
                     else if id in old(db.orders) then None else Some(NotFound)
    {
      if down {
        return Some(Storage("delete order"));
      }
      if id !in db.orders {
        assert db.orders - {id} == db.orders;
        return Some(NotFound);
      }
      db.orders := db.orders - {id};
      err := None;
    }
  }

  /** The abstract state the tables stand for, among the given reservations, actors and trail. */
  function StateOf(orders: map<OrderId, Order>, rows: seq<Row>, rest: OrderSystem.State): OrderSystem.State {
    rest.(orders := orders, rows := rows)
  }

  /** A successful compare-and-set with a legal edge is a write step, so it keeps the exact history. */
  lemma UpdateKeepsHistory(s: OrderSystem.State, id: OrderId, expected: OrderStatus, next: OrderStatus,
                           t: OrderSystem.Ticket)
    requires OrderSystem.Inv(s) && CanTransition(expected, next)
    requires OrderSystem.CanWrite(s, id, expected, next, t)
    ensures var updated := s.orders[id].(status := next);
            OrderSystem.Inv(StateOf(s.orders[id := updated], Inserted(s.rows, t.at, OrderSystem.NewRow(updated, t)), s))
  {
    OrderSystem.UpdateKeeps(s, id, next, t, s.actors);
  }
}
