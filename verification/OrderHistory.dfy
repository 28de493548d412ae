/** What the outbox says about one order: the statuses of its rows in id order. */
module OrderHistory {
  import opened Orders
  import opened Outbox

  function History(rows: seq<Row>, id: OrderId): seq<OrderStatus> {
    if rows == [] then []
    else (if rows[0].Aggregate() == id then [rows[0].event.order.status] else []) + History(rows[1..], id)
  }

  lemma {:induction false} HistoryConcat(xs: seq<Row>, ys: seq<Row>, id: OrderId)
    ensures History(xs + ys, id) == History(xs, id) + History(ys, id)
  {
    if xs == [] {
      assert xs + ys == ys;
    } else {
      var first := if xs[0].Aggregate() == id then [xs[0].event.order.status] else [];
      assert History(xs + ys, id) == first + (History(xs[1..], id) + History(ys, id)) by {
        assert (xs + ys)[1..] == xs[1..] + ys;
        HistoryConcat(xs[1..], ys, id);
      }
    }
  }

  lemma {:induction false} HistoryElsewhere(rows: seq<Row>, id: OrderId)
    requires forall i :: 0 <= i < |rows| ==> rows[i].Aggregate() != id
    ensures History(rows, id) == []
  {
    if rows == [] {
    } else {
      HistoryElsewhere(rows[1..], id);
    }
  }

  /** A new row is the last entry of its own order's history and no entry of any other. */
  lemma HistoryInserted(rows: seq<Row>, at: nat, row: Row, id: OrderId)
    requires Insertable(rows, at, row)
    ensures History(Inserted(rows, at, row), id)
         == History(rows, id) + (if row.Aggregate() == id then [row.event.order.status] else [])
  {
    var entry := if row.Aggregate() == id then [row.event.order.status] else [];
    HistoryConcat(rows[..at] + [row], rows[at..], id);
    HistoryConcat(rows[..at], [row], id);
    HistoryConcat(rows[..at], rows[at..], id);
    assert rows[..at] + rows[at..] == rows;
    assert History([row], id) == entry;
    if row.Aggregate() == id {
      HistoryElsewhere(rows[at..], id);
    }
  }

  /** The history depends on the payloads only, so no relay step can change it. */
  lemma {:induction false} HistoryOfPayloads(rows: seq<Row>, rows': seq<Row>, id: OrderId)
    requires |rows| == |rows'|
    requires forall i :: 0 <= i < |rows| ==> rows'[i].event == rows[i].event
    ensures History(rows', id) == History(rows, id)
  {
    if rows == [] {
    } else {
      HistoryOfPayloads(rows[1..], rows'[1..], id);
    }
  }
}
