/**
 The order store (src/backend/api/repositories/order_repository.py). An order
 is OPEN, CLOSED (closed_at set) or DELETED (deleted_at set); lookups see
 non-deleted orders only.
 */
module OrderRepository {

  import opened Wrappers
  import opened Errors
  import opened Text
  import opened Constants
  import opened Validations
  import opened Records

  /** What `get_order_by_id` yields: the order with its active line items prefetched. */
  datatype OrderSnapshot = OrderSnapshot(order: Order, lines: seq<Id>)

  /** Only the order table changes, by one record appended at the end. */
  predicate AppendedOrder(db: Db, db': Db, id: Id)
  {
    && db'.products == db.products
    && db'.entries == db.entries
    && id == |db.orders|
    && |db'.orders| == |db.orders| + 1
    && db'.orders[..id] == db.orders
  }

  /** Only order `id` changes, and it becomes `o`. */
  predicate OrderWritten(db: Db, db': Db, id: Id, o: Order)
  {
    && id < |db.orders|
    && db'.products == db.products
    && db'.entries == db.entries
    && db'.orders == db.orders[id := o]
  }

  /**
   `create_order`: a new order with the payload's client and total, neither
   closed nor deleted nor updated.
   */
  function Create(db: Db, externalClient: Option<string>, totalPrice: Option<int>): (r: (Db, Id))
    ensures AppendedOrder(db, r.0, r.1)
    ensures r.0.orders[r.1] == Order(externalClient, totalPrice, false, false, false)
    ensures StateOf(r.0.orders[r.1]) == Open
  {
    (db.(orders := db.orders + [Order(externalClient, totalPrice, false, false, false)]), |db.orders|)
  }

  /** `delete_order`: sets the deletion mark and nothing else. */
  function Delete(db: Db, id: Id): (db': Db)
    requires id < |db.orders|
    ensures OrderWritten(db, db', id, db.orders[id].(deleted := true))
    ensures StateOf(db'.orders[id]) == Deleted
  {
    db.(orders := db.orders[id := db.orders[id].(deleted := true)])
  }

  /** The positions of the active line items of order `o`, in increasing order. */
  function ActiveEntriesOf(es: seq<ProductQuantity>, o: Id): (r: seq<Id>)
    ensures forall k :: k in r <==> ActiveEntryOf(es, k, o)
    ensures forall i, j :: 0 <= i < j < |r| ==> r[i] < r[j]
  {
    if |es| == 0 then []
    else
      var last := |es| - 1;
      var prefix := ActiveEntriesOf(es[..last], o);
      assert forall k :: 0 <= k < last ==> es[..last][k] == es[k];
      assert forall i :: 0 <= i < |prefix| ==> prefix[i] in prefix;
      assert forall i :: 0 <= i < |prefix| ==> prefix[i] < last;
      if ActiveEntryOf(es, last, o) then prefix + [last] else prefix
  }

  /**
   `get_order_by_id(id).first()`: nothing for a missing or deleted order;
   otherwise the order with exactly its active line items attached.
   */
  function GetById(db: Db, id: Id): (r: Option<OrderSnapshot>)
    ensures r.Some? <==> ActiveOrder(db, id)
    ensures r.Some? ==> r.value.order == db.orders[id]
    ensures r.Some? ==> forall k :: k in r.value.lines <==> ActiveEntryOf(db.entries, k, id)
  {
    if ActiveOrder(db, id) then Some(OrderSnapshot(db.orders[id], ActiveEntriesOf(db.entries, id))) else None
  }

  /**
   `update_order_external_client`: a null or empty client is refused with
   InternalServerError; otherwise only the client and the updated flag change.
   */
  function UpdateExternalClient(db: Db, id: Id, externalClient: Option<string>): (r: Result<Db>)
    requires id < |db.orders|
    ensures r.Err? <==> (externalClient.None? || externalClient.value == EMPTY_CHAR)
    ensures r.Err? ==> r.failure == Default(InternalServerError)
    ensures r.Ok? ==> OrderWritten(db, r.value, id, db.orders[id].(externalClient := externalClient, updated := true))
  {
    match IsNullOrEmptyString(externalClient)
    case Err(f) => Err(f)
    case Ok(_) => Ok(db.(orders := db.orders[id := db.orders[id].(externalClient := externalClient, updated := true)]))
  }

  /**
   `update_order_total_price`: a null total is refused with InternalServerError;
   otherwise the given total is stored exactly.
   */
  function UpdateTotalPrice(db: Db, id: Id, totalPrice: Option<int>): (r: Result<Db>)
    requires id < |db.orders|
    ensures r.Err? <==> totalPrice.None?
    ensures r.Err? ==> r.failure == Default(InternalServerError)
    ensures r.Ok? ==> OrderWritten(db, r.value, id, db.orders[id].(totalPrice := totalPrice, updated := true))
  {
    match IsNull(totalPrice)
    case Err(f) => Err(f)
    case Ok(_) => Ok(db.(orders := db.orders[id := db.orders[id].(totalPrice := totalPrice, updated := true)]))
  }

  /**
   `update_order_closure`: sets the closing mark without looking at it first,
   so closing an order that is already closed succeeds and changes nothing
   but the updated flag; the source moves its closure time.
   */
  function UpdateClosure(db: Db, id: Id): (db': Db)
    requires id < |db.orders|
    ensures OrderWritten(db, db', id, db.orders[id].(closed := true, updated := true))
    ensures db.orders[id].closed && db.orders[id].updated ==> db' == db
  {
    db.(orders := db.orders[id := db.orders[id].(closed := true, updated := true)])
  }

  /**
   `validate_order_closed`: refuses a closed order as Unprocessable, naming
   it in the message. No service operation of the core calls it.
   */
  function ValidateOrderClosed(db: Db, id: Id): (r: Result<()>)
    requires id < |db.orders|
    ensures r.Err? <==> db.orders[id].closed
    ensures r.Err? ==> r.failure.Raised? && r.failure.kind == Unprocessable
    ensures r.Err? ==> r.failure.message == Format(ORDER_IS_CLOSED, Str(id))
  {
    if db.orders[id].closed then Err(Raised(Unprocessable, Format(ORDER_IS_CLOSED, Str(id)))) else Ok(())
  }

  /** Once closed, an order stays refused by the closed check through any closure, client or total write. */
  lemma ClosedStaysClosed(db: Db, id: Id, c: Option<string>, t: Option<int>)
    requires id < |db.orders| && db.orders[id].closed
    ensures ValidateOrderClosed(UpdateClosure(db, id), id).Err?
    ensures UpdateExternalClient(db, id, c).Ok? ==> ValidateOrderClosed(UpdateExternalClient(db, id, c).value, id).Err?
    ensures UpdateTotalPrice(db, id, t).Ok? ==> ValidateOrderClosed(UpdateTotalPrice(db, id, t).value, id).Err?
  {
  }
}
