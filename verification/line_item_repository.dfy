/**
 The line-item store. Only `create_product_quantity` appears in
 src/backend/api/repositories/product_quantity_repository.py, and with a
 signature its callers no longer use; the other queries and writes are given
 here the meaning their call sites in the services rely on.
 */
module LineItemRepository {

  import opened Wrappers
  import opened Errors
  import opened Records

  /**
   `create_product_quantity(payload, order_id, product_id)`: a new active line
   item. A reference to an order or product that does not exist violates a
   foreign key, which Django surfaces as an unhandled IntegrityError.
   */
  function Create(db: Db, order: Id, product: Id, quantity: Option<int>): (r: Result<(Db, Id)>)
    ensures r.Err? <==> (order >= |db.orders| || product >= |db.products|)
    ensures r.Err? ==> r.failure == Unhandled
    ensures r.Ok? ==> r.value.1 == |db.entries|
    ensures r.Ok? ==> r.value.0 == db.(entries := db.entries + [ProductQuantity(order, product, quantity, false, false)])
  {
    if order >= |db.orders| || product >= |db.products| then Err(Unhandled)
    else Ok((db.(entries := db.entries + [ProductQuantity(order, product, quantity, false, false)]), |db.entries|))
  }

  /** An active line item of order `o` for product `p` sits at position `k`. */
  predicate ActiveFor(es: seq<ProductQuantity>, k: nat, o: Id, p: Id)
  {
    ActiveEntryOf(es, k, o) && es[k].product == p
  }

  /** `get_product_quantity_by_order_id_and_product_id(o, p).first()`. */
  function FirstActiveFor(es: seq<ProductQuantity>, o: Id, p: Id): (r: Option<Id>)
    ensures r.Some? ==> ActiveFor(es, r.value, o, p)
    ensures r.Some? ==> forall k :: 0 <= k < r.value ==> !ActiveFor(es, k, o, p)
    ensures r.None? ==> forall k :: 0 <= k < |es| ==> !ActiveFor(es, k, o, p)
  {
    if |es| == 0 then None
    else
      var last := |es| - 1;
      assert forall k :: 0 <= k < last ==> es[..last][k] == es[k];
      assert forall k :: 0 <= k < last ==> (ActiveFor(es[..last], k, o, p) <==> ActiveFor(es, k, o, p));
      match FirstActiveFor(es[..last], o, p)
      case Some(k) => Some(k)
      case None => if ActiveFor(es, last, o, p) then Some(last) else None
  }

  /** With one active line item per order and product, the lookup finds the active one there is, whichever `.first()` picks. */
  lemma OnlyActiveLineFound(es: seq<ProductQuantity>, o: Id, p: Id, k: Id)
    requires OneActiveLinePerProduct(es) && ActiveFor(es, k, o, p)
    ensures FirstActiveFor(es, o, p) == Some(k)
  {
  }

  /** Appending an active line item for a pair that has none, or a deleted one, keeps one active line item per pair. */
  lemma AppendKeepsOneLine(es: seq<ProductQuantity>, e: ProductQuantity)
    requires OneActiveLinePerProduct(es)
    requires !e.deleted ==> FirstActiveFor(es, e.order, e.product).None?
    ensures OneActiveLinePerProduct(es + [e])
  {
    var es' := es + [e];
    forall i, j | 0 <= i < |es'| && 0 <= j < |es'| && !es'[i].deleted && !es'[j].deleted
      && es'[i].order == es'[j].order && es'[i].product == es'[j].product
      ensures i == j
    {
      if i < |es| && j == |es| {
        assert ActiveFor(es, i, e.order, e.product);
      } else if j < |es| && i == |es| {
        assert ActiveFor(es, j, e.order, e.product);
      } else if i < |es| && j < |es| {
        assert es'[i] == es[i] && es'[j] == es[j];
      }
    }
  }

  /**
   Overwriting a line item with a deleted one, or an active one for the pair
   an active line item already held, keeps one active line item per pair.
   */
  lemma ReplaceKeepsOneLine(es: seq<ProductQuantity>, k: Id, e: ProductQuantity)
    requires OneActiveLinePerProduct(es) && k < |es|
    requires !e.deleted ==> !es[k].deleted && e.order == es[k].order && e.product == es[k].product
    ensures OneActiveLinePerProduct(es[k := e])
  {
  }

  /** `get_product_quantity_by_id(o, id).first()`: the line item when it is active and belongs to order `o`. */
  function GetById(db: Db, o: Id, id: Id): (r: Option<ProductQuantity>)
    ensures r.Some? <==> ActiveEntryOf(db.entries, id, o)
    ensures r.Some? ==> r.value == db.entries[id]
  {
    if ActiveEntryOf(db.entries, id, o) then Some(db.entries[id]) else None
  }

  /** `update_product_quantity_quantity`: a full replacement of the quantity, marking the item updated. */
  function UpdateQuantity(db: Db, id: Id, quantity: Option<int>): (db': Db)
    requires id < |db.entries|
    ensures db'.products == db.products && db'.orders == db.orders
    ensures db'.entries == db.entries[id := db.entries[id].(quantity := quantity, updated := true)]
  {
    db.(entries := db.entries[id := db.entries[id].(quantity := quantity, updated := true)])
  }

  /** `delete_product_quantity`: a soft delete of one line item. */
  function Delete(db: Db, id: Id): (db': Db)
    requires id < |db.entries|
    ensures db'.products == db.products && db'.orders == db.orders
    ensures db'.entries == db.entries[id := db.entries[id].(deleted := true)]
  {
    db.(entries := db.entries[id := db.entries[id].(deleted := true)])
  }

  /** `delete_product_quantity_by_order_id`: soft-deletes every line item of order `o` and no other. */
  function DeleteByOrder(db: Db, o: Id): (db': Db)
    ensures db'.products == db.products && db'.orders == db.orders
    ensures |db'.entries| == |db.entries|
    ensures forall k :: 0 <= k < |db.entries| ==>
      db'.entries[k] == if db.entries[k].order == o then db.entries[k].(deleted := true) else db.entries[k]
  {
    db.(entries := seq(|db.entries|, k requires 0 <= k < |db.entries| =>
      if db.entries[k].order == o then db.entries[k].(deleted := true) else db.entries[k]))
  }
}
