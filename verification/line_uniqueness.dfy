/**
 One active line item per order and product. The line-item service refuses
 a second line item for a pair, and order creation overwrites the one it
 finds instead of adding another; every write of the line-item, order and
 product services keeps the property, also when it fails half-way.
 */
module LineUniqueness {

  import opened Wrappers
  import opened Records
  import LR = LineItemRepository
  import PR = ProductRepository
  import OR = OrderRepository
  import PQS = ProductQuantityService
  import PS = ProductService
  import OS = OrderService

  /** `create_product_quantity` adds a line item only for a pair that has no active one. */
  lemma LineItemCreateKeepsOneLine(db: Db, p: PQS.LineItemPayload, o: Id)
    requires OneActiveLinePerProduct(db.entries)
    ensures OneActiveLinePerProduct(PQS.Create(db, p, o).state.entries)
  {
    if p.quantity.Some? && LR.FirstActiveFor(db.entries, o, p.product).None? {
      LR.AppendKeepsOneLine(db.entries, ProductQuantity(o, p.product, p.quantity, false, false));
    }
  }

  /** `update_product_quantity_by_id` only changes the quantity of an active line item. */
  lemma LineItemUpdateKeepsOneLine(db: Db, q: Option<int>, o: Id, id: Id)
    requires OneActiveLinePerProduct(db.entries)
    ensures OneActiveLinePerProduct(PQS.Update(db, q, o, id).state.entries)
  {
    if ActiveEntryOf(db.entries, id, o) {
      LR.ReplaceKeepsOneLine(db.entries, id, db.entries[id].(quantity := q, updated := true));
    }
  }

  /** `delete_product_quantity_by_id` only marks a line item deleted. */
  lemma LineItemDeleteKeepsOneLine(db: Db, o: Id, id: Id)
    requires OneActiveLinePerProduct(db.entries)
    ensures OneActiveLinePerProduct(PQS.Delete(db, o, id).state.entries)
  {
    if ActiveEntryOf(db.entries, id, o) {
      LR.ReplaceKeepsOneLine(db.entries, id, db.entries[id].(deleted := true));
    }
  }

  /** The line-item step of order creation adds a line item only where the lookup found none, and otherwise overwrites the found one. */
  lemma PutEntryKeepsOneLine(db: Db, o: Id, product: Id, quantity: Option<int>)
    requires OneActiveLinePerProduct(db.entries)
    ensures OS.PutEntry(db, o, product, quantity).Ok? ==> OneActiveLinePerProduct(OS.PutEntry(db, o, product, quantity).value.entries)
  {
    match LR.FirstActiveFor(db.entries, o, product)
    case None =>
      LR.AppendKeepsOneLine(db.entries, ProductQuantity(o, product, quantity, false, false));
    case Some(k) =>
      LR.ReplaceKeepsOneLine(db.entries, k, db.entries[k].(quantity := quantity, updated := true));
  }

  /** One pass of the creation loop keeps one active line item per pair, whatever happens. */
  lemma AddLineKeepsOneLine(how: OS.ProductCreation, db: Db, o: Id, line: OS.LinePayload)
    requires OneActiveLinePerProduct(db.entries)
    ensures OneActiveLinePerProduct(OS.AddLine(how, db, o, line).state.entries)
  {
    var resolved := OS.ResolveProduct(how, db, line.product);
    if resolved.result.Ok? {
      PutEntryKeepsOneLine(resolved.state, o, resolved.result.value.0, line.quantity);
    }
  }

  /** The loop of order creation keeps one active line item per pair, whatever happens. */
  lemma AddLinesKeepsOneLine(how: OS.ProductCreation, db: Db, o: Id, lines: seq<OS.LinePayload>, total: int)
    requires OneActiveLinePerProduct(db.entries)
    ensures OneActiveLinePerProduct(OS.AddLines(how, db, o, lines, total).state.entries)
  {
    var inv := (d: Db) => OneActiveLinePerProduct(d.entries);
    forall d, l | inv(d)
      ensures inv(OS.Pass(how, o)(d, l).state)
    {
      AddLineKeepsOneLine(how, d, o, l);
    }
    OS.RunLinesKeeps(OS.Pass(how, o), inv, db, lines, total);
  }

  /** `create_order`, successful or not, keeps one active line item per pair. */
  lemma OrderCreateKeepsOneLine(how: OS.ProductCreation, db: Db, p: OS.OrderPayload)
    requires OneActiveLinePerProduct(db.entries)
    ensures OneActiveLinePerProduct(OS.CreateWith(how, db, p).state.entries)
  {
    var (db1, o) := OR.Create(db, p.externalClient, None);
    if p.externalClient.Some? {
      AddLinesKeepsOneLine(how, db1, o, p.lines, 0);
    }
  }

  /** `delete_order_by_id` only marks line items deleted. */
  lemma OrderDeleteKeepsOneLine(db: Db, id: Id)
    requires OneActiveLinePerProduct(db.entries)
    ensures OneActiveLinePerProduct(OS.Delete(db, id).state.entries)
  {
  }

  /** Changing an order's client and every catalog write leave the line items as they were. */
  lemma OtherWritesLeaveLines(db: Db, client: Option<string>, id: Id, p: PR.ProductPayload, product: Id)
    ensures OS.Update(db, client, id).state.entries == db.entries
    ensures PS.Create(db, p).state.entries == db.entries
    ensures PS.Update(db, p, product).state.entries == db.entries
    ensures PS.Delete(db, product).state.entries == db.entries
  {
  }
}
