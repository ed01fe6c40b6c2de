/**
 Line-item operations (src/backend/api/services/product_quantity_service.py).
 Each write of a line item is followed by a change of the owning order's
 total by the line's change in value: `quantity x price` on creation,
 `(new - old) x price` on update, `-quantity x price` on deletion. Refusals
 raised by the service come before any write; a Python runtime fault met
 while changing the total comes after the line item was written, and that
 write stays.
 */
module ProductQuantityService {

  import opened Wrappers
  import opened Errors
  import opened Text
  import opened Constants
  import opened Records
  import opened Ledger
  import OR = OrderRepository
  import LR = LineItemRepository

  /** The body of a line-item request: the product's id and the quantity. */
  datatype LineItemPayload = LineItemPayload(product: Id, quantity: Option<int>)

  /**
   `__validate_product_quantity_quantity`: `quantity <= 0 or quantity is None`.
   The comparison runs first, so a null quantity is a TypeError, not a refusal.
   */
  function ValidateQuantity(quantity: Option<int>): (r: Result<int>)
    ensures quantity.None? ==> r == Err(Unhandled)
    ensures quantity.Some? && quantity.value <= 0 ==> r == Err(Raised(Unprocessable, VALID_QUANTITY_MUST_BE_SET))
    ensures r.Ok? <==> quantity.Some? && quantity.value > 0
    ensures r.Ok? ==> r.value == quantity.value
  {
    if quantity.None? then Err(Unhandled)
    else if quantity.value <= 0 then Err(Raised(Unprocessable, VALID_QUANTITY_MUST_BE_SET))
    else Ok(quantity.value)
  }

  /** Everything `__increase_total_price` needs: an active priced product and an active order with a total. */
  predicate CanReprice(db: Db, product: Id, o: Id)
  {
    && ActiveProduct(db, product) && db.products[product].price.Some?
    && ActiveOrder(db, o) && db.orders[o].totalPrice.Some?
  }

  /**
   `__increase_total_price(product, delta, o)`: adds `delta x price` to the
   order's total. A deleted product or order reads as None and its attribute
   access fails; a null price or total fails the arithmetic. (The NotFound of
   `__get_order` can never fire: it compares a bound method with 0.)
   */
  function IncreaseTotalPrice(db: Db, product: Id, delta: int, o: Id): (r: Result<Db>)
    ensures r.Ok? <==> CanReprice(db, product, o)
    ensures r.Err? ==> r.failure == Unhandled
    ensures r.Ok? ==> OR.OrderWritten(db, r.value, o, db.orders[o].(
      totalPrice := Some(db.orders[o].totalPrice.value + delta * db.products[product].price.value),
      updated := true))
  {
    if !CanReprice(db, product, o) then Err(Unhandled)
    else
      var total := db.orders[o].totalPrice.value + delta * db.products[product].price.value;
      match OR.UpdateTotalPrice(db, o, Some(total))
      case Err(f) => Err(f)
      case Ok(db') => Ok(db')
  }

  /**
   `create_product_quantity`: quantity first, then an active product (NotFound),
   then no active line item for the same order and product (Unprocessable).
   */
  function Create(db: Db, p: LineItemPayload, o: Id): (r: Step<Db, Id>)
    ensures p.quantity.None? ==> r == Step(db, Err(Unhandled))
    ensures p.quantity.Some? && p.quantity.value <= 0 ==> r == Step(db, Err(Raised(Unprocessable, VALID_QUANTITY_MUST_BE_SET)))
    ensures p.quantity.Some? && p.quantity.value > 0 && !ActiveProduct(db, p.product) ==>
      r == Step(db, Err(Raised(NotFound, Format(PRODUCT_BY_ID_NOT_FOUND, Str(p.product)))))
    ensures p.quantity.Some? && p.quantity.value > 0 && ActiveProduct(db, p.product) && LR.FirstActiveFor(db.entries, o, p.product).Some? ==>
      r == Step(db, Err(Raised(Unprocessable, Format(QUANTITY_FOR_PRODUCT_EXISTS, Str(p.product)))))
    ensures r.result.Err? && r.result.failure.Raised? ==> r.state == db
    ensures r.result.Ok? <==>
      p.quantity.Some? && p.quantity.value > 0 && LR.FirstActiveFor(db.entries, o, p.product).None? && CanReprice(db, p.product, o)
    ensures r.result.Ok? ==>
      && r.result.value == |db.entries|
      && r.state.products == db.products
      && r.state.entries == db.entries + [ProductQuantity(o, p.product, p.quantity, false, false)]
      && r.state.orders == db.orders[o := db.orders[o].(
           totalPrice := Some(db.orders[o].totalPrice.value + p.quantity.value * db.products[p.product].price.value),
           updated := true)]
  {
    match ValidateQuantity(p.quantity)
    case Err(f) => Step(db, Err(f))
    case Ok(q) =>
      if !ActiveProduct(db, p.product) then
        Step(db, Err(Raised(NotFound, Format(PRODUCT_BY_ID_NOT_FOUND, Str(p.product)))))
      else if LR.FirstActiveFor(db.entries, o, p.product).Some? then
        Step(db, Err(Raised(Unprocessable, Format(QUANTITY_FOR_PRODUCT_EXISTS, Str(p.product)))))
      else
        match LR.Create(db, o, p.product, Some(q))
        case Err(f) => Step(db, Err(f))
        case Ok((db1, id)) =>
          match IncreaseTotalPrice(db1, p.product, q, o)
          case Err(f) => Step(db1, Err(f))
          case Ok(db2) => Step(db2, Ok(id))
  }

  /** `__get_product_quantity_by_id`: NotFound, naming the id, unless the line item is active and belongs to the order. */
  function Get(db: Db, o: Id, id: Id): (r: Result<ProductQuantity>)
    ensures r.Ok? <==> ActiveEntryOf(db.entries, id, o)
    ensures r.Ok? ==> r.value == db.entries[id]
    ensures r.Err? ==> r.failure == Raised(NotFound, Format(QUANTITY_FOR_PRODUCT_NOT_FOUND, Str(id)))
  {
    match LR.GetById(db, o, id)
    case None => Err(Raised(NotFound, Format(QUANTITY_FOR_PRODUCT_NOT_FOUND, Str(id))))
    case Some(e) => Ok(e)
  }

  /**
   `update_product_quantity_by_id`: the new quantity is validated before the
   lookup; the quantity is replaced, then the total moves by the difference.
   */
  function Update(db: Db, quantity: Option<int>, o: Id, id: Id): (r: Step<Db, Id>)
    ensures ValidateQuantity(quantity).Err? ==> r == Step(db, Err(ValidateQuantity(quantity).failure))
    ensures ValidateQuantity(quantity).Ok? && !ActiveEntryOf(db.entries, id, o) ==>
      r == Step(db, Err(Raised(NotFound, Format(QUANTITY_FOR_PRODUCT_NOT_FOUND, Str(id)))))
    ensures r.result.Err? && r.result.failure.Raised? ==> r.state == db
    ensures r.result.Ok? <==>
      && ValidateQuantity(quantity).Ok? && ActiveEntryOf(db.entries, id, o)
      && db.entries[id].quantity.Some? && CanReprice(db, db.entries[id].product, o)
    ensures r.result.Ok? ==>
      && r.result.value == id
      && r.state.products == db.products
      && r.state.entries == db.entries[id := db.entries[id].(quantity := quantity, updated := true)]
      && r.state.orders == db.orders[o := db.orders[o].(
           totalPrice := Some(db.orders[o].totalPrice.value
             + (quantity.value - db.entries[id].quantity.value) * db.products[db.entries[id].product].price.value),
           updated := true)]
  {
    match ValidateQuantity(quantity)
    case Err(f) => Step(db, Err(f))
    case Ok(q) =>
      match Get(db, o, id)
      case Err(f) => Step(db, Err(f))
      case Ok(e) =>
        var db1 := LR.UpdateQuantity(db, id, Some(q));
        if e.quantity.None? then Step(db1, Err(Unhandled))
        else
          match IncreaseTotalPrice(db1, e.product, q - e.quantity.value, o)
          case Err(f) => Step(db1, Err(f))
          case Ok(db2) => Step(db2, Ok(id))
  }

  /** `delete_product_quantity_by_id`: a soft delete, then the total moves by `quantity x NEGATIVE_INDEX x price`. */
  function Delete(db: Db, o: Id, id: Id): (r: Step<Db, Id>)
    ensures !ActiveEntryOf(db.entries, id, o) ==>
      r == Step(db, Err(Raised(NotFound, Format(QUANTITY_FOR_PRODUCT_NOT_FOUND, Str(id)))))
    ensures r.result.Err? && r.result.failure.Raised? ==> r.state == db
    ensures r.result.Ok? <==>
      ActiveEntryOf(db.entries, id, o) && db.entries[id].quantity.Some? && CanReprice(db, db.entries[id].product, o)
    ensures r.result.Ok? ==>
      && r.result.value == id
      && r.state.products == db.products
      && r.state.entries == db.entries[id := db.entries[id].(deleted := true)]
      && r.state.orders == db.orders[o := db.orders[o].(
           totalPrice := Some(db.orders[o].totalPrice.value
             - db.entries[id].quantity.value * db.products[db.entries[id].product].price.value),
           updated := true)]
  {
    match Get(db, o, id)
    case Err(f) => Step(db, Err(f))
    case Ok(e) =>
      var db1 := LR.Delete(db, id);
      if e.quantity.None? then Step(db1, Err(Unhandled))
      else
        match IncreaseTotalPrice(db1, e.product, e.quantity.value * NEGATIVE_INDEX, o)
        case Err(f) => Step(db1, Err(f))
        case Ok(db2) => Step(db2, Ok(id))
  }
}
