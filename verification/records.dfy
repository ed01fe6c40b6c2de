/**
 The three record stores of the order domain (src/backend/api/models/): products,
 orders and product quantities (line items). Each table is a sequence and a
 record's identifier is its position, so a new record's identifier is the
 table's length. No model sets an ordering, so `.first()` orders by the
 random uuid4 primary key and returns an arbitrary match; the model takes the
 match with the lowest position in its place, which is harmless exactly where
 at most one active record can match (active product names, one line item
 per order and product, active user emails). Timestamps become flags: `deleted`
 stands for a set `deleted_at`, `closed` for a set `closed_at`, `updated` for
 a set `updated_at`. Nullable columns are `Option`s.
 */
module Records {

  import opened Wrappers
  import opened Text

  type Id = nat

  datatype Product = Product(
    name: Option<string>,
    description: Option<string>,
    price: Option<int>,
    updated: bool,
    deleted: bool)

  datatype Order = Order(
    externalClient: Option<string>,
    totalPrice: Option<int>,
    closed: bool,
    updated: bool,
    deleted: bool)

  /** A line item: exactly one order and one product, and a nullable quantity. */
  datatype ProductQuantity = ProductQuantity(
    order: Id,
    product: Id,
    quantity: Option<int>,
    updated: bool,
    deleted: bool)

  datatype Db = Db(
    products: seq<Product>,
    orders: seq<Order>,
    entries: seq<ProductQuantity>)

  /** The life-cycle states of an order. */
  datatype OrderState = Open | Closed | Deleted

  function StateOf(o: Order): OrderState
  {
    if o.deleted then Deleted else if o.closed then Closed else Open
  }

  /** `__str__` of every model: the identifier's string form, which determines the identifier. */
  function Str(id: Id): (s: string)
    ensures |s| > 0 && forall i :: 0 <= i < |s| ==> IsDigit(s[i])
    ensures ParseNat(s) == id
  {
    NatToStringRoundTrip(id);
    NatToString(id)
  }

  predicate ActiveProduct(db: Db, id: Id)
  {
    id < |db.products| && !db.products[id].deleted
  }

  predicate ActiveOrder(db: Db, id: Id)
  {
    id < |db.orders| && !db.orders[id].deleted
  }

  /** An active line item under order `o`. */
  predicate ActiveEntryOf(es: seq<ProductQuantity>, k: nat, o: Id)
  {
    k < |es| && !es[k].deleted && es[k].order == o
  }

  /**
   At most one active line item per order and product: the lookup of an
   order's line item for a product then has no choice to make.
   */
  predicate OneActiveLinePerProduct(es: seq<ProductQuantity>)
  {
    forall i, j ::
      0 <= i < |es| && 0 <= j < |es| && !es[i].deleted && !es[j].deleted && es[i].order == es[j].order && es[i].product == es[j].product
      ==> i == j
  }

  /** Referential integrity, which the database's foreign keys enforce. */
  predicate Integrity(db: Db)
  {
    forall k :: 0 <= k < |db.entries| ==>
      db.entries[k].order < |db.orders| && db.entries[k].product < |db.products|
  }
}
