/**
 Order operations (src/backend/api/services/order_service.py). Creating an
 order writes the order row first, with a null total, then validates the
 client, then handles the payload's lines one by one: each line's product is
 looked up by name (and created when missing), its line item is created or,
 when the order already has one for that product, overwritten, and the
 running total grows by unit price times quantity. The total is stored last.
 Nothing is undone when a step fails.
 */
module OrderService {

  import opened Wrappers
  import opened Errors
  import opened Text
  import opened Constants
  import opened Records
  import opened Ledger
  import OR = OrderRepository
  import PR = ProductRepository
  import LR = LineItemRepository

  /** One entry of `product_quantities`: a product as a product request describes it, and a quantity. */
  datatype LinePayload = LinePayload(product: PR.ProductPayload, quantity: Option<int>)

  /** The fields the order serializer keeps: the client and the lines. */
  datatype OrderPayload = OrderPayload(externalClient: Option<string>, lines: seq<LinePayload>)

  /**
   Which product creation the order flow uses: the repository's as written,
   which drops the price, or the one that stores it.
   */
  datatype ProductCreation = AsWritten | PriceStored

  function NewProduct(how: ProductCreation, db: Db, p: PR.ProductPayload): (r: (Db, Id))
    ensures PR.AppendedProduct(db, r.0, r.1)
    ensures r.0.products[r.1].name == p.name && !r.0.products[r.1].deleted
    ensures r.0.products[r.1].price == (if how == PriceStored then p.price else None)
  {
    if how == PriceStored then PR.Create(db, p) else PR.CreateAsWritten(db, p)
  }

  /**
   `__create_product`: the first active product with the line's name, or a
   new product when there is none (after its price is validated). Yields
   the product's id and its stored price.
   */
  function ResolveProduct(how: ProductCreation, db: Db, p: PR.ProductPayload): (r: Step<Db, (Id, Option<int>)>)
    ensures p.name.None? || p.name.value == EMPTY_CHAR ==> r == Step(db, Err(Default(InternalServerError)))
    ensures r.result.Err? ==> r.state == db
    ensures r.result.Err? && p.name.Some? && p.name.value != EMPTY_CHAR ==>
      r.result.failure == Raised(Unprocessable, VALID_PRICE_MUST_BE_SET)
    ensures r.result.Ok? ==> p.name.Some? && p.name.value != EMPTY_CHAR
    ensures r.result.Ok? ==>
      && r.state.orders == db.orders && r.state.entries == db.entries
      && db.products <= r.state.products
      && PR.FirstActiveNamedFrom(r.state.products, p.name.value, 0) == Some(r.result.value.0)
      && r.result.value.1 == r.state.products[r.result.value.0].price
    ensures r.result.Ok? && r.state != db ==>
      && PR.FirstActiveNamedFrom(db.products, p.name.value, 0).None?
      && |r.state.products| == |db.products| + 1
      && r.result.value.0 == |db.products|
      && r.result.value.1 == (if how == PriceStored then p.price else None)
  {
    match PR.GetByName(db, p.name)
    case Err(f) => Step(db, Err(f))
    case Ok(Some(j)) => Step(db, Ok((j, db.products[j].price)))
    case Ok(None) =>
      match PR.ValidatePrice(p.price)
      case Err(f) => Step(db, Err(f))
      case Ok(_) =>
        var (db', id) := NewProduct(how, db, p);
        NewProductIsFirstNamed(db.products, db'.products, p.name.value);
        Step(db', Ok((id, db'.products[id].price)))
  }

  /** A product appended under a name no active product holds becomes the first active holder of that name. */
  lemma NewProductIsFirstNamed(ps: seq<Product>, ps': seq<Product>, name: string)
    requires PR.FirstActiveNamedFrom(ps, name, 0).None?
    requires |ps'| == |ps| + 1 && ps'[..|ps|] == ps
    requires PR.NamedActive(ps', |ps|, name)
    ensures PR.FirstActiveNamedFrom(ps', name, 0) == Some(|ps|)
  {
    assert forall i :: 0 <= i < |ps| ==> (PR.NamedActive(ps', i, name) <==> PR.NamedActive(ps, i, name));
  }

  /**
   `__create_product_quantity`: a new line item for the order and product, or,
   when the order already has an active one, that line item's quantity
   overwritten. Either way the payload's quantity is what the order then holds.
   */
  function PutEntry(db: Db, o: Id, product: Id, quantity: Option<int>): (r: Result<Db>)
    ensures r.Err? <==> LR.FirstActiveFor(db.entries, o, product).None? && (o >= |db.orders| || product >= |db.products|)
    ensures r.Err? ==> r.failure == Unhandled
    ensures r.Ok? ==> r.value.products == db.products && r.value.orders == db.orders
    ensures r.Ok? ==> LR.FirstActiveFor(r.value.entries, o, product).Some?
    ensures r.Ok? ==> r.value.entries[LR.FirstActiveFor(r.value.entries, o, product).value].quantity == quantity
    ensures r.Ok? && LR.FirstActiveFor(db.entries, o, product).None? ==>
      r.value.entries == db.entries + [ProductQuantity(o, product, quantity, false, false)]
    ensures r.Ok? && LR.FirstActiveFor(db.entries, o, product).Some? ==>
      var k := LR.FirstActiveFor(db.entries, o, product).value;
      r.value.entries == db.entries[k := db.entries[k].(quantity := quantity, updated := true)]
  {
    match LR.FirstActiveFor(db.entries, o, product)
    case None =>
      (match LR.Create(db, o, product, quantity)
       case Err(f) => Err(f)
       case Ok((db', _)) =>
         FirstActiveForAppended(db.entries, ProductQuantity(o, product, quantity, false, false), o, product);
         Ok(db'))
    case Some(k) =>
      var db' := LR.UpdateQuantity(db, k, quantity);
      FirstActiveForReplaced(db.entries, k, quantity, o, product);
      Ok(db')
  }

  lemma FirstActiveForAppended(es: seq<ProductQuantity>, e: ProductQuantity, o: Id, p: Id)
    requires LR.FirstActiveFor(es, o, p).None?
    requires !e.deleted && e.order == o && e.product == p
    ensures LR.FirstActiveFor(es + [e], o, p) == Some(|es|)
  {
    assert LR.ActiveFor(es + [e], |es|, o, p);
  }

  lemma FirstActiveForReplaced(es: seq<ProductQuantity>, k: Id, quantity: Option<int>, o: Id, p: Id)
    requires LR.FirstActiveFor(es, o, p) == Some(k)
    ensures LR.FirstActiveFor(es[k := es[k].(quantity := quantity, updated := true)], o, p) == Some(k)
  {
    var es' := es[k := es[k].(quantity := quantity, updated := true)];
    assert LR.ActiveFor(es', k, o, p);
    assert forall j :: 0 <= j < k ==> (LR.ActiveFor(es', j, o, p) <==> LR.ActiveFor(es, j, o, p));
  }

  /**
   One pass of the loop of `create_order`: the line's product is resolved,
   its line item put, and the line priced at the resolved unit price. A null
   unit price or quantity, which the multiplication rejects, fails it after
   the line item was written.
   */
  function AddLine(how: ProductCreation, db: Db, o: Id, line: LinePayload): (r: Step<Db, int>)
    ensures r.state.orders == db.orders
    ensures db.products <= r.state.products
    ensures r.result.Ok? ==>
      && line.quantity.Some?
      && UnitPrice(r.state.products, line.product.name).Some?
      && r.result.value == UnitPrice(r.state.products, line.product.name).value * line.quantity.value
  {
    var resolved := ResolveProduct(how, db, line.product);
    match resolved.result
    case Err(f) => Step(resolved.state, Err(f))
    case Ok((product, price)) =>
      match PutEntry(resolved.state, o, product, line.quantity)
      case Err(f) => Step(resolved.state, Err(f))
      case Ok(db') =>
        if price.None? || line.quantity.None? then Step(db', Err(Unhandled))
        else Step(db', Ok(price.value * line.quantity.value))
  }

  /** The pass of the loop of `create_order` for order `o`, as a function of the store and the line. */
  function Pass(how: ProductCreation, o: Id): (Db, LinePayload) -> Step<Db, int>
  {
    (d: Db, l: LinePayload) => AddLine(how, d, o, l)
  }

  /**
   A loop over the lines that runs `body` on each, adding what it yields to
   the running total from `total` on; the first failing line ends the loop,
   and what the passes before it wrote stays.
   */
  function RunLines(body: (Db, LinePayload) -> Step<Db, int>, db: Db, lines: seq<LinePayload>, total: int): Step<Db, int>
    decreases |lines|
  {
    if |lines| == 0 then Step(db, Ok(total))
    else
      var step := body(db, lines[0]);
      match step.result
      case Err(f) => Step(step.state, Err(f))
      case Ok(value) => RunLines(body, step.state, lines[1..], total + value)
  }

  /** A property of the store that every pass keeps holds after the loop, however it ends. */
  lemma {:induction false} RunLinesKeeps(body: (Db, LinePayload) -> Step<Db, int>, inv: Db -> bool, db: Db, lines: seq<LinePayload>, total: int)
    requires inv(db)
    requires forall d, l :: inv(d) ==> inv(body(d, l).state)
    ensures inv(RunLines(body, db, lines, total).state)
    decreases |lines|
  {
    if |lines| > 0 {
      var step := body(db, lines[0]);
      if step.result.Ok? {
        RunLinesKeeps(body, inv, step.state, lines[1..], total + step.result.value);
      }
    }
  }

  /**
   A property of the store, the lines still to handle and the running total
   that every successful pass carries from one line to the next holds, with
   no lines left, at the end of a loop that succeeds.
   */
  lemma {:induction false} RunLinesInduction(body: (Db, LinePayload) -> Step<Db, int>, inv: (Db, seq<LinePayload>, int) -> bool,
                                             db: Db, lines: seq<LinePayload>, total: int)
    requires inv(db, lines, total)
    requires forall d, ls, t :: |ls| > 0 && inv(d, ls, t) && body(d, ls[0]).result.Ok? ==>
      inv(body(d, ls[0]).state, ls[1..], t + body(d, ls[0]).result.value)
    ensures RunLines(body, db, lines, total).result.Ok? ==>
      inv(RunLines(body, db, lines, total).state, [], RunLines(body, db, lines, total).result.value)
    decreases |lines|
  {
    if |lines| > 0 {
      var step := body(db, lines[0]);
      if step.result.Ok? {
        RunLinesInduction(body, inv, step.state, lines[1..], total + step.result.value);
      }
    }
  }

  /** The loop of `create_order` over the payload's lines, from `total` on; the first failing line ends it. */
  function AddLines(how: ProductCreation, db: Db, o: Id, lines: seq<LinePayload>, total: int): (r: Step<Db, int>)
    ensures r.state.orders == db.orders
    ensures db.products <= r.state.products
  {
    var frame := (d: Db) => d.orders == db.orders && db.products <= d.products;
    assert forall d, l :: frame(d) ==> frame(Pass(how, o)(d, l).state);
    RunLinesKeeps(Pass(how, o), frame, db, lines, total);
    RunLines(Pass(how, o), db, lines, total)
  }

  /**
   `create_order`: the order row is written first, with a null total, and
   stays whatever happens after; a null client is refused only then.
   */
  function CreateWith(how: ProductCreation, db: Db, p: OrderPayload): (r: Step<Db, Id>)
    ensures |r.state.orders| == |db.orders| + 1 && r.state.orders[..|db.orders|] == db.orders
    ensures db.products <= r.state.products
    ensures p.externalClient.None? ==>
      && r.result == Err(Raised(Unprocessable, EXTERNAL_CLIENT_NAME_MISSING))
      && r.state == db.(orders := db.orders + [Order(None, None, false, false, false)])
    ensures r.result.Err? ==> r.state.orders[|db.orders|] == Order(p.externalClient, None, false, false, false)
    ensures r.result.Ok? ==>
      && r.result.value == |db.orders|
      && r.state.orders[|db.orders|].externalClient == p.externalClient
      && r.state.orders[|db.orders|].totalPrice.Some?
      && StateOf(r.state.orders[|db.orders|]) == Open
  {
    var (db1, o) := OR.Create(db, p.externalClient, None);
    if p.externalClient.None? then Step(db1, Err(Raised(Unprocessable, EXTERNAL_CLIENT_NAME_MISSING)))
    else
      var added := AddLines(how, db1, o, p.lines, 0);
      match added.result
      case Err(f) => Step(added.state, Err(f))
      case Ok(total) =>
        match OR.UpdateTotalPrice(added.state, o, Some(total))
        case Err(f) => Step(added.state, Err(f))
        case Ok(db2) => Step(db2, Ok(o))
  }

  /** `create_order` with the product creation that keeps the price. */
  function Create(db: Db, p: OrderPayload): (r: Step<Db, Id>)
    ensures |r.state.orders| == |db.orders| + 1
    ensures r.result.Ok? ==> r.result.value == |db.orders| && ActiveOrder(r.state, r.result.value)
  {
    CreateWith(PriceStored, db, p)
  }

  /** `__validate_order_exists` after `get_order_by_id`: NotFound, naming the id, for a missing or deleted order. */
  function Get(db: Db, id: Id): (r: Result<OR.OrderSnapshot>)
    ensures r.Ok? <==> ActiveOrder(db, id)
    ensures r.Ok? ==> r.value.order == db.orders[id]
    ensures r.Ok? ==> forall k :: k in r.value.lines <==> ActiveEntryOf(db.entries, k, id)
    ensures r.Err? ==> r.failure == Raised(NotFound, Format(ORDER_NOT_FOUND, Str(id)))
  {
    match OR.GetById(db, id)
    case None => Err(Raised(NotFound, Format(ORDER_NOT_FOUND, Str(id))))
    case Some(s) => Ok(s)
  }

  /**
   `update_order_by_id`: NotFound first, then a null client (Unprocessable);
   an empty client passes that check and is refused by the repository
   (InternalServerError). Only the client changes.
   */
  function Update(db: Db, externalClient: Option<string>, id: Id): (r: Step<Db, Id>)
    ensures r.result.Err? ==> r.state == db
    ensures !ActiveOrder(db, id) ==> r.result == Err(Raised(NotFound, Format(ORDER_NOT_FOUND, Str(id))))
    ensures ActiveOrder(db, id) && externalClient.None? ==> r.result == Err(Raised(Unprocessable, EXTERNAL_CLIENT_NAME_MISSING))
    ensures ActiveOrder(db, id) && externalClient == Some(EMPTY_CHAR) ==> r.result == Err(Default(InternalServerError))
    ensures r.result.Ok? <==> ActiveOrder(db, id) && externalClient.Some? && externalClient.value != EMPTY_CHAR
    ensures r.result.Ok? ==>
      && r.result.value == id
      && OR.OrderWritten(db, r.state, id, db.orders[id].(externalClient := externalClient, updated := true))
  {
    match Get(db, id)
    case Err(f) => Step(db, Err(f))
    case Ok(_) =>
      if externalClient.None? then Step(db, Err(Raised(Unprocessable, EXTERNAL_CLIENT_NAME_MISSING)))
      else
        match OR.UpdateExternalClient(db, id, externalClient)
        case Err(f) => Step(db, Err(f))
        case Ok(db') => Step(db', Ok(id))
  }

  /**
   `delete_order_by_id`: NotFound for a missing or deleted order; otherwise
   the order is marked deleted and so is every line item it has.
   */
  function Delete(db: Db, id: Id): (r: Step<Db, Id>)
    ensures r.result.Ok? <==> ActiveOrder(db, id)
    ensures r.result.Err? ==> r == Step(db, Err(Raised(NotFound, Format(ORDER_NOT_FOUND, Str(id)))))
    ensures r.result.Ok? ==>
      && r.state.products == db.products
      && r.state.orders == db.orders[id := db.orders[id].(deleted := true)]
      && |r.state.entries| == |db.entries|
      && (forall k :: 0 <= k < |db.entries| ==> !ActiveEntryOf(r.state.entries, k, id))
      && (forall k :: 0 <= k < |db.entries| && db.entries[k].order != id ==> r.state.entries[k] == db.entries[k])
  {
    match Get(db, id)
    case Err(f) => Step(db, Err(f))
    case Ok(_) =>
      var db1 := OR.Delete(db, id);
      Step(LR.DeleteByOrder(db1, id), Ok(id))
  }

  /** The unit price of the first active product with the given name; nothing when there is none. */
  function UnitPrice(ps: seq<Product>, name: Option<string>): Option<int>
  {
    if name.None? then None
    else
      match PR.FirstActiveNamedFrom(ps, name.value, 0)
      case None => None
      case Some(j) => ps[j].price
  }

  /**
   What the lines are worth at the catalog's unit prices: the sum of unit
   price times quantity, a missing price or quantity counting as nothing.
   */
  function PayloadTotal(ps: seq<Product>, lines: seq<LinePayload>): int
    decreases |lines|
  {
    if |lines| == 0 then 0
    else
      var last := lines[|lines| - 1];
      PayloadTotal(ps, lines[..|lines| - 1]) + UnitPrice(ps, last.product.name).GetOr(0) * last.quantity.GetOr(0)
  }

  /** Every line names a product that the catalog resolves. */
  predicate Resolves(ps: seq<Product>, lines: seq<LinePayload>)
  {
    forall i :: 0 <= i < |lines| ==>
      lines[i].product.name.Some? && PR.FirstActiveNamedFrom(ps, lines[i].product.name.value, 0).Some?
  }

  /** Appending products never changes which product a name resolves to once one does. */
  lemma UnitPriceKeptByGrowth(ps: seq<Product>, ps': seq<Product>, name: Option<string>)
    requires ps <= ps'
    requires name.Some? && PR.FirstActiveNamedFrom(ps, name.value, 0).Some?
    ensures PR.FirstActiveNamedFrom(ps', name.value, 0) == PR.FirstActiveNamedFrom(ps, name.value, 0)
    ensures UnitPrice(ps', name) == UnitPrice(ps, name)
  {
    var j := PR.FirstActiveNamedFrom(ps, name.value, 0).value;
    assert ps'[j] == ps[j];
    assert PR.NamedActive(ps', j, name.value);
    assert forall i :: 0 <= i < j ==> (PR.NamedActive(ps', i, name.value) <==> PR.NamedActive(ps, i, name.value));
  }

  /** Lines whose names all resolve are worth the same after the catalog grows. */
  lemma {:induction false} PayloadTotalKeptByGrowth(ps: seq<Product>, ps': seq<Product>, lines: seq<LinePayload>)
    requires ps <= ps' && Resolves(ps, lines)
    ensures Resolves(ps', lines)
    ensures PayloadTotal(ps', lines) == PayloadTotal(ps, lines)
    decreases |lines|
  {
    forall i | 0 <= i < |lines|
      ensures PR.FirstActiveNamedFrom(ps', lines[i].product.name.value, 0).Some?
      ensures UnitPrice(ps', lines[i].product.name) == UnitPrice(ps, lines[i].product.name)
    {
      UnitPriceKeptByGrowth(ps, ps', lines[i].product.name);
    }
    if |lines| > 0 {
      var n := |lines| - 1;
      assert forall i :: 0 <= i < n ==> lines[..n][i] == lines[i];
      PayloadTotalKeptByGrowth(ps, ps', lines[..n]);
    }
  }

  /**
   Part way through the loop over `lines` started at `total`: `ls` are the
   lines still to handle, those handled resolve in the store's catalog, and
   the running total `t` is `total` plus what they are worth there.
   */
  predicate SumSoFar(lines: seq<LinePayload>, total: int, d: Db, ls: seq<LinePayload>, t: int)
  {
    var n := |lines| - |ls|;
    && |ls| <= |lines| && ls == lines[n..]
    && Resolves(d.products, lines[..n])
    && t == total + PayloadTotal(d.products, lines[..n])
  }

  /**
   A pass that only grows the catalog and yields the unit price of its line,
   as the catalog then resolves it, times the line's quantity carries the
   running total on to the next line.
   */
  lemma SumSoFarStep(lines: seq<LinePayload>, total: int, d: Db, ls: seq<LinePayload>, t: int, step: Step<Db, int>)
    requires |ls| > 0 && SumSoFar(lines, total, d, ls, t)
    requires step.result.Ok? && d.products <= step.state.products
    requires ls[0].quantity.Some? && UnitPrice(step.state.products, ls[0].product.name).Some?
    requires step.result.value == UnitPrice(step.state.products, ls[0].product.name).value * ls[0].quantity.value
    ensures SumSoFar(lines, total, step.state, ls[1..], t + step.result.value)
  {
    var n := |lines| - |ls|;
    PayloadTotalKeptByGrowth(d.products, step.state.products, lines[..n]);
    assert lines[n] == ls[0];
    assert lines[..n + 1][..n] == lines[..n];
    assert lines[n + 1..] == ls[1..];
  }

  /** The loop adds, to the running total, the payload's worth at the final catalog's prices. */
  lemma AddLinesComputesPayloadTotal(how: ProductCreation, db: Db, o: Id, lines: seq<LinePayload>, total: int)
    ensures AddLines(how, db, o, lines, total).result.Ok? ==>
      AddLines(how, db, o, lines, total).result.value == total + PayloadTotal(AddLines(how, db, o, lines, total).state.products, lines)
  {
    var inv := (d: Db, ls: seq<LinePayload>, t: int) => SumSoFar(lines, total, d, ls, t);
    assert lines[..0] == [] && lines[0..] == lines;
    forall d, ls, t | |ls| > 0 && inv(d, ls, t) && Pass(how, o)(d, ls[0]).result.Ok?
      ensures inv(Pass(how, o)(d, ls[0]).state, ls[1..], t + Pass(how, o)(d, ls[0]).result.value)
    {
      SumSoFarStep(lines, total, d, ls, t, AddLine(how, d, o, ls[0]));
    }
    RunLinesInduction(Pass(how, o), inv, db, lines, total);
    assert lines[..|lines|] == lines;
  }

  /** A created order stores, as its total, the payload's worth at the unit prices of the catalog it leaves behind. */
  lemma CreateStoresPayloadTotal(how: ProductCreation, db: Db, p: OrderPayload)
    ensures CreateWith(how, db, p).result.Ok? ==>
      CreateWith(how, db, p).state.orders[|db.orders|].totalPrice == Some(PayloadTotal(CreateWith(how, db, p).state.products, p.lines))
  {
    var (db1, o) := OR.Create(db, p.externalClient, None);
    AddLinesComputesPayloadTotal(how, db1, o, p.lines, 0);
  }

  /**
   Once an order is deleted it can no longer be read, none of its line items
   is active, and so its line items add up to zero.
   */
  lemma DeletedOrderIsGone(db: Db, id: Id)
    ensures Delete(db, id).result.Ok? ==>
      && Get(Delete(db, id).state, id) == Err(Raised(NotFound, Format(ORDER_NOT_FOUND, Str(id))))
      && Total(Delete(db, id).state.products, Delete(db, id).state.entries, id) == 0
  {
    var r := Delete(db, id);
    if r.result.Ok? {
      TotalWithoutActiveEntries(r.state.products, r.state.entries, id);
    }
  }

  /**
   The price a new product's payload carries is what the order is charged
   only when the product store keeps it: with the repository's creation as
   written, a one-line order for a new product fails on the null price.
   */
  lemma NewProductPriceLost()
    ensures var p := OrderPayload(Some("Tienda"), [LinePayload(PR.ProductPayload(Some("Laptop"), None, Some(55900)), Some(1))]);
      && CreateWith(AsWritten, Db([], [], []), p).result == Err(Unhandled)
      && Create(Db([], [], []), p).result == Ok(0)
      && Create(Db([], [], []), p).state.orders[0].totalPrice == Some(55900)
  {
    var p := OrderPayload(Some("Tienda"), [LinePayload(PR.ProductPayload(Some("Laptop"), None, Some(55900)), Some(1))]);
    var laptop := p.lines[0].product;
    var db1 := Db([], [Order(Some("Tienda"), None, false, false, false)], []);
    var entries := [ProductQuantity(0, 0, Some(1), false, false)];
    var dbA := db1.(products := [Product(Some("Laptop"), None, None, false, false)]);
    var dbS := db1.(products := [Product(Some("Laptop"), None, Some(55900), false, false)]);
    assert PR.FirstActiveNamedFrom([], "Laptop", 0).None?;
    assert ResolveProduct(AsWritten, db1, laptop) == Step(dbA, Ok((0, None)));
    assert ResolveProduct(PriceStored, db1, laptop) == Step(dbS, Ok((0, Some(55900))));
    assert LR.FirstActiveFor([], 0, 0).None?;
    assert PutEntry(dbA, 0, 0, Some(1)) == Ok(dbA.(entries := entries));
    assert PutEntry(dbS, 0, 0, Some(1)) == Ok(dbS.(entries := entries));
    assert AddLine(AsWritten, db1, 0, p.lines[0]) == Step(dbA.(entries := entries), Err(Unhandled));
    assert AddLine(PriceStored, db1, 0, p.lines[0]) == Step(dbS.(entries := entries), Ok(55900));
    assert AddLines(PriceStored, db1, 0, p.lines, 0) == RunLines(Pass(PriceStored, 0), dbS.(entries := entries), [], 55900);
  }
}
