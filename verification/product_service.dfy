/**
 Product catalog operations (src/backend/api/services/product_service.py).
 Every refusal happens before any write, so a refused request leaves the
 store as it was.
 */
module ProductService {

  import opened Wrappers
  import opened Errors
  import opened Text
  import opened Constants
  import opened Records
  import opened Ledger
  import PR = ProductRepository

  /** No two active products share a name. */
  predicate UniqueNames(ps: seq<Product>)
  {
    forall i, j :: 0 <= i < j < |ps| && !ps[i].deleted && !ps[j].deleted && ps[i].name.Some? ==> ps[i].name != ps[j].name
  }

  /** `__validate_product_by_id`: NotFound, naming the id, unless the product is active. */
  function ValidateById(db: Db, id: Id): (r: Result<Id>)
    ensures r.Ok? <==> ActiveProduct(db, id)
    ensures r.Ok? ==> r.value == id
    ensures r.Err? ==> r.failure == Raised(NotFound, Format(PRODUCT_BY_ID_NOT_FOUND, Str(id)))
  {
    if PR.GetById(db, id).None? then Err(Raised(NotFound, Format(PRODUCT_BY_ID_NOT_FOUND, Str(id)))) else Ok(id)
  }

  /**
   `__validate_product_by_name`: a null or empty name is required-missing; a
   name held by any active product is taken.
   */
  function ValidateByName(db: Db, name: Option<string>): (r: Result<()>)
    ensures (name.None? || name.value == EMPTY_CHAR) ==> r == Err(Raised(Unprocessable, PRODUCT_NAME_IS_REQUIRED))
    ensures name.Some? && name.value != EMPTY_CHAR ==>
      (r.Ok? <==> forall j :: 0 <= j < |db.products| ==> !PR.NamedActive(db.products, j, name.value))
    ensures name.Some? && name.value != EMPTY_CHAR && r.Err? ==>
      r.failure == Raised(Unprocessable, Format(PRODUCT_BY_NAME_EXISTS, name.value))
  {
    if name.None? || name.value == EMPTY_CHAR then Err(Raised(Unprocessable, PRODUCT_NAME_IS_REQUIRED))
    else if PR.GetByName(db, name) != Ok(None) then Err(Raised(Unprocessable, Format(PRODUCT_BY_NAME_EXISTS, name.value)))
    else Ok(())
  }

  /** `create_product`: name, then price, then the write. */
  function Create(db: Db, p: PR.ProductPayload): (r: Step<Db, Id>)
    ensures r.result.Err? ==> r.state == db && r.result.failure.Raised? && r.result.failure.kind == Unprocessable
    ensures r.result.Ok? <==> ValidateByName(db, p.name).Ok? && p.price.Some? && p.price.value > 0
    ensures r.result.Ok? ==> PR.AppendedProduct(db, r.state, r.result.value)
    ensures r.result.Ok? ==> r.state.products[r.result.value] == Product(p.name, p.description, p.price, false, false)
  {
    match ValidateByName(db, p.name)
    case Err(f) => Step(db, Err(f))
    case Ok(_) =>
      match PR.ValidatePrice(p.price)
      case Err(f) => Step(db, Err(f))
      case Ok(_) =>
        var (db', id) := PR.Create(db, p);
        Step(db', Ok(id))
  }

  /** `get_product_by_id`. */
  function Get(db: Db, id: Id): (r: Result<Product>)
    ensures r.Ok? <==> ActiveProduct(db, id)
    ensures r.Ok? ==> r.value == db.products[id]
    ensures r.Err? ==> r.failure == Raised(NotFound, Format(PRODUCT_BY_ID_NOT_FOUND, Str(id)))
  {
    match ValidateById(db, id)
    case Err(f) => Err(f)
    case Ok(_) => Ok(db.products[id])
  }

  /** `delete_product_by_id`: a soft delete of an active product. */
  function Delete(db: Db, id: Id): (r: Step<Db, Product>)
    ensures r.result.Ok? <==> ActiveProduct(db, id)
    ensures r.result.Err? ==> r.state == db && r.result.failure == Raised(NotFound, Format(PRODUCT_BY_ID_NOT_FOUND, Str(id)))
    ensures r.result.Ok? ==> r.state == PR.Delete(db, id) && r.result.value == db.products[id].(deleted := true)
  {
    match ValidateById(db, id)
    case Err(f) => Step(db, Err(f))
    case Ok(_) =>
      var db' := PR.Delete(db, id);
      Step(db', Ok(db'.products[id]))
  }

  /**
   `update_product`: the id must name an active product (NotFound), then the
   new name must be present and held by no active product, the product's own
   current name included (Unprocessable), then the price must be positive.
   */
  function Update(db: Db, p: PR.ProductPayload, id: Id): (r: Step<Db, Id>)
    ensures !ActiveProduct(db, id) ==> r == Step(db, Err(Raised(NotFound, Format(PRODUCT_BY_ID_NOT_FOUND, Str(id)))))
    ensures ActiveProduct(db, id) && ValidateByName(db, p.name).Err? ==> r == Step(db, Err(ValidateByName(db, p.name).failure))
    ensures ActiveProduct(db, id) && ValidateByName(db, p.name).Ok? && !(p.price.Some? && p.price.value > 0) ==>
      r == Step(db, Err(Raised(Unprocessable, VALID_PRICE_MUST_BE_SET)))
    ensures r.result.Err? ==> r.state == db
    ensures r.result.Ok? ==> r.result.value == id && r.state == PR.Update(db, p, id)
  {
    match ValidateById(db, id)
    case Err(f) => Step(db, Err(f))
    case Ok(_) =>
      match ValidateByName(db, p.name)
      case Err(f) => Step(db, Err(f))
      case Ok(_) =>
        match PR.ValidatePrice(p.price)
        case Err(f) => Step(db, Err(f))
        case Ok(_) => Step(PR.Update(db, p, id), Ok(id))
  }

  /** Resubmitting a product's current name in an update is refused as taken. */
  lemma UpdateRefusesOwnName(db: Db, p: PR.ProductPayload, id: Id)
    requires ActiveProduct(db, id)
    requires p.name == db.products[id].name && p.name.Some? && p.name.value != EMPTY_CHAR
    ensures Update(db, p, id) == Step(db, Err(Raised(Unprocessable, Format(PRODUCT_BY_NAME_EXISTS, p.name.value))))
  {
    assert PR.NamedActive(db.products, id, p.name.value);
  }

  /** Creating and updating keep active names unique. */
  lemma {:induction false} CatalogKeepsUniqueNames(db: Db, p: PR.ProductPayload, id: Id)
    requires UniqueNames(db.products)
    ensures UniqueNames(Create(db, p).state.products)
    ensures UniqueNames(Update(db, p, id).state.products)
    ensures UniqueNames(Delete(db, id).state.products)
  {
    var c := Create(db, p);
    if c.result.Ok? {
      var ps := c.state.products;
      var n := |db.products|;
      forall i, j | 0 <= i < j < |ps| && !ps[i].deleted && !ps[j].deleted && ps[i].name.Some?
        ensures ps[i].name != ps[j].name
      {
        if j == n {
          assert ps[i] == db.products[i];
          assert !PR.NamedActive(db.products, i, p.name.value);
        } else {
          assert ps[i] == db.products[i] && ps[j] == db.products[j];
        }
      }
    }
    var u := Update(db, p, id);
    if u.result.Ok? {
      var ps := u.state.products;
      forall i, j | 0 <= i < j < |ps| && !ps[i].deleted && !ps[j].deleted && ps[i].name.Some?
        ensures ps[i].name != ps[j].name
      {
        if i == id {
          assert !PR.NamedActive(db.products, j, p.name.value);
        } else if j == id {
          assert !PR.NamedActive(db.products, i, p.name.value);
        } else {
          assert ps[i] == db.products[i] && ps[j] == db.products[j];
        }
      }
    }
  }

  /** No catalog operation changes a price; together with `TotalPricesKept`, no catalog operation moves an order total. */
  lemma CatalogKeepsPrices(db: Db, p: PR.ProductPayload, id: Id)
    ensures PricesKept(db.products, Create(db, p).state.products)
    ensures PricesKept(db.products, Update(db, p, id).state.products)
    ensures PricesKept(db.products, Delete(db, id).state.products)
  {
  }
}
