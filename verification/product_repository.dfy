/**
 The product store (src/backend/api/repositories/product_repository.py).
 Queries see active products only; deletion is a soft delete.
 */
module ProductRepository {

  import opened Wrappers
  import opened Errors
  import opened Constants
  import opened Validations
  import opened Records

  /** The fields a product request carries once the serializer has accepted it. */
  datatype ProductPayload = ProductPayload(name: Option<string>, description: Option<string>, price: Option<int>)

  /** An active product named `name` sits at position `j`. */
  predicate NamedActive(ps: seq<Product>, j: nat, name: string)
  {
    j < |ps| && !ps[j].deleted && ps[j].name == Some(name)
  }

  /** The first active product named `name` at or after position `from`. */
  function FirstActiveNamedFrom(ps: seq<Product>, name: string, from: nat): (r: Option<Id>)
    requires from <= |ps|
    ensures r.Some? ==> from <= r.value && NamedActive(ps, r.value, name)
    ensures r.Some? ==> forall j :: from <= j < r.value ==> !NamedActive(ps, j, name)
    ensures r.None? ==> forall j :: from <= j < |ps| ==> !NamedActive(ps, j, name)
    decreases |ps| - from
  {
    if from == |ps| then None
    else if NamedActive(ps, from, name) then Some(from)
    else FirstActiveNamedFrom(ps, name, from + 1)
  }

  /** `get_product_by_id(id).first()`: the product when it exists and is not soft-deleted. */
  function GetById(db: Db, id: Id): (r: Option<Product>)
    ensures r.Some? <==> ActiveProduct(db, id)
    ensures r.Some? ==> r.value == db.products[id] && !r.value.deleted
  {
    if ActiveProduct(db, id) then Some(db.products[id]) else None
  }

  /**
   `get_product_by_name(name).first()`: a null or empty name is refused with
   InternalServerError; otherwise the lowest-numbered active product with that name.
   */
  function GetByName(db: Db, name: Option<string>): (r: Result<Option<Id>>)
    ensures r.Err? <==> (name.None? || name.value == EMPTY_CHAR)
    ensures r.Err? ==> r.failure == Default(InternalServerError)
    ensures r.Ok? && r.value.Some? ==> NamedActive(db.products, r.value.value, name.value)
    ensures r.Ok? && r.value.Some? ==> forall j :: 0 <= j < r.value.value ==> !NamedActive(db.products, j, name.value)
    ensures r.Ok? && r.value.None? ==> forall j :: 0 <= j < |db.products| ==> !NamedActive(db.products, j, name.value)
  {
    match IsNullOrEmptyString(name)
    case Err(f) => Err(f)
    case Ok(_) => Ok(FirstActiveNamedFrom(db.products, name.value, 0))
  }

  /**
   `validate_product_price`, which the repository file does not define: the
   behaviour the tests expect, a null, zero or negative price refused as
   Unprocessable.
   */
  function ValidatePrice(price: Option<int>): (r: Result<()>)
    ensures r.Ok? <==> (price.Some? && price.value > 0)
    ensures r.Err? ==> r.failure == Raised(Unprocessable, VALID_PRICE_MUST_BE_SET)
  {
    if price.None? || price.value <= 0 then Err(Raised(Unprocessable, VALID_PRICE_MUST_BE_SET)) else Ok(())
  }

  /** Only the product table changes, by one record appended at the end. */
  predicate AppendedProduct(db: Db, db': Db, id: Id)
  {
    && db'.orders == db.orders
    && db'.entries == db.entries
    && id == |db.products|
    && |db'.products| == |db.products| + 1
    && db'.products[..id] == db.products
  }

  /**
   `create_product` as written: only name and description are stored, so the
   new product's price is null whatever the payload says.
   */
  function CreateAsWritten(db: Db, p: ProductPayload): (r: (Db, Id))
    ensures AppendedProduct(db, r.0, r.1)
    ensures r.0.products[r.1] == Product(p.name, p.description, None, false, false)
  {
    (db.(products := db.products + [Product(p.name, p.description, None, false, false)]), |db.products|)
  }

  /**
   `create_product` with the payload's price stored as well. The new product
   is active and never updated; its name, description and price are the payload's.
   */
  function Create(db: Db, p: ProductPayload): (r: (Db, Id))
    ensures AppendedProduct(db, r.0, r.1)
    ensures r.0.products[r.1] == Product(p.name, p.description, p.price, false, false)
  {
    (db.(products := db.products + [Product(p.name, p.description, p.price, false, false)]), |db.products|)
  }

  /** The two versions differ exactly in the stored price. */
  lemma CreateAsWrittenDropsPrice(db: Db, p: ProductPayload)
    requires p.price.Some?
    ensures CreateAsWritten(db, p).0.products[|db.products|].price == None
    ensures Create(db, p).0.products[|db.products|].price == p.price
    ensures CreateAsWritten(db, p).0 == Create(db, p).0.(products := Create(db, p).0.products[|db.products| := Product(p.name, p.description, None, false, false)])
  {
  }

  /** `delete_product`: marks the product deleted and changes nothing else. */
  function Delete(db: Db, id: Id): (db': Db)
    requires id < |db.products|
    ensures db'.orders == db.orders && db'.entries == db.entries
    ensures |db'.products| == |db.products|
    ensures db'.products[id] == db.products[id].(deleted := true)
    ensures forall j :: 0 <= j < |db.products| && j != id ==> db'.products[j] == db.products[j]
  {
    db.(products := db.products[id := db.products[id].(deleted := true)])
  }

  /** A deleted product's name no longer blocks the name: lookups by name skip it. */
  lemma DeleteFreesName(db: Db, id: Id, name: string)
    requires ActiveProduct(db, id) && db.products[id].name == Some(name)
    requires forall j :: 0 <= j < |db.products| && j != id ==> !NamedActive(db.products, j, name)
    ensures GetByName(db, Some(name)) == Ok(Some(id)) || name == EMPTY_CHAR
    ensures GetByName(Delete(db, id), Some(name)) == Ok(None) || name == EMPTY_CHAR
  {
    if name != EMPTY_CHAR {
      var r := GetByName(db, Some(name));
      assert NamedActive(db.products, id, name);
      assert r.Ok? && r.value.Some? ==> r.value.value == id;
      var db' := Delete(db, id);
      var r' := GetByName(db', Some(name));
      forall j | 0 <= j < |db'.products|
        ensures !NamedActive(db'.products, j, name)
      {
        if j != id {
          assert db'.products[j] == db.products[j];
          assert !NamedActive(db.products, j, name);
        }
      }
      assert r'.Ok? && r'.value.None?;
    }
  }

  /**
   `update_product`: name and description become the payload's and the
   updated flag is set; price, deletion and every other record are untouched.
   */
  function Update(db: Db, p: ProductPayload, id: Id): (db': Db)
    requires id < |db.products|
    ensures db'.orders == db.orders && db'.entries == db.entries
    ensures |db'.products| == |db.products|
    ensures db'.products[id].name == p.name && db'.products[id].description == p.description
    ensures db'.products[id].price == db.products[id].price
    ensures db'.products[id].deleted == db.products[id].deleted && db'.products[id].updated
    ensures forall j :: 0 <= j < |db.products| && j != id ==> db'.products[j] == db.products[j]
  {
    db.(products := db.products[id := db.products[id].(name := p.name, description := p.description, updated := true)])
  }
}
