/**
 What the line-item and product services do to the order totals. A
 successful line-item operation keeps every reconciled order reconciled, the
 product operations never touch a price that a total depends on, and a
 line-item change under a deleted product leaves the order's total behind.
 */
module Reconciliation {

  import opened Wrappers
  import opened Errors
  import opened Records
  import opened Ledger
  import PS = ProductService
  import PR = ProductRepository
  import OR = OrderRepository
  import LR = LineItemRepository
  import PQS = ProductQuantityService
  import OS = OrderService

  /** Adding a line item that succeeds keeps every order reconciled, and keeps referential integrity. */
  lemma CreateKeepsReconciled(db: Db, p: PQS.LineItemPayload, o: Id, o2: Id)
    requires Reconciled(db, o2) && Integrity(db)
    ensures PQS.Create(db, p, o).result.Ok? ==>
      Reconciled(PQS.Create(db, p, o).state, o2) && Integrity(PQS.Create(db, p, o).state)
  {
    var r := PQS.Create(db, p, o);
    if r.result.Ok? {
      var e := ProductQuantity(o, p.product, p.quantity, false, false);
      TotalAppend(db.products, db.entries, e, o2);
      assert r.state.entries[|db.entries|] == e;
    }
  }

  /** Changing a line item's quantity, when it succeeds, keeps every order reconciled. */
  lemma UpdateKeepsReconciled(db: Db, q: Option<int>, o: Id, id: Id, o2: Id)
    requires Reconciled(db, o2)
    ensures PQS.Update(db, q, o, id).result.Ok? ==> Reconciled(PQS.Update(db, q, o, id).state, o2)
  {
    var r := PQS.Update(db, q, o, id);
    if r.result.Ok? {
      var old_ := db.entries[id];
      var e := old_.(quantity := q, updated := true);
      if o2 == o {
        TotalReplace(db.products, db.entries, id, e, o);
        var price := db.products[old_.product].price.value;
        assert (q.value - old_.quantity.value) * price == q.value * price - old_.quantity.value * price;
      } else {
        TotalIgnoresOtherOrders(db.products, db.entries, id, e, o2);
      }
    }
  }

  /** Removing a line item, when it succeeds, keeps every order reconciled. */
  lemma DeleteKeepsReconciled(db: Db, o: Id, id: Id, o2: Id)
    requires Reconciled(db, o2)
    ensures PQS.Delete(db, o, id).result.Ok? ==> Reconciled(PQS.Delete(db, o, id).state, o2)
  {
    var r := PQS.Delete(db, o, id);
    if r.result.Ok? {
      var e := db.entries[id].(deleted := true);
      if o2 == o {
        TotalReplace(db.products, db.entries, id, e, o);
      } else {
        TotalIgnoresOtherOrders(db.products, db.entries, id, e, o2);
      }
    }
  }

  /**
   Creating, updating and deleting products keeps every order reconciled:
   none of them changes a price, and a line item only reads its product's price.
   */
  lemma {:induction false} CatalogKeepsReconciled(db: Db, p: PR.ProductPayload, id: Id, o: Id)
    requires Reconciled(db, o) && Integrity(db)
    ensures Reconciled(PS.Create(db, p).state, o) && Integrity(PS.Create(db, p).state)
    ensures Reconciled(PS.Update(db, p, id).state, o) && Integrity(PS.Update(db, p, id).state)
    ensures Reconciled(PS.Delete(db, id).state, o) && Integrity(PS.Delete(db, id).state)
  {
    PS.CatalogKeepsPrices(db, p, id);
    var c := PS.Create(db, p).state;
    var u := PS.Update(db, p, id).state;
    var d := PS.Delete(db, id).state;
    TotalPricesKept(db.products, c.products, db.entries, o);
    TotalPricesKept(db.products, u.products, db.entries, o);
    TotalPricesKept(db.products, d.products, db.entries, o);
  }

  /**
   Changing the quantity of a line item whose product was deleted: the new
   quantity is written, the price lookup then fails, and the order keeps its
   old total, which no longer matches its line items.
   */
  lemma UpdateUnderDeletedProductDrifts(db: Db, q: int, o: Id, id: Id)
    requires Reconciled(db, o) && ActiveOrder(db, o)
    requires ActiveEntryOf(db.entries, id, o) && db.entries[id].quantity.Some?
    requires db.entries[id].product < |db.products|
    requires db.products[db.entries[id].product].deleted
    requires db.products[db.entries[id].product].price.Some? && db.products[db.entries[id].product].price.value != 0
    requires q > 0 && q != db.entries[id].quantity.value
    ensures PQS.Update(db, Some(q), o, id).result == Err(Unhandled)
    ensures PQS.Update(db, Some(q), o, id).state.orders == db.orders
    ensures PQS.Update(db, Some(q), o, id).state.entries[id].quantity == Some(q)
    ensures !Reconciled(PQS.Update(db, Some(q), o, id).state, o)
  {
    var r := PQS.Update(db, Some(q), o, id);
    var old_ := db.entries[id];
    var e := old_.(quantity := Some(q), updated := true);
    TotalReplace(db.products, db.entries, id, e, o);
    var price := db.products[old_.product].price.value;
    var diff := q - old_.quantity.value;
    assert diff * price != 0;
    assert q * price - old_.quantity.value * price == diff * price;
  }

  /**
   Removing a line item whose product was soft-deleted first soft-deletes the
   item, then reads the price of a product the lookup no longer finds and
   fails; the total keeps the removed item's value.
   */
  lemma DeleteUnderDeletedProductDrifts(db: Db, o: Id, id: Id)
    requires Reconciled(db, o) && ActiveOrder(db, o)
    requires ActiveEntryOf(db.entries, id, o) && db.entries[id].quantity.Some? && db.entries[id].quantity.value != 0
    requires db.entries[id].product < |db.products|
    requires db.products[db.entries[id].product].deleted
    requires db.products[db.entries[id].product].price.Some? && db.products[db.entries[id].product].price.value != 0
    ensures PQS.Delete(db, o, id).result == Err(Unhandled)
    ensures PQS.Delete(db, o, id).state.orders == db.orders
    ensures PQS.Delete(db, o, id).state.entries[id].deleted
    ensures !Reconciled(PQS.Delete(db, o, id).state, o)
  {
    var e := db.entries[id];
    TotalReplace(db.products, db.entries, id, e.(deleted := true), o);
    assert e.quantity.value * db.products[e.product].price.value != 0;
  }

  /**
   Every active line item of order `o` is for an existing product, and none
   is for a product carrying the name one of `lines` gives.
   */
  predicate FreshFor(db: Db, o: Id, lines: seq<OS.LinePayload>)
  {
    forall k :: 0 <= k < |db.entries| && ActiveEntryOf(db.entries, k, o) ==>
      && db.entries[k].product < |db.products|
      && forall i :: 0 <= i < |lines| ==> db.products[db.entries[k].product].name != lines[i].product.name
  }

  /** No two lines of the payload name the same product. */
  predicate DistinctNames(lines: seq<OS.LinePayload>)
  {
    forall i, j :: 0 <= i < j < |lines| ==> lines[i].product.name != lines[j].product.name
  }

  /** A catalog that only grew keeps every price, so every total. */
  lemma GrowthKeepsTotals(db: Db, ps': seq<Product>, o: Id)
    requires Integrity(db) && db.products <= ps'
    ensures Total(ps', db.entries, o) == Total(db.products, db.entries, o)
    ensures Integrity(db.(products := ps'))
  {
    assert forall j :: 0 <= j < |db.products| ==> ps'[j] == db.products[j];
    TotalPricesKept(db.products, ps', db.entries, o);
  }

  /**
   Resolving the product of the first line, when no active line item of
   order `o` is for a product named as a line is, keeps the order's sum and
   leaves no line item of `o` for the resolved product.
   */
  lemma ResolveKeepsFresh(db: Db, o: Id, lines: seq<OS.LinePayload>)
    requires Integrity(db) && |lines| > 0
    requires FreshFor(db, o, lines)
    ensures OS.ResolveProduct(OS.PriceStored, db, lines[0].product).result.Ok? ==>
      var r := OS.ResolveProduct(OS.PriceStored, db, lines[0].product);
      && Integrity(r.state)
      && FreshFor(r.state, o, lines)
      && PR.NamedActive(r.state.products, r.result.value.0, lines[0].product.name.value)
      && LR.FirstActiveFor(r.state.entries, o, r.result.value.0).None?
      && Total(r.state.products, r.state.entries, o) == Total(db.products, db.entries, o)
  {
    var r := OS.ResolveProduct(OS.PriceStored, db, lines[0].product);
    if r.result.Ok? {
      var db1 := r.state;
      GrowthKeepsTotals(db, db1.products, o);
      forall k | 0 <= k < |db1.entries| && ActiveEntryOf(db1.entries, k, o)
        ensures db1.products[db1.entries[k].product] == db.products[db.entries[k].product]
      {
      }
    }
  }

  /** A new line item of order `o` adds its value to the order's sum and keeps references valid. */
  lemma PutNewEntryReconciles(db: Db, o: Id, product: Id, quantity: Option<int>)
    requires Integrity(db)
    requires LR.FirstActiveFor(db.entries, o, product).None?
    ensures OS.PutEntry(db, o, product, quantity).Ok? ==>
      var db2 := OS.PutEntry(db, o, product, quantity).value;
      && Integrity(db2)
      && Total(db2.products, db2.entries, o)
         == Total(db.products, db.entries, o) + LineValue(db.products, ProductQuantity(o, product, quantity, false, false))
  {
    TotalAppend(db.products, db.entries, ProductQuantity(o, product, quantity, false, false), o);
  }

  /**
   A new line item for a product named as the first line is, where the
   lines name distinct products, leaves the remaining lines' names new to
   the order.
   */
  lemma PutNewEntryKeepsFresh(db: Db, o: Id, product: Id, quantity: Option<int>, lines: seq<OS.LinePayload>)
    requires |lines| > 0 && DistinctNames(lines) && FreshFor(db, o, lines)
    requires lines[0].product.name.Some? && PR.NamedActive(db.products, product, lines[0].product.name.value)
    requires LR.FirstActiveFor(db.entries, o, product).None?
    ensures OS.PutEntry(db, o, product, quantity).Ok? ==> FreshFor(OS.PutEntry(db, o, product, quantity).value, o, lines[1..])
  {
    var put := OS.PutEntry(db, o, product, quantity);
    if put.Ok? {
      var db2 := put.value;
      var rest := lines[1..];
      forall k | 0 <= k < |db2.entries| && ActiveEntryOf(db2.entries, k, o)
        ensures db2.entries[k].product < |db2.products|
        ensures forall i :: 0 <= i < |rest| ==> db2.products[db2.entries[k].product].name != rest[i].product.name
      {
        assert forall i :: 0 <= i < |rest| ==> rest[i] == lines[i + 1];
        if k < |db.entries| {
          assert db2.entries[k] == db.entries[k];
          assert ActiveEntryOf(db.entries, k, o);
        }
      }
    }
  }

  /**
   A line whose product name no active line item of the order carries adds a
   new line item, so the order's sum grows by exactly the line's price, and
   the lines after it stay distinct and new to the order.
   */
  lemma AddLineReconciles(db: Db, o: Id, lines: seq<OS.LinePayload>)
    requires Integrity(db) && |lines| > 0
    requires DistinctNames(lines) && FreshFor(db, o, lines)
    ensures DistinctNames(lines[1..])
    ensures OS.AddLine(OS.PriceStored, db, o, lines[0]).result.Ok? ==>
      var step := OS.AddLine(OS.PriceStored, db, o, lines[0]);
      && Integrity(step.state)
      && FreshFor(step.state, o, lines[1..])
      && Total(step.state.products, step.state.entries, o) == Total(db.products, db.entries, o) + step.result.value
  {
    assert forall i :: 0 <= i < |lines| - 1 ==> lines[1..][i] == lines[i + 1];
    var resolved := OS.ResolveProduct(OS.PriceStored, db, lines[0].product);
    ResolveKeepsFresh(db, o, lines);
    if resolved.result.Ok? {
      var (product, price) := resolved.result.value;
      PutNewEntryReconciles(resolved.state, o, product, lines[0].quantity);
      PutNewEntryKeepsFresh(resolved.state, o, product, lines[0].quantity, lines);
    }
  }

  /**
   Part way through the loop of order creation for order `o`: integrity
   holds, the running total is the order's sum, and the lines left name
   distinct products that no active line item of the order is for.
   */
  predicate LoopReconciled(o: Id, d: Db, ls: seq<OS.LinePayload>, t: int)
  {
    Integrity(d) && Total(d.products, d.entries, o) == t && DistinctNames(ls) && FreshFor(d, o, ls)
  }

  /**
   With distinct names, each line of the loop adds a new line item, so the
   running total stays equal to the ledger's total for the order.
   */
  lemma AddLinesReconciles(db: Db, o: Id, lines: seq<OS.LinePayload>, total: int)
    requires LoopReconciled(o, db, lines, total)
    ensures OS.AddLines(OS.PriceStored, db, o, lines, total).result.Ok? ==>
      && Integrity(OS.AddLines(OS.PriceStored, db, o, lines, total).state)
      && Total(OS.AddLines(OS.PriceStored, db, o, lines, total).state.products,
               OS.AddLines(OS.PriceStored, db, o, lines, total).state.entries, o)
         == OS.AddLines(OS.PriceStored, db, o, lines, total).result.value
  {
    var body := OS.Pass(OS.PriceStored, o);
    var inv := (d: Db, ls: seq<OS.LinePayload>, t: int) => LoopReconciled(o, d, ls, t);
    forall d, ls, t | |ls| > 0 && inv(d, ls, t) && body(d, ls[0]).result.Ok?
      ensures inv(body(d, ls[0]).state, ls[1..], t + body(d, ls[0]).result.value)
    {
      AddLineReconciles(d, o, ls);
    }
    OS.RunLinesInduction(body, inv, db, lines, total);
  }

  /**
   Creating an order whose lines name distinct products leaves the new order
   reconciled: its stored total is the sum over its line items.
   */
  lemma CreateReconciles(db: Db, p: OS.OrderPayload)
    requires Integrity(db) && DistinctNames(p.lines)
    ensures OS.Create(db, p).result.Ok? ==>
      Reconciled(OS.Create(db, p).state, |db.orders|) && Integrity(OS.Create(db, p).state)
  {
    var (db1, o) := OR.Create(db, p.externalClient, None);
    assert forall k :: 0 <= k < |db1.entries| ==> !ActiveEntryOf(db1.entries, k, o);
    TotalWithoutActiveEntries(db1.products, db1.entries, o);
    AddLinesReconciles(db1, o, p.lines, 0);
  }

  /** Creating or overwriting a line item of order `o` leaves every other order's total alone. */
  lemma PutEntryKeepsOthers(db: Db, o: Id, product: Id, quantity: Option<int>, o2: Id)
    requires Integrity(db) && o2 != o
    ensures OS.PutEntry(db, o, product, quantity).Ok? ==>
      && Integrity(OS.PutEntry(db, o, product, quantity).value)
      && Total(db.products, OS.PutEntry(db, o, product, quantity).value.entries, o2) == Total(db.products, db.entries, o2)
  {
    var put := OS.PutEntry(db, o, product, quantity);
    if put.Ok? {
      if LR.FirstActiveFor(db.entries, o, product).None? {
        var e := ProductQuantity(o, product, quantity, false, false);
        TotalAppend(db.products, db.entries, e, o2);
        assert forall k :: 0 <= k < |db.entries| ==> put.value.entries[k] == db.entries[k];
      } else {
        var k := LR.FirstActiveFor(db.entries, o, product).value;
        TotalIgnoresOtherOrders(db.products, db.entries, k, db.entries[k].(quantity := quantity, updated := true), o2);
      }
    }
  }

  /** One pass of the creation loop keeps every line item's references valid. */
  lemma AddLineKeepsIntegrity(how: OS.ProductCreation, db: Db, o: Id, line: OS.LinePayload)
    requires Integrity(db)
    ensures Integrity(OS.AddLine(how, db, o, line).state)
  {
    var resolved := OS.ResolveProduct(how, db, line.product);
    GrowthKeepsTotals(db, resolved.state.products, o);
    if resolved.result.Ok? {
      var (product, price) := resolved.result.value;
      PutEntryKeepsOthers(resolved.state, o, product, line.quantity, o + 1);
    }
  }

  /** One pass of the creation loop only touches line items of its own order, whatever happens. */
  lemma AddLineKeepsOthers(how: OS.ProductCreation, db: Db, o: Id, line: OS.LinePayload, o2: Id)
    requires Integrity(db) && o2 != o
    ensures Total(OS.AddLine(how, db, o, line).state.products, OS.AddLine(how, db, o, line).state.entries, o2)
         == Total(db.products, db.entries, o2)
  {
    var resolved := OS.ResolveProduct(how, db, line.product);
    var db1 := resolved.state;
    GrowthKeepsTotals(db, db1.products, o2);
    if resolved.result.Ok? {
      var (product, price) := resolved.result.value;
      PutEntryKeepsOthers(db1, o, product, line.quantity, o2);
    }
  }

  /** The loop of order creation keeps every line item's references valid, whatever happens. */
  lemma AddLinesKeepsIntegrity(how: OS.ProductCreation, db: Db, o: Id, lines: seq<OS.LinePayload>, total: int)
    requires Integrity(db)
    ensures Integrity(OS.AddLines(how, db, o, lines, total).state)
  {
    var inv := (d: Db) => Integrity(d);
    forall d, l | inv(d)
      ensures inv(OS.Pass(how, o)(d, l).state)
    {
      AddLineKeepsIntegrity(how, d, o, l);
    }
    OS.RunLinesKeeps(OS.Pass(how, o), inv, db, lines, total);
  }

  /** The loop of order creation only touches line items of its own order, whatever happens. */
  lemma AddLinesKeepsOthers(how: OS.ProductCreation, db: Db, o: Id, lines: seq<OS.LinePayload>, total: int, o2: Id)
    requires Integrity(db) && o2 != o
    ensures Total(OS.AddLines(how, db, o, lines, total).state.products, OS.AddLines(how, db, o, lines, total).state.entries, o2)
         == Total(db.products, db.entries, o2)
  {
    var before := Total(db.products, db.entries, o2);
    var inv := (d: Db) => Integrity(d) && Total(d.products, d.entries, o2) == before;
    forall d, l | inv(d)
      ensures inv(OS.Pass(how, o)(d, l).state)
    {
      AddLineKeepsIntegrity(how, d, o, l);
      AddLineKeepsOthers(how, d, o, l, o2);
    }
    OS.RunLinesKeeps(OS.Pass(how, o), inv, db, lines, total);
  }

  /**
   Creating an order never disturbs another order's reconciliation, even
   when it fails half-way, and keeps referential integrity.
   */
  lemma CreateKeepsOtherOrders(how: OS.ProductCreation, db: Db, p: OS.OrderPayload, o2: Id)
    requires Integrity(db) && Reconciled(db, o2)
    ensures Reconciled(OS.CreateWith(how, db, p).state, o2) && Integrity(OS.CreateWith(how, db, p).state)
  {
    var (db1, o) := OR.Create(db, p.externalClient, None);
    assert db1.orders[o2] == db.orders[o2];
    if p.externalClient.Some? {
      var added := OS.AddLines(how, db1, o, p.lines, 0);
      AddLinesKeepsOthers(how, db1, o, p.lines, 0, o2);
      AddLinesKeepsIntegrity(how, db1, o, p.lines, 0);
      var r := OS.CreateWith(how, db, p).state;
      assert r.products == added.state.products && r.entries == added.state.entries;
      assert r.orders[o2] == added.state.orders[o2];
    }
  }

  /** Changing an order's client writes neither a total nor a line item, so every order stays reconciled. */
  lemma OrderUpdateKeepsReconciled(db: Db, client: Option<string>, id: Id, o2: Id)
    requires Reconciled(db, o2)
    ensures Reconciled(OS.Update(db, client, id).state, o2)
  {
  }

  /**
   Deleting an order marks it and its line items deleted, which leaves
   every other order's total and sum, so every other order stays reconciled.
   */
  lemma OrderDeleteKeepsOthers(db: Db, id: Id, o2: Id)
    requires Reconciled(db, o2) && o2 != id
    ensures Reconciled(OS.Delete(db, id).state, o2)
  {
    var r := OS.Delete(db, id);
    if r.result.Ok? {
      TotalSameContributions(db.products, db.entries, r.state.entries, o2);
    }
  }

  /** A product payload for bananas at 2500, and the store as the order flow finds it after the order row for "Tienda". */
  const Banana := PR.ProductPayload(Some("banana"), None, Some(2500))
  const BananaCatalog := [Product(Some("banana"), None, Some(2500), false, false)]
  const TiendaOrders := [Order(Some("Tienda"), None, false, false, false)]

  /** The first banana line creates the product and a line item of quantity one, worth 2500. */
  lemma FirstBananaLine()
    ensures OS.AddLine(OS.PriceStored, Db([], TiendaOrders, []), 0, OS.LinePayload(Banana, Some(1)))
         == Step(Db(BananaCatalog, TiendaOrders, [ProductQuantity(0, 0, Some(1), false, false)]), Ok(2500))
  {
    var db1 := Db([], TiendaOrders, []);
    var db1a := db1.(products := BananaCatalog);
    assert PR.FirstActiveNamedFrom([], "banana", 0).None?;
    assert OS.ResolveProduct(OS.PriceStored, db1, Banana) == Step(db1a, Ok((0, Some(2500))));
    assert LR.FirstActiveFor(db1a.entries, 0, 0).None?;
    assert OS.PutEntry(db1a, 0, 0, Some(1)) == Ok(db1a.(entries := [ProductQuantity(0, 0, Some(1), false, false)]));
  }

  /** The second banana line finds the product and overwrites the line item's quantity with ten, worth 25000. */
  lemma SecondBananaLine()
    ensures OS.AddLine(OS.PriceStored, Db(BananaCatalog, TiendaOrders, [ProductQuantity(0, 0, Some(1), false, false)]), 0, OS.LinePayload(Banana, Some(10)))
         == Step(Db(BananaCatalog, TiendaOrders, [ProductQuantity(0, 0, Some(10), true, false)]), Ok(25000))
  {
    var db2 := Db(BananaCatalog, TiendaOrders, [ProductQuantity(0, 0, Some(1), false, false)]);
    var db3 := db2.(entries := [ProductQuantity(0, 0, Some(10), true, false)]);
    assert PR.FirstActiveNamedFrom(BananaCatalog, "banana", 0) == Some(0);
    assert OS.ResolveProduct(OS.PriceStored, db2, Banana) == Step(db2, Ok((0, Some(2500))));
    assert LR.FirstActiveFor(db2.entries, 0, 0) == Some(0);
    assert db2.entries[0 := db2.entries[0].(quantity := Some(10), updated := true)] == db3.entries;
    assert OS.PutEntry(db2, 0, 0, Some(10)) == Ok(db3);
  }

  /**
   Two lines naming the same product: the second overwrites the line item's
   quantity, while the stored total counts both lines, so the new order is
   not reconciled (27500 stored, 25000 on its one line item).
   */
  lemma RepeatedProductBreaksReconciliation()
    ensures var p := OS.OrderPayload(Some("Tienda"), [OS.LinePayload(Banana, Some(1)), OS.LinePayload(Banana, Some(10))]);
      var r := OS.Create(Db([], [], []), p);
      && r.result == Ok(0)
      && r.state.entries == [ProductQuantity(0, 0, Some(10), true, false)]
      && r.state.orders[0].totalPrice == Some(27500)
      && Total(r.state.products, r.state.entries, 0) == 25000
      && !Reconciled(r.state, 0)
  {
    var lines := [OS.LinePayload(Banana, Some(1)), OS.LinePayload(Banana, Some(10))];
    var db1 := Db([], TiendaOrders, []);
    var db2 := Db(BananaCatalog, TiendaOrders, [ProductQuantity(0, 0, Some(1), false, false)]);
    var db3 := db2.(entries := [ProductQuantity(0, 0, Some(10), true, false)]);
    var body := OS.Pass(OS.PriceStored, 0);
    FirstBananaLine();
    SecondBananaLine();
    assert OS.AddLines(OS.PriceStored, db1, 0, lines, 0) == OS.RunLines(body, db2, lines[1..], 2500);
    assert OS.RunLines(body, db2, lines[1..], 2500) == OS.RunLines(body, db3, [], 27500);
    assert Total(db3.products, db3.entries, 0) == 25000 by {
      assert db3.entries[..0] == [];
    }
  }
}
