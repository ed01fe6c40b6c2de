/**
 The quantity the order total is meant to track: the sum, over the order's
 active line items, of quantity times the product's current unit price.
 */
module Ledger {

  import opened Wrappers
  import opened Records

  /** Quantity times unit price; a line with no quantity or no price adds nothing. */
  function LineValue(products: seq<Product>, e: ProductQuantity): int
  {
    if e.product < |products| && e.quantity.Some? && products[e.product].price.Some?
    then e.quantity.value * products[e.product].price.value
    else 0
  }

  /** What a line item adds to order `o`'s total: its value when it is active and belongs to `o`. */
  function Contribution(products: seq<Product>, e: ProductQuantity, o: Id): int
  {
    if !e.deleted && e.order == o then LineValue(products, e) else 0
  }

  /** The sum of the contributions of all line items to order `o`. */
  function Total(products: seq<Product>, entries: seq<ProductQuantity>, o: Id): int
  {
    if |entries| == 0 then 0
    else Total(products, entries[..|entries| - 1], o) + Contribution(products, entries[|entries| - 1], o)
  }

  /** The order's stored total equals the sum over its active line items. */
  predicate Reconciled(db: Db, o: Id)
  {
    o < |db.orders| && db.orders[o].totalPrice == Some(Total(db.products, db.entries, o))
  }

  /** Appending a line item adds exactly its contribution. */
  lemma TotalAppend(products: seq<Product>, entries: seq<ProductQuantity>, e: ProductQuantity, o: Id)
    ensures Total(products, entries + [e], o) == Total(products, entries, o) + Contribution(products, e, o)
  {
    assert (entries + [e])[..|entries|] == entries;
  }

  /** Replacing one line item swaps its contribution for the new one's. */
  lemma {:induction false} TotalReplace(products: seq<Product>, entries: seq<ProductQuantity>, i: nat, e: ProductQuantity, o: Id)
    requires i < |entries|
    ensures Total(products, entries[i := e], o)
         == Total(products, entries, o) - Contribution(products, entries[i], o) + Contribution(products, e, o)
    decreases |entries|
  {
    var n := |entries|;
    var updated := entries[i := e];
    if i == n - 1 {
      assert updated[..n - 1] == entries[..n - 1];
    } else {
      assert updated[..n - 1] == entries[..n - 1][i := e];
      TotalReplace(products, entries[..n - 1], i, e, o);
    }
  }

  /** No product's price changes, and the product table only grows. */
  predicate PricesKept(before: seq<Product>, after: seq<Product>)
  {
    |before| <= |after| && forall j :: 0 <= j < |before| ==> after[j].price == before[j].price
  }

  /** Totals only read prices: when the prices of every referenced product are kept, every total is kept. */
  lemma {:induction false} TotalPricesKept(before: seq<Product>, after: seq<Product>, entries: seq<ProductQuantity>, o: Id)
    requires PricesKept(before, after)
    requires forall k :: 0 <= k < |entries| ==> entries[k].product < |before|
    ensures Total(after, entries, o) == Total(before, entries, o)
    decreases |entries|
  {
    if |entries| > 0 {
      TotalPricesKept(before, after, entries[..|entries| - 1], o);
    }
  }

  /** Line items of other orders never enter order `o`'s total. */
  lemma {:induction false} TotalIgnoresOtherOrders(products: seq<Product>, entries: seq<ProductQuantity>, i: nat, e: ProductQuantity, o: Id)
    requires i < |entries|
    requires entries[i].order != o && e.order != o
    ensures Total(products, entries[i := e], o) == Total(products, entries, o)
  {
    TotalReplace(products, entries, i, e, o);
  }

  /** An order without active line items has total zero. */
  lemma {:induction false} TotalWithoutActiveEntries(products: seq<Product>, entries: seq<ProductQuantity>, o: Id)
    requires forall k :: 0 <= k < |entries| ==> !ActiveEntryOf(entries, k, o)
    ensures Total(products, entries, o) == 0
    decreases |entries|
  {
    if |entries| > 0 {
      var last := |entries| - 1;
      assert forall k :: 0 <= k < last ==> (ActiveEntryOf(entries[..last], k, o) <==> ActiveEntryOf(entries, k, o));
      assert !ActiveEntryOf(entries, last, o);
      TotalWithoutActiveEntries(products, entries[..last], o);
    }
  }

  /** Two ledgers whose line items contribute alike, position by position, give an order the same total. */
  lemma {:induction false} TotalSameContributions(products: seq<Product>, entries: seq<ProductQuantity>, entries': seq<ProductQuantity>, o: Id)
    requires |entries'| == |entries|
    requires forall k :: 0 <= k < |entries| ==> Contribution(products, entries'[k], o) == Contribution(products, entries[k], o)
    ensures Total(products, entries', o) == Total(products, entries, o)
    decreases |entries|
  {
    if |entries| > 0 {
      var last := |entries| - 1;
      assert forall k :: 0 <= k < last ==> entries[..last][k] == entries[k] && entries'[..last][k] == entries'[k];
      TotalSameContributions(products, entries[..last], entries'[..last], o);
    }
  }
}
