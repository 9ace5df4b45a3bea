/** `BasketRepository`: the basket aggregate on top of `AggregateBase`. Its
    state is a list of `(productId, amount)` entries; three reducers rebuild
    it from `basket_created_v1`, `item_added_v1` and `item_removed_v1`
    events, and three commands append those events. */
module BasketRepository {
  import opened Common
  import opened EventStore
  import AggregateBase

  /** One entry of `products`. The id is `None` when the event carried no
      `productId` (JavaScript `undefined`). */
  datatype ProductLine = ProductLine(productId: Option<string>, amount: int)

  /** A basket as the fold builds it: before `basket_created_v1` only `id` is set. */
  datatype Basket = Basket(id: string, products: Option<seq<ProductLine>>, created: Option<int>, updated: Option<int>)

  /** The parsed `event_data`: `{}` for a created event, `{ productId }` otherwise. */
  datatype BasketEventData = BasketEventData(productId: Option<string>)

  /** The three apply functions the constructor registers. */
  datatype BasketReducer = BasketCreatedV1 | ItemAddedV1 | ItemRemovedV1

  const BasketCreatedType: string := "basket_created_v1"
  const ItemAddedType: string := "item_added_v1"
  const ItemRemovedType: string := "item_removed_v1"

  /** `ApplyFunctions` as the constructor fills it. */
  const ApplyFunctions: map<string, BasketReducer> :=
    map[BasketCreatedType := BasketCreatedV1, ItemAddedType := ItemAddedV1, ItemRemovedType := ItemRemovedV1]

  /** `{ id: aggregateId } as Basket`. */
  function InitialBasket(aggregateId: string): Basket {
    Basket(aggregateId, None, None, None)
  }

  // ---------------------------------------------------------------------
  // The product list and its invariant

  /** No two entries share a product id. */
  predicate Distinct(products: seq<ProductLine>) {
    forall i, j :: 0 <= i < j < |products| ==> products[i].productId != products[j].productId
  }

  /** The invariant the reducers keep: distinct ids, every amount at least 1. */
  predicate WellFormed(products: seq<ProductLine>) {
    Distinct(products) && forall i :: 0 <= i < |products| ==> products[i].amount >= 1
  }

  /** A basket whose `products`, once present, are well formed. */
  predicate ValidBasket(b: Basket) {
    b.products.Some? ==> WellFormed(b.products.value)
  }

  /** How many of product `q` the list holds: the sum over all its entries. */
  function Quantity(products: seq<ProductLine>, q: Option<string>): int {
    if products == [] then 0
    else (if products[0].productId == q then products[0].amount else 0) + Quantity(products[1..], q)
  }

  /** `products.find((x) => x.productId === productId)`, as the index of the first match. */
  function FindProduct(products: seq<ProductLine>, productId: Option<string>): (r: Option<nat>)
    ensures r.None? <==> forall i :: 0 <= i < |products| ==> products[i].productId != productId
    ensures r.Some? ==> r.value < |products| && products[r.value].productId == productId
    ensures r.Some? ==> forall i :: 0 <= i < r.value ==> products[i].productId != productId
  {
    if products == [] then None
    else if products[0].productId == productId then Some(0)
    else
      match FindProduct(products[1..], productId)
      case None => None
      case Some(k) => Some(k + 1)
  }

  /** JavaScript truthiness of a product id: defined and not the empty string. */
  predicate Truthy(productId: Option<string>) {
    productId.Some? && productId.value != ""
  }

  /** `products.findIndex((x) => x.productId)`: the first entry whose id is truthy, or -1. */
  function FindTruthyIndex(products: seq<ProductLine>): (r: int)
    ensures -1 <= r < |products|
    ensures r == -1 <==> forall i :: 0 <= i < |products| ==> !Truthy(products[i].productId)
    ensures r >= 0 ==> Truthy(products[r].productId) && forall i :: 0 <= i < r ==> !Truthy(products[i].productId)
  {
    if products == [] then -1
    else if Truthy(products[0].productId) then 0
    else
      var k := FindTruthyIndex(products[1..]);
      if k == -1 then -1 else k + 1
  }

  /** `products.splice(start, 1)`: a negative start counts from the end; a start
      at or past the end removes nothing. */
  function Splice1(products: seq<ProductLine>, start: int): (r: seq<ProductLine>)
    ensures 0 < |products| && -|products| <= start < |products| ==>
              var k := if start < 0 then |products| + start else start;
              r == products[..k] + products[k + 1..]
    ensures start >= |products| ==> r == products
    ensures 0 < |products| && start < -|products| ==> r == products[1..]
  {
    var k := if start < 0 then (if |products| + start < 0 then 0 else |products| + start)
             else if start > |products| then |products| else start;
    if k < |products| then products[..k] + products[k + 1..] else products
  }

  /** The list part of `ApplyItemAddedV1`: bump the matching entry or append a new one. */
  function AddToProducts(products: seq<ProductLine>, productId: Option<string>): seq<ProductLine> {
    match FindProduct(products, productId)
    case Some(i) => products[i := products[i].(amount := products[i].amount + 1)]
    case None => products + [ProductLine(productId, 1)]
  }

  /** The list part of `ApplyItemRemovedV1` AS WRITTEN: when the matching entry's
      amount is 1 it splices at `findIndex((x) => x.productId)`, i.e. at the
      first entry with a truthy id (or, with none, the last entry). */
  function RemoveFromProductsAsWritten(products: seq<ProductLine>, productId: Option<string>): (r: seq<ProductLine>)
    ensures FindProduct(products, productId).None? ==> r == products
    ensures FindProduct(products, productId).Some? ==>
              var i := FindProduct(products, productId).value;
              |r| == |products| - (if products[i].amount == 1 then 1 else 0)
  {
    match FindProduct(products, productId)
    case None => products
    case Some(i) =>
      if products[i].amount == 1 then Splice1(products, FindTruthyIndex(products))
      else products[i := products[i].(amount := products[i].amount - 1)]
  }

  /** The list part of `ApplyItemRemovedV1` as evidently intended: the matching
      entry itself is deleted when its amount reaches 1. */
  function RemoveFromProducts(products: seq<ProductLine>, productId: Option<string>): seq<ProductLine> {
    match FindProduct(products, productId)
    case None => products
    case Some(i) =>
      if products[i].amount == 1 then products[..i] + products[i + 1..]
      else products[i := products[i].(amount := products[i].amount - 1)]
  }

  // ---------------------------------------------------------------------
  // The reducers

  /** `ApplyBasketCreatedV1`: an empty basket created and updated at the insertion time. */
  function ApplyBasketCreatedV1(before: Basket, inserted: int): (r: Basket)
    ensures r.id == before.id && ValidBasket(r)
    ensures r.products == Some([]) && r.created == r.updated == Some(inserted)
  {
    Basket(before.id, Some([]), Some(inserted), Some(inserted))
  }

  /** `ApplyItemAddedV1`. Before a created event `products` is undefined and
      `products.find` throws. */
  function ApplyItemAddedV1(before: Basket, event: BasketEventData, inserted: int): (r: Result<Basket>)
    ensures r.Err? <==> before.products.None?
    ensures r.Err? ==> r.error == TypeError("find")
    ensures r.Ok? ==> r.value.id == before.id && r.value.created == before.created && r.value.updated == Some(inserted)
    ensures r.Ok? ==> r.value.products == Some(AddToProducts(before.products.value, event.productId))
  {
    match before.products
    case None => Err(TypeError("find"))
    case Some(products) =>
      Ok(before.(products := Some(AddToProducts(products, event.productId)), updated := Some(inserted)))
  }

  /** `ApplyItemRemovedV1`, as written: the list change is `RemoveFromProductsAsWritten`. */
  function ApplyItemRemovedV1(before: Basket, event: BasketEventData, inserted: int): (r: Result<Basket>)
    ensures r.Err? <==> before.products.None?
    ensures r.Err? ==> r.error == TypeError("find")
    ensures r.Ok? ==> r.value.id == before.id && r.value.created == before.created && r.value.updated == Some(inserted)
    ensures r.Ok? ==> r.value.products == Some(RemoveFromProductsAsWritten(before.products.value, event.productId))
  {
    match before.products
    case None => Err(TypeError("find"))
    case Some(products) =>
      Ok(before.(products := Some(RemoveFromProductsAsWritten(products, event.productId)), updated := Some(inserted)))
  }

  /** The reducer a registered tag names. */
  function ApplyBasketEvent(reducer: BasketReducer, before: Basket, data: BasketEventData, inserted: int): Result<Basket> {
    match reducer
    case BasketCreatedV1 => Ok(ApplyBasketCreatedV1(before, inserted))
    case ItemAddedV1 => ApplyItemAddedV1(before, data, inserted)
    case ItemRemovedV1 => ApplyItemRemovedV1(before, data, inserted)
  }

  /** What `GetById` returns for the table's current rows. */
  function Load(rows: seq<EventRow<BasketEventData>>, aggregateId: string): Result<Option<Basket>> {
    AggregateBase.Rehydrate(SelectOrdered(rows, aggregateId), aggregateId, ApplyFunctions, ApplyBasketEvent, InitialBasket)
  }

  // ---------------------------------------------------------------------
  // Lemmas on the product list

  lemma {:induction false} QuantityAppend(products: seq<ProductLine>, line: ProductLine, q: Option<string>)
    ensures Quantity(products + [line], q) == Quantity(products, q) + (if line.productId == q then line.amount else 0)
  {
    if products != [] {
      assert (products + [line])[1..] == products[1..] + [line];
      QuantityAppend(products[1..], line, q);
    } else {
      assert [line][1..] == [];
    }
  }

  lemma {:induction false} QuantityConcat(a: seq<ProductLine>, b: seq<ProductLine>, q: Option<string>)
    ensures Quantity(a + b, q) == Quantity(a, q) + Quantity(b, q)
  {
    if a == [] {
      assert a + b == b;
    } else {
      assert (a + b)[1..] == a[1..] + b;
      QuantityConcat(a[1..], b, q);
    }
  }

  /** Quantity of a list with one entry replaced: the old entry's share out, the new one's in. */
  lemma QuantityUpdate(products: seq<ProductLine>, i: nat, line: ProductLine, q: Option<string>)
    requires i < |products|
    ensures Quantity(products[i := line], q)
         == Quantity(products, q) - (if products[i].productId == q then products[i].amount else 0)
                                  + (if line.productId == q then line.amount else 0)
  {
    var before, after := products[..i], products[i + 1..];
    assert products == before + [products[i]] + after;
    assert products[i := line] == before + [line] + after;
    QuantityConcat(before + [products[i]], after, q);
    QuantityConcat(before + [line], after, q);
    QuantityAppend(before, products[i], q);
    QuantityAppend(before, line, q);
  }

  /** Quantity of a list with one entry deleted. */
  lemma QuantityDelete(products: seq<ProductLine>, k: nat, q: Option<string>)
    requires k < |products|
    ensures Quantity(products[..k] + products[k + 1..], q)
         == Quantity(products, q) - (if products[k].productId == q then products[k].amount else 0)
  {
    assert products == products[..k] + [products[k]] + products[k + 1..];
    QuantityConcat(products[..k] + [products[k]], products[k + 1..], q);
    QuantityConcat(products[..k], products[k + 1..], q);
    QuantityAppend(products[..k], products[k], q);
  }

  /** With no entry for `q`, its quantity is 0. */
  lemma {:induction false} QuantityAbsent(products: seq<ProductLine>, q: Option<string>)
    requires forall i :: 0 <= i < |products| ==> products[i].productId != q
    ensures Quantity(products, q) == 0
  {
    if products != [] {
      QuantityAbsent(products[1..], q);
    }
  }

  /** In a duplicate-free list the quantity of a product is the amount of its entry. */
  lemma {:induction false} QuantityOfEntry(products: seq<ProductLine>, i: nat)
    requires Distinct(products) && i < |products|
    ensures Quantity(products, products[i].productId) == products[i].amount
  {
    var q := products[i].productId;
    if i == 0 {
      QuantityAbsent(products[1..], q);
    } else {
      QuantityOfEntry(products[1..], i - 1);
    }
  }

  /** Deleting one entry keeps a list well formed. */
  lemma DeleteWellFormed(products: seq<ProductLine>, k: nat)
    requires WellFormed(products) && k < |products|
    ensures WellFormed(products[..k] + products[k + 1..])
  {
    var r := products[..k] + products[k + 1..];
    forall i | 0 <= i < |r| ensures r[i] == products[if i < k then i else i + 1] {}
  }

  /** Adding a product: its quantity goes up by one, every other product's stays,
      the list stays well formed; an existing entry is bumped in place (length and
      order unchanged), a new product is appended at the end with amount 1. */
  lemma AddToProductsSpec(products: seq<ProductLine>, productId: Option<string>)
    requires WellFormed(products)
    ensures var r := AddToProducts(products, productId);
            && WellFormed(r)
            && Quantity(r, productId) == Quantity(products, productId) + 1
            && (forall q :: q != productId ==> Quantity(r, q) == Quantity(products, q))
            && (FindProduct(products, productId).Some? ==>
                  |r| == |products| && forall i :: 0 <= i < |r| ==> r[i].productId == products[i].productId)
            && (FindProduct(products, productId).None? ==> r == products + [ProductLine(productId, 1)])
  {
    var r := AddToProducts(products, productId);
    match FindProduct(products, productId)
    case Some(i) =>
      var line := products[i].(amount := products[i].amount + 1);
      forall q ensures Quantity(r, q) == Quantity(products, q) + (if q == productId then 1 else 0) {
        QuantityUpdate(products, i, line, q);
      }
    case None =>
      forall q ensures Quantity(r, q) == Quantity(products, q) + (if q == productId then 1 else 0) {
        QuantityAppend(products, ProductLine(productId, 1), q);
      }
  }

  /** Removing a product (corrected): its quantity drops by one, to no lower than
      0; every other product's stays; the list stays well formed. */
  lemma RemoveFromProductsSpec(products: seq<ProductLine>, productId: Option<string>)
    requires WellFormed(products)
    ensures var r := RemoveFromProducts(products, productId);
            && WellFormed(r)
            && Quantity(r, productId) == (if Quantity(products, productId) > 0 then Quantity(products, productId) - 1 else 0)
            && (forall q :: q != productId ==> Quantity(r, q) == Quantity(products, q))
            && (FindProduct(products, productId).None? ==> r == products)
  {
    var r := RemoveFromProducts(products, productId);
    match FindProduct(products, productId)
    case None =>
      QuantityAbsent(products, productId);
    case Some(i) =>
      QuantityOfEntry(products, i);
      if products[i].amount == 1 {
        DeleteWellFormed(products, i);
        forall q ensures Quantity(r, q) == Quantity(products, q) - (if q == productId then 1 else 0) {
          QuantityDelete(products, i, q);
        }
      } else {
        var line := products[i].(amount := products[i].amount - 1);
        forall q ensures Quantity(r, q) == Quantity(products, q) - (if q == productId then 1 else 0) {
          QuantityUpdate(products, i, line, q);
        }
      }
  }

  /** Removing a product as written: the list stays well formed; an absent product
      leaves it unchanged; an amount above 1 is decremented in place as intended;
      an amount of exactly 1 shortens the list by one entry. */
  lemma RemoveFromProductsAsWrittenSpec(products: seq<ProductLine>, productId: Option<string>)
    requires WellFormed(products)
    ensures var r := RemoveFromProductsAsWritten(products, productId);
            && WellFormed(r)
            && (FindProduct(products, productId).None? ==> r == products)
            && (Quantity(products, productId) > 1 ==> r == RemoveFromProducts(products, productId))
            && (Quantity(products, productId) > 1 ==>
                  |r| == |products| && forall j :: 0 <= j < |r| ==> r[j].productId == products[j].productId)
            && (Quantity(products, productId) == 1 ==> |r| == |products| - 1)
  {
    match FindProduct(products, productId)
    case None =>
      QuantityAbsent(products, productId);
    case Some(i) =>
      QuantityOfEntry(products, i);
      if products[i].amount == 1 {
        var t := FindTruthyIndex(products);
        DeleteWellFormed(products, if t == -1 then |products| - 1 else t);
      }
  }

  /** The as-written removal agrees with the intended one whenever the matching
      entry is the first entry with a truthy id, as when it is the first entry. */
  lemma RemoveAsWrittenAgrees(products: seq<ProductLine>, productId: Option<string>)
    requires FindProduct(products, productId).Some? ==> FindTruthyIndex(products) == FindProduct(products, productId).value
    ensures RemoveFromProductsAsWritten(products, productId) == RemoveFromProducts(products, productId)
  {}

  /** Removing the second of two products of amount 1 deletes the first entry. */
  lemma RemoveAsWrittenDeletesWrongEntry()
    ensures var a, b := ProductLine(Some("a"), 1), ProductLine(Some("b"), 1);
            && RemoveFromProductsAsWritten([a, b], Some("b")) == [b]
            && RemoveFromProducts([a, b], Some("b")) == [a]
            && Quantity(RemoveFromProductsAsWritten([a, b], Some("b")), Some("b")) == 1
  {
    var a, b := ProductLine(Some("a"), 1), ProductLine(Some("b"), 1);
    assert FindProduct([a, b], Some("b")) == Some(1);
    assert FindTruthyIndex([a, b]) == 0;
    assert [a, b][..0] + [a, b][1..] == [b];
    assert [a, b][..1] + [a, b][2..] == [a];
    assert Quantity([b], Some("b")) == 1;
  }

  // ---------------------------------------------------------------------
  // Lemmas on the reducers and the fold

  /** Every registered reducer keeps the basket invariant. */
  lemma ApplyBasketEventValid(reducer: BasketReducer, before: Basket, data: BasketEventData, inserted: int)
    requires ValidBasket(before)
    ensures var r := ApplyBasketEvent(reducer, before, data, inserted);
            r.Ok? ==> ValidBasket(r.value)
  {
    match before.products
    case None =>
    case Some(products) =>
      AddToProductsSpec(products, data.productId);
      RemoveFromProductsAsWrittenSpec(products, data.productId);
  }

  lemma {:induction false} FoldValid(rows: seq<EventRow<BasketEventData>>, state: Basket)
    requires ValidBasket(state)
    ensures var r := AggregateBase.Fold(rows, ApplyFunctions, ApplyBasketEvent, state);
            r.Ok? ==> ValidBasket(r.value)
  {
    if rows != [] {
      var row := rows[0];
      if row.eventType in ApplyFunctions {
        ApplyBasketEventValid(ApplyFunctions[row.eventType], state, row.data, row.createdUtc);
        var next := ApplyBasketEvent(ApplyFunctions[row.eventType], state, row.data, row.createdUtc);
        if next.Ok? {
          FoldValid(rows[1..], next.value);
        }
      }
    }
  }

  /** Whatever is stored, a basket `GetById` returns has distinct product ids and
      every amount at least 1. */
  lemma LoadValid(rows: seq<EventRow<BasketEventData>>, aggregateId: string)
    ensures var r := Load(rows, aggregateId);
            r.Ok? && r.value.Some? ==> ValidBasket(r.value.value) && r.value.value.id == aggregateId
  {
    var read := SelectOrdered(rows, aggregateId);
    FoldValid(read, InitialBasket(aggregateId));
    FoldKeepsId(read, InitialBasket(aggregateId));
  }

  lemma {:induction false} FoldKeepsId(rows: seq<EventRow<BasketEventData>>, state: Basket)
    ensures var r := AggregateBase.Fold(rows, ApplyFunctions, ApplyBasketEvent, state);
            r.Ok? ==> r.value.id == state.id
  {
    if rows != [] {
      var row := rows[0];
      if row.eventType in ApplyFunctions {
        var next := ApplyBasketEvent(ApplyFunctions[row.eventType], state, row.data, row.createdUtc);
        if next.Ok? {
          FoldKeepsId(rows[1..], next.value);
        }
      }
    }
  }

  /** A basket whose first event is not its created event fails to load with the
      TypeError of reading `find` on undefined. */
  lemma ItemBeforeCreatedFails(rows: seq<EventRow<BasketEventData>>, aggregateId: string)
    requires rows != [] && (rows[0].eventType == ItemAddedType || rows[0].eventType == ItemRemovedType)
    ensures AggregateBase.Rehydrate(rows, aggregateId, ApplyFunctions, ApplyBasketEvent, InitialBasket)
         == Err(TypeError("find"))
  {
    Registered();
  }

  /** The first integration test: created, then `first-product-id`, then
      `second-product-id` twice, all at one instant, rehydrate to two entries. */
  lemma CreateAddAddAddScenario(aggregateId: string, t: int)
    ensures var p1, p2 := BasketEventData(Some("first-product-id")), BasketEventData(Some("second-product-id"));
            var rows := [EventRow(1, aggregateId, BasketCreatedType, BasketEventData(None), t),
                         EventRow(2, aggregateId, ItemAddedType, p1, t),
                         EventRow(3, aggregateId, ItemAddedType, p2, t),
                         EventRow(4, aggregateId, ItemAddedType, p2, t)];
            (AggregateBase.Rehydrate(rows, aggregateId, ApplyFunctions, ApplyBasketEvent, InitialBasket)
             == Ok(Some(Basket(aggregateId, Some([ProductLine(Some("first-product-id"), 1),
                                                   ProductLine(Some("second-product-id"), 2)]), Some(t), Some(t)))))
  {
    var p1, p2 := BasketEventData(Some("first-product-id")), BasketEventData(Some("second-product-id"));
    var l1, l2 := ProductLine(Some("first-product-id"), 1), ProductLine(Some("second-product-id"), 1);
    var r1 := EventRow(1, aggregateId, BasketCreatedType, BasketEventData(None), t);
    var r2 := EventRow(2, aggregateId, ItemAddedType, p1, t);
    var r3 := EventRow(3, aggregateId, ItemAddedType, p2, t);
    var r4 := EventRow(4, aggregateId, ItemAddedType, p2, t);
    var rows := [r1, r2, r3, r4];
    Registered();
    var b0 := Basket(aggregateId, Some([]), Some(t), Some(t));
    var b1 := b0.(products := Some([l1]));
    var b2 := b0.(products := Some([l1, l2]));
    var b3 := b0.(products := Some([l1, l2.(amount := 2)]));
    assert AddToProducts([], p1.productId) == [l1];
    assert FindProduct([l1], p2.productId) == None;
    assert AddToProducts([l1], p2.productId) == [l1, l2];
    assert FindProduct([l1, l2], p2.productId) == Some(1);
    assert AddToProducts([l1, l2], p2.productId) == [l1, l2.(amount := 2)];
    assert rows[1..][0] == r2 && rows[1..][1..][0] == r3 && rows[1..][1..][1..][0] == r4;
    FoldStep(rows, InitialBasket(aggregateId), b0);
    FoldStep(rows[1..], b0, b1);
    FoldStep(rows[1..][1..], b1, b2);
    FoldStep(rows[1..][1..][1..], b2, b3);
    assert rows[1..][1..][1..][1..] == [];
  }

  /** The second integration test: created, one product added and removed again,
      gives an empty list. */
  lemma CreateAddRemoveScenario(aggregateId: string, t: int, productId: string)
    ensures var p := BasketEventData(Some(productId));
            var rows := [EventRow(1, aggregateId, BasketCreatedType, BasketEventData(None), t),
                         EventRow(2, aggregateId, ItemAddedType, p, t),
                         EventRow(3, aggregateId, ItemRemovedType, p, t)];
            (AggregateBase.Rehydrate(rows, aggregateId, ApplyFunctions, ApplyBasketEvent, InitialBasket)
             == Ok(Some(Basket(aggregateId, Some([]), Some(t), Some(t)))))
  {
    var p := BasketEventData(Some(productId));
    var l := ProductLine(Some(productId), 1);
    var r1 := EventRow(1, aggregateId, BasketCreatedType, BasketEventData(None), t);
    var r2 := EventRow(2, aggregateId, ItemAddedType, p, t);
    var r3 := EventRow(3, aggregateId, ItemRemovedType, p, t);
    var rows := [r1, r2, r3];
    Registered();
    var b0 := Basket(aggregateId, Some([]), Some(t), Some(t));
    var b1 := b0.(products := Some([l]));
    assert AddToProducts([], p.productId) == [l];
    assert FindProduct([l], p.productId) == Some(0);
    assert FindTruthyIndex([l]) == (if productId == "" then -1 else 0);
    assert RemoveFromProductsAsWritten([l], p.productId) == [];
    assert rows[1..][0] == r2 && rows[1..][1..][0] == r3;
    FoldStep(rows, InitialBasket(aggregateId), b0);
    FoldStep(rows[1..], b0, b1);
    FoldStep(rows[1..][1..], b1, b0);
    assert rows[1..][1..][1..] == [];
  }

  /** One step of the basket fold. */
  lemma FoldStep(rows: seq<EventRow<BasketEventData>>, state: Basket, next: Basket)
    requires rows != [] && rows[0].eventType in ApplyFunctions
    requires ApplyBasketEvent(ApplyFunctions[rows[0].eventType], state, rows[0].data, rows[0].createdUtc) == Ok(next)
    ensures AggregateBase.Fold(rows, ApplyFunctions, ApplyBasketEvent, state)
         == AggregateBase.Fold(rows[1..], ApplyFunctions, ApplyBasketEvent, next)
  {}

  // ---------------------------------------------------------------------
  // The repository

  class BasketRepository {
    /** The connection: the `basket_events` table. */
    const store: EventTable<BasketEventData>

    constructor (store: EventTable<BasketEventData>)
      ensures this.store == store
    {
      this.store := store;
    }

    /** `GetById`: the rehydrated basket, absent when it has no events; a
        rejected SELECT (`fault`) throws. */
    method GetById(aggregateId: string, fault: Option<string>) returns (r: Result<Option<Basket>>)
      ensures fault.Some? ==> r == Err(Storage(fault.value))
      ensures fault.None? ==> r == Load(store.rows, aggregateId)
      ensures r.Ok? && r.value.Some? ==> ValidBasket(r.value.value) && r.value.value.id == aggregateId
    {
      r := AggregateBase.GetById(store, aggregateId, ApplyFunctions, ApplyBasketEvent, InitialBasket, fault);
      LoadValid(store.rows, aggregateId);
    }

    /** `CreateBasket`: appends a created event under `freshId` (the `v4()` id)
        and returns the basket read back, which is never absent, so the "could
        not find" error is never raised. For an id with no earlier events it is
        the empty basket created at `now`. A rejected INSERT (`insertFault`)
        throws with nothing stored; a rejected SELECT (`readFault`) throws
        after the event is stored. */
    method CreateBasket(freshId: string, now: int, insertFault: Option<string>, readFault: Option<string>)
      returns (r: Result<Basket>)
      requires store.Valid()
      modifies store
      ensures store.Valid()
      ensures insertFault.Some? ==> r == Err(Storage(insertFault.value)) && store.rows == old(store.rows)
      ensures insertFault.None? ==>
                store.rows == old(store.rows) + [EventRow(old(store.nextId), freshId, BasketCreatedType, BasketEventData(None), now)]
      ensures insertFault.None? ==> Load(store.rows, freshId) != Ok(None)
      ensures insertFault.None? && readFault.Some? ==> r == Err(Storage(readFault.value))
      ensures insertFault.None? && readFault.None? ==>
                match Load(store.rows, freshId)
                case Err(e) => r == Err(e)
                case Ok(found) => found.Some? && r == Ok(found.value)
      ensures insertFault.None? && readFault.None? &&
              (forall i :: 0 <= i < |old(store.rows)| ==> old(store.rows)[i].aggregateId != freshId) ==>
                r == Ok(Basket(freshId, Some([]), Some(now), Some(now)))
    {
      ghost var before := store.rows;
      ghost var nextId := store.nextId;
      var inserted := store.InsertEvent(freshId, BasketCreatedType, BasketEventData(None), now, insertFault);
      if inserted.Err? {
        return Err(inserted.error);
      }
      ghost var row := EventRow(nextId, freshId, BasketCreatedType, BasketEventData(None), now);
      assert store.rows == before + [row];
      CreatedLoad(before, nextId, freshId, now);
      var created := GetById(freshId, readFault);
      if readFault.Some? {
        return Err(created.error);
      }
      assert created == Load(before + [row], freshId);
      match created
      case Err(e) => r := Err(e);
      case Ok(None) => r := Err(Thrown("Could not find created basket"));
      case Ok(Some(basket)) => r := Ok(basket);
    }

    /** `AddProduct`: appends an `item_added_v1` event. With a clock that does not
        run backwards, the next read is the previous one with that event applied.
        A rejected INSERT (`fault`) throws with nothing stored. */
    method AddProduct(aggregateId: string, productId: string, now: int, fault: Option<string>) returns (r: Result<()>)
      requires store.Valid()
      modifies store
      ensures store.Valid()
      ensures fault.Some? ==> r == Err(Storage(fault.value)) && store.rows == old(store.rows)
      ensures fault.None? ==> r == Ok(())
      ensures fault.None? ==>
                store.rows == old(store.rows) + [EventRow(old(store.nextId), aggregateId, ItemAddedType, BasketEventData(Some(productId)), now)]
      ensures fault.None? && NotLaterThan(old(store.rows), aggregateId, now) ==>
                Load(store.rows, aggregateId)
                == AggregateBase.Then(Load(old(store.rows), aggregateId), aggregateId, ItemAddedV1,
                                      BasketEventData(Some(productId)), now, ApplyBasketEvent, InitialBasket)
    {
      ghost var before := store.rows;
      ghost var nextId := store.nextId;
      r := store.InsertEvent(aggregateId, ItemAddedType, BasketEventData(Some(productId)), now, fault);
      if r.Ok? && NotLaterThan(before, aggregateId, now) {
        AggregateBase.ReadAfterInsert(before, nextId, aggregateId, ItemAddedType, BasketEventData(Some(productId)), now,
                                      ApplyFunctions, ApplyBasketEvent, InitialBasket);
      }
    }

    /** `RemoveProduct`: appends an `item_removed_v1` event. With a clock that does
        not run backwards, the next read is the previous one with that event applied.
        A rejected INSERT (`fault`) throws with nothing stored. */
    method RemoveProduct(aggregateId: string, productId: string, now: int, fault: Option<string>) returns (r: Result<()>)
      requires store.Valid()
      modifies store
      ensures store.Valid()
      ensures fault.Some? ==> r == Err(Storage(fault.value)) && store.rows == old(store.rows)
      ensures fault.None? ==> r == Ok(())
      ensures fault.None? ==>
                store.rows == old(store.rows) + [EventRow(old(store.nextId), aggregateId, ItemRemovedType, BasketEventData(Some(productId)), now)]
      ensures fault.None? && NotLaterThan(old(store.rows), aggregateId, now) ==>
                Load(store.rows, aggregateId)
                == AggregateBase.Then(Load(old(store.rows), aggregateId), aggregateId, ItemRemovedV1,
                                      BasketEventData(Some(productId)), now, ApplyBasketEvent, InitialBasket)
    {
      ghost var before := store.rows;
      ghost var nextId := store.nextId;
      r := store.InsertEvent(aggregateId, ItemRemovedType, BasketEventData(Some(productId)), now, fault);
      if r.Ok? && NotLaterThan(before, aggregateId, now) {
        AggregateBase.ReadAfterInsert(before, nextId, aggregateId, ItemRemovedType, BasketEventData(Some(productId)), now,
                                      ApplyFunctions, ApplyBasketEvent, InitialBasket);
      }
    }
  }

  /** The first integration test run through the commands on an empty table:
      create, add `first-product-id`, add `second-product-id` twice, all at one
      instant, then read back two entries with amounts 1 and 2. */
  method CreateAddAddAddCommands(aggregateId: string, t: int) returns (r: Result<Option<Basket>>)
    ensures r == Ok(Some(Basket(aggregateId, Some([ProductLine(Some("first-product-id"), 1),
                                                   ProductLine(Some("second-product-id"), 2)]), Some(t), Some(t))))
  {
    var table := new EventTable<BasketEventData>();
    var repository := new BasketRepository(table);
    var b0 := CreateAt(repository, aggregateId, t);
    var b1 := AddAt(repository, aggregateId, "first-product-id", t, b0);
    var b2 := AddAt(repository, aggregateId, "second-product-id", t, b1);
    var b3 := AddAt(repository, aggregateId, "second-product-id", t, b2);
    FirstTestProducts();
    r := repository.GetById(aggregateId, None);
  }

  /** The second integration test run through the commands on an empty table:
      create, add a product and remove it again, then read back an empty list. */
  method CreateAddRemoveCommands(aggregateId: string, t: int, productId: string) returns (r: Result<Option<Basket>>)
    ensures r == Ok(Some(Basket(aggregateId, Some([]), Some(t), Some(t))))
  {
    var l := ProductLine(Some(productId), 1);
    var table := new EventTable<BasketEventData>();
    var repository := new BasketRepository(table);
    var b0 := CreateAt(repository, aggregateId, t);
    var b1 := AddAt(repository, aggregateId, productId, t, b0);
    assert AddToProducts([], Some(productId)) == [l];
    var b2 := RemoveAt(repository, aggregateId, productId, t, b1);
    assert FindProduct([l], Some(productId)) == Some(0);
    assert FindTruthyIndex([l]) == (if productId == "" then -1 else 0);
    assert RemoveFromProductsAsWritten([l], Some(productId)) == [];
    r := repository.GetById(aggregateId, None);
  }

  /** The product list of the first integration test, one addition at a time. */
  lemma FirstTestProducts()
    ensures var p1, p2 := Some("first-product-id"), Some("second-product-id");
            AddToProducts(AddToProducts(AddToProducts([], p1), p2), p2) == [ProductLine(p1, 1), ProductLine(p2, 2)]
  {
    var l1, l2 := ProductLine(Some("first-product-id"), 1), ProductLine(Some("second-product-id"), 1);
    assert AddToProducts([], Some("first-product-id")) == [l1];
    assert FindProduct([l1], Some("second-product-id")) == None;
    assert AddToProducts([l1], Some("second-product-id")) == [l1, l2];
    assert FindProduct([l1, l2], Some("second-product-id")) == Some(1);
    assert AddToProducts([l1, l2], Some("second-product-id")) == [l1, l2.(amount := 2)];
  }

  /** Every stored event was recorded at `t`. */
  ghost predicate AllAt(rows: seq<EventRow<BasketEventData>>, t: int) {
    forall i :: 0 <= i < |rows| ==> rows[i].createdUtc == t
  }

  /** `CreateBasket` on an empty table at `t`, with no faults. */
  method CreateAt(repository: BasketRepository, aggregateId: string, t: int) returns (b: Basket)
    requires repository.store.Valid() && repository.store.rows == []
    modifies repository.store
    ensures repository.store.Valid() && AllAt(repository.store.rows, t)
    ensures b == Basket(aggregateId, Some([]), Some(t), Some(t))
    ensures Load(repository.store.rows, aggregateId) == Ok(Some(b))
  {
    var created := repository.CreateBasket(aggregateId, t, None, None);
    b := Basket(aggregateId, Some([]), Some(t), Some(t));
  }

  /** `AddProduct` at `t` with no fault, after events all recorded at `t`. */
  method AddAt(repository: BasketRepository, aggregateId: string, productId: string, t: int, before: Basket)
    returns (after: Basket)
    requires repository.store.Valid() && AllAt(repository.store.rows, t) && before.products.Some?
    requires Load(repository.store.rows, aggregateId) == Ok(Some(before))
    modifies repository.store
    ensures repository.store.Valid() && AllAt(repository.store.rows, t)
    ensures after == before.(products := Some(AddToProducts(before.products.value, Some(productId))), updated := Some(t))
    ensures Load(repository.store.rows, aggregateId) == Ok(Some(after))
  {
    var _ := repository.AddProduct(aggregateId, productId, t, None);
    after := before.(products := Some(AddToProducts(before.products.value, Some(productId))), updated := Some(t));
  }

  /** `RemoveProduct` at `t` with no fault, after events all recorded at `t`. */
  method RemoveAt(repository: BasketRepository, aggregateId: string, productId: string, t: int, before: Basket)
    returns (after: Basket)
    requires repository.store.Valid() && AllAt(repository.store.rows, t) && before.products.Some?
    requires Load(repository.store.rows, aggregateId) == Ok(Some(before))
    modifies repository.store
    ensures repository.store.Valid() && AllAt(repository.store.rows, t)
    ensures after == before.(products := Some(RemoveFromProductsAsWritten(before.products.value, Some(productId))),
                             updated := Some(t))
    ensures Load(repository.store.rows, aggregateId) == Ok(Some(after))
  {
    var _ := repository.RemoveProduct(aggregateId, productId, t, None);
    after := before.(products := Some(RemoveFromProductsAsWritten(before.products.value, Some(productId))),
                     updated := Some(t));
  }

  /** After a created event is appended the basket is never absent; under an id
      with no earlier events it is the empty basket created at that instant. */
  lemma CreatedLoad(rows: seq<EventRow<BasketEventData>>, nextId: nat, aggregateId: string, now: int)
    ensures var r := Load(rows + [EventRow(nextId, aggregateId, BasketCreatedType, BasketEventData(None), now)], aggregateId);
            && r != Ok(None)
            && ((forall i :: 0 <= i < |rows| ==> rows[i].aggregateId != aggregateId) ==>
                  r == Ok(Some(Basket(aggregateId, Some([]), Some(now), Some(now)))))
  {
    var row := EventRow(nextId, aggregateId, BasketCreatedType, BasketEventData(None), now);
    AggregateBase.ReadAfterFirstInsert(rows, row, ApplyFunctions, ApplyBasketEvent, InitialBasket);
    Registered();
  }

  /** The constructor's registrations, one per event type. */
  lemma Registered()
    ensures ApplyFunctions.Keys == {BasketCreatedType, ItemAddedType, ItemRemovedType}
    ensures ApplyFunctions[BasketCreatedType] == BasketCreatedV1
    ensures ApplyFunctions[ItemAddedType] == ItemAddedV1
    ensures ApplyFunctions[ItemRemovedType] == ItemRemovedV1
  {
    assert BasketCreatedType != ItemAddedType && BasketCreatedType != ItemRemovedType && ItemAddedType != ItemRemovedType;
  }

  /** Events of one basket never change what another basket loads. */
  lemma LoadIgnoresOtherBaskets(rows: seq<EventRow<BasketEventData>>, row: EventRow<BasketEventData>, aggregateId: string)
    requires row.aggregateId != aggregateId
    ensures Load(rows + [row], aggregateId) == Load(rows, aggregateId)
  {
    SelectOrderedAppendOther(rows, row, aggregateId);
  }
}
