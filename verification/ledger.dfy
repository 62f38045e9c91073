/**
  The order ledger of one store (app.py:64-65, 80-108): order ids, the
  two-pass validate-then-decrement order placement, and order lookup.
 */
module Ledger {
  import opened Wrappers
  import opened Model

  /** Python's `max` over the ids of a non-empty order list. */
  function MaxOrderId(orders: seq<Order>): (m: int)
    requires |orders| > 0
    ensures forall i :: 0 <= i < |orders| ==> orders[i].id <= m
    ensures exists o :: o in orders && o.id == m
  {
    if |orders| == 1 then orders[0].id
    else
      var rest := MaxOrderId(orders[1..]);
      assert forall o :: o in orders[1..] ==> o in orders;
      if orders[0].id >= rest then orders[0].id else rest
  }

  /** `next_order_id`: one more than the largest order id, or 1 for an empty ledger. */
  function NextOrderId(orders: seq<Order>): (id: int)
    ensures forall i :: 0 <= i < |orders| ==> orders[i].id < id
    ensures orders == [] ==> id == 1
    ensures orders != [] ==> exists o :: o in orders && o.id == id - 1
  {
    if |orders| == 0 then 1 else MaxOrderId(orders) + 1
  }

  /** In a well-formed ledger the next id follows the newest order's id, and is positive. */
  lemma NextOrderIdFollowsLast(orders: seq<Order>)
    requires ValidLedger(orders)
    ensures NextOrderId(orders) >= 1
    ensures orders != [] ==> NextOrderId(orders) == orders[|orders| - 1].id + 1
  {
    if orders != [] {
      var o :| o in orders && o.id == NextOrderId(orders) - 1;
      var i :| 0 <= i < |orders| && orders[i] == o;
      assert orders[i].id <= orders[|orders| - 1].id;
    }
  }

  /** Position of the first order carrying `orderId`, as `get_order` scans the list. */
  function FindOrder(orders: seq<Order>, orderId: int): (r: Option<nat>)
    ensures r.None? <==> forall i :: 0 <= i < |orders| ==> orders[i].id != orderId
    ensures r.Some? ==>
      && r.value < |orders|
      && orders[r.value].id == orderId
      && forall j :: 0 <= j < r.value ==> orders[j].id != orderId
  {
    if |orders| == 0 then None
    else if orders[0].id == orderId then Some(0)
    else
      match FindOrder(orders[1..], orderId)
      case None => None
      case Some(i) => Some(i + 1)
  }

  /** `get_order`: the first order with the given id, if any. */
  function GetOrder(orders: seq<Order>, orderId: int): (r: Option<Order>)
    ensures r.Some? ==> r.value in orders && r.value.id == orderId
    ensures r.Some? ==> exists i ::
      && 0 <= i < |orders|
      && orders[i] == r.value
      && forall j :: 0 <= j < i ==> orders[j].id != orderId
    ensures r.None? <==> forall o :: o in orders ==> o.id != orderId
  {
    match FindOrder(orders, orderId)
    case None => None
    case Some(i) => Some(orders[i])
  }

  /** Ids are unique in a well-formed ledger, so lookup finds exactly the order at that position. */
  lemma GetOrderUnique(orders: seq<Order>, i: int)
    requires ValidLedger(orders)
    requires 0 <= i < |orders|
    ensures FindOrder(orders, orders[i].id) == Some(i)
    ensures GetOrder(orders, orders[i].id) == Some(orders[i])
  {
  }

  /** A line passes validation: known product, positive quantity, no more than the stock. */
  predicate LineOk(products: map<int, Product>, item: OrderItem) {
    && item.productId in products
    && 0 < item.quantity <= products[item.productId].quantity
  }

  /** The error the validation pass raises for one line, checked in the source's order. */
  function LineError(products: map<int, Product>, item: OrderItem): (r: Option<Error>)
    ensures r.None? <==> LineOk(products, item)
    ensures item.productId !in products ==> r == Some(ProductNotFound)
    ensures item.productId in products && item.quantity <= 0 ==> r == Some(InvalidQuantity)
    ensures item.productId in products && 0 < item.quantity && item.quantity > products[item.productId].quantity ==>
      r == Some(InsufficientStock(products[item.productId].name))
  {
    if item.productId !in products then Some(ProductNotFound)
    else if item.quantity <= 0 then Some(InvalidQuantity)
    else if item.quantity > products[item.productId].quantity then
      Some(InsufficientStock(products[item.productId].name))
    else None
  }

  /** Line `i` is the first one that fails validation. */
  predicate FailsFirstAt(products: map<int, Product>, items: seq<OrderItem>, i: int) {
    && 0 <= i < |items|
    && !LineOk(products, items[i])
    && forall j :: 0 <= j < i ==> LineOk(products, items[j])
  }

  /** Position of the first line that fails validation, if any. */
  function FirstFailure(products: map<int, Product>, items: seq<OrderItem>): (r: Option<nat>)
    ensures r.None? <==> forall i :: 0 <= i < |items| ==> LineOk(products, items[i])
    ensures r.Some? ==> FailsFirstAt(products, items, r.value)
  {
    if |items| == 0 then None
    else if !LineOk(products, items[0]) then Some(0)
    else
      match FirstFailure(products, items[1..])
      case None => None
      case Some(i) => Some(i + 1)
  }

  /** Every line names a product of the catalog. */
  predicate AllKnown(products: map<int, Product>, items: seq<OrderItem>) {
    forall i :: 0 <= i < |items| ==> items[i].productId in products
  }

  /** Sum of price times quantity over the lines, in cents. */
  function OrderTotal(products: map<int, Product>, items: seq<OrderItem>): (total: int)
    requires AllKnown(products, items)
    ensures ValidCatalog(products) && (forall i :: 0 <= i < |items| ==> items[i].quantity > 0) ==> total >= 0
  {
    if |items| == 0 then 0
    else
      var last := items[|items| - 1];
      OrderTotal(products, items[..|items| - 1]) + products[last.productId].price * last.quantity
  }

  /** Total quantity the lines request of product `k`. */
  function QtyFor(items: seq<OrderItem>, k: int): int {
    if |items| == 0 then 0
    else
      var last := items[|items| - 1];
      QtyFor(items[..|items| - 1], k) + (if last.productId == k then last.quantity else 0)
  }

  /** The second pass: subtract each line's quantity from its product's stock, line by line. */
  function Decrement(products: map<int, Product>, items: seq<OrderItem>): (r: map<int, Product>)
    requires AllKnown(products, items)
    ensures r.Keys == products.Keys
    ensures forall k :: k in products ==>
      r[k] == products[k].(quantity := products[k].quantity - QtyFor(items, k))
  {
    if |items| == 0 then products
    else
      var prev := Decrement(products, items[..|items| - 1]);
      var line := items[|items| - 1];
      prev[line.productId := prev[line.productId].(quantity := prev[line.productId].quantity - line.quantity)]
  }

  /** With distinct lines, a named product is requested exactly its line's quantity. */
  lemma {:induction false} QtyForDistinct(items: seq<OrderItem>, i: int)
    requires DistinctProducts(items)
    requires 0 <= i < |items|
    ensures QtyFor(items, items[i].productId) == items[i].quantity
  {
    var n := |items|;
    var prefix := items[..n - 1];
    assert DistinctProducts(prefix);
    if i == n - 1 {
      QtyForAbsent(prefix, items[i].productId);
    } else {
      assert prefix[i] == items[i];
      QtyForDistinct(prefix, i);
    }
  }

  /** A product no line names is requested zero times. */
  lemma {:induction false} QtyForAbsent(items: seq<OrderItem>, k: int)
    requires forall i :: 0 <= i < |items| ==> items[i].productId != k
    ensures QtyFor(items, k) == 0
  {
    if |items| > 0 {
      QtyForAbsent(items[..|items| - 1], k);
    }
  }

  /**
    `create_order`: validate every line against the current stock, then
    decrement the stock and append a pending order. The pair holds the
    store afterwards and the order or the error raised.
   */
  function CreateOrder(s: Store, items: seq<OrderItem>, deliveryMethod: DeliveryMethod): (r: (Store, Result<Order, Error>))
    ensures r.1.Failure? <==> exists i :: 0 <= i < |items| && !LineOk(s.products, items[i])
    ensures r.1.Failure? ==> r.0 == s
    ensures r.1.Failure? ==> exists i :: FailsFirstAt(s.products, items, i) && LineError(s.products, items[i]) == Some(r.1.error)
    ensures r.1.Success? ==> AllKnown(s.products, items)
    ensures r.1.Success? ==>
      && r.1.value.id == NextOrderId(s.orders)
      && r.1.value.items == items
      && r.1.value.totalPrice == OrderTotal(s.products, items)
      && r.1.value.deliveryMethod == deliveryMethod
      && r.1.value.status == Pending
    ensures r.1.Success? ==> r.0.orders == s.orders + [r.1.value] && r.0.id == s.id && r.0.name == s.name
    ensures r.1.Success? ==>
      && r.0.products.Keys == s.products.Keys
      && forall k :: k in s.products ==>
           r.0.products[k] == s.products[k].(quantity := s.products[k].quantity - QtyFor(items, k))
  {
    match FirstFailure(s.products, items)
    case Some(i) =>
      (s, Failure(LineError(s.products, items[i]).value))
    case None =>
      var order := Order(NextOrderId(s.orders), items, OrderTotal(s.products, items), deliveryMethod, Pending);
      (s.(products := Decrement(s.products, items), orders := s.orders + [order]), Success(order))
  }

  /**
    With distinct product ids on the lines, a successful order lowers each
    ordered product's stock by exactly its line quantity and leaves the
    other products alone.
   */
  lemma CreateOrderStock(s: Store, items: seq<OrderItem>, deliveryMethod: DeliveryMethod)
    requires DistinctProducts(items)
    requires CreateOrder(s, items, deliveryMethod).1.Success?
    ensures var after := CreateOrder(s, items, deliveryMethod).0.products;
      && (forall i :: 0 <= i < |items| ==>
            after[items[i].productId].quantity == s.products[items[i].productId].quantity - items[i].quantity)
      && (forall k :: k in s.products && (forall i :: 0 <= i < |items| ==> items[i].productId != k) ==>
            after[k] == s.products[k])
  {
    var after := CreateOrder(s, items, deliveryMethod).0.products;
    forall i | 0 <= i < |items|
      ensures after[items[i].productId].quantity == s.products[items[i].productId].quantity - items[i].quantity
    {
      QtyForDistinct(items, i);
    }
    forall k | k in s.products && (forall i :: 0 <= i < |items| ==> items[i].productId != k)
      ensures after[k] == s.products[k]
    {
      QtyForAbsent(items, k);
    }
  }

  /**
    Validation compares each line with the stock before any decrement, so
    no stock goes negative only when the lines name distinct products.
   */
  lemma CreateOrderNoNegativeStock(s: Store, items: seq<OrderItem>, deliveryMethod: DeliveryMethod)
    requires ValidCatalog(s.products)
    requires DistinctProducts(items)
    ensures var after := CreateOrder(s, items, deliveryMethod).0.products;
      forall k :: k in after ==> after[k].quantity >= 0
  {
    var r := CreateOrder(s, items, deliveryMethod);
    if r.1.Success? {
      var after := r.0.products;
      forall k | k in after
        ensures after[k].quantity >= 0
      {
        if i :| 0 <= i < |items| && items[i].productId == k {
          QtyForDistinct(items, i);
          assert LineOk(s.products, items[i]);
        } else {
          QtyForAbsent(items, k);
        }
      }
    }
  }

  /** Two lines for one product can each pass validation yet overdraw its stock together. */
  lemma DuplicateLinesOverdraw()
    ensures var s := Store(1, "shop", map[1 := Product(1, "Bananas", 69, 1)], []);
      var r := CreateOrder(s, [OrderItem(1, 1), OrderItem(1, 1)], Pickup);
      r.1.Success? && r.0.products[1].quantity == -1
  {
    var items := [OrderItem(1, 1), OrderItem(1, 1)];
    assert items[..1] == [OrderItem(1, 1)];
    assert items[..1][..0] == [];
  }

  /** Order placement with distinct lines keeps the store well formed. */
  lemma CreateOrderPreservesValid(s: Store, items: seq<OrderItem>, deliveryMethod: DeliveryMethod)
    requires Valid(s)
    requires DistinctProducts(items)
    ensures Valid(CreateOrder(s, items, deliveryMethod).0)
  {
    var r := CreateOrder(s, items, deliveryMethod);
    if r.1.Success? {
      CreateOrderNoNegativeStock(s, items, deliveryMethod);
      NextOrderIdFollowsLast(s.orders);
      assert ValidCatalog(r.0.products);
    }
  }

  /**
    The first loop of `create_order`: check each line in turn, stopping at
    the first bad one, while accumulating the total.
   */
  method ValidationPass(products: map<int, Product>, items: seq<OrderItem>)
    returns (failure: Option<Error>, total: int)
    ensures failure.None? <==> FirstFailure(products, items).None?
    ensures failure.Some? ==> failure == LineError(products, items[FirstFailure(products, items).value])
    ensures failure.None? ==> AllKnown(products, items) && total == OrderTotal(products, items)
  {
    total := 0;
    var i := 0;
    while i < |items|
      invariant 0 <= i <= |items|
      invariant forall j :: 0 <= j < i ==> LineOk(products, items[j])
      invariant AllKnown(products, items[..i])
      invariant total == OrderTotal(products, items[..i])
    {
      var item := items[i];
      var error := LineError(products, item);
      if error.Some? {
        FirstFailureIsFirst(products, items, i);
        return error, total;
      }
      assert items[..i + 1][..i] == items[..i];
      total := total + products[item.productId].price * item.quantity;
      i := i + 1;
    }
    assert items[..|items|] == items;
    failure := None;
  }

  /** The second loop of `create_order`: decrement the stock line by line. */
  method DecrementPass(products: map<int, Product>, items: seq<OrderItem>)
    returns (after: map<int, Product>)
    requires AllKnown(products, items)
    ensures after == Decrement(products, items)
  {
    after := products;
    var i := 0;
    while i < |items|
      invariant 0 <= i <= |items|
      invariant AllKnown(products, items[..i])
      invariant after == Decrement(products, items[..i])
    {
      var item := items[i];
      assert items[..i + 1][..i] == items[..i];
      after := after[item.productId := after[item.productId].(quantity := after[item.productId].quantity - item.quantity)];
      i := i + 1;
    }
    assert items[..|items|] == items;
  }

  /**
    `create_order` as written: the validation pass, and only if it finds no
    bad line, the decrement pass and the new pending order. It computes
    exactly `CreateOrder`.
   */
  method PlaceOrder(s: Store, items: seq<OrderItem>, deliveryMethod: DeliveryMethod)
    returns (after: Store, outcome: Result<Order, Error>)
    ensures (after, outcome) == CreateOrder(s, items, deliveryMethod)
  {
    var failure, total := ValidationPass(s.products, items);
    if failure.Some? {
      return s, Failure(failure.value);
    }
    var products := DecrementPass(s.products, items);
    var order := Order(NextOrderId(s.orders), items, total, deliveryMethod, Pending);
    after := s.(products := products, orders := s.orders + [order]);
    outcome := Success(order);
  }

  /** The first failing line is the one `FirstFailure` reports. */
  lemma FirstFailureIsFirst(products: map<int, Product>, items: seq<OrderItem>, i: int)
    requires FailsFirstAt(products, items, i)
    ensures FirstFailure(products, items) == Some(i)
  {
  }

}
