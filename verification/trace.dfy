/**
  Sequences of store operations as the route handlers issue them. Over
  any such sequence stock stays non-negative and the ledger only grows,
  with ids that keep increasing.
 */
module Trace {
  import opened Wrappers
  import opened Model
  import Catalog
  import Ledger
  import OrderStatus

  /** One call into the store from a route handler. */
  datatype Op =
    | AddProductOp(name: string, price: int, quantity: int)
    | UpdateProductOp(productId: int, name: string, price: int, quantity: int)
    | DeleteProductOp(productId: int)
    | CreateOrderOp(items: seq<OrderItem>, deliveryMethod: DeliveryMethod)
    | UpdateStatusOp(orderId: int, statusField: Option<string>)

  /**
    What the route handlers guarantee before calling the store: a
    non-empty name with price and stock clamped at zero, and order lines
    built from a dict, so naming each product once.
   */
  predicate Admissible(op: Op) {
    match op
    case AddProductOp(name, price, quantity) => name != "" && price >= 0 && quantity >= 0
    case UpdateProductOp(_, name, price, quantity) => name != "" && price >= 0 && quantity >= 0
    case DeleteProductOp(_) => true
    case CreateOrderOp(items, _) => DistinctProducts(items)
    case UpdateStatusOp(_, _) => true
  }

  function Step(s: Store, op: Op): Store {
    match op
    case AddProductOp(name, price, quantity) => Catalog.AddProduct(s, name, price, quantity)
    case UpdateProductOp(id, name, price, quantity) => Catalog.UpdateProduct(s, id, name, price, quantity)
    case DeleteProductOp(id) => Catalog.DeleteProduct(s, id)
    case CreateOrderOp(items, deliveryMethod) => Ledger.CreateOrder(s, items, deliveryMethod).0
    case UpdateStatusOp(id, statusField) => OrderStatus.UpdateOrderStatus(s, id, statusField).0
  }

  function Run(s: Store, ops: seq<Op>): Store
    decreases |ops|
  {
    if |ops| == 0 then s else Run(Step(s, ops[0]), ops[1..])
  }

  /** A freshly created store, with no products and no orders, is well formed. */
  lemma EmptyStoreValid(id: int, name: string)
    ensures Valid(Store(id, name, map[], []))
  {
  }

  /** Every admissible step keeps the store well formed. */
  lemma StepPreservesValid(s: Store, op: Op)
    requires Valid(s)
    requires Admissible(op)
    ensures Valid(Step(s, op))
  {
    if op.CreateOrderOp? {
      Ledger.CreateOrderPreservesValid(s, op.items, op.deliveryMethod);
    }
  }

  /** No sequence of admissible operations leaves a negative stock or a disordered ledger. */
  lemma {:induction false} RunPreservesValid(s: Store, ops: seq<Op>)
    requires Valid(s)
    requires forall i :: 0 <= i < |ops| ==> Admissible(ops[i])
    ensures Valid(Run(s, ops))
    decreases |ops|
  {
    if |ops| > 0 {
      StepPreservesValid(s, ops[0]);
      RunPreservesValid(Step(s, ops[0]), ops[1..]);
    }
  }

  /** Each step keeps every existing order at its place, with its id and lines. */
  lemma StepKeepsOrders(s: Store, op: Op)
    ensures |s.orders| <= |Step(s, op).orders|
    ensures forall i :: 0 <= i < |s.orders| ==>
      && Step(s, op).orders[i].id == s.orders[i].id
      && Step(s, op).orders[i].items == s.orders[i].items
  {
  }

  /** Orders are never removed or renumbered, whatever runs. */
  lemma {:induction false} RunKeepsOrders(s: Store, ops: seq<Op>)
    ensures |s.orders| <= |Run(s, ops).orders|
    ensures forall i :: 0 <= i < |s.orders| ==>
      && Run(s, ops).orders[i].id == s.orders[i].id
      && Run(s, ops).orders[i].items == s.orders[i].items
    decreases |ops|
  {
    if |ops| > 0 {
      StepKeepsOrders(s, ops[0]);
      RunKeepsOrders(Step(s, ops[0]), ops[1..]);
    }
  }

  /** Bananas at 69 cents with 100 in stock: ordering 5 leaves 95 and a pending order of 345 cents. */
  lemma OrderFiveBananas()
    ensures var s := Store(1, "Sunnyvale Fresh Mart", map[1 := Product(1, "Bananas", 69, 100)], []);
      var r := Ledger.CreateOrder(s, [OrderItem(1, 5)], Pickup);
      && r.1 == Success(Order(1, [OrderItem(1, 5)], 345, Pickup, Pending))
      && r.0.products[1].quantity == 95
      && r.0.orders == [r.1.value]
  {
    var items := [OrderItem(1, 5)];
    assert items[..0] == [];
  }

  /** Ordering 200 of the same bananas fails and changes nothing. */
  lemma OrderTooManyBananas()
    ensures var s := Store(1, "Sunnyvale Fresh Mart", map[1 := Product(1, "Bananas", 69, 100)], []);
      Ledger.CreateOrder(s, [OrderItem(1, 200)], Pickup) == (s, Failure(InsufficientStock("Bananas")))
  {
  }
}
