/**
  The entities of the grocery store: products, order lines, orders and
  the store that owns a catalog and an order ledger (app.py:31-59),
  together with the invariants the operations are proved to keep.
  Prices are integer cents; the source keeps them as floats.
 */
module Model {

  /** A catalog entry; `quantity` is the stock on hand. */
  datatype Product = Product(id: int, name: string, price: int, quantity: int)

  /** One line of an order: how many units of which product. */
  datatype OrderItem = OrderItem(productId: int, quantity: int)

  datatype DeliveryMethod = Delivery | Pickup

  datatype Status = Pending | Accepted | Ready | Completed

  datatype Order = Order(
    id: int,
    items: seq<OrderItem>,
    totalPrice: int,
    deliveryMethod: DeliveryMethod,
    status: Status)

  /** One retail location: its catalog keyed by product id and its orders. */
  datatype Store = Store(id: int, name: string, products: map<int, Product>, orders: seq<Order>)

  /** The failures the store raises or the route handlers flash. */
  datatype Error =
    | ProductNotFound
    | InvalidQuantity
    | InsufficientStock(productName: string)  // order placement names the product
    | NotEnoughStock                          // the cart route does not
    | EmptyCart
    | OrderNotFound
    | InvalidStatus

  /**
    Every product is stored under its own positive id, with a price and
    stock that are not negative.
   */
  predicate ValidCatalog(products: map<int, Product>) {
    forall k :: k in products ==>
      k >= 1 && products[k].id == k && products[k].price >= 0 && products[k].quantity >= 0
  }

  /** Order ids are positive and strictly increase along the ledger (hence are unique). */
  predicate ValidLedger(orders: seq<Order>) {
    && (forall i :: 0 <= i < |orders| ==> orders[i].id >= 1)
    && (forall i, j :: 0 <= i < j < |orders| ==> orders[i].id < orders[j].id)
  }

  predicate Valid(s: Store) {
    ValidCatalog(s.products) && ValidLedger(s.orders)
  }

  /** No two lines name the same product. */
  predicate DistinctProducts(items: seq<OrderItem>) {
    forall i, j :: 0 <= i < j < |items| ==> items[i].productId != items[j].productId
  }
}
