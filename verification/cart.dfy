/**
  The customer's cart and checkout (app.py:154-162, 224-288): a cart maps
  product ids to requested quantities; adding caps the quantity at the
  stock, and checkout turns the positive lines into an order.
 */
module Cart {
  import opened Wrappers
  import opened Model
  import Sets
  import Ledger

  /** The cart quantity of a product, 0 when the cart has no line for it. */
  function CartQty(cart: map<int, int>, productId: int): int {
    if productId in cart then cart[productId] else 0
  }

  /** Every cart quantity is positive. */
  predicate AllPositive(cart: map<int, int>) {
    forall k :: k in cart ==> cart[k] > 0
  }

  /** No cart quantity exceeds the stock of its product. */
  predicate WithinStock(products: map<int, Product>, cart: map<int, int>) {
    forall k :: k in cart && k in products ==> cart[k] <= products[k].quantity
  }

  /**
    `add_to_cart`: reject a non-positive quantity, an unknown product or a
    quantity above the stock; otherwise add to the product's cart quantity
    and cap the sum at the stock. The pair holds the cart afterwards and
    the outcome.
   */
  function AddToCart(products: map<int, Product>, cart: map<int, int>, productId: int, qty: int): (r: (map<int, int>, Outcome<Error>))
    ensures r.1.Fail? ==> r.0 == cart
    ensures r.1.Fail? <==> qty <= 0 || productId !in products || qty > products[productId].quantity
    ensures qty <= 0 ==> r.1 == Fail(InvalidQuantity)
    ensures qty > 0 && productId !in products ==> r.1 == Fail(ProductNotFound)
    ensures qty > 0 && productId in products && qty > products[productId].quantity ==>
      r.1 == Fail(NotEnoughStock)
    ensures r.1.Pass? ==>
      && r.0.Keys == cart.Keys + {productId}
      && (forall k :: k in cart && k != productId ==> r.0[k] == cart[k])
      && r.0[productId] <= products[productId].quantity
      && r.0[productId] <= CartQty(cart, productId) + qty
      && (r.0[productId] == products[productId].quantity || r.0[productId] == CartQty(cart, productId) + qty)
    ensures WithinStock(products, cart) ==> WithinStock(products, r.0)
    ensures AllPositive(cart) ==> AllPositive(r.0)
  {
    if qty <= 0 then (cart, Fail(InvalidQuantity))
    else if productId !in products then (cart, Fail(ProductNotFound))
    else
      var stock := products[productId].quantity;
      if qty > stock then (cart, Fail(NotEnoughStock))
      else
        var added := CartQty(cart, productId) + qty;
        (cart[productId := if added > stock then stock else added], Pass)
  }

  /** Some key of a non-empty cart, chosen once and for all. */
  ghost function Pick(cart: map<int, int>): (k: int)
    requires cart != map[]
    ensures k in cart
  {
    assert cart.Keys != {};
    Sets.NonEmptyHasMember(cart.Keys);
    var k :| k in cart.Keys; k
  }

  /** Sum of all quantities in the cart. */
  ghost function SumValues(cart: map<int, int>): int
    decreases |cart|
  {
    if cart == map[] then 0
    else
      var k := Pick(cart);
      cart[k] + SumValues(cart - {k})
  }

  /** The sum does not depend on which key is taken out first. */
  lemma {:induction false} SumValuesRemove(cart: map<int, int>, k: int)
    requires k in cart
    ensures SumValues(cart) == cart[k] + SumValues(cart - {k})
    decreases |cart|
  {
    var j := Pick(cart);
    if j != k {
      SumValuesRemove(cart - {j}, k);
      SumValuesRemove(cart - {k}, j);
      assert cart - {j} - {k} == cart - {k} - {j};
    }
  }

  /** Setting one entry changes the sum by the difference. */
  lemma SumValuesUpdate(cart: map<int, int>, k: int, v: int)
    ensures SumValues(cart[k := v]) == SumValues(cart) - CartQty(cart, k) + v
  {
    var updated := cart[k := v];
    SumValuesRemove(updated, k);
    assert updated - {k} == cart - {k};
    if k in cart {
      SumValuesRemove(cart, k);
    } else {
      assert cart - {k} == cart;
    }
  }

  /** `cart_count`: the number of units in the cart, summed over its lines. */
  method CartCount(cart: map<int, int>) returns (count: int)
    ensures count == SumValues(cart)
  {
    count := 0;
    var rest := cart;
    while rest != map[]
      invariant count + SumValues(rest) == SumValues(cart)
      decreases |rest|
    {
      var k := PickKey(rest);
      SumValuesRemove(rest, k);
      count := count + rest[k];
      rest := rest - {k};
    }
  }

  /** Some key of a non-empty cart, as a dict iteration would yield it. */
  method PickKey(cart: map<int, int>) returns (k: int)
    requires cart != map[]
    ensures k in cart
  {
    Sets.NonEmptyHasMember(cart.Keys);
    k :| k in cart.Keys;
  }

  /**
    A successful add moves the unit count by the change of that one line;
    when the cart was within stock the count grows by at most `qty`.
   */
  lemma AddToCartCount(products: map<int, Product>, cart: map<int, int>, productId: int, qty: int)
    requires AddToCart(products, cart, productId, qty).1.Pass?
    ensures var after := AddToCart(products, cart, productId, qty).0;
      && SumValues(after) == SumValues(cart) - CartQty(cart, productId) + after[productId]
      && (WithinStock(products, cart) ==> SumValues(cart) <= SumValues(after) <= SumValues(cart) + qty)
  {
    var after := AddToCart(products, cart, productId, qty).0;
    SumValuesUpdate(cart, productId, after[productId]);
    assert after == cart[productId := after[productId]];
  }

  /** Some line of the order names product `k`. */
  predicate Lists(items: seq<OrderItem>, k: int) {
    exists i :: 0 <= i < |items| && items[i].productId == k
  }

  /**
    The order lines built from the cart: one line per positive entry, in
    an unspecified order, so no product appears twice.
   */
  method CartLines(cart: map<int, int>) returns (items: seq<OrderItem>)
    ensures DistinctProducts(items)
    ensures forall i :: 0 <= i < |items| ==>
      items[i].productId in cart && items[i].quantity == cart[items[i].productId] && items[i].quantity > 0
    ensures forall k :: k in cart && cart[k] > 0 ==> Lists(items, k)
  {
    items := [];
    var rest := cart;
    while rest != map[]
      invariant rest.Keys <= cart.Keys
      invariant forall k :: k in rest ==> rest[k] == cart[k]
      invariant DistinctProducts(items)
      invariant forall i :: 0 <= i < |items| ==>
        && items[i].productId in cart && items[i].productId !in rest
        && items[i].quantity == cart[items[i].productId] && items[i].quantity > 0
      invariant forall k :: k in cart && cart[k] > 0 && k !in rest ==> Lists(items, k)
      decreases |rest|
    {
      var k := PickKey(rest);
      if rest[k] > 0 {
        var prev := items;
        items := items + [OrderItem(k, rest[k])];
        assert items[|items| - 1].productId == k;
        forall j | Lists(prev, j)
          ensures Lists(items, j)
        {
          var i :| 0 <= i < |prev| && prev[i].productId == j;
          assert items[i] == prev[i];
        }
      }
      rest := rest - {k};
    }
  }

  /** The quantity checkout takes of product `k`: its cart quantity when positive, else nothing. */
  function CheckedOut(cart: map<int, int>, k: int): int {
    if k in cart && cart[k] > 0 then cart[k] else 0
  }

  /** The delivery method from the checkout form: `pickup` unless `delivery` was chosen. */
  function ParseDeliveryMethod(field: Option<string>): (m: DeliveryMethod)
    ensures m == Delivery <==> field == Some("delivery")
  {
    if field == Some("delivery") then Delivery else Pickup
  }

  /** `items` are the order lines built from `cart`, as `CartLines` promises. */
  predicate LinesOf(cart: map<int, int>, items: seq<OrderItem>) {
    && (forall i :: 0 <= i < |items| ==>
          items[i].productId in cart && items[i].quantity == cart[items[i].productId] && items[i].quantity > 0)
    && (forall k :: k in cart && cart[k] > 0 ==> Lists(items, k))
  }

  /** Placing the cart's distinct lines lowers every product's stock by its checked-out quantity. */
  lemma CheckedOutStock(s: Store, cart: map<int, int>, items: seq<OrderItem>, deliveryMethod: DeliveryMethod)
    requires LinesOf(cart, items)
    requires DistinctProducts(items)
    requires Ledger.CreateOrder(s, items, deliveryMethod).1.Success?
    ensures var after := Ledger.CreateOrder(s, items, deliveryMethod).0.products;
      forall k :: k in s.products ==>
        after[k] == s.products[k].(quantity := s.products[k].quantity - CheckedOut(cart, k))
  {
    Ledger.CreateOrderStock(s, items, deliveryMethod);
    var after := Ledger.CreateOrder(s, items, deliveryMethod).0.products;
    forall k | k in s.products
      ensures after[k] == s.products[k].(quantity := s.products[k].quantity - CheckedOut(cart, k))
    {
      if k in cart && cart[k] > 0 {
        assert Lists(items, k);
      } else {
        assert forall i :: 0 <= i < |items| ==> items[i].productId != k;
      }
    }
  }

  /** The cart yields no order lines exactly when none of its quantities is positive. */
  lemma NoLinesIffNoPositive(cart: map<int, int>, items: seq<OrderItem>)
    requires LinesOf(cart, items)
    ensures |items| == 0 <==> forall k :: k in cart ==> cart[k] <= 0
  {
    if |items| == 0 {
      assert forall k :: k in cart && cart[k] > 0 ==> Lists(items, k);
    } else {
      assert items[0].productId in cart && cart[items[0].productId] > 0;
    }
  }

  /**
    `checkout`: reject an empty cart, place an order for the positive
    lines, and empty the cart on success. On failure neither the store
    nor the cart changes.
   */
  method Checkout(s: Store, cart: map<int, int>, deliveryField: Option<string>)
    returns (after: Store, cartAfter: map<int, int>, outcome: Result<Order, Error>)
    ensures cart == map[] ==> outcome == Failure(EmptyCart)
    ensures outcome.Failure? ==> after == s && cartAfter == cart
    ensures cart != map[] && outcome.Failure? ==>
      exists k :: k in cart && cart[k] > 0 && Ledger.LineError(s.products, OrderItem(k, cart[k])) == Some(outcome.error)
    ensures cart != map[] ==>
      (outcome.Success? <==> forall k :: k in cart && cart[k] > 0 ==>
         k in s.products && cart[k] <= s.products[k].quantity)
    ensures outcome.Success? ==>
      && cartAfter == map[]
      && after.orders == s.orders + [outcome.value]
      && outcome.value.id == Ledger.NextOrderId(s.orders)
      && outcome.value.status == Pending
      && outcome.value.deliveryMethod == ParseDeliveryMethod(deliveryField)
      && Ledger.AllKnown(s.products, outcome.value.items)
      && outcome.value.totalPrice == Ledger.OrderTotal(s.products, outcome.value.items)
      && after.id == s.id && after.name == s.name
    ensures outcome.Success? ==>
      && DistinctProducts(outcome.value.items)
      && (forall i :: 0 <= i < |outcome.value.items| ==>
            && outcome.value.items[i].productId in cart
            && outcome.value.items[i].quantity == cart[outcome.value.items[i].productId] > 0)
      && (forall k :: k in cart && cart[k] > 0 ==> Lists(outcome.value.items, k))
      && (|outcome.value.items| == 0 <==> forall k :: k in cart ==> cart[k] <= 0)
    ensures outcome.Success? ==>
      && after.products.Keys == s.products.Keys
      && forall k :: k in s.products ==>
           after.products[k] == s.products[k].(quantity := s.products[k].quantity - CheckedOut(cart, k))
    ensures Valid(s) ==> Valid(after)
  {
    var deliveryMethod := ParseDeliveryMethod(deliveryField);
    if cart == map[] {
      return s, cart, Failure(EmptyCart);
    }
    var items := CartLines(cart);
    var placed, result := Ledger.PlaceOrder(s, items, deliveryMethod);
    if result.Failure? {
      var i :| Ledger.FailsFirstAt(s.products, items, i) && Ledger.LineError(s.products, items[i]) == Some(result.error);
      assert items[i] == OrderItem(items[i].productId, cart[items[i].productId]);
      return s, cart, result;
    }
    Ledger.CreateOrderStock(s, items, deliveryMethod);
    if Valid(s) {
      Ledger.CreateOrderPreservesValid(s, items, deliveryMethod);
    }
    CheckedOutStock(s, cart, items, deliveryMethod);
    NoLinesIffNoPositive(cart, items);
    return placed, map[], result;
  }
}
