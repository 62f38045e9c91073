# Grocery ordering store — a Dafny model

This project models the in-memory store logic of a prototype grocery
ordering web application (`app.py`). Each retail location is a `Store`
holding a product catalog (`map<int, Product>`, keyed by product id) and an
order ledger (`seq<Order>`). The model covers:

- the inventory operations of the store owner: fresh product ids, add,
  update and delete (`Catalog`);
- order placement, the two-pass routine that validates every line against
  the current stock and only then decrements the stock and appends a
  `pending` order, plus order-id allocation and lookup (`Ledger`);
- the customer's cart: adding with a cap at the stock, the unit count, and
  checkout, which turns the positive cart lines into an order (`Cart`);
- the owner's order-status update, which accepts any of the four allowed
  statuses in any order (`OrderStatus`);
- sequences of these operations, over which stock never goes negative and
  order ids keep increasing (`Trace`).

Everything is a pure function over immutable datatypes, except where the
source loops: `Ledger.ValidationPass`, `Ledger.DecrementPass`, `Cart.CartCount`
and `Cart.CartLines` are methods with loop invariants, and `Ledger.PlaceOrder`
and `Cart.Checkout` compose them. Operations that the source performs by
mutating the store return the new store; operations that raise or flash an
error return the store (or cart) they leave behind together with a
`Result`/`Outcome`, so "a failure changes nothing" is stated, not assumed.

Prices are integer cents. The cart is a `map<int, int>` passed in and out.

Validation compares every line with the stock before any decrement
(app.py:89). Stock therefore stays non-negative only when the lines name
distinct products. The checkout route builds the lines from a dict
(app.py:279), so they always do. This is a `requires` of the stock lemmas
(`Ledger.CreateOrderStock`, `Ledger.CreateOrderNoNegativeStock`) and part of
`Trace.Admissible`. `Ledger.DuplicateLinesOverdraw` shows that the
condition is needed: two lines of one unit each against a stock of one
both pass validation, and the stock ends at -1.

Two behaviours of the code worth stating:

- Adding a product with a negative price or quantity is not rejected.
  `Store.add_product` accepts any values. The route clamps them at zero and
  rejects only an empty name or an unparseable number. The model's `AddProduct` accepts anything and
  keeps the store well formed when price and quantity are non-negative.
- Order placement accepts an empty list of lines. Checkout tests the cart
  for emptiness before dropping its non-positive lines. A non-empty cart
  whose quantities are all non-positive therefore places an order with no
  lines and a total of 0; `Cart.Checkout` states this both ways. Carts
  filled only through `AddToCart` never hold such lines (`AllPositive` is
  preserved).

## Model

| member | source | states |
|---|---|---|
| Catalog.MaxExists | app.py:62 | every non-empty set of product ids has a largest element, so `max` over a non-empty catalog is defined |
| Catalog.MaxKey | app.py:62 | the result is a product id in use and no id in use is larger |
| Catalog.NextProductId | app.py:61-62 | the fresh id is larger than every product id in use, so it is never taken; it is 1 for an empty catalog and otherwise one more than an id in use |
| Catalog.AddProduct | app.py:67-69 | exactly one entry is added, under the fresh id, holding the given name, price and stock; every other product and the ledger are unchanged; well-formedness is kept for non-negative price and stock |
| Catalog.UpdateProduct | app.py:71-75 | an unknown id leaves the store unchanged, with no error; a known id keeps its key and id and gets the new name, price and stock; no other product changes |
| Catalog.DeleteProduct | app.py:77-78 | only the given key is removed, the others keep their products; an absent key leaves the store unchanged; well-formedness is kept |
| Catalog.DeleteIdempotent | app.py:77-78 | deleting twice equals deleting once |
| Catalog.DeleteUndoesAdd | app.py:67-78 | deleting the product just added restores the original store |
| Catalog.DeletedNewestIdIsReused | app.py:61-62 | after the newest product is deleted, its id is the next one handed out |
| Catalog.DeleteMaxLowersNextId | app.py:61-62 | deleting the largest id makes the next id no larger than that id, and equal to it when the id below it is in use |
| Ledger.MaxOrderId | app.py:65 | the result is at least every order id and is the id of some order in the ledger |
| Ledger.NextOrderId | app.py:64-65 | the new order id exceeds every existing order id; it is 1 for an empty ledger, otherwise one more than an existing id |
| Ledger.NextOrderIdFollowsLast | app.py:64-65 | in a ledger with increasing ids the next id is the newest order's id plus one, and positive |
| Ledger.FindOrder | app.py:107-108 | finds the first position whose order has the id, and none exactly when no order has it |
| Ledger.GetOrder | app.py:107-108 | a found order is the first order in the ledger with the requested id; nothing is found exactly when no order has that id |
| Ledger.GetOrderUnique | app.py:107-108 | in a well-formed ledger, lookup by an order's id returns that very order |
| Ledger.LineError | app.py:84-90 | a line raises no error exactly when its product exists, its quantity is positive and at most the current stock; otherwise, checked in this order, an unknown product raises ProductNotFound, a non-positive quantity InvalidQuantity, and a quantity above the stock InsufficientStock naming the product |
| Ledger.FirstFailure | app.py:83-90 | reports no failure exactly when every line passes, and otherwise the first failing line |
| Ledger.FirstFailureIsFirst | app.py:83-90 | the first failing line is the one the validation pass stops at |
| Ledger.OrderTotal | app.py:82-91 | the sum of price times quantity over the lines is not negative for a well-formed catalog and positive quantities |
| Ledger.Decrement | app.py:94-95 | decrementing line by line keeps the product keys and lowers each product's stock by the total quantity the lines request of it, changing nothing else |
| Ledger.QtyForDistinct | app.py:94-95 | with distinct lines, the quantity requested of a listed product is its line's quantity |
| Ledger.QtyForAbsent | app.py:94-95 | a product no line names is requested zero times |
| Ledger.CreateOrder | app.py:80-105 | fails exactly when some line fails validation, with the first failing line's error and the store unchanged; on success it appends one pending order with the next id, the given lines and delivery method and the line total, and lowers each product's stock by the quantity ordered |
| Ledger.CreateOrderStock | app.py:89-95 | with distinct line products, each ordered product's stock drops by exactly its line quantity and products not ordered are untouched |
| Ledger.CreateOrderNoNegativeStock | app.py:89-95 | with distinct line products, no stock is negative after placement |
| Ledger.DuplicateLinesOverdraw | app.py:89-95 | two lines for one product can both pass validation against the pre-decrement stock and drive the stock to -1 |
| Ledger.CreateOrderPreservesValid | app.py:80-105 | order placement with distinct lines keeps stock non-negative and order ids positive and strictly increasing |
| Ledger.ValidationPass | app.py:82-91 | the validation loop stops at the first failing line with that line's error, and otherwise returns the line total |
| Ledger.DecrementPass | app.py:94-95 | the decrement loop produces the line-by-line decremented catalog |
| Ledger.PlaceOrder | app.py:80-105 | the two loops, validate-all then decrement-all, compute exactly the result of CreateOrder, store and outcome |
| OrderStatus.StatusName | app.py:51 | every status is stored as one of the four allowed strings |
| OrderStatus.ParseStatus | app.py:407-411 | a string is accepted exactly when it is one of pending, accepted, ready, completed, and then names the status it yields |
| OrderStatus.ParseStatusName | app.py:408 | parsing a status's own name gives that status back |
| OrderStatus.UpdateOrderStatus | app.py:396-415 | an unknown order fails with OrderNotFound, a known order with a status outside the allowed set fails with InvalidStatus, and either failure changes nothing; the update succeeds exactly when the order exists and the status is allowed, and then only the first matching order's status changes; well-formedness is kept |
| OrderStatus.AnyStatusFollowsAny | app.py:407-413 | every existing order can be moved to every status, including from completed back to pending |
| OrderStatus.MissingFieldResetsToPending | app.py:407 | a form without a status field sets the order to pending |
| Cart.AddToCart | app.py:230-251 | a non-positive quantity (InvalidQuantity), an unknown product (ProductNotFound) or a quantity above the stock (NotEnoughStock, without the product's name) is rejected with the cart unchanged; otherwise only that product's line changes, to the smaller of old plus added and the stock; carts within stock and carts of positive lines stay so |
| Cart.SumValuesRemove | app.py:161-162 | the unit count is the same whichever line is taken out first |
| Cart.SumValuesUpdate | app.py:161-162 | setting one line changes the unit count by the difference |
| Cart.CartCount | app.py:161-162 | the loop returns the sum of all quantities in the cart |
| Cart.AddToCartCount | app.py:244-251 | a successful add changes the unit count by the change of that line; when the cart was within stock the count grows by at most the quantity added |
| Cart.CartLines | app.py:279 | one order line per positive cart entry, carrying that entry's quantity, and no product twice |
| Cart.CheckedOutStock | app.py:279-281 | placing the cart's lines lowers each product's stock by its positive cart quantity and leaves every other field and product as it was |
| Cart.NoLinesIffNoPositive | app.py:275-279 | the cart yields no order lines exactly when none of its quantities is positive, so a non-empty cart of such lines gets past the emptiness test with nothing to order |
| Cart.ParseDeliveryMethod | app.py:270-272 | the method is delivery exactly when delivery was submitted, pickup otherwise or when the field is missing |
| Cart.Checkout | app.py:264-288 | an empty cart fails with EmptyCart; otherwise checkout succeeds exactly when every positive line names a product with enough stock, and fails with the error of some positive line; failure leaves store and cart unchanged; success empties the cart, appends one pending order with the next id whose distinct lines are the positive cart lines and whose total is their price-times-quantity sum, lowers each product's stock by its cart quantity and changes nothing else of the store, and keeps the store well formed |
| Trace.EmptyStoreValid | app.py:54-59 | a new store with no products and no orders is well formed |
| Trace.StepPreservesValid | app.py:67-105 | every admissible catalog, order or status operation keeps the store well formed |
| Trace.RunPreservesValid | app.py:67-105 | after any sequence of admissible operations stock is non-negative and order ids are positive and strictly increasing |
| Trace.StepKeepsOrders | app.py:97-104 | no operation removes an order or changes its id or lines |
| Trace.RunKeepsOrders | app.py:97-104 | over any sequence of operations, existing orders keep their place, id and lines |
| Trace.OrderFiveBananas | app.py:80-105 | ordering 5 of 100 bananas at 69 cents leaves 95 in stock and one pending order 1 totalling 345 cents |
| Trace.OrderTooManyBananas | app.py:80-105 | ordering 200 of 100 bananas fails with insufficient stock and changes nothing |

## Left out

- Flask routing, templates, `flash`, `redirect` and store selection through the session (app.py:138-149, 165-415 outside the logic above): framework I/O. The errors the routes flash are the `Error` constructors; message texts are not modelled.
- The session's string-keyed cart encoding (app.py:151-159): a serialisation detail; the cart is a `map<int, int>`.
- Float prices and `round(total, 2)` (app.py:91, 100): prices are integer cents, so totals are exact.
- Parsing and clamping of form inputs (app.py:230, 342-354, 364-376): boundary parsing; the resulting guarantees appear as `Trace.Admissible`.
- Seed data, the global `stores` dict, `app.secret_key` and `app.run` (app.py:24-25, 114-135, 418-419): configuration.
- `view_cart` and `order_confirmation` display totals and names (app.py:201-222, 290-315), and `clear_cart` (app.py:255-262): presentation and a plain reset of the cart.
- Unlocked concurrent access to the shared store: the model is sequential, one call at a time.
- Dict iteration order: `Cart.CartLines` and `Cart.CartCount` visit the cart in an unspecified order, where Python uses insertion order. Only the order of the lines and which bad line is reported first depend on it.
- `create_order` takes the delivery method as a string and stores it unchecked. The model uses the two-valued `DeliveryMethod`, because its only caller normalises the string first (app.py:270-272).
- Ledger.OrderTotal: its contract states only that the total is non-negative; that it is the sum of price times quantity is its definition, and `Ledger.ValidationPass` proves the loop computes it.
