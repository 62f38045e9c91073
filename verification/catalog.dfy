/**
  Inventory management of one store (app.py:61-62, 67-78): fresh product
  ids, add, update and delete.
 */
module Catalog {
  import opened Model
  import Sets

  /** A non-empty set of integers has a largest element. */
  lemma {:induction false} MaxExists(keys: set<int>)
    requires keys != {}
    ensures exists m :: m in keys && forall k :: k in keys ==> k <= m
    decreases |keys|
  {
    Sets.NonEmptyHasMember(keys);
    var x :| x in keys;
    if keys == {x} {
      assert forall k :: k in keys ==> k <= x;
    } else {
      var rest := keys - {x};
      MaxExists(rest);
      var m :| m in rest && forall k :: k in rest ==> k <= m;
      var top := if x <= m then m else x;
      forall k | k in keys
        ensures k <= top
      {
        if k != x {
          assert k in rest;
        }
      }
      assert top in keys;
    }
  }

  /** Python's `max` over the keys of a non-empty dict. */
  function MaxKey(keys: set<int>): (m: int)
    requires keys != {}
    ensures m in keys
    ensures forall k :: k in keys ==> k <= m
  {
    MaxExists(keys);
    var m :| m in keys && forall k :: k in keys ==> k <= m; m
  }

  /** `next_product_id`: one more than the largest id in use, or 1 for an empty catalog. */
  function NextProductId(products: map<int, Product>): (id: int)
    ensures id !in products
    ensures forall k :: k in products ==> k < id
    ensures products == map[] ==> id == 1
    ensures products != map[] ==> id - 1 in products
  {
    if |products| == 0 then 1 else MaxKey(products.Keys) + 1
  }

  /** `add_product`: insert a new product under the fresh id. */
  function AddProduct(s: Store, name: string, price: int, quantity: int): (r: Store)
    ensures NextProductId(s.products) !in s.products
    ensures r.products.Keys == s.products.Keys + {NextProductId(s.products)}
    ensures |r.products| == |s.products| + 1
    ensures r.products[NextProductId(s.products)] == Product(NextProductId(s.products), name, price, quantity)
    ensures forall k :: k in s.products ==> r.products[k] == s.products[k]
    ensures r.id == s.id && r.name == s.name && r.orders == s.orders
    ensures Valid(s) && price >= 0 && quantity >= 0 ==> Valid(r)
  {
    var id := NextProductId(s.products);
    s.(products := s.products[id := Product(id, name, price, quantity)])
  }

  /** `update_product`: overwrite name, price and stock of an existing product; silently ignore an unknown id. */
  function UpdateProduct(s: Store, productId: int, name: string, price: int, quantity: int): (r: Store)
    ensures productId !in s.products ==> r == s
    ensures r.products.Keys == s.products.Keys
    ensures productId in s.products ==>
      && r.products[productId].id == s.products[productId].id
      && r.products[productId].name == name
      && r.products[productId].price == price
      && r.products[productId].quantity == quantity
    ensures forall k :: k in s.products && k != productId ==> r.products[k] == s.products[k]
    ensures r.id == s.id && r.name == s.name && r.orders == s.orders
    ensures Valid(s) && price >= 0 && quantity >= 0 ==> Valid(r)
  {
    if productId in s.products then
      var p := s.products[productId];
      s.(products := s.products[productId := p.(name := name, price := price, quantity := quantity)])
    else
      s
  }

  /** `delete_product`: drop the key if present. */
  function DeleteProduct(s: Store, productId: int): (r: Store)
    ensures r.products.Keys == s.products.Keys - {productId}
    ensures forall k :: k in r.products ==> r.products[k] == s.products[k]
    ensures productId !in s.products ==> r == s
    ensures r.id == s.id && r.name == s.name && r.orders == s.orders
    ensures Valid(s) ==> Valid(r)
  {
    s.(products := s.products - {productId})
  }

  /** Deleting twice is the same as deleting once. */
  lemma DeleteIdempotent(s: Store, productId: int)
    ensures DeleteProduct(DeleteProduct(s, productId), productId) == DeleteProduct(s, productId)
  {
  }

  /** Deleting the product just added restores the store exactly. */
  lemma DeleteUndoesAdd(s: Store, name: string, price: int, quantity: int)
    ensures DeleteProduct(AddProduct(s, name, price, quantity), NextProductId(s.products)) == s
  {
    var r := DeleteProduct(AddProduct(s, name, price, quantity), NextProductId(s.products));
    assert r.products == s.products;
  }

  /** Ids are not reserved: after the newest product is deleted its id is handed out again. */
  lemma DeletedNewestIdIsReused(s: Store, name: string, price: int, quantity: int)
    ensures var id := NextProductId(s.products);
      NextProductId(DeleteProduct(AddProduct(s, name, price, quantity), id).products) == id
  {
    DeleteUndoesAdd(s, name, price, quantity);
  }

  /**
    Deleting the product with the largest id lowers the next id: the freed
    id, or a smaller one, is the next to be handed out.
   */
  lemma DeleteMaxLowersNextId(s: Store)
    requires ValidCatalog(s.products)
    requires s.products != map[]
    ensures var top := NextProductId(s.products) - 1;
      && NextProductId(DeleteProduct(s, top).products) <= top
      && (top - 1 in s.products ==> NextProductId(DeleteProduct(s, top).products) == top)
  {
  }
}
