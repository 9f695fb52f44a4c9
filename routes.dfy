/**
 * The decision logic of the products-search and cart handlers of
 * server/routes.ts, as methods over the store. Express itself is not
 * modelled: a request body that fails schema validation is `None`, and each
 * handler returns either a reply body (status 200) or a status code with
 * its message.
 */
module Routes {
  import opened Options
  import opened Seqs
  import opened JsMap
  import opened Schema
  import opened Storage

  datatype Response<T> = Ok(body: T) | Error(status: int, message: string)

  /** The body of `POST /api/products/search`, once the filter schema accepts it. */
  datatype SearchFilters = SearchFilters(product: Option<string>, category: Option<string>, location: Option<string>)

  /** A cart reply: an item merged with its product (undefined when the product is unknown), or a message. */
  datatype CartReply = ItemWithProduct(item: CartItem, product: Option<Product>) | Message(text: string)

  /** The `quantity` field of a `PUT /api/cart/:id` body: a number, or anything else (missing, a string, ...). */
  datatype QuantityField = Number(n: int) | NotANumber

  /** `filters.product || ""`: a missing product filter becomes the empty query. */
  function QueryOf(filters: SearchFilters): (q: string)
    ensures filters.product.None? ==> q == ""
    ensures filters.product.Some? ==> q == filters.product.value
  {
    filters.product.GetOr("")
  }

  /** `cartItemData.userId || undefined`: the owner whose items are searched for an existing entry. */
  function LookupOwner(data: InsertCartItem): (u: Option<string>)
    ensures Truthy(data.userId) ==> u == data.userId
    ensures !Truthy(data.userId) ==> u.None?
  {
    if Truthy(data.userId) then data.userId else None
  }

  /** `item => item.productId === productId`. */
  function HoldsProduct(productId: string): CartItem -> bool {
    (item: CartItem) => item.productId == productId
  }

  /** The first item of the looked-up owner's cart that holds the requested product. */
  function ExistingItem(t: Table<CartItem>, data: InsertCartItem): Option<CartItem>
    requires Wf(t)
  {
    Find(ItemsFor(t, LookupOwner(data)), HoldsProduct(data.productId))
  }

  /** The existing entry is a stored item, under its own id, holding the requested product. */
  lemma ExistingItemIsStored(t: Table<CartItem>, data: InsertCartItem)
    requires Wf(t) && CartKeyed(t)
    ensures ExistingItem(t, data).Some? ==>
      var e := ExistingItem(t, data).value;
      e.id in t.entries && t.entries[e.id] == e && e.productId == data.productId
  {
    var e := ExistingItem(t, data);
    if e.Some? {
      ItemsForSpec(t, LookupOwner(data));
      ListedItemIsStored(t, e.value);
    }
  }

  /**
   * When the request carries no user id every item is a candidate, whoever
   * owns it; and there is no existing entry exactly when no candidate holds
   * the product.
   */
  lemma ExistingItemCandidates(t: Table<CartItem>, data: InsertCartItem)
    requires Wf(t) && CartKeyed(t)
    ensures !Truthy(data.userId) ==>
      ExistingItem(t, data) == Find(Values(t), HoldsProduct(data.productId))
    ensures ExistingItem(t, data).None? <==>
      forall k :: k in t.entries && (!Truthy(data.userId) || t.entries[k].userId == data.userId)
        ==> t.entries[k].productId != data.productId
  {
    ItemsForSpec(t, LookupOwner(data));
    if ExistingItem(t, data).None? {
      forall k | k in t.entries && (!Truthy(data.userId) || t.entries[k].userId == data.userId)
        ensures t.entries[k].productId != data.productId
      {
        var i :| 0 <= i < |t.keys| && t.keys[i] == k;
        assert Values(t)[i] in Values(t);
      }
    } else {
      ExistingItemIsStored(t, data);
    }
  }

  /** Lines 70-71 of `POST /api/cart`: `getCartItems(userId || undefined)`, then `find` by product id. */
  method LookUpExisting(s: MemStorage, data: InsertCartItem) returns (existing: Option<CartItem>)
    requires s.Valid()
    ensures existing == ExistingItem(s.cartItems, data)
  {
    var existingItems := s.GetCartItems(LookupOwner(data));
    existing := Find(existingItems, HoldsProduct(data.productId));
  }

  /** `POST /api/products/search`. */
  method SearchProductsRoute(s: MemStorage, body: Option<SearchFilters>) returns (r: Response<seq<Product>>)
    requires s.Valid()
    ensures body.None? ==> r == Error(400, "Invalid search parameters")
    ensures body.Some? ==> r == Ok(s.SearchProducts(QueryOf(body.value), body.value.category))
  {
    if body.None? {
      return Error(400, "Invalid search parameters");
    }
    var products := s.SearchProducts(QueryOf(body.value), body.value.category);
    r := Ok(products);
  }

  /** The item `POST /api/cart` replies with: the existing entry with its quantity raised, or a new item. */
  function AddedItem(t: Table<CartItem>, data: InsertCartItem, newId: string): CartItem
    requires Wf(t)
  {
    match ExistingItem(t, data)
    case Some(e) => e.(quantity := e.quantity + QuantityOrOne(data.quantity))
    case None => NewCartItem(data, newId)
  }

  /** The cart table after `POST /api/cart`. */
  function CartAfterAdd(t: Table<CartItem>, data: InsertCartItem, newId: string): Table<CartItem>
    requires Wf(t)
  {
    var item := AddedItem(t, data, newId);
    Set(t, item.id, item)
  }

  /**
   * Adding a product already in the looked-up cart raises that entry's
   * quantity by `quantity || 1` and creates no item; otherwise exactly one
   * new item is appended under the fresh id. No other entry changes.
   */
  lemma AddToCartEffect(t: Table<CartItem>, data: InsertCartItem, newId: string)
    requires Wf(t) && CartKeyed(t) && newId !in t.entries
    ensures var r := CartAfterAdd(t, data, newId);
      && Wf(r) && CartKeyed(r)
      && forall k :: k in t.entries && k != AddedItem(t, data, newId).id ==> k in r.entries && r.entries[k] == t.entries[k]
    ensures ExistingItem(t, data).Some? ==>
      var e := ExistingItem(t, data).value;
      var r := CartAfterAdd(t, data, newId);
      && r.keys == t.keys
      && r.entries.Keys == t.entries.Keys
      && r.entries[e.id] == t.entries[e.id].(quantity := t.entries[e.id].quantity + QuantityOrOne(data.quantity))
    ensures ExistingItem(t, data).None? ==>
      var r := CartAfterAdd(t, data, newId);
      && r.keys == t.keys + [newId]
      && r.entries.Keys == t.entries.Keys + {newId}
      && r.entries[newId] == NewCartItem(data, newId)
  {
    ExistingItemIsStored(t, data);
    var item := AddedItem(t, data, newId);
    if ExistingItem(t, data).Some? {
      SetPresent(t, item.id, item);
    } else {
      SetFresh(t, item.id, item);
    }
  }

  /**
   * `POST /api/cart`: bumps the quantity of the existing entry for the
   * product, or adds a new item under the fresh id `newId`.
   */
  method AddToCartRoute(s: MemStorage, body: Option<InsertCartItem>, newId: string) returns (r: Response<CartReply>)
    requires s.Valid() && newId !in s.cartItems.entries
    modifies s
    ensures s.Valid()
    ensures s.users == old(s.users) && s.products == old(s.products)
    ensures body.None? ==> r == Error(400, "Failed to add item to cart") && s.cartItems == old(s.cartItems)
    ensures body.Some? ==>
      var item := AddedItem(old(s.cartItems), body.value, newId);
      && s.cartItems == CartAfterAdd(old(s.cartItems), body.value, newId)
      && r == Ok(ItemWithProduct(item, Get(s.products, item.productId)))
  {
    if body.None? {
      return Error(400, "Failed to add item to cart");
    }
    var data := body.value;
    ghost var before := s.cartItems;
    var existing := LookUpExisting(s, data);
    if existing.Some? {
      var e := existing.value;
      ExistingItemIsStored(before, data);
      assert AddedItem(before, data, newId) == e.(quantity := e.quantity + QuantityOrOne(data.quantity));
      r := BumpExisting(s, e, data);
    } else {
      assert AddedItem(before, data, newId) == NewCartItem(data, newId);
      r := AddNew(s, data, newId);
    }
  }

  /** Lines 73-80 of `POST /api/cart`: the stored item `e` gets its quantity raised by `quantity || 1`. */
  method BumpExisting(s: MemStorage, e: CartItem, data: InsertCartItem) returns (r: Response<CartReply>)
    requires s.Valid() && e.id in s.cartItems.entries && s.cartItems.entries[e.id] == e
    modifies s
    ensures s.Valid()
    ensures s.users == old(s.users) && s.products == old(s.products)
    ensures var bumped := e.(quantity := e.quantity + QuantityOrOne(data.quantity));
      && s.cartItems == Set(old(s.cartItems), e.id, bumped)
      && r == Ok(ItemWithProduct(bumped, Get(s.products, bumped.productId)))
  {
    var updated := s.UpdateCartItemQuantity(e.id, e.quantity + QuantityOrOne(data.quantity));
    var product := s.GetProduct(updated.value.productId);
    r := Ok(ItemWithProduct(updated.value, product));
  }

  /** Lines 81-86 of `POST /api/cart`: a new item under the fresh id `newId`. */
  method AddNew(s: MemStorage, data: InsertCartItem, newId: string) returns (r: Response<CartReply>)
    requires s.Valid() && newId !in s.cartItems.entries
    modifies s
    ensures s.Valid()
    ensures s.users == old(s.users) && s.products == old(s.products)
    ensures var item := NewCartItem(data, newId);
      && s.cartItems == Set(old(s.cartItems), newId, item)
      && r == Ok(ItemWithProduct(item, Get(s.products, item.productId)))
  {
    var item := s.AddToCart(data, newId);
    var product := s.GetProduct(item.productId);
    r := Ok(ItemWithProduct(item, product));
  }

  /**
   * `PUT /api/cart/:id`: a quantity that is not a number or is negative is
   * rejected with 400; 0 removes the item and succeeds even for an unknown
   * id; a positive quantity on an unknown id is 404.
   */
  method UpdateCartRoute(s: MemStorage, id: string, quantity: QuantityField) returns (r: Response<CartReply>)
    requires s.Valid()
    modifies s
    ensures s.Valid()
    ensures s.users == old(s.users) && s.products == old(s.products)
    ensures quantity.NotANumber? || quantity.n < 0 ==>
      r == Error(400, "Invalid quantity") && s.cartItems == old(s.cartItems)
    ensures quantity == Number(0) ==>
      r == Ok(Message("Item removed from cart")) && s.cartItems == Delete(old(s.cartItems), id)
    ensures quantity.Number? && quantity.n > 0 && id !in old(s.cartItems.entries) ==>
      r == Error(404, "Cart item not found") && s.cartItems == old(s.cartItems)
    ensures quantity.Number? && quantity.n > 0 && id in old(s.cartItems.entries) ==>
      var item := old(s.cartItems.entries[id]).(quantity := quantity.n);
      && s.cartItems == Set(old(s.cartItems), id, item)
      && r == Ok(ItemWithProduct(item, Get(s.products, item.productId)))
  {
    if quantity.NotANumber? || quantity.n < 0 {
      return Error(400, "Invalid quantity");
    }
    if quantity.n == 0 {
      s.RemoveFromCart(id);
      r := Ok(Message("Item removed from cart"));
    } else {
      var updated := s.UpdateCartItemQuantity(id, quantity.n);
      if updated.None? {
        return Error(404, "Cart item not found");
      }
      var product := s.GetProduct(updated.value.productId);
      r := Ok(ItemWithProduct(updated.value, product));
    }
  }

  /** `DELETE /api/cart/:id`: removes the item; an unknown id still succeeds. */
  method RemoveCartItemRoute(s: MemStorage, id: string) returns (r: Response<CartReply>)
    requires s.Valid()
    modifies s
    ensures s.Valid()
    ensures s.users == old(s.users) && s.products == old(s.products)
    ensures s.cartItems == Delete(old(s.cartItems), id)
    ensures r == Ok(Message("Item removed from cart"))
  {
    s.RemoveFromCart(id);
    r := Ok(Message("Item removed from cart"));
  }

  /** `DELETE /api/cart`: `clearCart()` without a user, so every user's items go. */
  method ClearCartRoute(s: MemStorage) returns (r: Response<CartReply>)
    requires s.Valid()
    modifies s
    ensures s.Valid()
    ensures s.users == old(s.users) && s.products == old(s.products)
    ensures s.cartItems.entries == map[] && s.cartItems.keys == []
    ensures r == Ok(Message("Cart cleared"))
  {
    s.ClearCart(None);
    ClearedForSpec(old(s.cartItems), None);
    r := Ok(Message("Cart cleared"));
  }
}
