/**
 * The in-memory store of server/storage.ts: three keyed tables (users,
 * products, cart items), products search, and the cart operations.
 * Ids that the source draws from `randomUUID` are parameters here, with the
 * precondition that they are not yet in use.
 */
module Storage {
  import opened Options
  import opened Seqs
  import opened JsString
  import opened JsMap
  import opened Schema

  // ---------------------------------------------------------------------
  // Products search
  // ---------------------------------------------------------------------

  /** `s.toLowerCase().trim()`. */
  function LowerTrim(s: string): string {
    Trim(Lower(s))
  }

  /** `category?.toLowerCase().trim()`: undefined stays undefined. */
  function LowerCategory(category: Option<string>): Option<string> {
    match category
    case None => None
    case Some(c) => Some(LowerTrim(c))
  }

  /** The query test: an empty query passes; otherwise name, description or a non-null material must contain it. */
  predicate MatchesQuery(p: Product, lowerQuery: string) {
    || lowerQuery == ""
    || Includes(Lower(p.name), lowerQuery)
    || Includes(Lower(p.description), lowerQuery)
    || (p.material.Some? && Includes(Lower(p.material.value), lowerQuery))
  }

  /** The category test: a missing or empty category passes; otherwise the product's category must contain it. */
  predicate MatchesCategory(p: Product, lowerCategory: Option<string>) {
    !Truthy(lowerCategory) || Includes(Lower(p.category), lowerCategory.value)
  }

  predicate Kept(p: Product, query: string, category: Option<string>) {
    MatchesQuery(p, LowerTrim(query)) && MatchesCategory(p, LowerCategory(category))
  }

  /** The callback given to `filter`. */
  function KeepFn(query: string, category: Option<string>): Product -> bool {
    (p: Product) => Kept(p, query, category)
  }

  /** `searchProducts(query, category)` over the catalogue `all`, given in insertion order. */
  function Search(all: seq<Product>, query: string, category: Option<string>): seq<Product> {
    if query == "" && !Truthy(category) then all
    else Filter(all, KeepFn(query, category))
  }

  /** Nothing to filter by after normalising: every product is kept. */
  lemma KeptByAll(query: string, category: Option<string>, p: Product)
    requires LowerTrim(query) == "" && !Truthy(LowerCategory(category))
    ensures Kept(p, query, category)
  {
  }

  /** An empty query and a missing or empty category normalise to nothing to filter by. */
  lemma EmptyFiltersNormalise(query: string, category: Option<string>)
    requires query == "" && !Truthy(category)
    ensures LowerTrim(query) == "" && !Truthy(LowerCategory(category))
  {
    assert Lower("") == "";
  }

  /** With nothing to filter by after normalising, the filter keeps the whole catalogue. */
  lemma FilterKeepsCatalogue(all: seq<Product>, query: string, category: Option<string>)
    requires LowerTrim(query) == "" && !Truthy(LowerCategory(category))
    ensures Filter(all, KeepFn(query, category)) == all
  {
    forall i | 0 <= i < |all| ensures KeepFn(query, category)(all[i]) {
      KeptByAll(query, category, all[i]);
    }
    FilterKeepsAll(all, KeepFn(query, category));
  }

  /** The early return for an empty query and no category agrees with the filter. */
  lemma SearchIsFilter(all: seq<Product>, query: string, category: Option<string>)
    ensures Search(all, query, category) == Filter(all, KeepFn(query, category))
  {
    if query == "" && !Truthy(category) {
      EmptyFiltersNormalise(query, category);
      FilterKeepsCatalogue(all, query, category);
    }
  }

  /**
   * With nothing to filter by, the whole catalogue comes back in insertion
   * order: for an empty query and no category, and also whenever both
   * normalise to the empty string.
   */
  lemma SearchUnfiltered(all: seq<Product>, query: string, category: Option<string>)
    ensures query == "" && !Truthy(category) ==> Search(all, query, category) == all
    ensures LowerTrim(query) == "" && !Truthy(LowerCategory(category)) ==> Search(all, query, category) == all
  {
    if LowerTrim(query) == "" && !Truthy(LowerCategory(category)) {
      SearchIsFilter(all, query, category);
      FilterKeepsCatalogue(all, query, category);
    }
  }

  /** The result is taken from the catalogue in order: nothing is added, reordered or duplicated. */
  lemma SearchIsSubsequence(all: seq<Product>, query: string, category: Option<string>)
    ensures IsSubsequence(Search(all, query, category), all)
    ensures |Search(all, query, category)| <= |all|
  {
    SearchIsFilter(all, query, category);
    FilterIsSubsequence(all, KeepFn(query, category));
  }

  /**
   * A product is returned exactly when it is in the catalogue, passes the
   * query test (empty trimmed lowercased query, or a substring of the
   * lowercased name, description or non-null material) and passes the
   * category test (empty trimmed lowercased category, or a substring of the
   * lowercased category).
   */
  lemma SearchMembership(all: seq<Product>, query: string, category: Option<string>, p: Product)
    ensures var q := LowerTrim(query);
      p in Search(all, query, category) <==>
        && p in all
        && (|| q == ""
            || Includes(Lower(p.name), q)
            || Includes(Lower(p.description), q)
            || (p.material.Some? && Includes(Lower(p.material.value), q)))
        && (|| category.None?
            || LowerTrim(category.value) == ""
            || Includes(Lower(p.category), LowerTrim(category.value)))
  {
    SearchIsFilter(all, query, category);
  }

  /** A product without material is found only through its name or description. */
  lemma NullMaterialNeverMatches(p: Product, lowerQuery: string)
    requires p.material.None?
    ensures MatchesQuery(p, lowerQuery) <==>
      lowerQuery == "" || Includes(Lower(p.name), lowerQuery) || Includes(Lower(p.description), lowerQuery)
  {
  }

  /**
   * Matching compares characters as they are: no accent is folded, so a
   * text without 'u' or 'U', such as "Cepillo de Bambú", never contains the
   * query "bambu".
   */
  lemma NoAccentFolding(text: string)
    requires 'u' !in text && 'U' !in text
    ensures !Includes(Lower(text), "bambu")
  {
    assert 'u' in "bambu";
    assert 'u' !in Lower(text) by {
      forall i | 0 <= i < |text| ensures Lower(text)[i] != 'u' {
        assert text[i] != 'u' && text[i] != 'U';
      }
    }
    IncludesNeedsChar(Lower(text), "bambu", 'u');
  }

  lemma SeedNameNotFoundWithoutAccent()
    ensures !Includes(Lower("Cepillo de Bambú"), "bambu")
  {
    NoAccentFolding("Cepillo de Bambú");
  }

  // ---------------------------------------------------------------------
  // Records built by the insert operations
  // ---------------------------------------------------------------------

  /** `quantity || 1`: a missing or zero quantity becomes 1, any other value is kept. */
  function QuantityOrOne(quantity: Option<int>): (q: int)
    ensures quantity == None || quantity == Some(0) ==> q == 1
    ensures quantity.Some? && quantity.value != 0 ==> q == quantity.value
    ensures q != 0
  {
    match quantity
    case Some(n) => if n != 0 then n else 1
    case None => 1
  }

  /** The product `createProduct` stores: `{ ...data, id }` with each optional field `?? null`. */
  function NewProduct(data: InsertProduct, id: string): Product {
    Product(id, data.name, data.description, data.price, data.image, data.category,
      data.material, data.certification, data.inStock)
  }

  /** The item `addToCart` stores: `{ ...data, id }` with `quantity || 1` and `userId ?? null`. */
  function NewCartItem(data: InsertCartItem, id: string): CartItem {
    CartItem(id, data.productId, QuantityOrOne(data.quantity), data.userId)
  }

  /**
   * `createProduct` only nulls the optional fields that are absent: a given
   * `inStock`, even 0, is kept, and every other field is copied.
   */
  lemma NewProductDefaults(data: InsertProduct, id: string)
    ensures var p := NewProduct(data, id);
      && p.id == id && p.name == data.name && p.description == data.description
      && p.price == data.price && p.image == data.image && p.category == data.category
      && (data.material.None? ==> p.material.None?) && (data.material.Some? ==> p.material == data.material)
      && (data.certification.None? ==> p.certification.None?)
      && (data.certification.Some? ==> p.certification == data.certification)
      && (data.inStock.None? ==> p.inStock.None?) && (data.inStock.Some? ==> p.inStock == data.inStock)
    ensures data.inStock == Some(0) ==> NewProduct(data, id).inStock == Some(0)
  {
  }

  /**
   * `addToCart` replaces a missing or zero quantity by 1 and keeps any other
   * one, stores a missing user id as null, and keeps a given user id, even "".
   */
  lemma NewCartItemDefaults(data: InsertCartItem, id: string)
    ensures var item := NewCartItem(data, id);
      && item.id == id && item.productId == data.productId
      && (data.quantity.None? || data.quantity == Some(0) ==> item.quantity == 1)
      && (data.quantity.Some? && data.quantity.value != 0 ==> item.quantity == data.quantity.value)
      && (data.userId.None? ==> item.userId.None?)
      && (data.userId.Some? ==> item.userId == data.userId)
  {
  }

  // ---------------------------------------------------------------------
  // Cart table queries and the result of clearing it
  // ---------------------------------------------------------------------

  /** Each table is keyed by its records' own ids. */
  ghost predicate UsersKeyed(t: Table<User>) {
    forall k :: k in t.entries ==> t.entries[k].id == k
  }

  ghost predicate ProductsKeyed(t: Table<Product>) {
    forall k :: k in t.entries ==> t.entries[k].id == k
  }

  ghost predicate CartKeyed(t: Table<CartItem>) {
    forall k :: k in t.entries ==> t.entries[k].id == k
  }

  /** A cart item listed by `values()` is stored under its own id. */
  lemma ListedItemIsStored(t: Table<CartItem>, item: CartItem)
    requires Wf(t) && CartKeyed(t) && item in Values(t)
    ensures item.id in t.entries && t.entries[item.id] == item
  {
    var i :| 0 <= i < |Values(t)| && Values(t)[i] == item;
    assert t.keys[i] in t.entries;
  }

  /** `getCartItems(userId)`: every item when `userId` is falsy, otherwise the items whose owner is `userId`. */
  function ItemsFor(t: Table<CartItem>, userId: Option<string>): seq<CartItem>
    requires Wf(t)
  {
    Filter(Values(t), (item: CartItem) => !Truthy(userId) || item.userId == userId)
  }

  lemma ItemsForSpec(t: Table<CartItem>, userId: Option<string>)
    requires Wf(t)
    ensures !Truthy(userId) ==> ItemsFor(t, userId) == Values(t)
    ensures IsSubsequence(ItemsFor(t, userId), Values(t))
    ensures forall item :: item in ItemsFor(t, userId) <==>
      item in Values(t) && (!Truthy(userId) || item.userId == userId)
  {
    if !Truthy(userId) {
      FilterKeepsAll(Values(t), (item: CartItem) => !Truthy(userId) || item.userId == userId);
    }
    FilterIsSubsequence(Values(t), (item: CartItem) => !Truthy(userId) || item.userId == userId);
  }

  /** The keys of the items owned by `userId`. */
  function OwnedBy(t: Table<CartItem>, userId: Option<string>): set<Key> {
    set k | k in t.entries && t.entries[k].userId == userId
  }

  /** The cart table after `clearCart(userId)`: the owner's items go, or every item when `userId` is falsy. */
  function ClearedFor(t: Table<CartItem>, userId: Option<string>): (r: Table<CartItem>)
    requires Wf(t)
    ensures Wf(r)
  {
    if Truthy(userId) then RemoveKeys(t, OwnedBy(t, userId)) else Empty()
  }

  /**
   * Clearing for a user removes exactly that user's items and keeps every
   * other item under its key; clearing with no user empties the table.
   * Either way `getCartItems(userId)` is empty afterwards.
   */
  lemma ClearedForSpec(t: Table<CartItem>, userId: Option<string>)
    requires Wf(t)
    ensures Truthy(userId) ==> forall k :: k in ClearedFor(t, userId).entries <==>
      k in t.entries && t.entries[k].userId != userId
    ensures forall k :: k in ClearedFor(t, userId).entries ==> ClearedFor(t, userId).entries[k] == t.entries[k]
    ensures !Truthy(userId) ==> ClearedFor(t, userId).entries == map[] && ClearedFor(t, userId).keys == []
    ensures ItemsFor(ClearedFor(t, userId), userId) == []
    ensures IsSubsequence(ClearedFor(t, userId).keys, t.keys)
  {
    var r := ClearedFor(t, userId);
    forall i | 0 <= i < |Values(r)| ensures !(!Truthy(userId) || Values(r)[i].userId == userId) {
      assert r.keys[i] in r.entries;
    }
    FilterKeepsNone(Values(r), (item: CartItem) => !Truthy(userId) || item.userId == userId);
  }

  /**
   * The ids `clearCart(userId)` collects: the keys, in insertion order, whose
   * item belongs to `userId` — exactly the keys of the owner's items.
   */
  function OwnedKeys(t: Table<CartItem>, userId: Option<string>): (ks: seq<Key>)
    requires Wf(t)
    ensures forall k :: k in ks <==> k in OwnedBy(t, userId)
    ensures IsSubsequence(ks, t.keys)
  {
    FilterIsSubsequence(t.keys, (k: Key) => k in t.entries && t.entries[k].userId == userId);
    Filter(t.keys, (k: Key) => k in t.entries && t.entries[k].userId == userId)
  }

  /** One step of `clearCart`'s loop: deleting the next collected id extends the removed prefix by one. */
  lemma DeleteOneMore(t: Table<CartItem>, toDelete: seq<Key>, i: nat, deleted: set<Key>)
    requires Wf(t) && i < |toDelete|
    requires forall k :: k in deleted <==> k in toDelete[..i]
    ensures Delete(RemoveKeys(t, deleted), toDelete[i]) == RemoveKeys(t, deleted + {toDelete[i]})
    ensures forall k :: k in deleted + {toDelete[i]} <==> k in toDelete[..i + 1]
  {
    RemoveKeysTwice(t, deleted, {toDelete[i]});
    assert toDelete[..i + 1] == toDelete[..i] + [toDelete[i]];
  }

  /**
   * The loop of `clearCart(userId)` for a truthy `userId`: it collects the
   * keys of that owner's items and deletes them one at a time, which leaves
   * exactly the table without that owner's items.
   */
  method DeleteOwned(t: Table<CartItem>, userId: Option<string>) returns (r: Table<CartItem>)
    requires Wf(t) && CartKeyed(t)
    ensures r == RemoveKeys(t, OwnedBy(t, userId))
    ensures CartKeyed(r)
  {
    var toDelete := OwnedKeys(t, userId);
    ghost var deleted: set<Key> := {};
    RemoveNoKeys(t);
    r := t;
    var i := 0;
    while i < |toDelete|
      invariant 0 <= i <= |toDelete|
      invariant forall k :: k in deleted <==> k in toDelete[..i]
      invariant r == RemoveKeys(t, deleted)
    {
      DeleteOneMore(t, toDelete, i, deleted);
      r := Delete(r, toDelete[i]);
      deleted := deleted + {toDelete[i]};
      i := i + 1;
    }
    assert toDelete[..i] == toDelete;
    assert deleted == OwnedBy(t, userId);
  }

  // ---------------------------------------------------------------------
  // The store
  // ---------------------------------------------------------------------

  class MemStorage {
    var users: Table<User>
    var products: Table<Product>
    var cartItems: Table<CartItem>

    ghost predicate Valid()
      reads this
    {
      && Wf(users) && Wf(products) && Wf(cartItems)
      && UsersKeyed(users) && ProductsKeyed(products) && CartKeyed(cartItems)
    }

    /** A store with empty tables (the seed catalogue is not part of this model). */
    constructor ()
      ensures Valid()
      ensures users.entries == map[] && products.entries == map[] && cartItems.entries == map[]
    {
      users := Empty();
      products := Empty();
      cartItems := Empty();
    }

    /** `getUser(id)`. */
    function GetUser(id: string): (r: Option<User>)
      reads this
      requires Valid()
      ensures r.Some? <==> id in users.entries
      ensures r.Some? ==> r.value == users.entries[id] && r.value.id == id
    {
      Get(users, id)
    }

    /** `getUserByUsername(name)`: the first user in insertion order with that name, if any. */
    function GetUserByUsername(username: string): (r: Option<User>)
      reads this
      requires Valid()
      ensures r.Some? ==>
        r.value.username == username && r.value.id in users.entries && users.entries[r.value.id] == r.value
      ensures r.Some? ==>
        exists i :: 0 <= i < |users.keys| && users.entries[users.keys[i]] == r.value &&
          forall j :: 0 <= j < i ==> users.entries[users.keys[j]].username != username
      ensures r.None? <==> forall k :: k in users.entries ==> users.entries[k].username != username
    {
      var r := Find(Values(users), (u: User) => u.username == username);
      assert r.Some? ==> r.value.id in users.entries by {
        if r.Some? {
          var i :| 0 <= i < |Values(users)| && Values(users)[i] == r.value;
          assert users.keys[i] in users.entries;
        }
      }
      assert r.None? ==> forall k :: k in users.entries ==> users.entries[k].username != username by {
        if r.None? {
          forall k | k in users.entries ensures users.entries[k].username != username {
            var i :| 0 <= i < |users.keys| && users.keys[i] == k;
            assert Values(users)[i] in Values(users);
          }
        }
      }
      r
    }

    /** `createUser(data)` under the fresh id `id`. */
    method CreateUser(data: InsertUser, id: string) returns (r: User)
      requires Valid() && id !in users.entries
      modifies this
      ensures Valid()
      ensures r == User(id, data.username, data.password)
      ensures users == Set(old(users), id, r)
      ensures products == old(products) && cartItems == old(cartItems)
    {
      r := User(id, data.username, data.password);
      users := Set(users, id, r);
    }

    /** `getProducts()`: every product, in insertion order. */
    function GetProducts(): (r: seq<Product>)
      reads this
      requires Valid()
      ensures |r| == |products.keys|
      ensures forall i :: 0 <= i < |r| ==> r[i] == products.entries[products.keys[i]]
      ensures forall p: Product :: p in r <==> p.id in products.entries && products.entries[p.id] == p
    {
      var r := Values(products);
      assert forall p :: p in r ==> p.id in products.entries && products.entries[p.id] == p by {
        forall p | p in r ensures p.id in products.entries && products.entries[p.id] == p {
          var i :| 0 <= i < |r| && r[i] == p;
          assert products.keys[i] in products.entries;
        }
      }
      assert forall p: Product :: p.id in products.entries && products.entries[p.id] == p ==> p in r by {
        forall p: Product | p.id in products.entries && products.entries[p.id] == p ensures p in r {
          var i :| 0 <= i < |products.keys| && products.keys[i] == p.id;
          assert r[i] == p;
        }
      }
      r
    }

    /** `getProduct(id)`. */
    function GetProduct(id: string): (r: Option<Product>)
      reads this
      requires Valid()
      ensures r.Some? <==> id in products.entries
      ensures r.Some? ==> r.value == products.entries[id] && r.value.id == id
    {
      Get(products, id)
    }

    /** `createProduct(data)` under the fresh id `id`. */
    method CreateProduct(data: InsertProduct, id: string) returns (r: Product)
      requires Valid() && id !in products.entries
      modifies this
      ensures Valid()
      ensures r == NewProduct(data, id)
      ensures products == Set(old(products), id, r)
      ensures users == old(users) && cartItems == old(cartItems)
    {
      r := NewProduct(data, id);
      products := Set(products, id, r);
    }

    /** `searchProducts(query, category)`. */
    function SearchProducts(query: string, category: Option<string>): (r: seq<Product>)
      reads this
      requires Valid()
      ensures IsSubsequence(r, Values(products))
      ensures forall p :: p in r <==> p in Values(products) && Kept(p, query, category)
      ensures query == "" && !Truthy(category) ==> r == Values(products)
    {
      SearchIsSubsequence(Values(products), query, category);
      SearchIsFilter(Values(products), query, category);
      Search(Values(products), query, category)
    }

    /** `getCartItems(userId)`. */
    function GetCartItems(userId: Option<string>): (r: seq<CartItem>)
      reads this
      requires Valid()
      ensures IsSubsequence(r, Values(cartItems))
      ensures forall item :: item in r <==> item in Values(cartItems) && (!Truthy(userId) || item.userId == userId)
      ensures !Truthy(userId) ==> r == Values(cartItems)
    {
      ItemsForSpec(cartItems, userId);
      ItemsFor(cartItems, userId)
    }

    /** `addToCart(data)` under the fresh id `id`. */
    method AddToCart(data: InsertCartItem, id: string) returns (r: CartItem)
      requires Valid() && id !in cartItems.entries
      modifies this
      ensures Valid()
      ensures r == NewCartItem(data, id)
      ensures cartItems == Set(old(cartItems), id, r)
      ensures users == old(users) && products == old(products)
    {
      r := NewCartItem(data, id);
      cartItems := Set(cartItems, id, r);
    }

    /** `updateCartItemQuantity(id, quantity)`: no range check; an unknown id changes nothing. */
    method UpdateCartItemQuantity(id: string, quantity: int) returns (r: Option<CartItem>)
      requires Valid()
      modifies this
      ensures Valid()
      ensures id !in old(cartItems.entries) ==> r == None && cartItems == old(cartItems)
      ensures id in old(cartItems.entries) ==>
        && r == Some(old(cartItems.entries[id]).(quantity := quantity))
        && cartItems == Set(old(cartItems), id, r.value)
      ensures users == old(users) && products == old(products)
    {
      var found := Get(cartItems, id);
      if found.Some? {
        var item := found.value.(quantity := quantity);
        cartItems := Set(cartItems, id, item);
        r := Some(item);
      } else {
        r := None;
      }
    }

    /** `removeFromCart(id)`. */
    method RemoveFromCart(id: string)
      requires Valid()
      modifies this
      ensures Valid()
      ensures cartItems == Delete(old(cartItems), id)
      ensures users == old(users) && products == old(products)
    {
      cartItems := Delete(cartItems, id);
    }

    /** `clearCart(userId)`: collects the owner's item ids in order, then deletes them one by one. */
    method ClearCart(userId: Option<string>)
      requires Valid()
      modifies this
      ensures Valid()
      ensures cartItems == ClearedFor(old(cartItems), userId)
      ensures users == old(users) && products == old(products)
    {
      if Truthy(userId) {
        cartItems := DeleteOwned(cartItems, userId);
      } else {
        cartItems := Empty();
      }
    }
  }
}
