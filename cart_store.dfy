/**
 * The client's cart store (`useCartStore`): a list of cart items joined with
 * their products, and whether the cart panel is open. Every action computes
 * the next state from the current one; the transitions are the functions
 * below, and the class `CartStore` holds the state and applies them.
 */
module ClientCart {
  import opened Options
  import opened Seqs
  import opened Schema

  type Item = CartItemWithProduct

  datatype CartState = CartState(items: seq<Item>, isCartOpen: bool)

  /** The store as created: no items, panel closed. */
  function Initial(): (st: CartState)
    ensures st.items == [] && !st.isCartOpen
    ensures UniqueProducts(st.items) && TotalItems(st.items) == 0
  {
    CartState([], false)
  }

  /** No two items share a product: `addItem` merges by product id. */
  ghost predicate UniqueProducts(items: seq<Item>) {
    forall i, j :: 0 <= i < j < |items| ==> items[i].productId != items[j].productId
  }

  /** `getTotalItems`: the quantities summed from the first item to the last. */
  function TotalItems(items: seq<Item>): int {
    if items == [] then 0 else TotalItems(items[..|items| - 1]) + items[|items| - 1].quantity
  }

  // ---------------------------------------------------------------------
  // Transitions
  // ---------------------------------------------------------------------

  function HasProduct(pid: string): Item -> bool {
    (item: Item) => item.productId == pid
  }

  /** The `map` callback of `addItem`: the matching item gets one more unit. */
  function Bumped(item: Item, pid: string): Item {
    if item.productId == pid then item.(quantity := item.quantity + 1) else item
  }

  /** The item `addItem` creates for a product not yet in the list; `newId` stands for `Date.now().toString()`. */
  function NewItem(product: Product, newId: string): Item {
    CartItemWithProduct(newId, product.id, 1, None, product)
  }

  /** `addItem(product)`: bump every item of that product if one exists, otherwise append a new item. */
  function Added(st: CartState, product: Product, newId: string): CartState {
    match Find(st.items, HasProduct(product.id))
    case Some(_) =>
      st.(items := seq(|st.items|, i requires 0 <= i < |st.items| => Bumped(st.items[i], product.id)))
    case None =>
      st.(items := st.items + [NewItem(product, newId)])
  }

  function HasOtherId(id: string): Item -> bool {
    (item: Item) => item.id != id
  }

  /** `removeItem(id)`: keep the items whose id differs. */
  function Removed(st: CartState, id: string): CartState {
    st.(items := Filter(st.items, HasOtherId(id)))
  }

  /** `updateQuantity(id, quantity)`: a quantity of zero or less removes, otherwise the matching items get it. */
  function QuantityUpdated(st: CartState, id: string, quantity: int): CartState {
    if quantity <= 0 then st.(items := Filter(st.items, HasOtherId(id)))
    else st.(items := seq(|st.items|, i requires 0 <= i < |st.items| =>
      if st.items[i].id == id then st.items[i].(quantity := quantity) else st.items[i]))
  }

  /** `clearCart()`. */
  function Cleared(st: CartState): CartState {
    st.(items := [])
  }

  /** `toggleCart()`. */
  function Toggled(st: CartState): CartState {
    st.(isCartOpen := !st.isCartOpen)
  }

  // ---------------------------------------------------------------------
  // Properties of the transitions
  // ---------------------------------------------------------------------

  /**
   * Adding a product already in the list keeps the length and the panel,
   * adds one to the quantity of each item of that product, and leaves every
   * other item as it was.
   */
  lemma AddExisting(st: CartState, product: Product, newId: string)
    requires exists i :: 0 <= i < |st.items| && st.items[i].productId == product.id
    ensures var r := Added(st, product, newId);
      && |r.items| == |st.items| && r.isCartOpen == st.isCartOpen
      && (forall i :: 0 <= i < |st.items| && st.items[i].productId == product.id ==>
            r.items[i] == st.items[i].(quantity := st.items[i].quantity + 1))
      && (forall i :: 0 <= i < |st.items| && st.items[i].productId != product.id ==>
            r.items[i] == st.items[i])
  {
    var i :| 0 <= i < |st.items| && st.items[i].productId == product.id;
    assert HasProduct(product.id)(st.items[i]);
  }

  /** Adding a product not in the list appends one item of quantity 1, owned by nobody, and keeps the rest. */
  lemma AddNew(st: CartState, product: Product, newId: string)
    requires forall i :: 0 <= i < |st.items| ==> st.items[i].productId != product.id
    ensures Added(st, product, newId) ==
      st.(items := st.items + [CartItemWithProduct(newId, product.id, 1, None, product)])
  {
    assert forall x :: x in st.items ==> !HasProduct(product.id)(x);
  }

  /** `addItem` never lets two items share a product. */
  lemma AddKeepsUnique(st: CartState, product: Product, newId: string)
    requires UniqueProducts(st.items)
    ensures UniqueProducts(Added(st, product, newId).items)
  {
    if forall i :: 0 <= i < |st.items| ==> st.items[i].productId != product.id {
      AddNew(st, product, newId);
      var r := Added(st, product, newId).items;
      forall i, j | 0 <= i < j < |r| ensures r[i].productId != r[j].productId {
        if j == |st.items| {
          assert r[i] == st.items[i];
        } else {
          assert r[i] == st.items[i] && r[j] == st.items[j];
        }
      }
    } else {
      AddExisting(st, product, newId);
    }
  }

  /** The total is unchanged by edits that keep every quantity but one, which moves by `d`. */
  lemma {:induction false} TotalOneChanged(a: seq<Item>, b: seq<Item>, j: nat, d: int)
    requires |a| == |b| && j < |a|
    requires b[j].quantity == a[j].quantity + d
    requires forall i :: 0 <= i < |a| && i != j ==> b[i].quantity == a[i].quantity
    ensures TotalItems(b) == TotalItems(a) + d
  {
    var n := |a| - 1;
    if j == n {
      SameQuantitiesSameTotal(a[..n], b[..n]);
    } else {
      TotalOneChanged(a[..n], b[..n], j, d);
    }
  }

  /** Lists with the same quantities position by position have the same total. */
  lemma {:induction false} SameQuantitiesSameTotal(a: seq<Item>, b: seq<Item>)
    requires |a| == |b|
    requires forall i :: 0 <= i < |a| ==> b[i].quantity == a[i].quantity
    ensures TotalItems(b) == TotalItems(a)
  {
    if a != [] {
      SameQuantitiesSameTotal(a[..|a| - 1], b[..|b| - 1]);
    }
  }

  /** Appending an item adds its quantity to the total. */
  lemma TotalAppend(a: seq<Item>, x: Item)
    ensures TotalItems(a + [x]) == TotalItems(a) + x.quantity
  {
    assert (a + [x])[..|a|] == a;
  }

  /** While products are unique, every `addItem` raises the total by exactly one. */
  lemma AddRaisesTotal(st: CartState, product: Product, newId: string)
    requires UniqueProducts(st.items)
    ensures TotalItems(Added(st, product, newId).items) == TotalItems(st.items) + 1
  {
    if j :| 0 <= j < |st.items| && st.items[j].productId == product.id {
      AddExisting(st, product, newId);
      TotalOneChanged(st.items, Added(st, product, newId).items, j, 1);
    } else {
      AddNew(st, product, newId);
      TotalAppend(st.items, NewItem(product, newId));
    }
  }

  /**
   * `removeItem(id)` keeps exactly the items with another id, in their
   * order, and the panel; removing an id no item has changes nothing.
   */
  lemma RemoveSpec(st: CartState, id: string)
    ensures var r := Removed(st, id);
      && r.isCartOpen == st.isCartOpen
      && (forall x :: x in r.items <==> x in st.items && x.id != id)
      && IsSubsequence(r.items, st.items)
    ensures (forall i :: 0 <= i < |st.items| ==> st.items[i].id != id) ==> Removed(st, id) == st
  {
    FilterIsSubsequence(st.items, HasOtherId(id));
    if forall i :: 0 <= i < |st.items| ==> st.items[i].id != id {
      FilterKeepsAll(st.items, HasOtherId(id));
    }
  }

  /** Keeping a sub-list never makes two items share a product. */
  lemma {:induction false} SubsequenceKeepsUnique(r: seq<Item>, s: seq<Item>)
    requires IsSubsequence(r, s) && UniqueProducts(s)
    ensures UniqueProducts(r)
  {
    if r != [] && s != [] {
      assert UniqueProducts(s[1..]) by {
        forall i, j | 0 <= i < j < |s[1..]| ensures s[1..][i].productId != s[1..][j].productId {
          assert s[1..][i] == s[i + 1] && s[1..][j] == s[j + 1];
        }
      }
      if r[0] == s[0] && IsSubsequence(r[1..], s[1..]) {
        SubsequenceKeepsUnique(r[1..], s[1..]);
        SubsequenceMembers(r[1..], s[1..]);
        forall i, j | 0 <= i < j < |r| ensures r[i].productId != r[j].productId {
          if i == 0 {
            assert r[j] == r[1..][j - 1];
            var k :| 0 <= k < |s[1..]| && s[1..][k] == r[j];
            assert s[k + 1] == r[j];
          } else {
            assert r[i] == r[1..][i - 1] && r[j] == r[1..][j - 1];
          }
        }
      } else {
        SubsequenceKeepsUnique(r, s[1..]);
      }
    }
  }

  /** A quantity of zero or less makes `updateQuantity` exactly `removeItem`. */
  lemma UpdateNonPositiveRemoves(st: CartState, id: string, quantity: int)
    requires quantity <= 0
    ensures QuantityUpdated(st, id, quantity) == Removed(st, id)
  {
  }

  /**
   * A positive quantity keeps the length and the panel, gives the items with
   * that id the new quantity and leaves every other item as it was.
   */
  lemma UpdatePositive(st: CartState, id: string, quantity: int)
    requires quantity > 0
    ensures var r := QuantityUpdated(st, id, quantity);
      && |r.items| == |st.items| && r.isCartOpen == st.isCartOpen
      && (forall i :: 0 <= i < |st.items| && st.items[i].id == id ==>
            r.items[i] == st.items[i].(quantity := quantity))
      && (forall i :: 0 <= i < |st.items| && st.items[i].id != id ==> r.items[i] == st.items[i])
  {
  }

  /** `updateQuantity` never lets two items share a product. */
  lemma UpdateKeepsUnique(st: CartState, id: string, quantity: int)
    requires UniqueProducts(st.items)
    ensures UniqueProducts(QuantityUpdated(st, id, quantity).items)
  {
    if quantity <= 0 {
      RemoveSpec(st, id);
      SubsequenceKeepsUnique(Removed(st, id).items, st.items);
    } else {
      UpdatePositive(st, id, quantity);
    }
  }

  /** `removeItem` never lets two items share a product. */
  lemma RemoveKeepsUnique(st: CartState, id: string)
    requires UniqueProducts(st.items)
    ensures UniqueProducts(Removed(st, id).items)
  {
    RemoveSpec(st, id);
    SubsequenceKeepsUnique(Removed(st, id).items, st.items);
  }

  /** `clearCart` empties the list, so the total is 0, and keeps the panel. */
  lemma ClearSpec(st: CartState)
    ensures Cleared(st).items == [] && TotalItems(Cleared(st).items) == 0
    ensures Cleared(st).isCartOpen == st.isCartOpen
  {
  }

  /** `toggleCart` flips the panel, keeps the items, and undoes itself. */
  lemma ToggleSpec(st: CartState)
    ensures Toggled(st).isCartOpen == !st.isCartOpen && Toggled(st).items == st.items
    ensures Toggled(Toggled(st)) == st
  {
  }

  // ---------------------------------------------------------------------
  // The store
  // ---------------------------------------------------------------------

  class CartStore {
    var items: seq<Item>
    var isCartOpen: bool

    function State(): CartState
      reads this
    {
      CartState(items, isCartOpen)
    }

    ghost predicate Valid()
      reads this
    {
      UniqueProducts(items)
    }

    constructor ()
      ensures Valid() && State() == Initial()
    {
      items := [];
      isCartOpen := false;
    }

    method AddItem(product: Product, newId: string)
      requires Valid()
      modifies this
      ensures Valid()
      ensures State() == Added(old(State()), product, newId)
    {
      AddKeepsUnique(State(), product, newId);
      var next := Added(State(), product, newId);
      items := next.items;
    }

    method RemoveItem(id: string)
      requires Valid()
      modifies this
      ensures Valid()
      ensures State() == Removed(old(State()), id)
    {
      RemoveKeepsUnique(State(), id);
      items := Filter(items, HasOtherId(id));
    }

    method UpdateQuantity(id: string, quantity: int)
      requires Valid()
      modifies this
      ensures Valid()
      ensures State() == QuantityUpdated(old(State()), id, quantity)
    {
      UpdateKeepsUnique(State(), id, quantity);
      var next := QuantityUpdated(State(), id, quantity);
      items := next.items;
    }

    method ClearCart()
      requires Valid()
      modifies this
      ensures Valid()
      ensures State() == Cleared(old(State()))
    {
      items := [];
    }

    method ToggleCart()
      requires Valid()
      modifies this
      ensures Valid()
      ensures State() == Toggled(old(State()))
    {
      isCartOpen := !isCartOpen;
    }

    /** `getTotalItems()`: adds up the quantities front to back. */
    method GetTotalItems() returns (total: int)
      ensures total == TotalItems(items)
    {
      total := 0;
      var i := 0;
      while i < |items|
        invariant 0 <= i <= |items|
        invariant total == TotalItems(items[..i])
      {
        assert items[..i + 1][..i] == items[..i];
        total := total + items[i].quantity;
        i := i + 1;
      }
      assert items[..i] == items;
    }
  }
}
