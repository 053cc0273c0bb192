/**
 * The shopping cart kept by the storefront: a list of items keyed by product
 * id, with the operations that add, remove, re-count and clear them. The
 * list is the state; every operation replaces it at once.
 */
module CartContext {
  import opened Wrappers
  import JsNumber

  /** `product.price` as the product page hands it over: text, a number, or absent. */
  datatype Price = PriceText(s: string) | PriceNumber(n: int) | NoPrice

  /** `product.inventory`: a number, `null`, or absent (`undefined`). */
  datatype Inventory = Stock(n: int) | NullStock | NoStock

  datatype Product = Product(id: string, title: string, price: Price, manageInventory: bool, inventory: Inventory)

  /** A cart line: the product's fields, its price as text, and how many are wanted. */
  datatype Item = Item(id: string, title: string, price: string, manageInventory: bool, inventory: Inventory, quantity: int)

  /** The number an inventory compares as: `null` is 0, `undefined` is `NaN` (None), against which every comparison is false. */
  function InventoryNumber(inv: Inventory): Option<int> {
    match inv
    case Stock(n) => Some(n)
    case NullStock => Some(0)
    case NoStock => None
  }

  /** `inventory <= 0`. */
  predicate OutOfStock(inv: Inventory) {
    InventoryNumber(inv).Some? && InventoryNumber(inv).value <= 0
  }

  /** `x > inventory`. */
  predicate Exceeds(x: int, inv: Inventory) {
    InventoryNumber(inv).Some? && x > InventoryNumber(inv).value
  }

  /** `price !== undefined ? price.toString() : "0"`; a number's text reads back as that number. */
  function PriceString(p: Price): (r: string)
    ensures p.PriceText? ==> r == p.s
    ensures p.PriceNumber? ==> JsNumber.ParseInt(r) == Some(p.n)
    ensures p.NoPrice? ==> JsNumber.ParseInt(r) == Some(0)
  {
    match p
    case PriceText(s) => s
    case PriceNumber(n) => JsNumber.ParseDecimal(n); JsNumber.DecimalText(n)
    case NoPrice => JsNumber.ParseDecimal(0); "0"
  }

  /** The line a product not yet in the cart becomes. */
  function NewItem(p: Product, quantity: int): (it: Item)
    ensures it.id == p.id && it.quantity == quantity && it.price == PriceString(p.price)
    ensures it.manageInventory == p.manageInventory && it.inventory == p.inventory
  {
    Item(p.id, p.title, PriceString(p.price), p.manageInventory, p.inventory, quantity)
  }

  /** No two lines share an id. */
  predicate UniqueIds(items: seq<Item>) {
    forall i, j :: 0 <= i < j < |items| ==> items[i].id != items[j].id
  }

  // ---------------------------------------------------------------------------
  // The array methods the cart uses

  /** `items.findIndex(item => item._id === id)`: the first line with that id, or -1. */
  function IndexOf(items: seq<Item>, id: string): (r: int)
    ensures -1 <= r < |items|
    ensures r == -1 <==> forall i :: 0 <= i < |items| ==> items[i].id != id
    ensures r >= 0 ==> items[r].id == id && forall j :: 0 <= j < r ==> items[j].id != id
  {
    if items == [] then -1
    else if items[0].id == id then 0
    else
      var k := IndexOf(items[1..], id);
      if k == -1 then -1 else k + 1
  }

  /** `items.some(item => item._id === id)`. */
  function Contains(items: seq<Item>, id: string): (r: bool)
    ensures r <==> exists i :: 0 <= i < |items| && items[i].id == id
  {
    if items == [] then false
    else items[0].id == id || Contains(items[1..], id)
  }

  /** `items.find(item => item._id === id)`, then its quantity, or 0 when there is none. */
  function InCart(items: seq<Item>, id: string): int {
    var i := IndexOf(items, id);
    if i == -1 then 0 else items[i].quantity
  }

  /** The quantity in the cart is 0 for an id not in it, and otherwise the quantity of a line with that id. */
  lemma InCartFound(items: seq<Item>, id: string)
    ensures !Contains(items, id) ==> InCart(items, id) == 0
    ensures Contains(items, id) ==> exists i :: 0 <= i < |items| && items[i].id == id && items[i].quantity == InCart(items, id)
  {
  }

  /** `items.filter(item => item._id !== id)`. */
  function WithoutId(items: seq<Item>, id: string): (r: seq<Item>)
    ensures |r| <= |items|
    ensures forall i :: 0 <= i < |r| ==> r[i].id != id
    ensures forall x :: x in r <==> x in items && x.id != id
  {
    if items == [] then []
    else if items[0].id == id then WithoutId(items[1..], id)
    else [items[0]] + WithoutId(items[1..], id)
  }

  /** `items.map(item => item._id === id ? {...item, quantity} : item)`. */
  function SetQuantity(items: seq<Item>, id: string, quantity: int): (r: seq<Item>)
    ensures |r| == |items|
    ensures forall i :: 0 <= i < |r| ==> r[i] == if items[i].id == id then items[i].(quantity := quantity) else items[i]
  {
    if items == [] then []
    else [if items[0].id == id then items[0].(quantity := quantity) else items[0]] + SetQuantity(items[1..], id, quantity)
  }

  /** `items.reduce((count, item) => count + item.quantity, 0)`; integer addition, so the order of the sum does not matter. */
  function Count(items: seq<Item>): int {
    if items == [] then 0 else items[0].quantity + Count(items[1..])
  }

  // ---------------------------------------------------------------------------
  // What addToCart decides and produces

  /** The two inventory guards of `addToCart`: only products whose inventory is managed are refused. */
  predicate AddRejected(items: seq<Item>, p: Product, quantity: int) {
    p.manageInventory && (OutOfStock(p.inventory) || Exceeds(InCart(items, p.id) + quantity, p.inventory))
  }

  /** The new cart after an accepted `addToCart`: the existing line grows, or a new line is appended. */
  function Added(items: seq<Item>, p: Product, quantity: int): seq<Item> {
    var i := IndexOf(items, p.id);
    if i > -1 then items[i := items[i].(quantity := items[i].quantity + quantity)]
    else items + [NewItem(p, quantity)]
  }

  /** The inventory guard of `updateQuantity`: the first line with the id is managed and the quantity is above its inventory. */
  predicate UpdateRefused(items: seq<Item>, id: string, quantity: int) {
    var i := IndexOf(items, id);
    i != -1 && items[i].manageInventory && Exceeds(quantity, items[i].inventory)
  }

  // ---------------------------------------------------------------------------
  // Lemmas

  lemma {:induction false} CountConcat(a: seq<Item>, b: seq<Item>)
    ensures Count(a + b) == Count(a) + Count(b)
  {
    if a == [] {
      assert a + b == b;
    } else {
      assert (a + b)[1..] == a[1..] + b;
      CountConcat(a[1..], b);
    }
  }

  /** Changing one line's quantity changes the count by the difference. */
  lemma CountUpdate(items: seq<Item>, i: nat, q: int)
    requires i < |items|
    ensures Count(items[i := items[i].(quantity := q)]) == Count(items) - items[i].quantity + q
  {
    var after := items[i := items[i].(quantity := q)];
    assert items == items[..i] + [items[i]] + items[i + 1..];
    assert after == items[..i] + [after[i]] + items[i + 1..];
    CountConcat(items[..i] + [items[i]], items[i + 1..]);
    CountConcat(items[..i], [items[i]]);
    CountConcat(items[..i] + [after[i]], items[i + 1..]);
    CountConcat(items[..i], [after[i]]);
  }

  /** An accepted add raises the cart count by exactly the quantity added. */
  lemma AddedCount(items: seq<Item>, p: Product, quantity: int)
    ensures Count(Added(items, p, quantity)) == Count(items) + quantity
  {
    var i := IndexOf(items, p.id);
    if i > -1 {
      CountUpdate(items, i, items[i].quantity + quantity);
    } else {
      CountConcat(items, [NewItem(p, quantity)]);
    }
  }

  /**
   * After an add the product is in the cart and the quantity found for it
   * has grown by the quantity added; no other line changes, and the cart
   * grows by a line exactly when the product was not in it.
   */
  lemma AddedLines(items: seq<Item>, p: Product, quantity: int)
    ensures var r := Added(items, p, quantity);
      && Contains(r, p.id)
      && InCart(r, p.id) == InCart(items, p.id) + quantity
      && (Contains(items, p.id) ==> |r| == |items|)
      && (!Contains(items, p.id) ==> |r| == |items| + 1 && r[|items|] == NewItem(p, quantity))
      && (forall j :: 0 <= j < |items| && items[j].id != p.id ==> r[j] == items[j])
  {
    var r := Added(items, p, quantity);
    var i := IndexOf(items, p.id);
    if i > -1 {
      assert r[i].id == p.id;
      assert IndexOf(r, p.id) == i;
    } else {
      assert r[|items|].id == p.id;
      assert IndexOf(r, p.id) == |items|;
    }
  }

  /** The line found for a product already in the cart keeps all its fields but the quantity, which grows. */
  lemma AddedGrowsLine(items: seq<Item>, p: Product, quantity: int)
    requires Contains(items, p.id)
    ensures var i := IndexOf(items, p.id);
      && 0 <= i < |Added(items, p, quantity)|
      && Added(items, p, quantity)[i] == items[i].(quantity := items[i].quantity + quantity)
  {
  }

  /** Adding keeps the ids unique. */
  lemma AddedUnique(items: seq<Item>, p: Product, quantity: int)
    requires UniqueIds(items)
    ensures UniqueIds(Added(items, p, quantity))
  {
    var r := Added(items, p, quantity);
    var i := IndexOf(items, p.id);
    if i > -1 {
      assert forall j :: 0 <= j < |r| ==> r[j].id == items[j].id;
    } else {
      assert forall j :: 0 <= j < |items| ==> r[j] == items[j];
    }
  }

  /** A managed product with a numeric inventory never ends up with more in the cart than its inventory. */
  lemma ManagedAddWithinStock(items: seq<Item>, p: Product, quantity: int)
    requires !AddRejected(items, p, quantity) && p.manageInventory && InventoryNumber(p.inventory).Some?
    ensures 0 < InventoryNumber(p.inventory).value
    ensures InCart(Added(items, p, quantity), p.id) <= InventoryNumber(p.inventory).value
  {
    AddedLines(items, p, quantity);
  }

  /** An undefined inventory compares false both ways, so no add of that product is ever refused. */
  lemma UndefinedStockNeverRefuses(items: seq<Item>, p: Product, quantity: int)
    requires p.inventory == NoStock
    ensures !AddRejected(items, p, quantity)
  {
  }

  /** Filtering distributes over concatenation, so the kept lines stay in their order. */
  lemma {:induction false} WithoutIdConcat(a: seq<Item>, b: seq<Item>, id: string)
    ensures WithoutId(a + b, id) == WithoutId(a, id) + WithoutId(b, id)
  {
    if a == [] {
      assert a + b == b;
    } else {
      assert (a + b)[0] == a[0] && (a + b)[1..] == a[1..] + b;
      WithoutIdConcat(a[1..], b, id);
    }
  }

  /** Removing an id that is not in the cart changes nothing. */
  lemma {:induction false} WithoutAbsent(items: seq<Item>, id: string)
    requires !Contains(items, id)
    ensures WithoutId(items, id) == items
  {
    if items != [] {
      assert !Contains(items[1..], id);
      WithoutAbsent(items[1..], id);
    }
  }

  /** Removing keeps the ids unique. */
  lemma {:induction false} WithoutUnique(items: seq<Item>, id: string)
    requires UniqueIds(items)
    ensures UniqueIds(WithoutId(items, id))
  {
    if items != [] {
      WithoutUnique(items[1..], id);
      var rest := WithoutId(items[1..], id);
      if items[0].id != id {
        forall j | 0 <= j < |rest|
          ensures rest[j].id != items[0].id
        {
          assert rest[j] in items[1..];
        }
      }
    }
  }

  /** In a cart with unique ids, removing a line lowers the count by that line's quantity. */
  lemma {:induction false} WithoutCount(items: seq<Item>, id: string)
    requires UniqueIds(items)
    ensures Count(WithoutId(items, id)) == Count(items) - InCart(items, id)
  {
    if items != [] {
      assert UniqueIds(items[1..]);
      if items[0].id == id {
        forall k | 0 <= k < |items[1..]|
          ensures items[1..][k].id != id
        {
          assert items[1..][k] == items[k + 1];
        }
        WithoutAbsent(items[1..], id);
      } else {
        WithoutCount(items[1..], id);
        var i := IndexOf(items[1..], id);
        assert IndexOf(items, id) == if i == -1 then -1 else i + 1;
      }
    }
  }

  /** Setting the quantity of an id that is not in the cart changes nothing. */
  lemma SetQuantityAbsent(items: seq<Item>, id: string, quantity: int)
    requires !Contains(items, id)
    ensures SetQuantity(items, id, quantity) == items
  {
    var r := SetQuantity(items, id, quantity);
    assert forall i :: 0 <= i < |items| ==> r[i] == items[i];
  }

  /**
   * Setting the quantity keeps the ids unique, and in a cart with unique ids
   * the line found for the id then holds exactly that quantity.
   */
  lemma SetQuantityLine(items: seq<Item>, id: string, quantity: int)
    requires UniqueIds(items)
    ensures UniqueIds(SetQuantity(items, id, quantity))
    ensures Contains(items, id) ==> InCart(SetQuantity(items, id, quantity), id) == quantity
    ensures Contains(items, id) ==> Count(SetQuantity(items, id, quantity)) == Count(items) - InCart(items, id) + quantity
  {
    var r := SetQuantity(items, id, quantity);
    assert forall j :: 0 <= j < |r| ==> r[j].id == items[j].id;
    if Contains(items, id) {
      var i := IndexOf(items, id);
      assert IndexOf(r, id) == i;
      assert r == items[i := items[i].(quantity := quantity)];
      CountUpdate(items, i, quantity);
    }
  }

  // ---------------------------------------------------------------------------
  // The cart

  /** The cart state: `cartItems`, with the operations the context hands out. */
  class Cart {
    var items: seq<Item>

    /** The ids in a cart built by these operations stay unique. */
    predicate Valid()
      reads this
    {
      UniqueIds(items)
    }

    /** The cart starts from whatever was saved before (an empty list when nothing was). */
    constructor(saved: seq<Item>)
      ensures items == saved
      ensures UniqueIds(saved) ==> Valid()
    {
      items := saved;
    }

    /**
     * `addToCart(product, quantity)`: refused, leaving the cart as it was, when
     * the product's inventory is managed and it is out of stock or the cart
     * would then hold more than the inventory.
     */
    method AddToCart(p: Product, quantity: int) returns (ok: bool)
      modifies this
      ensures ok <==> !AddRejected(old(items), p, quantity)
      ensures !ok ==> items == old(items)
      ensures ok ==> items == Added(old(items), p, quantity)
      ensures ok ==> Count(items) == Count(old(items)) + quantity && Contains(items, p.id)
      ensures ok && p.manageInventory && InventoryNumber(p.inventory).Some?
        ==> InCart(items, p.id) <= InventoryNumber(p.inventory).value
      ensures old(Valid()) ==> Valid()
    {
      if p.manageInventory && OutOfStock(p.inventory) {
        return false;
      }
      if p.manageInventory {
        var currentInCart := InCart(items, p.id);
        if Exceeds(currentInCart + quantity, p.inventory) {
          return false;
        }
      }
      AddedCount(items, p, quantity);
      AddedLines(items, p, quantity);
      if UniqueIds(items) {
        AddedUnique(items, p, quantity);
      }
      var i := IndexOf(items, p.id);
      if i > -1 {
        items := items[i := items[i].(quantity := items[i].quantity + quantity)];
      } else {
        items := items + [NewItem(p, quantity)];
      }
      ok := true;
    }

    /** `removeFromCart(id)`: every line with that id goes, the others keep their order. */
    method RemoveFromCart(id: string)
      modifies this
      ensures items == WithoutId(old(items), id)
      ensures !Contains(items, id)
      ensures old(Valid()) ==> Valid() && Count(items) == Count(old(items)) - InCart(old(items), id)
    {
      if UniqueIds(items) {
        WithoutUnique(items, id);
        WithoutCount(items, id);
      }
      items := WithoutId(items, id);
    }

    /**
     * `updateQuantity(id, quantity)`: a quantity of zero or less removes the
     * line and returns `undefined` (None); a quantity above a managed line's
     * inventory is refused with `false`; otherwise every line with that id gets
     * the quantity and the result is `true`.
     */
    method UpdateQuantity(id: string, quantity: int) returns (r: Option<bool>)
      modifies this
      ensures quantity <= 0 ==> r == None && items == WithoutId(old(items), id)
      ensures quantity > 0 && UpdateRefused(old(items), id, quantity) ==> r == Some(false) && items == old(items)
      ensures quantity > 0 && !UpdateRefused(old(items), id, quantity)
        ==> r == Some(true) && items == SetQuantity(old(items), id, quantity)
      ensures r == Some(false) <==> quantity > 0 && UpdateRefused(old(items), id, quantity)
      ensures quantity > 0 && !Contains(old(items), id) ==> r == Some(true) && items == old(items)
      ensures r == Some(true) && old(Valid()) && Contains(old(items), id) ==> InCart(items, id) == quantity
      ensures old(Valid()) ==> Valid()
    {
      if quantity <= 0 {
        RemoveFromCart(id);
        return None;
      }
      var i := IndexOf(items, id);
      if i != -1 && items[i].manageInventory && Exceeds(quantity, items[i].inventory) {
        assert UpdateRefused(items, id, quantity);
        return Some(false);
      }
      if !Contains(items, id) {
        SetQuantityAbsent(items, id, quantity);
      }
      if UniqueIds(items) {
        SetQuantityLine(items, id, quantity);
      }
      items := SetQuantity(items, id, quantity);
      r := Some(true);
    }

    /** `clearCart()`. */
    method ClearCart()
      modifies this
      ensures items == []
      ensures Valid() && Count(items) == 0
    {
      items := [];
    }

    /** `getCartCount()`: the sum of the quantities. */
    function GetCartCount(): (n: int)
      reads this
      ensures items == [] ==> n == 0
      ensures (forall i :: 0 <= i < |items| ==> items[i].quantity >= 0) ==> n >= 0
      ensures (forall i :: 0 <= i < |items| ==> items[i].quantity >= 1) ==> n >= |items|
    {
      CountBounds(items);
      Count(items)
    }

    /** `isInCart(id)`; it agrees with the line `findIndex` finds. */
    function IsInCart(id: string): (r: bool)
      reads this
      ensures r <==> IndexOf(items, id) != -1
    {
      Contains(items, id)
    }
  }

  /** A count of non-negative quantities is non-negative, and of positive ones at least the number of lines. */
  lemma {:induction false} CountBounds(items: seq<Item>)
    ensures (forall i :: 0 <= i < |items| ==> items[i].quantity >= 0) ==> Count(items) >= 0
    ensures (forall i :: 0 <= i < |items| ==> items[i].quantity >= 1) ==> Count(items) >= |items|
  {
    if items != [] {
      CountBounds(items[1..]);
      assert forall i :: 0 <= i < |items[1..]| ==> items[1..][i] == items[i + 1];
    }
  }
}
