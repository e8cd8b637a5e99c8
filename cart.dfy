/** The ordering page's client-side cart and menu filtering (frontend/src/pages/PlaceOrder.jsx).
    Every cart update builds a new sequence, so the page is modelled by pure functions; prices
    are integer cents. */
module Cart {

  /** A menu entry as the page receives it from the public menu listing. */
  datatype MenuEntry = MenuEntry(id: int, name: string, description: string, price: int, category: string)

  /** A cart line: a copy of the menu entry taken when it was first added, plus a quantity. */
  datatype CartLine = CartLine(item: MenuEntry, quantity: int)

  predicate HasId(cart: seq<CartLine>, id: int) {
    exists i :: 0 <= i < |cart| && cart[i].item.id == id
  }

  predicate DistinctIds(cart: seq<CartLine>) {
    forall i, j :: 0 <= i < j < |cart| ==> cart[i].item.id != cart[j].item.id
  }

  predicate AllPositive(cart: seq<CartLine>) {
    forall i :: 0 <= i < |cart| ==> cart[i].quantity >= 1
  }

  /** The invariant the page's cart operations keep: one line per menu item, and every
      quantity at least 1. */
  predicate WellFormed(cart: seq<CartLine>) {
    DistinctIds(cart) && AllPositive(cart)
  }

  // ---------------------------------------------------------------- add

  /** One line of `addToCart`'s `cart.map`: the matching line's quantity goes up by one. */
  function Bump(line: CartLine, id: int): CartLine {
    if line.item.id == id then line.(quantity := line.quantity + 1) else line
  }

  function Bumped(cart: seq<CartLine>, id: int): (r: seq<CartLine>)
    ensures |r| == |cart|
    ensures forall i :: 0 <= i < |cart| ==> r[i] == Bump(cart[i], id)
  {
    if cart == [] then [] else [Bump(cart[0], id)] + Bumped(cart[1..], id)
  }

  /** `addToCart(item)`: raise the quantity of the line with the item's id if there is one,
      otherwise append a copy of the item with quantity 1. */
  function AddToCart(cart: seq<CartLine>, item: MenuEntry): (r: seq<CartLine>)
    ensures HasId(r, item.id)
    ensures |r| == if HasId(cart, item.id) then |cart| else |cart| + 1
  {
    if HasId(cart, item.id) then Bumped(cart, item.id)
    else
      var r := cart + [CartLine(item, 1)];
      assert r[|cart|].item.id == item.id;
      r
  }

  /** Adding an item already in a well-formed cart raises that one line's quantity by 1 and
      changes nothing else: not the length, not the line's stored copy of the item, no other line. */
  lemma AddExisting(cart: seq<CartLine>, item: MenuEntry, k: nat)
    requires WellFormed(cart) && k < |cart| && cart[k].item.id == item.id
    ensures AddToCart(cart, item) == cart[k := cart[k].(quantity := cart[k].quantity + 1)]
  {
    var r := AddToCart(cart, item);
    assert |r| == |cart|;
    forall i | 0 <= i < |cart|
      ensures r[i] == cart[k := cart[k].(quantity := cart[k].quantity + 1)][i]
    {
      if i != k {
        assert cart[i].item.id != item.id by {
          if i < k { assert cart[i].item.id != cart[k].item.id; }
          else { assert cart[k].item.id != cart[i].item.id; }
        }
      }
    }
  }

  /** Adding an item that is not in the cart appends one line with quantity 1 at the end. */
  lemma AddNew(cart: seq<CartLine>, item: MenuEntry)
    requires !HasId(cart, item.id)
    ensures AddToCart(cart, item) == cart + [CartLine(item, 1)]
    ensures |AddToCart(cart, item)| == |cart| + 1
  {
  }

  lemma AddKeepsWellFormed(cart: seq<CartLine>, item: MenuEntry)
    requires WellFormed(cart)
    ensures WellFormed(AddToCart(cart, item))
  {
    if HasId(cart, item.id) {
      var k :| 0 <= k < |cart| && cart[k].item.id == item.id;
      AddExisting(cart, item, k);
    }
  }

  // ---------------------------------------------------------------- update quantity

  /** One line of `updateQuantity`'s `cart.map`: when the new quantity would not be positive,
      the OLD line is returned unchanged rather than dropped. */
  function Adjust(line: CartLine, id: int, delta: int): CartLine {
    if line.item.id == id && line.quantity + delta > 0 then line.(quantity := line.quantity + delta)
    else line
  }

  function Adjusted(cart: seq<CartLine>, id: int, delta: int): (r: seq<CartLine>)
    ensures |r| == |cart|
    ensures forall i :: 0 <= i < |cart| ==> r[i] == Adjust(cart[i], id, delta)
  {
    if cart == [] then [] else [Adjust(cart[0], id, delta)] + Adjusted(cart[1..], id, delta)
  }

  /** `.filter(item => item.quantity > 0)`. */
  function KeepPositive(cart: seq<CartLine>): (r: seq<CartLine>)
    ensures AllPositive(r) && |r| <= |cart|
    ensures AllPositive(cart) ==> r == cart
  {
    if cart == [] then []
    else (if cart[0].quantity > 0 then [cart[0]] else []) + KeepPositive(cart[1..])
  }

  /** `updateQuantity(id, delta)`. */
  function UpdateQuantity(cart: seq<CartLine>, id: int, delta: int): (r: seq<CartLine>)
    ensures AllPositive(r) && |r| <= |cart|
  {
    KeepPositive(Adjusted(cart, id, delta))
  }

  /** On a cart whose quantities are all positive the final filter removes nothing: the length
      is unchanged, and only the line with the id can change, by exactly `delta` when the
      result stays positive. */
  lemma UpdateQuantityPointwise(cart: seq<CartLine>, id: int, delta: int)
    requires AllPositive(cart)
    ensures UpdateQuantity(cart, id, delta) == Adjusted(cart, id, delta)
    ensures |UpdateQuantity(cart, id, delta)| == |cart|
  {
    var a := Adjusted(cart, id, delta);
    assert AllPositive(a) by {
      forall i | 0 <= i < |a| ensures a[i].quantity >= 1 {
        assert a[i] == Adjust(cart[i], id, delta);
      }
    }
  }

  /** In a well-formed cart, `updateQuantity` on the line at `k` is a point update of that line. */
  lemma UpdateExisting(cart: seq<CartLine>, k: nat, delta: int)
    requires WellFormed(cart) && k < |cart|
    ensures UpdateQuantity(cart, cart[k].item.id, delta) == cart[k := Adjust(cart[k], cart[k].item.id, delta)]
  {
    var id := cart[k].item.id;
    UpdateQuantityPointwise(cart, id, delta);
    var r := Adjusted(cart, id, delta);
    forall i | 0 <= i < |cart| ensures r[i] == cart[k := Adjust(cart[k], id, delta)][i] {
      if i != k {
        assert cart[i].item.id != id by {
          if i < k { assert cart[i].item.id != cart[k].item.id; }
          else { assert cart[k].item.id != cart[i].item.id; }
        }
      }
    }
  }

  /** The quirk of the page: decrementing a line at quantity 1 leaves the cart as it was. */
  lemma DecrementAtOneIsNoOp(cart: seq<CartLine>, k: nat)
    requires WellFormed(cart) && k < |cart| && cart[k].quantity == 1
    ensures UpdateQuantity(cart, cart[k].item.id, -1) == cart
  {
    UpdateExisting(cart, k, -1);
  }

  /** An id that is not in the cart leaves the cart unchanged. */
  lemma UpdateAbsent(cart: seq<CartLine>, id: int, delta: int)
    requires AllPositive(cart) && !HasId(cart, id)
    ensures UpdateQuantity(cart, id, delta) == cart
  {
    UpdateQuantityPointwise(cart, id, delta);
  }

  lemma UpdateKeepsWellFormed(cart: seq<CartLine>, id: int, delta: int)
    requires WellFormed(cart)
    ensures WellFormed(UpdateQuantity(cart, id, delta))
  {
    UpdateQuantityPointwise(cart, id, delta);
  }

  // ---------------------------------------------------------------- remove

  /** `removeFromCart(id)`: `cart.filter(item => item.id !== id)`. */
  function RemoveFromCart(cart: seq<CartLine>, id: int): (r: seq<CartLine>)
    ensures |r| <= |cart|
  {
    if cart == [] then []
    else (if cart[0].item.id != id then [cart[0]] else []) + RemoveFromCart(cart[1..], id)
  }

  /** After removal no line carries the id, and exactly the lines with other ids remain. */
  lemma {:induction false} RemoveMembership(cart: seq<CartLine>, id: int)
    ensures !HasId(RemoveFromCart(cart, id), id)
    ensures forall l :: l in RemoveFromCart(cart, id) <==> l in cart && l.item.id != id
  {
    if cart != [] {
      RemoveMembership(cart[1..], id);
      assert cart == [cart[0]] + cart[1..];
    }
  }

  /** Removal keeps the other lines in their original order. */
  lemma {:induction false} RemoveAppend(a: seq<CartLine>, b: seq<CartLine>, id: int)
    ensures RemoveFromCart(a + b, id) == RemoveFromCart(a, id) + RemoveFromCart(b, id)
  {
    if a == [] {
      assert a + b == b;
    } else {
      assert (a + b)[1..] == a[1..] + b;
      RemoveAppend(a[1..], b, id);
    }
  }

  lemma {:induction false} RemoveAbsent(cart: seq<CartLine>, id: int)
    requires !HasId(cart, id)
    ensures RemoveFromCart(cart, id) == cart
  {
    if cart != [] {
      assert cart[0].item.id != id;
      assert !HasId(cart[1..], id) by {
        forall i | 0 <= i < |cart[1..]| ensures cart[1..][i].item.id != id {
          assert cart[1..][i] == cart[i + 1];
        }
      }
      RemoveAbsent(cart[1..], id);
      assert cart == [cart[0]] + cart[1..];
    }
  }

  /** In a cart with distinct ids, no line other than the one at `k` carries its id. */
  lemma OnlyLineWithId(cart: seq<CartLine>, k: nat)
    requires DistinctIds(cart) && k < |cart|
    ensures !HasId(cart[..k], cart[k].item.id)
    ensures !HasId(cart[k + 1..], cart[k].item.id)
  {
    forall i | 0 <= i < k ensures cart[..k][i].item.id != cart[k].item.id {
      assert cart[..k][i] == cart[i];
    }
    forall j | k < j < |cart| ensures cart[j].item.id != cart[k].item.id {
      assert cart[k].item.id != cart[j].item.id;
    }
  }

  /** In a well-formed cart, removing the id of the line at `k` deletes exactly that line. */
  lemma {:induction false} RemoveExisting(cart: seq<CartLine>, k: nat)
    requires WellFormed(cart) && k < |cart|
    ensures RemoveFromCart(cart, cart[k].item.id) == cart[..k] + cart[k + 1..]
  {
    var id := cart[k].item.id;
    OnlyLineWithId(cart, k);
    if k == 0 {
      RemoveAbsent(cart[1..], id);
    } else {
      var t := cart[1..];
      assert t[k - 1] == cart[k];
      RemoveExisting(t, k - 1);
      assert cart[0].item.id != id;
      assert cart[..k] + cart[k + 1..] == [cart[0]] + (t[..k - 1] + t[k..]);
    }
  }

  lemma RemoveKeepsWellFormed(cart: seq<CartLine>, id: int)
    requires WellFormed(cart)
    ensures WellFormed(RemoveFromCart(cart, id))
  {
    if HasId(cart, id) {
      var k :| 0 <= k < |cart| && cart[k].item.id == id;
      RemoveExisting(cart, k);
      var r := cart[..k] + cart[k + 1..];
      forall i, j | 0 <= i < j < |r| ensures r[i].item.id != r[j].item.id {
        var i' := if i < k then i else i + 1;
        var j' := if j < k then j else j + 1;
        assert r[i] == cart[i'] && r[j] == cart[j'];
      }
    } else {
      RemoveAbsent(cart, id);
    }
  }

  // ---------------------------------------------------------------- totals

  /** `totalItems`: the sum of the quantities. */
  function TotalItems(cart: seq<CartLine>): (n: int)
    ensures AllPositive(cart) ==> n >= |cart|
  {
    if cart == [] then 0 else cart[0].quantity + TotalItems(cart[1..])
  }

  /** No line has a negative price or quantity. */
  predicate NoNegativeLine(cart: seq<CartLine>) {
    forall i :: 0 <= i < |cart| ==> cart[i].item.price >= 0 && cart[i].quantity >= 0
  }

  /** What one line contributes to `totalPrice`: price times quantity, in cents. */
  function LineCost(l: CartLine): int {
    l.item.price * l.quantity
  }

  /** `totalPrice`: the sum of the line costs. */
  function TotalPrice(cart: seq<CartLine>): (p: int)
    ensures NoNegativeLine(cart) ==> p >= 0
  {
    if cart == [] then 0 else LineCost(cart[0]) + TotalPrice(cart[1..])
  }

  /** Replacing one line changes each total by that line's own difference. */
  lemma {:induction false} TotalsOfPointUpdate(cart: seq<CartLine>, k: nat, l: CartLine)
    requires k < |cart|
    ensures TotalItems(cart[k := l]) == TotalItems(cart) - cart[k].quantity + l.quantity
    ensures TotalPrice(cart[k := l]) == TotalPrice(cart) - LineCost(cart[k]) + LineCost(l)
  {
    if k > 0 {
      assert cart[k := l][1..] == cart[1..][k - 1 := l];
      TotalsOfPointUpdate(cart[1..], k - 1, l);
    } else {
      assert cart[k := l][1..] == cart[1..];
    }
  }

  lemma {:induction false} TotalsOfAppend(cart: seq<CartLine>, l: CartLine)
    ensures TotalItems(cart + [l]) == TotalItems(cart) + l.quantity
    ensures TotalPrice(cart + [l]) == TotalPrice(cart) + LineCost(l)
  {
    if cart == [] {
      assert [] + [l] == [l];
    } else {
      assert (cart + [l])[1..] == cart[1..] + [l];
      TotalsOfAppend(cart[1..], l);
    }
  }

  /** Every line counts at least once in `totalItems`. */
  lemma {:induction false} TotalItemsAtLeastLines(cart: seq<CartLine>)
    requires AllPositive(cart)
    ensures TotalItems(cart) >= |cart|
    ensures cart == [] <==> TotalItems(cart) == 0
  {
    if cart != [] {
      TotalItemsAtLeastLines(cart[1..]);
    }
  }

  /** `addToCart` raises `totalItems` by exactly 1. */
  lemma AddRaisesTotalItems(cart: seq<CartLine>, item: MenuEntry)
    requires WellFormed(cart)
    ensures TotalItems(AddToCart(cart, item)) == TotalItems(cart) + 1
  {
    if HasId(cart, item.id) {
      var k :| 0 <= k < |cart| && cart[k].item.id == item.id;
      AddExisting(cart, item, k);
      TotalsOfPointUpdate(cart, k, cart[k].(quantity := cart[k].quantity + 1));
    } else {
      TotalsOfAppend(cart, CartLine(item, 1));
    }
  }

  lemma OneMoreUnitLineCost(line: CartLine)
    ensures LineCost(line.(quantity := line.quantity + 1)) == LineCost(line) + line.item.price
  {
    var p, q := line.item.price, line.quantity;
    assert p * (q + 1) == p * q + p;
  }

  /** One more unit of the line at `k` costs that line's stored price. */
  lemma OneMoreUnitCost(cart: seq<CartLine>, k: nat)
    requires k < |cart|
    ensures TotalPrice(cart[k := cart[k].(quantity := cart[k].quantity + 1)]) == TotalPrice(cart) + cart[k].item.price
  {
    var l := cart[k].(quantity := cart[k].quantity + 1);
    TotalsOfPointUpdate(cart, k, l);
    OneMoreUnitLineCost(cart[k]);
  }

  /** Adding an item already in the cart at `k` raises `totalPrice` by the price stored in that
      line (the copy taken when the item was first added), not by the price passed in. */
  lemma AddExistingRaisesTotalPrice(cart: seq<CartLine>, item: MenuEntry, k: nat)
    requires WellFormed(cart) && k < |cart| && cart[k].item.id == item.id
    ensures TotalPrice(AddToCart(cart, item)) == TotalPrice(cart) + cart[k].item.price
  {
    AddExisting(cart, item, k);
    OneMoreUnitCost(cart, k);
  }

  /** Adding a new item raises `totalPrice` by that item's price. */
  lemma AddNewRaisesTotalPrice(cart: seq<CartLine>, item: MenuEntry)
    requires !HasId(cart, item.id)
    ensures TotalPrice(AddToCart(cart, item)) == TotalPrice(cart) + item.price
  {
    TotalsOfAppend(cart, CartLine(item, 1));
  }

  /** `updateQuantity` on the line at `k` moves `totalItems` by `delta` when the new quantity
      stays positive, and not at all otherwise. */
  lemma UpdateMovesTotalItems(cart: seq<CartLine>, k: nat, delta: int)
    requires WellFormed(cart) && k < |cart|
    ensures TotalItems(UpdateQuantity(cart, cart[k].item.id, delta)) ==
            TotalItems(cart) + (if cart[k].quantity + delta > 0 then delta else 0)
  {
    UpdateExisting(cart, k, delta);
    TotalsOfPointUpdate(cart, k, Adjust(cart[k], cart[k].item.id, delta));
  }

  // ---------------------------------------------------------------- categories and filtering

  function CategoryList(menu: seq<MenuEntry>): (r: seq<string>)
    ensures |r| == |menu| && forall i :: 0 <= i < |menu| ==> r[i] == menu[i].category
  {
    if menu == [] then [] else [menu[0].category] + CategoryList(menu[1..])
  }

  /** `Array.from(new Set(s))`: each value once, at the place it first appears. */
  function Dedup(s: seq<string>): (r: seq<string>)
    ensures forall x :: x in r <==> x in s
  {
    if s == [] then []
    else
      var d := Dedup(s[..|s| - 1]);
      if s[|s| - 1] in d then d else d + [s[|s| - 1]]
  }

  /** `.filter(Boolean)` on strings: drop the empty ones. */
  function NonEmpty(s: seq<string>): (r: seq<string>)
    ensures forall x :: x in r <==> x in s && x != ""
  {
    if s == [] then [] else NonEmpty(s[..|s| - 1]) + (if s[|s| - 1] != "" then [s[|s| - 1]] else [])
  }

  /** `categories`: "All", then the distinct non-empty categories of the menu. */
  function Categories(menu: seq<MenuEntry>): (r: seq<string>)
    ensures |r| >= 1 && r[0] == "All"
  {
    ["All"] + NonEmpty(Dedup(CategoryList(menu)))
  }

  predicate NoDuplicates(s: seq<string>) {
    forall i, j :: 0 <= i < j < |s| ==> s[i] != s[j]
  }

  /** The position at which `x` first occurs in `s`. */
  function FirstIndex(s: seq<string>, x: string): (k: nat)
    requires x in s
    ensures k < |s| && s[k] == x && x !in s[..k]
  {
    if s[0] == x then 0 else 1 + FirstIndex(s[1..], x)
  }

  /** The elements of `r` occur in the order in which they first appear in `s`. */
  predicate InFirstAppearanceOrder(r: seq<string>, s: seq<string>)
    requires forall x :: x in r ==> x in s
  {
    forall i, j :: 0 <= i < j < |r| ==> FirstIndex(s, r[i]) < FirstIndex(s, r[j])
  }

  lemma FirstIndexOfPrefix(s: seq<string>, n: nat, x: string)
    requires n <= |s| && x in s[..n]
    ensures FirstIndex(s, x) == FirstIndex(s[..n], x)
  {
    var k := FirstIndex(s[..n], x);
    var k' := FirstIndex(s, x);
    assert s[k] == x && s[..k] == s[..n][..k];
    assert x !in s[..k'];
  }

  /** The distinct non-empty values of `s`, built the way the page's expression builds them,
      stated once: no repeats, exactly the non-empty values of `s`, in first-appearance order. */
  lemma {:induction false} DistinctNonEmptyInOrder(s: seq<string>)
    ensures NoDuplicates(NonEmpty(Dedup(s)))
    ensures forall x :: x in NonEmpty(Dedup(s)) <==> x in s && x != ""
    ensures InFirstAppearanceOrder(NonEmpty(Dedup(s)), s)
  {
    if s != [] {
      var p := s[..|s| - 1];
      var x := s[|s| - 1];
      DistinctNonEmptyInOrder(p);
      var d := Dedup(p);
      var r := NonEmpty(Dedup(s));
      var q := NonEmpty(d);
      assert s == p + [x];
      if x in d {
        assert r == q;
      } else {
        assert Dedup(s) == d + [x];
        assert (d + [x])[..|d + [x]| - 1] == d;
        assert r == q + (if x != "" then [x] else []);
      }
      forall y | y in q ensures FirstIndex(s, y) == FirstIndex(p, y) {
        FirstIndexOfPrefix(s, |p|, y);
      }
      forall i, j | 0 <= i < j < |r| ensures FirstIndex(s, r[i]) < FirstIndex(s, r[j]) {
        if j < |q| {
          assert r[i] == q[i] && r[j] == q[j];
        } else {
          assert r[i] == q[i] && r[j] == x && x !in p;
          assert FirstIndex(s, x) == |p|;
          assert FirstIndex(p, q[i]) < |p|;
        }
      }
    }
  }

  /** A value is in the category list exactly when some menu entry has it as its category. */
  lemma CategoryListMembers(menu: seq<MenuEntry>)
    ensures forall c :: c in CategoryList(menu) <==> exists i :: 0 <= i < |menu| && menu[i].category == c
  {
    var cats := CategoryList(menu);
    forall c | c in cats ensures exists i :: 0 <= i < |menu| && menu[i].category == c {
      var i :| 0 <= i < |cats| && cats[i] == c;
      assert menu[i].category == c;
    }
  }

  /** `categories` starts with "All", then lists every non-empty category of the menu exactly
      once, in the order of first appearance, and nothing else. */
  lemma CategoriesShape(menu: seq<MenuEntry>)
    ensures Categories(menu)[0] == "All"
    ensures forall c :: c in Categories(menu)[1..] <==>
              c != "" && exists i :: 0 <= i < |menu| && menu[i].category == c
    ensures NoDuplicates(Categories(menu)[1..])
    ensures InFirstAppearanceOrder(Categories(menu)[1..], CategoryList(menu))
  {
    var cats := CategoryList(menu);
    DistinctNonEmptyInOrder(cats);
    CategoryListMembers(menu);
    assert Categories(menu)[1..] == NonEmpty(Dedup(cats));
  }

  /** `menuItems.filter(item => item.category === category)`. */
  function InCategory(menu: seq<MenuEntry>, category: string): (r: seq<MenuEntry>)
    ensures forall m :: m in r <==> m in menu && m.category == category
    ensures |r| <= |menu|
  {
    if menu == [] then []
    else (if menu[0].category == category then [menu[0]] else []) + InCategory(menu[1..], category)
  }

  /** `filteredItems` for the selected category button. */
  function FilteredItems(menu: seq<MenuEntry>, selected: string): (r: seq<MenuEntry>)
    ensures forall m :: m in r ==> m in menu
    ensures selected != "All" ==> forall m :: m in r <==> m in menu && m.category == selected
  {
    if selected == "All" then menu else InCategory(menu, selected)
  }

  /** The category filter keeps the menu's order. */
  lemma {:induction false} InCategoryAppend(a: seq<MenuEntry>, b: seq<MenuEntry>, category: string)
    ensures InCategory(a + b, category) == InCategory(a, category) + InCategory(b, category)
  {
    if a == [] {
      assert a + b == b;
    } else {
      assert (a + b)[1..] == a[1..] + b;
      InCategoryAppend(a[1..], b, category);
    }
  }

  /** "All" shows the whole menu; any other category shows exactly the entries of that category,
      and every category button other than "All" shows at least one entry. */
  lemma FilteredItemsShape(menu: seq<MenuEntry>, selected: string)
    ensures selected == "All" ==> FilteredItems(menu, selected) == menu
    ensures selected != "All" ==> forall m :: m in FilteredItems(menu, selected) <==>
              m in menu && m.category == selected
    ensures selected in Categories(menu)[1..] && selected != "All" ==> FilteredItems(menu, selected) != []
  {
    CategoriesShape(menu);
    if selected in Categories(menu)[1..] && selected != "All" {
      var i :| 0 <= i < |menu| && menu[i].category == selected;
      assert menu[i] in FilteredItems(menu, selected);
    }
  }
}
