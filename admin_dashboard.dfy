/** The admin dashboard (frontend/src/pages/AdminDashboard.jsx): the login guard over the
    browser's storage, the four headline statistics computed from the fetched orders and menu,
    and logging out. */
module AdminDashboard {
  import opened Wrappers
  import opened AdminOrders

  /** A menu item as the admin endpoint returns it; only `active` is read here, and JSON may
      carry it as null. */
  datatype MenuView = MenuView(id: int, active: Option<bool>)

  /** `stats`; the revenue is in cents. */
  datatype Stats = Stats(totalOrders: int, totalRevenue: int, activeMenuItems: int, pendingOrders: int)

  const InitialStats := Stats(0, 0, 0, 0)

  const TokenKey := "adminToken"
  const UserKey := "adminUser"

  /** A stored value JavaScript treats as true: present and not the empty string. */
  predicate Present(storage: map<string, string>, key: string) {
    key in storage && storage[key] != ""
  }

  /** The guard of the page's effect: without both a token and a user the page goes to the
      login screen and fetches nothing. */
  predicate MustLogIn(storage: map<string, string>) {
    !Present(storage, TokenKey) || !Present(storage, UserKey)
  }

  // ---------------------------------------------------------------- the statistics

  /** `orders.reduce((sum, o) => sum + parseFloat(o.totalAmount || 0), 0)`. */
  function Revenue(orders: seq<OrderView>): (total: int)
    ensures (forall i :: 0 <= i < |orders| ==> orders[i].totalAmount.GetOr(0) >= 0) ==> total >= 0
  {
    if orders == [] then 0 else orders[0].totalAmount.GetOr(0) + Revenue(orders[1..])
  }

  /** `menuItems.filter(item => item.active).length`. */
  function ActiveCount(menu: seq<MenuView>): (n: nat)
    ensures n <= |menu|
  {
    if menu == [] then 0 else (if menu[0].active == Some(true) then 1 else 0) + ActiveCount(menu[1..])
  }

  /** `orders.filter(o => o.status === "PENDING").length`. */
  function PendingCount(orders: seq<OrderView>): (n: nat)
    ensures n <= |orders|
  {
    if orders == [] then 0 else (if orders[0].status == "PENDING" then 1 else 0) + PendingCount(orders[1..])
  }

  function ComputeStats(orders: seq<OrderView>, menu: seq<MenuView>): (s: Stats)
    ensures s.totalOrders == |orders|
    ensures 0 <= s.pendingOrders <= s.totalOrders
    ensures 0 <= s.activeMenuItems <= |menu|
  {
    Stats(|orders|, Revenue(orders), ActiveCount(menu), PendingCount(orders))
  }

  /** The menu items flagged active, in menu order: the items the active count counts. */
  function ActiveItems(menu: seq<MenuView>): (r: seq<MenuView>)
    ensures forall m :: m in r <==> m in menu && m.active == Some(true)
  {
    if menu == [] then []
    else (if menu[0].active == Some(true) then [menu[0]] else []) + ActiveItems(menu[1..])
  }

  /** The active count is the number of items flagged active. */
  lemma {:induction false} ActiveCountIsFilterSize(menu: seq<MenuView>)
    ensures ActiveCount(menu) == |ActiveItems(menu)|
  {
    if menu != [] {
      ActiveCountIsFilterSize(menu[1..]);
    }
  }

  /** The pending count is the size of the board's PENDING filter. */
  lemma {:induction false} PendingIsFilterSize(orders: seq<OrderView>)
    ensures PendingCount(orders) == |FilteredOrders(orders, "PENDING")|
  {
    if orders != [] {
      PendingIsFilterSize(orders[1..]);
    }
  }

  /** Every item counts exactly when all are flagged true, and none counts exactly when none
      is; a null flag counts as inactive, like false. */
  lemma {:induction false} ActiveCountExtremes(menu: seq<MenuView>)
    ensures ActiveCount(menu) == |menu| <==> forall i :: 0 <= i < |menu| ==> menu[i].active == Some(true)
    ensures ActiveCount(menu) == 0 <==> forall i :: 0 <= i < |menu| ==> menu[i].active != Some(true)
  {
    if menu != [] {
      ActiveCountExtremes(menu[1..]);
      assert forall i :: 1 <= i < |menu| ==> menu[i] == menu[1..][i - 1];
    }
  }

  /** Revenue adds up over a split of the orders. */
  lemma {:induction false} RevenueAppend(a: seq<OrderView>, b: seq<OrderView>)
    ensures Revenue(a + b) == Revenue(a) + Revenue(b)
  {
    if a != [] {
      assert (a + b)[1..] == a[1..] + b;
      RevenueAppend(a[1..], b);
    } else {
      assert a + b == b;
    }
  }

  lemma {:induction false} RevenueOfInsert(o: OrderView, s: seq<OrderView>)
    ensures Revenue(Insert(o, s)) == o.totalAmount.GetOr(0) + Revenue(s)
  {
    if s != [] && s[0].createdAt > o.createdAt {
      RevenueOfInsert(o, s[1..]);
      assert Insert(o, s)[1..] == Insert(o, s[1..]);
    } else {
      assert Insert(o, s)[1..] == s;
    }
  }

  /** The revenue does not depend on the order the list is in: the orders board's newest-first
      list adds up to the same amount. */
  lemma {:induction false} RevenueOfSorted(s: seq<OrderView>)
    ensures Revenue(SortNewestFirst(s)) == Revenue(s)
  {
    if s != [] {
      RevenueOfSorted(s[1..]);
      RevenueOfInsert(s[0], SortNewestFirst(s[1..]));
    }
  }

  // ---------------------------------------------------------------- browser storage

  /** The browser's `localStorage`. */
  class Storage {
    var items: map<string, string>

    constructor (items: map<string, string>)
      ensures this.items == items
    {
      this.items := items;
    }

    method GetItem(key: string) returns (v: Option<string>)
      ensures v.Some? <==> key in items
      ensures v.Some? ==> v.value == items[key]
    {
      v := if key in items then Some(items[key]) else None;
    }

    method RemoveItem(key: string)
      modifies this
      ensures items == old(items) - {key}
    {
      items := items - {key};
    }
  }

  /** The page: the signed-in admin (the stored user, once read) and the statistics. */
  class DashboardPage {
    const storage: Storage
    var adminUser: Option<string>
    var stats: Stats

    constructor (storage: Storage)
      ensures this.storage == storage && adminUser == None && stats == InitialStats
    {
      this.storage := storage;
      adminUser := None;
      stats := InitialStats;
    }

    /** The page's effect, with the fetched orders and menu as inputs: with no session the
        page asks for a login and keeps its state; otherwise it shows the user and the stats. */
    method Open(orders: seq<OrderView>, menu: seq<MenuView>) returns (toLogin: bool)
      modifies this
      ensures toLogin <==> MustLogIn(storage.items)
      ensures toLogin ==> adminUser == old(adminUser) && stats == old(stats)
      ensures !toLogin ==> adminUser == Some(storage.items[UserKey]) && stats == ComputeStats(orders, menu)
    {
      var token := storage.GetItem(TokenKey);
      var user := storage.GetItem(UserKey);
      if token.None? || token.value == "" || user.None? || user.value == "" {
        return true;
      }
      adminUser := Some(user.value);
      stats := ComputeStats(orders, menu);
      toLogin := false;
    }

    /** `handleLogout`: both session keys are gone, everything else stays, and the guard now
        sends any visit to the login screen. */
    method HandleLogout()
      modifies storage
      ensures storage.items == old(storage.items) - {TokenKey, UserKey}
      ensures MustLogIn(storage.items)
    {
      storage.RemoveItem(TokenKey);
      storage.RemoveItem(UserKey);
    }
  }
}
