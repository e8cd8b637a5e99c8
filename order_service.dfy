/** Order creation and lookup (backend/.../service/OrderService.java). `createOrder` rejects a
    request without items or without a usable table, looks the requested menu items up, refuses
    any that is missing or switched off, copies each item's name and unit price into a line of
    the new order, sums the lines into the total and stores the order as PENDING. Nothing is
    stored when it raises. */
module OrderService {
  import opened Wrappers
  import opened OrderRequest
  import opened MenuItemModel
  import opened OrderModel

  /** Why `createOrder` or `getOrder` raises. `NullQuantity` is the NullPointerException that
      unboxing a null quantity raises; the others are IllegalArgumentExceptions. */
  datatype OrderError = NoItems | NoTable | Unavailable(menuItemId: Option<int>) | NullQuantity | NotFound(id: int)

  /** Every row of the menu table is a well-formed stored row. */
  predicate MenuStored(rows: map<int, MenuItemRecord>) {
    forall k :: k in rows ==> MenuItemModel.StoredRow(k, rows[k])
  }

  /** The item the request names can be ordered: it exists, and its flag is not `false` (a
      null flag does not block it). */
  predicate Available(it: RequestItem, rows: map<int, MenuItemRecord>) {
    it.menuItemId.Some? && it.menuItemId.value in rows && rows[it.menuItemId.value].active != Some(false)
  }

  /** The price of one line, in cents. */
  function LineCost(l: LineRecord): int
    requires l.unitPrice.Some? && l.quantity.Some?
  {
    l.unitPrice.value * l.quantity.value
  }

  /** The line one request item becomes, or why it cannot. */
  function LineFor(it: RequestItem, rows: map<int, MenuItemRecord>): (r: Result<LineRecord, OrderError>)
    requires MenuStored(rows)
    ensures r.Success? <==> Available(it, rows) && it.quantity.Some?
    ensures r.Success? ==> r.value.unitPrice.Some? && r.value.quantity.Some?
  {
    if !Available(it, rows) then Failure(Unavailable(it.menuItemId))
    else if it.quantity.None? then Failure(NullQuantity)
    else
      var row := rows[it.menuItemId.value];
      assert MenuItemModel.StoredRow(it.menuItemId.value, row);
      Success(LineRecord(it.menuItemId, row.name, row.price, it.quantity))
  }

  /** The lines built so far and the running total. */
  datatype Pricing = Pricing(lines: seq<LineRecord>, total: int)

  /** The loop over the request items, item by item from the first: the first item that
      cannot be ordered stops it. */
  function PriceItems(items: seq<RequestItem>, rows: map<int, MenuItemRecord>): (r: Result<Pricing, OrderError>)
    requires MenuStored(rows)
    ensures r.Success? ==> |r.value.lines| == |items|
    decreases |items|
  {
    if items == [] then Success(Pricing([], 0))
    else
      match PriceItems(items[..|items| - 1], rows)
      case Failure(e) => Failure(e)
      case Success(p) =>
        match LineFor(items[|items| - 1], rows)
        case Failure(e) => Failure(e)
        case Success(l) => Success(Pricing(p.lines + [l], p.total + LineCost(l)))
  }

  /** The order `createOrder` builds before saving it, or why it raises. */
  function Place(req: Option<CreateOrderRequest>, rows: map<int, MenuItemRecord>): (r: Result<OrderRecord, OrderError>)
    requires MenuStored(rows)
    ensures r.Success? ==> req.Some? && var o := r.value;
              && o.id.None? && o.createdAt.None?
              && o.tableNumber == req.value.tableNumber && o.tableNumber.Some? && o.tableNumber.value >= 1
              && o.email == req.value.email && o.phone == req.value.phone
              && o.status == Some("PENDING")
  {
    if req.None? || req.value.items.None? || |req.value.items.value| == 0 then Failure(NoItems)
    else if req.value.tableNumber.None? || req.value.tableNumber.value < 1 then Failure(NoTable)
    else
      match PriceItems(req.value.items.value, rows)
      case Failure(e) => Failure(e)
      case Success(p) =>
        Success(OrderRecord(None, req.value.tableNumber, req.value.email, req.value.phone,
                            Some(p.total), Some("PENDING"), None, p.lines))
  }

  // ---------------------------------------------------------------- what an order is made of

  /** The items are priced exactly when every one of them is available and has a quantity. */
  lemma {:induction false} PriceItemsSucceeds(items: seq<RequestItem>, rows: map<int, MenuItemRecord>)
    requires MenuStored(rows)
    ensures PriceItems(items, rows).Success? <==>
            forall i :: 0 <= i < |items| ==> Available(items[i], rows) && items[i].quantity.Some?
  {
    if items != [] {
      var init := items[..|items| - 1];
      PriceItemsSucceeds(init, rows);
      assert forall i :: 0 <= i < |init| ==> init[i] == items[i];
    }
  }

  /** One line per request item, in request order (a repeated id gives repeated lines): the
      item's id, the menu item's name and price as they are now, and the quantity asked for. */
  lemma {:induction false} PriceItemsLines(items: seq<RequestItem>, rows: map<int, MenuItemRecord>)
    requires MenuStored(rows) && PriceItems(items, rows).Success?
    ensures var ls := PriceItems(items, rows).value.lines;
            forall i :: 0 <= i < |items| ==>
              && items[i].menuItemId.Some? && items[i].menuItemId.value in rows
              && ls[i] == LineRecord(items[i].menuItemId, rows[items[i].menuItemId.value].name,
                                     rows[items[i].menuItemId.value].price, items[i].quantity)
  {
    if items != [] {
      var init := items[..|items| - 1];
      PriceItemsLines(init, rows);
      assert forall i :: 0 <= i < |init| ==> init[i] == items[i];
    }
  }

  /** The sum of the lines' costs. */
  function LinesTotal(ls: seq<LineRecord>): int
    requires forall i :: 0 <= i < |ls| ==> ls[i].unitPrice.Some? && ls[i].quantity.Some?
  {
    if ls == [] then 0 else LineCost(ls[0]) + LinesTotal(ls[1..])
  }

  lemma {:induction false} LinesTotalSnoc(ls: seq<LineRecord>, l: LineRecord)
    requires forall i :: 0 <= i < |ls| ==> ls[i].unitPrice.Some? && ls[i].quantity.Some?
    requires l.unitPrice.Some? && l.quantity.Some?
    ensures LinesTotal(ls + [l]) == LinesTotal(ls) + LineCost(l)
  {
    if ls != [] {
      assert (ls + [l])[1..] == ls[1..] + [l];
      LinesTotalSnoc(ls[1..], l);
    } else {
      assert ls + [l] == [l];
    }
  }

  /** The total is the sum of the order's line costs: every line has a price and a quantity,
      and nothing else enters the total. */
  lemma {:induction false} TotalIsSumOfLines(items: seq<RequestItem>, rows: map<int, MenuItemRecord>)
    requires MenuStored(rows) && PriceItems(items, rows).Success?
    ensures var p := PriceItems(items, rows).value;
            && (forall i :: 0 <= i < |p.lines| ==> p.lines[i].unitPrice.Some? && p.lines[i].quantity.Some?)
            && p.total == LinesTotal(p.lines)
  {
    if items != [] {
      var init := items[..|items| - 1];
      TotalIsSumOfLines(init, rows);
      var p0 := PriceItems(init, rows).value;
      var l := LineFor(items[|items| - 1], rows).value;
      LinesTotalSnoc(p0.lines, l);
    }
  }

  /** What one request item costs: the menu price times the quantity. */
  function ItemCost(it: RequestItem, rows: map<int, MenuItemRecord>): int
    requires MenuStored(rows) && Available(it, rows) && it.quantity.Some?
  {
    assert MenuItemModel.StoredRow(it.menuItemId.value, rows[it.menuItemId.value]);
    rows[it.menuItemId.value].price.value * it.quantity.value
  }

  /** The total charged for a request, item by item. */
  function RequestTotal(items: seq<RequestItem>, rows: map<int, MenuItemRecord>): int
    requires MenuStored(rows)
    requires forall i :: 0 <= i < |items| ==> Available(items[i], rows) && items[i].quantity.Some?
  {
    if items == [] then 0
    else
      assert Available(items[0], rows) && items[0].quantity.Some?;
      ItemCost(items[0], rows) + RequestTotal(items[1..], rows)
  }

  lemma {:induction false} RequestTotalSnoc(items: seq<RequestItem>, rows: map<int, MenuItemRecord>)
    requires MenuStored(rows) && items != []
    requires forall i :: 0 <= i < |items| ==> Available(items[i], rows) && items[i].quantity.Some?
    ensures RequestTotal(items, rows) == RequestTotal(items[..|items| - 1], rows) + ItemCost(items[|items| - 1], rows)
  {
    if |items| > 1 {
      assert items[1..][..|items[1..]| - 1] == items[..|items| - 1][1..];
      RequestTotalSnoc(items[1..], rows);
    }
  }

  /** The order's total is the sum, over the request items, of the menu item's price times the
      quantity asked for. */
  lemma {:induction false} TotalIsPriceTimesQuantity(items: seq<RequestItem>, rows: map<int, MenuItemRecord>)
    requires MenuStored(rows) && PriceItems(items, rows).Success?
    ensures && (forall i :: 0 <= i < |items| ==> Available(items[i], rows) && items[i].quantity.Some?)
            && PriceItems(items, rows).value.total == RequestTotal(items, rows)
  {
    PriceItemsSucceeds(items, rows);
    if items != [] {
      var init := items[..|items| - 1];
      assert forall i :: 0 <= i < |init| ==> init[i] == items[i];
      TotalIsPriceTimesQuantity(init, rows);
      RequestTotalSnoc(items, rows);
    }
  }

  /** Once an item fails, every longer run of items fails with the same error. */
  lemma {:induction false} PrefixFailureStays(items: seq<RequestItem>, n: nat, rows: map<int, MenuItemRecord>)
    requires MenuStored(rows) && n <= |items| && PriceItems(items[..n], rows).Failure?
    ensures PriceItems(items, rows) == PriceItems(items[..n], rows)
    decreases |items| - n
  {
    if n < |items| {
      assert items[..n + 1][..n] == items[..n];
      PrefixFailureStays(items, n + 1, rows);
    } else {
      assert items[..n] == items;
    }
  }

  /** One more item that cannot be ordered ends the loop with that item's error. */
  lemma ItemFails(items: seq<RequestItem>, i: nat, rows: map<int, MenuItemRecord>)
    requires MenuStored(rows) && i < |items|
    requires PriceItems(items[..i], rows).Success? && LineFor(items[i], rows).Failure?
    ensures PriceItems(items, rows) == Failure(LineFor(items[i], rows).error)
  {
    assert items[..i + 1][..i] == items[..i] && items[..i + 1][i] == items[i];
    PrefixFailureStays(items, i + 1, rows);
  }

  /** One more item that can be ordered adds its line and its cost. */
  lemma ItemSucceeds(items: seq<RequestItem>, i: nat, rows: map<int, MenuItemRecord>)
    requires MenuStored(rows) && i < |items|
    requires PriceItems(items[..i], rows).Success? && LineFor(items[i], rows).Success?
    ensures var p := PriceItems(items[..i], rows).value;
            var l := LineFor(items[i], rows).value;
            PriceItems(items[..i + 1], rows) == Success(Pricing(p.lines + [l], p.total + LineCost(l)))
  {
    assert items[..i + 1][..i] == items[..i] && items[..i + 1][i] == items[i];
  }

  // ---------------------------------------------------------------- the checks

  /** The checks run in order: items first, then the table, then each item; an order is built
      exactly when the items are there, the table is at least 1, and every item can be ordered
      with its quantity. */
  lemma PlaceChecks(req: Option<CreateOrderRequest>, rows: map<int, MenuItemRecord>)
    requires MenuStored(rows)
    ensures Place(req, rows) == Failure(NoItems) <==> req.None? || req.value.items.None? || req.value.items.value == []
    ensures Place(req, rows) == Failure(NoTable) <==>
              req.Some? && req.value.items.Some? && req.value.items.value != []
              && (req.value.tableNumber.None? || req.value.tableNumber.value < 1)
    ensures Place(req, rows).Success? <==>
              && req.Some? && req.value.items.Some? && req.value.items.value != []
              && req.value.tableNumber.Some? && req.value.tableNumber.value >= 1
              && forall i :: 0 <= i < |req.value.items.value| ==>
                   Available(req.value.items.value[i], rows) && req.value.items.value[i].quantity.Some?
  {
    if req.Some? && req.value.items.Some? {
      PriceItemsSucceeds(req.value.items.value, rows);
      PriceItemsNeverEarly(req.value.items.value, rows);
    }
  }

  /** The item loop never reports the two request-level errors. */
  lemma {:induction false} PriceItemsNeverEarly(items: seq<RequestItem>, rows: map<int, MenuItemRecord>)
    requires MenuStored(rows)
    ensures PriceItems(items, rows).Failure? ==>
              PriceItems(items, rows).error.Unavailable? || PriceItems(items, rows).error == NullQuantity
  {
    if items != [] {
      PriceItemsNeverEarly(items[..|items| - 1], rows);
    }
  }

  /** The service's two request checks are the request-level constraints the controller's
      `@Valid` enforces: a request those constraints accept always gets past them. */
  lemma ValidRequestPassesChecks(req: CreateOrderRequest, rows: map<int, MenuItemRecord>)
    requires MenuStored(rows)
    ensures IsValid(req) <==> Place(Some(req), rows) != Failure(NoItems) && Place(Some(req), rows) != Failure(NoTable)
  {
    PlaceChecks(Some(req), rows);
  }

  /** A request naming a missing or switched-off item is refused, whatever else it holds. */
  lemma UnavailableIsRefused(req: CreateOrderRequest, rows: map<int, MenuItemRecord>, i: int)
    requires MenuStored(rows) && req.items.Some? && 0 <= i < |req.items.value|
    requires !Available(req.items.value[i], rows)
    ensures Place(Some(req), rows).Failure?
  {
    PlaceChecks(Some(req), rows);
  }

  /** The item-level constraints are not enforced: a negative quantity is priced as it is,
      giving a negative total. */
  lemma NegativeQuantityAccepted()
    ensures var rows := map[7 := MenuItemRecord(Some(7), Some("Tea"), None, Some(250), Some("Drinks"), Some(true), Some(0))];
            var req := CreateOrderRequest(Some(2), None, None, Some([RequestItem(Some(7), Some(-2))]));
            && MenuStored(rows) && IsValid(req)
            && Place(Some(req), rows).Success?
            && Place(Some(req), rows).value.totalAmount == Some(-500)
  {
    var rows := map[7 := MenuItemRecord(Some(7), Some("Tea"), None, Some(250), Some("Drinks"), Some(true), Some(0))];
    var items := [RequestItem(Some(7), Some(-2))];
    assert items[..0] == [];
    assert PriceItems(items[..0], rows) == Success(Pricing([], 0));
    assert items[..|items| - 1] == items[..0];
  }

  // ---------------------------------------------------------------- the service

  /** The menu ids the request names, in order (`items.stream().map(getMenuItemId)`). */
  function IdsOf(items: seq<RequestItem>): (ids: seq<Option<int>>)
    ensures |ids| == |items|
    ensures forall i :: 0 <= i < |items| ==> ids[i] == items[i].menuItemId
  {
    if items == [] then [] else [items[0].menuItemId] + IdsOf(items[1..])
  }

  /** The `byId` map built from the rows `findAllById` returned. */
  method IndexById(found: seq<MenuItemRecord>, ghost rows: map<int, MenuItemRecord>) returns (byId: map<int, MenuItemRecord>)
    requires forall j :: 0 <= j < |found| ==>
               found[j].id.Some? && found[j].id.value in rows && rows[found[j].id.value] == found[j]
    ensures forall k :: k in byId ==> k in rows && byId[k] == rows[k]
    ensures forall m :: 0 <= m < |found| ==> found[m].id.value in byId
  {
    byId := map[];
    var j := 0;
    while j < |found|
      invariant 0 <= j <= |found|
      invariant forall k :: k in byId ==> k in rows && byId[k] == rows[k]
      invariant forall m :: 0 <= m < j ==> found[m].id.value in byId
    {
      byId := byId[found[j].id.value := found[j]];
      j := j + 1;
    }
  }

  /** The body of the item loop up to the new line: the lookup in `byId`, the two checks, and
      the line that copies the menu item's name and price. */
  method BuildLine(it: RequestItem, byId: map<int, MenuItemRecord>, ghost rows: map<int, MenuItemRecord>)
    returns (r: Result<LineRecord, OrderError>)
    requires MenuStored(rows)
    requires forall k :: k in byId ==> k in rows && byId[k] == rows[k]
    requires it.menuItemId.Some? && it.menuItemId.value in rows ==> it.menuItemId.value in byId
    ensures r == LineFor(it, rows)
  {
    var mi: Option<MenuItemRecord> := None;
    if it.menuItemId.Some? && it.menuItemId.value in byId {
      var k := it.menuItemId.value;
      assert k in rows && byId[k] == rows[k];
      mi := Some(byId[k]);
    }
    if mi.None? || mi.value.active == Some(false) {
      return Failure(Unavailable(it.menuItemId));
    }
    if it.quantity.None? {
      return Failure(NullQuantity);
    }
    r := Success(LineRecord(it.menuItemId, mi.value.name, mi.value.price, it.quantity));
  }

  /** Every requested item that exists was found, so `byId` answers like the menu table. */
  lemma FoundCoversRequest(items: seq<RequestItem>, found: seq<MenuItemRecord>, byId: map<int, MenuItemRecord>,
                           rows: map<int, MenuItemRecord>)
    requires MenuStored(rows)
    requires forall k :: k in rows && Some(k) in IdsOf(items) ==> rows[k] in found
    requires forall m :: 0 <= m < |found| ==> found[m].id.Some? && found[m].id.value in byId
    ensures forall i :: 0 <= i < |items| && items[i].menuItemId.Some? && items[i].menuItemId.value in rows ==>
              items[i].menuItemId.value in byId
  {
    forall i | 0 <= i < |items| && items[i].menuItemId.Some? && items[i].menuItemId.value in rows
      ensures items[i].menuItemId.value in byId
    {
      var k := items[i].menuItemId.value;
      assert IdsOf(items)[i] == Some(k);
      assert rows[k] in found;
      assert MenuItemModel.StoredRow(k, rows[k]);
    }
  }

  /** A new line object holding `line`, added to `order`. */
  method AppendLine(order: Order, line: LineRecord, ghost h: OrderRecord, ghost ls: seq<LineRecord>)
    requires order.Holds(h, ls)
    modifies order
    ensures order.Holds(h, ls + [line])
  {
    var oi := new OrderItem();
    oi.SetLine(line);
    order.AddItem(oi);
    assert order.items[..|order.items| - 1] == old(order.items);
  }

  /** The loop over the request items: each available item with a quantity becomes a new line
      object added to `order`, and its cost is added to the total; the first item that cannot
      be ordered stops the loop with its error. */
  method AddLines(order: Order, items: seq<RequestItem>, byId: map<int, MenuItemRecord>, ghost rows: map<int, MenuItemRecord>)
    returns (r: Result<int, OrderError>)
    requires MenuStored(rows)
    requires forall k :: k in byId ==> k in rows && byId[k] == rows[k]
    requires forall i :: 0 <= i < |items| && items[i].menuItemId.Some? && items[i].menuItemId.value in rows ==>
               items[i].menuItemId.value in byId
    requires order.items == []
    modifies order
    ensures PriceItems(items, rows).Failure? ==> r == Failure(PriceItems(items, rows).error)
    ensures PriceItems(items, rows).Success? ==>
              && r == Success(PriceItems(items, rows).value.total)
              && order.Holds(old(order.Header()), PriceItems(items, rows).value.lines)
  {
    ghost var h := order.Header();
    var total := 0;
    var i := 0;
    ghost var p := Pricing([], 0);
    assert items[..0] == [];
    while i < |items|
      invariant 0 <= i <= |items|
      invariant PriceItems(items[..i], rows) == Success(p) && total == p.total
      invariant order.Holds(h, p.lines)
    {
      var line := BuildLine(items[i], byId, rows);
      if line.Failure? {
        ItemFails(items, i, rows);
        return Failure(line.error);
      }
      ItemSucceeds(items, i, rows);
      AppendLine(order, line.value, h, p.lines);
      p := Pricing(p.lines + [line.value], p.total + LineCost(line.value));
      total := total + LineCost(line.value);
      i := i + 1;
    }
    assert items[..i] == items;
    r := Success(total);
  }

  class OrderService {
    const orders: OrderRepository
    const menu: MenuItemRepository

    constructor (orders: OrderRepository, menu: MenuItemRepository)
      ensures this.orders == orders && this.menu == menu
    {
      this.orders := orders;
      this.menu := menu;
    }

    /** `createOrder`, with `Instant.now()` as `now`: the order `Place` describes, stored under
        the next id with `now` as its creation time; on any error nothing is stored. */
    method CreateOrder(req: Option<CreateOrderRequest>, now: int) returns (r: Result<OrderRecord, OrderError>)
      requires orders.Valid() && menu.Valid()
      modifies orders
      ensures orders.Valid()
      ensures Place(req, menu.rows).Failure? ==>
                r == Failure(Place(req, menu.rows).error) && orders.rows == old(orders.rows)
      ensures Place(req, menu.rows).Success? ==>
                && r == Success(Place(req, menu.rows).value.(id := Some(old(orders.nextId)), createdAt := Some(now)))
                && orders.rows == old(orders.rows)[old(orders.nextId) := r.value]
    {
      if req.None? || req.value.items.None? || |req.value.items.value| == 0 {
        return Failure(NoItems);
      }
      var rq := req.value;
      var items := rq.items.value;
      if rq.tableNumber.None? || rq.tableNumber.value < 1 {
        return Failure(NoTable);
      }

      var found := menu.FindAllById(IdsOf(items));
      var byId := IndexById(found, menu.rows);
      FoundCoversRequest(items, found, byId, menu.rows);
      var order := new Order();
      order.SetTableNumber(rq.tableNumber);
      order.SetContact(rq.email, rq.phone);
      ghost var h := order.Header();
      var priced := AddLines(order, items, byId, menu.rows);
      if priced.Failure? {
        return Failure(priced.error);
      }
      r := Store(order, priced.value, now, h, PriceItems(items, menu.rows).value.lines);
    }

    /** The end of `createOrder`: the total and PENDING are set, and the order is saved, which
        stamps it with `now` and gives it the next id. */
    method Store(order: Order, total: int, now: int, ghost h: OrderRecord, ghost ls: seq<LineRecord>)
      returns (r: Result<OrderRecord, OrderError>)
      requires orders.Valid() && order.Holds(h, ls)
      requires h.id.None? && h.tableNumber.Some? && h.createdAt.None?
      modifies orders, order
      ensures orders.Valid()
      ensures r == Success(h.(id := Some(old(orders.nextId)), totalAmount := Some(total), status := Some("PENDING"),
                              createdAt := Some(now), lines := ls))
      ensures orders.rows == old(orders.rows)[old(orders.nextId) := r.value]
    {
      order.SetTotalAndStatus(Some(total), Some("PENDING"));
      var saved := orders.Insert(order, now);
      assert saved.Success?;
      r := Success(saved.value);
    }

    /** `getOrder`. */
    method GetOrder(id: int) returns (r: Result<OrderRecord, OrderError>)
      ensures id in orders.rows ==> r == Success(orders.rows[id])
      ensures id !in orders.rows ==> r == Failure(NotFound(id))
    {
      var found := orders.FindById(id);
      if found.None? {
        return Failure(NotFound(id));
      }
      r := Success(found.value);
    }
  }
}
