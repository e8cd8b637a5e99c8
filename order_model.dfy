/** The order entity (backend/.../model/Order.java), its lines, and the `orders` table. An
    order is a mutable object holding a list of line objects, each pointing back at its order;
    saving it stores a snapshot of both. */
module OrderModel {
  import opened Wrappers

  /** An order line as stored: the menu item's id, and its name and unit price (in cents) at
      the time of ordering, with the quantity ordered. */
  datatype LineRecord = LineRecord(menuItemId: Option<int>, name: Option<string>, unitPrice: Option<int>, quantity: Option<int>)

  /** An order as stored, with its lines in order. `totalAmount` is in cents. */
  datatype OrderRecord = OrderRecord(
    id: Option<int>, tableNumber: Option<int>, email: Option<string>, phone: Option<string>,
    totalAmount: Option<int>, status: Option<string>, createdAt: Option<int>, lines: seq<LineRecord>)

  /** An order line object. Its fields are the ones the order service sets; the line's own
      class is not part of this model. */
  class OrderItem {
    var menuItemId: Option<int>
    var name: Option<string>
    var unitPrice: Option<int>
    var quantity: Option<int>
    var order: Order?

    function Record(): LineRecord
      reads this
    {
      LineRecord(menuItemId, name, unitPrice, quantity)
    }

    constructor ()
      ensures Record() == LineRecord(None, None, None, None) && order == null
    {
      menuItemId, name, unitPrice, quantity := None, None, None, None;
      order := null;
    }

    method SetLine(l: LineRecord)
      modifies this
      ensures Record() == l && order == old(order)
    {
      menuItemId, name, unitPrice, quantity := l.menuItemId, l.name, l.unitPrice, l.quantity;
    }
  }

  /** The stored form of a list of line objects. */
  function LinesOf(items: seq<OrderItem>): (ls: seq<LineRecord>)
    reads items
    ensures |ls| == |items|
  {
    if items == [] then [] else LinesOf(items[..|items| - 1]) + [items[|items| - 1].Record()]
  }

  /** The fields the persist hook looks at. */
  datatype Stamp = Stamp(createdAt: Option<int>, status: Option<string>, totalAmount: Option<int>)

  /** What `prePersist` leaves: a null creation time becomes `now`, a null status "CREATED"
      and a null total 0; a field already set is never overwritten. */
  function PrePersisted(s: Stamp, now: int): (p: Stamp)
    ensures p.createdAt.Some? && p.status.Some? && p.totalAmount.Some?
    ensures s.createdAt.Some? ==> p.createdAt == s.createdAt
    ensures s.status.Some? ==> p.status == s.status
    ensures s.totalAmount.Some? ==> p.totalAmount == s.totalAmount
    ensures s.createdAt.None? ==> p.createdAt == Some(now)
    ensures s.status.None? ==> p.status == Some("CREATED")
    ensures s.totalAmount.None? ==> p.totalAmount == Some(0)
  {
    Stamp(s.createdAt.OrDefault(now), s.status.OrDefault("CREATED"), s.totalAmount.OrDefault(0))
  }

  /** The hook is idempotent: a second run, at any instant, changes nothing. */
  lemma PrePersistIdempotent(s: Stamp, now: int, later: int)
    ensures PrePersisted(PrePersisted(s, now), later) == PrePersisted(s, now)
  {
  }

  /** `Order`. */
  class Order {
    var id: Option<int>
    var tableNumber: Option<int>
    var email: Option<string>
    var phone: Option<string>
    var totalAmount: Option<int>
    var status: Option<string>
    var createdAt: Option<int>
    var items: seq<OrderItem>

    function Stamped(): Stamp
      reads this
    {
      Stamp(createdAt, status, totalAmount)
    }

    /** Everything about the order except its lines. */
    function Header(): OrderRecord
      reads this
    {
      OrderRecord(id, tableNumber, email, phone, totalAmount, status, createdAt, [])
    }

    /** The order as it would be stored now. */
    function Snapshot(): OrderRecord
      reads this, items
    {
      OrderRecord(id, tableNumber, email, phone, totalAmount, status, createdAt, LinesOf(items))
    }

    /** Every line points back at this order. */
    predicate LinesOwned()
      reads this, items
    {
      forall i :: 0 <= i < |items| ==> items[i].order == this
    }

    /** The order has the header `h` and the lines `ls`, and every line points back at it. */
    predicate Holds(h: OrderRecord, ls: seq<LineRecord>)
      reads this, items
    {
      Header() == h && LinesOf(items) == ls && LinesOwned()
    }

    /** `new Order()`: total 0, status "CREATED", no lines, the rest null. */
    constructor ()
      ensures Snapshot() == OrderRecord(None, None, None, None, Some(0), Some("CREATED"), None, [])
      ensures items == [] && LinesOwned()
    {
      id, tableNumber, email, phone := None, None, None, None;
      totalAmount := Some(0);
      status := Some("CREATED");
      createdAt := None;
      items := [];
    }

    /** `@PrePersist prePersist()`, with `Instant.now()` as `now`. */
    method PrePersist(now: int)
      modifies this
      ensures Stamped() == PrePersisted(old(Stamped()), now)
      ensures id == old(id) && tableNumber == old(tableNumber) && email == old(email) && phone == old(phone)
      ensures items == old(items)
    {
      if createdAt.None? { createdAt := Some(now); }
      if status.None? { status := Some("CREATED"); }
      if totalAmount.None? { totalAmount := Some(0); }
    }

    /** `addItem`: the line goes at the end and points back at this order; nothing else about
        the line changes. */
    method AddItem(item: OrderItem)
      modifies this, item
      ensures items == old(items) + [item] && item.order == this
      ensures item.Record() == old(item.Record())
      ensures id == old(id) && tableNumber == old(tableNumber) && email == old(email) && phone == old(phone)
      ensures Stamped() == old(Stamped())
    {
      items := items + [item];
      item.order := this;
    }

    method SetTableNumber(v: Option<int>)
      modifies this
      ensures tableNumber == v && items == old(items)
      ensures id == old(id) && email == old(email) && phone == old(phone) && Stamped() == old(Stamped())
    {
      tableNumber := v;
    }

    method SetContact(email: Option<string>, phone: Option<string>)
      modifies this
      ensures this.email == email && this.phone == phone && items == old(items)
      ensures id == old(id) && tableNumber == old(tableNumber) && Stamped() == old(Stamped())
    {
      this.email := email;
      this.phone := phone;
    }

    method SetTotalAndStatus(total: Option<int>, status: Option<string>)
      modifies this
      ensures totalAmount == total && this.status == status && items == old(items)
      ensures id == old(id) && tableNumber == old(tableNumber) && email == old(email) && phone == old(phone)
      ensures createdAt == old(createdAt)
    {
      totalAmount := total;
      this.status := status;
    }
  }

  /** The `orders` table: rows by id and the next generated id. A row holds the columns
      declared `nullable = false` (table_number, total_amount, status, created_at) and its own
      id. */
  predicate StoredRow(key: int, r: OrderRecord) {
    r.id == Some(key) && r.tableNumber.Some? && r.totalAmount.Some? && r.status.Some? && r.createdAt.Some?
  }

  lemma EmptyIfNoElement(s: set<int>)
    ensures (forall x :: x !in s) ==> s == {}
  {
    if forall x :: x !in s {
      assert s == {};
    }
  }

  lemma NonEmptyHasElement(s: set<int>)
    requires s != {}
    ensures exists x :: x in s
  {
    EmptyIfNoElement(s);
  }

  class OrderRepository {
    var rows: map<int, OrderRecord>
    var nextId: int

    predicate Valid()
      reads this
    {
      forall k :: k in rows ==> StoredRow(k, rows[k]) && k < nextId
    }

    constructor ()
      ensures Valid() && rows == map[]
    {
      rows := map[];
      nextId := 1;
    }

    /** `findById`. */
    method FindById(id: int) returns (r: Option<OrderRecord>)
      ensures r.Some? <==> id in rows
      ensures r.Some? ==> r.value == rows[id]
    {
      r := if id in rows then Some(rows[id]) else None;
    }

    /** `save` of a new order: the persist hook runs, the order gets the next id, and its
        snapshot is stored; a null table number fails the write and stores nothing. */
    method Insert(o: Order, now: int) returns (r: Result<OrderRecord, ()>)
      requires Valid() && o.id.None?
      modifies this, o
      ensures Valid()
      ensures o.items == old(o.items)
      ensures old(o.tableNumber).None? ==> r.Failure? && rows == old(rows)
      ensures old(o.tableNumber).Some? ==>
                var p := PrePersisted(old(o.Stamped()), now);
                && r == Success(OrderRecord(Some(old(nextId)), old(o.tableNumber), old(o.email), old(o.phone),
                                            p.totalAmount, p.status, p.createdAt, old(LinesOf(o.items))))
                && rows == old(rows)[old(nextId) := r.value]
    {
      if o.tableNumber.None? {
        return Failure(());
      }
      o.PrePersist(now);
      o.id := Some(nextId);
      var snapshot := o.Snapshot();
      rows := rows[nextId := snapshot];
      nextId := nextId + 1;
      r := Success(snapshot);
    }

    /** `save` of a changed row. */
    method Update(id: int, row: OrderRecord)
      requires Valid() && id in rows && StoredRow(id, row)
      modifies this
      ensures Valid()
      ensures rows == old(rows)[id := row] && nextId == old(nextId)
    {
      rows := rows[id := row];
    }

    /** `findAll`: every stored row once, in no particular order. */
    method FindAll() returns (all: seq<OrderRecord>)
      requires Valid()
      ensures |all| == |rows|
      ensures forall i :: 0 <= i < |all| ==> all[i].id.Some? && all[i].id.value in rows && rows[all[i].id.value] == all[i]
      ensures forall k :: k in rows ==> rows[k] in all
    {
      all := [];
      var left := rows.Keys;
      while left != {}
        invariant left <= rows.Keys
        invariant |all| + |left| == |rows|
        invariant forall i :: 0 <= i < |all| ==> all[i].id.Some? && all[i].id.value in rows - left && rows[all[i].id.value] == all[i]
        invariant forall k :: k in rows - left ==> rows[k] in all
        decreases |left|
      {
        NonEmptyHasElement(left);
        var k :| k in left;
        all := all + [rows[k]];
        left := left - {k};
      }
    }
  }
}
