/** The kitchen's order board (frontend/src/pages/AdminOrders.jsx): the fetched orders sorted
    newest first, the status filter, the one forward action each status offers, and the badge
    each status is drawn with. */
module AdminOrders {
  import opened Wrappers

  /** An order as the admin endpoint returns it. `createdAt` is the creation time as a number
      (the page compares `new Date(createdAt)` values); `totalAmount` is in cents and may be
      missing. */
  datatype OrderView = OrderView(id: int, tableNumber: int, status: string, totalAmount: Option<int>, createdAt: int)

  // ---------------------------------------------------------------- newest first

  /** Non-increasing creation time: newest first. */
  predicate NewestFirst(s: seq<OrderView>) {
    forall i, j :: 0 <= i < j < |s| ==> s[i].createdAt >= s[j].createdAt
  }

  /** `o` placed in front of the first order that is not newer than it. */
  function Insert(o: OrderView, s: seq<OrderView>): (r: seq<OrderView>)
    ensures |r| == |s| + 1
  {
    if s == [] || s[0].createdAt <= o.createdAt then [o] + s else [s[0]] + Insert(o, s[1..])
  }

  /** `data.sort((a, b) => new Date(b.createdAt) - new Date(a.createdAt))`. JavaScript's sort is
      stable, so this is an insertion sort that keeps orders of equal time in fetched order. */
  function SortNewestFirst(s: seq<OrderView>): (r: seq<OrderView>)
    ensures |r| == |s|
  {
    if s == [] then [] else Insert(s[0], SortNewestFirst(s[1..]))
  }

  lemma {:induction false} InsertNewestFirst(o: OrderView, s: seq<OrderView>)
    requires NewestFirst(s)
    ensures NewestFirst(Insert(o, s))
    ensures forall i :: 0 <= i < |Insert(o, s)| ==> Insert(o, s)[i] == o || Insert(o, s)[i] in s
  {
    if s != [] && s[0].createdAt > o.createdAt {
      InsertNewestFirst(o, s[1..]);
      var t := Insert(o, s[1..]);
      forall i | 0 <= i < |t| ensures s[0].createdAt >= t[i].createdAt {
        if t[i] != o {
          var k :| 0 <= k < |s[1..]| && s[1..][k] == t[i];
        }
      }
      forall i | 0 <= i < |t| ensures t[i] == o || t[i] in s {
      }
    }
  }

  lemma {:induction false} InsertPermutes(o: OrderView, s: seq<OrderView>)
    ensures multiset(Insert(o, s)) == multiset(s) + multiset{o}
  {
    if s != [] && s[0].createdAt > o.createdAt {
      InsertPermutes(o, s[1..]);
      assert s == [s[0]] + s[1..];
    }
  }

  /** The sorted list holds exactly the fetched orders and is newest first. */
  lemma {:induction false} SortIsNewestFirstPermutation(s: seq<OrderView>)
    ensures NewestFirst(SortNewestFirst(s))
    ensures multiset(SortNewestFirst(s)) == multiset(s)
  {
    if s != [] {
      SortIsNewestFirstPermutation(s[1..]);
      InsertNewestFirst(s[0], SortNewestFirst(s[1..]));
      InsertPermutes(s[0], SortNewestFirst(s[1..]));
      assert s == [s[0]] + s[1..];
    }
  }

  /** The orders created at time `t`, in order. */
  function CreatedAt(s: seq<OrderView>, t: int): (r: seq<OrderView>)
    ensures forall i :: 0 <= i < |r| ==> r[i].createdAt == t
  {
    if s == [] then [] else (if s[0].createdAt == t then [s[0]] else []) + CreatedAt(s[1..], t)
  }

  lemma {:induction false} InsertKeepsTies(o: OrderView, s: seq<OrderView>, t: int)
    ensures CreatedAt(Insert(o, s), t) == (if o.createdAt == t then [o] else []) + CreatedAt(s, t)
  {
    if s != [] && s[0].createdAt > o.createdAt {
      InsertKeepsTies(o, s[1..], t);
      assert Insert(o, s)[1..] == Insert(o, s[1..]);
    } else {
      assert Insert(o, s)[1..] == s;
    }
  }

  /** The sort is stable: orders created at the same time keep their fetched order. */
  lemma {:induction false} SortIsStable(s: seq<OrderView>, t: int)
    ensures CreatedAt(SortNewestFirst(s), t) == CreatedAt(s, t)
  {
    if s != [] {
      SortIsStable(s[1..], t);
      InsertKeepsTies(s[0], SortNewestFirst(s[1..]), t);
    }
  }

  // ---------------------------------------------------------------- the status filter

  /** `filteredOrders`: every order for "ALL", otherwise the orders whose status is exactly the
      filter, in the stored order. */
  function FilteredOrders(orders: seq<OrderView>, filter: string): (r: seq<OrderView>)
    ensures filter == "ALL" ==> r == orders
    ensures forall i :: 0 <= i < |r| ==> r[i] in orders
  {
    if filter == "ALL" then orders else WithStatus(orders, filter)
  }

  function WithStatus(orders: seq<OrderView>, status: string): (r: seq<OrderView>)
    ensures |r| <= |orders|
    ensures forall i :: 0 <= i < |r| ==> r[i].status == status && r[i] in orders
  {
    if orders == [] then []
    else (if orders[0].status == status then [orders[0]] else []) + WithStatus(orders[1..], status)
  }

  /** A named filter keeps each order with that status as often as it occurs and drops every
      other order. */
  lemma {:induction false} WithStatusCounts(orders: seq<OrderView>, status: string)
    ensures forall o :: multiset(WithStatus(orders, status))[o] ==
                        (if o.status == status then multiset(orders)[o] else 0)
  {
    if orders != [] {
      WithStatusCounts(orders[1..], status);
      assert orders == [orders[0]] + orders[1..];
    }
  }

  /** Filtering a concatenation filters each part: the filter keeps the stored order. */
  lemma {:induction false} WithStatusAppend(a: seq<OrderView>, b: seq<OrderView>, status: string)
    ensures WithStatus(a + b, status) == WithStatus(a, status) + WithStatus(b, status)
  {
    if a != [] {
      assert (a + b)[1..] == a[1..] + b;
      WithStatusAppend(a[1..], b, status);
    } else {
      assert a + b == b;
    }
  }

  /** The filtered view of a newest-first list is newest first. */
  lemma {:induction false} FilterKeepsNewestFirst(orders: seq<OrderView>, filter: string)
    requires NewestFirst(orders)
    ensures NewestFirst(FilteredOrders(orders, filter))
  {
    if filter != "ALL" {
      WithStatusNewestFirst(orders, filter);
    }
  }

  lemma {:induction false} WithStatusNewestFirst(orders: seq<OrderView>, status: string)
    requires NewestFirst(orders)
    ensures NewestFirst(WithStatus(orders, status))
  {
    if orders != [] {
      WithStatusNewestFirst(orders[1..], status);
      var rest := WithStatus(orders[1..], status);
      forall i | 0 <= i < |rest| ensures orders[0].createdAt >= rest[i].createdAt {
        var k :| 0 <= k < |orders[1..]| && orders[1..][k] == rest[i];
      }
    }
  }

  // ---------------------------------------------------------------- status actions

  /** The one forward action each status offers: "Start Preparing", "Mark Ready",
      "Mark Served" and "Complete Order"; COMPLETED and any other status (CREATED among them)
      get no button. */
  function NextStatus(status: string): (next: Option<string>)
    ensures next.Some? <==> status in {"PENDING", "PREPARING", "READY", "SERVED"}
  {
    if status == "PENDING" then Some("PREPARING")
    else if status == "PREPARING" then Some("READY")
    else if status == "READY" then Some("SERVED")
    else if status == "SERVED" then Some("COMPLETED")
    else None
  }

  /** The position of a status in the kitchen's workflow. */
  function Rank(status: string): Option<nat> {
    if status == "PENDING" then Some(0)
    else if status == "PREPARING" then Some(1)
    else if status == "READY" then Some(2)
    else if status == "SERVED" then Some(3)
    else if status == "COMPLETED" then Some(4)
    else None
  }

  /** Every action moves an order exactly one step forward; none moves it back or skips. */
  lemma NextStatusAdvances(status: string)
    requires NextStatus(status).Some?
    ensures Rank(status).Some? && Rank(NextStatus(status).value).Some?
    ensures Rank(NextStatus(status).value).value == Rank(status).value + 1
  {
  }

  /** The status after following the offered action `k` times, or `None` once no action is
      offered. */
  function Advance(status: string, k: nat): (r: Option<string>)
    ensures k == 0 ==> r == Some(status)
    decreases k
  {
    if k == 0 then Some(status)
    else match NextStatus(status)
      case None => None
      case Some(next) => Advance(next, k - 1)
  }

  /** From PENDING the actions reach COMPLETED in exactly four steps and then stop. */
  lemma PendingToCompleted()
    ensures Advance("PENDING", 4) == Some("COMPLETED")
    ensures forall k :: 0 <= k < 4 ==> Advance("PENDING", k) != Some("COMPLETED")
    ensures NextStatus("COMPLETED").None? && Advance("PENDING", 5).None?
  {
    assert Advance("PENDING", 1) == Some("PREPARING");
    assert Advance("PENDING", 2) == Some("READY");
    assert Advance("PENDING", 3) == Some("SERVED");
  }

  /** An order created with the entity's default status CREATED has no action at all. */
  lemma CreatedIsStuck()
    ensures NextStatus("CREATED").None? && Rank("CREATED").None?
  {
  }

  /** The body of the status-update request. */
  function StatusUpdateBody(newStatus: string): (body: map<string, string>)
    ensures body.Keys == {"status"} && body["status"] == newStatus
  {
    map["status" := newStatus]
  }

  /** A click on an order's action button: the order's id and the request body, or `None`
      when the order shows no button. */
  function ActionRequest(o: OrderView): (r: Option<(int, map<string, string>)>)
    ensures r.Some? <==> NextStatus(o.status).Some?
    ensures r.Some? ==> r.value.0 == o.id && r.value.1 == StatusUpdateBody(NextStatus(o.status).value)
  {
    match NextStatus(o.status)
    case None => None
    case Some(next) => Some((o.id, StatusUpdateBody(next)))
  }

  /** `variants[status] || "default"`. */
  function BadgeVariant(status: string): (v: string)
    ensures v in {"default", "secondary", "outline"}
    ensures v == "secondary" <==> status == "PREPARING"
    ensures v == "outline" <==> status == "READY"
  {
    if status == "PENDING" then "default"
    else if status == "PREPARING" then "secondary"
    else if status == "READY" then "outline"
    else if status == "SERVED" then "default"
    else if status == "COMPLETED" then "default"
    else "default"
  }

  // ---------------------------------------------------------------- the page

  /** The page's `orders` and `filter` state. */
  class AdminOrdersPage {
    var orders: seq<OrderView>
    var filter: string

    /** The stored list is always newest first. */
    predicate Valid()
      reads this
    {
      NewestFirst(orders)
    }

    constructor ()
      ensures Valid()
      ensures orders == [] && filter == "ALL"
    {
      orders := [];
      filter := "ALL";
    }

    /** `fetchOrders` with the fetched list as input: the list is sorted and stored. */
    method FetchOrders(data: seq<OrderView>)
      modifies this
      ensures Valid()
      ensures orders == SortNewestFirst(data) && multiset(orders) == multiset(data)
      ensures filter == old(filter)
    {
      SortIsNewestFirstPermutation(data);
      orders := SortNewestFirst(data);
    }

    method SetFilter(f: string)
      modifies this
      ensures filter == f && orders == old(orders)
      ensures Valid() <==> old(Valid())
    {
      filter := f;
    }

    /** The list the page renders; computing it changes nothing, and it is newest first. */
    method Shown() returns (r: seq<OrderView>)
      requires Valid()
      ensures r == FilteredOrders(orders, filter)
      ensures NewestFirst(r)
    {
      FilterKeepsNewestFirst(orders, filter);
      r := FilteredOrders(orders, filter);
    }
  }
}
