/** The kitchen's order endpoints (backend/.../controller/AdminOrderController.java): list every
    stored order, read one by id, and overwrite an order's status with whatever string the
    request body carries. */
module AdminOrderController {
  import opened Wrappers
  import opened OrderModel
  import AdminOrders

  /** The IllegalArgumentException an unknown id raises. */
  datatype ControllerError = OrderNotFound(id: int)

  /** The `status` value a request body carries: present and not null. */
  predicate HasStatus(body: map<string, Option<string>>) {
    "status" in body && body["status"].Some?
  }

  /** The order after a status-update body: a non-null "status" replaces the status and
      nothing else; a missing or null one leaves the order as it was. */
  function AfterStatusUpdate(o: OrderRecord, body: map<string, Option<string>>): (r: OrderRecord)
    ensures r.(status := o.status) == o
    ensures HasStatus(body) ==> r.status == body["status"]
    ensures !HasStatus(body) ==> r == o
  {
    if HasStatus(body) then o.(status := body["status"]) else o
  }

  /** A stored order stays a well-formed stored order under any update. */
  lemma UpdateKeepsStored(k: int, o: OrderRecord, body: map<string, Option<string>>)
    requires StoredRow(k, o)
    ensures StoredRow(k, AfterStatusUpdate(o, body))
  {
  }

  /** No transition is checked: any string replaces any status, backwards (a COMPLETED order
      back to PENDING) or unknown ones included. */
  lemma AnyStatusIsAccepted(o: OrderRecord, s: string)
    ensures AfterStatusUpdate(o, map["status" := Some(s)]).status == Some(s)
    ensures o.status == Some("COMPLETED") ==>
              AfterStatusUpdate(o, map["status" := Some("PENDING")]).status == Some("PENDING")
  {
  }

  /** The body the orders board sends (a JSON object of strings) as the controller reads it. */
  function Received(body: map<string, string>): (r: map<string, Option<string>>)
    ensures r.Keys == body.Keys
    ensures forall k :: k in body ==> r[k] == Some(body[k])
  {
    map k | k in body :: Some(body[k])
  }

  /** The board's action button and this endpoint agree: clicking it moves the order to the
      status the board offers, and changes nothing else. */
  lemma BoardActionSetsNextStatus(o: OrderRecord, view: AdminOrders.OrderView)
    requires AdminOrders.ActionRequest(view).Some?
    ensures var body := Received(AdminOrders.ActionRequest(view).value.1);
            && AfterStatusUpdate(o, body).status == AdminOrders.NextStatus(view.status)
            && AfterStatusUpdate(o, body).(status := o.status) == o
  {
  }

  class AdminOrderController {
    const orders: OrderRepository

    constructor (orders: OrderRepository)
      ensures this.orders == orders
    {
      this.orders := orders;
    }

    /** `getAllOrders`: every stored order, each once. */
    method GetAllOrders() returns (all: seq<OrderRecord>)
      requires orders.Valid()
      ensures |all| == |orders.rows|
      ensures forall i :: 0 <= i < |all| ==>
                all[i].id.Some? && all[i].id.value in orders.rows && orders.rows[all[i].id.value] == all[i]
      ensures forall k :: k in orders.rows ==> orders.rows[k] in all
    {
      all := orders.FindAll();
    }

    /** `getOrderById`. */
    method GetOrderById(id: int) returns (r: Result<OrderRecord, ControllerError>)
      ensures id in orders.rows ==> r == Success(orders.rows[id])
      ensures id !in orders.rows ==> r == Failure(OrderNotFound(id))
    {
      var found := orders.FindById(id);
      if found.None? {
        return Failure(OrderNotFound(id));
      }
      r := Success(found.value);
    }

    /** `updateOrderStatus`: an unknown id raises and stores nothing; otherwise the order is
        answered as `AfterStatusUpdate` leaves it, and it is saved only when the body carried
        a status. */
    method UpdateOrderStatus(id: int, body: map<string, Option<string>>) returns (r: Result<OrderRecord, ControllerError>)
      requires orders.Valid()
      modifies orders
      ensures orders.Valid() && orders.nextId == old(orders.nextId)
      ensures id !in old(orders.rows) ==> r == Failure(OrderNotFound(id)) && orders.rows == old(orders.rows)
      ensures id in old(orders.rows) ==>
                && r == Success(AfterStatusUpdate(old(orders.rows)[id], body))
                && orders.rows == old(orders.rows)[id := r.value]
      ensures !HasStatus(body) ==> orders.rows == old(orders.rows)
    {
      var found := orders.FindById(id);
      if found.None? {
        return Failure(OrderNotFound(id));
      }
      var order := found.value;
      if "status" in body && body["status"].Some? {
        order := order.(status := body["status"]);
        orders.Update(id, order);
      }
      r := Success(order);
    }
  }
}
