/** The order-creation request as it travels from the pages to the backend: the JSON body the
    checkout and reservation pages build, read into the backend's request object. */
module OrderWire {
  import opened Wrappers
  import opened JsText
  import opened Cart
  import Checkout
  import Reservation
  import opened OrderRequest

  /** The request object the backend reads from a page's JSON body: every field arrives, and
      a NaN table number (sent as null) arrives as null. */
  function Received(p: Checkout.OrderPayload): (req: CreateOrderRequest)
    ensures req.tableNumber == p.tableNumber
    ensures req.email == Some(p.email) && req.phone == Some(p.phone)
    ensures req.items.Some? && |req.items.value| == |p.items|
    ensures forall i :: 0 <= i < |p.items| ==>
              req.items.value[i] == RequestItem(Some(p.items[i].menuItemId), Some(p.items[i].quantity))
  {
    CreateOrderRequest(p.tableNumber, Some(p.email), Some(p.phone), Some(ItemsOf(p.items)))
  }

  function ItemsOf(items: seq<Checkout.PayloadItem>): (r: seq<RequestItem>)
    ensures |r| == |items|
    ensures forall i :: 0 <= i < |items| ==> r[i] == RequestItem(Some(items[i].menuItemId), Some(items[i].quantity))
  {
    if items == [] then [] else [RequestItem(Some(items[0].menuItemId), Some(items[0].quantity))] + ItemsOf(items[1..])
  }

  /** A request the checkout page sends always has items, but the page's own handler only
      checks that the table field is non-empty: the backend accepts it exactly when the field
      parses to a number of at least 1. A guest cannot type into the field (it is a select of
      tables 1 to 15, or read-only when filled from the QR link), so a "0" or "abc" reaches the
      handler only through the link's `?table=` parameter, and the server refuses it. */
  lemma CheckoutRequestValidity(d: Checkout.UserDetails, cart: seq<CartLine>)
    requires Checkout.ProceedToPayment(d, cart).Success?
    ensures var req := Received(Checkout.ProceedToPayment(d, cart).value);
            IsValid(req) <==> ParseInt(d.tableNumber).Some? && ParseInt(d.tableNumber).value >= 1
  {
  }

  /** The table field "0" is read as table 0. */
  lemma TableZeroParses()
    ensures ParseInt("0") == Some(0)
  {
    ParseIntOfIntToDecimal(0);
    assert IntToDecimal(0) == "0";
  }

  /** The counterexample: a table field of "0", taken from a `?table=0` link, passes every
      check of the page's handler. */
  lemma ZeroTableGetsPastThePage(cart: seq<CartLine>)
    requires cart != []
    ensures Checkout.ProceedToPayment(Checkout.UserDetails("a@b.com", "9876543210", "0"), cart).Success?
    ensures !IsValid(Received(Checkout.ProceedToPayment(Checkout.UserDetails("a@b.com", "9876543210", "0"), cart).value))
  {
    var d := Checkout.UserDetails("a@b.com", "9876543210", "0");
    Checkout.EmailExamples();
    Checkout.PlainPhoneAccepted();
    TableZeroParses();
    assert d.email != "" && d.phone != "" && d.tableNumber != "" && |cart| != 0;
    assert Checkout.ProceedToPayment(d, cart)
        == Success(Checkout.OrderPayload(Some(0), d.email, d.phone, Checkout.PayloadItems(cart)));
  }

  /** A request the reservation page sends for a table picked on the grid is always valid:
      the grid only offers 1 to 15. */
  lemma ReservationRequestIsValid(r: Reservation.ReservationData, n: int, cart: seq<CartLine>)
    requires n in Reservation.TableGrid() && cart != []
    ensures Reservation.PaymentRequest(Reservation.WithTable(r, n), cart).Success?
    ensures IsValid(Received(Reservation.PaymentRequest(Reservation.WithTable(r, n), cart).value))
  {
  }
}
