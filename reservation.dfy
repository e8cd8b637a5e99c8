/** The table-reservation page (frontend/src/pages/TableReservation.jsx): a two-step screen
    whose first step picks a table and a date, time and party size, and whose second step takes
    the card details and sends the cart as an order for the chosen table. */
module Reservation {
  import opened Wrappers
  import opened JsText
  import opened Cart
  import Checkout

  /** `reservationData`. */
  datatype ReservationData = ReservationData(
    tableNumber: string, date: string, time: string, guests: string, specialRequests: string)

  /** The inputs wired to `handleReservationChange`; the table has no input of its own and is
      set only through the table grid. */
  datatype ReservationField = Date | Time | Guests | SpecialRequests

  /** `paymentData`: the card form. Its values are never sent; all four inputs are `required`,
      so the browser submits the form (and runs `handlePayment`) only when none is empty. */
  datatype PaymentData = PaymentData(cardNumber: string, cardName: string, expiryDate: string, cvv: string)

  /** The inputs wired to `handlePaymentChange`. */
  datatype PaymentField = CardNumber | CardName | ExpiryDate | Cvv

  const InitialReservation := ReservationData("", "", "", "2", "")
  const InitialPayment := PaymentData("", "", "", "")

  /** The table numbers the grid offers, in display order. */
  function TableGrid(): (g: seq<int>)
    ensures |g| == 15
    ensures forall i :: 0 <= i < |g| ==> g[i] == i + 1
  {
    [1, 2, 3, 4, 5, 6, 7, 8, 9, 10, 11, 12, 13, 14, 15]
  }

  /** `handleReservationChange`: the named field takes the value, the others keep theirs. */
  function WithReservationField(r: ReservationData, f: ReservationField, value: string): (x: ReservationData)
    ensures x.tableNumber == r.tableNumber
    ensures x.date == (if f == Date then value else r.date)
    ensures x.time == (if f == Time then value else r.time)
    ensures x.guests == (if f == Guests then value else r.guests)
    ensures x.specialRequests == (if f == SpecialRequests then value else r.specialRequests)
  {
    match f
    case Date => r.(date := value)
    case Time => r.(time := value)
    case Guests => r.(guests := value)
    case SpecialRequests => r.(specialRequests := value)
  }

  /** `handlePaymentChange`: the named field takes the value, the others keep theirs. */
  function WithPaymentField(p: PaymentData, f: PaymentField, value: string): (x: PaymentData)
    ensures x.cardNumber == (if f == CardNumber then value else p.cardNumber)
    ensures x.cardName == (if f == CardName then value else p.cardName)
    ensures x.expiryDate == (if f == ExpiryDate then value else p.expiryDate)
    ensures x.cvv == (if f == Cvv then value else p.cvv)
  {
    match f
    case CardNumber => p.(cardNumber := value)
    case CardName => p.(cardName := value)
    case ExpiryDate => p.(expiryDate := value)
    case Cvv => p.(cvv := value)
  }

  /** `handleTableSelection(n)`: the table becomes `n.toString()`, nothing else changes. */
  function WithTable(r: ReservationData, n: int): (x: ReservationData)
    ensures x.tableNumber != "" && ParseInt(x.tableNumber) == Some(n)
    ensures x.date == r.date && x.time == r.time
    ensures x.guests == r.guests && x.specialRequests == r.specialRequests
  {
    ParseIntOfIntToDecimal(n);
    r.(tableNumber := IntToDecimal(n))
  }

  /** The gate of `proceedToPayment`: table, date and time are all filled in. */
  predicate ReadyForPayment(r: ReservationData) {
    r.tableNumber != "" && r.date != "" && r.time != ""
  }

  /** The party size and the special requests play no part in the gate. */
  lemma GateIgnoresExtras(r: ReservationData, guests: string, requests: string)
    ensures ReadyForPayment(r.(guests := guests, specialRequests := requests)) == ReadyForPayment(r)
  {
  }

  /** From the initial state, picking a table and filling in a date and a time (in any order,
      with any party size) is exactly what opens the gate. */
  lemma GateAfterFilling(n: int, date: string, time: string, guests: string)
    ensures var r := WithReservationField(WithReservationField(WithReservationField(
                       WithTable(InitialReservation, n), Date, date), Time, time), Guests, guests);
            ReadyForPayment(r) <==> date != "" && time != ""
    ensures !ReadyForPayment(WithReservationField(WithReservationField(InitialReservation, Date, date), Time, time))
  {
  }

  const GateMessage := "Please complete all required reservation details"

  /** The failures `handlePayment` reports before any request. */
  datatype PaymentError = NoTable | EmptyCart

  function ErrorText(e: PaymentError): string {
    match e
    case NoTable => "Please select a table"
    case EmptyCart => "Your cart is empty"
  }

  /** The checks of `handlePayment`, then the request body: the parsed table, empty contact
      details, and the cart as (id, quantity) pairs. */
  function PaymentRequest(r: ReservationData, cart: seq<CartLine>): (q: Result<Checkout.OrderPayload, PaymentError>)
    ensures q.Success? ==> |q.value.items| == |cart| > 0
  {
    if r.tableNumber == "" then Failure(NoTable)
    else if |cart| == 0 then Failure(EmptyCart)
    else Success(Checkout.OrderPayload(ParseInt(r.tableNumber), "", "", Checkout.PayloadItems(cart)))
  }

  /** A missing table is reported first, even with an empty cart; an empty cart second; a
      request is built exactly when both are present, and it carries the parsed table, empty
      email and phone and one item per cart line in order. */
  lemma PaymentChecks(r: ReservationData, cart: seq<CartLine>)
    ensures PaymentRequest(r, cart) == Failure(NoTable) <==> r.tableNumber == ""
    ensures PaymentRequest(r, cart) == Failure(EmptyCart) <==> r.tableNumber != "" && cart == []
    ensures PaymentRequest(r, cart).Success? <==> r.tableNumber != "" && cart != []
    ensures PaymentRequest(r, cart).Success? ==>
              var p := PaymentRequest(r, cart).value;
              && p.tableNumber == ParseInt(r.tableNumber)
              && p.email == "" && p.phone == ""
              && |p.items| == |cart|
              && forall i :: 0 <= i < |cart| ==> p.items[i] == Checkout.PayloadItem(cart[i].item.id, cart[i].quantity)
  {
  }

  /** The table picked on the grid is the number sent to the backend. */
  lemma SelectedTableIsSent(r: ReservationData, n: int, cart: seq<CartLine>)
    requires cart != []
    ensures PaymentRequest(WithTable(r, n), cart).Success?
    ensures PaymentRequest(WithTable(r, n), cart).value.tableNumber == Some(n)
  {
  }

  /** The browser's `required` check on the Pay form: every card field holds something. */
  predicate CardComplete(p: PaymentData) {
    p.cardNumber != "" && p.cardName != "" && p.expiryDate != "" && p.cvv != ""
  }

  /** A card form starts incomplete; filling all four fields completes it, and leaving any one
      of them as it started keeps the Pay button from submitting. */
  lemma CardCompleteAfterFilling(number: string, name: string, expiry: string, cvv: string)
    ensures var p := WithPaymentField(WithPaymentField(WithPaymentField(WithPaymentField(
                       InitialPayment, CardNumber, number), CardName, name), ExpiryDate, expiry), Cvv, cvv);
            CardComplete(p) <==> number != "" && name != "" && expiry != "" && cvv != ""
    ensures !CardComplete(InitialPayment)
  {
  }

  /** Where pressing Pay leaves the guest. */
  datatype PaymentOutcome =
    | NotSubmitted                   // a required card field is empty; the browser keeps the form
    | Blocked(error: PaymentError)   // a check failed; nothing was sent
    | Notified(message: string)      // an error notification; the page stays
    | Confirmed(orderId: int)        // "Order #id created. Reservation confirmed.", then home

  function PaymentResult(r: ReservationData, cart: seq<CartLine>, response: Checkout.Response): (o: PaymentOutcome)
    ensures o != NotSubmitted
    ensures o.Blocked? <==> PaymentRequest(r, cart).Failure?
    ensures o.Confirmed? <==> PaymentRequest(r, cart).Success? && response.Created?
  {
    match PaymentRequest(r, cart)
    case Failure(e) => Blocked(e)
    case Success(_) =>
      match response
      case Created(id) => Confirmed(id)
      case Rejected(m) => Notified(Checkout.CaughtMessage(Checkout.FailureMessage(m)))
      case NetworkFailure(reason) => Notified(Checkout.CaughtMessage(reason))
  }

  /** Pressing Pay: the browser's required-field check, then `handlePayment`. */
  function SubmitResult(r: ReservationData, p: PaymentData, cart: seq<CartLine>, response: Checkout.Response): (o: PaymentOutcome)
    ensures o == NotSubmitted <==> !CardComplete(p)
    ensures CardComplete(p) ==> o == PaymentResult(r, cart, response)
  {
    if CardComplete(p) then PaymentResult(r, cart, response) else NotSubmitted
  }

  /** A blocked payment does not depend on any answer, and a rejected one shows the server's
      message or "Failed to create order". */
  lemma PaymentResponses(r: ReservationData, cart: seq<CartLine>, r1: Checkout.Response, r2: Checkout.Response, m: Option<string>)
    ensures PaymentRequest(r, cart).Failure? ==>
              PaymentResult(r, cart, r1) == PaymentResult(r, cart, r2) == Blocked(PaymentRequest(r, cart).error)
    ensures PaymentRequest(r, cart).Success? ==>
              PaymentResult(r, cart, Checkout.Rejected(m)) ==
              Notified(if m.Some? && m.value != "" then m.value else "Failed to create order")
  {
  }

  /** The table field holds nothing or the decimal rendering of a grid number. */
  ghost predicate FromGrid(t: string) {
    t == "" || exists n :: 1 <= n <= 15 && t == IntToDecimal(n)
  }

  /** A table taken from the grid parses back to a number between 1 and 15. */
  lemma GridTableParses(t: string)
    requires FromGrid(t) && t != ""
    ensures ParseInt(t).Some? && 1 <= ParseInt(t).value <= 15
  {
    var n :| 1 <= n <= 15 && t == IntToDecimal(n);
    ParseIntOfIntToDecimal(n);
  }

  /** The page's state: `step`, `reservationData` and `paymentData`, with the cart and total
      handed over from the menu page. Step 1 renders the table grid and the reservation inputs,
      step 2 the card form with its Back and Pay buttons, so each handler below can only be
      reached on its own step. */
  class ReservationPage {
    var step: int
    var reservation: ReservationData
    var payment: PaymentData
    const cart: seq<CartLine>
    const totalPrice: int

    /** The screen is on one of its two steps, the table came from the grid, and the second
        step is only ever shown once the gate has let the guest through. */
    ghost predicate Valid()
      reads this
    {
      && (step == 1 || step == 2)
      && FromGrid(reservation.tableNumber)
      && (step == 2 ==> ReadyForPayment(reservation))
    }

    constructor (cart: seq<CartLine>, totalPrice: int)
      ensures Valid()
      ensures step == 1 && reservation == InitialReservation && payment == InitialPayment
      ensures this.cart == cart && this.totalPrice == totalPrice
    {
      step := 1;
      reservation := InitialReservation;
      payment := InitialPayment;
      this.cart := cart;
      this.totalPrice := totalPrice;
    }

    method ChangeReservation(f: ReservationField, value: string)
      requires Valid() && step == 1
      modifies this
      ensures Valid()
      ensures reservation == WithReservationField(old(reservation), f, value)
      ensures step == old(step) && payment == old(payment)
    {
      reservation := WithReservationField(reservation, f, value);
    }

    method ChangePayment(f: PaymentField, value: string)
      requires Valid() && step == 2
      modifies this
      ensures Valid()
      ensures payment == WithPaymentField(old(payment), f, value)
      ensures step == old(step) && reservation == old(reservation)
    {
      payment := WithPaymentField(payment, f, value);
    }

    /** A click on grid button `n`. */
    method SelectTable(n: int)
      requires Valid() && step == 1
      requires n in TableGrid()
      modifies this
      ensures Valid()
      ensures reservation == WithTable(old(reservation), n)
      ensures step == old(step) && payment == old(payment)
    {
      reservation := WithTable(reservation, n);
    }

    /** `proceedToPayment`: on to step 2 when the gate is open, otherwise the notification and
        the page stays on step 1. */
    method ProceedToPayment() returns (notice: Option<string>)
      requires Valid() && step == 1
      modifies this
      ensures Valid()
      ensures ReadyForPayment(reservation) <==> step == 2
      ensures notice == (if step == 2 then None else Some(GateMessage))
      ensures reservation == old(reservation) && payment == old(payment)
    {
      if !ReadyForPayment(reservation) {
        return Some(GateMessage);
      }
      step := 2;
      notice := None;
    }

    /** The Back button: step 1 again, with everything typed so far kept. */
    method Back()
      requires Valid() && step == 2
      modifies this
      ensures Valid()
      ensures step == 1 && reservation == old(reservation) && payment == old(payment)
    {
      step := 1;
    }

    /** The Pay button, with the backend's answer as input: with a card field empty the browser
        does not submit; otherwise `handlePayment` runs. On step 2 its table check never fails,
        and a request that is sent names a table from the grid. */
    method HandlePayment(response: Checkout.Response) returns (outcome: PaymentOutcome)
      requires Valid() && step == 2
      ensures outcome == SubmitResult(reservation, payment, cart, response)
      ensures !CardComplete(payment) ==> outcome == NotSubmitted
      ensures outcome != Blocked(NoTable)
      ensures PaymentRequest(reservation, cart).Success? ==>
                var t := PaymentRequest(reservation, cart).value.tableNumber;
                t.Some? && 1 <= t.value <= 15
    {
      GridTableParses(reservation.tableNumber);
      if payment.cardNumber == "" || payment.cardName == "" || payment.expiryDate == "" || payment.cvv == "" {
        return NotSubmitted;
      }
      var request := PaymentRequest(reservation, cart);
      match request {
        case Failure(e) =>
          outcome := Blocked(e);
        case Success(_) =>
          match response {
            case Created(id) =>
              outcome := Confirmed(id);
            case Rejected(m) =>
              outcome := Notified(Checkout.CaughtMessage(Checkout.FailureMessage(m)));
            case NetworkFailure(reason) =>
              outcome := Notified(Checkout.CaughtMessage(reason));
          }
      }
    }
  }
}
