/** The checkout page (frontend/src/pages/Checkout.jsx): the contact form, the validation chain
    that runs when the guest proceeds to payment, the order-creation request it builds from the
    cart, and what the page does with the backend's answer. */
module Checkout {
  import opened Wrappers
  import opened JsText
  import opened Cart

  /** The form state `userDetails`. */
  datatype UserDetails = UserDetails(email: string, phone: string, tableNumber: string)

  /** The form's named inputs. */
  datatype Field = Email | Phone | TableNumber

  /** The form starts with empty contact fields and the table number handed over from the menu
      page (taken from the scanned QR code), or empty when there is none. */
  function InitialDetails(qrTableNumber: string): (d: UserDetails)
    ensures d.email == "" && d.phone == ""
    ensures d.tableNumber == qrTableNumber
  {
    UserDetails("", "", qrTableNumber)
  }

  /** `handleInputChange`: the named field takes the typed value, the others keep theirs. */
  function WithField(d: UserDetails, f: Field, value: string): (r: UserDetails)
    ensures r.email == (if f == Email then value else d.email)
    ensures r.phone == (if f == Phone then value else d.phone)
    ensures r.tableNumber == (if f == TableNumber then value else d.tableNumber)
  {
    match f
    case Email => d.(email := value)
    case Phone => d.(phone := value)
    case TableNumber => d.(tableNumber := value)
  }

  // ---------------------------------------------------------------- email and phone

  /** A character allowed by `[^\s@]`. */
  predicate IsPlain(c: char) {
    !IsWhitespace(c) && c != '@'
  }

  predicate AllPlain(s: string) {
    forall i :: 0 <= i < |s| ==> IsPlain(s[i])
  }

  /** The shape `/^[^\s@]+@[^\s@]+\.[^\s@]+$/` describes: a non-empty local part, "@", a
      non-empty domain, ".", a non-empty top-level part, none of the three holding whitespace
      or "@" (the domain and the top-level part may hold further dots). */
  ghost predicate EmailShape(s: string) {
    exists a, b :: 0 < a && a + 1 < b < |s| - 1 && s[a] == '@' && s[b] == '.'
      && AllPlain(s[..a]) && AllPlain(s[a + 1..b]) && AllPlain(s[b + 1..])
  }

  /** The position of the first `c` in `s`. */
  function IndexOf(s: string, c: char): (r: Option<nat>)
    ensures r.None? ==> c !in s
    ensures r.Some? ==> r.value < |s| && s[r.value] == c && c !in s[..r.value]
  {
    if s == [] then None
    else if s[0] == c then Some(0)
    else match IndexOf(s[1..], c)
      case None => None
      case Some(i) => Some(i + 1)
  }

  lemma {:induction false} IndexOfFirst(s: string, c: char, a: nat)
    requires a < |s| && s[a] == c && c !in s[..a]
    ensures IndexOf(s, c) == Some(a)
  {
    if a > 0 {
      assert s[0] == s[..a][0];
      assert s[1..][..a - 1] == s[..a][1..];
      IndexOfFirst(s[1..], c, a - 1);
    }
  }

  /** A dot with at least one character on each side. */
  predicate HasInnerDot(r: string) {
    exists b :: 0 < b < |r| - 1 && r[b] == '.'
  }

  /** The page's email test, computed: everything before the one "@" is a non-empty plain
      part, and what follows is plain and has a dot with something on each side. */
  predicate IsValidEmail(s: string) {
    match IndexOf(s, '@')
    case None => false
    case Some(a) => a > 0 && AllPlain(s[..a]) && AllPlain(s[a + 1..]) && HasInnerDot(s[a + 1..])
  }

  /** Every string the computed test accepts has the regular expression's shape. */
  lemma ValidEmailHasShape(s: string)
    requires IsValidEmail(s)
    ensures EmailShape(s)
  {
    var a := IndexOf(s, '@').value;
    var r := s[a + 1..];
    var b' :| 0 < b' < |r| - 1 && r[b'] == '.';
    var b := a + 1 + b';
    assert s[a + 1..b] == r[..b'];
    assert s[b + 1..] == r[b' + 1..];
    assert s[b] == '.';
  }

  /** Plain parts joined by a plain character make a plain string. */
  lemma AllPlainJoin(x: string, c: char, y: string)
    requires AllPlain(x) && IsPlain(c) && AllPlain(y)
    ensures AllPlain(x + [c] + y)
  {
    var z := x + [c] + y;
    forall j | 0 <= j < |z| ensures IsPlain(z[j]) {
      if j < |x| { assert z[j] == x[j]; }
      else if j > |x| { assert z[j] == y[j - |x| - 1]; }
    }
  }

  /** A suffix of `s` cut around position `b`. */
  lemma SplitAround(s: string, a: nat, b: nat)
    requires a <= b < |s|
    ensures s[a..] == s[a..b] + [s[b]] + s[b + 1..]
  {
  }

  /** Every string of the regular expression's shape passes the computed test. */
  lemma ShapeIsValidEmail(s: string)
    requires EmailShape(s)
    ensures IsValidEmail(s)
  {
    var a, b :| 0 < a && a + 1 < b < |s| - 1 && s[a] == '@' && s[b] == '.'
      && AllPlain(s[..a]) && AllPlain(s[a + 1..b]) && AllPlain(s[b + 1..]);
    assert forall i :: 0 <= i < a ==> IsPlain(s[..a][i]);
    IndexOfFirst(s, '@', a);
    var r := s[a + 1..];
    SplitAround(s, a + 1, b);
    assert IsPlain('.');
    AllPlainJoin(s[a + 1..b], s[b], s[b + 1..]);
    assert r[b - a - 1] == '.';
  }

  /** The computed test accepts exactly the strings of the regular expression's shape. */
  lemma IsValidEmailIffShape(s: string)
    ensures IsValidEmail(s) <==> EmailShape(s)
  {
    if IsValidEmail(s) { ValidEmailHasShape(s); }
    if EmailShape(s) { ShapeIsValidEmail(s); }
  }

  /** The page's phone test: exactly ten digits remain once every non-digit is deleted. */
  predicate IsValidPhone(s: string) {
    |DigitsOnly(s)| == 10
  }

  /** Separators do not matter: any string holding exactly ten digits passes, whatever else
      it holds, and adding characters that are not digits never changes the verdict. */
  lemma PhoneIgnoresSeparators(s: string, t: string)
    requires forall i :: 0 <= i < |t| ==> !IsDigit(t[i])
    ensures IsValidPhone(s + t) == IsValidPhone(s) == IsValidPhone(t + s)
  {
    DigitsOnlyAppend(s, t);
    DigitsOnlyAppend(t, s);
    DigitsOnlyKeepsDigits(t);
  }

  /** The phone input holds at most ten characters (`maxLength="10"`); within that bound the
      test passes exactly the strings of ten bare digits, so no separator survives it. */
  lemma PhoneWithinMaxLength(s: string)
    requires |s| <= 10
    ensures IsValidPhone(s) <==> |s| == 10 && AllDigits(s)
  {
    DigitsOnlyKeepsAll(s);
  }

  /** The test itself accepts a number written with a separator, which only a value longer than
      the input's limit can hold. */
  lemma PhoneExamples()
    ensures IsValidPhone("98765" + "-" + "43210")
  {
    var a, b := "98765", "43210";
    assert AllDigits(a);
    assert AllDigits(b);
    DigitsOnlyKeepsDigits(a);
    DigitsOnlyKeepsDigits(b);
    DigitsOnlyKeepsDigits("-");
    DigitsOnlyAppend(a, "-");
    DigitsOnlyAppend(a + "-", b);
  }

  /** Ten bare digits pass. */
  lemma PlainPhoneAccepted()
    ensures IsValidPhone("9876543210")
  {
    assert AllDigits("9876543210");
    DigitsOnlyKeepsDigits("9876543210");
  }

  /** Too few digits fail. */
  lemma ShortPhoneRejected()
    ensures !IsValidPhone("12345")
  {
    assert AllDigits("12345");
    DigitsOnlyKeepsDigits("12345");
  }

  // ---------------------------------------------------------------- validation and payload

  /** The failures the page reports, one per check. */
  datatype CheckoutError = MissingContact | MissingTable | EmptyCart | InvalidEmail | InvalidPhone

  /** The notification text of each failure. */
  function ErrorText(e: CheckoutError): string {
    match e
    case MissingContact => "Please enter both email and phone number"
    case MissingTable => "Please select a table number"
    case EmptyCart => "Your cart is empty"
    case InvalidEmail => "Please enter a valid email address"
    case InvalidPhone => "Please enter a valid 10-digit phone number"
  }

  /** One element of the request's `items`. */
  datatype PayloadItem = PayloadItem(menuItemId: int, quantity: int)

  /** The body of the order-creation request. `tableNumber` is `parseInt`'s result, with
      `None` for NaN (which `JSON.stringify` sends as null). */
  datatype OrderPayload = OrderPayload(tableNumber: Option<int>, email: string, phone: string, items: seq<PayloadItem>)

  /** `cart.map((it) => ({ menuItemId: it.id, quantity: it.quantity }))`. */
  function PayloadItems(cart: seq<CartLine>): (r: seq<PayloadItem>)
    ensures |r| == |cart|
    ensures forall i :: 0 <= i < |cart| ==> r[i] == PayloadItem(cart[i].item.id, cart[i].quantity)
  {
    if cart == [] then [] else [PayloadItem(cart[0].item.id, cart[0].quantity)] + PayloadItems(cart[1..])
  }

  /** The validation chain of `handleProceedToPayment`, then the payload it builds. */
  function ProceedToPayment(d: UserDetails, cart: seq<CartLine>): (r: Result<OrderPayload, CheckoutError>)
    ensures r.Success? ==> d.email != "" && d.phone != "" && d.tableNumber != "" && cart != []
    ensures r.Success? ==> IsValidEmail(d.email) && IsValidPhone(d.phone)
  {
    if d.email == "" || d.phone == "" then Failure(MissingContact)
    else if d.tableNumber == "" then Failure(MissingTable)
    else if |cart| == 0 then Failure(EmptyCart)
    else if !IsValidEmail(d.email) then Failure(InvalidEmail)
    else if !IsValidPhone(d.phone) then Failure(InvalidPhone)
    else Success(OrderPayload(ParseInt(d.tableNumber), d.email, d.phone, PayloadItems(cart)))
  }

  /** The checks run in a fixed order and the first one that fails is the one reported; a
      payload is built only when all five pass. */
  lemma ChecksInOrder(d: UserDetails, cart: seq<CartLine>)
    ensures ProceedToPayment(d, cart) == Failure(MissingContact) <==> d.email == "" || d.phone == ""
    ensures ProceedToPayment(d, cart) == Failure(MissingTable) <==>
              d.email != "" && d.phone != "" && d.tableNumber == ""
    ensures ProceedToPayment(d, cart) == Failure(EmptyCart) <==>
              d.email != "" && d.phone != "" && d.tableNumber != "" && cart == []
    ensures ProceedToPayment(d, cart) == Failure(InvalidEmail) <==>
              d.email != "" && d.phone != "" && d.tableNumber != "" && cart != [] && !EmailShape(d.email)
    ensures ProceedToPayment(d, cart) == Failure(InvalidPhone) <==>
              d.email != "" && d.phone != "" && d.tableNumber != "" && cart != [] && EmailShape(d.email)
              && !IsValidPhone(d.phone)
    ensures ProceedToPayment(d, cart).Success? <==>
              d.tableNumber != "" && cart != [] && EmailShape(d.email) && IsValidPhone(d.phone)
  {
    IsValidEmailIffShape(d.email);
    if EmailShape(d.email) {
      var a, b :| 0 < a && a + 1 < b < |d.email| - 1 && d.email[a] == '@' && d.email[b] == '.'
        && AllPlain(d.email[..a]) && AllPlain(d.email[a + 1..b]) && AllPlain(d.email[b + 1..]);
    }
    if IsValidPhone(d.phone) {
      assert d.phone != "";
    }
  }

  /** The payload carries the parsed table number, the email and the phone exactly as typed
      (the phone is not stripped of its separators), and one item per cart line, in order. */
  lemma PayloadContents(d: UserDetails, cart: seq<CartLine>)
    requires ProceedToPayment(d, cart).Success?
    ensures var p := ProceedToPayment(d, cart).value;
      && p.tableNumber == ParseInt(d.tableNumber)
      && p.email == d.email && p.phone == d.phone
      && |p.items| == |cart|
      && forall i :: 0 <= i < |cart| ==> p.items[i].menuItemId == cart[i].item.id
                                         && p.items[i].quantity == cart[i].quantity
  {
  }

  // ---------------------------------------------------------------- the backend's answer

  /** What the order-creation call comes back with. */
  datatype Response =
    | Created(orderId: int)                  // a 2xx answer carrying the created order
    | Rejected(serverMessage: Option<string>) // a non-2xx answer; the body's `message`, if any
    | NetworkFailure(reason: string)          // fetch itself failed

  /** Where the page ends up after `handleProceedToPayment`. */
  datatype Outcome =
    | Invalid(error: CheckoutError)          // a check failed; nothing was sent
    | Notified(message: string)              // an error notification; the form is kept
    | ToPayment(orderId: int, details: UserDetails, totalPrice: int)

  /** The message of the error thrown on a non-OK answer: the server's `message` when it is a
      non-empty string, otherwise "Failed to create order". */
  function FailureMessage(serverMessage: Option<string>): (m: string)
    ensures m != ""
    ensures serverMessage.Some? && serverMessage.value != "" ==> m == serverMessage.value
    ensures serverMessage.None? || serverMessage.value == "" ==> m == "Failed to create order"
  {
    if serverMessage.Some? && serverMessage.value != "" then serverMessage.value else "Failed to create order"
  }

  /** The `catch` block's `err.message || "Something went wrong creating your order"`. */
  function CaughtMessage(thrown: string): (m: string)
    ensures m != ""
    ensures thrown != "" ==> m == thrown
  {
    if thrown != "" then thrown else "Something went wrong creating your order"
  }

  /** `handleProceedToPayment` as a whole: validation, then the request, then the answer. */
  function HandleProceed(d: UserDetails, cart: seq<CartLine>, totalPrice: int, response: Response): (o: Outcome)
    ensures o.Invalid? <==> ProceedToPayment(d, cart).Failure?
    ensures o.ToPayment? <==> ProceedToPayment(d, cart).Success? && response.Created?
    ensures o.ToPayment? ==> o.details == d && o.totalPrice == totalPrice
    ensures o.Notified? ==> o.message != ""
  {
    match ProceedToPayment(d, cart)
    case Failure(e) => Invalid(e)
    case Success(_) =>
      match response
      case Created(id) => ToPayment(id, d, totalPrice)
      case Rejected(m) => Notified(CaughtMessage(FailureMessage(m)))
      case NetworkFailure(reason) => Notified(CaughtMessage(reason))
  }

  /** A failed check means no request: the outcome does not depend on any answer. */
  lemma InvalidSendsNothing(d: UserDetails, cart: seq<CartLine>, totalPrice: int, r1: Response, r2: Response)
    requires ProceedToPayment(d, cart).Failure?
    ensures HandleProceed(d, cart, totalPrice, r1) == HandleProceed(d, cart, totalPrice, r2)
    ensures HandleProceed(d, cart, totalPrice, r1) == Invalid(ProceedToPayment(d, cart).error)
  {
  }

  /** A rejected request is reported with the server's message when it has one and with
      "Failed to create order" otherwise; the generic fallback of the `catch` block never shows
      for it. */
  lemma RejectionMessage(d: UserDetails, cart: seq<CartLine>, totalPrice: int, m: Option<string>)
    requires ProceedToPayment(d, cart).Success?
    ensures HandleProceed(d, cart, totalPrice, Rejected(m)) ==
            Notified(if m.Some? && m.value != "" then m.value else "Failed to create order")
  {
  }

  /** Printable ASCII other than "@" is allowed in every part of an email. */
  lemma PrintableIsPlain(s: string)
    requires forall i :: 0 <= i < |s| ==> '!' <= s[i] <= '~' && s[i] != '@'
    ensures AllPlain(s)
  {
  }

  lemma EmailExamples()
    ensures IsValidEmail("a@b.com")
    ensures !IsValidEmail("not-an-email")
    ensures !IsValidEmail("a@b.")
  {
    var e := "a@b.com";
    assert e[0] == 'a' && e[1] == '@';
    assert IndexOf(e, '@') == Some(1);
    assert e[..1] == "a" && e[2..] == "b.com";
    PrintableIsPlain("a");
    PrintableIsPlain("b.com");
    assert "b.com"[1] == '.';
    var n := "not-an-email";
    assert forall i :: 0 <= i < |n| ==> n[i] != '@';
    assert '@' !in n;
    var f := "a@b.";
    assert f[0] == 'a' && f[1] == '@';
    assert IndexOf(f, '@') == Some(1);
    assert f[2..] == "b.";
  }

  /** The table field "3" is read as table 3. */
  lemma TableThreeParses()
    ensures ParseInt("3") == Some(3)
  {
    ParseIntOfIntToDecimal(3);
    assert IntToDecimal(3) == "3";
  }

  /** The worked example: a two-unit cart line, valid contact details and table "3". */
  lemma CheckoutExample()
    ensures ProceedToPayment(UserDetails("a@b.com", "9876543210", "3"),
                             [CartLine(MenuEntry(1, "Soup", "", 1000, "Appetizers"), 2)])
         == Success(OrderPayload(Some(3), "a@b.com", "9876543210", [PayloadItem(1, 2)]))
  {
    var d := UserDetails("a@b.com", "9876543210", "3");
    var cart := [CartLine(MenuEntry(1, "Soup", "", 1000, "Appetizers"), 2)];
    EmailExamples();
    PlainPhoneAccepted();
    TableThreeParses();
    assert PayloadItems(cart) == [PayloadItem(1, 2)];
    assert d.email != "" && d.phone != "" && d.tableNumber != "" && |cart| != 0;
    assert ProceedToPayment(d, cart) == Success(OrderPayload(ParseInt(d.tableNumber), d.email, d.phone, PayloadItems(cart)));
  }

  /** A malformed email or a five-digit phone is reported before any request is built. */
  lemma RejectedExamples(cart: seq<CartLine>)
    requires cart != []
    ensures ProceedToPayment(UserDetails("not-an-email", "9876543210", "3"), cart) == Failure(InvalidEmail)
    ensures ProceedToPayment(UserDetails("a@b.com", "12345", "3"), cart) == Failure(InvalidPhone)
  {
    EmailExamples();
    PlainPhoneAccepted();
    ShortPhoneRejected();
  }
}
