# Moonlight restaurant ordering, modelled in Dafny

This project models the ordering core of a restaurant app. The app has a React frontend and a
Spring backend, and the model covers both halves.

Guest pages:

- **Place Order** (`cart.dfy`): the menu's category tabs and filter, and the cart. The cart
  supports add, change quantity, remove, and the two totals.
- **Checkout** (`checkout.dfy`): the contact and table form, and the page's checks in their
  order (contact, table, cart, e-mail shape, phone digits). It also covers the JSON payload it
  posts and the messages it shows.
- **Table Reservation** (`reservation.dfy`): the two-step page. Step one is the 15-table grid
  and the reservation details; step two is the card form and the order it posts.

Admin pages:

- **Orders board** (`admin_orders.dfy`): the newest-first sort, the status filter, the
  PENDING → PREPARING → READY → SERVED → COMPLETED buttons, and the status badge.
- **Dashboard** (`admin_dashboard.dfy`): the login guard over browser storage, the four
  statistics, and logout.

Backend:

- **Order request** (`order_request.dfy`): the `CreateOrderRequest` and `CreateOrderRequestItem`
  DTOs and their bean-validation constraints.
- **Wire format** (`order_wire.dfy`): how a page's JSON payload reads back as that DTO.
- **Order service** (`order_service.dfy`): `createOrder`. It checks the request, looks up the
  menu items, refuses an unknown or inactive item, prices every line at the stored price,
  sums the total, and stores the order as PENDING. It also covers `getOrder`.
- **Entities** (`order_model.dfy`, `menu_item.dfy`): the `Order` and `MenuItem` entities, with
  their setters, `addItem` and the `@PrePersist` defaults. The repositories are modelled as
  classes over a map from id to row.
- **Menu item service** (`menu_item_service.dfy`): get, create, partial update, delete and
  toggle.
- **Admin order controller** (`admin_order_controller.dfy`): list, read, and unconditional
  status overwrite.
- **Admin service** (`admin_service.dfy`): sign-in for active accounts, and account creation
  under a free username.

Shared pieces:

- `js_text.dfy` holds the JavaScript text operations the pages rely on: `parseInt`,
  `Number.prototype.toString`, and stripping non-digits.
- `wrappers.dfy` holds `Option` and `Result`.

Modelling conventions:

- Money is in integer cents throughout.
- A Java `null` or JavaScript `undefined` is `None`.
- A JavaScript falsy string is the empty string.
- The clock (`Instant.now()`) is a parameter `now`.
- Fetched data and HTTP responses are parameters.
- Objects whose fields the source updates in place are classes with `modifies` clauses:
  entities, repositories, browser storage, and the pages' state.
- Pure logic consists of functions, with lemmas about them.

Where the page and the backend disagree, the model follows the code. Two examples:

- The checkout page's handler only checks that the table field is non-empty. The field itself
  is a select of tables 1 to 15, or read-only when a QR link filled it, so a guest cannot type
  a bad table; but a link carrying `?table=0` fills it with "0", which passes the handler and
  is refused by the backend's `@Min(1)` (`OrderWire.ZeroTableGetsPastThePage`).
- The backend validates `quantity >= 1` on items, but does not cascade that validation into
  the list. A quantity of -2 is therefore priced as a negative line
  (`OrderService.NegativeQuantityAccepted`).

## Model

| member | source | states |
|---|---|---|
| JsText.IsWhitespace | frontend/src/pages/Checkout.jsx:66 | the character class `\s` and `parseInt`'s leading-space set; `JsText.TrimStart` states what skipping it leaves |
| JsText.ParseIntOfDigits | frontend/src/pages/Checkout.jsx:66 | a non-empty string of digits parses to the number it denotes |
| JsText.ParseIntOfNegatedDigits | frontend/src/pages/Checkout.jsx:66 | a minus sign before a non-empty string of digits parses to the negated number |
| JsText.DigitsOnly | frontend/src/pages/Checkout.jsx:58 | `replace(/\D/g, "")` keeps only digits and never lengthens the text |
| JsText.DigitsOnlyAppend | frontend/src/pages/Checkout.jsx:58 | stripping non-digits distributes over concatenation |
| JsText.DigitsOnlyKeepsDigits | frontend/src/pages/Checkout.jsx:58 | an all-digit text is unchanged, and a text without digits becomes empty |
| JsText.TrimStart | frontend/src/pages/Checkout.jsx:66 | `parseInt` drops exactly the leading whitespace: the result is a suffix of the input, everything dropped is whitespace, and the result does not start with whitespace |
| JsText.DigitPrefixLength | frontend/src/pages/Checkout.jsx:66 | the length of the longest all-digit prefix: every character before it is a digit, and the next one is not |
| JsText.Unsigned | frontend/src/pages/Checkout.jsx:66 | at most one leading sign is removed |
| JsText.ParseInt | frontend/src/pages/Checkout.jsx:66 | `parseInt` gives NaN (None) exactly when no digit follows the optional whitespace and sign |
| JsText.NatToDecimal | frontend/src/pages/TableReservation.jsx:52 | `toString` of a natural number is a non-empty string of digits |
| JsText.IntToDecimal | frontend/src/pages/TableReservation.jsx:52 | `toString` of an integer is non-empty |
| JsText.DecimalValueOfNatToDecimal | frontend/src/pages/TableReservation.jsx:52 | reading back the digits of `toString` gives the number |
| JsText.DigitPrefixOfDigits | frontend/src/pages/Checkout.jsx:66 | an all-digit text is its own digit prefix |
| JsText.ParseIntOfIntToDecimal | frontend/src/pages/TableReservation.jsx:52 | round trip: `parseInt(n.toString()) == n` for every integer, so a table picked on the grid reaches the request unchanged |
| Cart.AddToCart | frontend/src/pages/PlaceOrder.jsx:47-61 | the item's id is in the cart afterwards, and the cart grows by one line exactly when the id was absent; `Cart.AddExisting`, `Cart.AddNew` and `Cart.AddKeepsWellFormed` state the contents |
| Cart.UpdateQuantity | frontend/src/pages/PlaceOrder.jsx:63-71 | every line left has a positive quantity and no line is added; `Cart.UpdateExisting`, `Cart.UpdateAbsent` and `Cart.UpdateKeepsWellFormed` state the contents |
| Cart.RemoveFromCart | frontend/src/pages/PlaceOrder.jsx:73-76 | no line is added; `Cart.RemoveMembership`, `Cart.RemoveExisting` and `Cart.RemoveAbsent` state the contents |
| Cart.TotalPrice | frontend/src/pages/PlaceOrder.jsx:78 | a cart with no negative price or quantity costs at least 0; `Cart.TotalsOfAppend` and `Cart.TotalsOfPointUpdate` state how it moves |
| Cart.TotalItems | frontend/src/pages/PlaceOrder.jsx:79 | a cart of positive quantities counts at least one unit per line; `Cart.TotalsOfAppend` and `Cart.TotalsOfPointUpdate` state how it moves |
| Cart.Categories | frontend/src/pages/PlaceOrder.jsx:38-41 | the list starts with "All"; `Cart.CategoriesShape` states the rest |
| Cart.FilteredItems | frontend/src/pages/PlaceOrder.jsx:43-45 | every item shown is on the menu, and for a category other than "All" exactly the menu's items of that category are shown; `Cart.FilteredItemsShape` states the order |
| Cart.AddExisting | frontend/src/pages/PlaceOrder.jsx:48-55 | adding an item already in the cart raises that line's quantity by one and changes nothing else |
| Cart.AddNew | frontend/src/pages/PlaceOrder.jsx:56-58 | adding an item not in the cart appends one line with quantity 1 |
| Cart.AddKeepsWellFormed | frontend/src/pages/PlaceOrder.jsx:47-58 | after an add, the cart still has one line per item and no quantity below 1 |
| Cart.Bumped | frontend/src/pages/PlaceOrder.jsx:50-54 | the `map` inside add touches only the line for the item's id |
| Cart.Adjusted | frontend/src/pages/PlaceOrder.jsx:64-69 | the `map` inside quantity update changes each line by the rule, pointwise |
| Cart.KeepPositive | frontend/src/pages/PlaceOrder.jsx:70 | the `filter` keeps only lines of quantity at least 1, and is the identity on such carts |
| Cart.UpdateQuantityPointwise | frontend/src/pages/PlaceOrder.jsx:63-71 | on a well-formed cart, the filter after the map removes nothing, so the update is pointwise and keeps the length |
| Cart.UpdateExisting | frontend/src/pages/PlaceOrder.jsx:63-71 | an update changes the named line's quantity by delta, unless that would go below 1, and leaves the other lines alone |
| Cart.DecrementAtOneIsNoOp | frontend/src/pages/PlaceOrder.jsx:67 | the minus button on a quantity of 1 leaves the cart as it is; it does not remove the line |
| Cart.UpdateAbsent | frontend/src/pages/PlaceOrder.jsx:63-71 | an update for an id not in the cart changes nothing |
| Cart.UpdateKeepsWellFormed | frontend/src/pages/PlaceOrder.jsx:63-71 | after an update, the cart still has one line per item and no quantity below 1 |
| Cart.RemoveMembership | frontend/src/pages/PlaceOrder.jsx:73-74 | after a remove, a line remains exactly when it was there and is for another id |
| Cart.RemoveAppend | frontend/src/pages/PlaceOrder.jsx:73-74 | remove distributes over concatenation |
| Cart.RemoveAbsent | frontend/src/pages/PlaceOrder.jsx:73-74 | removing an id not in the cart changes nothing |
| Cart.RemoveExisting | frontend/src/pages/PlaceOrder.jsx:73-74 | removing the id of line k in a well-formed cart deletes exactly that line and keeps the others' order |
| Cart.RemoveKeepsWellFormed | frontend/src/pages/PlaceOrder.jsx:73-74 | after a remove, the cart still has one line per item and no quantity below 1 |
| Cart.TotalsOfPointUpdate | frontend/src/pages/PlaceOrder.jsx:78-79 | replacing one line moves both totals by exactly that line's difference |
| Cart.TotalsOfAppend | frontend/src/pages/PlaceOrder.jsx:78-79 | appending a line adds its quantity and its cost to the totals |
| Cart.TotalItemsAtLeastLines | frontend/src/pages/PlaceOrder.jsx:79 | in a well-formed cart the item count is at least the number of lines, and is 0 exactly when the cart is empty |
| Cart.AddRaisesTotalItems | frontend/src/pages/PlaceOrder.jsx:47-58 | every add raises the item count by exactly one |
| Cart.OneMoreUnitCost | frontend/src/pages/PlaceOrder.jsx:78 | one more unit on a line costs that line's unit price |
| Cart.AddExistingRaisesTotalPrice | frontend/src/pages/PlaceOrder.jsx:48-55 | adding an existing item raises the total by the price stored in the cart line |
| Cart.AddNewRaisesTotalPrice | frontend/src/pages/PlaceOrder.jsx:56-58 | adding a new item raises the total by its price |
| Cart.UpdateMovesTotalItems | frontend/src/pages/PlaceOrder.jsx:63-71 | an update moves the item count by delta, or by 0 when the line would fall below 1 |
| Cart.CategoryList | frontend/src/pages/PlaceOrder.jsx:39 | the menu's categories, position by position |
| Cart.Dedup | frontend/src/pages/PlaceOrder.jsx:39 | `new Set` keeps exactly the values that occur |
| Cart.NonEmpty | frontend/src/pages/PlaceOrder.jsx:40 | `filter(Boolean)` keeps exactly the non-empty categories |
| Cart.DistinctNonEmptyInOrder | frontend/src/pages/PlaceOrder.jsx:38-41 | the category list has no duplicates, holds exactly the non-empty categories that occur, and lists them in order of first appearance |
| Cart.CategoriesShape | frontend/src/pages/PlaceOrder.jsx:38-41 | the tabs are "All" followed by each non-empty menu category once, in order of first appearance |
| Cart.InCategory | frontend/src/pages/PlaceOrder.jsx:45 | the filter keeps exactly the menu items of the category, in menu order |
| Cart.InCategoryAppend | frontend/src/pages/PlaceOrder.jsx:45 | the category filter distributes over concatenation |
| Cart.FilteredItemsShape | frontend/src/pages/PlaceOrder.jsx:43-45 | "All" shows the whole menu; another tab shows exactly its category's items; a tab offered by the page is never empty |
| Checkout.IsValidEmail | frontend/src/pages/Checkout.jsx:50-51 | the e-mail pattern; `Checkout.IsValidEmailIffShape` states which strings match |
| Checkout.IsValidPhone | frontend/src/pages/Checkout.jsx:57-58 | the phone test; `Checkout.PhoneIgnoresSeparators` and `Checkout.PhoneWithinMaxLength` state which strings pass |
| Checkout.ProceedToPayment | frontend/src/pages/Checkout.jsx:30-70 | a payload is built only when both contact fields, the table and the cart are non-empty and the e-mail and phone pass their tests; `Checkout.ChecksInOrder` and `Checkout.PayloadContents` state the order of the checks and the payload |
| Checkout.CaughtMessage | frontend/src/pages/Checkout.jsx:94-95 | the notification is never empty, and it is the thrown message whenever that is non-empty |
| Checkout.HandleProceed | frontend/src/pages/Checkout.jsx:30-96 | nothing is sent exactly when a check fails; the page moves to payment exactly when the checks pass and the order is created, carrying the details and total it was given; every notification is non-empty |
| Checkout.InitialDetails | frontend/src/pages/Checkout.jsx:15-21 | the form starts with empty contact fields and the table from the QR parameter |
| Checkout.WithField | frontend/src/pages/Checkout.jsx:23-28 | an input change replaces exactly the named field |
| Checkout.ValidEmailHasShape | frontend/src/pages/Checkout.jsx:50-54 | a text the e-mail pattern accepts is a name, an `@`, and a domain with an inner dot, without spaces or further `@` |
| Checkout.ShapeIsValidEmail | frontend/src/pages/Checkout.jsx:50-54 | every text of that shape is accepted |
| Checkout.IsValidEmailIffShape | frontend/src/pages/Checkout.jsx:50-54 | the e-mail check is exactly that shape, in both directions |
| Checkout.PhoneIgnoresSeparators | frontend/src/pages/Checkout.jsx:57-61 | non-digit characters on either side never change the phone check's verdict |
| Checkout.PhoneExamples | frontend/src/pages/Checkout.jsx:57-61 | the handler's test accepts "98765-43210", because its separator is ignored; only a value longer than the input's ten-character limit can hold it |
| JsText.DigitsOnlyKeepsAll | frontend/src/pages/Checkout.jsx:57 | deleting the non-digits removes nothing exactly when every character is a digit |
| Checkout.PhoneWithinMaxLength | frontend/src/pages/Checkout.jsx:57-58 | for a value within the input's ten-character limit, the test passes exactly ten bare digits |
| Checkout.PlainPhoneAccepted | frontend/src/pages/Checkout.jsx:57-61 | ten digits are accepted |
| Checkout.ShortPhoneRejected | frontend/src/pages/Checkout.jsx:57-61 | five digits are rejected |
| Checkout.EmailExamples | frontend/src/pages/Checkout.jsx:50-54 | "a@b.com" passes; "not-an-email" and "a@b." fail |
| Checkout.PayloadItems | frontend/src/pages/Checkout.jsx:68 | each cart line becomes `{menuItemId, quantity}`, in cart order |
| Checkout.ChecksInOrder | frontend/src/pages/Checkout.jsx:34-61 | each error is shown exactly when every earlier check passed and its own fails; the form proceeds exactly when all five pass |
| Checkout.PayloadContents | frontend/src/pages/Checkout.jsx:65-70 | the payload carries `parseInt` of the table, the e-mail and phone as typed, and the cart's items |
| Checkout.FailureMessage | frontend/src/pages/Checkout.jsx:78-81 | a non-OK response shows the server's message, or "Failed to create order" when it has none |
| Checkout.InvalidSendsNothing | frontend/src/pages/Checkout.jsx:30-61 | a form that fails a check shows that check's error, whatever the server would have answered, so no request is sent |
| Checkout.RejectionMessage | frontend/src/pages/Checkout.jsx:78-81 | a valid form refused by the server shows the server's message |
| Checkout.CheckoutExample | frontend/src/pages/Checkout.jsx:34-70 | a complete form for table "3" yields a payload for table 3 |
| Checkout.RejectedExamples | frontend/src/pages/Checkout.jsx:50-61 | a bad e-mail and a short phone are each refused with their own error |
| Reservation.ReadyForPayment | frontend/src/pages/TableReservation.jsx:56-62 | the step-1 gate; `Reservation.GateIgnoresExtras` and `Reservation.GateAfterFilling` state when it opens |
| Reservation.PaymentRequest | frontend/src/pages/TableReservation.jsx:64-80 | a request built carries one item per cart line and the cart is non-empty; `Reservation.PaymentChecks` states the checks and the payload |
| Reservation.PaymentResult | frontend/src/pages/TableReservation.jsx:64-97 | `handlePayment` is blocked exactly when its checks fail and confirms exactly when they pass and the order is created; `Reservation.PaymentResponses` states the messages |
| Reservation.TableGrid | frontend/src/pages/TableReservation.jsx:126 | the grid offers the tables 1 to 15 |
| Reservation.WithReservationField | frontend/src/pages/TableReservation.jsx:35-40 | a reservation input change replaces exactly the named field |
| Reservation.WithPaymentField | frontend/src/pages/TableReservation.jsx:42-47 | a card input change replaces exactly the named field |
| Reservation.WithTable | frontend/src/pages/TableReservation.jsx:49-54 | picking table n stores a non-empty text that parses back to n, and keeps the other fields |
| Reservation.GateIgnoresExtras | frontend/src/pages/TableReservation.jsx:56-62 | the step gate does not look at guests or special requests |
| Reservation.GateAfterFilling | frontend/src/pages/TableReservation.jsx:56-62 | a table, a date and a time open the gate; without a table it stays shut |
| Reservation.PaymentChecks | frontend/src/pages/TableReservation.jsx:66-80 | no table, then an empty cart, is refused; otherwise the payload carries the parsed table, empty e-mail and phone, and the cart's items in order |
| Reservation.SelectedTableIsSent | frontend/src/pages/TableReservation.jsx:49-80 | a table picked on the grid reaches the payload as that number |
| Reservation.PaymentResponses | frontend/src/pages/TableReservation.jsx:64-97 | a blocked payment sends nothing; a sent one succeeds or shows the server's message |
| Reservation.GridTableParses | frontend/src/pages/TableReservation.jsx:126 | every grid label parses to a number from 1 to 15 |
| Reservation.ReservationPage.constructor | frontend/src/pages/TableReservation.jsx:16-33 | the page starts on step 1 with empty forms |
| Reservation.ReservationPage.ChangeReservation | frontend/src/pages/TableReservation.jsx:35-40 | the reservation form changes as `WithReservationField` says, and nothing else does |
| Reservation.ReservationPage.ChangePayment | frontend/src/pages/TableReservation.jsx:42-47 | the card form changes as `WithPaymentField` says, and nothing else does |
| Reservation.ReservationPage.SelectTable | frontend/src/pages/TableReservation.jsx:49-54 | the reservation gets the picked table, and nothing else changes |
| Reservation.ReservationPage.ProceedToPayment | frontend/src/pages/TableReservation.jsx:56-62 | step 2 is reached exactly when the gate opens; otherwise a notice is shown and the step stays |
| Reservation.ReservationPage.Back | frontend/src/pages/TableReservation.jsx:308 | back returns to step 1 and keeps both forms |
| Reservation.CardCompleteAfterFilling | frontend/src/pages/TableReservation.jsx:239-300 | the card form starts incomplete, and filling its four fields completes it exactly when none of the values is empty |
| Reservation.SubmitResult | frontend/src/pages/TableReservation.jsx:64-97 | pressing Pay is refused by the browser exactly when a required card field is empty; otherwise the outcome is `handlePayment`'s |
| Reservation.ReservationPage.HandlePayment | frontend/src/pages/TableReservation.jsx:64-97 | the outcome is `SubmitResult` of the page's reservation and card form: nothing is submitted while a card field is empty; on step 2 the missing-table refusal cannot happen, and a request that is sent names a table from 1 to 15 |
| AdminOrders.Insert | frontend/src/pages/AdminOrders.jsx:28 | one insertion step of the sort adds exactly one order |
| AdminOrders.SortNewestFirst | frontend/src/pages/AdminOrders.jsx:28 | the sort keeps the length |
| AdminOrders.InsertNewestFirst | frontend/src/pages/AdminOrders.jsx:28 | inserting into a newest-first list keeps it newest-first, and holds only the new order and old ones |
| AdminOrders.InsertPermutes | frontend/src/pages/AdminOrders.jsx:28 | insertion adds the order to the multiset |
| AdminOrders.SortIsNewestFirstPermutation | frontend/src/pages/AdminOrders.jsx:26-29 | the board's list is newest-first and a permutation of the fetched orders |
| AdminOrders.CreatedAt | frontend/src/pages/AdminOrders.jsx:28 | the orders with one timestamp, in list order |
| AdminOrders.InsertKeepsTies | frontend/src/pages/AdminOrders.jsx:28 | insertion puts a new order before any old order with the same timestamp |
| AdminOrders.SortIsStable | frontend/src/pages/AdminOrders.jsx:28 | orders with equal timestamps keep their fetched order, as `Array.prototype.sort` guarantees |
| AdminOrders.FilteredOrders | frontend/src/pages/AdminOrders.jsx:63-65 | "ALL" shows every order; any filter shows only fetched orders |
| AdminOrders.WithStatus | frontend/src/pages/AdminOrders.jsx:65 | a status filter keeps only orders of that status |
| AdminOrders.WithStatusCounts | frontend/src/pages/AdminOrders.jsx:65 | a status filter keeps every order of that status, as often as it occurs |
| AdminOrders.WithStatusAppend | frontend/src/pages/AdminOrders.jsx:65 | the status filter distributes over concatenation |
| AdminOrders.WithStatusNewestFirst | frontend/src/pages/AdminOrders.jsx:65 | a status filter keeps a list newest-first |
| AdminOrders.FilterKeepsNewestFirst | frontend/src/pages/AdminOrders.jsx:63-65 | the shown list is newest-first under every filter |
| AdminOrders.NextStatus | frontend/src/pages/AdminOrders.jsx:143-182 | a button is offered exactly for PENDING, PREPARING, READY and SERVED |
| AdminOrders.NextStatusAdvances | frontend/src/pages/AdminOrders.jsx:143-182 | each button moves the order exactly one step along PENDING → PREPARING → READY → SERVED → COMPLETED |
| AdminOrders.Advance | frontend/src/pages/AdminOrders.jsx:143-182 | zero clicks leave the status as it is |
| AdminOrders.PendingToCompleted | frontend/src/pages/AdminOrders.jsx:143-182 | a PENDING order reaches COMPLETED in exactly four clicks and can go no further |
| AdminOrders.CreatedIsStuck | frontend/src/pages/AdminOrders.jsx:143-182 | an order left in the entity's default status CREATED shows no button |
| AdminOrders.StatusUpdateBody | frontend/src/pages/AdminOrders.jsx:37-41 | the request body is `{status: newStatus}` |
| AdminOrders.ActionRequest | frontend/src/pages/AdminOrders.jsx:36-41 | a click sends the order's id and the next status, and only where a button is shown |
| AdminOrders.BadgeVariant | frontend/src/pages/AdminOrders.jsx:52-60 | PREPARING is "secondary", READY is "outline", everything else is "default" |
| AdminOrders.AdminOrdersPage.constructor | frontend/src/pages/AdminOrders.jsx:11-12 | the page starts with no orders and the "ALL" filter |
| AdminOrders.AdminOrdersPage.FetchOrders | frontend/src/pages/AdminOrders.jsx:26-29 | the stored list is the fetched one, sorted newest-first and permuted, and the filter stays |
| AdminOrders.AdminOrdersPage.SetFilter | frontend/src/pages/AdminOrders.jsx:87-95 | the filter changes and the list stays |
| AdminOrders.AdminOrdersPage.Shown | frontend/src/pages/AdminOrders.jsx:63-65 | the shown orders are the filtered list, newest-first |
| AdminDashboard.MustLogIn | frontend/src/pages/AdminDashboard.jsx:27-35 | the login guard; `AdminDashboard.DashboardPage.Open` states that it sends the page to the login screen exactly when it holds |
| AdminDashboard.Revenue | frontend/src/pages/AdminDashboard.jsx:50 | with no negative amount the revenue is at least 0; `AdminDashboard.RevenueAppend` states that it adds over a split of the orders |
| AdminDashboard.ActiveItems | frontend/src/pages/AdminDashboard.jsx:51 | exactly the menu items flagged active |
| AdminDashboard.ActiveCountIsFilterSize | frontend/src/pages/AdminDashboard.jsx:51 | the active count is the number of items flagged active |
| AdminDashboard.ActiveCount | frontend/src/pages/AdminDashboard.jsx:51 | the number of active menu items is at most the menu's size |
| AdminDashboard.PendingCount | frontend/src/pages/AdminDashboard.jsx:52 | the number of pending orders is at most the number of orders |
| AdminDashboard.ComputeStats | frontend/src/pages/AdminDashboard.jsx:50-59 | total orders is the list's length, and pending and active are bounded by it and by the menu |
| AdminDashboard.PendingIsFilterSize | frontend/src/pages/AdminDashboard.jsx:52 | the pending count equals the size of the orders board's PENDING filter |
| AdminDashboard.ActiveCountExtremes | frontend/src/pages/AdminDashboard.jsx:51 | all items count exactly when every flag is true, and none counts exactly when none is; a null flag counts as inactive |
| AdminDashboard.RevenueAppend | frontend/src/pages/AdminDashboard.jsx:50 | revenue adds up over a split of the orders |
| AdminDashboard.RevenueOfInsert | frontend/src/pages/AdminDashboard.jsx:50 | inserting an order adds its amount to the revenue |
| AdminDashboard.RevenueOfSorted | frontend/src/pages/AdminDashboard.jsx:50 | the revenue of the newest-first list equals the revenue of the fetched one |
| AdminDashboard.Storage.GetItem | frontend/src/pages/AdminDashboard.jsx:27-28 | `getItem` answers the stored value, or null |
| AdminDashboard.Storage.RemoveItem | frontend/src/pages/AdminDashboard.jsx:65-66 | `removeItem` deletes exactly that key |
| AdminDashboard.DashboardPage.constructor | frontend/src/pages/AdminDashboard.jsx:17-24 | the page starts with no user and zero statistics |
| AdminDashboard.DashboardPage.Open | frontend/src/pages/AdminDashboard.jsx:26-59 | without a token and a user the page goes to login and keeps its state; otherwise it shows the user and the statistics of the fetched data |
| AdminDashboard.DashboardPage.HandleLogout | frontend/src/pages/AdminDashboard.jsx:65-67 | logout removes both session keys, keeps the rest, and makes the guard send the next visit to login |
| OrderRequest.IsValid | backend/src/main/java/com/moonlight/moonlightbackend/dto/CreateOrderRequest.java:9-17 | bean validation of a request; `OrderRequest.ValidMeans` states what it demands |
| OrderRequest.ItemDeclaredValid | backend/src/main/java/com/moonlight/moonlightbackend/dto/CreateOrderRequestItem.java:7-12 | the item's own declared constraints; `OrderRequest.InvalidItemPasses` shows they are not enforced |
| OrderRequest.ValidMeans | backend/src/main/java/com/moonlight/moonlightbackend/dto/CreateOrderRequest.java:9-17 | a request is valid exactly when it has a table of at least 1 and a non-empty item list |
| OrderRequest.ContactIsUnconstrained | backend/src/main/java/com/moonlight/moonlightbackend/dto/CreateOrderRequest.java:13-14 | the e-mail and phone never affect validity |
| OrderRequest.ItemsAreNotCascaded | backend/src/main/java/com/moonlight/moonlightbackend/dto/CreateOrderRequest.java:16-17 | the items' own constraints are not checked: any non-empty list is as valid as any other |
| OrderRequest.InvalidItemPasses | backend/src/main/java/com/moonlight/moonlightbackend/dto/CreateOrderRequestItem.java:7-12 | an item with no id and quantity -3 breaks its own constraints, yet a request holding it is valid |
| OrderRequest.ItemSetters | backend/src/main/java/com/moonlight/moonlightbackend/dto/CreateOrderRequestItem.java:14-18 | each setter changes its own field only |
| OrderWire.Received | backend/src/main/java/com/moonlight/moonlightbackend/dto/CreateOrderRequest.java:9-29 | a page's JSON payload reads as a request with the same table, contact and items |
| OrderWire.ItemsOf | backend/src/main/java/com/moonlight/moonlightbackend/dto/CreateOrderRequestItem.java:7-18 | each payload item reads as a request item with both fields present |
| OrderWire.CheckoutRequestValidity | frontend/src/pages/Checkout.jsx:39-70 | a request the checkout page sends is valid exactly when the table field parses to a number of at least 1 |
| OrderWire.ZeroTableGetsPastThePage | frontend/src/pages/Checkout.jsx:39-42 | a table of "0" (from a `?table=0` link) passes every check of the page's handler, and the request it sends is invalid |
| OrderWire.ReservationRequestIsValid | frontend/src/pages/TableReservation.jsx:49-80 | a request the reservation page sends for a grid table is always valid |
| MenuItemModel.PrePersisted | backend/src/main/java/com/moonlight/moonlightbackend/model/MenuItem.java:33-37 | a missing creation time becomes now and a missing flag becomes active; present values and every other field are kept |
| MenuItemModel.PrePersistIdempotent | backend/src/main/java/com/moonlight/moonlightbackend/model/MenuItem.java:33-37 | applying the defaults twice changes nothing more, and an inactive item stays inactive |
| MenuItemModel.MenuItem.constructor | backend/src/main/java/com/moonlight/moonlightbackend/model/MenuItem.java:15-31 | a new entity has only the `active = true` field initialiser set |
| MenuItemModel.MenuItem.Load | backend/src/main/java/com/moonlight/moonlightbackend/service/MenuItemService.java:45 | a loaded entity holds the stored row |
| MenuItemModel.MenuItem.PrePersist | backend/src/main/java/com/moonlight/moonlightbackend/model/MenuItem.java:33-37 | the entity's fields become `PrePersisted` of the old ones |
| MenuItemModel.MenuItem.SetName | backend/src/main/java/com/moonlight/moonlightbackend/model/MenuItem.java:42 | only the name changes |
| MenuItemModel.MenuItem.SetDescription | backend/src/main/java/com/moonlight/moonlightbackend/model/MenuItem.java:44 | only the description changes |
| MenuItemModel.MenuItem.SetPrice | backend/src/main/java/com/moonlight/moonlightbackend/model/MenuItem.java:46 | only the price changes |
| MenuItemModel.MenuItem.SetCategory | backend/src/main/java/com/moonlight/moonlightbackend/model/MenuItem.java:48 | only the category changes |
| MenuItemModel.MenuItem.SetActive | backend/src/main/java/com/moonlight/moonlightbackend/model/MenuItem.java:50 | only the flag changes |
| MenuItemModel.MenuItemRepository.constructor | backend/src/main/java/com/moonlight/moonlightbackend/service/MenuItemService.java:26-29 | the table starts empty |
| MenuItemModel.MenuItemRepository.FindById | backend/src/main/java/com/moonlight/moonlightbackend/service/MenuItemService.java:26-29 | the row under the id, or nothing |
| MenuItemModel.MenuItemRepository.FindAllById | backend/src/main/java/com/moonlight/moonlightbackend/service/OrderService.java:38-39 | every row found is stored under a requested id, and every stored row whose id was requested is found |
| MenuItemModel.MenuItemRepository.Save | backend/src/main/java/com/moonlight/moonlightbackend/service/MenuItemService.java:32-54 | a new entity gets the next id and its defaults; an existing one overwrites its row; a missing required column is refused |
| MenuItemModel.MenuItemRepository.Delete | backend/src/main/java/com/moonlight/moonlightbackend/service/MenuItemService.java:57-60 | exactly the row under the id goes |
| MenuItemService.Created | backend/src/main/java/com/moonlight/moonlightbackend/service/MenuItemService.java:32-41 | a new item copies the request and is active unless the request says otherwise |
| MenuItemService.Patched | backend/src/main/java/com/moonlight/moonlightbackend/service/MenuItemService.java:44-54 | each field given in the request replaces the stored one; absent fields, the id and the creation time stay |
| MenuItemService.PatchLaws | backend/src/main/java/com/moonlight/moonlightbackend/service/MenuItemService.java:44-54 | an empty request changes nothing, patching is idempotent, and a stored row stays a well-formed stored row |
| MenuItemService.Toggled | backend/src/main/java/com/moonlight/moonlightbackend/service/MenuItemService.java:63-67 | toggling flips the flag and changes nothing else |
| MenuItemService.ToggleTwice | backend/src/main/java/com/moonlight/moonlightbackend/service/MenuItemService.java:63-67 | toggling twice restores the item |
| MenuItemService.MenuItemService.GetMenuItemById | backend/src/main/java/com/moonlight/moonlightbackend/service/MenuItemService.java:26-29 | the stored item, or not-found for an unknown id |
| MenuItemService.MenuItemService.CreateMenuItem | backend/src/main/java/com/moonlight/moonlightbackend/service/MenuItemService.java:32-41 | the stored item is `Created` with its defaults under the next id; a missing required field is refused and stores nothing |
| MenuItemService.MenuItemService.UpdateMenuItem | backend/src/main/java/com/moonlight/moonlightbackend/service/MenuItemService.java:44-54 | an unknown id is not-found and stores nothing; otherwise the row becomes `Patched` |
| MenuItemService.MenuItemService.DeleteMenuItem | backend/src/main/java/com/moonlight/moonlightbackend/service/MenuItemService.java:57-60 | an unknown id is not-found; otherwise exactly that row goes |
| MenuItemService.MenuItemService.ToggleMenuItemStatus | backend/src/main/java/com/moonlight/moonlightbackend/service/MenuItemService.java:63-67 | an unknown id is not-found; otherwise the row becomes `Toggled` |
| OrderModel.OrderItem.constructor | backend/src/main/java/com/moonlight/moonlightbackend/service/OrderService.java:57 | a new line has no fields set and no order |
| OrderModel.OrderItem.SetLine | backend/src/main/java/com/moonlight/moonlightbackend/service/OrderService.java:58-61 | the line's menu item, name snapshot, unit price and quantity become the given ones |
| OrderModel.LinesOf | backend/src/main/java/com/moonlight/moonlightbackend/model/Order.java:36 | one line record per order item |
| OrderModel.PrePersisted | backend/src/main/java/com/moonlight/moonlightbackend/model/Order.java:38-43 | a missing creation time, status or total becomes now, "CREATED" or 0; present ones are kept |
| OrderModel.PrePersistIdempotent | backend/src/main/java/com/moonlight/moonlightbackend/model/Order.java:38-43 | applying the defaults twice changes nothing more |
| OrderModel.Order.constructor | backend/src/main/java/com/moonlight/moonlightbackend/model/Order.java:14-36 | a new order has only the field initialisers set: total 0, status CREATED, no items |
| OrderModel.Order.PrePersist | backend/src/main/java/com/moonlight/moonlightbackend/model/Order.java:38-43 | the stamped fields become `PrePersisted` of the old ones, and the rest stays |
| OrderModel.Order.AddItem | backend/src/main/java/com/moonlight/moonlightbackend/model/Order.java:45-48 | the item is appended and points back to this order, and nothing else changes |
| OrderModel.Order.SetTableNumber | backend/src/main/java/com/moonlight/moonlightbackend/model/Order.java:54 | only the table changes |
| OrderModel.Order.SetContact | backend/src/main/java/com/moonlight/moonlightbackend/model/Order.java:56-58 | only the e-mail and phone change |
| OrderModel.Order.SetTotalAndStatus | backend/src/main/java/com/moonlight/moonlightbackend/model/Order.java:60-62 | only the total and status change |
| OrderModel.OrderRepository.constructor | backend/src/main/java/com/moonlight/moonlightbackend/service/OrderService.java:67 | the table starts empty |
| OrderModel.OrderRepository.FindById | backend/src/main/java/com/moonlight/moonlightbackend/service/OrderService.java:71-74 | the row under the id, or nothing |
| OrderModel.OrderRepository.Insert | backend/src/main/java/com/moonlight/moonlightbackend/service/OrderService.java:67 | an order without a table is refused by the NOT NULL column; otherwise it is stored with its defaults under the next id, with its lines |
| OrderModel.OrderRepository.Update | backend/src/main/java/com/moonlight/moonlightbackend/controller/AdminOrderController.java:43 | exactly the row under the id is replaced |
| OrderModel.OrderRepository.FindAll | backend/src/main/java/com/moonlight/moonlightbackend/controller/AdminOrderController.java:23-25 | every stored order, each once |
| OrderService.Available | backend/src/main/java/com/moonlight/moonlightbackend/service/OrderService.java:50-53 | an item is available when it is stored and not flagged inactive; `OrderService.LineFor` states that exactly those are priced |
| OrderService.LineFor | backend/src/main/java/com/moonlight/moonlightbackend/service/OrderService.java:49-62 | a line is priced exactly when its item is stored and active and it has a quantity; the line then has a unit price and a quantity |
| OrderService.PriceItems | backend/src/main/java/com/moonlight/moonlightbackend/service/OrderService.java:48-63 | a successful pricing has one line per requested item |
| OrderService.Place | backend/src/main/java/com/moonlight/moonlightbackend/service/OrderService.java:31-68 | a placed order is not yet stored (no id, no creation time), has the request's table (at least 1) and contact, and has status PENDING |
| OrderService.PriceItemsSucceeds | backend/src/main/java/com/moonlight/moonlightbackend/service/OrderService.java:48-63 | pricing succeeds exactly when every item is available and has a quantity |
| OrderService.PriceItemsLines | backend/src/main/java/com/moonlight/moonlightbackend/service/OrderService.java:54-62 | line i carries item i's id and quantity and the stored item's name and price |
| OrderService.LinesTotalSnoc | backend/src/main/java/com/moonlight/moonlightbackend/service/OrderService.java:63 | the sum of the lines' costs (unit price times quantity) grows by each appended line's cost |
| OrderService.TotalIsSumOfLines | backend/src/main/java/com/moonlight/moonlightbackend/service/OrderService.java:54-64 | the order's total is the sum of its lines' totals |
| OrderService.RequestTotalSnoc | backend/src/main/java/com/moonlight/moonlightbackend/service/OrderService.java:54-55 | the request's price grows by each appended item's stored price times its quantity |
| OrderService.TotalIsPriceTimesQuantity | backend/src/main/java/com/moonlight/moonlightbackend/service/OrderService.java:48-64 | when every item is available, the total is the sum of stored price times quantity over the request |
| OrderService.PrefixFailureStays | backend/src/main/java/com/moonlight/moonlightbackend/service/OrderService.java:48-53 | once a prefix fails, the whole request fails with the same error |
| OrderService.ItemFails | backend/src/main/java/com/moonlight/moonlightbackend/service/OrderService.java:49-53 | the first failing item decides the error |
| OrderService.ItemSucceeds | backend/src/main/java/com/moonlight/moonlightbackend/service/OrderService.java:48-63 | a good item extends the priced prefix by its line |
| OrderService.PlaceChecks | backend/src/main/java/com/moonlight/moonlightbackend/service/OrderService.java:31-36 | a missing request or empty items is refused first, then a missing table; success means both checks passed and every item priced |
| OrderService.PriceItemsNeverEarly | backend/src/main/java/com/moonlight/moonlightbackend/service/OrderService.java:49-53 | a pricing failure names an item that is missing, inactive, or without a quantity |
| OrderService.ValidRequestPassesChecks | backend/src/main/java/com/moonlight/moonlightbackend/service/OrderService.java:31-36 | a request passes the service's own checks exactly when it passes bean validation |
| OrderService.UnavailableIsRefused | backend/src/main/java/com/moonlight/moonlightbackend/service/OrderService.java:49-53 | a request naming an unknown or inactive item is refused |
| OrderService.NegativeQuantityAccepted | backend/src/main/java/com/moonlight/moonlightbackend/service/OrderService.java:54-55 | a quantity of -2 of a 250-cent item is accepted and priced as a total of -500 |
| OrderService.IdsOf | backend/src/main/java/com/moonlight/moonlightbackend/service/OrderService.java:38 | the requested ids, item by item |
| OrderService.IndexById | backend/src/main/java/com/moonlight/moonlightbackend/service/OrderService.java:40-41 | the id map holds every found item and only stored rows |
| OrderService.BuildLine | backend/src/main/java/com/moonlight/moonlightbackend/service/OrderService.java:49-62 | the loop body prices one item as `LineFor` says |
| OrderService.FoundCoversRequest | backend/src/main/java/com/moonlight/moonlightbackend/service/OrderService.java:38-41 | every requested stored id is in the id map |
| OrderService.AppendLine | backend/src/main/java/com/moonlight/moonlightbackend/service/OrderService.java:57-62 | the order gains exactly one line and keeps its header |
| OrderService.AddLines | backend/src/main/java/com/moonlight/moonlightbackend/service/OrderService.java:48-63 | the loop fails as `PriceItems` fails, or returns its total with the order holding its lines |
| OrderService.OrderService.CreateOrder | backend/src/main/java/com/moonlight/moonlightbackend/service/OrderService.java:30-68 | a refused request stores nothing; an accepted one stores `Place`'s order under the next id, stamped now |
| OrderService.OrderService.Store | backend/src/main/java/com/moonlight/moonlightbackend/service/OrderService.java:64-67 | the order is saved as PENDING with its total and lines under the next id |
| OrderService.OrderService.GetOrder | backend/src/main/java/com/moonlight/moonlightbackend/service/OrderService.java:71-74 | the stored order, or not-found |
| AdminOrderController.AfterStatusUpdate | backend/src/main/java/com/moonlight/moonlightbackend/controller/AdminOrderController.java:40-44 | a body with a status replaces the status and nothing else; a body without one leaves the order as it is |
| AdminOrderController.UpdateKeepsStored | backend/src/main/java/com/moonlight/moonlightbackend/controller/AdminOrderController.java:36-47 | a stored order stays a well-formed stored order after any update |
| AdminOrderController.AnyStatusIsAccepted | backend/src/main/java/com/moonlight/moonlightbackend/controller/AdminOrderController.java:40-44 | any string is accepted as a status, including moving COMPLETED back to PENDING |
| AdminOrderController.Received | backend/src/main/java/com/moonlight/moonlightbackend/controller/AdminOrderController.java:37 | a JSON object of strings reads as the same keys with present values |
| AdminOrderController.BoardActionSetsNextStatus | frontend/src/pages/AdminOrders.jsx:36-41 | a board click sets the order to the next status the board offers, and changes nothing else |
| AdminOrderController.AdminOrderController.GetAllOrders | backend/src/main/java/com/moonlight/moonlightbackend/controller/AdminOrderController.java:23-25 | every stored order, each once |
| AdminOrderController.AdminOrderController.GetOrderById | backend/src/main/java/com/moonlight/moonlightbackend/controller/AdminOrderController.java:29-32 | the stored order, or not-found |
| AdminOrderController.AdminOrderController.UpdateOrderStatus | backend/src/main/java/com/moonlight/moonlightbackend/controller/AdminOrderController.java:36-47 | an unknown id is not-found and stores nothing; otherwise the answer is `AfterStatusUpdate`, which is stored, and a body without a status stores nothing |
| AdminService.Authenticated | backend/src/main/java/com/moonlight/moonlightbackend/service/AdminService.java:21-30 | sign-in succeeds exactly for an existing, active account with that password, and answers that account |
| AdminService.InactiveNeverAuthenticates | backend/src/main/java/com/moonlight/moonlightbackend/service/AdminService.java:23 | an inactive account never signs in |
| AdminService.NewAdmin | backend/src/main/java/com/moonlight/moonlightbackend/service/AdminService.java:44-52 | a new account is active, has role ADMIN, and keeps the given username and password |
| AdminService.CreateThenAuthenticate | backend/src/main/java/com/moonlight/moonlightbackend/service/AdminService.java:21-53 | a new account signs in with its own password and no other, and other accounts sign in as before |
| AdminService.AdminRepository.constructor | backend/src/main/java/com/moonlight/moonlightbackend/service/AdminService.java:52 | the table starts empty |
| AdminService.AdminRepository.FindByUsername | backend/src/main/java/com/moonlight/moonlightbackend/service/AdminService.java:22 | the account under the username, or nothing |
| AdminService.AdminRepository.ExistsByUsername | backend/src/main/java/com/moonlight/moonlightbackend/service/AdminService.java:40 | whether the username is taken |
| AdminService.AdminRepository.Insert | backend/src/main/java/com/moonlight/moonlightbackend/service/AdminService.java:52 | a new account is stored under its username with the next id |
| AdminService.AdminService.Authenticate | backend/src/main/java/com/moonlight/moonlightbackend/service/AdminService.java:21-30 | the answer is `Authenticated` of the stored accounts |
| AdminService.AdminService.CreateAdmin | backend/src/main/java/com/moonlight/moonlightbackend/service/AdminService.java:39-53 | a taken username is refused and stores nothing; otherwise `NewAdmin` is stored under the next id and can sign in at once |

## Left out

- HTTP, routing, navigation, toasts and rendering are not modelled. Fetched data and server
  responses are inputs to the model, and page handlers are modelled only on the step that
  renders them.
- JavaScript money is floating point; the model uses integer cents, with no rounding.
- Java widths, column lengths and database precision are not modelled: integers are unbounded.
- JPA and transactions are not modelled. Repositories are maps from id to row; a null id
  given to `findAllById` matches nothing.
- `Instant.now()` is the parameter `now`.
- Update and toggle pass an unused instant `0` to `Save`.
- `generateToken` is not modelled: it depends on the clock and Base64.
- `getAllMenuItems`, the thin controllers other than the admin order controller, the payment
  page, the admin menu page and the admin login page are not modelled.
- `OrderItem.java` and `Admin.java` are not part of this model. An order line is a record of
  its menu item's id, a snapshot of the item's name, the unit price and the quantity; no line
  total is stored. An admin's `active` flag is a plain boolean, and its stored password is a
  plain string.
- The admin user in storage is kept as the raw string; `JSON.parse` is not modelled.
- The login guard of the orders board (AdminOrders.jsx 14-21) is not modelled. The
  dashboard's guard is.
- The orders board sorts with `Array.prototype.sort` in place; the model sorts a sequence by
  stable insertion.
- The sort's comparator on an unparsable `createdAt` (NaN) is not modelled. Timestamps are
  integers.
- The menu fetch of the Place Order page is not modelled; the menu is an input.
- The QR-code table parameter (PlaceOrder.jsx 26-31) reaches the checkout form as the initial
  value given to `Checkout.InitialDetails`.
- `Checkout.ProceedToPayment`, `Checkout.HandleProceed` and `Checkout.WithField` model only
  the submit handler and the form state. The browser's own checks on the form are not
  modelled: `required` on e-mail, phone and table, `type="email"`, and `maxLength="10"` on the
  phone (Checkout.jsx 126-193). In the page, the browser usually stops an empty contact field
  or an unselected table before the handler's MissingContact and MissingTable branches run.
  `Checkout.PhoneWithinMaxLength` states what the phone limit leaves of the handler's test.
- Reservation card form: the `maxLength` of the card number (19), expiry (5) and CVV (4)
  inputs is not modelled, because the card values are never sent or checked further. Only
  their `required` check is modelled (`Reservation.CardComplete`).
- `AdminOrders.BadgeVariant` is weaker than the page for statuses that name a member that
  every JavaScript object inherits, such as "constructor", "toString", "valueOf" or
  "__proto__". There `variants[status]` is an inherited function or object, which is truthy,
  so the badge gets that value instead of "default". The model looks up only the object's own
  four keys. The status controller stores any string, so such statuses can reach the board.
- DTO getters and setters are modelled as datatype updates.
- The failure branch of `Insert` inside `OrderService.Store` cannot happen, because the
  table is set before saving. The model asserts that it cannot happen.
