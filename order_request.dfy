/** The order-creation request body (backend/.../dto/CreateOrderRequest.java and
    CreateOrderRequestItem.java) and the validity its constraint annotations declare. Bean
    validation runs on the request because the controller's parameter carries `@Valid`; the
    `items` list itself carries no `@Valid`, so the constraints declared on each item are never
    checked. */
module OrderRequest {
  import opened Wrappers

  /** `CreateOrderRequestItem`: both fields are boxed and may be null. */
  datatype RequestItem = RequestItem(menuItemId: Option<int>, quantity: Option<int>)

  /** `CreateOrderRequest`. */
  datatype CreateOrderRequest = CreateOrderRequest(
    tableNumber: Option<int>, email: Option<string>, phone: Option<string>, items: Option<seq<RequestItem>>)

  /** `@Min(1)`: a null value passes, as Bean Validation prescribes; only `@NotNull` rejects it. */
  predicate AtLeastOne(v: Option<int>) {
    v.None? || v.value >= 1
  }

  /** The constraints declared on an item: `@NotNull menuItemId`, `@NotNull @Min(1) quantity`. */
  predicate ItemDeclaredValid(it: RequestItem) {
    it.menuItemId.Some? && it.quantity.Some? && AtLeastOne(it.quantity)
  }

  /** What `@Valid` checks on a request: `@NotNull @Min(1) tableNumber` and `@NotEmpty items`;
      `email` and `phone` carry no constraint, and the items are not descended into. */
  predicate IsValid(req: CreateOrderRequest) {
    req.tableNumber.Some? && AtLeastOne(req.tableNumber) && req.items.Some? && |req.items.value| > 0
  }

  /** Validity pins down the table and the item list and nothing else. */
  lemma ValidMeans(req: CreateOrderRequest)
    ensures IsValid(req) <==> (req.tableNumber.Some? && req.tableNumber.value >= 1 && req.items.Some? && req.items.value != [])
  {
  }

  /** The contact details never matter: null, empty or anything else. */
  lemma ContactIsUnconstrained(req: CreateOrderRequest, email: Option<string>, phone: Option<string>)
    ensures IsValid(req.(email := email, phone := phone)) == IsValid(req)
  {
  }

  /** The items are not descended into: any list of the same length, whatever its elements,
      gives the same verdict. */
  lemma ItemsAreNotCascaded(req: CreateOrderRequest, items: seq<RequestItem>)
    requires req.items.Some? && |items| == |req.items.value|
    ensures IsValid(req.(items := Some(items))) == IsValid(req)
  {
  }

  /** A request the annotations let through although its only item breaks every constraint
      declared on items. */
  lemma InvalidItemPasses()
    ensures var it := RequestItem(None, Some(-3));
            var req := CreateOrderRequest(Some(4), None, None, Some([it]));
            IsValid(req) && !ItemDeclaredValid(it)
  {
  }

  /** The item's setters: each stores its value and leaves the other field as it was. */
  lemma ItemSetters(it: RequestItem, id: Option<int>, q: Option<int>)
    ensures it.(menuItemId := id).menuItemId == id && it.(menuItemId := id).quantity == it.quantity
    ensures it.(quantity := q).quantity == q && it.(quantity := q).menuItemId == it.menuItemId
  {
  }
}
