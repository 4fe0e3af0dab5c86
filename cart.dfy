/**
 The cart page: the subtotal of the cart, the order request built from the
 cart and the checkout form, and the checkout handler's state machine over
 `loading`, `orderId`, `error` and the cart. The order service is reached only
 through an abstract response value.
 */
module Cart {
  import opened Wrappers
  import opened Customization

  /** `items.reduce((sum, i) => sum + i.finalLinePrice, sum)`: a left fold. */
  function Reduce(sum: int, items: seq<LineItem>): int
    decreases |items|
  {
    if items == [] then sum else Reduce(sum + items[0].finalLinePrice, items[1..])
  }

  /** The sum of the line prices, as a reference definition. */
  function Sum(items: seq<LineItem>): int {
    if items == [] then 0 else items[0].finalLinePrice + Sum(items[1..])
  }

  lemma {:induction false} ReduceIsSum(sum: int, items: seq<LineItem>)
    ensures Reduce(sum, items) == sum + Sum(items)
    decreases |items|
  {
    if items != [] {
      ReduceIsSum(sum + items[0].finalLinePrice, items[1..]);
    }
  }

  /** The subtotal shown on the page: the sum of every line's price, 0 for an empty cart. */
  function Subtotal(items: seq<LineItem>): (r: int)
    ensures r == Sum(items)
    ensures items == [] ==> r == 0
  {
    ReduceIsSum(0, items);
    Reduce(0, items)
  }

  /** The subtotal of two carts placed one after the other is the sum of their subtotals. */
  lemma {:induction false} SumAppend(a: seq<LineItem>, b: seq<LineItem>)
    ensures Sum(a + b) == Sum(a) + Sum(b)
  {
    if a == [] {
      assert a + b == b;
    } else {
      assert (a + b)[1..] == a[1..] + b;
      SumAppend(a[1..], b);
    }
  }

  /** Lines with non-negative prices give a non-negative subtotal. */
  lemma {:induction false} SumNonNegative(items: seq<LineItem>)
    requires forall i :: 0 <= i < |items| ==> items[i].finalLinePrice >= 0
    ensures Sum(items) >= 0
  {
    if items != [] {
      assert forall i :: 0 <= i < |items[1..]| ==> items[1..][i] == items[i + 1];
      SumNonNegative(items[1..]);
    }
  }

  /** Two lines at 7.00 and 3.50 make 10.50; the emptied cart makes 0. */
  lemma SubtotalExample(a: LineItem, b: LineItem)
    requires a.finalLinePrice == 700 && b.finalLinePrice == 350
    ensures Subtotal([a, b]) == 1050 && Subtotal([]) == 0
  {
    assert [a, b][1..] == [b];
    assert [b][1..] == [];
    assert Sum([b]) == 350;
  }

  datatype Fulfillment = Pickup | Delivery | DineIn

  /** The value of the order-type select. */
  function FulfillmentTag(f: Fulfillment): string {
    match f
    case Pickup => "pickup"
    case Delivery => "delivery"
    case DineIn => "dine-in"
  }

  /** The checkout form's fields as read by the handler. */
  datatype CheckoutForm = CheckoutForm(
    kind: Fulfillment,
    name: string,
    phone: string,
    email: string,
    address: string,
    notes: string)

  /** One line as it goes to the order service; the cart line's key is not sent. */
  datatype WireItem = WireItem(itemId: string, name: string, quantity: int, price: int, notes: Option<string>)

  /** The body of the order request; an absent `address` is left out of the JSON. */
  datatype OrderRequest = OrderRequest(
    kind: string,
    name: string,
    phone: string,
    email: string,
    address: Option<string>,
    notes: string,
    items: seq<WireItem>)

  /** `items.map(...)`: one wire item per cart line, in cart order, carrying the
      line's item id, name, quantity, notes, and its line price as `price`. */
  function WireItems(items: seq<LineItem>): (r: seq<WireItem>)
    ensures |r| == |items|
    ensures forall i :: 0 <= i < |items| ==>
      r[i].itemId == items[i].itemId && r[i].name == items[i].name &&
      r[i].quantity == items[i].quantity && r[i].price == items[i].finalLinePrice &&
      r[i].notes == items[i].notes
  {
    if items == [] then []
    else
      [WireItem(items[0].itemId, items[0].name, items[0].quantity, items[0].finalLinePrice, items[0].notes)]
      + WireItems(items[1..])
  }

  function WireTotal(items: seq<WireItem>): int {
    if items == [] then 0 else items[0].price + WireTotal(items[1..])
  }

  /** The prices sent to the order service add up to the subtotal on the page. */
  lemma {:induction false} WireTotalIsSubtotal(items: seq<LineItem>)
    ensures WireTotal(WireItems(items)) == Subtotal(items)
  {
    if items != [] {
      WireTotalIsSubtotal(items[1..]);
      assert WireItems(items)[1..] == WireItems(items[1..]);
    }
  }

  /** The order request: the form's fields as typed, the address only for
      delivery, and the cart's lines in wire shape. */
  function BuildRequest(form: CheckoutForm, items: seq<LineItem>): (r: OrderRequest)
    ensures r.address.Some? <==> form.kind == Delivery
    ensures r.address.Some? ==> r.address.value == form.address
    ensures r.kind == FulfillmentTag(form.kind) && r.items == WireItems(items)
    ensures r.name == form.name && r.phone == form.phone && r.email == form.email && r.notes == form.notes
  {
    OrderRequest(
      kind := FulfillmentTag(form.kind),
      name := form.name,
      phone := form.phone,
      email := form.email,
      address := if FulfillmentTag(form.kind) == "delivery" then Some(form.address) else None,
      notes := form.notes,
      items := WireItems(items))
  }

  /** For pickup and dine-in the address field's text never reaches the request. */
  lemma AddressIgnoredUnlessDelivery(f: CheckoutForm, g: CheckoutForm, items: seq<LineItem>)
    requires f.kind != Delivery && g == f.(address := g.address)
    ensures BuildRequest(f, items) == BuildRequest(g, items)
  {
  }

  /** What the order service answered: `res.ok`, and `data.error`, `data.id` of its body. */
  datatype Response = Response(ok: bool, error: Option<string>, id: string)

  const EmptyCartMessage := "Your cart is empty."
  const FallbackMessage := "Failed to place order"

  /** `data.error || "Failed to place order"`: the service's message when it sent
      a non-empty one, the fallback otherwise; never empty. */
  function FailureMessage(resp: Response): (r: string)
    ensures r != []
    ensures resp.error.Some? && resp.error.value != [] ==> r == resp.error.value
    ensures resp.error.None? || resp.error.value == [] ==> r == FallbackMessage
  {
    match resp.error
    case Some(m) => if m != [] then m else FallbackMessage
    case None => FallbackMessage
  }

  /** The page's state: the cart's lines and the three state cells. */
  datatype PageState = PageState(
    items: seq<LineItem>,
    loading: bool,
    orderId: Option<string>,
    error: Option<string>)

  /** The state after the handler has run up to the request, and the request sent, if any. */
  datatype Submission = Submission(state: PageState, request: Option<OrderRequest>)

  /** The handler up to the request: clear `error` and `orderId`; stop with the
      empty-cart message when the cart is empty; otherwise set `loading` and send
      the request built from the form and the cart. */
  function Submit(s: PageState, form: CheckoutForm): (r: Submission)
    ensures r.state.orderId == None && r.state.items == s.items
    ensures r.request.Some? <==> s.items != []
    ensures s.items == [] ==> r.state.error == Some(EmptyCartMessage) && r.state.loading == s.loading
    ensures s.items != [] ==>
      r.state.error == None && r.state.loading && r.request == Some(BuildRequest(form, s.items))
  {
    var cleared := s.(error := None, orderId := None);
    if |s.items| == 0 then Submission(cleared.(error := Some(EmptyCartMessage)), None)
    else Submission(cleared.(loading := true), Some(BuildRequest(form, s.items)))
  }

  /** The handler after the response: `loading` is cleared; a failure sets the
      error and keeps the cart; a success empties the cart and records the order id. */
  function Settle(s: PageState, resp: Response): (r: PageState)
    ensures !r.loading
    ensures resp.ok ==> r.items == [] && r.orderId == Some(resp.id) && r.error == s.error
    ensures !resp.ok ==> r.items == s.items && r.orderId == s.orderId && r.error == Some(FailureMessage(resp))
  {
    var done := s.(loading := false);
    if !resp.ok then done.(error := Some(FailureMessage(resp)))
    else done.(items := [], orderId := Some(resp.id))
  }

  /** `disabled={loading || items.length === 0}`, negated. */
  function SubmitEnabled(s: PageState): bool {
    !s.loading && s.items != []
  }

  /** With an empty cart only the two messages change: no request, the cart
      and `loading` as they were. */
  lemma EmptyCartGuard(s: PageState, form: CheckoutForm)
    requires s.items == []
    ensures Submit(s, form) == Submission(s.(orderId := None, error := Some(EmptyCartMessage)), None)
  {
  }

  /** Once a checkout has started the button is disabled, so at most one request
      is outstanding. */
  lemma SubmitDisablesButton(s: PageState, form: CheckoutForm)
    ensures !SubmitEnabled(Submit(s, form).state)
  {
  }

  /** After the response the button is enabled exactly when the cart is kept:
      a failed order can be retried at once, a placed one cannot be placed twice. */
  lemma ButtonAfterResponse(s: PageState, form: CheckoutForm, resp: Response)
    requires s.items != []
    ensures SubmitEnabled(Settle(Submit(s, form).state, resp)) <==> !resp.ok
  {
  }

  /** A whole checkout of a non-empty cart: success empties the cart and shows
      the order id with no error; failure keeps the cart, shows the message and
      no order id; so exactly one of order id and error is set, and the cart is
      emptied only on success. */
  lemma CheckoutOutcome(s: PageState, form: CheckoutForm, resp: Response)
    requires s.items != []
    ensures var t := Settle(Submit(s, form).state, resp);
      !t.loading &&
      (t.orderId.Some? <==> t.error.None?) &&
      (t.items == [] || t.items == s.items) &&
      (resp.ok ==> t.items == [] && t.orderId == Some(resp.id) && t.error == None) &&
      (!resp.ok ==> t.items == s.items && t.orderId == None && t.error == Some(FailureMessage(resp)))
  {
  }

  /** The cart page's state cells and its checkout handler, split at the `await`. */
  class CartPage {
    var items: seq<LineItem>
    var loading: bool
    var orderId: Option<string>
    var error: Option<string>

    function State(): PageState
      reads this
    {
      PageState(items, loading, orderId, error)
    }

    /** The page opens on the store's lines with no request, order id or error. */
    constructor (items: seq<LineItem>)
      ensures State() == PageState(items, false, None, None)
    {
      this.items := items;
      loading := false;
      orderId, error := None, None;
    }

    /** The handler up to the request it sends, if any. */
    method HandleCheckout(form: CheckoutForm) returns (request: Option<OrderRequest>)
      modifies this
      ensures Submission(State(), request) == Submit(old(State()), form)
    {
      error := None;
      orderId := None;
      if |items| == 0 {
        error := Some(EmptyCartMessage);
        return None;
      }
      loading := true;
      request := Some(BuildRequest(form, items));
    }

    /** The rest of the handler, once the response has arrived. */
    method OnResponse(resp: Response)
      modifies this
      ensures State() == Settle(old(State()), resp)
    {
      loading := false;
      if !resp.ok {
        error := Some(FailureMessage(resp));
        return;
      }
      items := [];
      orderId := Some(resp.id);
    }
  }
}
