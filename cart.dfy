/**
 * The cart page script: the badge count, the item image, the quantity
 * stepper and typed-quantity clamping, and the handling of the responses to
 * `/api/cart` and `/api/cart/update`.
 */
module Cart {
  import opened Wrappers
  import opened Http
  import JsText

  /** One entry of the `items` array of `GET /api/cart` (prices and titles are not modelled). */
  datatype CartItem = CartItem(
    bookId: string,
    quantity: int,
    maxQuantity: Option<int>,
    imageUrl: Option<string>,
    imageBase64: Option<string>)

  datatype CartBody = CartBody(items: Option<seq<CartItem>>)

  // ---------------------------------------------------------------- badge

  /** `items.reduce((sum, item) => sum + item.quantity, 0)`, a left fold. */
  function CartCount(items: seq<CartItem>): int {
    if items == [] then 0 else CartCount(items[..|items| - 1]) + items[|items| - 1].quantity
  }

  lemma {:induction false} CartCountAppend(a: seq<CartItem>, b: seq<CartItem>)
    ensures CartCount(a + b) == CartCount(a) + CartCount(b)
  {
    if b == [] {
      assert a + b == a;
    } else {
      assert (a + b)[..|a + b| - 1] == a + b[..|b| - 1];
      CartCountAppend(a, b[..|b| - 1]);
    }
  }

  /** The count is the sum of the quantities, whatever the order of the fold. */
  lemma {:induction false} CartCountFirst(items: seq<CartItem>)
    requires items != []
    ensures CartCount(items) == items[0].quantity + CartCount(items[1..])
  {
    assert items == [items[0]] + items[1..];
    CartCountAppend([items[0]], items[1..]);
    assert [items[0]][..0] == [];
  }

  /** With server-side quantities of at least 1, the count is at least the number of lines. */
  lemma {:induction false} CartCountAtLeastLines(items: seq<CartItem>)
    requires forall i :: 0 <= i < |items| ==> items[i].quantity >= 1
    ensures CartCount(items) >= |items|
  {
    if items != [] {
      CartCountAtLeastLines(items[..|items| - 1]);
    }
  }

  datatype Badge = Badge(count: Option<int>, visible: bool)

  /**
   * `updateCartFab`: an OK response writes the count and shows the badge only
   * for a positive count; any failure hides it (`items.reduce` on a missing
   * list throws, and the catch hides it).
   */
  function FabBadge(resp: Response<CartBody>): (b: Badge)
    ensures b.visible <==> (resp.Response? && IsOk(resp.status) && resp.body.Some?
      && resp.body.value.items.Some? && CartCount(resp.body.value.items.value) > 0)
    ensures b.count.Some? <==> (resp.Response? && IsOk(resp.status) && resp.body.Some? && resp.body.value.items.Some?)
    ensures b.count.Some? ==> b.count.value == CartCount(resp.body.value.items.value)
  {
    if resp.Response? && IsOk(resp.status) && resp.body.Some? && resp.body.value.items.Some? then
      var count := CartCount(resp.body.value.items.value);
      Badge(Some(count), count > 0)
    else Badge(None, false)
  }

  /** With quantities of at least 1, the badge shows exactly when the cart has a line. */
  lemma BadgeShownIffNonEmpty(items: seq<CartItem>, status: int)
    requires IsOk(status)
    requires forall i :: 0 <= i < |items| ==> items[i].quantity >= 1
    ensures FabBadge(Response(status, Some(CartBody(Some(items))))).visible <==> items != []
  {
    CartCountAtLeastLines(items);
  }

  // ---------------------------------------------------------------- image

  const DataUrlPrefix: string := "data:image/jpeg;base64,"
  const Placeholder: string := "/wwwroot/img/book-placeholder.png"

  /** `getBookImageSrc`: the URL if present, else a JPEG data URL of the stored image, else the placeholder. */
  function ImageSrc(item: CartItem): (src: string)
    ensures Truthy(item.imageUrl) ==> src == item.imageUrl.value
    ensures !Truthy(item.imageUrl) && Truthy(item.imageBase64) ==>
      (|src| > |DataUrlPrefix| && src[..|DataUrlPrefix|] == DataUrlPrefix && src[|DataUrlPrefix|..] == item.imageBase64.value)
    ensures !Truthy(item.imageUrl) && !Truthy(item.imageBase64) ==> src == Placeholder
  {
    if Truthy(item.imageUrl) then item.imageUrl.value
    else if Truthy(item.imageBase64) then DataUrlPrefix + item.imageBase64.value
    else Placeholder
  }

  // ---------------------------------------------------------------- stepper

  const DefaultMax: int := 99

  /** The `max` attribute of the quantity input: `item.maxQuantity || 99`, as text. */
  function MaxAttribute(maxQuantity: Option<int>): string {
    JsText.Decimal(if maxQuantity.Some? && maxQuantity.value != 0 then maxQuantity.value else DefaultMax)
  }

  /** `parseInt(input.max)` reads the limit back: an absent or zero `maxQuantity` means 99. */
  lemma MaxAttributeReadsBack(maxQuantity: Option<int>)
    ensures JsText.ParseInt(MaxAttribute(maxQuantity))
      == Some(if maxQuantity.Some? && maxQuantity.value != 0 then maxQuantity.value else DefaultMax)
    ensures 'x' !in MaxAttribute(maxQuantity) && 'X' !in MaxAttribute(maxQuantity)
  {
    JsText.ParseIntDecimal(if maxQuantity.Some? && maxQuantity.value != 0 then maxQuantity.value else DefaultMax, []);
    assert MaxAttribute(maxQuantity) + [] == MaxAttribute(maxQuantity);
  }

  /** `parseInt(input.value, 10) || 1`: NaN and zero read as 1. */
  function TypedQuantity(value: string): (q: int)
    ensures q != 0
    ensures match JsText.ParseInt(value)
      case None => q == 1
      case Some(n) => q == (if n == 0 then 1 else n)
  {
    match JsText.ParseInt(value)
    case None => 1
    case Some(n) => if n == 0 then 1 else n
  }

  datatype Action = Decrement | Increment

  /**
   * The quantity a `-` or `+` click requests: `Math.max(1, qty - 1)` or
   * `Math.min(parseInt(input.max), qty + 1)`; `None` is NaN (an unreadable `max`).
   */
  function StepperRequest(action: Action, value: string, maxAttr: string): (r: Option<int>)
    ensures action == Decrement ==> (r.Some? && r.value >= 1
      && (r.value == 1 || r.value == TypedQuantity(value) - 1)
      && (TypedQuantity(value) >= 2 ==> r.value == TypedQuantity(value) - 1))
    ensures action == Increment ==> (r.Some? <==> JsText.ParseInt(maxAttr).Some?)
    ensures action == Increment && r.Some? ==> (r.value <= JsText.ParseInt(maxAttr).value
      && r.value <= TypedQuantity(value) + 1
      && (r.value == JsText.ParseInt(maxAttr).value || r.value == TypedQuantity(value) + 1)
      && (TypedQuantity(value) < JsText.ParseInt(maxAttr).value ==> r.value == TypedQuantity(value) + 1))
  {
    var qty := TypedQuantity(value);
    match action
    case Decrement => Some(if qty - 1 > 1 then qty - 1 else 1)
    case Increment =>
      match JsText.ParseInt(maxAttr)
      case None => None
      case Some(max) => Some(if max < qty + 1 then max else qty + 1)
  }

  /** The quantity a typed change requests: `Math.max(1, parseInt(input.value, 10) || 1)`. */
  function TypedRequest(value: string): (q: int)
    ensures q >= 1
    ensures JsText.ParseInt(value).Some? && JsText.ParseInt(value).value >= 1 ==> q == JsText.ParseInt(value).value
    ensures JsText.ParseInt(value).None? || JsText.ParseInt(value).value < 1 ==> q == 1
  {
    var qty := TypedQuantity(value);
    if qty > 1 then qty else 1
  }

  /** An input holding the decimal form of a non-zero `n` reads as `n`. */
  lemma TypedDecimal(n: int)
    ensures JsText.ParseInt(JsText.Decimal(n)) == Some(n)
    ensures n != 0 ==> TypedQuantity(JsText.Decimal(n)) == n
  {
    JsText.ParseIntDecimal(n, []);
    assert JsText.Decimal(n) + [] == JsText.Decimal(n);
  }

  /**
   * Stepping up and then down, each time from the re-rendered input, comes
   * back to where it started: for 1 <= q < max the two clicks are inverse.
   */
  lemma StepUpThenDown(q: int, maxQuantity: Option<int>)
    requires q >= 1
    requires q < (if maxQuantity.Some? && maxQuantity.value != 0 then maxQuantity.value else DefaultMax)
    ensures StepperRequest(Increment, JsText.Decimal(q), MaxAttribute(maxQuantity)) == Some(q + 1)
    ensures StepperRequest(Decrement, JsText.Decimal(q + 1), MaxAttribute(maxQuantity)) == Some(q)
  {
    MaxAttributeReadsBack(maxQuantity);
    TypedDecimal(q);
    TypedDecimal(q + 1);
  }

  /** The stepper never asks for less than 1, nor for more than the input's limit. */
  lemma StepperStaysInBounds(action: Action, value: string, maxQuantity: Option<int>)
    requires maxQuantity.Some? && maxQuantity.value != 0 ==> maxQuantity.value >= 1
    requires 1 <= TypedQuantity(value)
    ensures StepperRequest(action, value, MaxAttribute(maxQuantity)).Some?
    ensures var r := StepperRequest(action, value, MaxAttribute(maxQuantity)).value;
      1 <= r <= (if maxQuantity.Some? && maxQuantity.value != 0 then maxQuantity.value else DefaultMax)
        || (action == Decrement && r == TypedQuantity(value) - 1)
  {
    MaxAttributeReadsBack(maxQuantity);
  }

  // ---------------------------------------------------------------- update

  /** The body of `POST /api/cart/update`: the item's `data-id` and the requested quantity. */
  datatype UpdateRequest = UpdateRequest(bookId: string, quantity: int)

  datatype ErrorBody = ErrorBody(error: Option<string>)

  datatype UpdateOutcome =
    | Updated          // toast "Cart updated" and reload the cart
    | LoginRequired    // open the login modal
    | Rejected(message: string, inputValue: string)

  /**
   * `updateItemQuantity` after its request: success reloads, 401/403 asks for
   * a login, anything else shows the server's error (or a fallback) and puts
   * 1 back into the input.
   */
  function UpdateResult(resp: Response<ErrorBody>): (o: UpdateOutcome)
    ensures o.Updated? <==> resp.Response? && IsOk(resp.status)
    ensures o.LoginRequired? <==> resp.Response? && IsAuthError(resp.status)
    ensures o.Rejected? ==> o.inputValue == "1"
    ensures o.Rejected? && resp.Response? && resp.body.Some? ==>
      o.message == OrElse(resp.body.value.error, "Error updating cart")
    ensures o.Rejected? && (resp.NetworkError? || resp.body.None?) ==> o.message == "Could not update cart"
  {
    match resp
    case NetworkError => Rejected("Could not update cart", "1")
    case Response(status, body) =>
      if IsOk(status) then Updated
      else if IsAuthError(status) then LoginRequired
      else match body
        case None => Rejected("Could not update cart", "1")
        case Some(b) => Rejected(OrElse(b.error, "Error updating cart"), "1")
  }

  // ---------------------------------------------------------------- page

  /** One rendered cart line: where its stepper starts and what it links to. */
  datatype Line = Line(bookId: string, imageSrc: string, value: string, maxAttr: string)

  datatype CartPage = CartPage(
    errorShown: bool,
    emptyShown: bool,
    loginPrompt: bool,
    lines: seq<Line>,
    summaryShown: bool,
    clearShown: bool,
    checkoutShown: bool)

  function LineOf(item: CartItem): Line {
    Line(item.bookId, ImageSrc(item), JsText.Decimal(item.quantity), MaxAttribute(item.maxQuantity))
  }

  function Lines(items: seq<CartItem>): (ls: seq<Line>)
    ensures |ls| == |items| && forall i :: 0 <= i < |items| ==> ls[i] == LineOf(items[i])
  {
    if items == [] then [] else [LineOf(items[0])] + Lines(items[1..])
  }

  const Blank: CartPage := CartPage(false, false, false, [], false, false, false)

  /**
   * `loadCart` after `GET /api/cart`: the login modal on 401/403, the error
   * panel on any other failure, the empty state alone for a missing or empty
   * list, and otherwise one line per item with the total and both buttons.
   */
  function LoadCart(resp: Response<CartBody>): (p: CartPage)
    ensures p.loginPrompt <==> resp.Response? && IsAuthError(resp.status)
    ensures p.emptyShown <==> (resp.Response? && IsOk(resp.status) && resp.body.Some?
      && (resp.body.value.items.None? || resp.body.value.items.value == []))
    ensures p.emptyShown || p.errorShown || p.loginPrompt ==>
      p.lines == [] && !p.summaryShown && !p.clearShown && !p.checkoutShown
    ensures p.lines != [] <==> p.clearShown
    ensures p.clearShown <==> p.checkoutShown && p.summaryShown
    ensures p.lines != [] ==> (resp.Response? && resp.body.Some? && resp.body.value.items.Some?
      && p.lines == Lines(resp.body.value.items.value))
    ensures p.errorShown <==> (resp.NetworkError?
      || (!IsAuthError(resp.status) && (!IsOk(resp.status) || resp.body.None?)))
    ensures (resp.Response? && IsOk(resp.status) && resp.body.Some? && resp.body.value.items.Some?
      && resp.body.value.items.value != []) ==>
      p.lines == Lines(resp.body.value.items.value) && p.summaryShown && p.clearShown && p.checkoutShown
      && !p.errorShown && !p.emptyShown && !p.loginPrompt
  {
    match resp
    case NetworkError => Blank.(errorShown := true)
    case Response(status, body) =>
      if IsAuthError(status) then Blank.(loginPrompt := true)
      else if !IsOk(status) || body.None? then Blank.(errorShown := true)
      else match body.value.items
        case None => Blank.(emptyShown := true)
        case Some(items) =>
          if items == [] then Blank.(emptyShown := true)
          else CartPage(false, false, false, Lines(items), true, true, true)
  }

  /** Every stepper starts from its item's quantity (a zero quantity reads as 1). */
  lemma LineStartsAtQuantity(item: CartItem)
    ensures TypedQuantity(LineOf(item).value) == if item.quantity == 0 then 1 else item.quantity
  {
    TypedDecimal(item.quantity);
  }
}
