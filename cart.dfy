/** The cart screen: the stock status of each cart line and whether checkout
    may proceed, the quantity stepper of a line with its remaining headroom,
    the `Quantity` attribute rewrite of a line update, the line list sent to
    checkout, and the routing of a confirmed order. */
module Cart {
  import opened Common
  import opened Types

  // ---------------------------------------------------------------------------
  // Stock classification (`checkQuantityAvailable`)

  /** A line checkout accepts: its variant is in stock and the line asks for
      no more than the stock. */
  predicate LineFits(line: CartLine) {
    line.quantityAvailable > 0 && line.quantity <= line.quantityAvailable
  }

  /** Every line fits. */
  predicate AllFit(lines: seq<CartLine>) {
    forall i :: 0 <= i < |lines| ==> LineFits(lines[i])
  }

  /** The status `checkQuantityAvailable` writes into a line. */
  function StatusFor(line: CartLine): Status {
    if line.quantityAvailable <= 0 then OutOfStock
    else if line.quantity > line.quantityAvailable then LessQuantity
    else Available
  }

  /** The lines as `checkQuantityAvailable` leaves them: each keeps its place
      and everything but its status, and gets exactly one status: out of
      stock without stock, less quantity when it asks for more than the
      stock, available otherwise. */
  function Classified(lines: seq<CartLine>): (r: seq<CartLine>)
    ensures |r| == |lines|
    ensures forall i :: 0 <= i < |lines| ==> r[i].(status := lines[i].status) == lines[i]
    ensures forall i :: 0 <= i < |lines| ==>
      (r[i].status == Some(OutOfStock) <==> lines[i].quantityAvailable <= 0)
      && (r[i].status == Some(LessQuantity) <==> 0 < lines[i].quantityAvailable < lines[i].quantity)
      && (r[i].status == Some(Available) <==> LineFits(lines[i]))
      && r[i].status.Some?
  {
    seq(|lines|, i requires 0 <= i < |lines| => lines[i].(status := Some(StatusFor(lines[i]))))
  }

  /** The `filter` pass of `checkQuantityAvailable`: writes each line's status
      and clears the checkout flag on every line that does not fit. Checkout
      stays allowed exactly when every line comes out available, so an empty
      list allows it. */
  method ClassifyLines(arr: seq<CartLine>) returns (temp: seq<CartLine>, isCheckout: bool)
    ensures temp == Classified(arr)
    ensures isCheckout <==> AllFit(arr)
    ensures isCheckout <==> forall i :: 0 <= i < |temp| ==> temp[i].status == Some(Available)
  {
    temp := [];
    isCheckout := true;
    var i := 0;
    while i < |arr|
      invariant 0 <= i <= |arr| && |temp| == i
      invariant forall k :: 0 <= k < i ==> temp[k] == arr[k].(status := Some(StatusFor(arr[k])))
      invariant isCheckout <==> forall k :: 0 <= k < i ==> LineFits(arr[k])
    {
      var dic := arr[i];
      if dic.quantityAvailable <= 0 {
        dic := dic.(status := Some(OutOfStock));
        isCheckout := false;
      } else if dic.quantity > dic.quantityAvailable {
        dic := dic.(status := Some(LessQuantity));
        isCheckout := false;
      } else {
        dic := dic.(status := Some(Available));
      }
      temp := temp + [dic];
      i := i + 1;
    }
    assert temp == Classified(arr);
  }

  // ---------------------------------------------------------------------------
  // The quantity stepper (`actionQuantityView`, `actionUpdateQuantity`)

  /** The stepper's quantity and its remaining headroom `qtyToPass`
      (None for undefined). */
  datatype Stepper = Stepper(quantity: int, qtyToPass: Option<int>)

  /** The stock of the line the stepper edits, 0 with none selected. */
  function SelectedStock(item: Option<CartLine>): int {
    if item.Some? then item.value.quantityAvailable else 0
  }

  /** The stepper as opening it on a line leaves it: the requested quantity,
      and the headroom left in stock, undefined when the request already
      exceeds the stock. */
  function Opened(available: int, requested: int): (r: Stepper)
    ensures r.quantity == requested
    ensures requested <= available ==> Balanced(r, available)
    ensures requested > available ==> r.qtyToPass.None?
  {
    if requested > available then Stepper(requested, None) else Stepper(requested, Some(available - requested))
  }

  /** One tap: plus adds one (with inventory tracking only below the stock)
      and spends one unit of a defined headroom; minus, above 1, takes one
      off and zeroes the headroom when the quantity is still at or above the
      stock, or gives one unit back to a defined headroom. */
  function Step(s: Stepper, available: int, tracking: bool, plus: bool): (r: Stepper)
    ensures s.quantity >= 1 ==> r.quantity >= 1
    ensures tracking && s.quantity <= available ==> r.quantity <= available
    ensures tracking && Balanced(s, available) ==> Balanced(r, available)
  {
    if plus then
      if !tracking || s.quantity < available then
        Stepper(s.quantity + 1, if s.qtyToPass.Some? then Some(s.qtyToPass.value - 1) else None)
      else s
    else if s.quantity > 1 then
      var q := s.quantity - 1;
      if q >= available then Stepper(q, Some(0))
      else Stepper(q, if s.qtyToPass.Some? then Some(s.qtyToPass.value + 1) else None)
    else s
  }

  /** A sequence of taps, plus for true and minus for false. Any sequence
      keeps a quantity of at least 1 at least 1; with inventory tracking it
      keeps a quantity within the stock within it, and keeps the headroom
      balanced against the stock. */
  function Steps(s: Stepper, available: int, tracking: bool, taps: seq<bool>): (r: Stepper)
    ensures s.quantity >= 1 ==> r.quantity >= 1
    ensures tracking && s.quantity <= available ==> r.quantity <= available
    ensures tracking && Balanced(s, available) ==> Balanced(r, available)
    decreases |taps|
  {
    if |taps| == 0 then s else Steps(Step(s, available, tracking, taps[0]), available, tracking, taps[1..])
  }

  /** A defined, non-negative headroom that makes up the stock together with
      the quantity. */
  predicate Balanced(s: Stepper, available: int) {
    s.qtyToPass.Some? && s.qtyToPass.value >= 0 && s.quantity + s.qtyToPass.value == available
  }

  /** Plus with tracking moves only below the stock; minus moves only above 1. */
  lemma StepMoves(s: Stepper, available: int, tracking: bool)
    ensures var p := Step(s, available, tracking, true);
      p.quantity == (if !tracking || s.quantity < available then s.quantity + 1 else s.quantity)
    ensures var m := Step(s, available, tracking, false);
      m.quantity == (if s.quantity > 1 then s.quantity - 1 else s.quantity)
  {
  }

  /** Minus that leaves the quantity at or above the stock zeroes the headroom. */
  lemma MinusZeroesHeadroom(s: Stepper, available: int, tracking: bool)
    requires s.quantity > 1 && s.quantity - 1 >= available
    ensures Step(s, available, tracking, false).qtyToPass == Some(0)
  {
  }

  /** An undefined headroom stays undefined through a tap, except a minus that
      leaves the quantity at or above the stock, which sets it to 0. */
  lemma UndefinedHeadroom(s: Stepper, available: int, tracking: bool, plus: bool)
    requires s.qtyToPass.None?
    ensures Step(s, available, tracking, plus).qtyToPass.None? <==>
      !(!plus && s.quantity > 1 && s.quantity - 1 >= available)
    ensures Step(s, available, tracking, plus).qtyToPass.Some? ==>
      Step(s, available, tracking, plus).qtyToPass == Some(0)
  {
  }

  /** Opening the stepper on a line of 5 with 3 in stock leaves the headroom
      undefined, and one minus defines it as 0. */
  lemma HeadroomDefinedByMinus()
    ensures Opened(3, 5) == Stepper(5, None)
    ensures Step(Opened(3, 5), 3, true, false) == Stepper(4, Some(0))
  {
  }

  // ---------------------------------------------------------------------------
  // Updating a line (`callAPICartUpdate`)

  /** The attributes sent with a line update: every `Quantity` entry carries
      the new quantity; the others, and the order, are kept. */
  function WithQuantity(attributes: seq<Attribute>, quantity: string): (r: seq<Attribute>)
    ensures |r| == |attributes|
    ensures forall i :: 0 <= i < |attributes| ==> r[i].key == attributes[i].key
    ensures forall i :: 0 <= i < |attributes| && attributes[i].key == "Quantity" ==> r[i].value == quantity
    ensures forall i :: 0 <= i < |attributes| && attributes[i].key != "Quantity" ==> r[i] == attributes[i]
  {
    seq(|attributes|, i requires 0 <= i < |attributes| =>
      if attributes[i].key == "Quantity" then attributes[i].(value := quantity) else attributes[i])
  }

  /** Rewriting twice is rewriting once with the later quantity. */
  lemma WithQuantityLatestWins(attributes: seq<Attribute>, q1: string, q2: string)
    ensures WithQuantity(WithQuantity(attributes, q1), q2) == WithQuantity(attributes, q2)
  {
    var a, b := WithQuantity(WithQuantity(attributes, q1), q2), WithQuantity(attributes, q2);
    forall i | 0 <= i < |attributes| ensures a[i] == b[i] {
      if attributes[i].key == "Quantity" {
        assert a[i] == Attribute("Quantity", q2) == b[i];
      }
    }
  }

  /** A line update request: the line, its variant, the quantity text and the
      rewritten attributes. */
  datatype CartUpdate = CartUpdate(lineId: string, variantId: string, quantity: string, attributes: seq<Attribute>)

  /** The request `actionUpdateCartItem` sends for the selected line (empty
      ids and no attributes with none selected), None when offline. */
  function UpdateRequest(online: bool, item: Option<CartLine>, quantity: int): Option<CartUpdate> {
    if !online then None
    else
      var text := IntToString(quantity);
      if item.Some? then Some(CartUpdate(item.value.id, item.value.merchandiseId, text, WithQuantity(item.value.attributes, text)))
      else Some(CartUpdate("", "", text, []))
  }

  /** The `Quantity` attributes of an update request read back as the
      quantity it was made with. */
  lemma UpdateQuantityReadsBack(item: Option<CartLine>, quantity: nat)
    ensures var r := UpdateRequest(true, item, quantity);
      r.Some? && IsDigits(r.value.quantity) && ParseDigits(r.value.quantity) == quantity
      && forall i :: 0 <= i < |r.value.attributes| && r.value.attributes[i].key == "Quantity" ==>
           r.value.attributes[i].value == r.value.quantity
  {
    ParseNatToString(quantity);
  }

  // ---------------------------------------------------------------------------
  // The checkout line list (`strQuery` of `callAPICreateCheckout`)

  /** The lines of the cart, none without a cart. */
  function LinesOf(cart: Option<seq<CartLine>>): seq<CartLine> {
    if cart.Some? then cart.value else []
  }

  /** One line's entry. The first entry has no space before
      `customAttributes`; the later ones have one. */
  function Entry(line: CartLine, first: bool, stringify: seq<Attribute> -> string): (e: string)
    ensures |e| > 0 && e[0] == '{'
  {
    "{ variantId: \"" + line.merchandiseId + "\", quantity: " + IntToString(line.quantity)
    + (if first then "," else ", ") + "customAttributes:" + stringify(line.attributes) + " }"
  }

  /** The entries of the lines, in order. */
  function Entries(lines: seq<CartLine>, stringify: seq<Attribute> -> string): seq<string> {
    seq(|lines|, i requires 0 <= i < |lines| => Entry(lines[i], i == 0, stringify))
  }

  /** The parts joined by ", ". */
  function Join(parts: seq<string>): string {
    if |parts| == 0 then ""
    else if |parts| == 1 then parts[0]
    else Join(parts[..|parts| - 1]) + ", " + parts[|parts| - 1]
  }

  /** The line list the checkout request carries. */
  function QueryOf(lines: seq<CartLine>, stringify: seq<Attribute> -> string): string {
    Join(Entries(lines, stringify))
  }

  /** The `forEach` that builds `strQuery`: the first line's entry on its own,
      each later one appended after ", ". */
  method BuildQuery(lines: seq<CartLine>, stringify: seq<Attribute> -> string) returns (strQuery: string)
    ensures strQuery == QueryOf(lines, stringify)
  {
    strQuery := "";
    var i := 0;
    while i < |lines|
      invariant 0 <= i <= |lines|
      invariant strQuery == QueryOf(lines[..i], stringify)
      invariant strQuery == "" <==> i == 0
    {
      var parts := Entries(lines[..i + 1], stringify);
      assert parts[..i] == Entries(lines[..i], stringify);
      if strQuery == "" {
        strQuery := Entry(lines[i], true, stringify);
      } else {
        strQuery := strQuery + ", " + Entry(lines[i], false, stringify);
      }
      i := i + 1;
    }
    assert lines[..|lines|] == lines;
  }

  /** A join starts with its first part. */
  lemma {:induction false} JoinStartsWithFirst(parts: seq<string>)
    requires |parts| > 0
    ensures parts[0] <= Join(parts)
    decreases |parts|
  {
    if |parts| > 1 {
      JoinStartsWithFirst(parts[..|parts| - 1]);
    }
  }

  /** The line list is empty exactly when the cart has no lines, and it
      starts with the first line's entry. */
  lemma QueryEmptyIffNoLines(lines: seq<CartLine>, stringify: seq<Attribute> -> string)
    ensures QueryOf(lines, stringify) == "" <==> |lines| == 0
    ensures |lines| > 0 ==> Entry(lines[0], true, stringify) <= QueryOf(lines, stringify)
  {
    if |lines| > 0 {
      var parts := Entries(lines, stringify);
      JoinStartsWithFirst(parts);
      assert |parts[0]| > 0;
    }
  }

  /** Joining a prefix of the parts gives a prefix of the join. */
  lemma {:induction false} JoinKeepsOrder(parts: seq<string>, n: nat)
    requires n <= |parts|
    ensures Join(parts[..n]) <= Join(parts)
    decreases |parts|
  {
    if n < |parts| {
      var init := parts[..|parts| - 1];
      assert init[..n] == parts[..n];
      JoinKeepsOrder(init, n);
    } else {
      assert parts[..n] == parts;
    }
  }

  /** The line list of a prefix of the lines is a prefix of the line list:
      entries keep the order of the lines. */
  lemma QueryKeepsOrder(lines: seq<CartLine>, stringify: seq<Attribute> -> string, n: nat)
    requires n <= |lines|
    ensures QueryOf(lines[..n], stringify) <= QueryOf(lines, stringify)
  {
    assert Entries(lines[..n], stringify) == Entries(lines, stringify)[..n];
    JoinKeepsOrder(Entries(lines, stringify), n);
  }

  // ---------------------------------------------------------------------------
  // Routing (`actionConfirmOrder`, `verifyItemOrGet`)

  /** What a tap on confirm-order leads to. */
  datatype ConfirmOutcome = Busy | ConfirmOffline | CreateCheckout | LoginRedirect

  /** `actionConfirmOrder`: nothing while a delete or a load is running or
      when offline; then the checkout when guest checkout is on or a token
      is present, and the login otherwise. */
  function ConfirmRoute(deleting: bool, loading: bool, online: bool, guest: bool, hasToken: bool): (r: ConfirmOutcome)
    ensures r == Busy <==> deleting || loading
    ensures r == ConfirmOffline <==> !deleting && !loading && !online
    ensures r == CreateCheckout <==> !deleting && !loading && online && (guest || hasToken)
    ensures r == LoginRedirect <==> !deleting && !loading && online && !guest && !hasToken
  {
    if deleting || loading then Busy
    else if !online then ConfirmOffline
    else if guest then CreateCheckout
    else if hasToken then CreateCheckout
    else LoginRedirect
  }

  /** How fetching the cart before checkout ended: the request failed, no
      data came back, the data had no cart, or a cart with its lines. */
  datatype CartResponse = RequestFailed | NoData | NoCart | CartData(lines: seq<CartLine>)

  /** Where checkout navigates: nowhere, the discount-code screen or the
      payment page. */
  datatype Route = Stay | DiscountCode | PaymentWeb

  /** `verifyItemOrGet`'s decision on a fetched cart: a cart with lines, every
      one of them fitting when inventory is tracked, goes to the discount-code
      screen when the store has one, else to the payment page. */
  function CheckoutRoute(tracking: bool, discountScreen: bool, response: CartResponse): (r: Route)
    ensures r != Stay <==> response.CartData? && |response.lines| > 0 && (tracking ==> AllFit(response.lines))
    ensures r == DiscountCode <==> r != Stay && discountScreen
  {
    match response
    case CartData(lines) =>
      if |lines| > 0 then
        if !tracking || AllFit(lines) then (if discountScreen then DiscountCode else PaymentWeb) else Stay
      else Stay
    case _ => Stay
  }

  /** A confirmed order reaches a checkout page only when nothing is running,
      the device is online, the shopper may check out (guest checkout or a
      token) and the fetched cart has lines, every one of which the stock
      check marks available when inventory is tracked; the page is the
      discount-code screen exactly when the store has one. */
  lemma CheckoutNeedsAvailableCart(deleting: bool, loading: bool, online: bool, guest: bool, hasToken: bool,
                                   tracking: bool, discountScreen: bool, response: CartResponse)
    requires ConfirmRoute(deleting, loading, online, guest, hasToken) == CreateCheckout
    requires CheckoutRoute(tracking, discountScreen, response) != Stay
    ensures !deleting && !loading && online && (guest || hasToken)
    ensures response.CartData? && |response.lines| > 0
    ensures tracking ==> forall i :: 0 <= i < |response.lines| ==> Classified(response.lines)[i].status == Some(Available)
    ensures CheckoutRoute(tracking, discountScreen, response) == DiscountCode <==> discountScreen
  {
  }

  // ---------------------------------------------------------------------------
  // The screen

  class CartScreen {
    const isGuestCheckout: bool               // `isGuestCheckout`
    const isInventory: bool                   // `is_inventory`
    var cart: Option<seq<CartLine>>           // the lines of `cart`
    var arrCart: seq<CartLine>
    var selectedItem: Option<CartLine>        // the line the stepper edits
    var quantity: int
    var qtyToPass: Option<int>
    var isShowQtyView: bool
    var isCheckout: bool
    var isDeleteAPICalling: bool
    var isLoading: bool
    var isAlertModalOpen: bool                // `is_alertModalOpen`

    /** The initial state: the cart and line list from the store (no line
        without one), guest checkout and inventory tracking on unless the
        store says otherwise, no line selected, checkout allowed. */
    constructor (initialCart: Option<seq<CartLine>>, cartItem: Option<seq<CartLine>>,
                 guestCheckout: Option<bool>, inventory: Option<bool>)
      ensures cart == initialCart && arrCart == LinesOf(cartItem)
      ensures isGuestCheckout == (guestCheckout != Some(false))
      ensures isInventory == (inventory != Some(false))
      ensures selectedItem == None && quantity == 0 && qtyToPass == None
      ensures !isShowQtyView && isCheckout && !isDeleteAPICalling && !isLoading && !isAlertModalOpen
    {
      isGuestCheckout := if guestCheckout.Some? then guestCheckout.value else true;
      isInventory := if inventory.Some? then inventory.value else true;
      cart := initialCart;
      arrCart := if cartItem.Some? then cartItem.value else [];
      selectedItem := None;
      quantity := 0;
      qtyToPass := None;
      isShowQtyView := false;
      isCheckout := true;
      isDeleteAPICalling := false;
      isLoading := false;
      isAlertModalOpen := false;
    }

    /** `checkQuantityAvailable`: classifies the lines into the line list and
        reports whether every line fits; the checkout flag is stored only
        when there are lines. */
    method CheckQuantityAvailable(arr: seq<CartLine>) returns (ok: bool)
      modifies this`arrCart, this`isCheckout
      ensures ok <==> AllFit(arr)
      ensures arrCart == Classified(arr)
      ensures isCheckout == if |arr| > 0 then ok else old(isCheckout)
    {
      var temp: seq<CartLine> := [];
      ok := true;
      if |arr| > 0 {
        temp, ok := ClassifyLines(arr);
        isCheckout, arrCart := ok, temp;
      } else {
        arrCart := temp;
      }
    }

    /** `actionQuantityView`: opens the stepper on a line with the requested
        quantity. */
    method ActionQuantityView(item: CartLine, strQuantity: int)
      modifies this`qtyToPass, this`selectedItem, this`quantity, this`isShowQtyView
      ensures Stepper(quantity, qtyToPass) == Opened(item.quantityAvailable, strQuantity)
      ensures selectedItem == Some(item) && isShowQtyView
    {
      var qty := item.quantityAvailable;
      if strQuantity > qty {
        qtyToPass := None;
      } else {
        var newQty := qty - strQuantity;
        qtyToPass := Some(newQty);
      }
      selectedItem, quantity, isShowQtyView := Some(item), strQuantity, true;
    }

    /** `actionUpdateQuantity`: one tap on the stepper of the selected line. */
    method ActionUpdateQuantity(plus: bool)
      modifies this`quantity, this`qtyToPass
      ensures Stepper(quantity, qtyToPass) ==
        Step(Stepper(old(quantity), old(qtyToPass)), SelectedStock(selectedItem), isInventory, plus)
    {
      var quantityAvailable := SelectedStock(selectedItem);
      var quantity := this.quantity;
      var qtyToPass := this.qtyToPass;
      if plus {
        if !isInventory || quantity < quantityAvailable {
          quantity := quantity + 1;
          if qtyToPass.Some? {
            qtyToPass := Some(qtyToPass.value - 1);
          }
        }
      } else {
        if quantity > 1 {
          quantity := quantity - 1;
          if quantity >= quantityAvailable {
            qtyToPass := Some(0);
          } else {
            if qtyToPass.Some? {
              qtyToPass := Some(qtyToPass.value + 1);
            }
          }
        }
      }
      if qtyToPass.Some? {
        this.qtyToPass := qtyToPass;
      }
      this.quantity := quantity;
    }

    /** `updateQuantity`: typed text sets the quantity; an empty field or a
        value that is not positive resets it to 1. */
    method UpdateQuantity(text: string)
      requires IsDigits(text)
      modifies this`quantity
      ensures quantity == QuantityFromText(text)
    {
      if |text| <= 0 || ParseDigits(text) <= 0 {
        quantity := 1;
        return;
      }
      quantity := ParseDigits(text);
    }

    /** `actionUpdateCartItem`: the update request for the selected line with
        the stepper's quantity. */
    method ActionUpdateCartItem(online: bool) returns (request: Option<CartUpdate>)
      ensures request == UpdateRequest(online, selectedItem, quantity)
    {
      request := UpdateRequest(online, selectedItem, quantity);
    }

    /** `actionConfirmOrder`: closes the alert once the tap gets past the busy
        and network checks. */
    method ActionConfirmOrder(online: bool, hasToken: bool) returns (outcome: ConfirmOutcome)
      modifies this`isAlertModalOpen
      ensures outcome == ConfirmRoute(isDeleteAPICalling, isLoading, online, isGuestCheckout, hasToken)
      ensures isAlertModalOpen == (old(isAlertModalOpen) && (outcome == Busy || outcome == ConfirmOffline))
    {
      if isDeleteAPICalling || isLoading {
        return Busy;
      }
      if !online {
        return ConfirmOffline;
      }
      isAlertModalOpen := false;
      if isGuestCheckout {
        outcome := CreateCheckout;
      } else {
        if hasToken {
          outcome := CreateCheckout;
        } else {
          outcome := LoginRedirect;
        }
      }
    }

    /** The line list `callAPICreateCheckout` builds from the cart before it
        fetches the cart again; None when offline. */
    method CreateCheckoutQuery(online: bool, stringify: seq<Attribute> -> string) returns (query: Option<string>)
      ensures query == if online then Some(QueryOf(LinesOf(cart), stringify)) else None
    {
      if !online {
        return None;
      }
      var strQuery := BuildQuery(LinesOf(cart), stringify);
      query := Some(strQuery);
    }

    /** `verifyItemOrGet`: offline nothing happens; otherwise the loader shows,
        and, when there is a cart id, the fetched cart is checked and routed
        and the loader hides. With no cart id the loader stays. A failed
        fetch also clears the delete flag. With inventory tracking, a cart
        with lines is classified into the line list. */
    method VerifyItemOrGet(online: bool, cartId: Option<string>, response: CartResponse, discountScreen: bool)
      returns (route: Route)
      modifies this`isLoading, this`isDeleteAPICalling, this`arrCart, this`isCheckout
      ensures route == if online && cartId.Some? then CheckoutRoute(isInventory, discountScreen, response) else Stay
      ensures isLoading == if online then cartId.None? else old(isLoading)
      ensures isDeleteAPICalling == (old(isDeleteAPICalling) && !(online && cartId.Some? && response.RequestFailed?))
      ensures online && cartId.Some? && response.CartData? && |response.lines| > 0 && isInventory ==>
        arrCart == Classified(response.lines) && isCheckout == AllFit(response.lines)
      ensures !(online && cartId.Some? && response.CartData? && |response.lines| > 0 && isInventory) ==>
        arrCart == old(arrCart) && isCheckout == old(isCheckout)
    {
      route := Stay;
      if !online {
        return;
      }
      isLoading := true;
      if cartId.None? {
        return;
      }
      match response {
        case RequestFailed =>
          isDeleteAPICalling, isLoading := false, false;
        case NoData =>
          isLoading := false;
        case NoCart =>
          isLoading := false;
        case CartData(edges) =>
          if |edges| > 0 {
            var ok := true;
            if isInventory {
              ok := CheckQuantityAvailable(edges);
            }
            isLoading := false;
            if ok {
              route := if discountScreen then DiscountCode else PaymentWeb;
            }
          } else {
            isLoading := false;
          }
      }
    }
  }
}
