/** The purchase side of the product screen: the button labels and colour,
    the stock check against the cart, the quantity stepper, the cart
    attributes sent with an add-to-cart, and the order of the guards an
    add-to-cart tap passes. */
module Purchase {
  import opened Common
  import opened Types
  import opened VariantLogic

  // ---------------------------------------------------------------------------
  // Button labels and colour

  datatype Label = AddToCartLabel | ViewCartLabel | BuyNowLabel | UnavailableLabel | SoldOutLabel

  datatype Colour = Grey | ThemeColour

  /** With inventory tracking on, a variant that is unavailable or not for
      sale blocks both buttons. */
  predicate Blocked(tracking: bool, unavailable: bool, forSale: bool) {
    tracking && (unavailable || !forSale)
  }

  /** The add-to-cart button's label (`cartTitle`). Unavailable wins over
      Sold Out, which wins over View Cart; without tracking only View Cart and
      Add to Cart occur. */
  function CartTitle(tracking: bool, unavailable: bool, forSale: bool, added: bool): (l: Label)
    ensures l == UnavailableLabel <==> tracking && unavailable
    ensures l == SoldOutLabel <==> tracking && !unavailable && !forSale
    ensures l == ViewCartLabel <==> added && !Blocked(tracking, unavailable, forSale)
    ensures l == AddToCartLabel <==> !added && !Blocked(tracking, unavailable, forSale)
  {
    if tracking then
      if unavailable then UnavailableLabel
      else if !forSale then SoldOutLabel
      else if added then ViewCartLabel
      else AddToCartLabel
    else if added then ViewCartLabel
    else AddToCartLabel
  }

  /** The buy-now button's label. */
  function BuyNowTitle(tracking: bool, unavailable: bool, forSale: bool): (l: Label)
    ensures l == UnavailableLabel <==> tracking && unavailable
    ensures l == SoldOutLabel <==> tracking && !unavailable && !forSale
    ensures l == BuyNowLabel <==> !Blocked(tracking, unavailable, forSale)
  {
    if tracking then
      if unavailable then UnavailableLabel
      else if !forSale then SoldOutLabel
      else BuyNowLabel
    else BuyNowLabel
  }

  /** The background of both buttons (`btnBgColor`); being in the cart does
      not change it. */
  function ButtonColour(tracking: bool, unavailable: bool, forSale: bool, added: bool): (c: Colour)
    ensures c == Grey <==> Blocked(tracking, unavailable, forSale)
  {
    if tracking then
      if unavailable then Grey
      else if !forSale then Grey
      else if added then ThemeColour
      else ThemeColour
    else ThemeColour
  }

  /** The three choices agree: the buttons are grey exactly when the cart
      button shows Unavailable or Sold Out, and then the buy-now button shows
      the same label. */
  lemma LabelTableAgrees(tracking: bool, unavailable: bool, forSale: bool, added: bool)
    ensures var cart := CartTitle(tracking, unavailable, forSale, added);
      ButtonColour(tracking, unavailable, forSale, added) == Grey
      <==> cart == UnavailableLabel || cart == SoldOutLabel
    ensures var cart := CartTitle(tracking, unavailable, forSale, added);
      cart == UnavailableLabel || cart == SoldOutLabel ==> BuyNowTitle(tracking, unavailable, forSale) == cart
    ensures var cart := CartTitle(tracking, unavailable, forSale, added);
      cart != UnavailableLabel && cart != SoldOutLabel ==> BuyNowTitle(tracking, unavailable, forSale) == BuyNowLabel
  {
  }

  // ---------------------------------------------------------------------------
  // The stock check of `doCheckItemAvailableQty`

  /** Room for `quantity` more: the cart does not hold the whole stock, and
      what is left covers the quantity. */
  predicate RoomFor(available: int, inCart: int, quantity: int) {
    !(available == inCart || available - inCart < quantity)
  }

  /** With a quantity of at least 1, room means the cart plus the quantity
      stays within the stock. */
  lemma RoomForBound(available: int, inCart: int, quantity: int)
    requires quantity >= 1
    ensures RoomFor(available, inCart, quantity) <==> inCart + quantity <= available
  {
  }

  /** The check as written: it counts the cart lines of the variant at the
      price index, and compares with the selected variant's stock. */
  function ItemStockAllowsAsWritten(selected: Option<Variant>, variants: seq<Variant>, index: PriceIndex,
                                    cart: Option<seq<CartLine>>, quantity: int): (ok: bool)
    ensures selected.None? || cart.None? ==> ok
    ensures selected.Some? && cart.Some? ==>
      (ok <==> var inCart := QuantityOf(cart.value, IdAt(variants, index));
         inCart != selected.value.quantityAvailable && inCart + quantity <= selected.value.quantityAvailable)
  {
    if selected.Some? && cart.Some? then
      RoomFor(selected.value.quantityAvailable, QuantityOf(cart.value, IdAt(variants, index)), quantity)
    else true
  }

  /** The check counting the cart lines of the selected variant itself. */
  function ItemStockAllows(selected: Option<Variant>, cart: Option<seq<CartLine>>, quantity: int): (ok: bool)
    ensures selected.None? || cart.None? ==> ok
    ensures selected.Some? && cart.Some? ==>
      (ok <==> var inCart := QuantityOf(cart.value, Some(selected.value.id));
         inCart != selected.value.quantityAvailable && inCart + quantity <= selected.value.quantityAvailable)
  {
    if selected.Some? && cart.Some? then
      RoomFor(selected.value.quantityAvailable, QuantityOf(cart.value, Some(selected.value.id)), quantity)
    else true
  }

  /** A passing check leaves room for the quantity: what the cart holds of the
      selected variant plus the quantity stays within its stock. */
  lemma StockCheckBound(selected: Variant, cart: seq<CartLine>, quantity: int)
    requires quantity >= 1
    requires ItemStockAllows(Some(selected), Some(cart), quantity)
    ensures QuantityOf(cart, Some(selected.id)) + quantity <= selected.quantityAvailable
    ensures QuantityOf(cart, Some(selected.id)) < selected.quantityAvailable
  {
  }

  /** With nothing of the variant in the cart the check only compares the
      quantity with the stock. */
  lemma StockCheckEmptyCart(selected: Variant, cart: seq<CartLine>, quantity: int)
    requires quantity >= 1
    requires forall i :: 0 <= i < |cart| ==> cart[i].merchandiseId != selected.id
    ensures ItemStockAllows(Some(selected), Some(cart), quantity) <==> quantity <= selected.quantityAvailable
  {
    QuantityOfAbsent(cart, selected.id);
  }

  /** The two checks agree whenever the price index names the selected variant. */
  lemma StockChecksAgree(selected: Variant, variants: seq<Variant>, index: PriceIndex,
                         cart: Option<seq<CartLine>>, quantity: int)
    requires IdAt(variants, index) == Some(selected.id)
    ensures ItemStockAllowsAsWritten(Some(selected), variants, index, cart, quantity)
         == ItemStockAllows(Some(selected), cart, quantity)
  {
  }

  /** The check as written can let the tap through although the cart already
      holds the selected variant's whole stock: after the initial selection no
      axis was picked when the price index was computed, so the index is 0,
      while the selection is the first variant in stock. */
  lemma StockCheckAsWrittenMissesCart()
    ensures var a := Variant("a", "S", [Pick("Size", "S")], 0, true, "1.00", "img-a");
      var b := Variant("b", "M", [Pick("Size", "M")], 2, true, "1.00", "img-b");
      var cart := [CartLine("line-1", "b", 2, 2, [], None)];
      PriceIndexFrom([a, b], []) == At(0)
      && ItemStockAllowsAsWritten(Some(b), [a, b], At(0), Some(cart), 1)
      && !ItemStockAllows(Some(b), Some(cart), 1)
  {
    var a := Variant("a", "S", [Pick("Size", "S")], 0, true, "1.00", "img-a");
    var b := Variant("b", "M", [Pick("Size", "M")], 2, true, "1.00", "img-b");
    var cart := [CartLine("line-1", "b", 2, 2, [], None)];
    assert !MatchesAxes(b, []);
    assert TruthyMatches([a, b], [], 1) == [];
    assert TruthyMatches([a, b], [], 2) == [];
    assert [CartLine("line-1", "b", 2, 2, [], None)][..0] == [];
    assert QuantityOf(cart, Some("a")) == 0;
    assert QuantityOf(cart, Some("b")) == 2;
  }

  /** `checkAvailableQty`: the summed quantity of the cart lines, 0 for no cart. */
  method SumQuantities(cart: Option<seq<CartLine>>) returns (total: int)
    ensures cart.Some? ==> total == TotalQuantity(cart.value)
    ensures cart.None? ==> total == 0
  {
    total := 0;
    if cart.Some? && |cart.value| > 0 {
      var lines := cart.value;
      var i := 0;
      while i < |lines|
        invariant 0 <= i <= |lines|
        invariant total == TotalQuantity(lines[..i])
      {
        assert lines[..i + 1][..i] == lines[..i];
        total := lines[i].quantity + total;
        i := i + 1;
      }
      assert lines[..|lines|] == lines;
    }
  }

  // ---------------------------------------------------------------------------
  // The quantity stepper (`actionQuantity`)

  /** The new quantity after a plus or minus tap. */
  function NextProductQuantity(quantity: int, plus: bool): (r: int)
    ensures plus ==> r == quantity + 1
    ensures !plus && quantity > 1 ==> r == quantity - 1
    ensures !plus && quantity <= 1 ==> r == quantity
    ensures quantity >= 1 ==> r >= 1
  {
    if plus then quantity + 1 else if quantity > 1 then quantity - 1 else quantity
  }

  /** A minus tap undoes a plus tap, from any quantity of at least 1. */
  lemma MinusUndoesPlus(quantity: int)
    requires quantity >= 1
    ensures NextProductQuantity(NextProductQuantity(quantity, true), false) == quantity
  {
  }

  // ---------------------------------------------------------------------------
  // The cart attributes of `callAPIAddToCart`

  /** The key of the n-th uploaded image (counted from 1). */
  function UploadKey(n: nat): string {
    "Upload Image " + NatToString(n)
  }

  /** The attribute list sent with an add-to-cart: one entry per uploaded
      image when the product takes uploads, then the attributes of the
      product's custom component, then the title, the product id ("" when the
      product has none) and a quantity of "1". */
  function CartAttributes(uploadAllowed: bool, uploads: seq<string>, c: Component,
                          title: string, productId: Option<string>): (r: seq<Attribute>)
    ensures var u := if uploadAllowed then |uploads| else 0;
      var component := ComponentAttributes(c);
      |r| == u + |component| + 3
      && (forall i :: 0 <= i < u ==> r[i] == Attribute(UploadKey(i + 1), uploads[i]))
      && r[u..u + |component|] == component
      && r[|r| - 3] == Attribute("title", title)
      && r[|r| - 2] == Attribute("id", if productId.Some? then productId.value else "")
      && r[|r| - 1] == Attribute("Quantity", "1")
  {
    var images := if uploadAllowed && |uploads| > 0
      then seq(|uploads|, i requires 0 <= i < |uploads| => Attribute(UploadKey(i + 1), uploads[i]))
      else [];
    var id := if productId.Some? then productId.value else "";
    var component := ComponentAttributes(c);
    assert (images + component + [Attribute("title", title), Attribute("id", id), Attribute("Quantity", "1")])
      [|images|..|images| + |component|] == component;
    images + component + [Attribute("title", title), Attribute("id", id), Attribute("Quantity", "1")]
  }

  /** No two uploaded images share a key. */
  lemma UploadKeysDistinct(i: nat, j: nat)
    requires i != j
    ensures UploadKey(i) != UploadKey(j)
  {
    NatToStringInjective(i, j);
    var p := "Upload Image ";
    assert UploadKey(i)[|p|..] == NatToString(i);
    assert UploadKey(j)[|p|..] == NatToString(j);
  }

  // ---------------------------------------------------------------------------
  // The custom component's fields, entries and required fields

  /** The product's custom component, named by its tag; `OtherTag` stands
      for every tag the add-to-cart code does not test, and for none. */
  datatype ComponentTag = CC908 | CC909 | CC910 | CC911 | CC914 | CC915 | CC917 | OtherTag

  /** The picked image of an image component: its key and its value, if any. */
  datatype ImageChoice = ImageChoice(key: string, value: Option<string>)

  /** What the shopper entered in the component's fields. */
  datatype CustomFields = CustomFields(
    hInch: string, wInch: string,
    hFoot: string, wFoot: string,
    selectedImage: Option<ImageChoice>,
    shortMessage: string, customName: string,
    contactNo: string, customContent: string, customTitle: string,
    textAreaLabel: string, textAreaValue: string)

  /** A custom component: its tag and the fields entered into it. */
  datatype Component = Component(tag: ComponentTag, fields: CustomFields)

  /** `isHeightWidthInchType`: the tags that ask for a size in inches. */
  predicate InchType(tag: ComponentTag) {
    tag == CC908 || tag == CC909 || tag == CC914 || tag == CC910
  }

  /** The characters JavaScript's `trim()` removes: white space and line
      terminators. */
  predicate IsSpace(c: char) {
    c == ' ' || c == '\t' || c == '\n' || c == '\r' || c == '\U{000B}' || c == '\U{000C}'
    || c == '\U{00A0}' || c == '\U{1680}' || ('\U{2000}' <= c <= '\U{200A}')
    || c == '\U{2028}' || c == '\U{2029}' || c == '\U{202F}' || c == '\U{205F}'
    || c == '\U{3000}' || c == '\U{FEFF}'
  }

  /** A text that `trim()` empties. */
  predicate IsBlank(s: string) {
    forall i :: 0 <= i < |s| ==> IsSpace(s[i])
  }

  /** One attribute when the condition holds, none otherwise. */
  function EntryIf(condition: bool, key: string, value: string): (r: seq<Attribute>)
    ensures |r| <= 1
    ensures forall a :: a in r <==> condition && a == Attribute(key, value)
  {
    if condition then [Attribute(key, value)] else []
  }

  /** A height and a width entry when the condition holds, none otherwise. */
  function SizeIf(condition: bool, heightKey: string, height: string, widthKey: string, width: string)
    : (r: seq<Attribute>)
    ensures |r| <= 2
    ensures forall a :: a in r <==>
      condition && (a == Attribute(heightKey, height) || a == Attribute(widthKey, width))
  {
    if condition then [Attribute(heightKey, height), Attribute(widthKey, width)] else []
  }

  /** The value pushed for a picked image: its value, "" when it has none. */
  function ImageValue(choice: ImageChoice): string {
    if choice.value.Some? then choice.value.value else ""
  }

  /** Attribute a is a size or picked-image entry: the size in inches for
      the inch tags and in feet for CC_917, both dimensions non-empty, and
      the picked image of CC_909. */
  predicate SizeOrImageEntry(c: Component, a: Attribute) {
    var t, f := c.tag, c.fields;
    (InchType(t) && |f.hInch| > 0 && |f.wInch| > 0
       && (a == Attribute("Height(Inch)", f.hInch) || a == Attribute("Width(Inch)", f.wInch)))
    || (t == CC917 && |f.hFoot| > 0 && |f.wFoot| > 0
       && (a == Attribute("Height(Foot)", f.hFoot) || a == Attribute("Width(Foot)", f.wFoot)))
    || (t == CC909 && f.selectedImage.Some?
       && a == Attribute(f.selectedImage.value.key, ImageValue(f.selectedImage.value)))
  }

  /** Attribute a is the short message of CC_911, or the contact number or
      content of CC_915, for a field that `trim()` does not empty. */
  predicate MessageEntry(c: Component, a: Attribute) {
    var t, f := c.tag, c.fields;
    (t == CC911 && !IsBlank(f.shortMessage) && a == Attribute("Short Message", f.shortMessage))
    || (t == CC915 && !IsBlank(f.contactNo) && a == Attribute("Contact No", f.contactNo))
    || (t == CC915 && !IsBlank(f.customContent) && a == Attribute("Content", f.customContent))
  }

  /** Attribute a is the name of CC_911, the title of CC_915 or the text
      area of CC_914 under its label, for a field that `trim()` does not
      empty. */
  predicate NameEntry(c: Component, a: Attribute) {
    var t, f := c.tag, c.fields;
    (t == CC911 && !IsBlank(f.customName) && a == Attribute("Name", f.customName))
    || (t == CC915 && !IsBlank(f.customTitle) && a == Attribute("Title", f.customTitle))
    || (t == CC914 && !IsBlank(f.textAreaValue) && a == Attribute(f.textAreaLabel, f.textAreaValue))
  }

  /** Attribute a is an entry the component contributes. */
  predicate ComponentEntry(c: Component, a: Attribute) {
    SizeOrImageEntry(c, a) || MessageEntry(c, a) || NameEntry(c, a)
  }

  /** The size entries, then the picked image. */
  function SizeAndImage(c: Component): (r: seq<Attribute>)
    ensures forall a :: a in r <==> SizeOrImageEntry(c, a)
  {
    var t, f := c.tag, c.fields;
    var image := t == CC909 && f.selectedImage.Some?;
    SizeIf(InchType(t) && |f.hInch| > 0 && |f.wInch| > 0, "Height(Inch)", f.hInch, "Width(Inch)", f.wInch)
    + SizeIf(t == CC917 && |f.hFoot| > 0 && |f.wFoot| > 0, "Height(Foot)", f.hFoot, "Width(Foot)", f.wFoot)
    + EntryIf(image, if image then f.selectedImage.value.key else "",
              if image then ImageValue(f.selectedImage.value) else "")
  }

  /** The short message, the contact number and the content. */
  function MessageEntries(c: Component): (r: seq<Attribute>)
    ensures forall a :: a in r <==> MessageEntry(c, a)
  {
    var t, f := c.tag, c.fields;
    EntryIf(t == CC911 && !IsBlank(f.shortMessage), "Short Message", f.shortMessage)
    + EntryIf(t == CC915 && !IsBlank(f.contactNo), "Contact No", f.contactNo)
    + EntryIf(t == CC915 && !IsBlank(f.customContent), "Content", f.customContent)
  }

  /** The name, the title and the text area. */
  function NameEntries(c: Component): (r: seq<Attribute>)
    ensures forall a :: a in r <==> NameEntry(c, a)
  {
    var t, f := c.tag, c.fields;
    EntryIf(t == CC911 && !IsBlank(f.customName), "Name", f.customName)
    + EntryIf(t == CC915 && !IsBlank(f.customTitle), "Title", f.customTitle)
    + EntryIf(t == CC914 && !IsBlank(f.textAreaValue), f.textAreaLabel, f.textAreaValue)
  }

  /** The attributes the component adds to an add-to-cart, in the order
      they are pushed: the size in inches, the size in feet, the picked
      image, the short message, the contact number, the content, the name,
      the title and the text area, each only for its tags and only when
      filled in. */
  function ComponentAttributes(c: Component): (r: seq<Attribute>)
    ensures forall a :: a in r <==> ComponentEntry(c, a)
    ensures c.tag == OtherTag ==> r == []
    ensures |r| <= 3
  {
    SizeAndImage(c) + MessageEntries(c) + NameEntries(c)
  }

  /** The component's required fields in the order the tap checks them. */
  function ComponentOutcome(c: Component): (r: Option<TapOutcome>)
    ensures r.Some? ==> c.tag == CC911 || c.tag == CC914
  {
    var f := c.fields;
    if c.tag == CC911 then
      if IsBlank(f.shortMessage) then Some(ShortMessageRequired)
      else if IsBlank(f.customName) then Some(NameRequired)
      else None
    else if c.tag == CC914 then
      if IsBlank(f.textAreaValue) then Some(TitleRequired) else None
    else None
  }

  /** A component that passed the tap's checks adds what they required: a
      message component both its short message and its name, a text-area
      component its text under its label, last. */
  lemma GuardedComponentAttributes(c: Component)
    requires ComponentOutcome(c).None?
    ensures c.tag == CC911 ==>
      ComponentAttributes(c) == [Attribute("Short Message", c.fields.shortMessage), Attribute("Name", c.fields.customName)]
    ensures c.tag == CC914 ==>
      var r := ComponentAttributes(c);
      |r| > 0 && r[|r| - 1] == Attribute(c.fields.textAreaLabel, c.fields.textAreaValue)
  {
  }

  // ---------------------------------------------------------------------------
  // The guards of `onPressAddToCart`

  /** What a tap on add-to-cart or buy-now does. */
  datatype TapOutcome =
    | Ignored               // a repeated tap, an unavailable or unsellable variant, or no network
    | SelectionMissing      // some axis has nothing picked
    | MaxQuantityInCart     // the cart already holds what the stock allows
    | ImageUploadRequired   // fewer images uploaded than the product asks for
    | ShortMessageRequired
    | NameRequired
    | TitleRequired
    | OpenCart              // the variant is in the cart: go to the cart
    | UnavailableDialog     // no variant is selected
    | StartAddToCart(variantId: string, buyNow: bool)

  /** The state a tap is judged on. */
  datatype TapState = TapState(
    preventMultiple: bool,
    unavailable: bool,
    forSale: bool,
    online: bool,
    selectionMissing: bool,
    tracking: bool,
    added: bool,
    stockAllows: bool,
    uploadShort: bool,
    component: Component,
    selected: Option<Variant>)

  /** The guards in the order the tap meets them. */
  function TapResult(s: TapState, buyNow: bool): (r: TapOutcome)
    ensures r == Ignored <==> s.preventMultiple || s.unavailable || !s.forSale || !s.online
    ensures r == SelectionMissing <==> r != Ignored && s.selectionMissing
    ensures r == ImageUploadRequired ==> s.uploadShort && !s.selectionMissing
    ensures r == OpenCart ==> s.added && !buyNow && ComponentOutcome(s.component).None?
    ensures r.StartAddToCart? ==> s.selected.Some? && r == StartAddToCart(s.selected.value.id, buyNow)
  {
    if s.preventMultiple || s.unavailable || !s.forSale || !s.online then Ignored
    else if s.selectionMissing then SelectionMissing
    else if !buyNow && s.tracking && !s.stockAllows
      && CartTitle(s.tracking, s.unavailable, s.forSale, s.added) == AddToCartLabel then MaxQuantityInCart
    else LateGuards(s.uploadShort, s.component, s.added, s.selected, buyNow)
  }

  /** The guards after the stock check: the uploads, the component's fields,
      the variant already in the cart, and a selected variant. */
  function LateGuards(uploadShort: bool, component: Component, added: bool, selected: Option<Variant>,
                      buyNow: bool): (r: TapOutcome)
    ensures r != Ignored && r != SelectionMissing && r != MaxQuantityInCart
    ensures r == ImageUploadRequired <==> uploadShort
    ensures r.StartAddToCart? <==>
      !uploadShort && ComponentOutcome(component).None? && !(added && !buyNow) && selected.Some?
    ensures r.StartAddToCart? ==> r == StartAddToCart(selected.value.id, buyNow)
  {
    if uploadShort then ImageUploadRequired
    else if ComponentOutcome(component).Some? then ComponentOutcome(component).value
    else if added && !buyNow then OpenCart
    else if selected.None? then UnavailableDialog
    else StartAddToCart(selected.value.id, buyNow)
  }

  /** An add-to-cart request starts only when every guard passes: no repeated
      tap, a sellable variant, a network, every axis picked, the uploads and
      component fields complete, a selected variant, and, for a plain
      add-to-cart, the variant not yet in the cart and the stock check passed
      when tracking is on. */
  lemma StartNeedsAllGuards(s: TapState, buyNow: bool)
    requires TapResult(s, buyNow).StartAddToCart?
    ensures !s.preventMultiple && !s.unavailable && s.forSale && s.online
    ensures !s.selectionMissing && !s.uploadShort && ComponentOutcome(s.component).None?
    ensures s.selected.Some? && TapResult(s, buyNow) == StartAddToCart(s.selected.value.id, buyNow)
    ensures !buyNow ==> !s.added && (s.tracking ==> s.stockAllows)
  {
  }

  /** The stock check refuses a plain add-to-cart of a variant not yet in
      the cart exactly when every earlier guard passed. */
  lemma MaxQuantityExactly(s: TapState, buyNow: bool)
    ensures TapResult(s, buyNow) == MaxQuantityInCart <==>
      !s.preventMultiple && !s.unavailable && s.forSale && s.online && !s.selectionMissing
      && !buyNow && s.tracking && !s.stockAllows && !s.added
  {
  }

  /** Buy-now skips the stock check, and so does a variant already in the cart. */
  lemma StockCheckSkipped(s: TapState, buyNow: bool, stock: bool)
    requires buyNow || s.added || !s.tracking
    ensures TapResult(s.(stockAllows := stock), buyNow) == TapResult(s, buyNow)
  {
  }
}
