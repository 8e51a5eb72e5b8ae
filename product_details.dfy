/** The product screen's state and the handlers that change it: the setup
    after a product loads, a pick on an option axis, the validation of the
    picks, the quantity stepper and field, the cart total, and a tap on
    add-to-cart or buy-now. */
module ProductDetails {
  import opened Common
  import opened Types
  import opened VariantLogic
  import opened Purchase

  /** `findIndex(key => key === id)`: the first position of `id`, or -1. */
  function IndexOf(keys: seq<string>, id: string): (r: int)
    ensures -1 <= r < |keys|
    ensures r >= 0 ==> keys[r] == id && forall j :: 0 <= j < r ==> keys[j] != id
    ensures r == -1 <==> id !in keys
  {
    if |keys| == 0 then -1
    else if keys[0] == id then 0
    else
      var r := IndexOf(keys[1..], id);
      assert forall j :: 1 <= j < |keys| ==> keys[j] == keys[1..][j - 1];
      if r >= 0 then r + 1 else -1
  }

  /** The image the gallery scrolls to for a variant: its image's position,
      or the first image when the variant's image is not in the gallery. */
  function ImageIndex(keys: seq<string>, id: string): (r: nat)
    ensures id in keys ==> r < |keys| && keys[r] == id && forall j :: 0 <= j < r ==> keys[j] != id
    ensures id !in keys ==> r == 0
  {
    var i := IndexOf(keys, id);
    if i < 0 then 0 else i
  }

  /** Whether the product is unavailable after a pick: with no gallery only
      a match clears the flag; with a gallery, a match whose image is shown
      clears it, and otherwise a match, or a validation that finds every axis
      picked, raises it. */
  predicate UnavailableAfterPick(gallery: bool, matched: bool, shown: bool, missing: bool, before: bool): (r: bool)
    ensures gallery && shown ==> !r
    ensures gallery && !shown && (matched || !missing) ==> r
    ensures !gallery && matched ==> !r
    ensures !(gallery && !shown && (matched || !missing)) ==> (r ==> before)
  {
    if !gallery then !matched && before
    else if shown then false
    else matched || !missing || before
  }

  /** Whether the variant at position `matched` has its image among the
      gallery's keys. */
  predicate ImageShown(variants: seq<Variant>, keys: seq<string>, matched: int) {
    0 <= matched < |variants| && variants[matched].imageId in keys
  }

  /** With a gallery and a matched variant, the pick leaves the product
      available exactly when the image the gallery scrolls to for the
      variant is the variant's own image. */
  lemma AvailableIffGalleryShowsVariant(variants: seq<Variant>, keys: seq<string>, matched: nat,
                                        missing: bool, before: bool)
    requires matched < |variants| && |keys| > 0
    ensures var id := variants[matched].imageId;
      !UnavailableAfterPick(true, true, ImageShown(variants, keys, matched), missing, before)
      <==> keys[ImageIndex(keys, id)] == id
  {
    var id := variants[matched].imageId;
    if keys[ImageIndex(keys, id)] == id {
      assert id in keys;
    }
  }

  class ProductDetailsScreen {
    const isInventory: bool                  // inventory tracking (`is_inventory`)
    var productOptions: seq<ProductOption>
    var variants: seq<Variant>               // `productVariants`
    var imageKeys: seq<string>               // the keys of `productImages`
    var options: seq<OptionAxis>             // `productVariantOptions`
    var selection: seq<Pick>                 // `selectedVariantIdList`
    var selectedItem: Option<Variant>        // None for `{}`
    var selectedPrice: string
    var selectedVariantID: string
    var isAvailableForSale: bool
    var isUnavailable: bool
    var isAddTocart: bool
    var isLoadError: bool
    var isPreventMultiple: bool
    var isAddToCartLoading: bool
    var isBuyNowLoading: bool
    var selectPriceIndex: PriceIndex
    var combinations: map<string, seq<Variant>>  // `multipleVariantCombination`
    var productQuantity: int                 // `product_quantity`
    var availableQty: int
    var initialImageScrollIndex: nat

    /** Every variant has an option entry for every axis, one axis per product
        option, and the quantity is at least 1. */
    ghost predicate Valid()
      reads this`variants, this`productOptions, this`options, this`productQuantity
    {
      Shaped(variants, |productOptions|) && |options| == |productOptions| && productQuantity >= 1
    }

    /** The screen shows variant v: it is the selected item, with its price,
        its availability and its image, and the cart button is reset. */
    ghost predicate ShowsVariant(v: Variant)
      reads this`selectedItem, this`selectedPrice, this`isAvailableForSale, this`isAddTocart
      reads this`initialImageScrollIndex, this`imageKeys
    {
      selectedItem == Some(v) && selectedPrice == v.price && isAvailableForSale == v.availableForSale
      && !isAddTocart && initialImageScrollIndex == ImageIndex(imageKeys, v.imageId)
    }

    /** The fields a matched pick overwrites. */
    ghost function Display(): (Option<Variant>, string, bool, bool, nat)
      reads this`selectedItem, this`selectedPrice, this`isAvailableForSale, this`isAddTocart
      reads this`initialImageScrollIndex
    {
      (selectedItem, selectedPrice, isAvailableForSale, isAddTocart, initialImageScrollIndex)
    }

    /** The state before the product is set up. */
    constructor (tracking: bool)
      ensures Valid()
      ensures isInventory == tracking
      ensures productOptions == [] && variants == [] && imageKeys == [] && options == [] && selection == []
      ensures selectedItem == None && selectedPrice == "" && selectedVariantID == ""
      ensures isAvailableForSale && !isUnavailable && !isAddTocart && !isLoadError && !isPreventMultiple
      ensures !isAddToCartLoading && !isBuyNowLoading
      ensures selectPriceIndex == At(0) && combinations == map[]
      ensures productQuantity == 1 && availableQty == 0 && initialImageScrollIndex == 0
    {
      isInventory := tracking;
      productOptions := [];
      variants := [];
      imageKeys := [];
      options := [];
      selection := [];
      selectedItem := None;
      selectedPrice := "";
      selectedVariantID := "";
      isAvailableForSale := true;
      isUnavailable := false;
      isAddTocart := false;
      isLoadError := false;
      isPreventMultiple := false;
      isAddToCartLoading := false;
      isBuyNowLoading := false;
      selectPriceIndex := At(0);
      combinations := map[];
      productQuantity := 1;
      availableQty := 0;
      initialImageScrollIndex := 0;
    }

    /** `productDetailSetup`: seeds the axes from the first variant that counts
        as available, computes the combinations of the new axes and the price
        index from the axes the screen held before, then upserts that
        variant's options into the selection list and selects it. With
        nothing available the selection is empty and the product is not for
        sale. */
    method Setup(newOptions: seq<ProductOption>, newVariants: seq<Variant>, images: seq<string>)
      requires Valid()
      requires Shaped(newVariants, |newOptions|)
      modifies this`productOptions, this`variants, this`imageKeys, this`options, this`selection
      modifies this`selectedItem, this`selectedPrice, this`isAvailableForSale, this`isUnavailable
      modifies this`isLoadError, this`selectPriceIndex, this`combinations, this`initialImageScrollIndex
      ensures Valid()
      ensures productOptions == newOptions && variants == newVariants && imageKeys == images
      ensures options == SeedAxes(newOptions, newVariants, isInventory)
      ensures combinations == Combinations(options)
      ensures selectPriceIndex == PriceIndexFrom(newVariants, old(options))
      ensures var first := FirstAvailable(newVariants, isInventory);
        first.Some? ==>
          selection == UpsertAll(old(selection), first.value.selectedOptions)
          && selectedItem == first && selectedPrice == first.value.price
          && isAvailableForSale == first.value.availableForSale
      ensures var first := FirstAvailable(newVariants, isInventory);
        first.None? ==>
          selection == old(selection) && selectedItem == None && selectedPrice == "" && !isAvailableForSale
      ensures !isUnavailable && !isLoadError && initialImageScrollIndex == 0
    {
      LoadProduct(newOptions, newVariants, images);
      SelectFirstAvailable();
    }

    /** The first state update of `productDetailSetup`: the seeded axes, their
        combinations, and the price index computed from the axes the screen
        held before the update. */
    method LoadProduct(newOptions: seq<ProductOption>, newVariants: seq<Variant>, images: seq<string>)
      requires Valid()
      requires Shaped(newVariants, |newOptions|)
      modifies this`productOptions, this`variants, this`imageKeys, this`options
      modifies this`isLoadError, this`selectPriceIndex, this`combinations
      ensures Valid()
      ensures productOptions == newOptions && variants == newVariants && imageKeys == images
      ensures options == SeedAxes(newOptions, newVariants, isInventory)
      ensures combinations == Combinations(options)
      ensures selectPriceIndex == PriceIndexFrom(newVariants, old(options))
      ensures !isLoadError
    {
      var seeded := SeedAxes(newOptions, newVariants, isInventory);
      StoreCombinations(seeded);
      var price := PriceIndexFrom(newVariants, options);
      selectPriceIndex, isLoadError := price, false;
      productOptions, imageKeys, variants, options := newOptions, images, newVariants, seeded;
    }

    /** `getUniqueVariantCombination`: stores the combination map of the
        given axes. */
    method StoreCombinations(axes: seq<OptionAxis>)
      modifies this`combinations
      ensures combinations == Combinations(axes)
    {
      combinations := Combinations(axes);
    }

    /** The callback of `productDetailSetup`: selects the first variant that
        counts as available and upserts its options into the selection list;
        with none, the selection list is kept, nothing is selected and the
        product is not for sale. The product is not marked unavailable. */
    method SelectFirstAvailable()
      modifies this`selection, this`selectedItem, this`selectedPrice, this`isAvailableForSale
      modifies this`isUnavailable, this`isLoadError, this`initialImageScrollIndex
      ensures var first := FirstAvailable(variants, isInventory);
        first.Some? ==>
          selection == UpsertAll(old(selection), first.value.selectedOptions)
          && selectedItem == first && selectedPrice == first.value.price
          && isAvailableForSale == first.value.availableForSale
      ensures var first := FirstAvailable(variants, isInventory);
        first.None? ==>
          selection == old(selection) && selectedItem == None && selectedPrice == "" && !isAvailableForSale
      ensures !isUnavailable && !isLoadError && initialImageScrollIndex == 0
    {
      var first := FirstAvailable(variants, isInventory);
      if first.Some? {
        UpsertSelection(first.value.selectedOptions);
        selectedPrice := first.value.price;
        selectedItem := first;
        isAvailableForSale := first.value.availableForSale;
      } else {
        selectedPrice := "";
        selectedItem := None;
        isAvailableForSale := false;
      }
      isLoadError := false;
      isUnavailable := false;
      initialImageScrollIndex := 0;
    }

    /** The setup callback's upsert of a variant's options, one by one, into
        the selection list. */
    method UpsertSelection(picks: seq<Pick>)
      modifies this`selection
      ensures selection == UpsertAll(old(selection), picks)
    {
      var i := 0;
      while i < |picks|
        invariant 0 <= i <= |picks|
        invariant selection == UpsertAll(old(selection), picks[..i])
      {
        assert picks[..i + 1][..i] == picks[..i];
        selection := Upsert(selection, picks[i].name, picks[i].value);
        i := i + 1;
      }
      assert picks[..|picks|] == picks;
    }

    /** `variantSelectionValidation`: writes "Select <name>" on every axis with
        nothing picked and "" on the others, and reports whether some axis
        has nothing picked. */
    method VariantSelectionValidation() returns (missing: bool)
      modifies this`options
      ensures options == WithErrors(old(options))
      ensures missing == AnyMissing(old(options))
    {
      ghost var axes := options;
      missing := false;
      var i := 0;
      while i < |options|
        invariant 0 <= i <= |options| && |options| == |axes|
        invariant forall k :: 0 <= k < i ==> options[k] == axes[k].(errorMassage := Some(ErrorFor(axes[k])))
        invariant forall k :: i <= k < |options| ==> options[k] == axes[k]
        invariant missing <==> exists k :: 0 <= k < i && axes[k].selectedValue == ""
      {
        if options[i].selectedValue == "" {
          options := options[i := options[i].(errorMassage := Some("Select " + options[i].name))];
          missing := true;
        } else {
          options := options[i := options[i].(errorMassage := Some(""))];
        }
        i := i + 1;
      }
    }

    /** `handelValueChange`: upserts the pick into the selection list, sets
        it on the axes with that name, and selects the last variant matching
        the picked values (nothing changes when none matches). With a gallery,
        a matched variant whose image the gallery shows is available; otherwise
        the picks are validated and, when every axis is picked, the product is
        marked unavailable. `index` is the matched variant's position, -1 for
        none. */
    method HandleValueChange(name: string, value: string, same: (seq<string>, seq<string>) -> bool)
      returns (ghost index: int)
      requires Valid()
      modifies this`selection, this`selectedVariantID, this`isLoadError, this`options
      modifies this`selectedItem, this`initialImageScrollIndex, this`selectedPrice
      modifies this`isAvailableForSale, this`isUnavailable, this`isAddTocart
      ensures Valid()
      ensures selection == Upsert(old(selection), name, value)
      ensures selectedVariantID == value && !isLoadError
      ensures index == LastMatching(Values(selection), variants, same)
      ensures index >= 0 ==> ShowsVariant(variants[index])
      ensures index < 0 ==> Display() == old(Display())
      ensures var picked := SelectValue(old(options), name, value);
        var shown := index >= 0 && variants[index].imageId in imageKeys;
        options == (if |imageKeys| > 0 && !shown then WithErrors(picked) else picked)
      ensures isUnavailable == UnavailableAfterPick(|imageKeys| > 0, index >= 0,
        index >= 0 && variants[index].imageId in imageKeys,
        AnyMissing(SelectValue(old(options), name, value)), old(isUnavailable))
    {
      PickValue(name, value);
      index := AfterPick(same);
    }

    /** The callback of `handelValueChange`, run once the pick is stored:
        clears the load error, resolves the picks to a variant and checks the
        gallery. */
    method AfterPick(same: (seq<string>, seq<string>) -> bool) returns (ghost index: int)
      requires Valid()
      modifies this`isLoadError, this`options
      modifies this`selectedItem, this`initialImageScrollIndex, this`selectedPrice
      modifies this`isAvailableForSale, this`isUnavailable, this`isAddTocart
      ensures Valid()
      ensures !isLoadError
      ensures index == LastMatching(Values(selection), variants, same)
      ensures index >= 0 ==> ShowsVariant(variants[index])
      ensures index < 0 ==> Display() == old(Display())
      ensures var shown := index >= 0 && variants[index].imageId in imageKeys;
        options == (if |imageKeys| > 0 && !shown then WithErrors(old(options)) else old(options))
      ensures isUnavailable == UnavailableAfterPick(|imageKeys| > 0, index >= 0,
        index >= 0 && variants[index].imageId in imageKeys, AnyMissing(old(options)), old(isUnavailable))
    {
      isLoadError := false;
      var i := ResolvePick(same);
      index := i;
      CheckImageAvailability(i, old(isUnavailable));
    }

    /** The first state update of `handelValueChange`: the pick upserted into
        the selection list and set on the axes with that name. */
    method PickValue(name: string, value: string)
      requires Valid()
      modifies this`selection, this`selectedVariantID, this`isLoadError, this`options
      ensures Valid()
      ensures selection == Upsert(old(selection), name, value)
      ensures selectedVariantID == value && !isLoadError
      ensures options == SelectValue(old(options), name, value)
    {
      selection := Upsert(selection, name, value);
      selectedVariantID := value;
      isLoadError := false;
      options := SelectValue(options, name, value);
    }

    /** The search of `handelValueChange`: the last variant whose option
        values match the selection list's values becomes the selected item,
        with its price, its availability and its image; with no match
        nothing changes. */
    method ResolvePick(same: (seq<string>, seq<string>) -> bool) returns (index: int)
      modifies this`selectedItem, this`initialImageScrollIndex, this`selectedPrice
      modifies this`isAvailableForSale, this`isUnavailable, this`isAddTocart
      ensures index == LastMatching(Values(selection), variants, same)
      ensures index >= 0 ==> ShowsVariant(variants[index]) && !isUnavailable
      ensures index < 0 ==> Display() == old(Display()) && isUnavailable == old(isUnavailable)
    {
      index := LastMatch(Values(selection), variants, same);
      if index >= 0 {
        var v := variants[index];
        selectedItem := Some(v);
        initialImageScrollIndex := ImageIndex(imageKeys, v.imageId);
        selectedPrice := v.price;
        isAvailableForSale := v.availableForSale;
        isUnavailable := false;
        isAddTocart := false;
      }
    }

    /** The gallery check of `handelValueChange`: with a gallery, a matched
        variant whose image is shown is available; a matched variant whose
        image is not shown is unavailable; then the picks are validated and
        the product is unavailable when every axis is picked. */
    method CheckImageAvailability(index: int, ghost before: bool)
      requires Valid()
      requires -1 <= index < |variants|
      requires isUnavailable == (index < 0 && before)
      modifies this`options, this`isUnavailable
      ensures Valid()
      ensures |imageKeys| > 0 && !(index >= 0 && variants[index].imageId in imageKeys) ==>
        options == WithErrors(old(options))
      ensures !(|imageKeys| > 0 && !(index >= 0 && variants[index].imageId in imageKeys)) ==>
        options == old(options)
      ensures isUnavailable == UnavailableAfterPick(|imageKeys| > 0, index >= 0,
        index >= 0 && variants[index].imageId in imageKeys, AnyMissing(old(options)), before)
    {
      if |imageKeys| > 0 {
        if index >= 0 {
          if variants[index].imageId in imageKeys {
            isUnavailable := false;
            return;
          }
          isUnavailable := true;
        }
        var missing := VariantSelectionValidation();
        if !missing {
          isUnavailable := true;
          return;
        }
      }
    }

    /** `onSelect`: clears the error of the picked axis, handles the pick,
        then gives the axis the variants `OnSelectData` offers for the picked
        value, recomputes the combinations and the price index. `matched` is
        the position of the variant the pick selected, -1 for none. */
    method OnSelect(value: string, index: nat, same: (seq<string>, seq<string>) -> bool)
      returns (ghost matched: int)
      requires Valid()
      requires index < |options|
      modifies this`selection, this`selectedVariantID, this`isLoadError, this`options
      modifies this`selectedItem, this`initialImageScrollIndex, this`selectedPrice
      modifies this`isAvailableForSale, this`isUnavailable, this`isAddTocart
      modifies this`combinations, this`selectPriceIndex
      ensures Valid()
      ensures selection == Upsert(old(selection), old(options)[index].name, value)
      ensures var checked := PickedAxes(old(options), index, value, |imageKeys| > 0 && !ImageShown(variants, imageKeys, matched));
        options == checked[index := checked[index].(quantityAvailableData :=
          OnSelectData(variants, |productOptions|, value))]
      ensures isUnavailable == UnavailableAfterPick(|imageKeys| > 0, matched >= 0, ImageShown(variants, imageKeys, matched),
        AnyMissing(ClearAndSelect(old(options), index, value)), old(isUnavailable))
      ensures selectPriceIndex == PriceIndexFrom(variants, options)
      ensures combinations == Combinations(options)
      ensures matched == LastMatching(Values(selection), variants, same)
      ensures matched >= 0 ==> ShowsVariant(variants[matched])
      ensures matched < 0 ==> Display() == old(Display())
    {
      ghost var before := options;
      matched := PickOnAxis(value, index, same);
      ghost var validated := |imageKeys| > 0 && !ImageShown(variants, imageKeys, matched);
      ghost var checked := options;
      assert checked == PickedAxes(before, index, value, validated);
      ghost var unavailable, display, picks := isUnavailable, Display(), selection;
      RefreshAfterPick(index, value, checked);
      assert isUnavailable == unavailable;
      assert Display() == display;
      assert selection == picks;
      assert options == checked[index := checked[index].(quantityAvailableData :=
        OnSelectData(variants, |productOptions|, value))];
    }

    /** The first half of `onSelect`: clears the error of the picked axis and
        handles the pick. */
    method PickOnAxis(value: string, index: nat, same: (seq<string>, seq<string>) -> bool)
      returns (ghost matched: int)
      requires Valid()
      requires index < |options|
      modifies this`selection, this`selectedVariantID, this`isLoadError, this`options
      modifies this`selectedItem, this`initialImageScrollIndex, this`selectedPrice
      modifies this`isAvailableForSale, this`isUnavailable, this`isAddTocart
      ensures Valid()
      ensures selection == Upsert(old(selection), old(options)[index].name, value)
      ensures options == PickedAxes(old(options), index, value, |imageKeys| > 0 && !ImageShown(variants, imageKeys, matched))
      ensures isUnavailable == UnavailableAfterPick(|imageKeys| > 0, matched >= 0, ImageShown(variants, imageKeys, matched),
        AnyMissing(ClearAndSelect(old(options), index, value)), old(isUnavailable))
      ensures matched == LastMatching(Values(selection), variants, same)
      ensures matched >= 0 ==> ShowsVariant(variants[matched])
      ensures matched < 0 ==> Display() == old(Display())
    {
      ghost var before := options;
      options := options[index := options[index].(errorMassage := Some(""))];
      var name := options[index].name;
      matched := HandleValueChange(name, value, same);
    }

    /** The rest of `onSelect`: the picked axis gets the variants
        `OnSelectData` offers for its pick, then the combinations and the
        price index are recomputed; no other axis and no pick changes. */
    method RefreshAfterPick(index: nat, value: string, ghost axes: seq<OptionAxis>)
      requires Valid()
      requires options == axes
      requires index < |axes| && axes[index].selectedValue == value
      modifies this`options, this`combinations, this`selectPriceIndex
      ensures Valid()
      ensures options == axes[index := axes[index].(quantityAvailableData :=
        OnSelectData(variants, |productOptions|, value))]
      ensures selectPriceIndex == PriceIndexFrom(variants, options)
      ensures combinations == Combinations(options)
    {
      var picked := options;
      var price := PriceIndexFrom(variants, options);
      OfferForPick(index);
      assert SelectedValues(options) == SelectedValues(picked);
      StoreCombinations(options);
      PriceIndexReadsPicks(variants, picked, options);
      selectPriceIndex := price;
    }

    /** The variants `onSelect` stores on the picked axis: those
        `OnSelectData` offers for its picked value. */
    method OfferForPick(index: nat)
      requires Valid()
      requires index < |options|
      modifies this`options
      ensures Valid()
      ensures options == old(options)[index := old(options)[index].(quantityAvailableData :=
        OnSelectData(variants, |productOptions|, old(options)[index].selectedValue))]
    {
      var data := OnSelectData(variants, |productOptions|, options[index].selectedValue);
      options := options[index := options[index].(quantityAvailableData := data)];
    }

    /** `checkAvailableQty`: the summed quantity of the cart's lines. */
    method CheckAvailableQty(cart: Option<seq<CartLine>>)
      modifies this`availableQty, this`isLoadError
      ensures availableQty == (if cart.Some? then TotalQuantity(cart.value) else 0)
      ensures !isLoadError
    {
      availableQty := SumQuantities(cart);
      isLoadError := false;
    }

    /** `actionQuantity`: the stepper's plus and minus. */
    method ActionQuantity(plus: bool)
      requires Valid()
      modifies this`productQuantity
      ensures Valid()
      ensures productQuantity == NextProductQuantity(old(productQuantity), plus)
    {
      var quantity := productQuantity;
      if plus {
        quantity := quantity + 1;
      } else {
        if quantity > 1 {
          quantity := quantity - 1;
        }
      }
      productQuantity := quantity;
    }

    /** `updateQuantity`: typed text sets the quantity; an empty field or a
        value that is not positive resets it to 1. */
    method UpdateQuantity(text: string)
      requires Valid()
      requires IsDigits(text)
      modifies this`productQuantity
      ensures Valid()
      ensures productQuantity == QuantityFromText(text)
    {
      if |text| <= 0 || ParseDigits(text) <= 0 {
        productQuantity := 1;
        return;
      }
      productQuantity := ParseDigits(text);
    }

    /** `onPressAddToCart`: the guards of `TapResult` in order. Validation
        writes the axes' error texts once the tap gets past the first guards,
        a missing pick raises the load error, and every outcome from opening
        the cart on blocks further taps until `DebounceElapsed`; an
        add-to-cart or buy-now request raises its loading flag. The stock
        check counts the cart lines of the variant at the price index,
        which need not be the selected variant (see
        `StockCheckAsWrittenMissesCart`). */
    method OnPressAddToCart(buyNow: bool, online: bool, cart: Option<seq<CartLine>>,
                            uploadShort: bool, component: Component) returns (outcome: TapOutcome)
      modifies this`options, this`isLoadError, this`isPreventMultiple
      modifies this`isAddToCartLoading, this`isBuyNowLoading
      ensures outcome == TapResult(TapState(old(isPreventMultiple), isUnavailable, isAvailableForSale, online,
                                            AnyMissing(old(options)), isInventory, isAddTocart,
                                            ItemStockAllowsAsWritten(selectedItem, variants, selectPriceIndex,
                                                                     cart, productQuantity),
                                            uploadShort, component, selectedItem), buyNow)
      ensures options == if outcome == Ignored then old(options) else WithErrors(old(options))
      ensures isLoadError == (old(isLoadError) || outcome == SelectionMissing)
      ensures isPreventMultiple ==
        (old(isPreventMultiple) || outcome == OpenCart || outcome == UnavailableDialog || outcome.StartAddToCart?)
      ensures isAddToCartLoading == (old(isAddToCartLoading) || (outcome.StartAddToCart? && !buyNow))
      ensures isBuyNowLoading == (old(isBuyNowLoading) || (outcome.StartAddToCart? && buyNow))
    {
      if isPreventMultiple || isUnavailable || !isAvailableForSale || !online {
        return Ignored;
      }
      var missing := VariantSelectionValidation();
      if missing {
        isLoadError := true;
        return SelectionMissing;
      }
      if !buyNow {
        var cartTitle := CartTitle(isInventory, isUnavailable, isAvailableForSale, isAddTocart);
        if isInventory {
          if !ItemStockAllowsAsWritten(selectedItem, variants, selectPriceIndex, cart, productQuantity)
             && cartTitle == AddToCartLabel {
            return MaxQuantityInCart;
          }
        }
      }
      outcome := CompleteTap(buyNow, uploadShort, component);
    }

    /** The rest of `onPressAddToCart` once the stock check passed: the
        upload and component guards, then opening the cart, the unavailable
        dialog or the request, each of which blocks further taps. */
    method CompleteTap(buyNow: bool, uploadShort: bool, component: Component) returns (outcome: TapOutcome)
      modifies this`isPreventMultiple, this`isAddToCartLoading, this`isBuyNowLoading
      ensures outcome == LateGuards(uploadShort, component, isAddTocart, selectedItem, buyNow)
      ensures isPreventMultiple ==
        (old(isPreventMultiple) || outcome == OpenCart || outcome == UnavailableDialog || outcome.StartAddToCart?)
      ensures isAddToCartLoading == (old(isAddToCartLoading) || (outcome.StartAddToCart? && !buyNow))
      ensures isBuyNowLoading == (old(isBuyNowLoading) || (outcome.StartAddToCart? && buyNow))
    {
      if uploadShort {
        return ImageUploadRequired;
      }
      var required := ComponentOutcome(component);
      if required.Some? {
        return required.value;
      }
      if isAddTocart && !buyNow {
        outcome := OpenCart;
      } else if selectedItem.None? {
        outcome := UnavailableDialog;
      } else {
        if buyNow {
          isBuyNowLoading := true;
        } else {
          isAddToCartLoading := true;
        }
        outcome := StartAddToCart(selectedItem.value.id, buyNow);
      }
      isPreventMultiple := true;
    }

    /** The end of the two-second debounce after a tap. */
    method DebounceElapsed()
      modifies this`isPreventMultiple
      ensures !isPreventMultiple
    {
      isPreventMultiple := false;
    }
  }
}
