# Variant selection, purchase gating and cart stock — a Dafny model

This project models the decision logic of two screens of a React Native shop
app built on a commerce API: the product-details screen and the cart screen.

On the **product screen** a product has option axes (a name, the values it
offers, the value picked on it, an error text and the variants it offers) and
variants (an id, a title made of the option values joined by `" / "`, a list
of name/value option entries, a stock count and a for-sale flag). The model
covers:
- seeding the picks from the first variant in stock when the product loads;
- the per-axis lists of variants compatible with the other axes' picks;
- upserting a pick into the selection list;
- resolving the picks to a variant, where the last match wins;
- the `Number(...)` price index;
- flagging axes with nothing picked;
- the quantity stepper and text field;
- the add-to-cart stock check and the order of the add-to-cart guards;
- the button label and colour table;
- the cart attributes sent with an add-to-cart, including the entries of the
  product's custom component (sizes, picked image, message, contact, text);
- the "Default Title" option filter.

On the **cart screen** the model covers:
- classifying each line as out of stock, short or available, and gating
  checkout on that;
- the quantity stepper and its remaining headroom `qtyToPass`;
- the `Quantity` attribute rewrite of a line update;
- the line list sent to checkout;
- the routing of a confirmed order.

Both screens keep their state in React component state. Each becomes a Dafny
`class` whose fields are that state. A `setState` is a sequence of field
assignments, and its callback runs right after them. The pure helpers become
functions over datatypes:
- `Common`: Option, digit strings;
- `Types`: variants, axes, cart lines;
- `VariantLogic`: the selection helpers;
- `Purchase`: labels, the stock check, the guard order;
- `Cart`: the cart logic and `CartScreen`.

Three helpers whose code is not part of this model are parameters:
- `compareTwoSingleArray`, which decides whether the picked values match a
  variant, is the function parameter `same`;
- `stringifyWithoutQuotes` is the parameter `stringify`;
- lodash `isEmpty` on the selected item is the `None` case of an `Option`.

Where the code and its documented intent differ, the model follows the code:
- With inventory tracking on and no variant in stock, nothing is seeded, no
  variant is selected and the product is not for sale. There is no fallback to
  the first variant.
- When several variants match the picks, the last one wins, not the first.
- The price index drops index 0, so index 0 cannot be told apart from "no
  match". Two or more matches give NaN; the model keeps that case as the
  `NaN` constructor.
- An undefined cart-stepper headroom does not always stay undefined. A minus
  tap that leaves the quantity at or above the stock sets it to 0
  (`Cart.UndefinedHeadroom`, `Cart.HeadroomDefinedByMinus`).
- The add-to-cart stock check counts the cart lines of the variant at the
  price index, which need not be the selected variant
  (`ProductDetails.ProductDetailsScreen.OnPressAddToCart` uses that check; see
  "Findings").
- `verifyItemOrGet` ignores its `strQuery` argument. With no cart id it shows
  the loader and never hides it.
- `[...new Set(...)]` in `getUniqueVariantCombination` compares variants by
  reference after a deep copy, so it removes nothing. The model does not
  de-duplicate either.

## Model

| member | source | states |
|---|---|---|
| `Common.QuantityFromText` | CartScreen.tsx:508-517 | the stored quantity is the typed number when it is positive, and 1 for an empty field or a zero |
| `Common.QuantityTextRoundTrip` | ProductDetailsScreen.tsx:2021-2030 | typing back a displayed quantity of at least 1 leaves the quantity unchanged |
| `Common.ParseNatToString` | CartScreen.tsx:519-528 | `quantity.toString()` parses back to the quantity |
| `Types.QuantityOfAtMostTotal` | ProductDetailsScreen.tsx:1547-1596 | what the cart holds of one variant is between 0 and the total of all lines, for non-negative line quantities |
| `Types.QuantityOf` | ProductDetailsScreen.tsx:1573-1579 | the `reduce` over the cart lines matching `variants[selectPriceIndex]?.node.id`; an undefined id matches no line and sums to 0 |
| `Types.QuantityOfAbsent` | ProductDetailsScreen.tsx:1573-1578 | a variant held by no line sums to 0 in the `reduce` |
| `VariantLogic.SplitJoinTitle` | ProductDetailsScreen.tsx:786-787 | splitting at `" / "` a title joined from slash-free option values gives the values back |
| `VariantLogic.SplitTitle` | ProductDetailsScreen.tsx:786-786 | `title.split(' / ')` always yields at least one part |
| `VariantLogic.JoinTitle` | ProductDetailsScreen.tsx:786-787 | the title built from option values starts with the first value and holds a three-character separator for each further value |
| `VariantLogic.CompareArraysIsSubset` | ProductDetailsScreen.tsx:745-747 | `every ... includes`: true exactly when the values of the first list form a subset of those of the second |
| `VariantLogic.FindSelectedValue` | ProductDetailsScreen.tsx:802-810 | the result holds exactly the non-empty picks of the axes with another name, and nothing else |
| `VariantLogic.CommonUniqueArray` | ProductDetailsScreen.tsx:750-760 | a variant is in the result exactly when some axis with another name offers it |
| `VariantLogic.CompatibleWith` | ProductDetailsScreen.tsx:783-789 | the kept candidates are exactly those whose split title contains every picked value (`compareArrays`) |
| `VariantLogic.CombinationAtProperty` | ProductDetailsScreen.tsx:771-797 | with several axes, a variant is listed for an axis iff another axis offers it and its title holds every non-empty pick of the others; with one axis, the list is the axis's own offered variants |
| `VariantLogic.CombinationKeyInjective` | ProductDetailsScreen.tsx:766-768 | distinct axis names give distinct `<name>Combination` keys |
| `VariantLogic.CombinationsUpToEntries` | ProductDetailsScreen.tsx:762-800 | the combination map has a key exactly for each axis name, holding the list of an axis with that name |
| `VariantLogic.CombinationsProperty` | ProductDetailsScreen.tsx:745-810 | every variant stored under an axis's key comes from another axis's offered variants, and its title holds the other axes' picks; with a single axis it is that axis's own |
| `VariantLogic.CombinationsMatchOptions` | ProductDetailsScreen.tsx:783-789 | for a variant whose title is built from its options, being listed means its option values contain each non-empty pick of the other axes |
| `VariantLogic.AxisData` | ProductDetailsScreen.tsx:611-624 | an axis offers exactly the multi-option variants carrying the seed at that position, plus every single-option variant |
| `VariantLogic.FirstAvailableIndex` | ProductDetailsScreen.tsx:594-596 | the first index counting as available (stock > 0 under tracking, any variant otherwise), or -1 when none does |
| `VariantLogic.FirstAvailable` | ProductDetailsScreen.tsx:594-599 | `availableVariants[0]` is None exactly when no variant counts as available, and otherwise is one that does |
| `VariantLogic.FirstAvailableAt` | ProductDetailsScreen.tsx:594-596 | the first available variant is the one at the first index that counts as available |
| `VariantLogic.SeedValue` | ProductDetailsScreen.tsx:598-609 | the seed is "" or a value the axis offers that the variant gives for the axis's name; it is "" when the variant gives no offered value for the name |
| `VariantLogic.SeedFromNamedPick` | ProductDetailsScreen.tsx:598-609 | when the variant names the axis once, the seed is that value if the axis offers it, "" otherwise |
| `VariantLogic.SeedPrefix` | ProductDetailsScreen.tsx:590-633 | each seeded axis is built from the option at the same position |
| `VariantLogic.SeedAxesKeepOptions` | ProductDetailsScreen.tsx:626-633 | one seeded axis per product option, with its name and values and no error text |
| `VariantLogic.InitialSelection` | ProductDetailsScreen.tsx:590-633 | each axis is seeded with the first available variant's value for it when the axis offers that value, "" otherwise, and offers the variants matching the seed |
| `VariantLogic.NothingInStockSeedsNothing` | ProductDetailsScreen.tsx:594-598 | with tracking on and no variant in stock every seed is "" (no fallback) |
| `VariantLogic.FindName` | ProductDetailsScreen.tsx:820-821 | `findIndex` by name: the first entry with that name, or -1 when there is none |
| `VariantLogic.FindNameIs` | ProductDetailsScreen.tsx:820-821 | the first-match properties determine the index |
| `VariantLogic.Upsert` | ProductDetailsScreen.tsx:820-826 | an existing name keeps the length; an absent name appends exactly one entry |
| `VariantLogic.UpsertLookup` | ProductDetailsScreen.tsx:820-826 | after the upsert the name holds the new value and every other name keeps its value |
| `VariantLogic.UpsertKeepsNamesUnique` | ProductDetailsScreen.tsx:690-703 | the upsert keeps one entry per name, grows the list by one only for an absent name, and leaves other entries as they were |
| `VariantLogic.UpsertAllLookup` | ProductDetailsScreen.tsx:688-703 | after seeding from a variant, each of its names holds its value and other names keep theirs |
| `VariantLogic.SelectValue` | ProductDetailsScreen.tsx:833-839 | every axis with the picked name takes the value; the other axes are unchanged |
| `VariantLogic.SelectValueIgnoresErrors` | ProductDetailsScreen.tsx:1616-1618 | clearing an axis's error text before a pick does not change the picks it leaves |
| `VariantLogic.ClearAndSelect` | ProductDetailsScreen.tsx:1613-1618 | `onSelect` clears the picked axis's error text and sets the pick on it and on every axis sharing its name; every other axis is unchanged |
| `VariantLogic.PickedAxes` | ProductDetailsScreen.tsx:1613-1618 | the axes after the pick, validated or not, hold the value on the picked axis and the same picks as setting the value by name |
| `VariantLogic.LastMatching` | ProductDetailsScreen.tsx:843-853 | the index the match scan ends with is -1 or a valid variant position |
| `VariantLogic.LastMatchingIsLast` | ProductDetailsScreen.tsx:843-853 | the scan finds -1 exactly when no variant matches; otherwise it finds a match with no match after it (last match wins) |
| `VariantLogic.LastMatch` | ProductDetailsScreen.tsx:843-853 | the `forEach` that overwrites the index on every match computes the last matching index |
| `VariantLogic.TruthyMatches` | ProductDetailsScreen.tsx:636-648 | the filtered list holds exactly the matching indices other than 0, ascending |
| `VariantLogic.PriceIndexCases` | ProductDetailsScreen.tsx:636-652 | the price index (as the setup and `onSelect` compute it) is 0 iff no index other than 0 matches, NaN iff two do, and otherwise the unique matching index |
| `VariantLogic.PriceIndexReadsPicks` | ProductDetailsScreen.tsx:1624-1636 | the price index depends only on the axes' picks |
| `VariantLogic.IdAt` | ProductDetailsScreen.tsx:1575-1575 | `variants[selectPriceIndex]?.node.id` is defined exactly for an in-range index |
| `VariantLogic.OnSelectData` | ProductDetailsScreen.tsx:1638-1656 | the picked axis offers exactly the variants that carry the picked value at some axis position, or that have a single option |
| `VariantLogic.WithErrors` | ProductDetailsScreen.tsx:1527-1535 | every axis gets the validation's error text and is otherwise unchanged |
| `VariantLogic.ValidationErrors` | ProductDetailsScreen.tsx:1524-1544 | an axis shows "Select <name>" iff nothing is picked on it, and "" iff something is |
| `VariantLogic.ValidationIdempotent` | ProductDetailsScreen.tsx:1524-1544 | validation keeps the picks and the missing-axis answer, and validating twice equals validating once |
| `VariantLogic.VisibleAxes` | ProductDetailsScreen.tsx:2377-2383 | the shown axes are exactly those offering no value that lower-cases to "default title" |
| `VariantLogic.VisibleAxesAppend` | ProductDetailsScreen.tsx:2377-2383 | the `filter` keeps the shown axes in their order: filtering a concatenation concatenates the filtered parts |
| `Purchase.CartTitle` | ProductDetailsScreen.tsx:2245-2255 | Unavailable iff tracking and unavailable; Sold Out iff tracking, available and not for sale; View Cart / Add to Cart by `isAddTocart` otherwise, so without tracking never Unavailable or Sold Out |
| `Purchase.BuyNowTitle` | ProductDetailsScreen.tsx:2257-2263 | Buy Now unless tracking is on and the variant is unavailable or not for sale |
| `Purchase.ButtonColour` | ProductDetailsScreen.tsx:2272-2280 | grey exactly when tracking is on and the variant is unavailable or not for sale |
| `Purchase.LabelTableAgrees` | ProductDetailsScreen.tsx:2245-2280 | the buttons are grey exactly when the cart label is Unavailable or Sold Out, and buy-now then shows the same label |
| `Purchase.RoomForBound` | ProductDetailsScreen.tsx:1587-1592 | for a quantity of at least 1, the refusal condition fails exactly when cart plus quantity stays within the stock |
| `Purchase.ItemStockAllowsAsWritten` | ProductDetailsScreen.tsx:1561-1596 | as written: passes with no selection or no cart, else refuses iff the lines of the variant at the price index sum to the stock or leave less than the quantity |
| `Purchase.ItemStockAllows` | ProductDetailsScreen.tsx:1561-1596 | passes with no selection or no cart, else refuses iff the lines of the selected variant sum to its stock or leave less than the quantity |
| `Purchase.StockCheckBound` | ProductDetailsScreen.tsx:1584-1592 | a passing check leaves the cart below the stock and room for the whole quantity |
| `Purchase.StockCheckEmptyCart` | ProductDetailsScreen.tsx:1584-1592 | with none of the variant in the cart, the check passes iff the quantity fits the stock |
| `Purchase.StockChecksAgree` | ProductDetailsScreen.tsx:1573-1578 | the two checks agree whenever the price index names the selected variant |
| `Purchase.StockCheckAsWrittenMissesCart` | ProductDetailsScreen.tsx:1573-1578 | a concrete cart the as-written check lets through although it already holds the selected variant's whole stock |
| `Purchase.SumQuantities` | ProductDetailsScreen.tsx:1547-1559 | `checkAvailableQty`'s loop sums all line quantities, 0 without a cart |
| `Purchase.NextProductQuantity` | ProductDetailsScreen.tsx:2010-2019 | plus adds 1; minus subtracts 1 only above 1; a quantity of at least 1 stays at least 1 |
| `Purchase.MinusUndoesPlus` | ProductDetailsScreen.tsx:2010-2019 | a minus after a plus restores any quantity of at least 1 |
| `Purchase.CartAttributes` | ProductDetailsScreen.tsx:989-1170 | one `Upload Image <n>` entry per uploaded image when uploads are allowed, then the component's entries, then title, id ("" when absent) and Quantity "1" |
| `Purchase.SizeAndImage` | ProductDetailsScreen.tsx:1003-1118 | an entry is listed iff it is the inch height or width of an inch tag, the foot height or width of CC_917 (both dimensions non-empty in each case), or the picked image of CC_909 with its value or "" |
| `Purchase.MessageEntries` | ProductDetailsScreen.tsx:1120-1146 | an entry is listed iff it is CC_911's short message or CC_915's contact number or content, each only when `trim()` leaves it non-empty |
| `Purchase.NameEntries` | ProductDetailsScreen.tsx:1147-1167 | an entry is listed iff it is CC_911's name, CC_915's title or CC_914's text under its label, each only when `trim()` leaves it non-empty |
| `Purchase.ComponentAttributes` | ProductDetailsScreen.tsx:1001-1167 | an entry is listed iff it is one of those the component's tag pushes and its field passes that push's test (`ComponentEntry`); a tag the code does not test adds no entry, and no component adds more than three |
| `Purchase.ComponentOutcome` | ProductDetailsScreen.tsx:1444-1461 | only a message (CC_911) or text-area (CC_914) component can stop the tap, on a blank short message, then a blank name, or a blank text |
| `Purchase.GuardedComponentAttributes` | ProductDetailsScreen.tsx:1120-1166 | once the required fields pass, a message component adds exactly its short message and its name, and a text-area component ends with its text under its label |
| `Purchase.UploadKeysDistinct` | ProductDetailsScreen.tsx:994-997 | no two uploaded images share a key |
| `Purchase.LateGuards` | ProductDetailsScreen.tsx:1436-1512 | past the stock check the tap is never ignored or refused for a missing pick or for stock; an upload request iff the uploads are short; a request starts, for the selected variant, iff the uploads and component are complete, the cart is not opened and a variant is selected |
| `Purchase.TapResult` | ProductDetailsScreen.tsx:1382-1512 | ignored iff a repeat tap, an unavailable or unsellable variant or no network; a missing pick is reported iff not ignored; an upload request needs a short upload; the cart opens only for a variant in the cart on add-to-cart with the component complete; a request names the selected variant |
| `Purchase.StartNeedsAllGuards` | ProductDetailsScreen.tsx:1382-1512 | a request starts only after every guard passes: no repeat tap, a sellable variant, a network, every axis picked, uploads and component fields complete, a selected variant, and for add-to-cart not yet in the cart with the stock check passed under tracking |
| `Purchase.MaxQuantityExactly` | ProductDetailsScreen.tsx:1408-1435 | the "maximum quantity in cart" refusal happens iff the earlier guards pass, it is a plain add-to-cart under tracking, the stock check fails and the variant is not in the cart |
| `Purchase.StockCheckSkipped` | ProductDetailsScreen.tsx:1410-1435 | buy-now, a variant already in the cart, or tracking off make the stock check irrelevant |
| `ProductDetails.IndexOf` | ProductDetailsScreen.tsx:884-886 | `findIndex` by key: the first position of the id, -1 iff absent |
| `ProductDetails.ImageIndex` | ProductDetailsScreen.tsx:859-866 | the position of the variant's image in the gallery, or 0 when it is not there |
| `ProductDetails.UnavailableAfterPick` | ProductDetailsScreen.tsx:881-899 | with a gallery a shown image clears the flag, and an unshown match or a complete selection raises it; without a gallery a match clears it; in no other case is it raised |
| `ProductDetails.AvailableIffGalleryShowsVariant` | ProductDetailsScreen.tsx:881-899 | with a gallery and a matched variant, the product stays available iff the gallery position chosen for the variant (`ImageIndex`) holds the variant's own image |
| `ProductDetails.ProductDetailsScreen.constructor` | ProductDetailsScreen.tsx:449-522 | the initial state: nothing loaded or selected, for sale, quantity 1, price index 0 |
| `ProductDetails.ProductDetailsScreen.Setup` | ProductDetailsScreen.tsx:574-721 | `productDetailSetup`: seeded axes, their combinations, price index from the previous axes, then the first available variant upserted and selected, or no selection and not for sale |
| `ProductDetails.ProductDetailsScreen.LoadProduct` | ProductDetailsScreen.tsx:590-677 | the first state update: product data, seeded axes, combinations, price index from the axes held before |
| `ProductDetails.ProductDetailsScreen.StoreCombinations` | ProductDetailsScreen.tsx:762-800 | stores the combination map of the given axes |
| `ProductDetails.ProductDetailsScreen.SelectFirstAvailable` | ProductDetailsScreen.tsx:678-721 | the setup callback: selects the first available variant and upserts its options, or keeps the list, selects nothing and is not for sale |
| `ProductDetails.ProductDetailsScreen.UpsertSelection` | ProductDetailsScreen.tsx:688-703 | the in-place upsert loop equals upserting the variant's options one by one |
| `ProductDetails.ProductDetailsScreen.VariantSelectionValidation` | ProductDetailsScreen.tsx:1524-1544 | the loop writes every axis's error text and returns true iff some axis has nothing picked |
| `ProductDetails.ProductDetailsScreen.HandleValueChange` | ProductDetailsScreen.tsx:812-902 | upserts the pick, sets it on the axes, selects the last matching variant with its price, availability and image (nothing changes without a match), and sets the unavailable flag from the gallery and validation |
| `ProductDetails.ProductDetailsScreen.PickValue` | ProductDetailsScreen.tsx:816-840 | the first state update: selection upsert, picked id, axes with the pick |
| `ProductDetails.ProductDetailsScreen.AfterPick` | ProductDetailsScreen.tsx:841-900 | the callback: resolves the pick and applies the gallery check |
| `ProductDetails.ProductDetailsScreen.ResolvePick` | ProductDetailsScreen.tsx:843-879 | the last matching variant becomes the selected item with its price, availability and image; no match changes nothing |
| `ProductDetails.ProductDetailsScreen.CheckImageAvailability` | ProductDetailsScreen.tsx:881-899 | with a gallery, a matched variant whose image is shown is available; otherwise the picks are validated and a complete selection is marked unavailable |
| `ProductDetails.ProductDetailsScreen.OnSelect` | ProductDetailsScreen.tsx:1613-1665 | the axes are the picked axes (validated when the gallery does not show the matched image) with `OnSelectData` offered on the picked axis and nothing else changed; the unavailable flag follows the gallery and validation; the last match is shown; combinations and price index are recomputed from the new picks |
| `ProductDetails.ProductDetailsScreen.PickOnAxis` | ProductDetailsScreen.tsx:1613-1618 | clears the axis's error and handles the pick: the axes become `PickedAxes`, validated when the gallery does not show the matched image, and the unavailable flag follows |
| `ProductDetails.ProductDetailsScreen.RefreshAfterPick` | ProductDetailsScreen.tsx:1620-1665 | only the picked axis changes, taking the offered variants for its pick; the combinations and price index are recomputed |
| `ProductDetails.ProductDetailsScreen.OfferForPick` | ProductDetailsScreen.tsx:1638-1658 | only the picked axis changes, and only its offered variants |
| `ProductDetails.ProductDetailsScreen.CheckAvailableQty` | ProductDetailsScreen.tsx:1547-1559 | stores the summed cart quantity, 0 without a cart, and clears the load error |
| `ProductDetails.ProductDetailsScreen.ActionQuantity` | ProductDetailsScreen.tsx:2010-2019 | the stepper stores the next quantity and keeps it at least 1 |
| `ProductDetails.ProductDetailsScreen.UpdateQuantity` | ProductDetailsScreen.tsx:2021-2030 | typed digits set the quantity; empty or zero resets it to 1 |
| `ProductDetails.ProductDetailsScreen.OnPressAddToCart` | ProductDetailsScreen.tsx:1382-1520 | the outcome is the guard table on the current state, with the stock check as written (the lines of the variant at the price index); validation runs past the first guards; a missing pick raises the load error; outcomes from opening the cart on block repeat taps and raise the matching loading flag |
| `ProductDetails.ProductDetailsScreen.CompleteTap` | ProductDetailsScreen.tsx:1436-1520 | the outcome is the late guards on the current uploads, component, cart flag and selected variant; opening the cart, the unavailable dialog and a request block repeat taps, and a request raises the loading flag of its button |
| `ProductDetails.ProductDetailsScreen.DebounceElapsed` | ProductDetailsScreen.tsx:1514-1519 | the debounce end allows taps again |
| `Cart.Classified` | CartScreen.tsx:442-456 | same length and order; each line changes only its status, which is out of stock iff no stock, short iff stock below the quantity, available iff it fits |
| `Cart.ClassifyLines` | CartScreen.tsx:438-462 | the `filter` loop yields the classified lines and checkout iff every line fits, iff every status is available (true for no lines) |
| `Cart.Opened` | CartScreen.tsx:617-633 | opening sets the requested quantity with headroom stock minus request, balanced, when it fits, and undefined headroom otherwise |
| `Cart.Step` | CartScreen.tsx:474-505 | one tap keeps a quantity of at least 1 at least 1; under tracking keeps a quantity within the stock within it and keeps quantity plus headroom equal to the stock |
| `Cart.Steps` | CartScreen.tsx:474-505 | any sequence of taps keeps a quantity of at least 1; under tracking keeps it within the stock and keeps quantity plus headroom equal to the stock |
| `Cart.StepMoves` | CartScreen.tsx:474-500 | plus under tracking moves only below the stock; minus moves only above 1 |
| `Cart.MinusZeroesHeadroom` | CartScreen.tsx:489-500 | a minus that leaves the quantity at or above the stock sets the headroom to 0 |
| `Cart.UndefinedHeadroom` | CartScreen.tsx:474-503 | an undefined headroom stays undefined through a tap, except that such a minus defines it as 0 |
| `Cart.HeadroomDefinedByMinus` | CartScreen.tsx:489-503 | a line of 5 with 3 in stock opens with undefined headroom, and one minus sets it to 0 |
| `Cart.WithQuantity` | CartScreen.tsx:342-347 | same length and keys; every `Quantity` entry takes the new quantity; the other entries are unchanged |
| `Cart.WithQuantityLatestWins` | CartScreen.tsx:342-347 | rewriting twice equals rewriting once with the later quantity |
| `Cart.UpdateQuantityReadsBack` | CartScreen.tsx:519-528 | the update request's quantity text parses back to the quantity, and every `Quantity` attribute carries it |
| `Cart.Entry` | CartScreen.tsx:388-398 | each line's entry is a non-empty `{ ... }` object |
| `Cart.BuildQuery` | CartScreen.tsx:384-400 | the `forEach` builds the entries of all lines joined by ", " |
| `Cart.JoinStartsWithFirst` | CartScreen.tsx:387-391 | the joined list starts with its first entry |
| `Cart.QueryEmptyIffNoLines` | CartScreen.tsx:384-400 | the line list is empty iff the cart has no lines, and starts with the first line's entry |
| `Cart.JoinKeepsOrder` | CartScreen.tsx:392-398 | joining a prefix of the entries gives a prefix of the join |
| `Cart.QueryKeepsOrder` | CartScreen.tsx:384-400 | the entries appear in the order of the lines |
| `Cart.ConfirmRoute` | CartScreen.tsx:654-682 | busy iff a delete or load runs; offline stops; checkout iff guest checkout or a token; login otherwise |
| `Cart.CheckoutRoute` | CartScreen.tsx:222-248 | a checkout page iff the fetched cart has lines all fitting under tracking; discount-code iff the store has that screen |
| `Cart.CheckoutNeedsAvailableCart` | CartScreen.tsx:207-261 | a confirmed order reaches a payment or discount page only with nothing running, a network, permission to check out and a non-empty cart whose lines are all available under tracking |
| `Cart.CartScreen.constructor` | CartScreen.tsx:155-178 | the initial state with the store defaults: guest checkout and inventory tracking on unless set off |
| `Cart.CartScreen.CheckQuantityAvailable` | CartScreen.tsx:438-462 | returns whether every line fits, stores the classified lines, and stores the checkout flag only for a non-empty list |
| `Cart.CartScreen.ActionQuantityView` | CartScreen.tsx:617-633 | the stepper state is `Opened` for the line's stock and the requested quantity |
| `Cart.CartScreen.ActionUpdateQuantity` | CartScreen.tsx:464-505 | the new stepper state is one `Step` of the old one against the selected line's stock |
| `Cart.CartScreen.UpdateQuantity` | CartScreen.tsx:508-517 | typed digits set the quantity; empty or zero resets it to 1 |
| `Cart.CartScreen.ActionUpdateCartItem` | CartScreen.tsx:519-528 | the request for the selected line with the stepper's quantity and rewritten attributes, none offline |
| `Cart.CartScreen.ActionConfirmOrder` | CartScreen.tsx:654-682 | the outcome is the confirm route; the alert closes once past the busy and network checks |
| `Cart.CartScreen.CreateCheckoutQuery` | CartScreen.tsx:373-436 | online, the line list of the cart's lines; none offline |
| `Cart.CartScreen.VerifyItemOrGet` | CartScreen.tsx:207-261 | routes the fetched cart, classifies it under tracking, hides the loader except with no cart id, and clears the delete flag on a failed fetch |

## Left out

- Network, Redux and navigation. The network check, the API calls, their
  promises and the Redux actions are left out. Their outcomes (`online`, a
  token, the fetched cart, a cart id) are parameters.
- Rendering, theming, scrolling, toasts, dialogs and analytics events.
- Prices and the discount percentage. These are floating point; prices are
  carried as opaque strings.
- Timing. The two-second debounce after a tap is the separate method
  `DebounceElapsed`, and `setState` is synchronous in the model.
- `compareTwoSingleArray`, `stringifyWithoutQuotes`, `getComponentTag` and
  `isAllowImageUploading` are not part of this model. The first two are
  function parameters. The component's tag and the upload shortfall are inputs
  of the tap.
- `Purchase.CartAttributes`: for a sized component (inch or foot) the code
  also looks up or creates a variant of the generated size
  (`doCreateProductVariant`, lines 1016-1059 and 1075-1111). That network
  round trip, and the variant id it yields, are left out; only the attribute
  entries are modelled.
- `Purchase.IsSpace` lists by code point the white space and line
  terminators that JavaScript's `trim()` removes, with the space separators
  (Unicode category Zs) of current Unicode; a separator added by a later
  Unicode version is not tracked.
- `Purchase.NextProductQuantity`, `Cart.Step` and `Cart.Steps` add and
  subtract on unbounded integers. In the source a quantity is a JavaScript
  number (an IEEE double), and both agree only below 2^53
  (9007199254740992). From 2^53 up, `quantity + 1` can leave the quantity
  unchanged, so `Purchase.MinusUndoesPlus` holds in the source only below
  2^53.
- `Common.ParseDigits` and `Common.NatToString` are exact decimal parsing
  and rendering. `parseInt` rounds a digit string whose value is 2^53 or
  more, and `toString()` switches to exponent notation from 10^21. So
  `Common.QuantityTextRoundTrip`, `Common.ParseNatToString` and
  `Cart.UpdateQuantityReadsBack` state the source's behaviour only for
  quantities below 2^53.
- Text that is not a digit string. `parseInt` of such text gives NaN, which
  the screens would store. `Common.QuantityFromText`,
  `ProductDetails.ProductDetailsScreen.UpdateQuantity` and
  `Cart.CartScreen.UpdateQuantity` require a digit string.
- Variants with fewer option entries than the product has axes. The source
  would fail indexing `selectedOptions`, so the model requires every variant
  to have an entry per axis.
- A variant without an image. The source would fail reading `image.id` at
  line 884, so every variant carries an image id.
- The in-place mutation the screens rely on is modelled on values:
  - `handelValueChange` writes the pick into the axis objects that `onSelect`
    still holds;
  - `checkQuantityAvailable` writes statuses into the fetched lines.
  The model passes the updated values on and does not model the aliasing.
- `VariantLogic.CompatibleWith`: the `[...new Set(...)]` step is not
  modelled, because it compares objects by reference after a deep copy and
  removes nothing.
- CategoryScreen.tsx is not part of this model.

## Findings

| source | as written | input that shows it | evidently intended | confidence | as-written member | corrected member |
|---|---|---|---|---|---|---|
| ProductDetailsScreen.tsx:1573-1578 | the stock check (used by `onPressAddToCart`) sums the cart lines of `variants[selectPriceIndex]` and compares them with the stock of the selected item | variants a (Size S, no stock) and b (Size M, stock 2), b selected by the initial seeding, price index 0, the cart holding 2 of b: the check passes and a third b can be added | count the cart lines of the selected variant itself | not executed | `Purchase.StockCheckAsWrittenMissesCart` | `Purchase.StockCheckBound` |
