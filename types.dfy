/** The records the two screens work on: product options and variants as the
    commerce API delivers them, the per-axis view state of the product
    screen, and cart lines with their attributes. */
module Types {
  import opened Common

  /** A name/value pair: one entry of a variant's `selectedOptions`, and one
      entry of the screen's `selectedVariantIdList`. */
  datatype Pick = Pick(name: string, value: string)

  /** A product variant. `title` is the option values joined by " / ". */
  datatype Variant = Variant(
    id: string,
    title: string,
    selectedOptions: seq<Pick>,
    quantityAvailable: int,
    availableForSale: bool,
    price: string,
    imageId: string)

  /** An option axis as the product lists it (`product.options`). */
  datatype ProductOption = ProductOption(name: string, values: seq<string>)

  /** An option axis with the screen's view state (`productVariantOptions`):
      the value picked on it ("" for none), its error text (None before the
      first validation) and the variants it offers. */
  datatype OptionAxis = OptionAxis(
    name: string,
    values: seq<string>,
    selectedValue: string,
    errorMassage: Option<string>,
    quantityAvailableData: seq<Variant>)

  /** A cart line custom attribute. */
  datatype Attribute = Attribute(key: string, value: string)

  /** The stock status the cart screen writes into each line. */
  datatype Status = OutOfStock | LessQuantity | Available

  /** A cart line: its id, the variant it holds, how many, the variant's stock,
      its attributes and the status the cart screen gave it (None before). */
  datatype CartLine = CartLine(
    id: string,
    merchandiseId: string,
    quantity: int,
    quantityAvailable: int,
    attributes: seq<Attribute>,
    status: Option<Status>)

  /** The values of a list of picks, in order. */
  function Values(picks: seq<Pick>): (r: seq<string>)
    ensures |r| == |picks|
    ensures forall i :: 0 <= i < |picks| ==> r[i] == picks[i].value
  {
    if |picks| == 0 then [] else [picks[0].value] + Values(picks[1..])
  }

  /** The summed quantity of all cart lines. */
  function TotalQuantity(lines: seq<CartLine>): int
  {
    if |lines| == 0 then 0 else TotalQuantity(lines[..|lines| - 1]) + lines[|lines| - 1].quantity
  }

  /** The summed quantity of the cart lines holding the variant `id`
      (no line matches when `id` is None). */
  function QuantityOf(lines: seq<CartLine>, id: Option<string>): (r: int)
    ensures id.None? ==> r == 0
  {
    if |lines| == 0 then 0
    else QuantityOf(lines[..|lines| - 1], id)
         + (if id == Some(lines[|lines| - 1].merchandiseId) then lines[|lines| - 1].quantity else 0)
  }

  /** Counting one variant's lines never exceeds counting all lines, when
      no line holds a negative quantity. */
  lemma {:induction false} QuantityOfAtMostTotal(lines: seq<CartLine>, id: Option<string>)
    requires forall i :: 0 <= i < |lines| ==> lines[i].quantity >= 0
    ensures 0 <= QuantityOf(lines, id) <= TotalQuantity(lines)
  {
    if |lines| > 0 {
      QuantityOfAtMostTotal(lines[..|lines| - 1], id);
    }
  }

  /** A variant no line holds has nothing in the cart. */
  lemma {:induction false} QuantityOfAbsent(lines: seq<CartLine>, id: string)
    requires forall i :: 0 <= i < |lines| ==> lines[i].merchandiseId != id
    ensures QuantityOf(lines, Some(id)) == 0
  {
    if |lines| > 0 {
      QuantityOfAbsent(lines[..|lines| - 1], id);
    }
  }
}
