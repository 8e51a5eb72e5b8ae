/** The pure variant-selection logic of the product-details screen: seeding
    the option axes from the first in-stock variant, the per-axis combination
    lists, the selection list upsert, resolving the picks to a variant, the
    price index, the validation of unselected axes and the "Default Title"
    option filter. */
module VariantLogic {
  import opened Common
  import opened Types

  // ---------------------------------------------------------------------------
  // Titles: a variant title is its option values joined by " / ".

  /** No '/' occurs in the string. */
  predicate NoSlash(s: string) {
    forall i :: 0 <= i < |s| ==> s[i] != '/'
  }

  /** `s.split(' / ')` with `cur` the part of the current piece already read:
      the string is scanned left to right and cut at each separator. */
  function SplitFrom(s: string, cur: string): (r: seq<string>)
    ensures |r| >= 1
    decreases |s|
  {
    if |s| < 3 then [cur + s]
    else if s[..3] == " / " then [cur] + SplitFrom(s[3..], "")
    else SplitFrom(s[1..], cur + [s[0]])
  }

  /** `title.split(' / ')`. */
  function SplitTitle(title: string): (r: seq<string>)
    ensures |r| >= 1
  {
    SplitFrom(title, "")
  }

  /** The option values joined by " / ", as the commerce API builds a title. */
  function JoinTitle(values: seq<string>): (r: string)
    requires |values| >= 1
    ensures values[0] <= r
    ensures |r| >= 3 * (|values| - 1) + |values[0]|
  {
    if |values| == 1 then values[0] else values[0] + " / " + JoinTitle(values[1..])
  }

  lemma {:induction false} SplitWithoutSeparator(s: string, cur: string)
    requires NoSlash(s)
    ensures SplitFrom(s, cur) == [cur + s]
    decreases |s|
  {
    if |s| >= 3 {
      assert s[..3][1] == s[1];
      SplitWithoutSeparator(s[1..], cur + [s[0]]);
      assert cur + [s[0]] + s[1..] == cur + s;
    }
  }

  lemma {:induction false} SplitAtSeparator(v: string, t: string, cur: string)
    requires NoSlash(v)
    ensures SplitFrom(v + " / " + t, cur) == [cur + v] + SplitFrom(t, "")
    decreases |v|
  {
    var s := v + " / " + t;
    if |v| == 0 {
      assert s == " / " + t;
      assert s[..3] == " / ";
      assert s[3..] == t;
      assert cur + v == cur;
    } else {
      assert s[1] != '/' by {
        if |v| >= 2 { assert s[1] == v[1]; } else { assert s[1] == ' '; }
      }
      assert s[..3][1] == s[1];
      assert s[1..] == v[1..] + " / " + t;
      SplitAtSeparator(v[1..], t, cur + [v[0]]);
      assert cur + [v[0]] + v[1..] == cur + v;
    }
  }

  /** Splitting a title joined from slash-free values gives the values back. */
  lemma {:induction false} SplitJoinTitle(values: seq<string>)
    requires |values| >= 1
    requires forall i :: 0 <= i < |values| ==> NoSlash(values[i])
    ensures SplitTitle(JoinTitle(values)) == values
  {
    if |values| == 1 {
      SplitWithoutSeparator(values[0], "");
      assert "" + values[0] == values[0];
    } else {
      SplitAtSeparator(values[0], JoinTitle(values[1..]), "");
      assert "" + values[0] == values[0];
      SplitJoinTitle(values[1..]);
    }
  }

  /** A variant whose title is its option values joined by " / ", none of
      which contains a '/'. */
  predicate TitleFromOptions(v: Variant) {
    |v.selectedOptions| >= 1
    && (forall i :: 0 <= i < |v.selectedOptions| ==> NoSlash(v.selectedOptions[i].value))
    && v.title == JoinTitle(Values(v.selectedOptions))
  }

  // ---------------------------------------------------------------------------
  // compareArrays, findSelectedValue, commonUniqueArray

  /** `compareArrays`: every element of the first list occurs in the second. */
  predicate CompareArrays(arr1: seq<string>, arr2: seq<string>) {
    forall i :: 0 <= i < |arr1| ==> arr1[i] in arr2
  }

  /** `compareArrays` is set inclusion of the two lists' values. */
  lemma CompareArraysIsSubset(arr1: seq<string>, arr2: seq<string>)
    ensures CompareArrays(arr1, arr2) <==> (set x | x in arr1) <= (set x | x in arr2)
  {
    var a, b := set x | x in arr1, set x | x in arr2;
    if CompareArrays(arr1, arr2) {
      forall x | x in a ensures x in b {
        var i :| 0 <= i < |arr1| && arr1[i] == x;
      }
    } else {
      var i :| 0 <= i < |arr1| && arr1[i] !in arr2;
      assert arr1[i] in a && arr1[i] !in b;
    }
  }

  /** `findSelectedValue`: the non-empty picked values of the axes not named
      `key`, in axis order. */
  function FindSelectedValue(axes: seq<OptionAxis>, key: string): (r: seq<string>)
    ensures |r| <= |axes|
    ensures forall x :: x in r ==>
      x != "" && exists j :: 0 <= j < |axes| && axes[j].name != key && axes[j].selectedValue == x
    ensures forall j :: 0 <= j < |axes| && axes[j].name != key && axes[j].selectedValue != "" ==>
      axes[j].selectedValue in r
  {
    if |axes| == 0 then []
    else
      var rest := FindSelectedValue(axes[1..], key);
      assert forall j :: 1 <= j < |axes| ==> axes[j] == axes[1..][j - 1];
      (if axes[0].name != key && axes[0].selectedValue != "" then [axes[0].selectedValue] else []) + rest
  }

  /** `commonUniqueArray`: the offered variants of all axes not named `key`,
      concatenated in axis order. */
  function CommonUniqueArray(axes: seq<OptionAxis>, key: string): (r: seq<Variant>)
    ensures forall v :: v in r <==>
      exists j :: 0 <= j < |axes| && axes[j].name != key && v in axes[j].quantityAvailableData
  {
    if |axes| == 0 then []
    else
      var rest := CommonUniqueArray(axes[1..], key);
      assert forall j :: 1 <= j < |axes| ==> axes[j] == axes[1..][j - 1];
      assert forall v :: v in rest <==>
        exists j :: 1 <= j < |axes| && axes[j].name != key && v in axes[j].quantityAvailableData by {
        forall v | v in rest ensures exists j :: 1 <= j < |axes| && axes[j].name != key && v in axes[j].quantityAvailableData {
          var j :| 0 <= j < |axes[1..]| && axes[1..][j].name != key && v in axes[1..][j].quantityAvailableData;
          assert axes[j + 1] == axes[1..][j];
        }
      }
      (if axes[0].name != key then axes[0].quantityAvailableData else []) + rest
  }

  /** The candidates whose " / "-split title contains every picked value. */
  function CompatibleWith(candidates: seq<Variant>, picked: seq<string>): (r: seq<Variant>)
    ensures |r| <= |candidates|
    ensures forall v :: v in r <==> v in candidates && CompareArrays(picked, SplitTitle(v.title))
  {
    if |candidates| == 0 then []
    else
      (if CompareArrays(picked, SplitTitle(candidates[0].title)) then [candidates[0]] else [])
      + CompatibleWith(candidates[1..], picked)
  }

  // ---------------------------------------------------------------------------
  // getUniqueVariantCombination

  /** The combination list `getUniqueVariantCombination` computes for axis i:
      the variants the other axes offer whose title holds the other axes'
      picks, or, with a single axis, the axis's own offered variants. */
  function CombinationAt(axes: seq<OptionAxis>, i: nat): seq<Variant>
    requires i < |axes|
  {
    if |axes| > 1 then
      CompatibleWith(CommonUniqueArray(axes, axes[i].name), FindSelectedValue(axes, axes[i].name))
    else
      axes[i].quantityAvailableData
  }

  /** With more than one axis, a variant is listed for axis i exactly when
      another axis offers it and its title holds every non-empty pick of the
      other axes; with one axis the list is the axis's own. */
  lemma CombinationAtProperty(axes: seq<OptionAxis>, i: nat)
    requires i < |axes|
    ensures |axes| > 1 ==> forall v :: v in CombinationAt(axes, i) <==>
      ((exists j :: 0 <= j < |axes| && axes[j].name != axes[i].name && v in axes[j].quantityAvailableData)
       && CompareArrays(FindSelectedValue(axes, axes[i].name), SplitTitle(v.title)))
    ensures |axes| == 1 ==> CombinationAt(axes, i) == axes[i].quantityAvailableData
  {
  }

  /** The state key under which an axis's combination list is stored. */
  function CombinationKey(name: string): string {
    name + "Combination"
  }

  lemma CombinationKeyInjective(a: string, b: string)
    requires CombinationKey(a) == CombinationKey(b)
    ensures a == b
  {
    assert |a| == |b|;
    assert CombinationKey(a)[..|a|] == a;
    assert CombinationKey(b)[..|b|] == b;
  }

  /** The combination map after processing the first n axes, later axes
      overwriting earlier ones with the same name. */
  function CombinationsUpTo(axes: seq<OptionAxis>, n: nat): map<string, seq<Variant>>
    requires n <= |axes|
  {
    if n == 0 then map[]
    else CombinationsUpTo(axes, n - 1)[CombinationKey(axes[n - 1].name) := CombinationAt(axes, n - 1)]
  }

  /** `multipleVariantCombination` as `getUniqueVariantCombination` stores it. */
  function Combinations(axes: seq<OptionAxis>): map<string, seq<Variant>> {
    CombinationsUpTo(axes, |axes|)
  }

  /** The map has a key exactly for each axis name, and each entry is the
      combination list of an axis with that name (the last one). */
  lemma {:induction false} CombinationsUpToEntries(axes: seq<OptionAxis>, n: nat, name: string)
    requires n <= |axes|
    ensures CombinationKey(name) in CombinationsUpTo(axes, n) <==>
      exists i :: 0 <= i < n && axes[i].name == name
    ensures CombinationKey(name) in CombinationsUpTo(axes, n) ==>
      exists i :: 0 <= i < n && axes[i].name == name
        && CombinationsUpTo(axes, n)[CombinationKey(name)] == CombinationAt(axes, i)
  {
    if n > 0 {
      var prev := CombinationsUpTo(axes, n - 1);
      var m := CombinationsUpTo(axes, n);
      var key := CombinationKey(name);
      CombinationsUpToEntries(axes, n - 1, name);
      if axes[n - 1].name == name {
        assert m[key] == CombinationAt(axes, n - 1);
      } else {
        if CombinationKey(axes[n - 1].name) == key {
          CombinationKeyInjective(axes[n - 1].name, name);
        }
        assert key in m <==> key in prev;
        if key in prev {
          var i :| 0 <= i < n - 1 && axes[i].name == name && prev[key] == CombinationAt(axes, i);
          assert m[key] == prev[key];
        } else {
          assert forall i :: 0 <= i < n - 1 ==> axes[i].name != name;
        }
      }
    }
  }

  /** The combination-list property of `getUniqueVariantCombination`: with more
      than one axis, every variant listed for an axis is offered by another
      axis and its title holds every non-empty pick of the other axes; with a
      single axis the list is that axis's own offered variants. */
  lemma CombinationsProperty(axes: seq<OptionAxis>, name: string, v: Variant)
    requires CombinationKey(name) in Combinations(axes)
    requires v in Combinations(axes)[CombinationKey(name)]
    ensures |axes| > 1 ==>
      (exists j :: 0 <= j < |axes| && axes[j].name != name && v in axes[j].quantityAvailableData)
      && CompareArrays(FindSelectedValue(axes, name), SplitTitle(v.title))
    ensures |axes| == 1 ==> name == axes[0].name && v in axes[0].quantityAvailableData
  {
    CombinationsUpToEntries(axes, |axes|, name);
    var i :| 0 <= i < |axes| && axes[i].name == name && Combinations(axes)[CombinationKey(name)] == CombinationAt(axes, i);
    CombinationAtProperty(axes, i);
  }

  /** For a variant whose title is built from its options, being listed means
      its option values contain every non-empty pick of the other axes. */
  lemma CombinationsMatchOptions(axes: seq<OptionAxis>, name: string, v: Variant, j: nat)
    requires |axes| > 1
    requires CombinationKey(name) in Combinations(axes)
    requires v in Combinations(axes)[CombinationKey(name)]
    requires TitleFromOptions(v)
    requires j < |axes| && axes[j].name != name && axes[j].selectedValue != ""
    ensures axes[j].selectedValue in Values(v.selectedOptions)
  {
    CombinationsProperty(axes, name, v);
    SplitJoinTitle(Values(v.selectedOptions));
    var picked := FindSelectedValue(axes, name);
    var k :| 0 <= k < |picked| && picked[k] == axes[j].selectedValue;
  }

  // ---------------------------------------------------------------------------
  // productDetailSetup: the initial selection

  /** Every variant has at least n option entries, so `selectedOptions[k]`
      exists for every axis index k < n. */
  predicate Shaped(variants: seq<Variant>, n: nat) {
    forall v :: v in variants ==> n <= |v.selectedOptions|
  }

  /** The filter that builds an axis's offered variants: a multi-option variant
      whose k-th option has the picked value, or any single-option variant. */
  predicate KeepForAxis(v: Variant, k: nat, sel: string)
    requires k < |v.selectedOptions|
  {
    (v.selectedOptions[k].value == sel && |v.selectedOptions| > 1) || |v.selectedOptions| == 1
  }

  /** The variants offered on axis k when `sel` is picked on it, in list order. */
  function AxisData(variants: seq<Variant>, k: nat, sel: string): (r: seq<Variant>)
    requires Shaped(variants, k + 1)
    ensures |r| <= |variants|
    ensures forall v :: v in r <==> v in variants && KeepForAxis(v, k, sel)
  {
    if |variants| == 0 then []
    else
      assert Shaped(variants[1..], k + 1) by {
        forall v | v in variants[1..] ensures k + 1 <= |v.selectedOptions| { assert v in variants; }
      }
      (if KeepForAxis(variants[0], k, sel) then [variants[0]] else []) + AxisData(variants[1..], k, sel)
  }

  /** Whether a variant counts as available: always when inventory tracking is
      off, only with stock when it is on. */
  predicate InStockFor(v: Variant, tracking: bool) {
    !tracking || v.quantityAvailable > 0
  }

  /** The position of the first variant that counts as available, or -1. */
  function FirstAvailableIndex(variants: seq<Variant>, tracking: bool): (r: int)
    ensures -1 <= r < |variants|
    ensures r == -1 ==> forall i :: 0 <= i < |variants| ==> !InStockFor(variants[i], tracking)
    ensures r >= 0 ==> (InStockFor(variants[r], tracking)
      && forall j :: 0 <= j < r ==> !InStockFor(variants[j], tracking))
  {
    if |variants| == 0 then -1
    else if InStockFor(variants[0], tracking) then 0
    else
      var r := FirstAvailableIndex(variants[1..], tracking);
      assert forall i :: 1 <= i < |variants| ==> variants[i] == variants[1..][i - 1];
      if r >= 0 then r + 1 else -1
  }

  /** `availableVariants[0]`: the first variant that counts as available. */
  function FirstAvailable(variants: seq<Variant>, tracking: bool): (r: Option<Variant>)
    ensures r.None? <==> forall i :: 0 <= i < |variants| ==> !InStockFor(variants[i], tracking)
    ensures r.Some? ==> r.value in variants && InStockFor(r.value, tracking)
  {
    var i := FirstAvailableIndex(variants, tracking);
    if i >= 0 then Some(variants[i]) else None
  }

  /** The first variant that counts as available is the one at the first index
      that counts as available. */
  lemma FirstAvailableAt(variants: seq<Variant>, tracking: bool, i: nat)
    requires i < |variants| && InStockFor(variants[i], tracking)
    requires forall j :: 0 <= j < i ==> !InStockFor(variants[j], tracking)
    ensures FirstAvailable(variants, tracking) == Some(variants[i])
  {
    var f := FirstAvailableIndex(variants, tracking);
    assert !(f < i) && !(i < f);
  }

  /** The value an axis is seeded with from a variant's options: the last
      entry named like the axis whose value the axis offers, or "". */
  function SeedValue(option: ProductOption, picks: seq<Pick>): (r: string)
    ensures r == "" || (r in option.values && Pick(option.name, r) in picks)
    ensures (forall i :: 0 <= i < |picks| ==> picks[i].name != option.name || picks[i].value !in option.values)
      ==> r == ""
  {
    if |picks| == 0 then ""
    else
      var last := picks[|picks| - 1];
      if last.name == option.name && last.value in option.values then last.value
      else
        var r := SeedValue(option, picks[..|picks| - 1]);
        assert forall i :: 0 <= i < |picks| - 1 ==> picks[..|picks| - 1][i] == picks[i];
        assert Pick(option.name, r) in picks[..|picks| - 1] ==> Pick(option.name, r) in picks;
        r
  }

  /** When the variant names the axis once, the seed is that entry's value if
      the axis offers it, and "" otherwise. */
  lemma {:induction false} SeedFromNamedPick(option: ProductOption, picks: seq<Pick>, p: nat)
    requires p < |picks| && picks[p].name == option.name
    requires forall j :: 0 <= j < |picks| && j != p ==> picks[j].name != option.name
    ensures SeedValue(option, picks) == if picks[p].value in option.values then picks[p].value else ""
  {
    var init := picks[..|picks| - 1];
    if p < |picks| - 1 {
      assert forall j :: 0 <= j < |init| ==> init[j] == picks[j];
      SeedFromNamedPick(option, init, p);
    } else if picks[p].value !in option.values {
      assert forall j :: 0 <= j < |init| ==> init[j] == picks[j];
    }
  }

  /** One seeded axis of `productDetailSetup`: its seed, no error text yet, and
      the variants offered for the seed. */
  function SeedAxis(option: ProductOption, k: nat, variants: seq<Variant>, first: Option<Variant>): OptionAxis
    requires Shaped(variants, k + 1)
  {
    var sel := if first.Some? then SeedValue(option, first.value.selectedOptions) else "";
    OptionAxis(option.name, option.values, sel, None, AxisData(variants, k, sel))
  }

  /** The first n seeded axes. */
  function SeedPrefix(options: seq<ProductOption>, variants: seq<Variant>, first: Option<Variant>, n: nat): (r: seq<OptionAxis>)
    requires n <= |options| && Shaped(variants, |options|)
    ensures |r| == n
    ensures forall k :: 0 <= k < n ==> r[k] == SeedAxis(options[k], k, variants, first)
  {
    if n == 0 then [] else SeedPrefix(options, variants, first, n - 1) + [SeedAxis(options[n - 1], n - 1, variants, first)]
  }

  /** The `variantOptions` list `productDetailSetup` builds from the product's
      options. */
  function SeedAxes(options: seq<ProductOption>, variants: seq<Variant>, tracking: bool): (r: seq<OptionAxis>)
    requires Shaped(variants, |options|)
    ensures |r| == |options|
  {
    SeedPrefix(options, variants, FirstAvailable(variants, tracking), |options|)
  }

  /** Each seeded axis keeps the name and values of the product option at its
      position and carries no error text. */
  lemma SeedAxesKeepOptions(options: seq<ProductOption>, variants: seq<Variant>, tracking: bool, k: nat)
    requires Shaped(variants, |options|) && k < |options|
    ensures var r := SeedAxes(options, variants, tracking);
      r[k].name == options[k].name && r[k].values == options[k].values && r[k].errorMassage == None
  {
  }

  /** The initial selection: each axis is seeded from the first variant that
      counts as available (with stock when tracking is on, the first variant
      otherwise), taking that variant's value for the axis when the axis
      offers it and "" when not; the axis then offers the variants matching
      the seed on it. */
  lemma InitialSelection(options: seq<ProductOption>, variants: seq<Variant>, tracking: bool,
                         k: nat, i: nat, p: nat)
    requires Shaped(variants, |options|)
    requires k < |options| && i < |variants|
    requires InStockFor(variants[i], tracking)
    requires forall j :: 0 <= j < i ==> !InStockFor(variants[j], tracking)
    requires p < |variants[i].selectedOptions| && variants[i].selectedOptions[p].name == options[k].name
    requires forall j :: 0 <= j < |variants[i].selectedOptions| && j != p ==>
      variants[i].selectedOptions[j].name != options[k].name
    ensures var seed := variants[i].selectedOptions[p].value;
      SeedAxes(options, variants, tracking)[k].selectedValue == (if seed in options[k].values then seed else "")
    ensures SeedAxes(options, variants, tracking)[k].quantityAvailableData ==
      AxisData(variants, k, SeedAxes(options, variants, tracking)[k].selectedValue)
  {
    FirstAvailableAt(variants, tracking, i);
    SeedFromNamedPick(options[k], variants[i].selectedOptions, p);
  }

  /** No fallback: with tracking on and no variant in stock, no axis is seeded. */
  lemma NothingInStockSeedsNothing(options: seq<ProductOption>, variants: seq<Variant>, k: nat)
    requires Shaped(variants, |options|)
    requires forall i :: 0 <= i < |variants| ==> variants[i].quantityAvailable <= 0
    requires k < |options|
    ensures SeedAxes(options, variants, true)[k].selectedValue == ""
  {
    assert FirstAvailable(variants, true) == None;
    var r := SeedAxes(options, variants, true);
    assert r[k] == SeedAxis(options[k], k, variants, None);
  }

  // ---------------------------------------------------------------------------
  // The selection list (`selectedVariantIdList`)

  /** `findIndex(item => item.name === name)`. */
  function FindName(list: seq<Pick>, name: string): (r: int)
    ensures -1 <= r < |list|
    ensures r >= 0 ==> list[r].name == name && forall j :: 0 <= j < r ==> list[j].name != name
    ensures r == -1 ==> forall j :: 0 <= j < |list| ==> list[j].name != name
  {
    if |list| == 0 then -1
    else if list[0].name == name then 0
    else
      var r := FindName(list[1..], name);
      assert forall j :: 1 <= j < |list| ==> list[j] == list[1..][j - 1];
      if r >= 0 then r + 1 else -1
  }

  /** The properties of `FindName` determine it. */
  lemma {:induction false} FindNameIs(list: seq<Pick>, name: string, i: int)
    requires -1 <= i < |list|
    requires i >= 0 ==> list[i].name == name && forall j :: 0 <= j < i ==> list[j].name != name
    requires i == -1 ==> forall j :: 0 <= j < |list| ==> list[j].name != name
    ensures FindName(list, name) == i
  {
    var f := FindName(list, name);
    if f >= 0 && i >= 0 {
      assert !(f < i) && !(i < f);
    }
  }

  /** The value the selection list holds for a name (its first entry). */
  function Lookup(list: seq<Pick>, name: string): Option<string> {
    var i := FindName(list, name);
    if i >= 0 then Some(list[i].value) else None
  }

  /** The selection upsert: overwrite the value of the first entry with that
      name, or append a new entry. */
  function Upsert(list: seq<Pick>, name: string, value: string): (r: seq<Pick>)
    ensures FindName(list, name) >= 0 ==> |r| == |list|
    ensures FindName(list, name) == -1 ==> r == list + [Pick(name, value)]
  {
    var i := FindName(list, name);
    if i >= 0 then list[i := Pick(name, value)] else list + [Pick(name, value)]
  }

  /** At most one entry per name. */
  predicate UniqueNames(list: seq<Pick>) {
    forall i, j :: 0 <= i < j < |list| ==> list[i].name != list[j].name
  }

  /** After the upsert the name holds the new value and every other name keeps
      its value. */
  lemma UpsertLookup(list: seq<Pick>, name: string, value: string, other: string)
    ensures Lookup(Upsert(list, name, value), name) == Some(value)
    ensures other != name ==> Lookup(Upsert(list, name, value), other) == Lookup(list, other)
  {
    var r := Upsert(list, name, value);
    var i := FindName(list, name);
    if i >= 0 {
      assert forall j :: 0 <= j < |r| ==> r[j].name == list[j].name;
      FindNameIs(r, name, i);
      if other != name {
        FindNameIs(r, other, FindName(list, other));
      }
    } else {
      assert forall j :: 0 <= j < |list| ==> r[j] == list[j];
      FindNameIs(r, name, |list|);
      if other != name {
        FindNameIs(r, other, FindName(list, other));
      }
    }
  }

  /** The upsert keeps the list at one entry per name, and grows it by one
      exactly when the name was absent. */
  lemma UpsertKeepsNamesUnique(list: seq<Pick>, name: string, value: string)
    requires UniqueNames(list)
    ensures UniqueNames(Upsert(list, name, value))
    ensures |Upsert(list, name, value)| == |list| + (if FindName(list, name) >= 0 then 0 else 1)
    ensures forall j :: 0 <= j < |list| && list[j].name != name ==> Upsert(list, name, value)[j] == list[j]
  {
    var r := Upsert(list, name, value);
    var i := FindName(list, name);
    if i >= 0 {
      assert forall j :: 0 <= j < |r| ==> r[j].name == list[j].name;
    }
  }

  /** The selection list after upserting each entry of `picks` in order, as the
      setup callback does in place. */
  function UpsertAll(list: seq<Pick>, picks: seq<Pick>): seq<Pick>
    decreases |picks|
  {
    if |picks| == 0 then list
    else Upsert(UpsertAll(list, picks[..|picks| - 1]), picks[|picks| - 1].name, picks[|picks| - 1].value)
  }

  /** Seeding the selection list from a variant whose option names are
      distinct: each of its names then holds that variant's value, and a name
      it does not use keeps its old value. */
  lemma {:induction false} UpsertAllLookup(list: seq<Pick>, picks: seq<Pick>, name: string)
    requires UniqueNames(picks)
    ensures FindName(picks, name) >= 0 ==>
      Lookup(UpsertAll(list, picks), name) == Some(picks[FindName(picks, name)].value)
    ensures FindName(picks, name) == -1 ==> Lookup(UpsertAll(list, picks), name) == Lookup(list, name)
    decreases |picks|
  {
    if |picks| > 0 {
      var init := picks[..|picks| - 1];
      var last := picks[|picks| - 1];
      assert forall j :: 0 <= j < |init| ==> init[j] == picks[j];
      assert UniqueNames(init);
      UpsertAllLookup(list, init, name);
      UpsertLookup(UpsertAll(list, init), last.name, last.value, name);
      if last.name != name {
        FindNameIs(picks, name, FindName(init, name));
      } else {
        FindNameIs(init, name, -1);
        FindNameIs(picks, name, |picks| - 1);
      }
    }
  }

  /** The axes after a pick: every axis with the picked name takes the value. */
  function SelectValue(axes: seq<OptionAxis>, name: string, value: string): (r: seq<OptionAxis>)
    ensures |r| == |axes|
    ensures forall k :: 0 <= k < |axes| && axes[k].name == name ==> r[k] == axes[k].(selectedValue := value)
    ensures forall k :: 0 <= k < |axes| && axes[k].name != name ==> r[k] == axes[k]
  {
    if |axes| == 0 then []
    else
      var last := axes[|axes| - 1];
      SelectValue(axes[..|axes| - 1], name, value) + [if last.name == name then last.(selectedValue := value) else last]
  }

  /** The axes after `onSelect` picks `value` on axis `index`: that axis's
      error text is cleared and the pick is set on every axis sharing its
      name; no other field changes. */
  function ClearAndSelect(axes: seq<OptionAxis>, index: nat, value: string): (r: seq<OptionAxis>)
    requires index < |axes|
    ensures |r| == |axes|
    ensures r[index] == axes[index].(errorMassage := Some(""), selectedValue := value)
    ensures forall k :: 0 <= k < |axes| && k != index ==>
      r[k] == (if axes[k].name == axes[index].name then axes[k].(selectedValue := value) else axes[k])
  {
    SelectValue(axes[index := axes[index].(errorMassage := Some(""))], axes[index].name, value)
  }

  /** The axes `handelValueChange` leaves after `onSelect` picks `value` on
      axis `index`: the pick as `ClearAndSelect` sets it, with the error
      texts of a validation when `validated`. Validation changes no pick. */
  function PickedAxes(axes: seq<OptionAxis>, index: nat, value: string, validated: bool): (r: seq<OptionAxis>)
    requires index < |axes|
    ensures |r| == |axes| && r[index].selectedValue == value
    ensures SelectedValues(r) == SelectedValues(SelectValue(axes, axes[index].name, value))
  {
    var picked := ClearAndSelect(axes, index, value);
    SelectValueIgnoresErrors(axes, index, Some(""), axes[index].name, value);
    ValidationIdempotent(picked);
    if validated then WithErrors(picked) else picked
  }

  /** The picked value of every axis, in axis order. */
  function SelectedValues(axes: seq<OptionAxis>): seq<string> {
    seq(|axes|, k requires 0 <= k < |axes| => axes[k].selectedValue)
  }

  /** Setting a pick reads only the names and the picks of the axes, so
      clearing an axis's error text beforehand does not change the picks it
      leaves. */
  lemma SelectValueIgnoresErrors(axes: seq<OptionAxis>, i: nat, e: Option<string>, name: string, value: string)
    requires i < |axes|
    ensures SelectedValues(SelectValue(axes[i := axes[i].(errorMassage := e)], name, value))
         == SelectedValues(SelectValue(axes, name, value))
  {
    var cleared := axes[i := axes[i].(errorMassage := e)];
    var a, b := SelectValue(cleared, name, value), SelectValue(axes, name, value);
    forall k | 0 <= k < |axes| ensures a[k].selectedValue == b[k].selectedValue {
      assert cleared[k].name == axes[k].name && cleared[k].selectedValue == axes[k].selectedValue;
    }
  }

  // ---------------------------------------------------------------------------
  // Resolving the picks to a variant (last match wins)

  /** The index of the last variant whose option values `same` relates to the
      picked values, or -1 when none is. */
  function LastMatching(picked: seq<string>, variants: seq<Variant>,
                        same: (seq<string>, seq<string>) -> bool): (r: int)
    ensures -1 <= r < |variants|
    decreases |variants|
  {
    if |variants| == 0 then -1
    else if same(picked, Values(variants[|variants| - 1].selectedOptions)) then |variants| - 1
    else LastMatching(picked, variants[..|variants| - 1], same)
  }

  /** The scan finds a match exactly when some variant matches, and what it
      finds is a match with no match after it. */
  lemma {:induction false} LastMatchingIsLast(picked: seq<string>, variants: seq<Variant>,
                                              same: (seq<string>, seq<string>) -> bool)
    ensures var r := LastMatching(picked, variants, same);
      r == -1 <==> forall i :: 0 <= i < |variants| ==> !same(picked, Values(variants[i].selectedOptions))
    ensures var r := LastMatching(picked, variants, same);
      r >= 0 ==> (same(picked, Values(variants[r].selectedOptions))
        && forall j :: r < j < |variants| ==> !same(picked, Values(variants[j].selectedOptions)))
    decreases |variants|
  {
    if |variants| > 0 && !same(picked, Values(variants[|variants| - 1].selectedOptions)) {
      var init := variants[..|variants| - 1];
      LastMatchingIsLast(picked, init, same);
      assert forall i :: 0 <= i < |init| ==> init[i] == variants[i];
    }
  }

  /** The `forEach` scan of `handelValueChange` that overwrites the index on
      every match. */
  method LastMatch(picked: seq<string>, variants: seq<Variant>,
                   same: (seq<string>, seq<string>) -> bool) returns (index: int)
    ensures index == LastMatching(picked, variants, same)
  {
    index := -1;
    var i := 0;
    while i < |variants|
      invariant 0 <= i <= |variants|
      invariant index == LastMatching(picked, variants[..i], same)
    {
      assert variants[..i + 1][..i] == variants[..i];
      if same(picked, Values(variants[i].selectedOptions)) {
        index := i;
      }
      i := i + 1;
    }
    assert variants[..|variants|] == variants;
  }

  // ---------------------------------------------------------------------------
  // selectPriceIndex

  /** `Number(indexOfVal)`: 0 for no element, the element for one, NaN for more. */
  datatype PriceIndex = At(index: nat) | NaN

  /** A variant every one of whose option values equals the pick of the axis
      at the same position. */
  predicate MatchesAxes(v: Variant, axes: seq<OptionAxis>) {
    |v.selectedOptions| <= |axes|
    && forall j :: 0 <= j < |v.selectedOptions| ==> v.selectedOptions[j].value == axes[j].selectedValue
  }

  /** The indices below n of the matching variants, with index 0 dropped by
      the truthiness filter, ascending. */
  function TruthyMatches(variants: seq<Variant>, axes: seq<OptionAxis>, n: nat): (r: seq<nat>)
    requires n <= |variants|
    ensures forall x :: x in r <==> 0 < x < n && MatchesAxes(variants[x], axes)
    ensures forall a, b :: 0 <= a < b < |r| ==> r[a] < r[b]
    ensures forall a :: 0 <= a < |r| ==> r[a] < n
  {
    if n == 0 then []
    else TruthyMatches(variants, axes, n - 1) + (if n - 1 != 0 && MatchesAxes(variants[n - 1], axes) then [n - 1] else [])
  }

  /** The `selectPriceIndex` the screen stores. */
  function PriceIndexFrom(variants: seq<Variant>, axes: seq<OptionAxis>): PriceIndex {
    var m := TruthyMatches(variants, axes, |variants|);
    if |m| == 0 then At(0) else if |m| == 1 then At(m[0]) else NaN
  }

  /** The price index is the unique matching index other than 0, or 0 when no
      index other than 0 matches (index 0 is indistinguishable from no match),
      and NaN when two indices other than 0 match. */
  lemma PriceIndexCases(variants: seq<Variant>, axes: seq<OptionAxis>)
    ensures PriceIndexFrom(variants, axes) == At(0) <==>
      forall i :: 0 < i < |variants| ==> !MatchesAxes(variants[i], axes)
    ensures PriceIndexFrom(variants, axes) == NaN <==>
      exists i, j :: 0 < i < j < |variants| && MatchesAxes(variants[i], axes) && MatchesAxes(variants[j], axes)
    ensures forall i :: 0 < i < |variants| && PriceIndexFrom(variants, axes) == At(i) ==>
      MatchesAxes(variants[i], axes)
      && forall j :: 0 < j < |variants| && j != i ==> !MatchesAxes(variants[j], axes)
  {
    var m := TruthyMatches(variants, axes, |variants|);
    var p := PriceIndexFrom(variants, axes);
    if |m| == 0 {
      assert p == At(0);
      forall i | 0 < i < |variants| ensures !MatchesAxes(variants[i], axes) {
        assert MatchesAxes(variants[i], axes) ==> i in m;
      }
    } else if |m| == 1 {
      assert p == At(m[0]);
      assert m[0] in m;
      forall j | 0 < j < |variants| && MatchesAxes(variants[j], axes) ensures j == m[0] {
        assert j in m;
      }
    } else {
      assert p == NaN;
      assert m[0] in m && m[1] in m && m[0] < m[1];
    }
  }

  /** The price index reads only the picked values of the axes. */
  lemma PriceIndexReadsPicks(variants: seq<Variant>, axes: seq<OptionAxis>, axes': seq<OptionAxis>)
    requires SelectedValues(axes) == SelectedValues(axes')
    ensures PriceIndexFrom(variants, axes) == PriceIndexFrom(variants, axes')
  {
    forall v ensures MatchesAxes(v, axes) == MatchesAxes(v, axes') {
      MatchesAxesReadsPicks(v, axes, axes');
    }
    TruthyMatchesReadsPicks(variants, axes, axes', |variants|);
  }

  lemma MatchesAxesReadsPicks(v: Variant, axes: seq<OptionAxis>, axes': seq<OptionAxis>)
    requires SelectedValues(axes) == SelectedValues(axes')
    ensures MatchesAxes(v, axes) == MatchesAxes(v, axes')
  {
    assert |axes| == |SelectedValues(axes)| == |axes'|;
    if |v.selectedOptions| <= |axes| {
      forall j | 0 <= j < |v.selectedOptions| ensures axes[j].selectedValue == axes'[j].selectedValue {
        assert SelectedValues(axes)[j] == SelectedValues(axes')[j];
      }
    }
  }

  lemma {:induction false} TruthyMatchesReadsPicks(variants: seq<Variant>, axes: seq<OptionAxis>, axes': seq<OptionAxis>, n: nat)
    requires n <= |variants|
    requires forall v :: MatchesAxes(v, axes) == MatchesAxes(v, axes')
    ensures TruthyMatches(variants, axes, n) == TruthyMatches(variants, axes', n)
  {
    if n > 0 {
      TruthyMatchesReadsPicks(variants, axes, axes', n - 1);
    }
  }

  /** The id of the variant at the price index (`variants[selectPriceIndex]?.node.id`). */
  function IdAt(variants: seq<Variant>, index: PriceIndex): (r: Option<string>)
    ensures r.Some? <==> index.At? && index.index < |variants|
    ensures r.Some? ==> r.value == variants[index.index].id
  {
    if index.At? && index.index < |variants| then Some(variants[index.index].id) else None
  }

  // ---------------------------------------------------------------------------
  // onSelect: the offered variants of the picked axis

  /** The list `onSelect` gives the picked axis: for every axis position k in
      turn, the variants `AxisData` keeps for the picked value at k. */
  function OnSelectData(variants: seq<Variant>, n: nat, sel: string): (r: seq<Variant>)
    requires Shaped(variants, n)
    ensures forall v :: v in r <==> v in variants && exists k :: 0 <= k < n && KeepForAxis(v, k, sel)
    decreases n
  {
    if n == 0 then []
    else
      assert Shaped(variants, n - 1);
      OnSelectData(variants, n - 1, sel) + AxisData(variants, n - 1, sel)
  }

  // ---------------------------------------------------------------------------
  // variantSelectionValidation

  /** The error text validation writes on an axis. */
  function ErrorFor(axis: OptionAxis): string {
    if axis.selectedValue == "" then "Select " + axis.name else ""
  }

  /** The axes after `variantSelectionValidation` has written the error texts. */
  function WithErrors(axes: seq<OptionAxis>): (r: seq<OptionAxis>)
    ensures |r| == |axes|
    ensures forall k :: 0 <= k < |axes| ==> r[k] == axes[k].(errorMassage := Some(ErrorFor(axes[k])))
  {
    seq(|axes|, k requires 0 <= k < |axes| => axes[k].(errorMassage := Some(ErrorFor(axes[k]))))
  }

  /** Some axis has nothing picked. */
  predicate AnyMissing(axes: seq<OptionAxis>) {
    exists k :: 0 <= k < |axes| && axes[k].selectedValue == ""
  }

  /** After validation an axis shows "Select <name>" exactly when nothing is
      picked on it and an empty text otherwise. */
  lemma ValidationErrors(axes: seq<OptionAxis>, k: nat)
    requires k < |axes|
    ensures WithErrors(axes)[k].errorMassage == Some("Select " + axes[k].name) <==> axes[k].selectedValue == ""
    ensures WithErrors(axes)[k].errorMassage == Some("") <==> axes[k].selectedValue != ""
  {
    var e := WithErrors(axes)[k].errorMassage;
    assert e == Some(ErrorFor(axes[k]));
    assert |"Select " + axes[k].name| >= 7;
  }

  /** Validation leaves the picks untouched, so it reports the same missing
      axes and validating again changes nothing. */
  lemma ValidationIdempotent(axes: seq<OptionAxis>)
    ensures SelectedValues(WithErrors(axes)) == SelectedValues(axes)
    ensures AnyMissing(WithErrors(axes)) == AnyMissing(axes)
    ensures WithErrors(WithErrors(axes)) == WithErrors(axes)
  {
    var r := WithErrors(axes);
    forall j | 0 <= j < |axes| ensures r[j].selectedValue == axes[j].selectedValue && ErrorFor(r[j]) == ErrorFor(axes[j]) {
      assert r[j] == axes[j].(errorMassage := Some(ErrorFor(axes[j])));
    }
    var rr := WithErrors(r);
    forall j | 0 <= j < |axes| ensures rr[j] == r[j] {
      assert rr[j] == r[j].(errorMassage := Some(ErrorFor(r[j])));
    }
    if AnyMissing(axes) {
      var k :| 0 <= k < |axes| && axes[k].selectedValue == "";
      assert r[k].selectedValue == "";
    }
    if AnyMissing(r) {
      var k :| 0 <= k < |r| && r[k].selectedValue == "";
      assert axes[k].selectedValue == "";
    }
  }

  // ---------------------------------------------------------------------------
  // The "Default Title" option filter

  const DefaultTitle: string := "default title"

  /** A value that lower-cases to "default title". */
  predicate IsDefaultTitle(value: string) {
    |value| == |DefaultTitle| && forall i :: 0 <= i < |value| ==> LowerAscii(value[i]) == DefaultTitle[i]
  }

  predicate HasDefaultTitle(axis: OptionAxis) {
    exists v :: v in axis.values && IsDefaultTitle(v)
  }

  /** The axes the screen shows: those offering no "Default Title" value. */
  function VisibleAxes(axes: seq<OptionAxis>): (r: seq<OptionAxis>)
    ensures |r| <= |axes|
    ensures forall a :: a in r <==> a in axes && !HasDefaultTitle(a)
  {
    if |axes| == 0 then []
    else (if HasDefaultTitle(axes[0]) then [] else [axes[0]]) + VisibleAxes(axes[1..])
  }

  /** The filter keeps the shown axes in their order: filtering a
      concatenation concatenates the filtered parts, so an axis shown before
      another is still shown before it. */
  lemma {:induction false} VisibleAxesAppend(a: seq<OptionAxis>, b: seq<OptionAxis>)
    ensures VisibleAxes(a + b) == VisibleAxes(a) + VisibleAxes(b)
    decreases |a|
  {
    if |a| > 0 {
      assert (a + b)[1..] == a[1..] + b;
      VisibleAxesAppend(a[1..], b);
    } else {
      assert a + b == b;
    }
  }
}
