/**
 * The package's shared text helpers (`shopify_to_feeds/utils/helpers.py`):
 * markup removal with whitespace normalisation and optional truncation,
 * price formatting with a currency, and weight formatting.
 */
module Helpers {
  import opened Values
  import opened Text
  import opened Tags
  import opened Numbers

  /** The untruncated cleaned text: tags removed, whitespace runs collapsed, ends stripped. */
  function Clean(s: string): string
  {
    Strip(Collapse(StripDelimited(s, '<', '>')))
  }

  /** The cleaned text holds no tag. */
  lemma CleanTagFree(s: string)
    ensures TagFree(Clean(s), '<', '>')
  {
    var t := StripDelimited(s, '<', '>');
    StripDelimitedTagFree(s, '<', '>');
    CollapseTagFree(t, '<', '>');
    StripTagFree(Collapse(t), '<', '>');
  }

  /** The cleaned text is single-spaced and has no whitespace at either end. */
  lemma CleanSpacing(s: string)
    ensures var c := Clean(s);
      SingleSpaced(c) && (c == [] || (!IsSpace(c[0]) && !IsSpace(c[|c| - 1])))
  {
    CollapseSpec(StripDelimited(s, '<', '>'));
    StripSingleSpaced(Collapse(StripDelimited(s, '<', '>')));
  }

  /** Stripping a single-spaced string keeps it single-spaced and leaves no whitespace at its ends. */
  lemma StripSingleSpaced(k: string)
    requires SingleSpaced(k)
    ensures var c := Strip(k);
      SingleSpaced(c) && (c == [] || (!IsSpace(c[0]) && !IsSpace(c[|c| - 1])))
  {
    StripShape(k);
    SingleSpacedSlice(k, StripStart(k), StripStart(k) + |Strip(k)|);
  }

  /** What survives truncation to `m` characters of text `c`: `c` itself, or its first `m` characters. */
  function Truncate(c: string, m: Option<nat>): (r: string)
    ensures StartsWith(c, r)
    ensures m.Some? && m.value != 0 ==> |r| <= m.value
    ensures (m.None? || m.value == 0) ==> r == c
    ensures |r| < |c| ==> m.Some? && |r| == m.value
  {
    if m.Some? && m.value != 0 && |c| > m.value then c[..m.value] else c
  }

  /** A prefix keeps the cleaned text's shape, except perhaps at its cut end. */
  lemma TruncateShape(c: string, m: Option<nat>)
    requires TagFree(c, '<', '>') && SingleSpaced(c)
    requires c == [] || (!IsSpace(c[0]) && !IsSpace(c[|c| - 1]))
    ensures var r := Truncate(c, m);
      !HasTag(r, '<', '>') && SingleSpaced(r) && (r == [] || !IsSpace(r[0]))
      && (r == c ==> r == [] || !IsSpace(r[|r| - 1]))
  {
    var r := Truncate(c, m);
    assert r == c[0..|r|];
    TagFreeSlice(c, 0, |r|, '<', '>');
    SingleSpacedSlice(c, 0, |r|);
    TagFreeIffNoTag(r, '<', '>');
  }

  /** `remove_html_tags(text, max_length)`. */
  function RemoveHtmlTags(text: Option<string>, maxLength: Option<nat>): (r: string)
    ensures !Truthy(text) ==> r == ""
    ensures !HasTag(r, '<', '>')
    ensures SingleSpaced(r)
    ensures r == [] || !IsSpace(r[0])
    ensures Truthy(text) ==> StartsWith(Clean(text.value), r)
    ensures maxLength.Some? && maxLength.value != 0 ==> |r| <= maxLength.value
    ensures Truthy(text) && (maxLength.None? || maxLength.value == 0) ==> r == Clean(text.value)
    ensures (maxLength.None? || maxLength.value == 0 || |r| < maxLength.value)
      ==> r == [] || !IsSpace(r[|r| - 1])
  {
    if !Truthy(text) then
      RemovedShape(text, maxLength, "");
      ""
    else
      var r := Truncate(Clean(text.value), maxLength);
      RemovedShape(text, maxLength, r);
      r
  }

  /** What `remove_html_tags` promises of its result, in both of its cases. */
  lemma RemovedShape(text: Option<string>, maxLength: Option<nat>, r: string)
    requires r == if !Truthy(text) then "" else Truncate(Clean(text.value), maxLength)
    ensures !Truthy(text) ==> r == ""
    ensures !HasTag(r, '<', '>')
    ensures SingleSpaced(r)
    ensures r == [] || !IsSpace(r[0])
    ensures Truthy(text) ==> StartsWith(Clean(text.value), r)
    ensures maxLength.Some? && maxLength.value != 0 ==> |r| <= maxLength.value
    ensures Truthy(text) && (maxLength.None? || maxLength.value == 0) ==> r == Clean(text.value)
    ensures (maxLength.None? || maxLength.value == 0 || |r| < maxLength.value)
      ==> r == [] || !IsSpace(r[|r| - 1])
  {
    if !Truthy(text) {
      assert !HasTag(r, '<', '>') && SingleSpaced(r);
    } else {
      TruncatedShape(text.value, maxLength, r);
    }
  }

  /** The cleaned text cut to `m` characters has no tag, is single-spaced, and has no white space in front. */
  lemma TruncatedShape(s: string, m: Option<nat>, r: string)
    requires r == Truncate(Clean(s), m)
    ensures !HasTag(r, '<', '>') && SingleSpaced(r) && (r == [] || !IsSpace(r[0]))
    ensures (m.None? || m.value == 0 || |r| < m.value) ==> r == [] || !IsSpace(r[|r| - 1])
  {
    CleanTagFree(s);
    CleanSpacing(s);
    TruncateShape(Clean(s), m);
  }

  /** A single-spaced string is its own collapse. */
  lemma {:induction false} CollapseSingleSpaced(s: string)
    requires SingleSpaced(s)
    ensures Collapse(s) == s
    decreases |s|
  {
    if s != [] {
      var t := s[1..];
      SingleSpacedSlice(s, 1, |s|);
      CollapseSingleSpaced(t);
      if IsSpace(s[0]) {
        assert s[0] == ' ';
        assert t == [] || !IsSpace(t[0]) by {
          if |s| > 1 { assert t[0] == s[1]; }
        }
        assert Collapse(s) == [s[0]] + Collapse(DropSpaces(t));
      } else {
        assert Collapse(s) == [s[0]] + Collapse(t);
      }
      HeadTail(s);
    }
  }

  /** Cleaning cleaned text changes nothing. */
  lemma CleanIdempotent(s: string)
    ensures Clean(Clean(s)) == Clean(s)
  {
    var c := Clean(s);
    CleanTagFree(s);
    CleanSpacing(s);
    TagFreeIffNoTag(c, '<', '>');
    StripDelimitedNoTag(c, '<', '>');
    CollapseSingleSpaced(c);
    StripNoOp(c);
  }

  /** Without truncation, `remove_html_tags` is idempotent. */
  lemma RemoveHtmlTagsIdempotent(text: Option<string>)
    ensures RemoveHtmlTags(Some(RemoveHtmlTags(text, None)), None) == RemoveHtmlTags(text, None)
  {
    if Truthy(text) { CleanIdempotent(text.value); }
  }

  // ------------------------------------------------------------- prices

  /**
   * `format_price(price, currency)`: the price with two decimals and the
   * currency; `"0.00 " + currency` when `float(price)` raises
   * (a missing value or text that is not a number).
   */
  function FormatPrice(price: Option<string>, currency: string): (r: string)
    ensures EndsWith(r, " " + currency)
    ensures var n := |r| - |currency| - 1;
      n >= 4 && r[n - 3] == '.' && IsDigit(r[n - 2]) && IsDigit(r[n - 1])
  {
    var amount := PriceAmount(price);
    WithUnitShape(amount, currency);
    amount + " " + currency
  }

  /** The amount part of a formatted price: `f"{float(price):.2f}"`, or `"0.00"` when that raises. */
  function PriceAmount(price: Option<string>): (a: string)
    ensures |a| >= 4 && a[|a| - 3] == '.' && IsDigit(a[|a| - 2]) && IsDigit(a[|a| - 1])
  {
    match price
    case None => "0.00"
    case Some(p) =>
      match ParseDecimal(p)
      case None => "0.00"
      case Some(d) => Fixed2(d)
  }

  /** `f"{amount} {unit}"` ends with the unit and keeps the amount in front. */
  lemma WithUnitShape(amount: string, unit: string)
    ensures var r := amount + " " + unit;
      EndsWith(r, " " + unit) && |r| - |unit| - 1 == |amount| && r[..|amount|] == amount
      && forall i :: 0 <= i < |amount| ==> r[i] == amount[i]
  {
  }

  /** A missing price, or one `float` rejects, is formatted as zero. */
  lemma FormatPriceUnparsed(price: Option<string>, currency: string)
    requires price.None? || ParseDecimal(price.value).None?
    ensures FormatPrice(price, currency) == "0.00 " + currency
  {
  }

  /** A parseable price is formatted as its two-decimal rendering and the currency. */
  lemma FormatPriceParsed(price: string, currency: string)
    requires ParseDecimal(price).Some?
    ensures FormatPrice(Some(price), currency) == Fixed2(ParseDecimal(price).value) + " " + currency
  {
  }

  /** The text in front of the space and the unit of `r`. */
  function AmountPart(r: string, unit: string): string
    requires |r| >= |unit| + 1
  {
    r[..|r| - |unit| - 1]
  }

  /** The amount is what precedes the space and the unit. */
  lemma AmountBeforeUnit(amount: string, unit: string)
    ensures AmountPart(amount + " " + unit, unit) == amount
  {
    var r := amount + " " + unit;
    assert r[..|amount|] == amount;
  }

  /**
   * The amount in front of the currency is the two-decimal rendering of the
   * parsed price, and it reads back with the price's sign and hundredths.
   */
  lemma FormatPriceRoundTrip(price: string, currency: string, d: Decimal)
    requires ParseDecimal(price) == Some(d)
    ensures AmountPart(FormatPrice(Some(price), currency), currency) == Fixed2(d)
    ensures ParseDecimal(AmountPart(FormatPrice(Some(price), currency), currency)).Some?
    ensures ParseDecimal(AmountPart(FormatPrice(Some(price), currency), currency)).value.negative == d.negative
    ensures Cents(ParseDecimal(AmountPart(FormatPrice(Some(price), currency), currency)).value) == Cents(d)
  {
    FormatPriceParsed(price, currency);
    AmountBeforeUnit(Fixed2(d), currency);
    Fixed2RoundTrip(d);
  }

  // ------------------------------------------------------------- weights

  /**
   * `format_weight(grams, unit)`: `None` for falsy grams; kilograms with
   * three decimals for `"kg"`, otherwise the grams unconverted as a float.
   */
  function FormatWeight(grams: Option<nat>, unit: string): (r: Option<string>)
    ensures r.None? <==> !TruthyNat(grams)
    ensures r.Some? ==> EndsWith(r.value, " " + unit)
    ensures r.Some? && unit != "kg" ==> r.value == NatToString(grams.value) + ".0 " + unit
  {
    if !TruthyNat(grams) then None
    else
      var amount := if unit == "kg" then Kg3(grams.value) else FloatText(grams.value);
      WithUnitShape(amount, unit);
      Some(amount + " " + unit)
  }

  /**
   * In kilograms the amount in front of the unit is the three-decimal
   * kilogram text (which `Numbers.Kg3Value` reads back as the grams).
   */
  lemma FormatWeightKg(g: nat)
    requires g != 0
    ensures FormatWeight(Some(g), "kg").Some?
    ensures AmountPart(FormatWeight(Some(g), "kg").value, "kg") == Kg3(g)
  {
    AmountBeforeUnit(Kg3(g), "kg");
  }
}
