/**
 * The Zbozi.cz generator (`shopify_to_feeds/feeds/zbozi.py`): one
 * `SHOPITEM` per variant of every product of every collection, each field
 * written by the generic serializer with `str()`. A product that raises
 * ends its collection (the items of the products before it stay); a
 * collection without a `handle` ends the whole generation.
 */
module Zbozi {
  import opened Values
  import opened Text
  import opened Numbers
  import opened Helpers
  import opened Base
  import opened Catalog
  import opened FeedItems
  import opened Xml
  import Client
  import Google
  import Bing

  const DefaultTitle := "Default Title"
  const DefaultDeliveryDate := 3

  /** `DEFAULT_DELIVERY` in insertion order: carrier, then price and cash-on-delivery price. */
  const DefaultDelivery: seq<(string, (int, int))> := [("ZASILKOVNA", (59, 0)), ("PPL", (59, 0))]

  // ---------------------------------------------------------------- fields

  /**
   * `PRODUCTNAME`: the product title for the `"Default Title"` variant, else
   * `f"{product['title']} - {variant['title']}"`; the outer `None` when a
   * title key is absent (which raises), the inner one when the product
   * title is `null` and is used as it is.
   */
  function ProductName(p: Product, v: Variant): (r: Option<Option<string>>)
    ensures r.None? <==> p.title.Missing? || v.title.Missing?
    ensures r.Some? && v.title == Val(DefaultTitle) ==> r.value == Lookup(p.title)
    ensures r.Some? && v.title != Val(DefaultTitle) ==>
      (r.value.Some? && StartsWith(r.value.value, StrOf(Lookup(p.title)) + " - ")
       && EndsWith(r.value.value, " - " + StrOf(Lookup(v.title))))
  {
    if p.title.Missing? || v.title.Missing? then None
    else if v.title == Val(DefaultTitle) then Some(Lookup(p.title))
    else
      var a, b := StrOf(Lookup(p.title)), StrOf(Lookup(v.title));
      var r := a + " - " + b;
      assert r[..|a| + 3] == a + " - ";
      assert r[|r| - |b| - 3..] == " - " + b;
      Some(Some(r))
  }

  /** `s[:n]`. */
  function Prefix(s: string, n: nat): (r: string)
    ensures |r| <= n && StartsWith(s, r)
    ensures |s| >= n ==> |r| == n
  {
    if |s| <= n then s else s[..n]
  }

  /**
   * `PRODUCTNO`: the SKU when it is truthy, else `"MM-"` and the first ten
   * characters of the handle in upper case; `None` when the fallback is
   * needed and the handle is absent or `null` (which raises). Never empty.
   */
  function ProductNo(p: Product, v: Variant): (r: Option<string>)
    ensures r.None? <==> !Truthy(Get(v.sku, "")) && !p.handle.Val?
    ensures Truthy(Get(v.sku, "")) ==> r == Get(v.sku, "")
    ensures !Truthy(Get(v.sku, "")) && r.Some? ==>
      StartsWith(r.value, "MM-") && |r.value| == 3 + Min(10, |p.handle.value|)
      && (forall i :: 3 <= i < |r.value| ==> !IsAsciiLower(r.value[i]))
      && Lower(r.value[3..]) == Lower(Prefix(p.handle.value, 10))
    ensures r.Some? ==> r.value != []
  {
    var sku := Get(v.sku, "");
    if Truthy(sku) then sku
    else if !p.handle.Val? then None
    else
      var h := Prefix(p.handle.value, 10);
      var r := "MM-" + Upper(h);
      assert r[..3] == "MM-" && r[3..] == Upper(h);
      UpperLower(h);
      Some(r)
  }

  function Min(a: nat, b: nat): nat
  {
    if a <= b then a else b
  }

  /** Upper-casing keeps the letters: the lower case of the upper case is the lower case. */
  lemma {:induction false} UpperLower(s: string)
    ensures Lower(Upper(s)) == Lower(s)
  {
    if s != [] {
      UpperLower(s[1..]);
      assert Upper(s) == [UpperChar(s[0])] + Upper(s[1..]);
      assert Upper(s)[1..] == Upper(s[1..]);
    }
  }

  /**
   * `CATEGORYTEXT`, `" | ".join(product_type.split("/"))`: every `/` of the
   * product type becomes `" | "`; `None` when the type is `null`.
   */
  function CategoryText(p: Product): (r: Option<string>)
    ensures r.None? <==> p.productType.Null?
    ensures r.Some? ==> r.value == ReplaceChar(GetStr(p.productType, ""), '/', " | ")
  {
    var t := Get(p.productType, "");
    if t.None? then None
    else
      JoinSplit(t.value, '/', " | ");
      Some(Join(" | ", Split(t.value, '/')))
  }

  /** `CUSTOM_LABEL_2`, `" | ".join(product.get("tags", []))`: `None` when the tags are `null`. */
  function TagsLabel(p: Product): (r: Option<string>)
    ensures r.None? <==> p.tags.Null?
    ensures p.tags.Missing? ==> r == Some("")
    ensures p.tags.Val? && |p.tags.value| == 1 ==> r == Some(p.tags.value[0])
  {
    var t := Get(p.tags, []);
    if t.None? then None else Some(Join(" | ", t.value))
  }

  /** The `variant_data` literal (zbozi.py:59-89): twenty fields in a fixed order. */
  function Literal(name: Option<string>, description: string, url: string, price: string, image: Option<string>,
                   itemId: string, groupId: string, product: Option<string>, vendor: Option<string>,
                   category: string, ean: Option<string>, productNo: string, productType: Option<string>,
                   tags: string, customLabel: string): Item
  {
    [ ("PRODUCTNAME", Scalar(name)),
      ("DESCRIPTION", Scalar(Some(description))),
      ("URL", Scalar(Some(url))),
      ("PRICE_VAT", Scalar(Some(price))),
      ("DELIVERY_DATE", Scalar(Some(IntToString(DefaultDeliveryDate)))),
      ("IMGURL", Scalar(image)),
      ("ITEM_ID", Scalar(Some(itemId))),
      ("ITEMGROUP_ID", Scalar(Some(groupId))),
      ("PRODUCT", Scalar(product)),
      ("MANUFACTURER", Scalar(vendor)),
      ("CATEGORYTEXT", Scalar(Some(category))),
      ("EAN", Scalar(ean)),
      ("PRODUCTNO", Scalar(Some(productNo))),
      ("CONDITION", Scalar(Some("new"))),
      ("BRAND", Scalar(vendor)),
      ("WARRANTY", Scalar(Some("24"))),
      ("VISIBILITY", Scalar(Some("1"))),
      ("CUSTOM_LABEL_0", Scalar(Some(customLabel))),
      ("CUSTOM_LABEL_1", Scalar(productType)),
      ("CUSTOM_LABEL_2", Scalar(Some(tags))) ]
  }

  const FrontNames: seq<string> := ["PRODUCTNAME", "DESCRIPTION", "URL", "PRICE_VAT", "DELIVERY_DATE",
    "IMGURL", "ITEM_ID", "ITEMGROUP_ID", "PRODUCT", "MANUFACTURER"]

  const BackNames: seq<string> := ["CATEGORYTEXT", "EAN", "PRODUCTNO", "CONDITION", "BRAND", "WARRANTY",
    "VISIBILITY", "CUSTOM_LABEL_0", "CUSTOM_LABEL_1", "CUSTOM_LABEL_2"]

  const RequiredNames: seq<string> := FrontNames + BackNames

  lemma LiteralKeys(name: Option<string>, description: string, url: string, price: string, image: Option<string>,
                    itemId: string, groupId: string, product: Option<string>, vendor: Option<string>,
                    category: string, ean: Option<string>, productNo: string, productType: Option<string>,
                    tags: string, customLabel: string)
    ensures Keys(Literal(name, description, url, price, image, itemId, groupId, product, vendor, category, ean,
                         productNo, productType, tags, customLabel)) == RequiredNames
  {
  }

  /** `CUSTOM_LABEL_0` of the package generator. */
  const PackageLabel := "Shopify"

  /**
   * The literal with a given `DESCRIPTION` and `CUSTOM_LABEL_0`, or `None`
   * when one of its subscripts or conversions raises.
   */
  function Labelled(storeUrl: string, p: Product, v: Variant, description: string, customLabel: string): Option<Item>
  {
    var name, url, price := ProductName(p, v), Bing.Link(storeUrl, p, v), Bing.WholeNumber(v.price);
    var image, itemId, groupId := Bing.ImageLink(p), Bing.IdField(v.id), Bing.IdField(p.id);
    var category, productNo, tags := CategoryText(p), ProductNo(p, v), TagsLabel(p);
    if name.None? || url.None? || price.None? || image.None? || itemId.None? || groupId.None?
       || category.None? || productNo.None? || tags.None? then None
    else Some(Literal(name.value, description, url.value, price.value, image.value, itemId.value,
                      groupId.value, Lookup(p.title), Get(p.vendor, ""), category.value, Get(v.barcode, ""),
                      productNo.value, Get(p.productType, ""), tags.value, customLabel))
  }

  /** The literal of `_process_product`: the package's description and label. */
  function Required(storeUrl: string, p: Product, v: Variant): Option<Item>
  {
    Labelled(storeUrl, p, v, Bing.Description(p), PackageLabel)
  }

  // ------------------------------------------------------ optional fields

  /** `PRICE_BEFORE_DISCOUNT` when `compare_at_price` is truthy; `None` when it then does not convert. */
  function SaleEntry(v: Variant): Option<Item>
  {
    if !Truthy(Lookup(v.compareAtPrice)) then Some([])
    else
      var s := Bing.WholeNumber(v.compareAtPrice);
      if s.None? then None else Some([("PRICE_BEFORE_DISCOUNT", Scalar(s))])
  }

  /**
   * `IMGURL_ALTERNATIVE`, the `src` of every image after the first, when
   * there is more than one image; `None` when `images` is `null` (`len`
   * raises) or one of those images has no `src`.
   */
  function ImagesEntry(p: Product): Option<Item>
  {
    if p.images.Null? then None
    else if !p.images.Val? || |p.images.value| <= 1 then Some([])
    else
      var links := Google.Sources(p.images.value[1..]);
      if links.None? then None else Some([("IMGURL_ALTERNATIVE", List(Google.Atoms(links.value)))])
  }

  /** The `DELIVERY` group one `DEFAULT_DELIVERY` entry gives. */
  function DeliveryGroup(entry: (string, (int, int))): Value
  {
    Group([("DELIVERY_ID", entry.0), ("DELIVERY_PRICE", IntToString(entry.1.0)),
           ("DELIVERY_PRICE_COD", IntToString(entry.1.1))])
  }

  function DeliveryGroups(): seq<Value>
  {
    seq(|DefaultDelivery|, i requires 0 <= i < |DefaultDelivery| => DeliveryGroup(DefaultDelivery[i]))
  }

  /** The last entry wins: the surviving group is PPL's. */
  lemma LastDelivery()
    ensures DeliveryGroup(DefaultDelivery[|DefaultDelivery| - 1]).fields[0] == ("DELIVERY_ID", "PPL")
  {
  }

  // ------------------------------------------------------------ parameters

  const NameKey := "PARAM_NAME"
  const ValueKey := "VAL"

  /** One `PARAM` entry, the dictionary `{"PARAM_NAME": name, "VAL": val}`. */
  function ParamEntry(name: Option<string>, val: string): Atom
  {
    Dict([(NameKey, name), (ValueKey, Some(val))])
  }

  /**
   * The name of option `i` (0, 1 or 2): `options[i]["name"]` when the
   * product has that many options, else `"Variant"`, `"Variant 2"` or
   * `"Variant 3"`. The outer `None` when the option has no `name` key, or,
   * for the second and third, when `options` is `null` (`len` raises).
   */
  function OptionName(p: Product, i: nat): (r: Option<Option<string>>)
    requires i < 3
    ensures !p.options.Val? && r.Some? ==> r.value == Some(["Variant", "Variant 2", "Variant 3"][i])
    ensures p.options.Val? && |p.options.value| > i ==>
      (r.None? <==> p.options.value[i].name.Missing?) && (r.Some? ==> r.value == Lookup(p.options.value[i].name))
  {
    var present := if i == 0 then FieldNonEmpty(p.options) else p.options.Val? && |p.options.value| > i;
    if i > 0 && p.options.Null? then None
    else if !present then Some(Some(["Variant", "Variant 2", "Variant 3"][i]))
    else
      var n := p.options.value[i].name;
      if n.Missing? then None else Some(Lookup(n))
  }

  /** The entry of option `i` when its value is truthy. */
  function OptionParam(p: Product, option: Field<string>, i: nat): Option<seq<Atom>>
    requires i < 3
  {
    if !Truthy(Lookup(option)) then Some([])
    else
      var n := OptionName(p, i);
      if n.None? then None else Some([ParamEntry(n.value, option.value)])
  }

  /** `Hmotnost`, the weight in kilograms to two decimals, when `grams` is truthy. */
  function WeightParam(v: Variant): seq<Atom>
  {
    if TruthyNat(Lookup(v.grams)) then [ParamEntry(Some("Hmotnost"), Kg2(v.grams.value) + " kg")] else []
  }

  /** `Dostupnost` when `available` is neither absent nor `null`. */
  function AvailabilityParam(v: Variant): seq<Atom>
  {
    if v.available.Val? then [ParamEntry(Some("Dostupnost"), if v.available.value then "Skladem" else "Není skladem")]
    else []
  }

  /** The pot diameter found in the product name, when there is one. */
  function PotParam(name: string): seq<Atom>
  {
    var d := PotSize(name);
    if d.Some? then [ParamEntry(Some("Průměr květináče"), d.value + " cm")] else []
  }

  /** The option entries, in option order. */
  function OptionParams(p: Product, v: Variant): Option<seq<Atom>>
  {
    var o1, o2, o3 := OptionParam(p, v.option1, 0), OptionParam(p, v.option2, 1), OptionParam(p, v.option3, 2);
    if o1.None? || o2.None? || o3.None? then None else Some(o1.value + o2.value + o3.value)
  }

  /**
   * `params` (zbozi.py:110-162) for the product name `name`: the options,
   * the weight, the availability, the pot size; `None` when an option name
   * raises or the name is `None` (`re.search` raises).
   */
  function Params(p: Product, v: Variant, name: Option<string>): Option<seq<Atom>>
  {
    var opts := OptionParams(p, v);
    if opts.None? || name.None? then None
    else Some(opts.value + WeightParam(v) + AvailabilityParam(v) + PotParam(name.value))
  }

  /**
   * The fields assigned after the literal, in order; `None` when one of
   * them raises. `DELIVERY` is assigned once per delivery entry and keeps
   * the last; `PARAM` is the list of parameter dictionaries.
   */
  function Optional(p: Product, v: Variant, name: Option<string>): Option<Item>
  {
    var sale, images, params := SaleEntry(v), ImagesEntry(p), Params(p, v, name);
    if sale.None? || images.None? || params.None? then None
    else Some(sale.value + images.value + [("DELIVERY", DeliveryGroup(DefaultDelivery[|DefaultDelivery| - 1]))]
              + [("PARAM", List(params.value))])
  }

  /** The item of one variant: the literal, then the optional fields. */
  function VariantItem(storeUrl: string, p: Product, v: Variant): Option<seq<Item>>
  {
    var req, name := Required(storeUrl, p, v), ProductName(p, v);
    if req.None? || name.None? then None
    else
      var opt := Optional(p, v, name.value);
      if opt.None? then None else Some([req.value + opt.value])
  }

  function Builder(storeUrl: string, p: Product): Variant -> Option<seq<Item>>
  {
    v => VariantItem(storeUrl, p, v)
  }

  /** `_process_product`: one item per variant, in order; `variants` `null` raises. */
  function ProductItems(storeUrl: string, p: Product): Option<seq<Item>>
  {
    if p.variants.Null? then None
    else Collect(Builder(storeUrl, p), if p.variants.Val? then p.variants.value else [])
  }

  /** The items of one collection's products, up to the first product that raises. */
  function ProductsItems(storeUrl: string, ps: seq<Product>): seq<Item>
  {
    if ps == [] then []
    else
      var r := ProductItems(storeUrl, ps[0]);
      if r.None? then [] else r.value + ProductsItems(storeUrl, ps[1..])
  }

  /**
   * The items of the collections in order, each collection's products being
   * what the client yields for its handle. A collection without a `title`
   * is skipped; one without a `handle` raises out of the error handler
   * itself, and so ends generation (`None`).
   */
  function CollectionsItems(storeUrl: string, cs: seq<Collection>, productsOf: Option<string> -> seq<Product>)
    : Option<seq<Item>>
  {
    if cs == [] then Some([])
    else
      var n := |cs| - 1;
      var before := CollectionsItems(storeUrl, cs[..n], productsOf);
      var c := cs[n];
      if before.None? || c.handle.Missing? then None
      else if c.title.Missing? then before
      else Some(before.value + ProductsItems(storeUrl, productsOf(Lookup(c.handle))))
  }

  /** One more collection of the generation loop: a raise, a skip, or its products' items appended. */
  lemma CollectionsNext(storeUrl: string, cs: seq<Collection>, productsOf: Option<string> -> seq<Product>,
                        i: nat, all: seq<Item>)
    requires i < |cs| && CollectionsItems(storeUrl, cs[..i], productsOf) == Some(all)
    ensures cs[i].handle.Missing? ==> CollectionsItems(storeUrl, cs[..i + 1], productsOf).None?
    ensures !cs[i].handle.Missing? && cs[i].title.Missing? ==> CollectionsItems(storeUrl, cs[..i + 1], productsOf) == Some(all)
    ensures !cs[i].handle.Missing? && !cs[i].title.Missing? ==>
              CollectionsItems(storeUrl, cs[..i + 1], productsOf)
              == Some(all + ProductsItems(storeUrl, productsOf(Lookup(cs[i].handle))))
  {
    assert cs[..i + 1][..i] == cs[..i];
    assert cs[..i + 1][i] == cs[i];
  }

  /** The `SHOP` header: the shop name, an empty description, the shop URL. */
  function Header(shop: ShopInfo): seq<Element>
  {
    [Leaf("SHOP_NAME", OfOption(shop.name)), Leaf("SHOP_DESCRIPTION", Chars("")), Leaf("SHOP_URL", Chars(shop.url))]
  }

  /**
   * `generate` (zbozi.py:169-240) on the collections the client lists, the
   * products it yields per handle and the shop information it found: the
   * written `SHOP` document, or `None` when it raises.
   */
  function ZboziFeed(storeUrl: string, collections: Option<seq<Collection>>,
                     productsOf: Option<string> -> seq<Product>, shop: Option<ShopInfo>): Option<Element>
  {
    if collections.None? then None
    else
      var items := CollectionsItems(storeUrl, collections.value, productsOf);
      if items.None? then None
      else Written(Some(Feed("SHOP", Header(Google.ShopOrDefault(shop, storeUrl)), "SHOPITEM", items.value, ShowEntries)))
  }

  // ------------------------------------------------------------ properties

  lemma RequiredDistinct()
    ensures Distinct(RequiredNames)
  {
    assert Distinct(FrontNames);
    assert Distinct(BackNames);
    assert forall i :: 0 <= i < |BackNames| ==> BackNames[i] !in FrontNames;
    DistinctAppend(FrontNames, BackNames);
  }

  lemma LabelledKeys(storeUrl: string, p: Product, v: Variant, description: string, customLabel: string)
    requires Labelled(storeUrl, p, v, description, customLabel).Some?
    ensures Keys(Labelled(storeUrl, p, v, description, customLabel).value) == RequiredNames
  {
    var name, url, price := ProductName(p, v), Bing.Link(storeUrl, p, v), Bing.WholeNumber(v.price);
    var image, itemId, groupId := Bing.ImageLink(p), Bing.IdField(v.id), Bing.IdField(p.id);
    var category, productNo, tags := CategoryText(p), ProductNo(p, v), TagsLabel(p);
    LiteralKeys(name.value, description, url.value, price.value, image.value, itemId.value,
                groupId.value, Lookup(p.title), Get(p.vendor, ""), category.value, Get(v.barcode, ""),
                productNo.value, Get(p.productType, ""), tags.value, customLabel);
  }

  /** The four optional keys are not literal keys. */
  lemma OptionalNotRequired()
    ensures "PRICE_BEFORE_DISCOUNT" !in RequiredNames && "IMGURL_ALTERNATIVE" !in RequiredNames
    ensures "DELIVERY" !in RequiredNames && "PARAM" !in RequiredNames
  {
    OptionalNotFront();
    OptionalNotBack();
  }

  lemma OptionalNotFront()
    ensures "PRICE_BEFORE_DISCOUNT" !in FrontNames && "IMGURL_ALTERNATIVE" !in FrontNames
    ensures "DELIVERY" !in FrontNames && "PARAM" !in FrontNames
  {
  }

  lemma OptionalNotBack()
    ensures "PRICE_BEFORE_DISCOUNT" !in BackNames && "IMGURL_ALTERNATIVE" !in BackNames
    ensures "DELIVERY" !in BackNames && "PARAM" !in BackNames
  {
  }

  /** The optional keys present, in assignment order. */
  function OptionalNames(p: Product, v: Variant): seq<string>
  {
    (if Truthy(Lookup(v.compareAtPrice)) then ["PRICE_BEFORE_DISCOUNT"] else [])
    + (if p.images.Val? && |p.images.value| > 1 then ["IMGURL_ALTERNATIVE"] else [])
    + ["DELIVERY", "PARAM"]
  }

  lemma OptionalKeys(p: Product, v: Variant, name: Option<string>)
    requires Optional(p, v, name).Some?
    ensures Keys(Optional(p, v, name).value) == OptionalNames(p, v)
  {
    var a, b := SaleEntry(v).value, ImagesEntry(p).value;
    var c: Item := [("DELIVERY", DeliveryGroup(DefaultDelivery[|DefaultDelivery| - 1]))];
    var d: Item := [("PARAM", List(Params(p, v, name).value))];
    assert Optional(p, v, name).value == a + b + c + d;
    KeysAppend(a, b);
    KeysAppend(a + b, c);
    KeysAppend(a + b + c, d);
    EntryKeys(p, v);
    assert Keys(c) == ["DELIVERY"] && Keys(d) == ["PARAM"];
  }

  /** The price and images pieces hold their one key exactly when their conditions hold. */
  lemma EntryKeys(p: Product, v: Variant)
    requires SaleEntry(v).Some? && ImagesEntry(p).Some?
    ensures Keys(SaleEntry(v).value) == if Truthy(Lookup(v.compareAtPrice)) then ["PRICE_BEFORE_DISCOUNT"] else []
    ensures Keys(ImagesEntry(p).value) == if p.images.Val? && |p.images.value| > 1 then ["IMGURL_ALTERNATIVE"] else []
  {
  }

  lemma NamesDistinct(p: Product, v: Variant)
    ensures Distinct(RequiredNames + OptionalNames(p, v))
  {
    RequiredDistinct();
    OptionalNotRequired();
    var o := OptionalNames(p, v);
    assert forall i :: 0 <= i < |o| ==> o[i] in ["PRICE_BEFORE_DISCOUNT", "IMGURL_ALTERNATIVE", "DELIVERY", "PARAM"];
    DistinctAppend(RequiredNames, o);
  }

  /**
   * Every item holds the twenty literal keys in order, then
   * `PRICE_BEFORE_DISCOUNT` and `IMGURL_ALTERNATIVE` when present, then
   * exactly one `DELIVERY` and one `PARAM`; no key occurs twice.
   */
  lemma VariantKeys(storeUrl: string, p: Product, v: Variant)
    requires VariantItem(storeUrl, p, v).Some?
    ensures var it := VariantItem(storeUrl, p, v).value[0];
      Keys(it) == RequiredNames + OptionalNames(p, v) && Distinct(Keys(it))
  {
    var req := Required(storeUrl, p, v).value;
    var opt := Optional(p, v, ProductName(p, v).value).value;
    LabelledKeys(storeUrl, p, v, Bing.Description(p), PackageLabel);
    OptionalKeys(p, v, ProductName(p, v).value);
    KeysAppend(req, opt);
    NamesDistinct(p, v);
  }

  /**
   * What the optional keys hold: `DELIVERY` the group of the last delivery
   * entry, `PARAM` the parameter list, `PRICE_BEFORE_DISCOUNT` the
   * truncated compare-at price when that is truthy and nothing otherwise.
   */
  lemma OptionalLookup(p: Product, v: Variant, name: Option<string>)
    requires Optional(p, v, name).Some?
    ensures var o := Optional(p, v, name).value;
      Find(o, "DELIVERY") == Some(DeliveryGroup(("PPL", (59, 0))))
      && Find(o, "PARAM") == Some(List(Params(p, v, name).value))
      && Find(o, "PRICE_BEFORE_DISCOUNT") == (if Truthy(Lookup(v.compareAtPrice))
                                              then Some(Scalar(Bing.WholeNumber(v.compareAtPrice))) else None)
  {
    OptionalFinds(SaleEntry(v).value, ImagesEntry(p).value, DeliveryGroup(("PPL", (59, 0))),
                  List(Params(p, v, name).value));
  }

  /**
   * In a variant's item `DELIVERY` is the single group of the last
   * delivery entry (PPL) and `PARAM` the parameter list.
   */
  lemma VariantDelivery(storeUrl: string, p: Product, v: Variant)
    requires VariantItem(storeUrl, p, v).Some?
    ensures var it := VariantItem(storeUrl, p, v).value[0];
      Find(it, "DELIVERY") == Some(DeliveryGroup(("PPL", (59, 0))))
      && Find(it, "PARAM") == Some(List(Params(p, v, ProductName(p, v).value).value))
  {
    var name := ProductName(p, v).value;
    var req, opt := Required(storeUrl, p, v).value, Optional(p, v, name).value;
    LabelledKeys(storeUrl, p, v, Bing.Description(p), PackageLabel);
    OptionalNotRequired();
    OptionalLookup(p, v, name);
    FindSkip(req, opt, "DELIVERY");
    FindSkip(req, opt, "PARAM");
  }

  /** Lookups in the optional part, from the keys each piece may hold. */
  lemma OptionalFinds(sale: Item, images: Item, delivery: Value, params: Value)
    requires OnlyKey(sale, "PRICE_BEFORE_DISCOUNT") && OnlyKey(images, "IMGURL_ALTERNATIVE")
    ensures var o := sale + images + [("DELIVERY", delivery)] + [("PARAM", params)];
      Find(o, "DELIVERY") == Some(delivery) && Find(o, "PARAM") == Some(params)
      && Find(o, "PRICE_BEFORE_DISCOUNT") == Find(sale, "PRICE_BEFORE_DISCOUNT")
  {
    var a := sale + images;
    var c: Item := [("DELIVERY", delivery)];
    var d: Item := [("PARAM", params)];
    assert Keys(c) == ["DELIVERY"] && Keys(d) == ["PARAM"];
    KeysAppend(sale, images);
    KeysAppend(a, c);
    OnlyKeyAbsent(sale, "PRICE_BEFORE_DISCOUNT", "DELIVERY");
    OnlyKeyAbsent(images, "IMGURL_ALTERNATIVE", "DELIVERY");
    OnlyKeyAbsent(sale, "PRICE_BEFORE_DISCOUNT", "PARAM");
    OnlyKeyAbsent(images, "IMGURL_ALTERNATIVE", "PARAM");
    OnlyKeyAbsent(images, "IMGURL_ALTERNATIVE", "PRICE_BEFORE_DISCOUNT");
    FindKeep(a + c, d, "DELIVERY");
    FindSkip(a, c, "DELIVERY");
    FindSkip(a + c, d, "PARAM");
    FindKeep(a + c, d, "PRICE_BEFORE_DISCOUNT");
    FindKeep(a, c, "PRICE_BEFORE_DISCOUNT");
    FindKeep(sale, images, "PRICE_BEFORE_DISCOUNT");
  }

  /** The number of truthy option values: the option entries come first, one per such option. */
  function TruthyOptions(v: Variant): nat
  {
    (if Truthy(Lookup(v.option1)) then 1 else 0) + (if Truthy(Lookup(v.option2)) then 1 else 0)
    + (if Truthy(Lookup(v.option3)) then 1 else 0)
  }

  function Count(b: bool): nat
  {
    if b then 1 else 0
  }

  /** The `VAL` of a parameter entry. */
  function ParamValue(a: Atom): Option<string>
  {
    if a.Dict? && |a.pairs| == 2 then a.pairs[1].1 else None
  }

  /** The `NAME` of a parameter entry. */
  function ParamName(a: Atom): Option<string>
  {
    if a.Dict? && |a.pairs| == 2 then a.pairs[0].1 else None
  }

  /**
   * The `PARAM` entries start with the truthy options, in option order,
   * and hold one entry per truthy option, then at most one weight, one
   * availability and one pot-size entry.
   */
  lemma ParamsOptions(p: Product, v: Variant, name: string)
    requires Params(p, v, Some(name)).Some?
    ensures |Params(p, v, Some(name)).value|
            == TruthyOptions(v) + Count(TruthyNat(Lookup(v.grams))) + Count(v.available.Val?) + Count(PotSize(name).Some?)
    ensures Truthy(Lookup(v.option1)) ==> ParamValue(Params(p, v, Some(name)).value[0]) == Lookup(v.option1)
    ensures Truthy(Lookup(v.option3)) ==>
              ParamValue(Params(p, v, Some(name)).value[TruthyOptions(v) - 1]) == Lookup(v.option3)
  {
    var o1, o2, o3 := OptionParam(p, v.option1, 0), OptionParam(p, v.option2, 1), OptionParam(p, v.option3, 2);
    ParamsSplit(p, v, name);
    OptionEntry(p, v.option1, 0);
    OptionEntry(p, v.option3, 2);
    TailLengths(v, name);
    OptionsOrder(o1.value, o2.value, o3.value);
    TailOrder(OptionParams(p, v).value, WeightParam(v), AvailabilityParam(v), PotParam(name));
  }

  /**
   * After the options come `Hmotnost` when `grams` is truthy, then
   * `Dostupnost` exactly when `available` is set, and the pot size last,
   * when the name holds one.
   */
  lemma ParamsTail(p: Product, v: Variant, name: string)
    requires Params(p, v, Some(name)).Some?
    ensures TruthyOptions(v) + Count(TruthyNat(Lookup(v.grams))) + Count(v.available.Val?) + Count(PotSize(name).Some?)
            == |Params(p, v, Some(name)).value|
    ensures TruthyNat(Lookup(v.grams)) ==>
              Params(p, v, Some(name)).value[TruthyOptions(v)] == ParamEntry(Some("Hmotnost"), Kg2(v.grams.value) + " kg")
    ensures v.available.Val? ==>
              ParamName(Params(p, v, Some(name)).value[TruthyOptions(v) + Count(TruthyNat(Lookup(v.grams)))])
              == Some("Dostupnost")
    ensures v.available.Val? ==>
              (v.available == Val(true) <==>
               ParamValue(Params(p, v, Some(name)).value[TruthyOptions(v) + Count(TruthyNat(Lookup(v.grams)))])
               == Some("Skladem"))
    ensures PotSize(name).Some? ==>
              Params(p, v, Some(name)).value[|Params(p, v, Some(name)).value| - 1]
              == ParamEntry(Some("Průměr květináče"), PotSize(name).value + " cm")
  {
    ParamsSplit(p, v, name);
    TailLengths(v, name);
    TailOrder(OptionParams(p, v).value, WeightParam(v), AvailabilityParam(v), PotParam(name));
  }

  /** The parameters are the option entries, one per truthy option, then the weight, availability and pot entries. */
  lemma ParamsSplit(p: Product, v: Variant, name: string)
    requires Params(p, v, Some(name)).Some?
    ensures OptionParams(p, v).Some? && |OptionParams(p, v).value| == TruthyOptions(v)
    ensures Params(p, v, Some(name)).value
            == OptionParams(p, v).value + WeightParam(v) + AvailabilityParam(v) + PotParam(name)
  {
    OptionEntry(p, v.option1, 0);
    OptionEntry(p, v.option2, 1);
    OptionEntry(p, v.option3, 2);
  }

  /** An option contributes one entry, holding its value, exactly when it is truthy. */
  lemma OptionEntry(p: Product, option: Field<string>, i: nat)
    requires i < 3 && OptionParam(p, option, i).Some?
    ensures |OptionParam(p, option, i).value| == Count(Truthy(Lookup(option)))
    ensures Truthy(Lookup(option)) ==> ParamValue(OptionParam(p, option, i).value[0]) == Lookup(option)
  {
  }

  /** The weight, availability and pot entries each appear at most once, as their conditions say. */
  lemma TailLengths(v: Variant, name: string)
    ensures |WeightParam(v)| == Count(TruthyNat(Lookup(v.grams)))
    ensures |AvailabilityParam(v)| == Count(v.available.Val?)
    ensures |PotParam(name)| == Count(PotSize(name).Some?)
    ensures TruthyNat(Lookup(v.grams)) ==> WeightParam(v)[0] == ParamEntry(Some("Hmotnost"), Kg2(v.grams.value) + " kg")
    ensures v.available.Val? ==> ParamName(AvailabilityParam(v)[0]) == Some("Dostupnost")
                                 && (ParamValue(AvailabilityParam(v)[0]) == Some("Skladem") <==> v.available == Val(true))
    ensures PotSize(name).Some? ==> PotParam(name)[0] == ParamEntry(Some("Průměr květináče"), PotSize(name).value + " cm")
  {
  }

  /** Where the option entries sit among themselves. */
  lemma OptionsOrder(o1: seq<Atom>, o2: seq<Atom>, o3: seq<Atom>)
    ensures |o1| == 1 ==> (o1 + o2 + o3)[0] == o1[0]
    ensures |o3| == 1 ==> (o1 + o2 + o3)[|o1 + o2 + o3| - 1] == o3[0]
  {
  }

  /** Where the weight, availability and pot entries sit after the options. */
  lemma TailOrder(opts: seq<Atom>, w: seq<Atom>, a: seq<Atom>, s: seq<Atom>)
    ensures var ps := opts + w + a + s;
      |ps| == |opts| + |w| + |a| + |s|
      && (forall i :: 0 <= i < |opts| ==> ps[i] == opts[i])
      && (|w| == 1 ==> ps[|opts|] == w[0])
      && (|a| == 1 ==> ps[|opts| + |w|] == a[0])
      && (|s| == 1 ==> ps[|ps| - 1] == s[0])
  {
  }

  /** `str()` of a parameter entry with plain text: the dictionary in Python's repr. */
  lemma ParamText(name: string, val: string)
    requires Plain(name) && Plain(val)
    ensures ShowAtom(ParamEntry(Some(name), val)) == "{'" + NameKey + "': '" + name + "', '" + ValueKey + "': '" + val + "'}"
  {
    assert Plain(NameKey) && Plain(ValueKey);
    PlainPair(NameKey, name, ValueKey, val);
  }

  /**
   * The last children of an item element: one `DELIVERY` element holding a
   * child per group key, then one `PARAM` element per entry whose text is
   * `str(entry)` and which has no children of its own.
   */
  lemma ItemTail(a: Item, g: seq<(string, string)>, ps: seq<Atom>)
    ensures ItemChildren(a + [("DELIVERY", Group(g))] + [("PARAM", List(ps))], ShowEntries)
      == ItemChildren(a, ShowEntries)
         + [Element("DELIVERY", NoText, seq(|g|, i requires 0 <= i < |g| => Leaf(g[i].0, Chars(g[i].1))))]
         + seq(|ps|, i requires 0 <= i < |ps| => Leaf("PARAM", Chars(ShowAtom(ps[i]))))
  {
    var b := a + [("DELIVERY", Group(g))];
    var it := b + [("PARAM", List(ps))];
    assert it[..|it| - 1] == b;
    assert b[..|b| - 1] == a;
    ItemChildrenLast(it, ShowEntries);
    ItemChildrenLast(b, ShowEntries);
  }

  /** With `str()` on every value the document can always be written: the feed fails only when a collection raises. */
  lemma FeedWhenListed(storeUrl: string, collections: Option<seq<Collection>>,
                       productsOf: Option<string> -> seq<Product>, shop: Option<ShopInfo>)
    ensures ZboziFeed(storeUrl, collections, productsOf, shop).Some?
      <==> collections.Some? && CollectionsItems(storeUrl, collections.value, productsOf).Some?
  {
    if collections.Some? && CollectionsItems(storeUrl, collections.value, productsOf).Some? {
      var items := CollectionsItems(storeUrl, collections.value, productsOf).value;
      var header := Header(Google.ShopOrDefault(shop, storeUrl));
      forall k | 0 <= k < |items| ensures Writable(ItemElement("SHOPITEM", items[k], ShowEntries)) {
        ItemWritable("SHOPITEM", items[k], ShowEntries);
      }
      FeedWritable("SHOP", header, "SHOPITEM", items, ShowEntries);
    }
  }

  /** Once a collection raises, generation has ended: no later collection undoes it. */
  lemma {:induction false} CollectionsStop(storeUrl: string, cs: seq<Collection>,
                                           productsOf: Option<string> -> seq<Product>, j: nat)
    requires j <= |cs| && CollectionsItems(storeUrl, cs[..j], productsOf).None?
    ensures CollectionsItems(storeUrl, cs, productsOf).None?
    decreases |cs| - j
  {
    if j < |cs| {
      assert cs[..j + 1][..j] == cs[..j];
      CollectionsStop(storeUrl, cs, productsOf, j + 1);
    } else {
      assert cs[..j] == cs;
    }
  }

  /**
   * A product that raises keeps the items of the products before it and
   * drops those after it.
   */
  lemma {:induction false} ProductsPrefix(storeUrl: string, ps: seq<Product>, k: nat)
    requires k < |ps| && ProductItems(storeUrl, ps[k]).None?
    requires forall j :: 0 <= j < k ==> ProductItems(storeUrl, ps[j]).Some?
    ensures ProductsItems(storeUrl, ps) == ProductsItems(storeUrl, ps[..k])
    decreases k
  {
    if k > 0 {
      assert ps[1..][..k - 1] == ps[..k][1..];
      ProductsPrefix(storeUrl, ps[1..], k - 1);
    } else {
      assert ps[..k] == [];
    }
  }

  // ---------------------------------------------------------- the generator

  class ZboziFeedGenerator {
    const storeUrl: string

    /** `ZboziFeedGenerator(store_url)`: the store URL is normalised once, here. */
    constructor(storeUrlArg: string)
      ensures storeUrl == ValidateUrl(storeUrlArg)
    {
      storeUrl := ValidateUrl(storeUrlArg);
    }

    /** The literal, then each optional assignment, with the delivery loop and the parameter list. */
    method BuildVariant(p: Product, v: Variant) returns (r: Option<seq<Item>>)
      ensures r == VariantItem(storeUrl, p, v)
    {
      var req, name := Required(storeUrl, p, v), ProductName(p, v);
      if req.None? || name.None? {
        return None;
      }
      var sale, images := SaleEntry(v), ImagesEntry(p);
      if sale.None? || images.None? {
        return None;
      }
      var params := BuildParams(p, v, name.value);
      if params.None? {
        return None;
      }
      LabelledKeys(storeUrl, p, v, Bing.Description(p), PackageLabel);
      var it := AssignOptional(req.value, p, v, params.value);
      r := Some([it]);
    }

    /** `_process_product`: the loop over the variants, appending each one's item. */
    method ProcessProduct(p: Product) returns (r: Option<seq<Item>>)
      ensures r == ProductItems(storeUrl, p)
    {
      if p.variants.Null? {
        return None;
      }
      var vs := if p.variants.Val? then p.variants.value else [];
      var items: seq<Item> := [];
      var k := 0;
      while k < |vs|
        invariant 0 <= k <= |vs|
        invariant Collect(Builder(storeUrl, p), vs[..k]) == Some(items)
      {
        var it := BuildVariant(p, vs[k]);
        CollectSnoc(Builder(storeUrl, p), vs, k);
        if it.None? {
          CollectStops(Builder(storeUrl, p), vs, k + 1);
          return None;
        }
        items := items + it.value;
        k := k + 1;
      }
      assert vs[..k] == vs;
      r := Some(items);
    }

    /** The products of one collection: each one's items, until `_process_product` raises. */
    method CollectionItems(ps: seq<Product>) returns (items: seq<Item>)
      ensures items == ProductsItems(storeUrl, ps)
    {
      items := [];
      var k := 0;
      while k < |ps|
        invariant 0 <= k <= |ps|
        invariant ProductsItems(storeUrl, ps) == items + ProductsItems(storeUrl, ps[k..])
      {
        var r := ProcessProduct(ps[k]);
        assert ps[k..][1..] == ps[k + 1..];
        if r.None? {
          return;
        }
        items := items + r.value;
        k := k + 1;
      }
    }

    /**
     * `generate` from its first line (zbozi.py:180-185): `list(get_collections())`
     * either raises, which fails the whole generation, or gives the listed
     * collections the loop then walks.
     */
    method GenerateListed(client: Client.ShopifyClient, net: Client.Network<Response>, ghost last: nat,
                          productsOf: Option<string> -> seq<Product>, shop: Option<ShopInfo>)
      returns (doc: Option<Element>, requested: seq<string>)
      requires 1 <= last && client.ItemsAt(net, Client.Collections, Client.CollectionsKey)(last) == []
      ensures |requested| >= 1
      ensures !Client.AllNamed(Client.Pages(client.ItemsAt(net, Client.Collections, Client.CollectionsKey), 1, |requested| + 1))
              ==> doc.None?
      ensures Client.AllNamed(Client.Pages(client.ItemsAt(net, Client.Collections, Client.CollectionsKey), 1, |requested| + 1))
              ==> doc == ZboziFeed(storeUrl, Some(Client.Pages(client.ItemsAt(net, Client.Collections, Client.CollectionsKey), 1, |requested|)),
                                    productsOf, shop)
    {
      var listed;
      listed, requested := client.GetCollections(net, last);
      doc := Generate(listed, productsOf, shop);
    }

    /**
     * `generate` (zbozi.py:180-236) on what the client returns: each
     * collection's products in turn, then the header and the serializer
     * loop. `collections` is what `GetCollections` returns, `None` when it raised.
     */
    method Generate(collections: Option<seq<Collection>>, productsOf: Option<string> -> seq<Product>,
                    shop: Option<ShopInfo>)
      returns (doc: Option<Element>)
      ensures doc == ZboziFeed(storeUrl, collections, productsOf, shop)
    {
      if collections.None? {
        return None;
      }
      var cs := collections.value;
      var all: seq<Item> := [];
      var i := 0;
      while i < |cs|
        invariant 0 <= i <= |cs|
        invariant CollectionsItems(storeUrl, cs[..i], productsOf) == Some(all)
      {
        CollectionsNext(storeUrl, cs, productsOf, i, all);
        if cs[i].handle.Missing? {
          CollectionsStop(storeUrl, cs, productsOf, i + 1);
          return None;
        }
        if !cs[i].title.Missing? {
          var fromCollection := CollectionItems(productsOf(Lookup(cs[i].handle)));
          all := all + fromCollection;
        }
        i := i + 1;
      }
      assert cs[..i] == cs;
      var root := SerializeFeed("SHOP", Header(Google.ShopOrDefault(shop, storeUrl)), "SHOPITEM", all, ShowEntries);
      doc := Written(Some(root));
    }
  }

  /**
   * `params` built as the source builds it: each entry appended when its
   * condition holds.
   */
  method BuildParams(p: Product, v: Variant, name: Option<string>) returns (r: Option<seq<Atom>>)
    ensures r == Params(p, v, name)
  {
    var opts := BuildOptionParams(p, v);
    if opts.None? {
      return None;
    }
    var params := opts.value;
    if TruthyNat(Lookup(v.grams)) {
      params := params + [ParamEntry(Some("Hmotnost"), Kg2(v.grams.value) + " kg")];
    }
    if v.available.Val? {
      params := params + [ParamEntry(Some("Dostupnost"), if v.available.value then "Skladem" else "Není skladem")];
    }
    assert params == opts.value + WeightParam(v) + AvailabilityParam(v);
    if name.None? {
      return None;
    }
    ghost var rest := params;
    var pot := PotSize(name.value);
    if pot.Some? {
      params := params + [ParamEntry(Some("Průměr květináče"), pot.value + " cm")];
    }
    assert params == rest + PotParam(name.value);
    r := Some(params);
  }

  /** The option entries, each appended when its option value is truthy. */
  method BuildOptionParams(p: Product, v: Variant) returns (r: Option<seq<Atom>>)
    ensures r == OptionParams(p, v)
  {
    var params: seq<Atom> := [];
    if Truthy(Lookup(v.option1)) {
      var n := OptionName(p, 0);
      if n.None? {
        return None;
      }
      params := params + [ParamEntry(n.value, v.option1.value)];
    }
    assert params == OptionParam(p, v.option1, 0).value;
    if Truthy(Lookup(v.option2)) {
      var n := OptionName(p, 1);
      if n.None? {
        return None;
      }
      params := params + [ParamEntry(n.value, v.option2.value)];
    }
    assert params == OptionParam(p, v.option1, 0).value + OptionParam(p, v.option2, 1).value;
    if Truthy(Lookup(v.option3)) {
      var n := OptionName(p, 2);
      if n.None? {
        return None;
      }
      params := params + [ParamEntry(n.value, v.option3.value)];
    }
    assert params == OptionParam(p, v.option1, 0).value + OptionParam(p, v.option2, 1).value
      + OptionParam(p, v.option3, 2).value;
    r := Some(params);
  }

  /**
   * The assignments after the literal (zbozi.py:91-164):
   * `PRICE_BEFORE_DISCOUNT` and `IMGURL_ALTERNATIVE` when their values
   * exist, `DELIVERY` once per delivery entry, then `PARAM`.
   */
  method AssignOptional(a: Item, p: Product, v: Variant, params: seq<Atom>) returns (it: Item)
    requires Keys(a) == RequiredNames
    requires SaleEntry(v).Some? && ImagesEntry(p).Some?
    ensures it == a + (SaleEntry(v).value + ImagesEntry(p).value
                       + [("DELIVERY", DeliveryGroup(DefaultDelivery[|DefaultDelivery| - 1]))]
                       + [("PARAM", List(params))])
  {
    OptionalNotRequired();
    ghost var sale, images := SaleEntry(v).value, ImagesEntry(p).value;
    ghost var delivery: Item := [("DELIVERY", DeliveryGroup(DefaultDelivery[|DefaultDelivery| - 1]))];
    it := AssignSale(a, v);
    KeyAfter(a, sale, ["PRICE_BEFORE_DISCOUNT"], "IMGURL_ALTERNATIVE");
    KeyAfter(a, sale, ["PRICE_BEFORE_DISCOUNT"], "DELIVERY");
    KeyAfter(a, sale, ["PRICE_BEFORE_DISCOUNT"], "PARAM");
    ghost var b := it;
    it := AssignImages(it, p);
    KeyAfter(b, images, ["IMGURL_ALTERNATIVE"], "DELIVERY");
    KeyAfter(b, images, ["IMGURL_ALTERNATIVE"], "PARAM");
    ghost var c := it;
    it := AssignDelivery(it);
    KeyAfter(c, delivery, ["DELIVERY"], "PARAM");
    PutNew(it, "PARAM", List(params));
    it := Put(it, "PARAM", List(params));
    OptionalAssoc(a, sale, images, delivery, [("PARAM", List(params))]);
  }

  /** `PRICE_BEFORE_DISCOUNT` when `compare_at_price` is truthy. */
  method AssignSale(a: Item, v: Variant) returns (it: Item)
    requires "PRICE_BEFORE_DISCOUNT" !in Keys(a) && SaleEntry(v).Some?
    ensures it == a + SaleEntry(v).value
  {
    it := a;
    if Truthy(Lookup(v.compareAtPrice)) {
      PutNew(a, "PRICE_BEFORE_DISCOUNT", Scalar(Bing.WholeNumber(v.compareAtPrice)));
      it := Put(it, "PRICE_BEFORE_DISCOUNT", Scalar(Bing.WholeNumber(v.compareAtPrice)));
    }
  }

  /** `IMGURL_ALTERNATIVE` when there is more than one image. */
  method AssignImages(b: Item, p: Product) returns (it: Item)
    requires "IMGURL_ALTERNATIVE" !in Keys(b) && ImagesEntry(p).Some?
    ensures it == b + ImagesEntry(p).value
  {
    it := b;
    if p.images.Val? && |p.images.value| > 1 {
      var links := Google.Sources(p.images.value[1..]);
      PutNew(b, "IMGURL_ALTERNATIVE", List(Google.Atoms(links.value)));
      it := Put(it, "IMGURL_ALTERNATIVE", List(Google.Atoms(links.value)));
    }
  }

  /** The delivery loop: one assignment per `DEFAULT_DELIVERY` entry, the last one kept. */
  method AssignDelivery(c: Item) returns (it: Item)
    requires "DELIVERY" !in Keys(c)
    ensures it == c + [("DELIVERY", DeliveryGroup(DefaultDelivery[|DefaultDelivery| - 1]))]
  {
    it := c;
    var k := 0;
    while k < |DefaultDelivery|
      invariant 0 <= k <= |DefaultDelivery|
      invariant it == PutAll(c, "DELIVERY", DeliveryGroups()[..k])
    {
      assert DeliveryGroups()[..k + 1][..k] == DeliveryGroups()[..k];
      it := Put(it, "DELIVERY", DeliveryGroup(DefaultDelivery[k]));
      k := k + 1;
    }
    assert DeliveryGroups()[..k] == DeliveryGroups();
    PutAllNew(c, "DELIVERY", DeliveryGroups());
  }

  lemma OptionalAssoc(a: Item, b: Item, c: Item, d: Item, e: Item)
    ensures a + b + c + d + e == a + (b + c + d + e)
  {
  }

  // -------------------------------------------------------------- pot size

  /** The length of the longest run of characters satisfying `P` from index `i`. */
  function Run(s: string, i: nat, P: char -> bool): (n: nat)
    requires i <= |s|
    ensures i + n <= |s|
    ensures forall k :: i <= k < i + n ==> P(s[k])
    ensures i + n == |s| || !P(s[i + n])
    decreases |s| - i
  {
    if i < |s| && P(s[i]) then 1 + Run(s, i + 1, P) else 0
  }

  /** `(\d+)\s*cm` matches at `i` with `d` digits and `w` white-space characters. */
  predicate PatternAt(s: string, i: nat, d: nat, w: nat)
  {
    d >= 1 && i + d + w + 2 <= |s|
    && (forall k :: i <= k < i + d ==> IsDigit(s[k]))
    && (forall k :: i + d <= k < i + d + w ==> IsSpace(s[k]))
    && s[i + d + w] == 'c' && s[i + d + w + 1] == 'm'
  }

  /** The match at `i` the greedy runs give. */
  predicate MatchAt(s: string, i: nat)
    requires i <= |s|
  {
    var d := Run(s, i, IsDigit);
    var w := Run(s, i + d, IsSpace);
    d >= 1 && i + d + w + 2 <= |s| && s[i + d + w] == 'c' && s[i + d + w + 1] == 'm'
  }

  lemma Disjoint(c: char)
    ensures IsDigit(c) ==> !IsSpace(c) && c != 'c'
    ensures IsSpace(c) ==> c != 'c'
  {
  }

  /** A run of exactly `d` characters satisfying `P`, followed by one that does not, is the longest. */
  lemma {:induction false} RunExact(s: string, i: nat, P: char -> bool, d: nat)
    requires i + d <= |s| && (forall k :: i <= k < i + d ==> P(s[k]))
    requires i + d == |s| || !P(s[i + d])
    ensures Run(s, i, P) == d
    decreases d
  {
    if d > 0 {
      RunExact(s, i + 1, P, d - 1);
    }
  }

  /**
   * A match of the pattern at `i` is the greedy one: digits, white space
   * and `c` are disjoint classes, so backtracking never finds another, and
   * `group(1)` is the whole digit run.
   */
  lemma PatternGreedy(s: string, i: nat, d: nat, w: nat)
    requires PatternAt(s, i, d, w)
    ensures d == Run(s, i, IsDigit) && w == Run(s, i + d, IsSpace) && MatchAt(s, i)
  {
    assert !IsDigit(s[i + d]) by {
      Disjoint(s[i + d]);
      if w == 0 { assert s[i + d] == 'c'; } else { assert IsSpace(s[i + d]); }
    }
    RunExact(s, i, IsDigit, d);
    assert !IsSpace(s[i + d + w]) by { assert s[i + d + w] == 'c'; }
    RunExact(s, i + d, IsSpace, w);
    MatchFromRuns(s, i, d, w);
  }

  lemma MatchFromRuns(s: string, i: nat, d: nat, w: nat)
    requires i <= |s| && Run(s, i, IsDigit) == d && Run(s, i + d, IsSpace) == w
    requires d >= 1 && i + d + w + 2 <= |s| && s[i + d + w] == 'c' && s[i + d + w + 1] == 'm'
    ensures MatchAt(s, i)
  {
  }

  lemma MatchPattern(s: string, i: nat)
    requires i <= |s| && MatchAt(s, i)
    ensures PatternAt(s, i, Run(s, i, IsDigit), Run(s, i + Run(s, i, IsDigit), IsSpace))
  {
  }

  /** The leftmost match at or after `from`. */
  function FirstMatch(s: string, from: nat): (r: Option<nat>)
    requires from <= |s|
    ensures r.Some? ==> from <= r.value < |s| && MatchAt(s, r.value)
    ensures r.Some? ==> forall j :: from <= j < r.value ==> !MatchAt(s, j)
    ensures r.None? ==> forall j :: from <= j <= |s| ==> !MatchAt(s, j)
    decreases |s| - from
  {
    if from == |s| then NoMatchAtEnd(s); None
    else if MatchAt(s, from) then Some(from)
    else
      var r := FirstMatch(s, from + 1);
      NoMatchBefore(s, from, r);
      r
  }

  /** No match at `from` widens the match-free range found from `from + 1`. */
  lemma NoMatchBefore(s: string, from: nat, r: Option<nat>)
    requires from < |s| && !MatchAt(s, from)
    requires r.Some? ==> from < r.value < |s| && forall j :: from + 1 <= j < r.value ==> !MatchAt(s, j)
    requires r.None? ==> forall j :: from + 1 <= j <= |s| ==> !MatchAt(s, j)
    ensures r.Some? ==> forall j :: from <= j < r.value ==> !MatchAt(s, j)
    ensures r.None? ==> forall j :: from <= j <= |s| ==> !MatchAt(s, j)
  {
  }

  /** Nothing matches after the last character. */
  lemma NoMatchAtEnd(s: string)
    ensures !MatchAt(s, |s|)
  {
    assert Run(s, |s|, IsDigit) == 0;
  }

  /** `re.search(r'(\d+)\s*cm', name).group(1)`, or `None` without a match. */
  function PotSize(name: string): (r: Option<string>)
  {
    var i := FirstMatch(name, 0);
    if i.None? then None else Some(name[i.value..i.value + Run(name, i.value, IsDigit)])
  }

  /** There is no pot size exactly when the pattern matches nowhere. */
  lemma PotSizeNone(name: string)
    ensures PotSize(name).None? <==> forall i: nat, d: nat, w: nat :: !PatternAt(name, i, d, w)
  {
    var f := FirstMatch(name, 0);
    if f.None? {
      forall i: nat, d: nat, w: nat | PatternAt(name, i, d, w) ensures false {
        PatternGreedy(name, i, d, w);
      }
    } else {
      MatchPattern(name, f.value);
    }
  }

  /**
   * `v` is the digit group of a match of the pattern at some `i`, and the
   * pattern matches nowhere before `i`.
   */
  ghost predicate LeftmostGroup(name: string, v: string)
  {
    exists i: nat, w: nat ::
      PatternAt(name, i, |v|, w)
      && v == name[i..i + |v|]
      && forall j: nat, d: nat, w': nat :: j < i ==> !PatternAt(name, j, d, w')
  }

  /**
   * A pot size is the digit group of the leftmost place where the pattern
   * matches.
   */
  lemma PotSizeSome(name: string)
    requires PotSize(name).Some?
    ensures LeftmostGroup(name, PotSize(name).value)
  {
    var i := FirstMatch(name, 0).value;
    var d := Run(name, i, IsDigit);
    MatchPattern(name, i);
    NoEarlierPattern(name, i);
    Leftmost(name, i, d, Run(name, i + d, IsSpace), PotSize(name).value);
  }

  lemma Leftmost(name: string, i: nat, d: nat, w: nat, v: string)
    requires PatternAt(name, i, d, w) && v == name[i..i + d]
    requires forall j: nat, d: nat, w': nat :: j < i ==> !PatternAt(name, j, d, w')
    ensures LeftmostGroup(name, v)
  {
    assert |v| == d;
  }

  /** Before the leftmost greedy match the pattern matches nowhere. */
  lemma NoEarlierPattern(name: string, i: nat)
    requires i <= |name| && forall j :: 0 <= j < i ==> !MatchAt(name, j)
    ensures forall j: nat, d: nat, w: nat :: j < i ==> !PatternAt(name, j, d, w)
  {
    forall j: nat, d: nat, w: nat | j < i && PatternAt(name, j, d, w) ensures false {
      PatternGreedy(name, j, d, w);
    }
  }

}
