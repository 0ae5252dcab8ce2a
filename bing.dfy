/**
 * The Bing Shopping generator (`shopify_to_feeds/feeds/bing.py`): one
 * `Product` element per variant of every product of the store, each field
 * written by the generic serializer with `str()`. Nothing in it catches an
 * exception, so a variant that cannot be mapped ends the whole generation
 * (`None`).
 */
module Bing {
  import opened Values
  import opened Text
  import opened Numbers
  import opened Tags
  import opened Helpers
  import opened Urls
  import opened Base
  import opened Catalog
  import opened FeedItems
  import opened Xml
  import Google

  const DefaultCurrency := "CZK"
  const DefaultTitle := "Default Title"

  /** `DEFAULT_SHIPPING`: service name, then price and country. */
  const DefaultShipping: seq<(string, (int, string))> := [("PPL", (0, "CZ"))]

  /** `str(obj[key])` of an integer key: `None` when the key is absent (which raises). */
  function IdField(f: Field<int>): (r: Option<string>)
    ensures r.None? <==> f.Missing?
  {
    match f
    case Missing => None
    case Null => Some("None")
    case Val(i) => Some(IntToString(i))
  }

  /**
   * `f"{product['title']} - {variant['title']}"`, or the product title
   * alone when the variant title is `"Default Title"`; `None` when either
   * key is absent.
   */
  function Title(p: Product, v: Variant): (r: Option<string>)
    ensures r.None? <==> p.title.Missing? || v.title.Missing?
    ensures r.Some? && v.title == Val(DefaultTitle) ==> r.value == StrOf(Lookup(p.title))
    ensures r.Some? && v.title != Val(DefaultTitle) ==> r.value == StrOf(Lookup(p.title)) + " - " + StrOf(Lookup(v.title))
  {
    if p.title.Missing? || v.title.Missing? then None
    else if v.title == Val(DefaultTitle) then Some(StrOf(Lookup(p.title)))
    else Some(StrOf(Lookup(p.title)) + " - " + StrOf(Lookup(v.title)))
  }

  /** The reference `/products/{handle}?variant={id}`. */
  function LinkPath(handle: string, id: string): (r: string)
    ensures StartsWith(r, "/") && !StartsWith(r, "//")
  {
    ProductPath(handle, "?variant=" + id)
  }

  /** `urljoin(base_url, f"/products/{product['handle']}?variant={variant['id']}")`. */
  function Link(storeUrl: string, p: Product, v: Variant): (r: Option<string>)
    ensures r.None? <==> p.handle.Missing? || v.id.Missing?
  {
    var id := IdField(v.id);
    if p.handle.Missing? || id.None? then None
    else Some(UrlJoin(storeUrl, LinkPath(StrOf(Lookup(p.handle)), id.value)))
  }

  /** `product["images"][0]["src"] if product.get("images") else ""`. */
  function ImageLink(p: Product): (r: Option<Option<string>>)
    ensures !FieldNonEmpty(p.images) ==> r == Some(Some(""))
    ensures FieldNonEmpty(p.images) ==> (r.None? <==> p.images.value[0].src.Missing?)
    ensures FieldNonEmpty(p.images) && r.Some? ==> r.value == Lookup(p.images.value[0].src)
  {
    if !FieldNonEmpty(p.images) then Some(Some(""))
    else if p.images.value[0].src.Missing? then None
    else Some(Lookup(p.images.value[0].src))
  }

  /**
   * `str(int(float(price)))`: the price truncated toward zero; `None` when
   * the key is absent, `null` or not a decimal number (all of which raise).
   */
  function WholeNumber(price: Field<string>): (r: Option<string>)
    ensures r.Some? <==> price.Val? && ParseDecimal(price.value).Some?
    ensures r.Some? ==> r.value == TruncText(ParseDecimal(price.value).value)
  {
    if !price.Val? then None
    else
      var d := ParseDecimal(price.value);
      if d.None? then None else Some(TruncText(d.value))
  }

  /** `f"{int(float(price))} {currency}"`: the truncated price and the currency. */
  function WholePrice(price: Field<string>, currency: string): (r: Option<string>)
    ensures r.Some? <==> price.Val? && ParseDecimal(price.value).Some?
    ensures r.Some? ==> r.value == TruncText(ParseDecimal(price.value).value) + " " + currency
  {
    var w := WholeNumber(price);
    if w.None? then None else Some(w.value + " " + currency)
  }

  /** `"In Stock" if variant.get("available", False) else "Out of Stock"`. */
  function Availability(v: Variant): (r: string)
    ensures r == "In Stock" <==> v.available == Val(true)
    ensures r == "In Stock" || r == "Out of Stock"
  {
    if TruthyBool(Get(v.available, false)) then "In Stock" else "Out of Stock"
  }

  /** `remove_html_tags(product.get("body_html", ""))`: cleaned, not truncated. */
  function Description(p: Product): (d: string)
    ensures !HasTag(d, '<', '>') && SingleSpaced(d)
    ensures Truthy(Get(p.bodyHtml, "")) ==> d == Clean(Get(p.bodyHtml, "").value)
    ensures !Truthy(Get(p.bodyHtml, "")) ==> d == ""
  {
    RemoveHtmlTags(Get(p.bodyHtml, ""), None)
  }

  /** The `variant_data` literal (bing.py:62-79): twelve fields in a fixed order. */
  function Literal(id: string, title: string, link: string, image: Option<string>, price: string,
                   brand: Option<string>, mpn: Option<string>, availability: string, description: string,
                   productType: Option<string>, group: string): Item
  {
    [ ("ProductID", Scalar(Some(id))),
      ("Title", Scalar(Some(title))),
      ("Link", Scalar(Some(link))),
      ("ImageLink", Scalar(image)),
      ("Price", Scalar(Some(price))),
      ("Brand", Scalar(brand)),
      ("MPN", Scalar(mpn)),
      ("Availability", Scalar(Some(availability))),
      ("Condition", Scalar(Some("New"))),
      ("Description", Scalar(Some(description))),
      ("ProductType", Scalar(productType)),
      ("ItemGroupID", Scalar(Some(group))) ]
  }

  const RequiredNames: seq<string> := ["ProductID", "Title", "Link", "ImageLink", "Price", "Brand", "MPN",
    "Availability", "Condition", "Description", "ProductType", "ItemGroupID"]

  lemma LiteralKeys(id: string, title: string, link: string, image: Option<string>, price: string,
                    brand: Option<string>, mpn: Option<string>, availability: string, description: string,
                    productType: Option<string>, group: string)
    ensures Keys(Literal(id, title, link, image, price, brand, mpn, availability, description, productType, group))
      == RequiredNames
  {
  }

  /**
   * The literal with a given `Description`, or `None` when one of its
   * subscripts or conversions raises.
   */
  function Described(storeUrl: string, currency: string, p: Product, v: Variant, description: string): Option<Item>
  {
    var id, title, link := IdField(v.id), Title(p, v), Link(storeUrl, p, v);
    var image, price, group := ImageLink(p), WholePrice(v.price, currency), IdField(p.id);
    if id.None? || title.None? || link.None? || image.None? || price.None? || group.None? then None
    else Some(Literal(id.value, title.value, link.value, image.value, price.value, Get(p.vendor, ""),
                      Get(v.sku, ""), Availability(v), description, Get(p.productType, ""), group.value))
  }

  /** The literal of `_process_product`, its description cleaned by the package helper. */
  function Required(storeUrl: string, currency: string, p: Product, v: Variant): Option<Item>
  {
    Described(storeUrl, currency, p, v, Description(p))
  }

  // ------------------------------------------------------ optional fields

  /** `SalePrice` when `compare_at_price` is truthy; `None` when it then does not convert. */
  function SaleEntry(v: Variant, currency: string): Option<Item>
  {
    if !Truthy(Lookup(v.compareAtPrice)) then Some([])
    else
      var s := WholePrice(v.compareAtPrice, currency);
      if s.None? then None else Some([("SalePrice", Scalar(s))])
  }

  /** `ShippingWeight`, `f"{grams / 1000:.2f} kg"`, when `grams` is truthy. */
  function WeightEntry(v: Variant): Item
  {
    if TruthyNat(Lookup(v.grams)) then [("ShippingWeight", Scalar(Some(Kg2(Lookup(v.grams).value) + " kg")))] else []
  }

  /**
   * `AdditionalImageLink`, the `src` of every image after the first, when
   * there is more than one image; `None` when `images` is `null` (`len`
   * raises) or one of those images has no `src`.
   */
  function ImagesEntry(p: Product): Option<Item>
  {
    if p.images.Null? then None
    else if !p.images.Val? || |p.images.value| <= 1 then Some([])
    else
      var links := Google.Sources(p.images.value[1..]);
      if links.None? then None else Some([("AdditionalImageLink", List(Google.Atoms(links.value)))])
  }

  /** The `Shipping` group one `DEFAULT_SHIPPING` entry gives. */
  function ShippingGroup(entry: (string, (int, string)), currency: string): Value
  {
    Group([("Service", entry.0), ("Country", entry.1.1), ("Price", IntToString(entry.1.0) + " " + currency)])
  }

  function ShippingGroups(currency: string): seq<Value>
  {
    seq(|DefaultShipping|, i requires 0 <= i < |DefaultShipping| => ShippingGroup(DefaultShipping[i], currency))
  }

  /** `GTIN`, the barcode, when it is truthy. */
  function GtinEntry(v: Variant): Item
  {
    if Truthy(Lookup(v.barcode)) then [("GTIN", Scalar(Lookup(v.barcode)))] else []
  }

  /**
   * The fields assigned after the literal, in order; `None` when one of
   * them raises. `Shipping` is assigned once per shipping entry and keeps
   * the last.
   */
  function Optional(p: Product, v: Variant, currency: string): Option<Item>
  {
    var sale, images := SaleEntry(v, currency), ImagesEntry(p);
    if sale.None? || images.None? then None
    else Some(sale.value + WeightEntry(v) + images.value
              + [("Shipping", ShippingGroup(DefaultShipping[|DefaultShipping| - 1], currency))] + GtinEntry(v))
  }

  /** The item of one variant: the literal, then the optional fields. */
  function VariantItem(storeUrl: string, currency: string, p: Product, v: Variant): Option<seq<Item>>
  {
    var req, opt := Required(storeUrl, currency, p, v), Optional(p, v, currency);
    if req.None? || opt.None? then None else Some([req.value + opt.value])
  }

  function Builder(storeUrl: string, currency: string, p: Product): Variant -> Option<seq<Item>>
  {
    v => VariantItem(storeUrl, currency, p, v)
  }

  /** `_process_product`: one item per variant, in order; `variants` `null` raises. */
  function ProductItems(storeUrl: string, currency: string, p: Product): Option<seq<Item>>
  {
    if p.variants.Null? then None
    else Collect(Builder(storeUrl, currency, p), if p.variants.Val? then p.variants.value else [])
  }

  function ProductsBuilder(storeUrl: string, currency: string): Product -> Option<seq<Item>>
  {
    p => ProductItems(storeUrl, currency, p)
  }

  /** The `Catalog` header: the shop name, an empty description, the shop URL. */
  function Header(shop: ShopInfo): seq<Element>
  {
    [Leaf("Title", OfOption(shop.name)), Leaf("Description", Chars("")), Leaf("Link", Chars(shop.url))]
  }

  /**
   * `generate` (bing.py:121-169) on the products the client yields and the
   * shop information it found: the written `Catalog`, or `None` when a
   * product raises.
   */
  function BingFeed(storeUrl: string, currency: string, products: seq<Product>, shop: Option<ShopInfo>)
    : Option<Element>
  {
    var items := Collect(ProductsBuilder(storeUrl, currency), products);
    if items.None? then None
    else Written(Some(Feed("Catalog", Header(Google.ShopOrDefault(shop, storeUrl)), "Product", items.value, ShowEntries)))
  }

  // ------------------------------------------------------------ properties

  /** The optional keys present, in assignment order. */
  function OptionalNames(p: Product, v: Variant): seq<string>
  {
    (if Truthy(Lookup(v.compareAtPrice)) then ["SalePrice"] else [])
    + (if TruthyNat(Lookup(v.grams)) then ["ShippingWeight"] else [])
    + (if p.images.Val? && |p.images.value| > 1 then ["AdditionalImageLink"] else [])
    + ["Shipping"]
    + (if Truthy(Lookup(v.barcode)) then ["GTIN"] else [])
  }

  lemma OptionalKeys(p: Product, v: Variant, currency: string)
    requires Optional(p, v, currency).Some?
    ensures Keys(Optional(p, v, currency).value) == OptionalNames(p, v)
  {
    var a, b, c := SaleEntry(v, currency).value, WeightEntry(v), ImagesEntry(p).value;
    var d: Item := [("Shipping", ShippingGroup(DefaultShipping[|DefaultShipping| - 1], currency))];
    var e := GtinEntry(v);
    assert Optional(p, v, currency).value == a + b + c + d + e;
    KeysAppend(a, b);
    KeysAppend(a + b, c);
    KeysAppend(a + b + c, d);
    KeysAppend(a + b + c + d, e);
    EntryKeys(p, v, currency);
    assert Keys(d) == ["Shipping"];
  }

  /** Each optional piece holds its one key exactly when its condition holds. */
  lemma EntryKeys(p: Product, v: Variant, currency: string)
    requires SaleEntry(v, currency).Some? && ImagesEntry(p).Some?
    ensures Keys(SaleEntry(v, currency).value) == if Truthy(Lookup(v.compareAtPrice)) then ["SalePrice"] else []
    ensures Keys(WeightEntry(v)) == if TruthyNat(Lookup(v.grams)) then ["ShippingWeight"] else []
    ensures Keys(ImagesEntry(p).value) == if p.images.Val? && |p.images.value| > 1 then ["AdditionalImageLink"] else []
    ensures Keys(GtinEntry(v)) == if Truthy(Lookup(v.barcode)) then ["GTIN"] else []
  {
  }

  lemma NamesDistinct(p: Product, v: Variant)
    ensures Distinct(RequiredNames + OptionalNames(p, v))
  {
    RequiredDistinct();
    OptionalNotRequired();
    var o := OptionalNames(p, v);
    assert forall i :: 0 <= i < |o| ==> o[i] in ["SalePrice", "ShippingWeight", "AdditionalImageLink", "Shipping", "GTIN"];
    DistinctAppend(RequiredNames, o);
  }

  lemma RequiredDistinct()
    ensures Distinct(RequiredNames)
  {
  }

  /**
   * Every item holds the twelve literal keys in order, then `SalePrice`,
   * `ShippingWeight`, `AdditionalImageLink` when present, exactly one
   * `Shipping`, and `GTIN` when present; no key occurs twice.
   */
  lemma VariantKeys(storeUrl: string, currency: string, p: Product, v: Variant)
    requires VariantItem(storeUrl, currency, p, v).Some?
    ensures var it := VariantItem(storeUrl, currency, p, v).value[0];
      Keys(it) == RequiredNames + OptionalNames(p, v) && Distinct(Keys(it))
  {
    var req := Required(storeUrl, currency, p, v).value;
    var opt := Optional(p, v, currency).value;
    DescribedKeys(storeUrl, currency, p, v, Description(p));
    OptionalKeys(p, v, currency);
    KeysAppend(req, opt);
    NamesDistinct(p, v);
  }

  lemma DescribedKeys(storeUrl: string, currency: string, p: Product, v: Variant, description: string)
    requires Described(storeUrl, currency, p, v, description).Some?
    ensures Keys(Described(storeUrl, currency, p, v, description).value) == RequiredNames
  {
    var id, title, link := IdField(v.id), Title(p, v), Link(storeUrl, p, v);
    var image, price, group := ImageLink(p), WholePrice(v.price, currency), IdField(p.id);
    LiteralKeys(id.value, title.value, link.value, image.value, price.value, Get(p.vendor, ""),
                Get(v.sku, ""), Availability(v), description, Get(p.productType, ""), group.value);
  }

  /**
   * What the optional keys hold: `Shipping` the one PPL group, `GTIN` the
   * barcode when it is truthy, `SalePrice` the converted compare-at price
   * when that is truthy; absent otherwise.
   */
  lemma OptionalLookup(p: Product, v: Variant, currency: string)
    requires Optional(p, v, currency).Some?
    ensures var o := Optional(p, v, currency).value;
      Find(o, "Shipping") == Some(ShippingGroup(("PPL", (0, "CZ")), currency))
      && Find(o, "GTIN") == (if Truthy(Lookup(v.barcode)) then Some(Scalar(Lookup(v.barcode))) else None)
      && Find(o, "SalePrice") == (if Truthy(Lookup(v.compareAtPrice))
                                  then Some(Scalar(WholePrice(v.compareAtPrice, currency))) else None)
  {
    var sale, images := SaleEntry(v, currency).value, ImagesEntry(p).value;
    OptionalFinds(sale, WeightEntry(v), images, ShippingGroup(("PPL", (0, "CZ")), currency), GtinEntry(v));
  }

  /** Lookups in the optional part, from the keys each piece may hold. */
  lemma OptionalFinds(sale: Item, weight: Item, images: Item, ship: Value, gtin: Item)
    requires OnlyKey(sale, "SalePrice") && OnlyKey(weight, "ShippingWeight")
    requires OnlyKey(images, "AdditionalImageLink") && OnlyKey(gtin, "GTIN")
    ensures var o := sale + weight + images + [("Shipping", ship)] + gtin;
      Find(o, "Shipping") == Some(ship) && Find(o, "GTIN") == Find(gtin, "GTIN")
      && Find(o, "SalePrice") == Find(sale, "SalePrice")
  {
    var a := sale + weight + images;
    var d: Item := [("Shipping", ship)];
    assert Keys(d) == ["Shipping"];
    KeysAppend(sale, weight);
    KeysAppend(sale + weight, images);
    KeysAppend(a, d);
    OnlyKeyAbsent(sale, "SalePrice", "Shipping");
    OnlyKeyAbsent(weight, "ShippingWeight", "Shipping");
    OnlyKeyAbsent(images, "AdditionalImageLink", "Shipping");
    OnlyKeyAbsent(gtin, "GTIN", "Shipping");
    OnlyKeyAbsent(sale, "SalePrice", "GTIN");
    OnlyKeyAbsent(weight, "ShippingWeight", "GTIN");
    OnlyKeyAbsent(images, "AdditionalImageLink", "GTIN");
    OnlyKeyAbsent(weight, "ShippingWeight", "SalePrice");
    OnlyKeyAbsent(images, "AdditionalImageLink", "SalePrice");
    OnlyKeyAbsent(gtin, "GTIN", "SalePrice");
    FindKeep(a + d, gtin, "Shipping");
    FindSkip(a, d, "Shipping");
    FindSkip(a + d, gtin, "GTIN");
    FindKeep(a + d, gtin, "SalePrice");
    FindKeep(a, d, "SalePrice");
    FindKeep(sale + weight, images, "SalePrice");
    FindKeep(sale, weight, "SalePrice");
  }

  /**
   * A store URL `scheme://host` with any path: the link goes to the
   * product page on that host, with the variant id as the query.
   */
  lemma LinkOf(scheme: string, host: string, path: string, p: Product, v: Variant)
    requires scheme == "http" || scheme == "https"
    requires host != [] && forall i :: 0 <= i < |host| ==> !IsAuthorityEnd(host[i])
    requires path == [] || IsAuthorityEnd(path[0])
    requires p.handle.Val? && v.id.Val?
    ensures Link(ValidateUrl(scheme + "://" + host + path), p, v)
      == Some(scheme + "://" + host + LinkPath(p.handle.value, IntToString(v.id.value)))
  {
    var ref := LinkPath(p.handle.value, IntToString(v.id.value));
    assert StrOf(Lookup(p.handle)) == p.handle.value;
    assert IdField(v.id) == Some(IntToString(v.id.value));
    JoinValidated(scheme, host, path, ref);
  }

  /** A price that is not a decimal number makes the whole feed fail, whatever the other products. */
  lemma BadPriceFails(storeUrl: string, currency: string, products: seq<Product>, shop: Option<ShopInfo>,
                      i: nat, j: nat)
    requires i < |products| && products[i].variants.Val? && j < |products[i].variants.value|
    requires var pr := products[i].variants.value[j].price; pr.Val? && ParseDecimal(pr.value).None?
    ensures BingFeed(storeUrl, currency, products, shop).None?
  {
    var p := products[i];
    CollectSome(Builder(storeUrl, currency, p), p.variants.value);
    CollectSome(ProductsBuilder(storeUrl, currency), products);
  }

  /**
   * With `str()` on every value the document can always be written: the
   * feed exists exactly when every product maps without raising.
   */
  lemma FeedWhenMapped(storeUrl: string, currency: string, products: seq<Product>, shop: Option<ShopInfo>)
    ensures BingFeed(storeUrl, currency, products, shop).Some?
      <==> forall i :: 0 <= i < |products| ==> ProductItems(storeUrl, currency, products[i]).Some?
  {
    CollectSome(ProductsBuilder(storeUrl, currency), products);
    var items := Collect(ProductsBuilder(storeUrl, currency), products);
    if items.Some? {
      var header := Header(Google.ShopOrDefault(shop, storeUrl));
      forall k | 0 <= k < |items.value| ensures Writable(ItemElement("Product", items.value[k], ShowEntries)) {
        ItemWritable("Product", items.value[k], ShowEntries);
      }
      FeedWritable("Catalog", header, "Product", items.value, ShowEntries);
    }
  }

  /** One item per variant, in variant order. */
  lemma OneItemPerVariant(storeUrl: string, currency: string, p: Product, k: nat)
    requires ProductItems(storeUrl, currency, p).Some? && p.variants.Val? && k < |p.variants.value|
    ensures |ProductItems(storeUrl, currency, p).value| == |p.variants.value|
    ensures VariantItem(storeUrl, currency, p, p.variants.value[k]).Some?
    ensures [ProductItems(storeUrl, currency, p).value[k]] == VariantItem(storeUrl, currency, p, p.variants.value[k]).value
  {
    CollectSome(Builder(storeUrl, currency, p), p.variants.value);
    CollectSingles(Builder(storeUrl, currency, p), p.variants.value, k);
  }

  // ---------------------------------------------------------- the generator

  class BingFeedGenerator {
    const storeUrl: string
    const currency: string

    /** `BingFeedGenerator(store_url, currency)`: the store URL is normalised once, here. */
    constructor(storeUrlArg: string, currencyArg: string)
      ensures storeUrl == ValidateUrl(storeUrlArg) && currency == currencyArg
    {
      storeUrl := ValidateUrl(storeUrlArg);
      currency := currencyArg;
    }

    /** The literal, then each optional assignment, with the `Shipping` loop. */
    method BuildVariant(p: Product, v: Variant) returns (r: Option<seq<Item>>)
      ensures r == VariantItem(storeUrl, currency, p, v)
    {
      var req := Required(storeUrl, currency, p, v);
      var sale, images := SaleEntry(v, currency), ImagesEntry(p);
      if req.None? || sale.None? || images.None? {
        return None;
      }
      DescribedKeys(storeUrl, currency, p, v, Description(p));
      var it := AssignOptional(req.value, p, v, currency);
      r := Some([it]);
    }

    /** `_process_product`: the loop over the variants, appending each one's item. */
    method ProcessProduct(p: Product) returns (r: Option<seq<Item>>)
      ensures r == ProductItems(storeUrl, currency, p)
    {
      if p.variants.Null? {
        return None;
      }
      var vs := if p.variants.Val? then p.variants.value else [];
      var items: seq<Item> := [];
      var k := 0;
      while k < |vs|
        invariant 0 <= k <= |vs|
        invariant Collect(Builder(storeUrl, currency, p), vs[..k]) == Some(items)
      {
        var it := BuildVariant(p, vs[k]);
        CollectSnoc(Builder(storeUrl, currency, p), vs, k);
        if it.None? {
          CollectStops(Builder(storeUrl, currency, p), vs, k + 1);
          return None;
        }
        items := items + it.value;
        k := k + 1;
      }
      assert vs[..k] == vs;
      r := Some(items);
    }

    /** `generate`: every product's items, the header, then the serializer loop. */
    method Generate(products: seq<Product>, shop: Option<ShopInfo>) returns (doc: Option<Element>)
      ensures doc == BingFeed(storeUrl, currency, products, shop)
    {
      var all: seq<Item> := [];
      var i := 0;
      while i < |products|
        invariant 0 <= i <= |products|
        invariant Collect(ProductsBuilder(storeUrl, currency), products[..i]) == Some(all)
      {
        var items := ProcessProduct(products[i]);
        CollectSnoc(ProductsBuilder(storeUrl, currency), products, i);
        if items.None? {
          CollectStops(ProductsBuilder(storeUrl, currency), products, i + 1);
          return None;
        }
        all := all + items.value;
        i := i + 1;
      }
      assert products[..i] == products;
      var root := SerializeFeed("Catalog", Header(Google.ShopOrDefault(shop, storeUrl)), "Product", all, ShowEntries);
      doc := Written(Some(root));
    }
  }

  /**
   * The assignments after the literal (bing.py:81-104): `SalePrice`,
   * `ShippingWeight`, `AdditionalImageLink` when their values exist,
   * `Shipping` once per shipping entry, then `GTIN`.
   */
  method AssignOptional(a: Item, p: Product, v: Variant, currency: string) returns (it: Item)
    requires Keys(a) == RequiredNames
    requires SaleEntry(v, currency).Some? && ImagesEntry(p).Some?
    ensures Optional(p, v, currency).Some? && it == a + Optional(p, v, currency).value
  {
    OptionalNotRequired();
    ghost var sale, weight, images := SaleEntry(v, currency).value, WeightEntry(v), ImagesEntry(p).value;
    ghost var shipping: Item := [("Shipping", ShippingGroup(DefaultShipping[|DefaultShipping| - 1], currency))];
    it := AssignSale(a, v, currency);
    KeyAfter(a, sale, ["SalePrice"], "ShippingWeight");
    KeyAfter(a, sale, ["SalePrice"], "AdditionalImageLink");
    KeyAfter(a, sale, ["SalePrice"], "Shipping");
    KeyAfter(a, sale, ["SalePrice"], "GTIN");
    ghost var b := it;
    it := AssignWeight(it, v);
    KeyAfter(b, weight, ["ShippingWeight"], "AdditionalImageLink");
    KeyAfter(b, weight, ["ShippingWeight"], "Shipping");
    KeyAfter(b, weight, ["ShippingWeight"], "GTIN");
    ghost var c := it;
    it := AssignImages(it, p);
    KeyAfter(c, images, ["AdditionalImageLink"], "Shipping");
    KeyAfter(c, images, ["AdditionalImageLink"], "GTIN");
    ghost var d := it;
    it := AssignShipping(it, currency);
    KeyAfter(d, shipping, ["Shipping"], "GTIN");
    it := AssignGtin(it, v);
    OptionalAssoc(a, sale, weight, images, shipping, GtinEntry(v));
  }

  /** `SalePrice`, the converted compare-at price, when `compare_at_price` is truthy. */
  method AssignSale(a: Item, v: Variant, currency: string) returns (it: Item)
    requires "SalePrice" !in Keys(a) && SaleEntry(v, currency).Some?
    ensures it == a + SaleEntry(v, currency).value
  {
    it := a;
    var hasSale := Truthy(Lookup(v.compareAtPrice));
    if hasSale {
      it := Put(it, "SalePrice", Scalar(WholePrice(v.compareAtPrice, currency)));
    }
    SaleAssigned(a, v, currency, hasSale);
  }

  /** `ShippingWeight` when `grams` is truthy. */
  method AssignWeight(b: Item, v: Variant) returns (it: Item)
    requires "ShippingWeight" !in Keys(b)
    ensures it == b + WeightEntry(v)
  {
    it := b;
    var hasWeight := TruthyNat(Lookup(v.grams));
    if hasWeight {
      it := Put(it, "ShippingWeight", Scalar(Some(Kg2(Lookup(v.grams).value) + " kg")));
    }
    WeightAssigned(b, v, hasWeight);
  }

  /** `AdditionalImageLink` when there is more than one image. */
  method AssignImages(c: Item, p: Product) returns (it: Item)
    requires "AdditionalImageLink" !in Keys(c) && ImagesEntry(p).Some?
    ensures it == c + ImagesEntry(p).value
  {
    it := c;
    var hasImages := p.images.Val? && |p.images.value| > 1;
    if hasImages {
      var links := Google.Sources(p.images.value[1..]);
      it := Put(it, "AdditionalImageLink", List(Google.Atoms(links.value)));
    }
    ImagesAssigned(c, p, hasImages);
  }

  /** `GTIN` when the barcode is truthy. */
  method AssignGtin(e: Item, v: Variant) returns (it: Item)
    requires "GTIN" !in Keys(e)
    ensures it == e + GtinEntry(v)
  {
    it := e;
    var hasGtin := Truthy(Lookup(v.barcode));
    if hasGtin {
      it := Put(it, "GTIN", Scalar(Lookup(v.barcode)));
    }
    GtinAssigned(e, v, hasGtin);
  }

  /** The `Shipping` loop: one assignment per `DEFAULT_SHIPPING` entry, the last one kept. */
  method AssignShipping(d: Item, currency: string) returns (it: Item)
    requires "Shipping" !in Keys(d)
    ensures it == d + [("Shipping", ShippingGroup(DefaultShipping[|DefaultShipping| - 1], currency))]
  {
    it := d;
    var k := 0;
    while k < |DefaultShipping|
      invariant 0 <= k <= |DefaultShipping|
      invariant it == PutAll(d, "Shipping", ShippingGroups(currency)[..k])
    {
      assert ShippingGroups(currency)[..k + 1][..k] == ShippingGroups(currency)[..k];
      it := Put(it, "Shipping", ShippingGroup(DefaultShipping[k], currency));
      k := k + 1;
    }
    assert ShippingGroups(currency)[..k] == ShippingGroups(currency);
    PutAllNew(d, "Shipping", ShippingGroups(currency));
  }

  /** Step lemmas: each conditional assignment appends its entry, if any. */
  lemma SaleAssigned(a: Item, v: Variant, currency: string, hasSale: bool)
    requires "SalePrice" !in Keys(a) && SaleEntry(v, currency).Some?
    requires hasSale <==> Truthy(Lookup(v.compareAtPrice))
    ensures (if hasSale then Put(a, "SalePrice", Scalar(WholePrice(v.compareAtPrice, currency))) else a)
      == a + SaleEntry(v, currency).value
  {
    PutWhen(a, hasSale, "SalePrice", Scalar(WholePrice(v.compareAtPrice, currency)));
  }

  lemma WeightAssigned(b: Item, v: Variant, hasWeight: bool)
    requires "ShippingWeight" !in Keys(b)
    requires hasWeight <==> TruthyNat(Lookup(v.grams))
    ensures (if hasWeight then Put(b, "ShippingWeight", Scalar(Some(Kg2(Lookup(v.grams).value) + " kg"))) else b)
      == b + WeightEntry(v)
  {
    if hasWeight {
      PutNew(b, "ShippingWeight", Scalar(Some(Kg2(Lookup(v.grams).value) + " kg")));
    }
  }

  lemma GtinAssigned(e: Item, v: Variant, hasGtin: bool)
    requires "GTIN" !in Keys(e)
    requires hasGtin <==> Truthy(Lookup(v.barcode))
    ensures (if hasGtin then Put(e, "GTIN", Scalar(Lookup(v.barcode))) else e) == e + GtinEntry(v)
  {
    PutWhen(e, hasGtin, "GTIN", Scalar(Lookup(v.barcode)));
  }

  /** The five optional keys are not literal keys. */
  lemma OptionalNotRequired()
    ensures "SalePrice" !in RequiredNames && "ShippingWeight" !in RequiredNames
    ensures "AdditionalImageLink" !in RequiredNames && "Shipping" !in RequiredNames && "GTIN" !in RequiredNames
  {
  }

  /** `AdditionalImageLink` set when there is more than one image appends one entry. */
  lemma ImagesAssigned(c: Item, p: Product, hasImages: bool)
    requires "AdditionalImageLink" !in Keys(c) && ImagesEntry(p).Some?
    requires hasImages <==> p.images.Val? && |p.images.value| > 1
    ensures (if hasImages then Put(c, "AdditionalImageLink", List(Google.Atoms(Google.Sources(p.images.value[1..]).value)))
             else c) == c + ImagesEntry(p).value
  {
    if hasImages {
      PutNew(c, "AdditionalImageLink", List(Google.Atoms(Google.Sources(p.images.value[1..]).value)));
    }
  }

  lemma OptionalAssoc(a: Item, b: Item, c: Item, d: Item, e: Item, f: Item)
    ensures a + b + c + d + e + f == a + (b + c + d + e + f)
  {
  }
}
