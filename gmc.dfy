/**
 * The stand-alone Google Merchant Center script (`GMC_feed.py`): its own
 * text cleaner, price and weight formatting, a retry loop, the per-variant
 * images, the two product mappers (`process_product`, and
 * `process_collection` with its page loop), the `identifier_exists` and
 * title rules of its writer, and the image download of its variants.
 */
module Gmc {
  import opened Values
  import opened Text
  import opened Numbers
  import opened Tags
  import opened Catalog
  import opened FeedItems
  import Client
  import Helpers
  import Google
  import Images

  const MaxRetries := 3
  const RetryDelay := 180
  const UserAgent := Client.DefaultUserAgent
  const DefaultCurrency := "CZK"
  const WeightUnit := "kg"
  const MaxWorkers := 4
  const DescriptionLimit := 5000

  // ------------------------------------------------------------ pure helpers

  /**
   * `remove_html_tags(text)`: one pass of `re.sub("<[^<]+?>", "", text)`,
   * cut to 5000 characters; `None` in raises (`re.sub` on `None`).
   */
  function RemoveHtmlTags(text: Option<string>): (r: Option<string>)
    ensures r.Some? <==> text.Some?
    ensures r.Some? ==> |r.value| <= DescriptionLimit && StartsWith(StripLazyTags(text.value), r.value)
    ensures r.Some? && |StripLazyTags(text.value)| <= DescriptionLimit ==> r.value == StripLazyTags(text.value)
    ensures r.Some? ==> forall x :: x in r.value ==> x in text.value
  {
    if text.None? then None
    else
      var cleaned := StripLazyTags(text.value);
      StripLazyChars(text.value);
      var r := Helpers.Truncate(cleaned, Some(DescriptionLimit));
      assert forall x :: x in r ==> x in cleaned by {
        assert r == cleaned[..|r|];
      }
      Some(r)
  }

  /** Text without a tag, and short enough, comes out unchanged. */
  lemma RemoveHtmlTagsKeeps(t: string)
    requires !HasLazyTag(t) && |t| <= DescriptionLimit
    ensures RemoveHtmlTags(Some(t)) == Some(t)
  {
    StripLazyFixpoint(t);
  }

  function CurrencyOr(currency: Option<string>): string
  {
    if currency.None? then DefaultCurrency else currency.value
  }

  /**
   * `format_price(price, currency=None)`: `f"{float(price):.2f} {currency}"`
   * with `CZK` for a missing currency; `None` when `float` raises. Where it
   * does not raise it agrees with the package's formatter.
   */
  function FormatPrice(price: string, currency: Option<string>): (r: Option<string>)
    ensures r.Some? <==> ParseDecimal(price).Some?
    ensures r.Some? ==> r.value == Helpers.FormatPrice(Some(price), CurrencyOr(currency))
    ensures r.Some? ==> EndsWith(r.value, " " + CurrencyOr(currency))
  {
    match ParseDecimal(price)
    case None => None
    case Some(d) => Some(Fixed2(d) + " " + CurrencyOr(currency))
  }

  /** `format_weight(grams)`: the package's formatter with the unit fixed to kilograms. */
  function FormatWeight(grams: Option<nat>): (r: Option<string>)
    ensures r == Helpers.FormatWeight(grams, WeightUnit)
    ensures r.None? <==> !TruthyNat(grams)
    ensures r.Some? ==> r.value[..|r.value| - 3] == Kg3(grams.value)
  {
    if !TruthyNat(grams) then None
    else
      Helpers.FormatWeightKg(grams.value);
      Some(Kg3(grams.value) + " " + WeightUnit)
  }

  // ------------------------------------------------------------ the network

  function RequestFor(url: string): Client.Request
  {
    Client.Request(url, UserAgent)
  }

  /**
   * `make_request(url)`: at most `MAX_RETRIES` attempts, the first success
   * returned, a sleep after every failure but the last; `None` when all
   * fail.
   */
  method MakeRequest<B>(net: Client.Network<B>, url: string) returns (data: Option<B>, attempts: nat, sleeps: nat)
    ensures data == Client.Fetch(net, RequestFor(url), Client.Tries(MaxRetries))
    ensures 1 <= attempts <= MaxRetries
    ensures data.Some? ==> data == net(RequestFor(url), attempts - 1) && sleeps == attempts - 1
    ensures data.None? ==> attempts == MaxRetries && sleeps == MaxRetries - 1
  {
    var req := RequestFor(url);
    attempts, sleeps := 0, 0;
    for attempt := 0 to MaxRetries
      invariant attempts == attempt
      invariant sleeps == if attempt == MaxRetries then attempt - 1 else attempt
      invariant Client.FirstSuccess(net, req, MaxRetries, attempt) == Client.FirstSuccess(net, req, MaxRetries, 0)
    {
      var response := net(req, attempt);
      attempts := attempts + 1;
      if response.Some? {
        data := response;
        return;
      }
      if attempt < MaxRetries - 1 {
        sleeps := sleeps + 1;
      }
    }
    data := None;
  }

  // ------------------------------------------------------------ variant images

  /** `variant_id in image.get("variant_ids", [])` for an image whose list is not `null`. */
  predicate ShowsVariant(im: Image, variantId: int)
  {
    im.variantIds.Val? && variantId in im.variantIds.value
  }

  function Src(im: Image): Option<string>
  {
    Lookup(im.src)
  }

  /** One pass of `get_variant_images`: the image's `src` when it shows the variant; a `null` list or a missing `src` raises. */
  function ImageSource(im: Image, variantId: int): Option<seq<Option<string>>>
  {
    if im.variantIds.Null? then None
    else if !ShowsVariant(im, variantId) then Some([])
    else if im.src.Missing? then None
    else Some([Src(im)])
  }

  function SourceOf(variantId: int): Image -> Option<seq<Option<string>>>
  {
    im => ImageSource(im, variantId)
  }

  /** The images that show the variant, in image order. */
  function Matching(imgs: seq<Image>, variantId: int): (r: seq<Image>)
    ensures forall x :: x in r <==> x in imgs && ShowsVariant(x, variantId)
  {
    if imgs == [] then []
    else
      var n := |imgs| - 1;
      assert imgs == imgs[..n] + [imgs[n]];
      Matching(imgs[..n], variantId) + (if ShowsVariant(imgs[n], variantId) then [imgs[n]] else [])
  }

  /** `get_variant_images(product, variant_id)`; `None` when it raises. */
  function VariantImages(p: Product, variantId: int): Option<seq<Option<string>>>
  {
    match p.images
    case Missing => Some([])
    case Null => None
    case Val(imgs) => Collect(SourceOf(variantId), imgs)
  }

  /**
   * The loop finishes unless an image has a `null` id list or shows the
   * variant without a `src`; it then lists, in image order, the `src` of
   * exactly the images that show the variant.
   */
  lemma {:induction false} VariantImagesMeaning(imgs: seq<Image>, variantId: int)
    ensures Collect(SourceOf(variantId), imgs).Some? <==>
      forall i :: 0 <= i < |imgs| ==> !imgs[i].variantIds.Null? && (ShowsVariant(imgs[i], variantId) ==> !imgs[i].src.Missing?)
    ensures Collect(SourceOf(variantId), imgs).Some? ==>
      Collect(SourceOf(variantId), imgs).value == Map(Src, Matching(imgs, variantId))
  {
    CollectSome(SourceOf(variantId), imgs);
    if imgs != [] {
      var n := |imgs| - 1;
      VariantImagesMeaning(imgs[..n], variantId);
      var m := Matching(imgs[..n], variantId);
      if Collect(SourceOf(variantId), imgs).Some? && ShowsVariant(imgs[n], variantId) {
        assert (m + [imgs[n]])[..|m|] == m;
      }
      if Collect(SourceOf(variantId), imgs).Some? && !ShowsVariant(imgs[n], variantId) {
        assert m + [] == m;
      }
    }
  }

  /** `get_variant_images`: the loop appending each matching image's `src`. */
  method GetVariantImages(p: Product, variantId: int) returns (r: Option<seq<Option<string>>>)
    ensures r == VariantImages(p, variantId)
  {
    if p.images.Null? {
      return None;
    }
    if p.images.Missing? {
      return Some([]);
    }
    var imgs := p.images.value;
    var found: seq<Option<string>> := [];
    for k := 0 to |imgs|
      invariant Collect(SourceOf(variantId), imgs[..k]) == Some(found)
    {
      CollectSnoc(SourceOf(variantId), imgs, k);
      var im := imgs[k];
      if im.variantIds.Null? || (ShowsVariant(im, variantId) && im.src.Missing?) {
        CollectStops(SourceOf(variantId), imgs, k + 1);
        return None;
      }
      if ShowsVariant(im, variantId) {
        found := found + [Src(im)];
      } else {
        assert found + [] == found;
      }
    }
    assert imgs[..|imgs|] == imgs;
    r := Some(found);
  }

  // ------------------------------------------------------------ process_product

  /**
   * `image_links`: every image's `src` when the product has `images`, else
   * the one `image`'s `src`, else none; `None` when that raises.
   */
  function ImageLinks(p: Product): (r: Option<seq<Option<string>>>)
    ensures p.images.Val? ==> (r.Some? <==> forall i :: 0 <= i < |p.images.value| ==> !p.images.value[i].src.Missing?)
    ensures p.images.Val? && r.Some? ==>
      |r.value| == |p.images.value| && forall i :: 0 <= i < |r.value| ==> r.value[i] == Src(p.images.value[i])
    ensures p.images.Null? ==> r.None?
    ensures p.images.Missing? ==> (r.None? <==> p.image.Null? || (p.image.Val? && p.image.value.src.Missing?))
    ensures p.images.Missing? && p.image.Val? && r.Some? ==> r.value == [Src(p.image.value)]
    ensures p.images.Missing? && p.image.Missing? ==> r == Some([])
  {
    if p.images.Val? then Google.Sources(p.images.value)
    else if p.images.Null? then None
    else if p.image.Val? then (if p.image.value.src.Missing? then None else Some([Src(p.image.value)]))
    else if p.image.Null? then None
    else Some([])
  }

  /** `str(variant.get("id", ""))`. */
  function IdText(id: Field<int>): string
  {
    if id.Missing? then "" else ShowInt(Lookup(id))
  }

  const ShippingFields: seq<(string, string)> := [("g:country", "CZ"), ("g:service", "Standard"), ("g:price", "0 CZK"),
    ("g:carrier_shipping", "true"), ("g:shipping_transit_business_days", "2")]

  const TaxFields: seq<(string, string)> := [("g:country", "CZ"), ("g:rate", "21.0"), ("g:tax_ship", "y")]

  /** The `variant_data` literal of `process_product` (GMC_feed.py:249-273). */
  function Literal(id: string, title: string, description: string, link: string, image: Option<string>,
                   price: string, available: bool, brand: Option<string>, sku: Option<string>): Item
  {
    [("g:id", Scalar(Some(id))), ("title", Scalar(Some(title))), ("description", Scalar(Some(description))),
     ("link", Scalar(Some(link))), ("g:image_link", Scalar(image)), ("g:price", Scalar(Some(price))),
     ("g:availability", Scalar(Some(if available then "in stock" else "out of stock"))),
     ("g:condition", Scalar(Some("new"))), ("g:brand", Scalar(brand)), ("g:gtin", Scalar(sku)),
     ("g:mpn", Scalar(sku)), ("g:shipping", Group(ShippingFields)), ("g:tax", Group(TaxFields))]
  }

  const LiteralNames := ["g:id", "title", "description", "link", "g:image_link", "g:price", "g:availability",
    "g:condition", "g:brand", "g:gtin", "g:mpn", "g:shipping", "g:tax"]

  lemma LiteralKeys(id: string, title: string, description: string, link: string, image: Option<string>,
                    price: string, available: bool, brand: Option<string>, sku: Option<string>)
    ensures Keys(Literal(id, title, description, link, image, price, available, brand, sku)) == LiteralNames
  {
  }

  /** The literal's thirteen keys are distinct, and none of the three optional keys is among them. */
  lemma LiteralNamesApart()
    ensures Distinct(LiteralNames)
    ensures forall k :: k in OptionalNames ==> k !in LiteralNames
  {
  }

  /** `item[k] = v` under a condition, for a key the item does not hold yet. */
  method AssignWhen(a: Item, cond: bool, k: string, v: Value) returns (it: Item)
    requires k !in Keys(a)
    ensures it == a + (if cond then [(k, v)] else [])
  {
    PutWhen(a, cond, k, v);
    it := if cond then Put(a, k, v) else a;
  }

  /** `f"{product.get('title', '')} - {variant.get('title', 'Default Title')}"`. */
  function Title(p: Product, v: Variant): string
  {
    StrOf(Get(p.title, "")) + " - " + StrOf(Get(v.title, "Default Title"))
  }

  function Link(baseUrl: string, p: Product): string
  {
    baseUrl + "/products/" + StrOf(Get(p.handle, ""))
  }

  /** `image_links[0] if image_links else ""`. */
  function FirstLink(links: seq<Option<string>>): Option<string>
  {
    if links == [] then Some("") else links[0]
  }

  function TagAtoms(tags: seq<string>): seq<Atom>
  {
    seq(|tags|, i requires 0 <= i < |tags| => Str(Some(tags[i])))
  }

  /** The tags, when truthy. */
  predicate HasTags(p: Product)
  {
    var t := Get(p.tags, []); t.Some? && t.value != []
  }

  /** The tags as a list value (empty when there are none). */
  function TagsValue(p: Product): Value
  {
    if HasTags(p) then List(TagAtoms(Get(p.tags, []).value)) else List([])
  }

  /** `image_links[1:]` as a list value. */
  function AdditionalValue(links: seq<Option<string>>): Value
  {
    if links == [] then List([]) else List(Google.Atoms(links[1..]))
  }

  /** The keys added after the literal: product type, tags as category, additional images, each when present. */
  function OptionalFields(p: Product, links: seq<Option<string>>): Item
  {
    (if Truthy(Get(p.productType, "")) then [("g:product_type", Scalar(Get(p.productType, "")))] else [])
    + (if HasTags(p) then [("g:google_product_category", TagsValue(p))] else [])
    + (if |links| > 1 then [("g:additional_image_link", AdditionalValue(links))] else [])
  }

  const OptionalNames := ["g:product_type", "g:google_product_category", "g:additional_image_link"]

  /** One variant's record, given the product's image links and cleaned description. */
  function VariantItem(baseUrl: string, p: Product, links: seq<Option<string>>, description: string, v: Variant): Item
  {
    Literal(IdText(v.id), Title(p, v), description, Link(baseUrl, p), FirstLink(links),
            StrOf(Get(v.price, "0.0")) + " " + DefaultCurrency, TruthyBool(Get(v.available, false)),
            Get(p.vendor, ""), Get(v.sku, ""))
    + OptionalFields(p, links)
  }

  function ItemBuilder(baseUrl: string, p: Product, links: seq<Option<string>>, description: string): Variant -> Item
  {
    v => VariantItem(baseUrl, p, links, description, v)
  }

  /**
   * `process_product(product, base_url)`: `None` when the image links or
   * the variant list raise (outside the `try`); otherwise one record per
   * variant, except that a `null` `body_html` makes every variant raise
   * inside the `try`, so that all are skipped.
   */
  function ProductItems(baseUrl: string, p: Product): (r: Option<seq<Item>>)
    ensures r.None? <==> ImageLinks(p).None? || p.variants.Null?
    ensures r.Some? && p.bodyHtml.Null? ==> r.value == []
    ensures r.Some? && !p.bodyHtml.Null? ==> |r.value| == |Get(p.variants, []).value|
  {
    var links := ImageLinks(p);
    if links.None? || p.variants.Null? then None
    else
      var vs := Get(p.variants, []).value;
      var description := RemoveHtmlTags(Get(p.bodyHtml, ""));
      if description.None? then Some([]) else Some(Map(ItemBuilder(baseUrl, p, links.value, description.value), vs))
  }

  /** The keys after the literal are optional keys; the additional images are there exactly for more than one link. */
  lemma OptionalFieldsKeys(p: Product, links: seq<Option<string>>)
    ensures forall i :: 0 <= i < |OptionalFields(p, links)| ==> OptionalFields(p, links)[i].0 in OptionalNames
    ensures "g:additional_image_link" in Keys(OptionalFields(p, links)) <==> |links| > 1
    ensures |links| > 1 ==> Find(OptionalFields(p, links), "g:additional_image_link") == Some(List(Google.Atoms(links[1..])))
  {
    var front := (if Truthy(Get(p.productType, "")) then [("g:product_type", Scalar(Get(p.productType, "")))] else [])
      + (if HasTags(p) then [("g:google_product_category", TagsValue(p))] else []);
    var back: Item := if |links| > 1 then [("g:additional_image_link", AdditionalValue(links))] else [];
    assert OptionalFields(p, links) == front + back;
    KeysAppend(front, back);
    KeyAfter([], front, ["g:product_type", "g:google_product_category"], "g:additional_image_link");
    assert [] + front == front;
    FindSkip(front, back, "g:additional_image_link");
  }

  /**
   * What a record says: the variant's id, availability and image in the
   * fixed fields, and the additional images exactly when there is more than
   * one link, holding every link after the first.
   */
  lemma VariantItemFields(baseUrl: string, p: Product, links: seq<Option<string>>, description: string, v: Variant)
    ensures var it := VariantItem(baseUrl, p, links, description, v);
      Find(it, "g:id") == Some(Scalar(Some(IdText(v.id))))
      && Find(it, "g:availability") == Some(Scalar(Some(if v.available == Val(true) then "in stock" else "out of stock")))
      && Find(it, "g:image_link") == Some(Scalar(if links == [] then Some("") else links[0]))
      && ("g:additional_image_link" in Keys(it) <==> |links| > 1)
      && (|links| > 1 ==> Find(it, "g:additional_image_link") == Some(List(Google.Atoms(links[1..]))))
  {
    var lit := VariantLiteral(baseUrl, p, links, description, v);
    OptionalFieldsKeys(p, links);
    LiteralFields(lit, OptionalFields(p, links));
  }

  /** A record is its literal's thirteen fields, then the optional ones. */
  lemma VariantLiteral(baseUrl: string, p: Product, links: seq<Option<string>>, description: string, v: Variant)
    returns (lit: Item)
    ensures VariantItem(baseUrl, p, links, description, v) == lit + OptionalFields(p, links)
    ensures Keys(lit) == LiteralNames && |lit| == |LiteralNames|
    ensures lit[0].1 == Scalar(Some(IdText(v.id)))
    ensures lit[4].1 == Scalar(if links == [] then Some("") else links[0])
    ensures lit[6].1 == Scalar(Some(if v.available == Val(true) then "in stock" else "out of stock"))
  {
    var price := StrOf(Get(v.price, "0.0")) + " " + DefaultCurrency;
    lit := Literal(IdText(v.id), Title(p, v), description, Link(baseUrl, p), FirstLink(links),
                   price, TruthyBool(Get(v.available, false)), Get(p.vendor, ""), Get(v.sku, ""));
    LiteralKeys(IdText(v.id), Title(p, v), description, Link(baseUrl, p), FirstLink(links),
                price, TruthyBool(Get(v.available, false)), Get(p.vendor, ""), Get(v.sku, ""));
    LiteralValues(IdText(v.id), Title(p, v), description, Link(baseUrl, p), FirstLink(links),
                  price, TruthyBool(Get(v.available, false)), Get(p.vendor, ""), Get(v.sku, ""));
    assert TruthyBool(Get(v.available, false)) == (v.available == Val(true));
  }

  lemma LiteralValues(id: string, title: string, description: string, link: string, image: Option<string>,
                      price: string, available: bool, brand: Option<string>, sku: Option<string>)
    ensures var lit := Literal(id, title, description, link, image, price, available, brand, sku);
      |lit| == |LiteralNames| && lit[0].1 == Scalar(Some(id)) && lit[4].1 == Scalar(image)
      && lit[6].1 == Scalar(Some(if available then "in stock" else "out of stock"))
  {
  }

  /** The fixed fields of the literal survive the optional keys appended after it; those keys are found in the tail. */
  lemma LiteralFields(lit: Item, opt: Item)
    requires Keys(lit) == LiteralNames && |lit| == |LiteralNames|
    requires forall i :: 0 <= i < |opt| ==> opt[i].0 in OptionalNames
    ensures Find(lit + opt, "g:id") == Some(lit[0].1)
    ensures Find(lit + opt, "g:image_link") == Some(lit[4].1)
    ensures Find(lit + opt, "g:availability") == Some(lit[6].1)
    ensures "g:additional_image_link" in Keys(lit + opt) <==> "g:additional_image_link" in Keys(opt)
    ensures Find(lit + opt, "g:additional_image_link") == Find(opt, "g:additional_image_link")
  {
    LiteralNamesApart();
    assert lit[0].0 == "g:id" && lit[4].0 == "g:image_link" && lit[6].0 == "g:availability" by {
      assert Keys(lit)[0] == lit[0].0 && Keys(lit)[4] == lit[4].0 && Keys(lit)[6] == lit[6].0;
    }
    FindFront(lit, opt, OptionalNames, 0);
    FindFront(lit, opt, OptionalNames, 4);
    FindFront(lit, opt, OptionalNames, 6);
    var extra := OptionalNames[2];
    assert extra !in LiteralNames;
    FindBack(lit, opt, extra);
  }

  /** One pass of the variant loop: the record, or `None` when the `try` body raises. */
  method BuildVariant(baseUrl: string, p: Product, links: seq<Option<string>>, v: Variant) returns (r: Option<Item>)
    ensures var d := RemoveHtmlTags(Get(p.bodyHtml, ""));
      r == if d.None? then None else Some(VariantItem(baseUrl, p, links, d.value, v))
  {
    var description := RemoveHtmlTags(Get(p.bodyHtml, ""));
    if description.None? {
      return None;
    }
    var price := StrOf(Get(v.price, "0.0")) + " " + DefaultCurrency;
    var it := Literal(IdText(v.id), Title(p, v), description.value, Link(baseUrl, p), FirstLink(links),
                      price, TruthyBool(Get(v.available, false)), Get(p.vendor, ""), Get(v.sku, ""));
    LiteralKeys(IdText(v.id), Title(p, v), description.value, Link(baseUrl, p), FirstLink(links),
                price, TruthyBool(Get(v.available, false)), Get(p.vendor, ""), Get(v.sku, ""));
    it := AssignOptional(it, p, links);
    r := Some(it);
  }

  /** The three conditional assignments after the literal, in source order. */
  method AssignOptional(a: Item, p: Product, links: seq<Option<string>>) returns (it: Item)
    requires Keys(a) == LiteralNames
    ensures it == a + OptionalFields(p, links)
  {
    LiteralNamesApart();
    var productType := Get(p.productType, "");
    ghost var typed: Item := if Truthy(productType) then [("g:product_type", Scalar(productType))] else [];
    ghost var tagged: Item := if HasTags(p) then [("g:google_product_category", TagsValue(p))] else [];
    ghost var more: Item := if |links| > 1 then [("g:additional_image_link", AdditionalValue(links))] else [];
    it := AssignWhen(a, Truthy(productType), "g:product_type", Scalar(productType));
    KeyAfter(a, typed, ["g:product_type"], "g:google_product_category");
    KeyAfter(a, typed, ["g:product_type"], "g:additional_image_link");
    ghost var b := it;
    it := AssignWhen(it, HasTags(p), "g:google_product_category", TagsValue(p));
    KeyAfter(b, tagged, ["g:google_product_category"], "g:additional_image_link");
    ghost var c := it;
    it := AssignWhen(it, |links| > 1, "g:additional_image_link", AdditionalValue(links));
    assert OptionalFields(p, links) == typed + tagged + more;
    assert it == a + (typed + tagged + more);
  }

  /** `process_product`: the image links, then the variant loop that skips a variant whose `try` body raises. */
  method ProcessProduct(baseUrl: string, p: Product) returns (r: Option<seq<Item>>)
    ensures r == ProductItems(baseUrl, p)
  {
    var links := ImageLinks(p);
    if links.None? || p.variants.Null? {
      return None;
    }
    var vs := Get(p.variants, []).value;
    ghost var description := RemoveHtmlTags(Get(p.bodyHtml, ""));
    var variants: seq<Item> := [];
    for k := 0 to |vs|
      invariant description.None? ==> variants == []
      invariant description.Some? ==> variants == Map(ItemBuilder(baseUrl, p, links.value, description.value), vs[..k])
    {
      var item := BuildVariant(baseUrl, p, links.value, vs[k]);
      if item.None? {
        continue;
      }
      MapSnoc(ItemBuilder(baseUrl, p, links.value, description.value), vs, k);
      variants := variants + [item.value];
    }
    assert vs[..|vs|] == vs;
    r := Some(variants);
  }

  // ------------------------------------------------------------ process_collection

  const Brand := "Coasy"
  const Category := "Home & Garden > Plants"

  /** From index `k` on, the first image whose `id` (read with `get`) equals `imageId`. */
  function FirstMatch(imgs: seq<Image>, imageId: Option<int>, k: nat): (r: Option<nat>)
    requires k <= |imgs|
    ensures r.Some? ==> k <= r.value < |imgs| && Lookup(imgs[r.value].id) == imageId
    ensures forall j :: k <= j < |imgs| && (r.None? || j < r.value) ==> Lookup(imgs[j].id) != imageId
    decreases |imgs| - k
  {
    if k == |imgs| then None
    else if Lookup(imgs[k].id) == imageId then Some(k)
    else FirstMatch(imgs, imageId, k + 1)
  }

  /**
   * The `image_link` of a variant: `image.get("src", "")` of the first image
   * whose `id` equals the variant's `image_id` (two absent ids are equal, as
   * `None == None`), replaced by the first image's when it is falsy and
   * there are images; `None` when `images` is `null` (iterating it raises).
   */
  function ChosenImage(p: Product, v: Variant): (r: Option<Option<string>>)
    ensures r.None? <==> p.images.Null?
    ensures !p.images.Val? || p.images.value == [] ==> r.None? || r == Some(Some(""))
    ensures r.Some? && p.images.Val? && p.images.value != [] ==>
      r.value == Some("") || exists i :: 0 <= i < |p.images.value| && r.value == Get(p.images.value[i].src, "")
  {
    if p.images.Null? then None
    else
      var imgs := Get(p.images, []).value;
      var m := FirstMatch(imgs, Lookup(v.imageId), 0);
      var matched := if m.Some? then Get(imgs[m.value].src, "") else Some("");
      Some(if !Truthy(matched) && imgs != [] then Get(imgs[0].src, "") else matched)
  }

  /** A matching image with a truthy `src` gives the variant that `src`. */
  lemma ChosenMatch(p: Product, v: Variant, i: nat)
    requires p.images.Val? && i < |p.images.value|
    requires Lookup(p.images.value[i].id) == Lookup(v.imageId) && Truthy(Get(p.images.value[i].src, ""))
    requires forall j :: 0 <= j < i ==> Lookup(p.images.value[j].id) != Lookup(v.imageId)
    ensures ChosenImage(p, v) == Some(Get(p.images.value[i].src, ""))
  {
    var m := FirstMatch(p.images.value, Lookup(v.imageId), 0);
    assert m == Some(i);
  }

  /** The `for image in images ... break` loop and the fallback to the first image. */
  method ImageFor(p: Product, v: Variant) returns (r: Option<Option<string>>)
    ensures r == ChosenImage(p, v)
  {
    if p.images.Null? {
      return None;
    }
    var imgs := Get(p.images, []).value;
    var imageUrl: Option<string> := Some("");
    var k := 0;
    while k < |imgs|
      invariant k <= |imgs|
      invariant FirstMatch(imgs, Lookup(v.imageId), k) == FirstMatch(imgs, Lookup(v.imageId), 0)
      invariant imageUrl == Some("")
    {
      if Lookup(imgs[k].id) == Lookup(v.imageId) {
        imageUrl := Get(imgs[k].src, "");
        break;
      }
      k := k + 1;
    }
    if !Truthy(imageUrl) && imgs != [] {
      imageUrl := Get(imgs[0].src, "");
    }
    r := Some(imageUrl);
  }

  /** The `variant_data` literal of `process_collection` (GMC_feed.py:336-347). */
  function CollectionLiteral(id: string, title: string, description: string, link: string, image: Option<string>,
                             available: bool, price: string): Item
  {
    [("id", Scalar(Some(id))), ("title", Scalar(Some(title))), ("description", Scalar(Some(description))),
     ("link", Scalar(Some(link))), ("image_link", Scalar(image)),
     ("availability", Scalar(Some(if available then "in stock" else "out of stock"))),
     ("price", Scalar(Some(price))), ("brand", Scalar(Some(Brand))), ("condition", Scalar(Some("new"))),
     ("google_product_category", Scalar(Some(Category)))]
  }

  const CollectionNames := ["id", "title", "description", "link", "image_link", "availability", "price", "brand",
    "condition", "google_product_category"]

  lemma CollectionLiteralKeys(id: string, title: string, description: string, link: string, image: Option<string>,
                              available: bool, price: string)
    ensures Keys(CollectionLiteral(id, title, description, link, image, available, price)) == CollectionNames
  {
  }

  lemma IdentifiersApart()
    ensures "gtin" !in CollectionNames && "mpn" !in CollectionNames
  {
  }

  /** `gtin` from a truthy sku, then `mpn` from a truthy barcode. */
  function Identifiers(v: Variant): Item
  {
    (if Truthy(Lookup(v.sku)) then [("gtin", Scalar(Lookup(v.sku)))] else [])
    + (if Truthy(Lookup(v.barcode)) then [("mpn", Scalar(Lookup(v.barcode)))] else [])
  }

  /** The record of a variant with an id, given the product's cleaned description and the chosen image. */
  function CollectionItem(storeUrl: string, p: Product, description: string, image: Option<string>, v: Variant): Item
  {
    CollectionLiteral(IdText(v.id), StrOf(Get(p.title, "")) + " - " + StrOf(Get(v.title, "")), description,
                      storeUrl + "/products/" + StrOf(Get(p.handle, "")), image, TruthyBool(Get(v.available, false)),
                      StrOf(Get(v.price, "0.00")) + " CZK")
    + Identifiers(v)
  }

  /** One pass of the variant loop: skipped without an id, `None` when choosing the image raises. */
  function CollectionVariant(storeUrl: string, p: Product, description: string, v: Variant): Option<seq<Item>>
  {
    if IdText(v.id) == "" then Some([])
    else
      var image := ChosenImage(p, v);
      if image.None? then None else Some([CollectionItem(storeUrl, p, description, image.value, v)])
  }

  function CollectionVariantBuilder(storeUrl: string, p: Product, description: string): Variant -> Option<seq<Item>>
  {
    v => CollectionVariant(storeUrl, p, description, v)
  }

  /** The products loop body: the cleaned description (which raises on `null`), then the variants. */
  function CollectionProductItems(storeUrl: string, p: Product): Option<seq<Item>>
  {
    var description := RemoveHtmlTags(Get(p.bodyHtml, ""));
    if description.None? || p.variants.Null? then None
    else Collect(CollectionVariantBuilder(storeUrl, p, description.value), Get(p.variants, []).value)
  }

  function CollectionBuilder(storeUrl: string): Product -> Option<seq<Item>>
  {
    p => CollectionProductItems(storeUrl, p)
  }

  /** How many variants have an `id` key. */
  function WithId(vs: seq<Variant>): nat
  {
    if vs == [] then 0 else WithId(vs[..|vs| - 1]) + (if vs[|vs| - 1].id.Missing? then 0 else 1)
  }

  /** A variant is skipped exactly when it has no `id` key; every other one gives one record. */
  lemma {:induction false} CollectionVariantsCount(storeUrl: string, p: Product, description: string, vs: seq<Variant>)
    requires Collect(CollectionVariantBuilder(storeUrl, p, description), vs).Some?
    ensures |Collect(CollectionVariantBuilder(storeUrl, p, description), vs).value| == WithId(vs)
  {
    if vs != [] {
      var n := |vs| - 1;
      CollectionVariantsCount(storeUrl, p, description, vs[..n]);
      assert IdText(vs[n].id) == "" <==> vs[n].id.Missing? by {
        if !vs[n].id.Missing? {
          assert |ShowInt(Lookup(vs[n].id))| > 0 by { NonEmptyShowInt(Lookup(vs[n].id)); }
        }
      }
    }
  }

  lemma NonEmptyShowInt(i: Option<int>)
    ensures ShowInt(i) != []
  {
    if i.Some? {
      if i.value < 0 {
        assert IntToString(i.value) == "-" + NatToString(-i.value);
      } else {
        assert IntToString(i.value) == NatToString(i.value);
      }
    }
  }

  /** A record carries `gtin` exactly for a truthy sku and `mpn` exactly for a truthy barcode. */
  lemma CollectionItemIdentifiers(storeUrl: string, p: Product, description: string, image: Option<string>, v: Variant)
    ensures var it := CollectionItem(storeUrl, p, description, image, v);
      ("gtin" in Keys(it) <==> Truthy(Lookup(v.sku))) && ("mpn" in Keys(it) <==> Truthy(Lookup(v.barcode)))
  {
    var lit := CollectionLiteral(IdText(v.id), StrOf(Get(p.title, "")) + " - " + StrOf(Get(v.title, "")), description,
                                 storeUrl + "/products/" + StrOf(Get(p.handle, "")), image,
                                 TruthyBool(Get(v.available, false)), StrOf(Get(v.price, "0.00")) + " CZK");
    CollectionLiteralKeys(IdText(v.id), StrOf(Get(p.title, "")) + " - " + StrOf(Get(v.title, "")), description,
                          storeUrl + "/products/" + StrOf(Get(p.handle, "")), image,
                          TruthyBool(Get(v.available, false)), StrOf(Get(v.price, "0.00")) + " CZK");
    IdentifiersApart();
    KeysAppend(lit, Identifiers(v));
    var g: Item := if Truthy(Lookup(v.sku)) then [("gtin", Scalar(Lookup(v.sku)))] else [];
    var m: Item := if Truthy(Lookup(v.barcode)) then [("mpn", Scalar(Lookup(v.barcode)))] else [];
    KeysAppend(g, m);
    assert Keys(g) == if Truthy(Lookup(v.sku)) then ["gtin"] else [];
    assert Keys(m) == if Truthy(Lookup(v.barcode)) then ["mpn"] else [];
  }

  /** One variant of a collection product: the id check, the image loop, the literal and the two identifiers. */
  method BuildCollectionVariant(storeUrl: string, p: Product, description: string, v: Variant)
    returns (r: Option<seq<Item>>)
    ensures r == CollectionVariant(storeUrl, p, description, v)
  {
    var variantId := IdText(v.id);
    if variantId == "" {
      return Some([]);
    }
    var image := ImageFor(p, v);
    if image.None? {
      return None;
    }
    var title := StrOf(Get(p.title, "")) + " - " + StrOf(Get(v.title, ""));
    var link := storeUrl + "/products/" + StrOf(Get(p.handle, ""));
    var price := StrOf(Get(v.price, "0.00")) + " CZK";
    var it := CollectionLiteral(variantId, title, description, link, image.value, TruthyBool(Get(v.available, false)), price);
    CollectionLiteralKeys(variantId, title, description, link, image.value, TruthyBool(Get(v.available, false)), price);
    IdentifiersApart();
    var sku, barcode := Lookup(v.sku), Lookup(v.barcode);
    ghost var g: Item := if Truthy(sku) then [("gtin", Scalar(sku))] else [];
    ghost var m: Item := if Truthy(barcode) then [("mpn", Scalar(barcode))] else [];
    ghost var lit := it;
    it := AssignWhen(it, Truthy(sku), "gtin", Scalar(sku));
    KeyAfter(lit, g, ["gtin"], "mpn");
    it := AssignWhen(it, Truthy(barcode), "mpn", Scalar(barcode));
    assert Identifiers(v) == g + m;
    assert it == lit + (g + m);
    r := Some([it]);
  }

  /** The loop body of one product: description, link and the variant loop. */
  method ProcessCollectionProduct(storeUrl: string, p: Product) returns (r: Option<seq<Item>>)
    ensures r == CollectionProductItems(storeUrl, p)
  {
    var description := RemoveHtmlTags(Get(p.bodyHtml, ""));
    if description.None? || p.variants.Null? {
      return None;
    }
    var f := CollectionVariantBuilder(storeUrl, p, description.value);
    var vs := Get(p.variants, []).value;
    var items: seq<Item> := [];
    for k := 0 to |vs|
      invariant Collect(f, vs[..k]) == Some(items)
    {
      CollectSnoc(f, vs, k);
      var got := BuildCollectionVariant(storeUrl, p, description.value, vs[k]);
      if got.None? {
        CollectStops(f, vs, k + 1);
        return None;
      }
      items := items + got.value;
    }
    assert vs[..|vs|] == vs;
    r := Some(items);
  }

  /** `f"{store_url}/collections/{collection_handle}/products.json?page={page}"`. */
  function CollectionPageUrl(storeUrl: string, handle: string, page: nat): string
  {
    storeUrl + "/collections/" + handle + "/products.json?page=" + NatToString(page)
  }

  /** What a page lists: nothing when the request failed, or `"products"` is absent, `null` or empty. */
  function PageProducts(net: Client.Network<Response>, url: string): seq<Product>
  {
    Client.Listed(Client.Fetch(net, RequestFor(url), Client.Tries(MaxRetries)), Client.ProductsKey)
  }

  function CollectionAt(net: Client.Network<Response>, storeUrl: string, handle: string): nat -> seq<Product>
  {
    (p: nat) => PageProducts(net, CollectionPageUrl(storeUrl, handle, p))
  }

  function CollectionUrls(storeUrl: string, handle: string): nat -> string
  {
    (p: nat) => CollectionPageUrl(storeUrl, handle, p)
  }

  /**
   * `process_collection(store_url, collection_handle)`: pages 1, 2, ...
   * until the first that lists no products, each page's products processed
   * as it arrives; the records of all the pages read, or `None` as soon as
   * one product raises.
   */
  method ProcessCollection(net: Client.Network<Response>, storeUrl: string, handle: string, ghost last: nat)
    returns (r: Option<seq<Item>>, requested: seq<string>)
    requires 1 <= last && CollectionAt(net, storeUrl, handle)(last) == []
    ensures |requested| >= 1
    ensures forall i :: 0 <= i < |requested| ==> requested[i] == CollectionPageUrl(storeUrl, handle, i + 1)
    ensures forall p: nat :: 1 <= p < |requested| ==> CollectionAt(net, storeUrl, handle)(p) != []
    ensures r.Some? ==> CollectionAt(net, storeUrl, handle)(|requested|) == []
    ensures r == Collect(CollectionBuilder(storeUrl), Client.Pages(CollectionAt(net, storeUrl, handle), 1, |requested| + 1))
  {
    ServesAll(net, CollectionUrls(storeUrl, handle), CollectionAt(net, storeUrl, handle), last);
    r, requested := CollectionPages(net, storeUrl, CollectionUrls(storeUrl, handle), CollectionAt(net, storeUrl, handle), last, CollectionBuilder(storeUrl));
  }

  /** `at(p)` is what the page at `urlOf(p)` lists, for the pages `1` to `n`. */
  ghost predicate Serves(net: Client.Network<Response>, urlOf: nat -> string, at: nat -> seq<Product>, n: nat)
    decreases n
  {
    n == 0 || (at(n) == PageProducts(net, urlOf(n)) && Serves(net, urlOf, at, n - 1))
  }

  lemma {:induction false} ServesAll(net: Client.Network<Response>, urlOf: nat -> string, at: nat -> seq<Product>, n: nat)
    requires forall p: nat :: at(p) == PageProducts(net, urlOf(p))
    ensures Serves(net, urlOf, at, n)
  {
    if n > 0 {
      ServesAll(net, urlOf, at, n - 1);
    }
  }

  lemma {:induction false} ServesAt(net: Client.Network<Response>, urlOf: nat -> string, at: nat -> seq<Product>, n: nat, p: nat)
    requires Serves(net, urlOf, at, n) && 1 <= p <= n
    ensures at(p) == PageProducts(net, urlOf(p))
    decreases n
  {
    if p < n {
      ServesAt(net, urlOf, at, n - 1, p);
    }
  }

  /** Reading page `page` extends what the pages before it collected, or stops the collection. */
  lemma PageStep<A, B>(f: A -> Option<seq<B>>, at: nat -> seq<A>, page: nat, all: seq<B>, products: seq<A>)
    requires 1 <= page && Collect(f, Client.Pages(at, 1, page)) == Some(all) && products == at(page)
    ensures products == [] ==> Collect(f, Client.Pages(at, 1, page + 1)) == Some(all)
    ensures Collect(f, products).None? ==> Collect(f, Client.Pages(at, 1, page + 1)).None?
    ensures Collect(f, products).Some? ==> Collect(f, Client.Pages(at, 1, page + 1)) == Some(all + Collect(f, products).value)
  {
    assert Client.Pages(at, 1, page + 1) == Client.Pages(at, 1, page) + products;
    CollectAppend(f, Client.Pages(at, 1, page), products);
    assert all + [] == all;
  }

  /** One page request: `data["products"] if data and "products" in data else []`. */
  method GetPage(net: Client.Network<Response>, url: string) returns (products: seq<Product>)
    ensures products == PageProducts(net, url)
  {
    var data, _, _ := MakeRequest(net, url);
    products := Client.Listed(data, Client.ProductsKey);
  }

  /**
   * One pass of the page loop: page `page`'s URL and products, and the
   * records of the pages up to it when they are not empty.
   */
  method ReadPage(net: Client.Network<Response>, storeUrl: string, urlOf: nat -> string,
                  ghost at: nat -> seq<Product>, ghost last: nat, page: nat, ghost all: seq<Item>, ghost f: Product -> Option<seq<Item>>)
    returns (url: string, products: seq<Product>, got: Option<seq<Item>>)
    requires Serves(net, urlOf, at, last) && 1 <= page <= last && at(last) == []
    requires f == CollectionBuilder(storeUrl)
    requires Collect(f, Client.Pages(at, 1, page)) == Some(all)
    ensures url == urlOf(page) && products == at(page)
    ensures products == [] ==> Collect(f, Client.Pages(at, 1, page + 1)) == Some(all)
    ensures products != [] ==> page < last
    ensures products != [] ==>
      Collect(f, Client.Pages(at, 1, page + 1)) == if got.None? then None else Some(all + got.value)
  {
    url := urlOf(page);
    products := GetPage(net, url);
    ServesAt(net, urlOf, at, last, page);
    PageStep(f, at, page, all, products);
    got := None;
    if products != [] {
      got := ProcessProducts(storeUrl, products);
    }
  }

  /** The page loop of `process_collection` over the URL of each page. */
  method CollectionPages(net: Client.Network<Response>, storeUrl: string, urlOf: nat -> string,
                         ghost at: nat -> seq<Product>, ghost last: nat, ghost f: Product -> Option<seq<Item>>)
    returns (r: Option<seq<Item>>, requested: seq<string>)
    requires Serves(net, urlOf, at, last) && f == CollectionBuilder(storeUrl)
    requires 1 <= last && at(last) == []
    ensures |requested| >= 1 && Client.RequestsPages(requested, urlOf) && Client.ListedBefore(at, |requested|)
    ensures r.Some? ==> at(|requested|) == []
    ensures r == Collect(f, Client.Pages(at, 1, |requested| + 1))
  {
    var page: nat := 1;
    var all: seq<Item> := [];
    requested := [];
    while true
      invariant 1 <= page <= last && |requested| == page - 1
      invariant Client.RequestsPages(requested, urlOf) && Client.ListedBefore(at, page)
      invariant Collect(f, Client.Pages(at, 1, page)) == Some(all)
      decreases last - page
    {
      var url, products, got := ReadPage(net, storeUrl, urlOf, at, last, page, all, f);
      Client.UrlsSnoc(requested, url, urlOf, page);
      requested := requested + [url];
      if products == [] {
        return Some(all), requested;
      }
      if got.None? {
        return None, requested;
      }
      all := all + got.value;
      Client.ListedNext(at, page);
      page := page + 1;
    }
  }

  /** The products loop of one page. */
  method ProcessProducts(storeUrl: string, products: seq<Product>) returns (r: Option<seq<Item>>)
    ensures r == Collect(CollectionBuilder(storeUrl), products)
  {
    var f := CollectionBuilder(storeUrl);
    var items: seq<Item> := [];
    for k := 0 to |products|
      invariant Collect(f, products[..k]) == Some(items)
    {
      CollectSnoc(f, products, k);
      var got := ProcessCollectionProduct(storeUrl, products[k]);
      if got.None? {
        CollectStops(f, products, k + 1);
        return None;
      }
      items := items + got.value;
    }
    assert products[..|products|] == products;
    r := Some(items);
  }

  // ------------------------------------------------------------ the writer's rules

  /**
   * The `identifier_exists` text of a record: `"FALSE"`, set to `"TRUE"` by
   * a `gtin` key and again by an `mpn` key.
   */
  method IdentifierExists(v: Item) returns (text: string)
    ensures text == "TRUE" || text == "FALSE"
    ensures text == "TRUE" <==> "gtin" in Keys(v) || "mpn" in Keys(v)
  {
    text := "FALSE";
    if "gtin" in Keys(v) {
      text := "TRUE";
    }
    if "mpn" in Keys(v) {
      text := "TRUE";
    }
  }

  /**
   * The written title: every `" - Default Title"` removed. A title without
   * it is written as it is, one with it is written shorter by at least the
   * suffix; `FeedTitleDefault` gives the title of a default variant.
   */
  function FeedTitle(title: string): (r: string)
    ensures !Contains(title, Google.DefaultTitleSuffix) ==> r == title
    ensures Contains(title, Google.DefaultTitleSuffix) ==> |r| + |Google.DefaultTitleSuffix| <= |title|
  {
    RemoveShrinks(title, Google.DefaultTitleSuffix);
    if !Contains(title, Google.DefaultTitleSuffix) then
      ReplaceAbsent(title, Google.DefaultTitleSuffix, "");
      ReplaceAll(title, Google.DefaultTitleSuffix, "")
    else ReplaceAll(title, Google.DefaultTitleSuffix, "")
  }

  /** A record of a default variant is written under the product title alone. */
  lemma FeedTitleDefault(t: string)
    requires !Contains(t, Google.DefaultTitleSuffix)
    ensures FeedTitle(t + " - " + "Default Title") == t
  {
    assert t + " - " + "Default Title" == t + Google.DefaultTitleSuffix;
    Google.SuffixBorderless();
    ReplaceAppendBorderless(t, Google.DefaultTitleSuffix);
    ReplaceAbsent(t, Google.DefaultTitleSuffix, "");
  }

  // ------------------------------------------------------------ image download

  /** The `additional_image_link` entries that are strings. */
  function AdditionalLinks(it: Item): seq<Atom>
  {
    var f := Find(it, "additional_image_link");
    if f.Some? && f.value.List? then f.value.atoms else []
  }

  /** Whether a record contributes `u`: a truthy `image_link`, or an `additional_image_link` entry. */
  predicate Offers(it: Item, u: string)
  {
    (Find(it, "image_link") == Some(Scalar(Some(u))) && u != "") || Str(Some(u)) in AdditionalLinks(it)
  }

  /** The set of image URLs, filled record by record. */
  method CollectUrls(items: seq<Item>) returns (urls: set<string>)
    ensures forall u :: u in urls <==> exists i :: 0 <= i < |items| && Offers(items[i], u)
  {
    urls := {};
    for k := 0 to |items|
      invariant forall u :: u in urls <==> exists i :: 0 <= i < k && Offers(items[i], u)
    {
      var it := items[k];
      var main := Find(it, "image_link");
      if main.Some? && main.value.Scalar? && Truthy(main.value.s) {
        urls := urls + {main.value.s.value};
      }
      var links := AdditionalLinks(it);
      ghost var before := urls;
      for j := 0 to |links|
        invariant forall u :: u in urls <==> u in before || Str(Some(u)) in links[..j]
      {
        if links[j].Str? && links[j].text.Some? {
          urls := urls + {links[j].text.value};
        }
        assert links[..j + 1] == links[..j] + [links[j]];
      }
      assert links[..|links|] == links;
    }
  }

  /**
   * `download_product_images(products_data, images_folder)`: one download
   * per distinct URL through `download` (the scraper's `download_image`),
   * and the map from each URL whose download gave a name to that name;
   * nothing is downloaded when no record offers a URL.
   */
  method DownloadProductImages(items: seq<Item>, download: string -> Option<string>)
    returns (downloaded: map<string, string>, tasks: seq<string>, reported: seq<nat>)
    ensures Images.Distinct(tasks)
    ensures forall u :: u in tasks <==> exists i :: 0 <= i < |items| && Offers(items[i], u)
    ensures Images.Results(downloaded, tasks, download)
    ensures Images.ReportLog(reported, |tasks|, |tasks|)
    ensures tasks == [] ==> downloaded == map[]
  {
    var urls := CollectUrls(items);
    if |urls| == 0 {
      assert forall u :: u !in urls;
      return map[], [], [];
    }
    var downloader := new Images.ImageDownloader(MaxWorkers);
    downloaded, tasks, reported := downloader.DownloadAll(urls, download);
  }
}
