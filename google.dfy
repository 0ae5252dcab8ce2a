/**
 * The Google Merchant Center generator (`shopify_to_feeds/feeds/google.py`):
 * one feed item per variant, with the product's images, description, link,
 * price and identifiers, and the fixed-order `g:` element layout of the
 * writer.
 */
module Google {
  import opened Values
  import opened Text
  import opened Numbers
  import opened Tags
  import opened Helpers
  import opened Urls
  import opened Base
  import opened Catalog
  import opened FeedItems
  import opened Xml
  import Client

  const DefaultCurrency := "CZK"
  const DefaultCategory := "Home & Garden"
  const DefaultTitleSuffix := " - Default Title"
  const DescriptionLimit: nat := 5000

  /** `img["src"]` of every image, `None` when one of them has no `src` key (which raises). */
  function Sources(imgs: seq<Image>): (r: Option<seq<Option<string>>>)
    ensures r.Some? <==> forall i :: 0 <= i < |imgs| ==> !imgs[i].src.Missing?
    ensures r.Some? ==> |r.value| == |imgs| && forall i :: 0 <= i < |imgs| ==> r.value[i] == Lookup(imgs[i].src)
  {
    if forall i :: 0 <= i < |imgs| ==> !imgs[i].src.Missing? then
      Some(seq(|imgs|, i requires 0 <= i < |imgs| => Lookup(imgs[i].src)))
    else None
  }

  /**
   * `image_links` (google.py:80-84): every image's `src` when `images` is a
   * non-empty list; otherwise the single `image`'s `src` when that key is
   * present; otherwise no links. `None` when a lookup raises.
   */
  function ImageLinks(p: Product): Option<seq<Option<string>>>
  {
    if FieldNonEmpty(p.images) then Sources(p.images.value)
    else if p.image.Missing? then Some([])
    else if p.image.Null? || p.image.value.src.Missing? then None
    else Some([Lookup(p.image.value.src)])
  }

  /** `str(variant.get("id", ""))`. */
  function IdText(id: Field<int>): string
  {
    match id
    case Missing => ""
    case Null => "None"
    case Val(i) => IntToString(i)
  }

  /** `f"{product.get('title', '')} - {variant_title}".replace(" - Default Title", "")`. */
  function Title(p: Product, v: Variant): string
  {
    var t := StrOf(Get(p.title, "")) + " - " + StrOf(Get(v.title, "Default Title"));
    ReplaceAll(t, DefaultTitleSuffix, "")
  }

  /**
   * `remove_html_tags(body_html, max_length=5000)`: the cleaned body text,
   * at most 5000 characters, with no tag left; "" for an empty or missing
   * body.
   */
  function Description(p: Product): (d: string)
    ensures |d| <= DescriptionLimit && !HasTag(d, '<', '>')
    ensures Truthy(Get(p.bodyHtml, "")) ==> StartsWith(Clean(Get(p.bodyHtml, "").value), d)
    ensures !Truthy(Get(p.bodyHtml, "")) ==> d == ""
  {
    RemoveHtmlTags(Get(p.bodyHtml, ""), Some(DescriptionLimit))
  }

  /** `urljoin(base_url, f"/products/{handle}")`: always ends with the product path. */
  function Link(storeUrl: string, p: Product): (r: string)
    ensures EndsWith(r, ProductPath(GetStr(p.handle, ""), ""))
  {
    UrlJoin(storeUrl, ProductPath(GetStr(p.handle, ""), ""))
  }

  /** `image_links[0] if image_links else ""`. */
  function ImageLink(links: seq<Option<string>>): Option<string>
  {
    if links != [] then links[0] else Some("")
  }

  /** `"in stock" if variant_available else "out of stock"`: in stock exactly when `available` is `true`. */
  function Availability(v: Variant): (r: string)
    ensures r == "in stock" <==> v.available == Val(true)
    ensures r == "in stock" || r == "out of stock"
  {
    if TruthyBool(Get(v.available, false)) then "in stock" else "out of stock"
  }

  /** `product_tags if product_tags else "Home & Garden"`: the tag list itself when it is non-empty. */
  function Category(p: Product): (c: Value)
    ensures !FieldNonEmpty(p.tags) ==> c == Scalar(Some(DefaultCategory))
    ensures FieldNonEmpty(p.tags) ==> c.List? && |c.atoms| == |p.tags.value|
    ensures FieldNonEmpty(p.tags) ==> forall i :: 0 <= i < |c.atoms| ==> c.atoms[i] == Str(Some(p.tags.value[i]))
  {
    if FieldNonEmpty(p.tags) then List(seq(|p.tags.value|, i requires 0 <= i < |p.tags.value| => Str(Some(p.tags.value[i]))))
    else Scalar(Some(DefaultCategory))
  }

  function Atoms(links: seq<Option<string>>): seq<Atom>
  {
    seq(|links|, i requires 0 <= i < |links| => Str(links[i]))
  }

  /** The `variant_data` literal (google.py:98-109): ten fields in a fixed order. */
  function Literal(id: string, title: string, description: string, link: string, image: Option<string>,
                   availability: string, price: string, brand: Option<string>, category: Value): Item
  {
    [ ("id", Scalar(Some(id))),
      ("title", Scalar(Some(title))),
      ("description", Scalar(Some(description))),
      ("link", Scalar(Some(link))),
      ("image_link", Scalar(image)),
      ("availability", Scalar(Some(availability))),
      ("price", Scalar(Some(price))),
      ("brand", Scalar(brand)),
      ("condition", Scalar(Some("new"))),
      ("google_product_category", category) ]
  }

  /** The ten fields every item has, computed from the product, the variant and the image links. */
  function Required(storeUrl: string, currency: string, p: Product, v: Variant, links: seq<Option<string>>): Item
  {
    Literal(IdText(v.id), Title(p, v), Description(p), Link(storeUrl, p), ImageLink(links), Availability(v),
            FormatPrice(Get(v.price, "0.0"), currency), Get(p.vendor, ""), Category(p))
  }

  /** `product_type` when it is non-empty. */
  function TypeEntry(pt: Option<string>): Item
  {
    if Truthy(pt) then [("product_type", Scalar(pt))] else []
  }

  /** `gtin` and `mpn`, both the SKU, when it is non-empty. */
  function IdEntries(sku: Option<string>): Item
  {
    if Truthy(sku) then [("gtin", Scalar(sku)), ("mpn", Scalar(sku))] else []
  }

  /** The other image links when there is more than one. */
  function ImageEntry(links: seq<Option<string>>): Item
  {
    if |links| > 1 then [("additional_image_link", List(Atoms(links[1..])))] else []
  }

  /** The optional fields, in the order they are assigned. */
  function Optional(pt: Option<string>, sku: Option<string>, links: seq<Option<string>>): Item
  {
    TypeEntry(pt) + IdEntries(sku) + ImageEntry(links)
  }

  /** The item of one variant: the required fields, then the optional ones. */
  function VariantItem(storeUrl: string, currency: string, p: Product, v: Variant, links: seq<Option<string>>): Item
  {
    Required(storeUrl, currency, p, v, links) + Optional(Get(p.productType, ""), Get(v.sku, ""), links)
  }

  /** The item of each variant of product `p`. */
  function Builder(storeUrl: string, currency: string, p: Product, links: seq<Option<string>>): Variant -> Item
  {
    v => VariantItem(storeUrl, currency, p, v, links)
  }

  /**
   * `_process_product`: one item per variant, in order; `None` when the
   * image lookup raises or `variants` is `null` (both outside the
   * per-variant `try`).
   */
  function ProductItems(storeUrl: string, currency: string, p: Product): Option<seq<Item>>
  {
    var links := ImageLinks(p);
    if links.None? || p.variants.Null? then None
    else Some(Map(Builder(storeUrl, currency, p, links.value), if p.variants.Val? then p.variants.value else []))
  }

  // ------------------------------------------------------------ properties

  const RequiredNames: seq<string> := ["id", "title", "description", "link", "image_link", "availability",
    "price", "brand", "condition", "google_product_category"]

  lemma LiteralKeys(id: string, title: string, description: string, link: string, image: Option<string>,
                    availability: string, price: string, brand: Option<string>, category: Value)
    ensures Keys(Literal(id, title, description, link, image, availability, price, brand, category)) == RequiredNames
  {
  }

  /** Every variant's item starts with the same ten keys, in the literal's order. */
  lemma RequiredKeys(storeUrl: string, currency: string, p: Product, v: Variant, links: seq<Option<string>>)
    ensures Keys(Required(storeUrl, currency, p, v, links)) == RequiredNames
  {
    LiteralKeys(IdText(v.id), Title(p, v), Description(p), Link(storeUrl, p), ImageLink(links), Availability(v),
                FormatPrice(Get(v.price, "0.0"), currency), Get(p.vendor, ""), Category(p));
  }

  /** The optional keys present, in insertion order. */
  function OptionalNames(pt: Option<string>, sku: Option<string>, links: seq<Option<string>>): seq<string>
  {
    (if Truthy(pt) then ["product_type"] else [])
    + (if Truthy(sku) then ["gtin", "mpn"] else [])
    + (if |links| > 1 then ["additional_image_link"] else [])
  }

  lemma OptionalKeys(pt: Option<string>, sku: Option<string>, links: seq<Option<string>>)
    ensures Keys(Optional(pt, sku, links)) == OptionalNames(pt, sku, links)
  {
    var b, c, d := TypeEntry(pt), IdEntries(sku), ImageEntry(links);
    KeysAppend(b, c);
    KeysAppend(b + c, d);
  }

  lemma VariantKeys(storeUrl: string, currency: string, p: Product, v: Variant, links: seq<Option<string>>)
    ensures Keys(VariantItem(storeUrl, currency, p, v, links))
      == RequiredNames + OptionalNames(Get(p.productType, ""), Get(v.sku, ""), links)
  {
    RequiredKeys(storeUrl, currency, p, v, links);
    OptionalKeys(Get(p.productType, ""), Get(v.sku, ""), links);
    KeysAppend(Required(storeUrl, currency, p, v, links), Optional(Get(p.productType, ""), Get(v.sku, ""), links));
  }

  lemma NamesDistinct(pt: Option<string>, sku: Option<string>, links: seq<Option<string>>)
    ensures Distinct(RequiredNames + OptionalNames(pt, sku, links))
  {
  }

  /** `"product_type"`, `"gtin"`, `"mpn"` and `"additional_image_link"` are not among the ten required keys. */
  lemma OptionalNotRequired()
    ensures "product_type" !in RequiredNames && "gtin" !in RequiredNames
    ensures "mpn" !in RequiredNames && "additional_image_link" !in RequiredNames
  {
  }

  /** Each required key of a variant's item reads back the value the literal gave it. */
  lemma VariantLookup(storeUrl: string, currency: string, p: Product, v: Variant, links: seq<Option<string>>, i: nat)
    requires i < |RequiredNames|
    ensures Find(VariantItem(storeUrl, currency, p, v, links), RequiredNames[i])
      == Some(Required(storeUrl, currency, p, v, links)[i].1)
  {
    var req, opt := Required(storeUrl, currency, p, v, links), Optional(Get(p.productType, ""), Get(v.sku, ""), links);
    RequiredKeys(storeUrl, currency, p, v, links);
    VariantKeys(storeUrl, currency, p, v, links);
    NamesDistinct(Get(p.productType, ""), Get(v.sku, ""), links);
    assert VariantItem(storeUrl, currency, p, v, links) == req + opt;
    FrontLookup(req, opt, i);
  }

  /** A required key of `req + opt`, with all keys distinct, finds the value `req` gave it. */
  lemma FrontLookup(req: Item, opt: Item, i: nat)
    requires Keys(req) == RequiredNames && Distinct(Keys(req + opt)) && i < |RequiredNames|
    ensures Find(req + opt, RequiredNames[i]) == Some(req[i].1)
  {
    var it := req + opt;
    assert |req| == |Keys(req)|;
    assert it[i] == req[i] && Keys(req)[i] == req[i].0;
    FindAt(it, i);
  }

  /** The optional keys read back as assigned, and are absent when not assigned. */
  lemma OptionalLookup(pt: Option<string>, sku: Option<string>, links: seq<Option<string>>)
    ensures Find(Optional(pt, sku, links), "product_type") == if Truthy(pt) then Some(Scalar(pt)) else None
    ensures Find(Optional(pt, sku, links), "gtin") == if Truthy(sku) then Some(Scalar(sku)) else None
    ensures Find(Optional(pt, sku, links), "mpn") == if Truthy(sku) then Some(Scalar(sku)) else None
    ensures Find(Optional(pt, sku, links), "additional_image_link")
      == if |links| > 1 then Some(List(Atoms(links[1..]))) else None
  {
    var b, c, d := TypeEntry(pt), IdEntries(sku), ImageEntry(links);
    KeysAppend(b, c);
    FindAppend(b + c, d, "product_type");
    FindAppend(b + c, d, "gtin");
    FindAppend(b + c, d, "mpn");
    FindAppend(b + c, d, "additional_image_link");
    FindAppend(b, c, "product_type");
    FindAppend(b, c, "gtin");
    FindAppend(b, c, "mpn");
    FindAppend(b, c, "additional_image_link");
  }

  /** The optional keys of a variant's item, looked up through the whole item. */
  lemma VariantOptionalLookup(storeUrl: string, currency: string, p: Product, v: Variant, links: seq<Option<string>>, k: string)
    requires k in ["product_type", "gtin", "mpn", "additional_image_link"]
    ensures Find(VariantItem(storeUrl, currency, p, v, links), k) == Find(Optional(Get(p.productType, ""), Get(v.sku, ""), links), k)
  {
    RequiredKeys(storeUrl, currency, p, v, links);
    OptionalNotRequired();
    FindAppend(Required(storeUrl, currency, p, v, links), Optional(Get(p.productType, ""), Get(v.sku, ""), links), k);
  }

  // ------------------------------------------------------ field properties

  /** No proper prefix of `" - Default Title"` is also a suffix of it. */
  lemma SuffixBorderless()
    ensures Borderless(DefaultTitleSuffix)
  {
    var p := DefaultTitleSuffix;
    forall k | 0 < k < |p| ensures p[k..] != p[..|p| - k] {
      if k == 2 || k == 10 {
        assert p[k..][1] != p[..|p| - k][1];
      } else {
        assert p[k..][0] != p[..|p| - k][0];
      }
    }
  }

  /** A default variant is titled by the product alone (with the suffix removed from it as well). */
  lemma TitleDefault(p: Product, v: Variant)
    requires Get(v.title, "Default Title") == Some("Default Title")
    ensures Title(p, v) == ReplaceAll(StrOf(Get(p.title, "")), DefaultTitleSuffix, "")
  {
    var t := StrOf(Get(p.title, ""));
    assert t + " - " + "Default Title" == t + DefaultTitleSuffix;
    SuffixBorderless();
    ReplaceAppendBorderless(t, DefaultTitleSuffix);
  }

  /** A title in which the suffix occurs nowhere is `product - variant` as it is. */
  lemma TitleKept(p: Product, v: Variant)
    requires !Contains(StrOf(Get(p.title, "")) + " - " + StrOf(Get(v.title, "Default Title")), DefaultTitleSuffix)
    ensures Title(p, v) == StrOf(Get(p.title, "")) + " - " + StrOf(Get(v.title, "Default Title"))
  {
    ReplaceAbsent(StrOf(Get(p.title, "")) + " - " + StrOf(Get(v.title, "Default Title")), DefaultTitleSuffix, "");
  }

  /**
   * With a store URL normalised from `scheme://host` and any path, the link
   * is the product page on that scheme and host.
   */
  lemma LinkOf(scheme: string, host: string, path: string, p: Product)
    requires scheme == "http" || scheme == "https"
    requires host != [] && forall i :: 0 <= i < |host| ==> !IsAuthorityEnd(host[i])
    requires path == [] || IsAuthorityEnd(path[0])
    ensures Link(ValidateUrl(scheme + "://" + host + path), p) == scheme + "://" + host + ProductPath(GetStr(p.handle, ""), "")
  {
    JoinValidated(scheme, host, path, ProductPath(GetStr(p.handle, ""), ""));
  }

  /** The other image links, in order, are `additional_image_link`, present only when there is more than one. */
  lemma AdditionalField(storeUrl: string, currency: string, p: Product, v: Variant, links: seq<Option<string>>)
    ensures var it := VariantItem(storeUrl, currency, p, v, links);
      Find(it, "additional_image_link") == if |links| > 1 then Some(List(Atoms(links[1..]))) else None
  {
    VariantOptionalLookup(storeUrl, currency, p, v, links, "additional_image_link");
    OptionalLookup(Get(p.productType, ""), Get(v.sku, ""), links);
  }

  /** `gtin` and `mpn` are both the SKU, present exactly when it is non-empty. */
  lemma IdentifierFields(storeUrl: string, currency: string, p: Product, v: Variant, links: seq<Option<string>>)
    ensures var it := VariantItem(storeUrl, currency, p, v, links); var sku := Get(v.sku, "");
      Find(it, "gtin") == Find(it, "mpn") == if Truthy(sku) then Some(Scalar(sku)) else None
  {
    VariantOptionalLookup(storeUrl, currency, p, v, links, "gtin");
    VariantOptionalLookup(storeUrl, currency, p, v, links, "mpn");
    OptionalLookup(Get(p.productType, ""), Get(v.sku, ""), links);
  }

  /** `product_type` is present exactly when the product type is non-empty. */
  lemma TypeField(storeUrl: string, currency: string, p: Product, v: Variant, links: seq<Option<string>>)
    ensures var it := VariantItem(storeUrl, currency, p, v, links); var pt := Get(p.productType, "");
      Find(it, "product_type") == if Truthy(pt) then Some(Scalar(pt)) else None
  {
    VariantOptionalLookup(storeUrl, currency, p, v, links, "product_type");
    OptionalLookup(Get(p.productType, ""), Get(v.sku, ""), links);
  }

  // ------------------------------------------------------------ the writer

  const GNs := "{http://base.google.com/ns/1.0}"

  /** One `g:` element: `id` is written through `str()`, every other field as it is. */
  function GLeaf(name: string, v: Value): Element
  {
    Leaf(GNs + name, if name == "id" then Chars(Show(v)) else TextOf(v))
  }

  /** The required elements in the writer's order; `None` when a key is missing (`variant[key]` raises). */
  function RequiredElements(it: Item, names: seq<string>): (r: Option<seq<Element>>)
    ensures r.Some? <==> forall i :: 0 <= i < |names| ==> names[i] in Keys(it)
    ensures r.Some? ==> |r.value| == |names|
    ensures r.Some? ==> forall i :: 0 <= i < |names| ==> Find(it, names[i]).Some? && r.value[i] == GLeaf(names[i], Find(it, names[i]).value)
  {
    if names == [] then Some([])
    else
      var f := Find(it, names[0]);
      var rest := RequiredElements(it, names[1..]);
      if f.None? || rest.None? then
        assert f.Some? ==> names[0] in Keys(it) && !forall i :: 0 <= i < |names[1..]| ==> names[1..][i] in Keys(it);
        None
      else Some([GLeaf(names[0], f.value)] + rest.value)
  }

  /** `if key in variant:` one element holding the value. */
  function OptionalElement(it: Item, name: string): seq<Element>
  {
    var f := Find(it, name);
    if f.Some? then [Leaf(GNs + name, TextOf(f.value))] else []
  }

  /**
   * `for x in value`: the text of each entry iterated over, `None` when
   * the value is `None` (iterating it raises); a string yields its
   * characters and a dictionary its keys.
   */
  function Iterated(v: Value): Option<seq<Content>>
  {
    match v
    case Scalar(t) =>
      if t.None? then None else Some(seq(|t.value|, i requires 0 <= i < |t.value| => Chars([t.value[i]])))
    case List(atoms) => Some(seq(|atoms|, i requires 0 <= i < |atoms| => EntryContent(atoms[i], RawEntries)))
    case Group(fields) => Some(seq(|fields|, i requires 0 <= i < |fields| => Chars(fields[i].0)))
  }

  function AdditionalElements(it: Item): Option<seq<Element>>
  {
    var f := Find(it, "additional_image_link");
    if f.None? then Some([])
    else
      var cs := Iterated(f.value);
      if cs.None? then None
      else Some(seq(|cs.value|, i requires 0 <= i < |cs.value| => Leaf(GNs + "additional_image_link", cs.value[i])))
  }

  /** The `item` element of one feed item: the ten required fields, `gtin`, `mpn`, `product_type`, then the extra images. */
  function GoogleItem(it: Item): Option<Element>
  {
    var req := RequiredElements(it, RequiredNames);
    var adds := AdditionalElements(it);
    if req.None? || adds.None? then None
    else Some(Element("item", NoText, req.value + (OptionalElement(it, "gtin") + OptionalElement(it, "mpn")
      + OptionalElement(it, "product_type") + adds.value)))
  }

  function Header(shop: ShopInfo): seq<Element>
  {
    [Leaf("title", OfOption(shop.name)), Leaf("link", Chars(shop.url)), Leaf("description", Chars(shop.description))]
  }

  /** `rss` holding one `channel`: the shop header, then one `item` per feed item in order. */
  function Document(shop: ShopInfo, items: seq<Item>): Option<Element>
  {
    if forall i :: 0 <= i < |items| ==> GoogleItem(items[i]).Some? then
      Some(Rss(Header(shop), seq(|items|, i requires 0 <= i < |items| => GoogleItem(items[i]).value)))
    else None
  }

  /** Every item written, in order, gives the document. */
  lemma DocumentOf(shop: ShopInfo, items: seq<Item>, els: seq<Element>)
    requires ItemsWritten(items, els, |items|)
    ensures Document(shop, items) == Some(Rss(Header(shop), els))
  {
    assert els == seq(|items|, i requires 0 <= i < |items| => GoogleItem(items[i]).value);
  }

  /** `els` are the elements the writer built for the first `i` items. */
  ghost predicate ItemsWritten(items: seq<Item>, els: seq<Element>, i: nat)
  {
    i <= |items| && |els| == i && forall j :: 0 <= j < i ==> GoogleItem(items[j]) == Some(els[j])
  }

  lemma WrittenNext(items: seq<Item>, els: seq<Element>, i: nat, x: Element)
    requires ItemsWritten(items, els, i) && i < |items| && GoogleItem(items[i]) == Some(x)
    ensures ItemsWritten(items, els + [x], i + 1)
  {
  }

  /** One item the writer cannot build leaves no document. */
  lemma DocumentFails(shop: ShopInfo, items: seq<Item>, i: nat)
    requires i < |items| && GoogleItem(items[i]).None?
    ensures Document(shop, items).None?
  {
  }

  function Rss(header: seq<Element>, els: seq<Element>): Element
  {
    Element("rss", NoText, [Element("channel", NoText, header + els)])
  }

  lemma RssWritable(header: seq<Element>, els: seq<Element>)
    ensures Writable(Rss(header, els)) <==> AllWritable(header) && AllWritable(els)
  {
    AllWritableAppend(header, els);
    var channel := Element("channel", NoText, header + els);
    assert Rss(header, els).children == [channel];
    assert Writable(Rss(header, els)) <==> Writable(channel) by {
      assert Rss(header, els).children[0] == channel;
    }
    assert Writable(channel) <==> AllWritable(header + els);
  }

  // ------------------------------------------------- the writer on items

  /** The writer's element of each entry of `a`. */
  function Leaves(a: Item): seq<Element>
  {
    seq(|a|, i requires 0 <= i < |a| => GLeaf(a[i].0, a[i].1))
  }

  /** Elements named `g:` + each of `names`, in order. */
  predicate Tagged(es: seq<Element>, names: seq<string>)
  {
    |es| == |names| && forall i :: 0 <= i < |es| ==> es[i].tag == GNs + names[i]
  }

  lemma TaggedAppend(a: seq<Element>, x: seq<string>, b: seq<Element>, y: seq<string>)
    requires Tagged(a, x) && Tagged(b, y)
    ensures Tagged(a + b, x + y)
  {
    forall i | |a| <= i < |a + b| ensures (a + b)[i].tag == GNs + (x + y)[i] {
      assert (a + b)[i] == b[i - |a|] && (x + y)[i] == y[i - |a|];
    }
  }

  /** The required elements of an item whose keys `names` hold the values of `a`. */
  lemma RequiredElementsOf(it: Item, a: Item, names: seq<string>)
    requires |a| == |names|
    requires forall i :: 0 <= i < |a| ==> a[i].0 == names[i] && Find(it, names[i]) == Some(a[i].1)
    ensures RequiredElements(it, names) == Some(Leaves(a))
  {
    forall i | 0 <= i < |names| ensures names[i] in Keys(it) {
      assert Find(it, names[i]).Some?;
    }
    var r := RequiredElements(it, names);
    assert |r.value| == |Leaves(a)|;
    forall i | 0 <= i < |a| ensures r.value[i] == Leaves(a)[i] {
      assert Find(it, names[i]) == Some(a[i].1);
    }
    assert r.value == Leaves(a);
  }

  /** The ten required elements of a variant's item are the leaves of the literal's entries. */
  lemma RequiredOfVariant(storeUrl: string, currency: string, p: Product, v: Variant, links: seq<Option<string>>)
    ensures RequiredElements(VariantItem(storeUrl, currency, p, v, links), RequiredNames)
      == Some(Leaves(Required(storeUrl, currency, p, v, links)))
  {
    var it := VariantItem(storeUrl, currency, p, v, links);
    var a := Required(storeUrl, currency, p, v, links);
    RequiredKeys(storeUrl, currency, p, v, links);
    assert forall i :: 0 <= i < |a| ==> a[i].0 == Keys(a)[i];
    forall i | 0 <= i < |RequiredNames|
      ensures Find(it, RequiredNames[i]) == Some(a[i].1)
    {
      VariantLookup(storeUrl, currency, p, v, links, i);
    }
    RequiredElementsOf(it, a, RequiredNames);
  }

  /** Of the literal's fields only the category can hold an object. */
  lemma LiteralWritable(id: string, title: string, description: string, link: string, image: Option<string>,
                        availability: string, price: string, brand: Option<string>, category: Value)
    ensures var es := Leaves(Literal(id, title, description, link, image, availability, price, brand, category));
      Tagged(es, RequiredNames) && (AllWritable(es) <==> Writable(GLeaf("google_product_category", category)))
  {
    var a := Literal(id, title, description, link, image, availability, price, brand, category);
    var es := Leaves(a);
    assert forall i :: 0 <= i < 9 ==> a[i].1.Scalar?;
    assert es[9] == GLeaf("google_product_category", category);
  }

  /** The category element is an object, which cannot be written, exactly when the product has tags. */
  lemma CategoryWritable(p: Product)
    ensures Writable(GLeaf("google_product_category", Category(p))) <==> !FieldNonEmpty(p.tags)
  {
  }

  /** Of the required fields only the category can hold an object: the tag list. */
  lemma RequiredWritable(storeUrl: string, currency: string, p: Product, v: Variant, links: seq<Option<string>>)
    ensures var es := Leaves(Required(storeUrl, currency, p, v, links));
      Tagged(es, RequiredNames) && (AllWritable(es) <==> !FieldNonEmpty(p.tags))
  {
    LiteralWritable(IdText(v.id), Title(p, v), Description(p), Link(storeUrl, p), ImageLink(links), Availability(v),
                    FormatPrice(Get(v.price, "0.0"), currency), Get(p.vendor, ""), Category(p));
    CategoryWritable(p);
  }

  /** The elements the writer adds after the required ten, by name. */
  function WrittenOptionalNames(pt: Option<string>, sku: Option<string>, links: seq<Option<string>>): seq<string>
  {
    (if Truthy(sku) then ["gtin", "mpn"] else [])
    + (if Truthy(pt) then ["product_type"] else [])
    + seq(if |links| > 1 then |links| - 1 else 0, _ => "additional_image_link")
  }

  /** The extra images, one element per link after the first. */
  lemma AdditionalOf(it: Item, links: seq<Option<string>>)
    requires Find(it, "additional_image_link") == if |links| > 1 then Some(List(Atoms(links[1..]))) else None
    ensures var adds := AdditionalElements(it);
      adds.Some? && AllWritable(adds.value)
      && Tagged(adds.value, seq(if |links| > 1 then |links| - 1 else 0, _ => "additional_image_link"))
  {
    var adds := AdditionalElements(it);
    if |links| > 1 {
      assert forall i :: 0 <= i < |links| - 1 ==> adds.value[i] == Leaf(GNs + "additional_image_link", OfOption(links[i + 1]));
    }
  }

  /** The elements after the required ten are strings: the SKU twice, the product type, the other image links. */
  lemma OptionalWritable(it: Item, pt: Option<string>, sku: Option<string>, links: seq<Option<string>>)
    requires Find(it, "gtin") == Find(it, "mpn") == if Truthy(sku) then Some(Scalar(sku)) else None
    requires Find(it, "product_type") == if Truthy(pt) then Some(Scalar(pt)) else None
    requires Find(it, "additional_image_link") == if |links| > 1 then Some(List(Atoms(links[1..]))) else None
    ensures AdditionalElements(it).Some?
    ensures AllWritable(OptionalElement(it, "gtin") + OptionalElement(it, "mpn") + OptionalElement(it, "product_type")
      + AdditionalElements(it).value)
  {
    var g, m, t := OptionalElement(it, "gtin"), OptionalElement(it, "mpn"), OptionalElement(it, "product_type");
    AdditionalOf(it, links);
    AllWritableAppend(g, m);
    AllWritableAppend(g + m, t);
    AllWritableAppend(g + m + t, AdditionalElements(it).value);
  }

  /** ... and they are named in the writer's order: `gtin`, `mpn`, `product_type`, then the images. */
  lemma OptionalTagged(it: Item, pt: Option<string>, sku: Option<string>, links: seq<Option<string>>)
    requires Find(it, "gtin") == Find(it, "mpn") == if Truthy(sku) then Some(Scalar(sku)) else None
    requires Find(it, "product_type") == if Truthy(pt) then Some(Scalar(pt)) else None
    requires Find(it, "additional_image_link") == if |links| > 1 then Some(List(Atoms(links[1..]))) else None
    ensures AdditionalElements(it).Some?
    ensures Tagged(OptionalElement(it, "gtin") + OptionalElement(it, "mpn") + OptionalElement(it, "product_type")
      + AdditionalElements(it).value, WrittenOptionalNames(pt, sku, links))
  {
    var g, m, t := OptionalElement(it, "gtin"), OptionalElement(it, "mpn"), OptionalElement(it, "product_type");
    AdditionalOf(it, links);
    var ids := if Truthy(sku) then ["gtin", "mpn"] else [];
    var pts := if Truthy(pt) then ["product_type"] else [];
    var adds := seq(if |links| > 1 then |links| - 1 else 0, _ => "additional_image_link");
    OptionalTaggedIf(it, "gtin", Truthy(sku), sku);
    OptionalTaggedIf(it, "mpn", Truthy(sku), sku);
    OptionalTaggedIf(it, "product_type", Truthy(pt), pt);
    IdsNames(Truthy(sku), ids);
    TaggedAppend(g, if Truthy(sku) then ["gtin"] else [], m, if Truthy(sku) then ["mpn"] else []);
    TaggedAppend(g + m, ids, t, pts);
    TaggedAppend(g + m + t, ids + pts, AdditionalElements(it).value, adds);
  }

  /** One optional element: present and named `name` exactly when the value is truthy. */
  lemma OptionalTaggedIf(it: Item, name: string, present: bool, x: Option<string>)
    requires Find(it, name) == if present then Some(Scalar(x)) else None
    ensures Tagged(OptionalElement(it, name), if present then [name] else [])
  {
  }

  lemma IdsNames(present: bool, ids: seq<string>)
    requires ids == if present then ["gtin", "mpn"] else []
    ensures ids == (if present then ["gtin"] else []) + (if present then ["mpn"] else [])
  {
  }

  /** The writer on any item whose optional keys hold strings as a variant's do. */
  lemma GoogleItemOf(it: Item, req: seq<Element>, pt: Option<string>, sku: Option<string>, links: seq<Option<string>>)
    requires RequiredElements(it, RequiredNames) == Some(req) && Tagged(req, RequiredNames)
    requires Find(it, "gtin") == Find(it, "mpn") == if Truthy(sku) then Some(Scalar(sku)) else None
    requires Find(it, "product_type") == if Truthy(pt) then Some(Scalar(pt)) else None
    requires Find(it, "additional_image_link") == if |links| > 1 then Some(List(Atoms(links[1..]))) else None
    ensures var e := GoogleItem(it);
      e.Some? && Tagged(e.value.children, RequiredNames + WrittenOptionalNames(pt, sku, links))
      && (Writable(e.value) <==> AllWritable(req))
  {
    OptionalWritable(it, pt, sku, links);
    OptionalTagged(it, pt, sku, links);
    var rest := OptionalElement(it, "gtin") + OptionalElement(it, "mpn") + OptionalElement(it, "product_type")
      + AdditionalElements(it).value;
    assert GoogleItem(it) == Some(Element("item", NoText, req + rest));
    ItemOfParts(req, rest, WrittenOptionalNames(pt, sku, links));
  }

  /** An `item` whose optional part is written and named: the names add up, and only the required part can fail to serialise. */
  lemma ItemOfParts(req: seq<Element>, rest: seq<Element>, names: seq<string>)
    requires Tagged(req, RequiredNames) && Tagged(rest, names) && AllWritable(rest)
    ensures Tagged(req + rest, RequiredNames + names)
    ensures Writable(Element("item", NoText, req + rest)) <==> AllWritable(req)
  {
    AllWritableAppend(req, rest);
    TaggedAppend(req, RequiredNames, rest, names);
  }

  /**
   * The writer on a variant's item: it never raises on a missing key, it
   * writes the ten required elements, `gtin` and `mpn`, `product_type`
   * and one element per extra image in that order, and the element can be
   * serialised exactly when the product has no tags.
   */
  lemma GoogleItemOfVariant(storeUrl: string, currency: string, p: Product, v: Variant, links: seq<Option<string>>)
    ensures var e := GoogleItem(VariantItem(storeUrl, currency, p, v, links));
      e.Some? && Tagged(e.value.children, RequiredNames + WrittenOptionalNames(Get(p.productType, ""), Get(v.sku, ""), links))
      && (Writable(e.value) <==> !FieldNonEmpty(p.tags))
  {
    var it := VariantItem(storeUrl, currency, p, v, links);
    RequiredOfVariant(storeUrl, currency, p, v, links);
    RequiredWritable(storeUrl, currency, p, v, links);
    IdentifierFields(storeUrl, currency, p, v, links);
    TypeField(storeUrl, currency, p, v, links);
    AdditionalField(storeUrl, currency, p, v, links);
    GoogleItemOf(it, Leaves(Required(storeUrl, currency, p, v, links)), Get(p.productType, ""), Get(v.sku, ""), links);
  }

  // --------------------------------------------------- generation as a whole

  /**
   * The products of one collection in order: each one's items, until a
   * product raises, which ends the collection (the items already made
   * are kept).
   */
  function ProductsItems(storeUrl: string, currency: string, ps: seq<Product>): seq<Item>
  {
    if ps == [] then []
    else
      var r := ProductItems(storeUrl, currency, ps[0]);
      if r.None? then [] else r.value + ProductsItems(storeUrl, currency, ps[1..])
  }

  /**
   * The items of the collections in order, each collection's products being
   * what the client yields for its handle. A collection without a `title`
   * is skipped; one without a `handle` raises out of the error handler
   * itself, and so ends generation (`None`).
   */
  function CollectionsItems(storeUrl: string, currency: string, cs: seq<Collection>, productsOf: Option<string> -> seq<Product>)
    : Option<seq<Item>>
  {
    if cs == [] then Some([])
    else
      var n := |cs| - 1;
      var before := CollectionsItems(storeUrl, currency, cs[..n], productsOf);
      var c := cs[n];
      if before.None? || c.handle.Missing? then None
      else if c.title.Missing? then before
      else Some(before.value + ProductsItems(storeUrl, currency, productsOf(Lookup(c.handle))))
  }

  /** `shop_info` or the fallback header when the client found none. */
  function ShopOrDefault(shop: Option<ShopInfo>, storeUrl: string): ShopInfo
  {
    if shop.Some? then shop.value else ShopInfo(Some("E-shop"), "", storeUrl)
  }

  /**
   * `generate`: the written document, or `None` when it raises (listing the
   * collections failed, a collection had no handle, a field could not be
   * written).
   */
  function GoogleFeed(storeUrl: string, currency: string, collections: Option<seq<Collection>>,
                      productsOf: Option<string> -> seq<Product>, shop: Option<ShopInfo>): Option<Element>
  {
    if collections.None? then None
    else
      var items := CollectionsItems(storeUrl, currency, collections.value, productsOf);
      if items.None? then None
      else Written(Document(ShopOrDefault(shop, storeUrl), items.value))
  }

  /** An item the writer turns into a serialisable element. */
  predicate Good(it: Item)
  {
    GoogleItem(it).Some? && Writable(GoogleItem(it).value)
  }

  predicate AllGood(items: seq<Item>)
  {
    forall i :: 0 <= i < |items| ==> Good(items[i])
  }

  lemma AllGoodAppend(a: seq<Item>, b: seq<Item>)
    requires AllGood(a) && AllGood(b)
    ensures AllGood(a + b)
  {
    assert forall k :: |a| <= k < |a + b| ==> (a + b)[k] == b[k - |a|];
  }

  /** The document can be written exactly when each of its items can. */
  lemma DocumentWritten(shop: ShopInfo, items: seq<Item>)
    ensures Written(Document(shop, items)).Some? <==> AllGood(items)
  {
    if forall i :: 0 <= i < |items| ==> GoogleItem(items[i]).Some? {
      var els := seq(|items|, i requires 0 <= i < |items| => GoogleItem(items[i]).value);
      RssWritable(Header(shop), els);
      assert AllWritable(Header(shop));
      assert forall i :: 0 <= i < |items| ==> (Good(items[i]) <==> Writable(els[i]));
    }
  }

  /** A product without tags gives items the writer can serialise. */
  lemma UntaggedProductGood(storeUrl: string, currency: string, p: Product)
    requires !FieldNonEmpty(p.tags) && ProductItems(storeUrl, currency, p).Some?
    ensures AllGood(ProductItems(storeUrl, currency, p).value)
  {
    var links := ImageLinks(p).value;
    var vs := if p.variants.Val? then p.variants.value else [];
    forall k | 0 <= k < |vs| ensures Good(Map(Builder(storeUrl, currency, p, links), vs)[k]) {
      MapAt(Builder(storeUrl, currency, p, links), vs, k);
      GoogleItemOfVariant(storeUrl, currency, p, vs[k], links);
    }
  }

  /** Any variant of a product with tags makes the whole document fail to write. */
  lemma TaggedVariantFails(shop: ShopInfo, items: seq<Item>, i: nat,
                           storeUrl: string, currency: string, p: Product, v: Variant, links: seq<Option<string>>)
    requires i < |items| && items[i] == VariantItem(storeUrl, currency, p, v, links) && FieldNonEmpty(p.tags)
    ensures Written(Document(shop, items)).None?
  {
    GoogleItemOfVariant(storeUrl, currency, p, v, links);
    DocumentWritten(shop, items);
  }

  lemma {:induction false} UntaggedProductsGood(storeUrl: string, currency: string, ps: seq<Product>)
    requires forall j :: 0 <= j < |ps| ==> !FieldNonEmpty(ps[j].tags)
    ensures AllGood(ProductsItems(storeUrl, currency, ps))
  {
    if ps != [] && ProductItems(storeUrl, currency, ps[0]).Some? {
      UntaggedProductGood(storeUrl, currency, ps[0]);
      UntaggedProductsGood(storeUrl, currency, ps[1..]);
      AllGoodAppend(ProductItems(storeUrl, currency, ps[0]).value, ProductsItems(storeUrl, currency, ps[1..]));
    }
  }

  lemma {:induction false} UntaggedCollectionsGood(storeUrl: string, currency: string, cs: seq<Collection>,
                                                   productsOf: Option<string> -> seq<Product>)
    requires forall j, h :: 0 <= j < |productsOf(h)| ==> !FieldNonEmpty(productsOf(h)[j].tags)
    requires CollectionsItems(storeUrl, currency, cs, productsOf).Some?
    ensures AllGood(CollectionsItems(storeUrl, currency, cs, productsOf).value)
  {
    if cs != [] {
      var n := |cs| - 1;
      UntaggedCollectionsGood(storeUrl, currency, cs[..n], productsOf);
      if !cs[n].title.Missing? {
        var a := CollectionsItems(storeUrl, currency, cs[..n], productsOf).value;
        var b := ProductsItems(storeUrl, currency, productsOf(Lookup(cs[n].handle)));
        UntaggedProductsGood(storeUrl, currency, productsOf(Lookup(cs[n].handle)));
        AllGoodAppend(a, b);
      }
    }
  }

  /**
   * A store whose products carry no tags gets its feed written whenever the
   * collections were listed and each has a handle.
   */
  lemma UntaggedStoreWritten(storeUrl: string, currency: string, collections: Option<seq<Collection>>,
                             productsOf: Option<string> -> seq<Product>, shop: Option<ShopInfo>)
    requires collections.Some? && CollectionsItems(storeUrl, currency, collections.value, productsOf).Some?
    requires forall j, h :: 0 <= j < |productsOf(h)| ==> !FieldNonEmpty(productsOf(h)[j].tags)
    ensures GoogleFeed(storeUrl, currency, collections, productsOf, shop).Some?
  {
    UntaggedCollectionsGood(storeUrl, currency, collections.value, productsOf);
    DocumentWritten(ShopOrDefault(shop, storeUrl), CollectionsItems(storeUrl, currency, collections.value, productsOf).value);
  }

  /** Once a collection raises, generation has ended: no later collection undoes it. */
  lemma {:induction false} CollectionsStop(storeUrl: string, currency: string, cs: seq<Collection>,
                                           productsOf: Option<string> -> seq<Product>, j: nat)
    requires j <= |cs| && CollectionsItems(storeUrl, currency, cs[..j], productsOf).None?
    ensures CollectionsItems(storeUrl, currency, cs, productsOf).None?
    decreases |cs| - j
  {
    if j < |cs| {
      assert cs[..j + 1][..j] == cs[..j];
      CollectionsStop(storeUrl, currency, cs, productsOf, j + 1);
    } else {
      assert cs[..j] == cs;
    }
  }

  /** One more collection: it ends generation without a `handle`, adds nothing without a `title`, else its products' items. */
  lemma CollectionsNext(storeUrl: string, currency: string, cs: seq<Collection>,
                        productsOf: Option<string> -> seq<Product>, i: nat, all: seq<Item>)
    requires i < |cs| && CollectionsItems(storeUrl, currency, cs[..i], productsOf) == Some(all)
    ensures cs[i].handle.Missing? ==> CollectionsItems(storeUrl, currency, cs[..i + 1], productsOf).None?
    ensures !cs[i].handle.Missing? && cs[i].title.Missing? ==>
              CollectionsItems(storeUrl, currency, cs[..i + 1], productsOf) == Some(all)
    ensures !cs[i].handle.Missing? && !cs[i].title.Missing? ==>
              CollectionsItems(storeUrl, currency, cs[..i + 1], productsOf)
              == Some(all + ProductsItems(storeUrl, currency, productsOf(Lookup(cs[i].handle))))
  {
    assert cs[..i + 1][..i] == cs[..i];
    assert cs[..i + 1][i] == cs[i];
  }

  // ---------------------------------------------------------- the generator

  lemma AppendAssoc(a: Item, b: Item, c: Item, d: Item)
    ensures a + b + c + d == a + (b + c + d)
  {
  }

  /** None of the optional keys is present when it is assigned. */
  lemma LaterKeysFree(a: Item, pt: Option<string>, sku: Option<string>)
    requires Keys(a) == RequiredNames
    ensures "product_type" !in Keys(a)
    ensures "gtin" !in Keys(a + TypeEntry(pt)) && "mpn" !in Keys(a + TypeEntry(pt))
    ensures "additional_image_link" !in Keys(a + TypeEntry(pt) + IdEntries(sku))
  {
    OptionalNotRequired();
    KeyAfter(a, TypeEntry(pt), ["product_type"], "gtin");
    KeyAfter(a, TypeEntry(pt), ["product_type"], "mpn");
    KeyAfter(a, TypeEntry(pt), ["product_type"], "additional_image_link");
    KeyAfter(a + TypeEntry(pt), IdEntries(sku), ["gtin", "mpn"], "additional_image_link");
  }

  /** `variant_data["product_type"] = product_type` when non-empty appends the entry. */
  lemma TypeAssigned(a: Item, pt: Option<string>)
    requires "product_type" !in Keys(a)
    ensures (if Truthy(pt) then Put(a, "product_type", Scalar(pt)) else a) == a + TypeEntry(pt)
  {
    if Truthy(pt) {
      PutNew(a, "product_type", Scalar(pt));
    }
  }

  /** `gtin` and then `mpn` set to a non-empty SKU append two entries. */
  lemma IdsAssigned(a: Item, sku: Option<string>)
    requires "gtin" !in Keys(a) && "mpn" !in Keys(a)
    ensures (if Truthy(sku) then Put(Put(a, "gtin", Scalar(sku)), "mpn", Scalar(sku)) else a) == a + IdEntries(sku)
  {
    if Truthy(sku) {
      var g, m := ("gtin", Scalar(sku)), ("mpn", Scalar(sku));
      PutNew(a, "gtin", Scalar(sku));
      KeysAppend(a, [g]);
      assert Keys([g]) == ["gtin"];
      PutNew(a + [g], "mpn", Scalar(sku));
      assert IdEntries(sku) == [g, m];
      SnocTwo(a, g, m);
    }
  }

  lemma SnocTwo<T>(a: seq<T>, x: T, y: T)
    ensures a + [x] + [y] == a + [x, y]
  {
  }

  /** `additional_image_link` set when there is more than one image appends one entry. */
  lemma ImagesAssigned(a: Item, links: seq<Option<string>>)
    requires "additional_image_link" !in Keys(a)
    ensures (if |links| > 1 then Put(a, "additional_image_link", List(Atoms(links[1..]))) else a) == a + ImageEntry(links)
  {
    if |links| > 1 {
      PutNew(a, "additional_image_link", List(Atoms(links[1..])));
    }
  }

  /**
   * The assignments after the literal (google.py:111-121): `product_type`,
   * then `gtin` and `mpn`, then `additional_image_link`, each only when
   * its value is non-empty; none of them is a literal key, so each is
   * appended.
   */
  method AssignOptional(a: Item, pt: Option<string>, sku: Option<string>, links: seq<Option<string>>)
    returns (it: Item)
    requires Keys(a) == RequiredNames
    ensures it == a + Optional(pt, sku, links)
  {
    LaterKeysFree(a, pt, sku);
    it := a;
    if Truthy(pt) {
      it := Put(it, "product_type", Scalar(pt));
    }
    TypeAssigned(a, pt);
    ghost var b := it;
    if Truthy(sku) {
      it := Put(it, "gtin", Scalar(sku));
      it := Put(it, "mpn", Scalar(sku));
    }
    IdsAssigned(b, sku);
    ghost var c := it;
    if |links| > 1 {
      it := Put(it, "additional_image_link", List(Atoms(links[1..])));
    }
    ImagesAssigned(c, links);
    AppendAssoc(a, TypeEntry(pt), IdEntries(sku), ImageEntry(links));
  }

  class GoogleFeedGenerator {
    const storeUrl: string
    const currency: string

    /** `GoogleFeedGenerator(store_url, currency)`: the store URL is normalised once, here. */
    constructor(storeUrlArg: string, currencyArg: string)
      ensures storeUrl == ValidateUrl(storeUrlArg) && currency == currencyArg
    {
      storeUrl := ValidateUrl(storeUrlArg);
      currency := currencyArg;
    }

    /** The `variant_data` literal, then the optional assignments in order. */
    method BuildVariant(p: Product, v: Variant, links: seq<Option<string>>) returns (it: Item)
      ensures it == VariantItem(storeUrl, currency, p, v, links)
    {
      it := Required(storeUrl, currency, p, v, links);
      RequiredKeys(storeUrl, currency, p, v, links);
      OptionalNotRequired();
      it := AssignOptional(it, Get(p.productType, ""), Get(v.sku, ""), links);
    }

    /** `_process_product`: the image links, then one item per variant, in order. */
    method ProcessProduct(p: Product) returns (r: Option<seq<Item>>)
      ensures r == ProductItems(storeUrl, currency, p)
    {
      var links := ImageLinks(p);
      if links.None? || p.variants.Null? {
        return None;
      }
      var vs := if p.variants.Val? then p.variants.value else [];
      var items: seq<Item> := [];
      var k := 0;
      while k < |vs|
        invariant 0 <= k <= |vs|
        invariant items == Map(Builder(storeUrl, currency, p, links.value), vs[..k])
      {
        var it := BuildVariant(p, vs[k], links.value);
        MapSnoc(Builder(storeUrl, currency, p, links.value), vs, k);
        items := items + [it];
        k := k + 1;
      }
      assert vs[..k] == vs;
      return Some(items);
    }

    /**
     * One `item` element (google.py:202-226): the required and optional
     * fields, then one element per entry of `additional_image_link`.
     */
    method WriteItem(it: Item) returns (e: Option<Element>)
      ensures e == GoogleItem(it)
    {
      var req := RequiredElements(it, RequiredNames);
      if req.None? {
        return None;
      }
      var fixed := OptionalElement(it, "gtin") + OptionalElement(it, "mpn") + OptionalElement(it, "product_type");
      var adds: seq<Element> := [];
      var f := Find(it, "additional_image_link");
      if f.Some? {
        var cs := Iterated(f.value);
        if cs.None? {
          return None;
        }
        var k := 0;
        while k < |cs.value|
          invariant 0 <= k <= |cs.value|
          invariant adds == seq(k, i requires 0 <= i < k => Leaf(GNs + "additional_image_link", cs.value[i]))
        {
          adds := adds + [Leaf(GNs + "additional_image_link", cs.value[k])];
          k := k + 1;
        }
      }
      e := Some(Element("item", NoText, req.value + (fixed + adds)));
    }

    /** The `rss` document: the channel header, then the loop writing each item in order. */
    method WriteDocument(shop: ShopInfo, items: seq<Item>) returns (doc: Option<Element>)
      ensures doc == Document(shop, items)
    {
      var els: seq<Element> := [];
      var i := 0;
      while i < |items|
        invariant i <= |items| && ItemsWritten(items, els, i)
      {
        var e := WriteItem(items[i]);
        if e.None? {
          DocumentFails(shop, items, i);
          return None;
        }
        WrittenNext(items, els, i, e.value);
        els := els + [e.value];
        i := i + 1;
      }
      DocumentOf(shop, items, els);
      doc := Some(Rss(Header(shop), els));
    }

    /**
     * `generate` from its first line (google.py:138-143): `list(get_collections())`
     * either raises, which fails the whole generation, or gives the listed
     * collections the loop then walks.
     */
    method GenerateListed(client: Client.ShopifyClient, net: Client.Network<Response>, ghost last: nat,
                          productsOf: Option<string> -> seq<Product>, shop: Option<ShopInfo>)
      returns (doc: Option<Element>, requested: seq<string>)
      requires 1 <= last && client.ItemsAt(net, Client.Collections, Client.CollectionsKey)(last) == []
      ensures |requested| >= 1
      ensures !Client.AllNamed(Client.Pages(client.ItemsAt(net, Client.Collections, Client.CollectionsKey), 1, |requested| + 1))
              ==> doc.None?
      ensures Client.AllNamed(Client.Pages(client.ItemsAt(net, Client.Collections, Client.CollectionsKey), 1, |requested| + 1))
              ==> doc == GoogleFeed(storeUrl, currency, Some(Client.Pages(client.ItemsAt(net, Client.Collections, Client.CollectionsKey), 1, |requested|)),
                                    productsOf, shop)
    {
      var listed;
      listed, requested := client.GetCollections(net, last);
      doc := Generate(listed, productsOf, shop);
    }

    /**
     * `generate` (google.py:138-235) on what the client returns: each
     * collection's products in turn, each product's items appended, then the
     * document written. `collections` is what `GetCollections` returns, `None` when it raised;
     * `productsOf(handle)` is what the client yields for a handle; `shop` is
     * `None` when no shop information was found.
     */
    method Generate(collections: Option<seq<Collection>>, productsOf: Option<string> -> seq<Product>,
                    shop: Option<ShopInfo>)
      returns (doc: Option<Element>)
      ensures doc == GoogleFeed(storeUrl, currency, collections, productsOf, shop)
    {
      if collections.None? {
        return None;
      }
      var cs := collections.value;
      var all: seq<Item> := [];
      var i := 0;
      while i < |cs|
        invariant 0 <= i <= |cs|
        invariant CollectionsItems(storeUrl, currency, cs[..i], productsOf) == Some(all)
      {
        CollectionsNext(storeUrl, currency, cs, productsOf, i, all);
        if cs[i].handle.Missing? {
          CollectionsStop(storeUrl, currency, cs, productsOf, i + 1);
          return None;
        }
        if !cs[i].title.Missing? {
          var fromCollection := CollectionItems(productsOf(Lookup(cs[i].handle)));
          all := all + fromCollection;
        }
        i := i + 1;
      }
      assert cs[..i] == cs;
      var raw := WriteDocument(ShopOrDefault(shop, storeUrl), all);
      doc := Written(raw);
    }

    /** The products of one collection: each one's items, until `_process_product` raises. */
    method CollectionItems(ps: seq<Product>) returns (items: seq<Item>)
      ensures items == ProductsItems(storeUrl, currency, ps)
    {
      items := [];
      var k := 0;
      while k < |ps|
        invariant 0 <= k <= |ps|
        invariant ProductsItems(storeUrl, currency, ps) == items + ProductsItems(storeUrl, currency, ps[k..])
      {
        var r := ProcessProduct(ps[k]);
        assert ps[k..][1..] == ps[k + 1..];
        if r.None? {
          return;
        }
        items := items + r.value;
        k := k + 1;
      }
    }
  }
}
