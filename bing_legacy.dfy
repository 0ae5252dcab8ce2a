/**
 * The stand-alone Bing script (`bing_feed.py`): its own text cleaner (tags,
 * entities, punctuation spacing and a character filter), a URL check that
 * keeps trailing slashes, a retry loop whose last failure raises, page
 * loops on `/products.json?limit=250&page=n`, and the same `Product` items
 * as the package generator except for the description.
 */
module BingLegacy {
  import opened Values
  import opened Text
  import opened Numbers
  import opened Tags
  import opened Urls
  import opened Catalog
  import opened FeedItems
  import opened Xml
  import Client
  import Base
  import Bing
  import Google

  const MaxRetries := 3
  const RetryDelay := 5
  const UserAgent := "Mozilla/5.0 (Windows NT 10.0; Win64; x64) AppleWebKit/537.36 "
    + "(KHTML, like Gecko) Chrome/91.0.4472.124 Safari/537.36"

  // ------------------------------------------------------------ the cleaner

  predicate IsPunct(c: char)
  {
    c == '.' || c == ',' || c == '!' || c == '?'
  }

  predicate NotSpace(c: char)
  {
    !IsSpace(c)
  }

  /** The characters `[^\w\s.,!?-]` does not remove. */
  predicate Allowed(c: char)
  {
    IsWordChar(c) || IsSpace(c) || IsPunct(c) || c == '-'
  }

  /** Every whitespace character of `s` is a plain space. */
  predicate PlainSpaces(s: string)
  {
    forall x :: x in s && IsSpace(x) ==> x == ' '
  }

  /**
   * `re.sub(r'(A)(B)', r'\1 \2', s)` for one-character classes `A` and `B`:
   * scanning left to right, each pair that matches gets a space between its
   * two characters and the scan resumes after the pair.
   */
  function Separate(s: string, a: char -> bool, b: char -> bool): string
    decreases |s|
  {
    if |s| < 2 then s
    else if a(s[0]) && b(s[1]) then [s[0], ' ', s[1]] + Separate(s[2..], a, b)
    else [s[0]] + Separate(s[1..], a, b)
  }

  /** Separating only inserts spaces: the other characters are those of `s`, in order. */
  lemma SeparateVisible(s: string, a: char -> bool, b: char -> bool)
    ensures Visible(Separate(s, a, b)) == Visible(s)
    ensures |Separate(s, a, b)| >= |s|
    ensures forall x :: x in Separate(s, a, b) ==> x in s || x == ' '
  {
    SeparateKeepsVisible(s, a, b);
    SeparateLength(s, a, b);
    SeparateChars(s, a, b);
  }

  lemma {:induction false} SeparateKeepsVisible(s: string, a: char -> bool, b: char -> bool)
    ensures Visible(Separate(s, a, b)) == Visible(s)
    decreases |s|
  {
    if |s| >= 2 {
      if a(s[0]) && b(s[1]) {
        var t := Separate(s[2..], a, b);
        SeparateKeepsVisible(s[2..], a, b);
        assert Separate(s, a, b) == [s[0], ' ', s[1]] + t;
        VisibleAppend([s[0], ' ', s[1]], t);
        SpacedPair(s[0], s[1]);
        VisibleAppend([s[0], s[1]], s[2..]);
        PairTail(s);
      } else {
        SeparateKeepsVisible(s[1..], a, b);
        assert Separate(s, a, b) == [s[0]] + Separate(s[1..], a, b);
        VisibleAppend([s[0]], Separate(s[1..], a, b));
        VisibleAppend([s[0]], s[1..]);
        HeadTail(s);
      }
    }
  }

  /** A space between two characters is not visible. */
  lemma SpacedPair(x: char, y: char)
    ensures Visible([x, ' ', y]) == Visible([x, y])
  {
    assert [x, ' ', y][1..] == [' ', y] && [' ', y][1..] == [y] && [x, y][1..] == [y];
  }

  lemma PairTail(s: string)
    requires |s| >= 2
    ensures [s[0], s[1]] + s[2..] == s
  {
  }

  lemma {:induction false} SeparateLength(s: string, a: char -> bool, b: char -> bool)
    ensures |Separate(s, a, b)| >= |s|
    decreases |s|
  {
    if |s| >= 2 {
      if a(s[0]) && b(s[1]) {
        SeparateLength(s[2..], a, b);
      } else {
        SeparateLength(s[1..], a, b);
      }
    }
  }

  lemma {:induction false} SeparateChars(s: string, a: char -> bool, b: char -> bool)
    ensures forall x :: x in Separate(s, a, b) ==> x in s || x == ' '
    decreases |s|
  {
    if |s| >= 2 {
      if a(s[0]) && b(s[1]) {
        var t := Separate(s[2..], a, b);
        SeparateChars(s[2..], a, b);
        forall x | x in Separate(s, a, b) ensures x in s || x == ' ' {
          if x in t && x != ' ' { assert x in s[2..]; }
        }
      } else {
        SeparateChars(s[1..], a, b);
        forall x | x in Separate(s, a, b) ensures x in s || x == ' ' {
          if x in Separate(s[1..], a, b) && x != ' ' { assert x in s[1..]; }
        }
      }
    }
  }

  /** A string with no matching pair is left as it is. */
  lemma {:induction false} SeparateNoOp(s: string, a: char -> bool, b: char -> bool)
    requires forall i :: 0 <= i < |s| - 1 ==> !(a(s[i]) && b(s[i + 1]))
    ensures Separate(s, a, b) == s
    decreases |s|
  {
    if |s| >= 2 {
      assert !(a(s[0]) && b(s[1]));
      var t := s[1..];
      forall i | 0 <= i < |t| - 1 ensures !(a(t[i]) && b(t[i + 1])) {
        assert t[i] == s[i + 1] && t[i + 1] == s[i + 2];
      }
      SeparateNoOp(s[1..], a, b);
    }
  }

  /** `re.sub(r'[^\w\s.,!?-]', '', s)`: the allowed characters, in order. */
  function KeepAllowed(s: string): (r: string)
    ensures |r| <= |s|
    ensures forall x :: x in r ==> Allowed(x) && x in s
    ensures (forall x :: x in s ==> Allowed(x)) ==> r == s
  {
    if s == [] then []
    else
      var rest := KeepAllowed(s[1..]);
      assert forall x :: x in s[1..] ==> x in s;
      if Allowed(s[0]) then [s[0]] + rest else rest
  }

  /**
   * The chain of `remove_html_tags` (bing_feed.py:34-47) on a non-empty
   * text: tags, whitespace runs, entities, a space after punctuation and
   * between a lower- and an upper-case letter, the filter, the strip. What
   * is left holds only allowed characters, its only whitespace is the
   * plain space, and it has none at either end.
   */
  function Cleaned(t: string): (r: string)
    ensures forall x :: x in r ==> Allowed(x)
    ensures PlainSpaces(r)
    ensures r == [] || (!IsSpace(r[0]) && !IsSpace(r[|r| - 1]))
  {
    var a := StripDelimited(t, '<', '>');
    var b := Collapse(a);
    var c := StripDelimited(b, '&', ';');
    var d := Separate(c, IsPunct, NotSpace);
    var e := Separate(d, IsAsciiLower, IsAsciiUpper);
    var f := KeepAllowed(e);
    CollapseSpec(a);
    assert PlainSpaces(b) by {
      forall x | x in b && IsSpace(x) ensures x == ' ' {
        var i :| 0 <= i < |b| && b[i] == x;
      }
    }
    StripDelimitedChars(b, '&', ';');
    SeparateVisible(c, IsPunct, NotSpace);
    SeparateVisible(d, IsAsciiLower, IsAsciiUpper);
    StripShape(f);
    var r := Strip(f);
    assert forall x :: x in r ==> x in f;
    r
  }

  /** `remove_html_tags(text)`: `""` for a falsy text, the cleaned text otherwise; never truncated. */
  function RemoveHtmlTags(text: Option<string>): (r: string)
    ensures !Truthy(text) ==> r == []
    ensures forall x :: x in r ==> Allowed(x)
    ensures '<' !in r && '>' !in r && '&' !in r
    ensures PlainSpaces(r)
    ensures r == [] || (!IsSpace(r[0]) && !IsSpace(r[|r| - 1]))
  {
    if !Truthy(text) then []
    else
      var r := Cleaned(text.value);
      AllowedExcludesMarkup(r);
      r
  }

  /** Markup delimiters are not among the allowed characters. */
  lemma AllowedExcludesMarkup(r: string)
    requires forall x :: x in r ==> Allowed(x)
    ensures '<' !in r && '>' !in r && '&' !in r
  {
    assert !Allowed('<') && !Allowed('>') && !Allowed('&');
  }

  /** `".Next"` gets its space after the full stop; `"aB"` splits in two words. */
  lemma SeparateExamples()
    ensures Separate(".Next", IsPunct, NotSpace) == ". Next"
    ensures Separate("aB", IsAsciiLower, IsAsciiUpper) == "a B"
  {
    assert IsPunct('.') && NotSpace('N');
    assert Separate("ext", IsPunct, NotSpace) == "ext" by {
      SeparateNoOp("ext", IsPunct, NotSpace);
    }
    assert IsAsciiLower('a') && IsAsciiUpper('B');
  }

  // ---------------------------------------------------------------- the URL

  /** `validate_url(url)`: `https://` in front of a URL without a scheme; trailing slashes kept. */
  function ValidateUrl(url: string): (r: string)
    ensures HasScheme(r) && EndsWith(r, url)
    ensures r == url <==> HasScheme(url)
  {
    if HasScheme(url) then url
    else
      var r := "https://" + url;
      assert StartsWith(r, "https://");
      assert r[|r| - |url|..] == url;
      r
  }

  /** The check is idempotent: its result already has a scheme. */
  lemma ValidateUrlIdempotent(url: string)
    ensures ValidateUrl(ValidateUrl(url)) == ValidateUrl(url)
  {
  }

  /** The package's normalisation is this check followed by stripping the trailing slashes. */
  lemma PackageStrips(url: string)
    ensures Base.ValidateUrl(url) == RStripSlashes(ValidateUrl(url))
  {
  }

  // ------------------------------------------------------------ the network

  function RequestFor(url: string): Client.Request
  {
    Client.Request(url, UserAgent)
  }

  /**
   * `make_request(url, retries)`: at most `retries` attempts, the body of
   * the first that succeeds; a sleep after each failure but the last, and
   * the last failure re-raised (`raised`). With no attempt at all the
   * result is `None` and nothing is raised.
   */
  method MakeRequest<B>(net: Client.Network<B>, url: string, retries: int)
    returns (data: Option<B>, raised: bool, attempts: nat, sleeps: nat)
    ensures data == Client.Fetch(net, RequestFor(url), Client.Tries(retries))
    ensures raised <==> data.None? && retries >= 1
    ensures attempts <= Client.Tries(retries)
    ensures data.Some? ==> attempts >= 1 && data == net(RequestFor(url), attempts - 1) && sleeps == attempts - 1
    ensures data.None? ==> attempts == Client.Tries(retries) && sleeps == if attempts == 0 then 0 else attempts - 1
  {
    var req := RequestFor(url);
    var tries := Client.Tries(retries);
    attempts, sleeps, raised := 0, 0, false;
    for attempt := 0 to tries
      invariant attempts == attempt && sleeps == attempt
      invariant tries == 0 || attempt < tries
      invariant Client.FirstSuccess(net, req, tries, attempt) == Client.FirstSuccess(net, req, tries, 0)
    {
      var response := net(req, attempt);
      attempts := attempts + 1;
      if response.Some? {
        data := response;
        return;
      }
      if attempt == tries - 1 {
        data, raised := None, true;
        return;
      }
      sleeps := sleeps + 1;
    }
    data := None;
  }

  /** `/products.json?limit=250&page=n`. */
  function ProductsRef(page: nat): string
  {
    "/products.json?limit=250&page=" + NatToString(page)
  }

  /** `/collections/{id}/products.json?limit=250&page=n`. */
  function CollectionProductsRef(collectionId: string, page: nat): string
  {
    "/collections/" + collectionId + "/products.json?limit=250&page=" + NatToString(page)
  }

  /**
   * What one page lists: the items under `key` of its body; nothing when
   * the request raised, the body is empty or the key is missing, `null` or
   * empty. On this script's three attempts a failure always raises, and
   * the handler ends the loop just as an empty page does.
   */
  function PageItems<B, T>(net: Client.Network<B>, url: string, key: B -> Field<seq<T>>): seq<T>
  {
    Client.Listed(Client.Fetch(net, RequestFor(url), Client.Tries(MaxRetries)), key)
  }

  /** One pass of a page loop: the page's URL and what it lists. */
  method FetchPage<B, T>(net: Client.Network<B>, urlOf: nat -> string, key: B -> Field<seq<T>>, page: nat)
    returns (url: string, listed: seq<T>)
    ensures url == urlOf(page) && listed == PageItems(net, url, key)
  {
    url := urlOf(page);
    var data, raised, _, _ := MakeRequest(net, url, MaxRetries);
    if raised {
      listed := [];
      return;
    }
    listed := Client.Listed(data, key);
  }

  /**
   * The `while True` loop of `get_products_pages` and
   * `get_collection_products`: pages 1, 2, ... in order until the first
   * that lists nothing; the earlier pages' items in page order. `last`, a
   * page known to list nothing, only bounds the walk.
   */
  method ListPages<B, T>(net: Client.Network<B>, urlOf: nat -> string, key: B -> Field<seq<T>>,
                         ghost at: nat -> seq<T>, ghost last: nat)
    returns (items: seq<T>, requested: seq<string>)
    requires forall p: nat :: at(p) == PageItems(net, urlOf(p), key)
    requires 1 <= last && at(last) == []
    ensures |requested| >= 1 && Client.RequestsPages(requested, urlOf)
    ensures at(|requested|) == [] && Client.ListedBefore(at, |requested|)
    ensures items == Client.Pages(at, 1, |requested|)
  {
    var page: nat := 1;
    items, requested := [], [];
    while true
      invariant 1 <= page <= last && |requested| == page - 1
      invariant Client.RequestsPages(requested, urlOf) && Client.ListedBefore(at, page)
      invariant Client.Pages(at, 1, page) == items
      decreases last - page
    {
      var url, listed := FetchPage(net, urlOf, key, page);
      Client.UrlsSnoc(requested, url, urlOf, page);
      requested := requested + [url];
      assert listed == at(page);
      if listed == [] {
        return;
      }
      items := items + listed;
      Client.ListedNext(at, page);
      page := page + 1;
    }
  }

  function ProductsUrls(shopUrl: string): nat -> string
  {
    (p: nat) => shopUrl + ProductsRef(p)
  }

  function ProductsAt(net: Client.Network<Response>, shopUrl: string): nat -> seq<Product>
  {
    (p: nat) => PageItems(net, shopUrl + ProductsRef(p), Client.ProductsKey)
  }

  /** `get_products_pages(shop_url)`: every product of every page before the first empty one. */
  method GetProductsPages(net: Client.Network<Response>, shopUrl: string, ghost last: nat)
    returns (products: seq<Product>, requested: seq<string>)
    requires 1 <= last && ProductsAt(net, shopUrl)(last) == []
    ensures |requested| >= 1
    ensures forall i :: 0 <= i < |requested| ==> requested[i] == shopUrl + ProductsRef(i + 1)
    ensures ProductsAt(net, shopUrl)(|requested|) == []
    ensures forall p: nat :: 1 <= p < |requested| ==> ProductsAt(net, shopUrl)(p) != []
    ensures products == Client.Pages(ProductsAt(net, shopUrl), 1, |requested|)
  {
    products, requested := ListPages(net, ProductsUrls(shopUrl), Client.ProductsKey, ProductsAt(net, shopUrl), last);
  }

  function CollectionUrls(shopUrl: string, collectionId: string): nat -> string
  {
    (p: nat) => shopUrl + CollectionProductsRef(collectionId, p)
  }

  function CollectionAt(net: Client.Network<Response>, shopUrl: string, collectionId: string): nat -> seq<Product>
  {
    (p: nat) => PageItems(net, shopUrl + CollectionProductsRef(collectionId, p), Client.ProductsKey)
  }

  /** `get_collection_products(shop_url, collection_id)`: the same loop over one collection's pages. */
  method GetCollectionProducts(net: Client.Network<Response>, shopUrl: string, collectionId: string, ghost last: nat)
    returns (products: seq<Product>, requested: seq<string>)
    requires 1 <= last && CollectionAt(net, shopUrl, collectionId)(last) == []
    ensures |requested| >= 1
    ensures forall i :: 0 <= i < |requested| ==> requested[i] == shopUrl + CollectionProductsRef(collectionId, i + 1)
    ensures CollectionAt(net, shopUrl, collectionId)(|requested|) == []
    ensures forall p: nat :: 1 <= p < |requested| ==> CollectionAt(net, shopUrl, collectionId)(p) != []
    ensures products == Client.Pages(CollectionAt(net, shopUrl, collectionId), 1, |requested|)
  {
    products, requested := ListPages(net, CollectionUrls(shopUrl, collectionId), Client.ProductsKey,
                                     CollectionAt(net, shopUrl, collectionId), last);
  }

  /**
   * `get_collections(shop_url)`: one request, unpaginated. A failure
   * (raised and caught) and a missing key give `[]`; a `null` listing is
   * returned as it is, `None`.
   */
  method GetCollections(net: Client.Network<Response>, shopUrl: string) returns (r: Option<seq<Collection>>)
    ensures var data := Client.Fetch(net, RequestFor(shopUrl + "/collections.json?limit=250"), Client.Tries(MaxRetries));
      (data.None? ==> r == Some([]))
      && (data.Some? ==> (r.None? <==> data.value.collections.Null?))
      && (data.Some? && data.value.collections.Missing? ==> r == Some([]))
      && (data.Some? && data.value.collections.Val? ==> r == Some(data.value.collections.value))
  {
    var data, raised, _, _ := MakeRequest(net, shopUrl + "/collections.json?limit=250", MaxRetries);
    if raised || data.None? {
      return Some([]);
    }
    r := Get(data.value.collections, []);
  }

  // ------------------------------------------------------------ the items

  /** `remove_html_tags(product.get("body_html", ""))` with this script's cleaner. */
  function Description(p: Product): (d: string)
    ensures forall x :: x in d ==> Allowed(x)
    ensures !Truthy(Get(p.bodyHtml, "")) ==> d == []
  {
    RemoveHtmlTags(Get(p.bodyHtml, ""))
  }

  /** The item of one variant (bing_feed.py:148-188): the package's literal and optional fields, this description. */
  function VariantItem(storeUrl: string, p: Product, v: Variant): Option<seq<Item>>
  {
    var req := Bing.Described(storeUrl, Bing.DefaultCurrency, p, v, Description(p));
    var opt := Bing.Optional(p, v, Bing.DefaultCurrency);
    if req.None? || opt.None? then None else Some([req.value + opt.value])
  }

  function Builder(storeUrl: string, p: Product): Variant -> Option<seq<Item>>
  {
    v => VariantItem(storeUrl, p, v)
  }

  /** `process_product(product, base_url)`: `product["variants"]` must be a list; one item per variant. */
  function ProductItems(storeUrl: string, p: Product): Option<seq<Item>>
  {
    if !p.variants.Val? then None else Collect(Builder(storeUrl, p), p.variants.value)
  }

  function ProductsBuilder(storeUrl: string): Product -> Option<seq<Item>>
  {
    p => ProductItems(storeUrl, p)
  }

  /** Swapping the description of a literal changes its `Description` entry (index 9) and nothing else. */
  lemma LiteralDescription(id: string, title: string, link: string, image: Option<string>, price: string,
                           brand: Option<string>, mpn: Option<string>, availability: string, d1: string, d2: string,
                           productType: Option<string>, group: string, rest: Item)
    ensures var a := Bing.Literal(id, title, link, image, price, brand, mpn, availability, d1, productType, group) + rest;
      var b := Bing.Literal(id, title, link, image, price, brand, mpn, availability, d2, productType, group) + rest;
      |a| == |b| && a[9] == ("Description", Scalar(Some(d1)))
      && forall i :: 0 <= i < |a| && i != 9 ==> a[i] == b[i]
  {
  }

  /**
   * The script and the package map a variant alike, except for the
   * description: both raise or neither does, and their items differ at
   * the `Description` entry alone.
   */
  lemma AgreesWithPackage(storeUrl: string, p: Product, v: Variant)
    ensures VariantItem(storeUrl, p, v).Some? <==> Bing.VariantItem(storeUrl, Bing.DefaultCurrency, p, v).Some?
    ensures VariantItem(storeUrl, p, v).Some? ==>
      var a, b := VariantItem(storeUrl, p, v).value[0], Bing.VariantItem(storeUrl, Bing.DefaultCurrency, p, v).value[0];
      |a| == |b| && a[9] == ("Description", Scalar(Some(Description(p))))
      && forall i :: 0 <= i < |a| && i != 9 ==> a[i] == b[i]
  {
    var c := Bing.DefaultCurrency;
    var id, title, link := Bing.IdField(v.id), Bing.Title(p, v), Bing.Link(storeUrl, p, v);
    var image, price, group := Bing.ImageLink(p), Bing.WholePrice(v.price, c), Bing.IdField(p.id);
    var opt := Bing.Optional(p, v, c);
    if VariantItem(storeUrl, p, v).Some? {
      LiteralDescription(id.value, title.value, link.value, image.value, price.value, Get(p.vendor, ""),
                         Get(v.sku, ""), Bing.Availability(v), Description(p), Bing.Description(p),
                         Get(p.productType, ""), group.value, opt.value);
    }
  }

  /** The script raises for a product without a `variants` list, where the package maps none. */
  lemma MissingVariantsRaise(storeUrl: string, p: Product)
    requires p.variants.Missing?
    ensures ProductItems(storeUrl, p).None?
    ensures Bing.ProductItems(storeUrl, Bing.DefaultCurrency, p) == Some([])
  {

  }

  /** One variant's item, the literal first and the optional fields assigned after it. */
  method BuildVariant(storeUrl: string, p: Product, v: Variant) returns (r: Option<seq<Item>>)
    ensures r == VariantItem(storeUrl, p, v)
  {
    var req := Bing.Described(storeUrl, Bing.DefaultCurrency, p, v, Description(p));
    var sale, images := Bing.SaleEntry(v, Bing.DefaultCurrency), Bing.ImagesEntry(p);
    if req.None? || sale.None? || images.None? {
      return None;
    }
    Bing.DescribedKeys(storeUrl, Bing.DefaultCurrency, p, v, Description(p));
    var it := Bing.AssignOptional(req.value, p, v, Bing.DefaultCurrency);
    r := Some([it]);
  }

  /** `process_product`: the loop over the variants, appending each one's item. */
  method ProcessProduct(storeUrl: string, p: Product) returns (r: Option<seq<Item>>)
    ensures r == ProductItems(storeUrl, p)
  {
    if !p.variants.Val? {
      return None;
    }
    var vs := p.variants.value;
    var items: seq<Item> := [];
    var k := 0;
    while k < |vs|
      invariant 0 <= k <= |vs|
      invariant Collect(Builder(storeUrl, p), vs[..k]) == Some(items)
    {
      var it := BuildVariant(storeUrl, p, vs[k]);
      CollectSnoc(Builder(storeUrl, p), vs, k);
      if it.None? {
        CollectStops(Builder(storeUrl, p), vs, k + 1);
        return None;
      }
      items := items + it.value;
      k := k + 1;
    }
    assert vs[..k] == vs;
    r := Some(items);
  }

  // ------------------------------------------------------------ the writer

  /**
   * `create_xml_feed(products, base_url)` on the shop information it
   * found: the `Catalog` with its header, then one `Product` per item,
   * list and dictionary entries assigned as they are; `None` when a
   * product raises.
   */
  function LegacyFeed(storeUrl: string, products: seq<Product>, shop: Option<ShopInfo>): Option<Element>
  {
    var items := Collect(ProductsBuilder(storeUrl), products);
    if items.None? then None
    else Written(Some(Feed("Catalog", Bing.Header(Google.ShopOrDefault(shop, storeUrl)), "Product", items.value, RawEntries)))
  }

  /** The writer loop over the products, then the serializer. */
  method CreateXmlFeed(storeUrl: string, products: seq<Product>, shop: Option<ShopInfo>) returns (doc: Option<Element>)
    ensures doc == LegacyFeed(storeUrl, products, shop)
  {
    var all: seq<Item> := [];
    var i := 0;
    while i < |products|
      invariant 0 <= i <= |products|
      invariant Collect(ProductsBuilder(storeUrl), products[..i]) == Some(all)
    {
      var items := ProcessProduct(storeUrl, products[i]);
      CollectSnoc(ProductsBuilder(storeUrl), products, i);
      if items.None? {
        CollectStops(ProductsBuilder(storeUrl), products, i + 1);
        return None;
      }
      all := all + items.value;
      i := i + 1;
    }
    assert products[..i] == products;
    var root := SerializeFeed("Catalog", Bing.Header(Google.ShopOrDefault(shop, storeUrl)), "Product", all, RawEntries);
    doc := Written(Some(root));
  }

  /** Without shop information the header is `E-shop`, an empty description and the store URL. */
  lemma DefaultHeader(storeUrl: string)
    ensures Bing.Header(Google.ShopOrDefault(None, storeUrl))
      == [Leaf("Title", Chars("E-shop")), Leaf("Description", Chars("")), Leaf("Link", Chars(storeUrl))]
  {
  }
}
