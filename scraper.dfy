/**
 * The stand-alone CSV exporter (`shopify_scraper.py`): every collection of
 * the store, the products of each, one row per variant, the rows made
 * unique by product URL (the first kept), and the main image of every row
 * that has one downloaded and named in the row.
 *
 * A Python exception that nothing catches ends the run without output; it
 * is modelled as `None`. Files, folders, logging and the clock are not
 * modelled; the network is the oracle of `Client`, and an image download
 * is the parameter `fetch(url)`, which says whether the GET succeeds.
 */
module Scraper {
  import opened Values
  import opened Text
  import opened Numbers
  import opened Tags
  import opened Catalog
  import opened Urls
  import Client
  import ZboziLegacy

  const MaxRetries := 3
  const RetryDelay := 180
  const UserAgent := Client.DefaultUserAgent

  /** The CSV columns, in the order they are written. */
  const Headers := ["PRODUCT", "URL", "PRICE", "COMPARE_AT_PRICE", "STOCK", "CATEGORY", "PRODUCTNO", "BARCODE",
    "WEIGHT", "WEIGHT_UNIT", "REQUIRES_SHIPPING", "TAXABLE", "VENDOR", "TAGS", "PUBLISHED_AT",
    "CREATED_AT", "UPDATED_AT", "DESCRIPTION", "IMGURL", "IMAGE_FILENAME"]

  // ------------------------------------------------------------ the cleaner

  /**
   * `remove_html_tags(text)`: one pass of the lazy tag pattern and nothing
   * else; no length limit, so a text without a tag comes back whole.
   */
  function RemoveHtmlTags(text: string): (r: string)
    ensures |r| <= |text| && forall x :: x in r ==> x in text
    ensures r == text <==> !HasLazyTag(text)
  {
    StripLazyChars(text);
    StripLazyFixpoint(text);
    StripLazyTags(text)
  }

  // ------------------------------------------------------------ the network

  function RequestFor(url: string): Client.Request
  {
    Client.Request(url, UserAgent)
  }

  /**
   * `make_request(url)`: at most `MAX_RETRIES` attempts, the first success
   * returned; every failure, the last one included, is followed by a sleep.
   */
  method MakeRequest<B>(net: Client.Network<B>, url: string) returns (data: Option<B>, attempts: nat, sleeps: nat)
    ensures data == Client.Fetch(net, RequestFor(url), Client.Tries(MaxRetries))
    ensures 1 <= attempts <= MaxRetries
    ensures data.Some? ==> data == net(RequestFor(url), attempts - 1) && sleeps == attempts - 1
    ensures data.None? ==> attempts == MaxRetries && sleeps == MaxRetries
  {
    var req := RequestFor(url);
    attempts, sleeps := 0, 0;
    for attempt := 0 to MaxRetries
      invariant attempts == attempt && sleeps == attempt
      invariant Client.FirstSuccess(net, req, MaxRetries, attempt) == Client.FirstSuccess(net, req, MaxRetries, 0)
    {
      var response := net(req, attempt);
      attempts := attempts + 1;
      if response.Some? {
        data := response;
        return;
      }
      sleeps := sleeps + 1;
    }
    data := None;
  }

  // ------------------------------------------------------------ the page loops

  /**
   * A page ends its loop when reading it raised (`None`) or it lists
   * nothing.
   */
  predicate Stops<T>(page: Option<seq<T>>)
  {
    page.None? || page.value == []
  }

  /** What each page lists, a page that raised counting as empty. */
  function Listing<T>(at: nat -> Option<seq<T>>): nat -> seq<T>
  {
    (p: nat) => if at(p).Some? then at(p).value else []
  }

  /** The first page from `p` on that ends the loop. */
  function FirstStop<T>(at: nat -> Option<seq<T>>, p: nat, last: nat): (n: nat)
    requires 1 <= p <= last && Stops(at(last))
    ensures p <= n <= last && Stops(at(n))
    ensures forall q :: p <= q < n ==> !Stops(at(q))
    decreases last - p
  {
    if Stops(at(p)) then p else FirstStop(at, p + 1, last)
  }

  /** A page that does not end the loop extends the run of pages that do not. */
  lemma NoStopStep<T>(at: nat -> Option<seq<T>>, page: nat)
    requires forall q :: 1 <= q < page ==> !Stops(at(q))
    requires !Stops(at(page))
    ensures forall q :: 1 <= q < page + 1 ==> !Stops(at(q))
  {
  }

  /** The page that ends the loop does not depend on the bound used to find it. */
  lemma {:induction false} FirstStopIs<T>(at: nat -> Option<seq<T>>, p: nat, last: nat, n: nat)
    requires 1 <= p <= n <= last && Stops(at(last)) && Stops(at(n))
    requires forall q :: p <= q < n ==> !Stops(at(q))
    ensures FirstStop(at, p, last) == n
    decreases last - p
  {
    if p < n {
      FirstStopIs(at, p + 1, last, n);
    }
  }

  /** What a loop over `at` yields when page `n` ends it: `None` when that page raised. */
  function Yielded<T>(at: nat -> Option<seq<T>>, n: nat): Option<seq<T>>
    requires 1 <= n
  {
    if at(n).None? then None else Some(Client.Pages(Listing(at), 1, n))
  }

  /** `get_page_collections`'s URL for page `page`. */
  function CollectionsUrl(url: string, page: nat): string
  {
    url + "/collections.json?page=" + NatToString(page)
  }

  /**
   * One page of `get_page_collections`: nothing when the request failed or
   * `collections` is `null` or empty, a raise when the key is absent.
   */
  function PageCollections(net: Client.Network<Response>, fullUrl: string): Option<seq<Collection>>
  {
    var data := Client.Fetch(net, RequestFor(fullUrl), Client.Tries(MaxRetries));
    if data.None? then Some([])
    else match data.value.collections
      case Missing => None
      case Null => Some([])
      case Val(cs) => Some(cs)
  }

  function CollectionsAt(net: Client.Network<Response>, url: string): nat -> Option<seq<Collection>>
  {
    (p: nat) => PageCollections(net, CollectionsUrl(url, p))
  }

  /**
   * `get_page`: `data['products'] if data else []`, so nothing for a failed
   * request, a raise for a body without `products`, and `None`, which ends
   * the caller's loop as `[]` does, for a `null`. A body without the key is
   * taken to hold other keys: the falsy `{}` is not told apart.
   */
  function PageProducts(net: Client.Network<Response>, fullUrl: string): Option<seq<Product>>
  {
    var data := Client.Fetch(net, RequestFor(fullUrl), Client.Tries(MaxRetries));
    if data.None? then Some([])
    else match data.value.products
      case Missing => None
      case Null => Some([])
      case Val(ps) => Some(ps)
  }

  /** The products pages of a collection, or of the whole store when the handle is not truthy. */
  function ProductsAt(net: Client.Network<Response>, url: string, handle: Option<string>): nat -> Option<seq<Product>>
  {
    (p: nat) => PageProducts(net, ZboziLegacy.PageUrl(url, p, handle))
  }

  /** `at(p)` is page `p` of `get_page_collections`, for the pages `1` to `n`. */
  ghost predicate CollectionsServe(net: Client.Network<Response>, url: string, at: nat -> Option<seq<Collection>>, n: nat)
    decreases n
  {
    n == 0 || (at(n) == PageCollections(net, CollectionsUrl(url, n)) && CollectionsServe(net, url, at, n - 1))
  }

  lemma {:induction false} CollectionsServeAll(net: Client.Network<Response>, url: string, n: nat)
    ensures CollectionsServe(net, url, CollectionsAt(net, url), n)
  {
    if n > 0 {
      CollectionsServeAll(net, url, n - 1);
    }
  }

  lemma {:induction false} CollectionsServeAt(net: Client.Network<Response>, url: string,
                                              at: nat -> Option<seq<Collection>>, n: nat, p: nat)
    requires CollectionsServe(net, url, at, n) && 1 <= p <= n
    ensures at(p) == PageCollections(net, CollectionsUrl(url, p))
    decreases n
  {
    if p < n {
      CollectionsServeAt(net, url, at, n - 1, p);
    }
  }

  /** One request of `get_page_collections`. */
  method GetCollectionsPage(net: Client.Network<Response>, url: string, page: nat,
                            ghost at: nat -> Option<seq<Collection>>, ghost last: nat)
    returns (listed: Option<seq<Collection>>)
    requires CollectionsServe(net, url, at, last) && 1 <= page <= last
    ensures listed == at(page)
  {
    CollectionsServeAt(net, url, at, last, page);
    var data, _, _ := MakeRequest(net, CollectionsUrl(url, page));
    if data.None? {
      return Some([]);
    }
    listed := match data.value.collections
      case Missing => None
      case Null => Some([])
      case Val(cs) => Some(cs);
  }

  /** `get_page(url, page, collection_handle)`. */
  method GetPage(net: Client.Network<Response>, url: string, page: nat, handle: Option<string>)
    returns (products: Option<seq<Product>>)
    ensures products == PageProducts(net, ZboziLegacy.PageUrl(url, page, handle))
  {
    var data, _, _ := MakeRequest(net, ZboziLegacy.PageUrl(url, page, handle));
    if data.None? {
      return Some([]);
    }
    products := match data.value.products
      case Missing => None
      case Null => Some([])
      case Val(ps) => Some(ps);
  }

  /**
   * `get_page_collections(url)`: pages 1, 2, ... until the first whose
   * request failed or whose `collections` is empty; everything the pages
   * before it listed, or `None` when that page raised.
   */
  method GetPageCollections(net: Client.Network<Response>, url: string, ghost last: nat)
    returns (collections: Option<seq<Collection>>)
    requires 1 <= last && Stops(CollectionsAt(net, url)(last))
    ensures collections == Yielded(CollectionsAt(net, url), FirstStop(CollectionsAt(net, url), 1, last))
  {
    CollectionsServeAll(net, url, last);
    collections := CollectionsLoop(net, url, CollectionsAt(net, url), last);
  }

  /** The loop of `get_page_collections`. */
  method CollectionsLoop(net: Client.Network<Response>, url: string, ghost at: nat -> Option<seq<Collection>>,
                         ghost last: nat)
    returns (collections: Option<seq<Collection>>)
    requires CollectionsServe(net, url, at, last)
    requires 1 <= last && Stops(at(last))
    ensures collections == Yielded(at, FirstStop(at, 1, last))
  {
    var page: nat := 1;
    var all: seq<Collection> := [];
    while true
      invariant 1 <= page <= last
      invariant forall q :: 1 <= q < page ==> !Stops(at(q))
      invariant Client.Pages(Listing(at), 1, page) == all
      decreases last - page
    {
      var listed := GetCollectionsPage(net, url, page, at, last);
      if Stops(listed) {
        FirstStopIs(at, 1, last, page);
        return if listed.None? then None else Some(all);
      }
      assert Listing(at)(page) == listed.value;
      all := all + listed.value;
      page := page + 1;
    }
  }

  // ------------------------------------------------------------ the rows

  /** `obj[key]`: an absent key raises (`None`); a `null` is Python's `None`, `Some(None)`. */
  function Index<T>(f: Field<T>): Option<Option<T>>
  {
    match f
    case Missing => None
    case Null => Some(None)
    case Val(v) => Some(Some(v))
  }

  /** The characters `.strip(' -')` removes. */
  predicate IsBorder(c: char)
  {
    c == ' ' || c == '-'
  }

  /** `f"{title} - {variant_title}".strip(' -')`. */
  function ProductName(title: Option<string>, variantTitle: Option<string>): string
  {
    Trim(StrOf(title) + " - " + StrOf(variantTitle), IsBorder)
  }

  /** `.strip(' -')` leaves neither a space nor a dash at either end. */
  lemma ProductNameEnds(title: Option<string>, variantTitle: Option<string>)
    ensures var r := ProductName(title, variantTitle);
      r == [] || (!IsBorder(r[0]) && !IsBorder(r[|r| - 1]))
  {
    var l := TrimLeft(StrOf(title) + " - " + StrOf(variantTitle), IsBorder);
    TrimLeftShape(StrOf(title) + " - " + StrOf(variantTitle), IsBorder);
    TrimRightShape(l, IsBorder);
  }

  /** Stripping the trailing run of dropped characters off `t + x` gives back `t`. */
  lemma {:induction false} TrimRightSuffix(t: string, x: string, drop: char -> bool)
    requires t != [] && !drop(t[|t| - 1]) && forall i :: 0 <= i < |x| ==> drop(x[i])
    ensures TrimRight(t + x, drop) == t
    decreases |x|
  {
    if x == [] {
      assert t + x == t;
    } else {
      var n := |x| - 1;
      assert (t + x)[|t + x| - 1] == x[n];
      assert (t + x)[..|t + x| - 1] == t + x[..n];
      TrimRightSuffix(t, x[..n], drop);
    }
  }

  /** A title and a variant title without spaces or dashes at the outer ends are joined by `" - "`. */
  lemma ProductNameJoined(t: string, w: string)
    requires t != [] && w != [] && !IsBorder(t[0]) && !IsBorder(w[|w| - 1])
    ensures ProductName(Some(t), Some(w)) == t + " - " + w
  {
    var s := t + " - " + w;
    assert s[0] == t[0] && s[|s| - 1] == w[|w| - 1];
    assert TrimLeft(s, IsBorder) == s;
    TrimRightSuffix(s, [], IsBorder);
    assert s + [] == s;
  }

  /** An empty variant title leaves the product title alone: the `" - "` is stripped. */
  lemma ProductNameUntitledVariant(t: string)
    requires t != [] && !IsBorder(t[0]) && !IsBorder(t[|t| - 1])
    ensures ProductName(Some(t), Some("")) == t
  {
    var s := t + " - " + "";
    assert s == t + " - ";
    assert s[0] == t[0];
    assert TrimLeft(s, IsBorder) == s;
    TrimRightSuffix(t, " - ", IsBorder);
  }

  /** `'Yes' if x else 'No'`. */
  function YesNo(b: bool): string
  {
    if b then "Yes" else "No"
  }

  /** The product-level values of `base_product` every variant row shares. */
  datatype Base = Base(
    title: Option<string>, url: string, category: Option<string>, vendor: Option<string>, tags: string,
    publishedAt: Option<string>, createdAt: Option<string>, updatedAt: Option<string>,
    description: string, imgUrl: Option<string>)

  /** A CSV row, one field per column of `Headers`; `None` is Python's `None`, written as an empty cell. */
  datatype Row = Row(
    product: string, url: string, price: Option<string>, compareAtPrice: Option<string>, stock: string,
    category: Option<string>, productNo: Option<string>, barcode: Option<string>, weight: Option<string>,
    weightUnit: Option<string>, requiresShipping: string, taxable: string, vendor: Option<string>,
    tags: string, publishedAt: Option<string>, createdAt: Option<string>, updatedAt: Option<string>,
    description: string, imgUrl: Option<string>, imageFilename: Option<string>)

  /** `product['images'][0]['src'] if product['images'] else ''`. */
  function ImgUrl(p: Product): Option<Option<string>>
  {
    match p.images
    case Missing => None
    case Null => Some(Some(""))
    case Val(ims) => if ims == [] then Some(Some("")) else Index(ims[0].src)
  }

  /**
   * `base_product`: `None` when one of the subscripts raises, or when
   * `', '.join` is handed a `null` tag list.
   */
  function BaseRow(url: string, p: Product): Option<Base>
  {
    var title, handle, category, body := Index(p.title), Index(p.handle), Index(p.productType), Index(p.bodyHtml);
    var tags, img := Get(p.tags, []), ImgUrl(p);
    if title.None? || handle.None? || category.None? || body.None? || tags.None? || img.None? then None
    else Some(Base(title.value, url + "/products/" + StrOf(handle.value), category.value, Get(p.vendor, ""),
                   Join(", ", tags.value), Get(p.publishedAt, ""), Get(p.createdAt, ""), Get(p.updatedAt, ""),
                   RemoveHtmlTags(StrOf(body.value)), img.value))
  }

  /**
   * One variant's row: `base_product` merged with the variant's values. It
   * raises exactly when the variant lacks `title`, `price`, `available` or
   * `sku`; its stock, shipping and tax columns say `Yes` exactly for a
   * `true`, and it has no image file name yet.
   */
  function VariantRow(b: Base, v: Variant): (r: Option<Row>)
    ensures r.None? <==> v.title.Missing? || v.price.Missing? || v.available.Missing? || v.sku.Missing?
    ensures r.Some? ==>
      (r.value.stock == "Yes" <==> v.available == Val(true)) && (r.value.stock == "Yes" || r.value.stock == "No")
      && (r.value.requiresShipping == "Yes" <==> v.requiresShipping == Val(true))
      && (r.value.taxable == "Yes" <==> v.taxable == Val(true))
      && r.value.url == b.url && r.value.imgUrl == b.imgUrl && r.value.imageFilename.None?
      && r.value.product == ProductName(b.title, Lookup(v.title))
  {
    var title, price, available, sku := Index(v.title), Index(v.price), Index(v.available), Index(v.sku);
    if title.None? || price.None? || available.None? || sku.None? then None
    else Some(Row(ProductName(b.title, title.value), b.url, price.value, Get(v.compareAtPrice, ""),
                  YesNo(available.value == Some(true)), b.category, sku.value, Get(v.barcode, ""),
                  Get(v.weight, ""), Get(v.weightUnit, ""), YesNo(TruthyBool(Get(v.requiresShipping, false))),
                  YesNo(TruthyBool(Get(v.taxable, false))), b.vendor, b.tags, b.publishedAt, b.createdAt,
                  b.updatedAt, b.description, b.imgUrl, None))
  }

  function RowsOf(b: Base): Variant -> Option<seq<Row>>
  {
    v => var r := VariantRow(b, v); if r.None? then None else Some([r.value])
  }

  /**
   * The rows one product yields: one per variant, or `None` when the base
   * or any variant raises (the list is built before it is yielded), or when
   * `variants` is absent or `null`.
   */
  function ProductRows(url: string, p: Product): Option<seq<Row>>
  {
    var b := BaseRow(url, p);
    if b.None? || !p.variants.Val? then None else Collect(RowsOf(b.value), p.variants.value)
  }

  function ProductsBuilder(url: string): Product -> Option<seq<Row>>
  {
    p => ProductRows(url, p)
  }

  /**
   * A product yields rows exactly when its base, its variant list and every
   * variant can be read; then one row per variant, in variant order, each
   * under the product's URL.
   */
  lemma ProductRowsMeaning(url: string, p: Product)
    ensures ProductRows(url, p).Some? <==>
      BaseRow(url, p).Some? && p.variants.Val?
      && forall i :: 0 <= i < |p.variants.value| ==> VariantRow(BaseRow(url, p).value, p.variants.value[i]).Some?
    ensures ProductRows(url, p).Some? ==> |ProductRows(url, p).value| == |p.variants.value|
    ensures ProductRows(url, p).Some? ==>
      forall i :: 0 <= i < |p.variants.value| ==>
        ProductRows(url, p).value[i] == VariantRow(BaseRow(url, p).value, p.variants.value[i]).value
        && ProductRows(url, p).value[i].url == url + "/products/" + StrOf(Lookup(p.handle))
  {
    var b := BaseRow(url, p);
    if b.Some? && p.variants.Val? {
      var f, vs := RowsOf(b.value), p.variants.value;
      CollectSome(f, vs);
      assert forall i :: 0 <= i < |vs| ==> (f(vs[i]).Some? <==> VariantRow(b.value, vs[i]).Some?);
      if Collect(f, vs).Some? && vs != [] {
        var rows := Collect(f, vs).value;
        BaseUrl(url, p);
        CollectSingles(f, vs, 0);
        forall i | 0 <= i < |vs|
          ensures rows[i] == VariantRow(b.value, vs[i]).value
          ensures rows[i].url == url + "/products/" + StrOf(Lookup(p.handle))
        {
          CollectSingles(f, vs, i);
        }
      }
    }
  }

  /** The base row's URL is the store URL, `/products/` and the handle. */
  lemma BaseUrl(url: string, p: Product)
    requires BaseRow(url, p).Some?
    ensures BaseRow(url, p).value.url == url + "/products/" + StrOf(Lookup(p.handle))
  {
  }

  // ------------------------------------------------------------ extract_products_collection

  /** `at(p)` is page `p` of `get_page(url, p, handle)`, for the pages `1` to `n`. */
  ghost predicate ProductsServe(net: Client.Network<Response>, url: string, handle: Option<string>,
                                at: nat -> Option<seq<Product>>, n: nat)
    decreases n
  {
    n == 0 || (at(n) == PageProducts(net, ZboziLegacy.PageUrl(url, n, handle)) && ProductsServe(net, url, handle, at, n - 1))
  }

  lemma {:induction false} ProductsServeAll(net: Client.Network<Response>, url: string, handle: Option<string>, n: nat)
    ensures ProductsServe(net, url, handle, ProductsAt(net, url, handle), n)
  {
    if n > 0 {
      ProductsServeAll(net, url, handle, n - 1);
    }
  }

  lemma {:induction false} ProductsServeAt(net: Client.Network<Response>, url: string, handle: Option<string>,
                                           at: nat -> Option<seq<Product>>, n: nat, p: nat)
    requires ProductsServe(net, url, handle, at, n) && 1 <= p <= n
    ensures at(p) == PageProducts(net, ZboziLegacy.PageUrl(url, p, handle))
    decreases n
  {
    if p < n {
      ProductsServeAt(net, url, handle, at, n - 1, p);
    }
  }

  /** One `get_page` call of the loop. */
  method GetProductsPage(net: Client.Network<Response>, url: string, handle: Option<string>, page: nat,
                         ghost at: nat -> Option<seq<Product>>, ghost last: nat)
    returns (products: Option<seq<Product>>)
    requires ProductsServe(net, url, handle, at, last) && 1 <= page <= last
    ensures products == at(page)
  {
    ProductsServeAt(net, url, handle, at, last, page);
    products := GetPage(net, url, page, handle);
  }

  /**
   * The rows of the pages before page `n`, the one that ends the loop:
   * `None` when that page raised or a product on the way did.
   */
  function PagesRows(f: Product -> Option<seq<Row>>, at: nat -> Option<seq<Product>>, n: nat): Option<seq<Row>>
    requires 1 <= n
  {
    if at(n).None? then None else Collect(f, Client.Pages(Listing(at), 1, n))
  }

  /** Reading page `page` appends its products' rows to those of the pages before it. */
  lemma PageRowsStep(f: Product -> Option<seq<Row>>, at: nat -> Option<seq<Product>>, page: nat)
    requires 1 <= page && at(page).Some?
    ensures var x, y := Collect(f, Client.Pages(Listing(at), 1, page)), Collect(f, at(page).value);
      Collect(f, Client.Pages(Listing(at), 1, page + 1)) == if x.None? || y.None? then None else Some(x.value + y.value)
  {
    assert Client.Pages(Listing(at), 1, page + 1) == Client.Pages(Listing(at), 1, page) + at(page).value;
    CollectAppend(f, Client.Pages(Listing(at), 1, page), at(page).value);
  }

  /** A product that raised on an earlier page makes the whole collection raise. */
  lemma PagesRowsKeepRaise(f: Product -> Option<seq<Row>>, at: nat -> Option<seq<Product>>, k: nat, n: nat)
    requires 1 <= k <= n && Collect(f, Client.Pages(Listing(at), 1, k)).None?
    ensures Collect(f, Client.Pages(Listing(at), 1, n)).None?
  {
    if k < n {
      var l := Listing(at);
      Client.PagesSplit(l, 1, k, n);
      assert Client.Pages(l, 1, n) == Client.Pages(l, 1, k) + (l(k) + Client.Pages(l, k + 1, n));
      CollectAppend(f, Client.Pages(l, 1, k), l(k) + Client.Pages(l, k + 1, n));
    }
  }

  /** The products loop of one page. */
  method ProcessProducts(url: string, products: seq<Product>, ghost f: Product -> Option<seq<Row>>)
    returns (r: Option<seq<Row>>)
    requires forall p {:trigger ProductRows(url, p)} :: f(p) == ProductRows(url, p)
    ensures r == Collect(f, products)
  {
    var rows: seq<Row> := [];
    for k := 0 to |products|
      invariant Collect(f, products[..k]) == Some(rows)
    {
      CollectSnoc(f, products, k);
      var got := ProductRows(url, products[k]);
      if got.None? {
        CollectStops(f, products, k + 1);
        return None;
      }
      rows := rows + got.value;
    }
    assert products[..|products|] == products;
    r := Some(rows);
  }

  /**
   * `extract_products_collection(url, handle)`: pages 1, 2, ... of the
   * collection until the first that lists nothing, one row per variant of
   * every product on the pages before it, in page and product order.
   */
  method ExtractProductsCollection(net: Client.Network<Response>, url: string, handle: Option<string>, ghost last: nat)
    returns (rows: Option<seq<Row>>)
    requires 1 <= last && Stops(ProductsAt(net, url, handle)(last))
    ensures rows == PagesRows(ProductsBuilder(url), ProductsAt(net, url, handle), FirstStop(ProductsAt(net, url, handle), 1, last))
  {
    ProductsServeAll(net, url, handle, last);
    rows := ProductsLoop(net, url, handle, ProductsAt(net, url, handle), ProductsBuilder(url), last);
  }

  /** One round of the loop: page `page` and the rows of its products. */
  method ReadProductsPage(net: Client.Network<Response>, url: string, handle: Option<string>, page: nat,
                          ghost at: nat -> Option<seq<Product>>, ghost f: Product -> Option<seq<Row>>,
                          ghost last: nat, ghost all: seq<Row>)
    returns (products: Option<seq<Product>>, got: Option<seq<Row>>)
    requires ProductsServe(net, url, handle, at, last) && 1 <= page <= last && Stops(at(last))
    requires forall p {:trigger ProductRows(url, p)} :: f(p) == ProductRows(url, p)
    requires Collect(f, Client.Pages(Listing(at), 1, page)) == Some(all)
    requires forall q :: 1 <= q < page ==> !Stops(at(q))
    ensures products == at(page)
    ensures !Stops(products) ==> page < last
    ensures !Stops(products) ==> forall q :: 1 <= q < page + 1 ==> !Stops(at(q))
    ensures !Stops(products) ==>
      Collect(f, Client.Pages(Listing(at), 1, page + 1)) == if got.None? then None else Some(all + got.value)
  {
    products := GetProductsPage(net, url, handle, page, at, last);
    if Stops(products) {
      return products, None;
    }
    NoStopStep(at, page);
    got := ProcessProducts(url, products.value, f);
    PageRowsStep(f, at, page);
  }

  method ProductsLoop(net: Client.Network<Response>, url: string, handle: Option<string>,
                      ghost at: nat -> Option<seq<Product>>, ghost f: Product -> Option<seq<Row>>, ghost last: nat)
    returns (rows: Option<seq<Row>>)
    requires ProductsServe(net, url, handle, at, last)
    requires forall p {:trigger ProductRows(url, p)} :: f(p) == ProductRows(url, p)
    requires 1 <= last && Stops(at(last))
    ensures rows == PagesRows(f, at, FirstStop(at, 1, last))
  {
    var page: nat := 1;
    var all: seq<Row> := [];
    while true
      invariant 1 <= page <= last
      invariant forall q :: 1 <= q < page ==> !Stops(at(q))
      invariant Collect(f, Client.Pages(Listing(at), 1, page)) == Some(all)
      decreases last - page
    {
      var products, got := ReadProductsPage(net, url, handle, page, at, f, last, all);
      if Stops(products) {
        LoopStopped(f, at, last, page, all);
        return if products.None? then None else Some(all);
      }
      if got.None? {
        LoopRaised(f, at, last, page);
        return None;
      }
      all := all + got.value;
      page := page + 1;
    }
  }

  /** The page that ends the loop: the rows gathered so far, or `None` when that page raised. */
  lemma LoopStopped(f: Product -> Option<seq<Row>>, at: nat -> Option<seq<Product>>, last: nat, page: nat, all: seq<Row>)
    requires 1 <= page <= last && Stops(at(last)) && Stops(at(page))
    requires forall q :: 1 <= q < page ==> !Stops(at(q))
    requires Collect(f, Client.Pages(Listing(at), 1, page)) == Some(all)
    ensures PagesRows(f, at, FirstStop(at, 1, last)) == if at(page).None? then None else Some(all)
  {
    FirstStopIs(at, 1, last, page);
  }

  /** A product that raised on a page before the one that ends the loop makes the whole collection raise. */
  lemma LoopRaised(f: Product -> Option<seq<Row>>, at: nat -> Option<seq<Product>>, last: nat, page: nat)
    requires 1 <= page <= last && Stops(at(last))
    requires forall q :: 1 <= q <= page ==> !Stops(at(q))
    requires Collect(f, Client.Pages(Listing(at), 1, page + 1)).None?
    ensures PagesRows(f, at, FirstStop(at, 1, last)).None?
  {
    var n := FirstStop(at, 1, last);
    assert page < n;
    if at(n).Some? {
      PagesRowsKeepRaise(f, at, page + 1, n);
    }
  }

  // ------------------------------------------------------------ unique rows

  /** The URL of every row, in order. */
  function UrlsOf(rows: seq<Row>): seq<string>
  {
    seq(|rows|, i requires 0 <= i < |rows| => rows[i].url)
  }

  /**
   * What `unique_products` holds once `rows` were offered to it in turn: a
   * row whose URL is already a key is dropped, any other is appended.
   */
  function Firsts(rows: seq<Row>): seq<Row>
    decreases |rows|
  {
    if rows == [] then []
    else
      var front := Firsts(rows[..|rows| - 1]);
      var last := rows[|rows| - 1];
      if last.url in UrlsOf(front) then front else front + [last]
  }

  /** The position of the first row with URL `u`. */
  function FirstIndex(rows: seq<Row>, u: string): (i: nat)
    requires u in UrlsOf(rows)
    ensures i < |rows| && rows[i].url == u
    ensures forall k :: 0 <= k < i ==> rows[k].url != u
    decreases |rows|
  {
    var front := rows[..|rows| - 1];
    assert forall k :: 0 <= k < |front| ==> UrlsOf(front)[k] == rows[k].url;
    if u in UrlsOf(front) then FirstIndex(front, u) else |rows| - 1
  }

  /**
   * The kept rows have pairwise distinct URLs and the same URLs as all the
   * rows; each is the first row offered with its URL, and they keep the
   * order in which their URLs first appear.
   */
  lemma FirstsMeaning(rows: seq<Row>)
    ensures var kept := Firsts(rows);
      (forall a, b :: 0 <= a < b < |kept| ==> kept[a].url != kept[b].url)
      && (forall u :: u in UrlsOf(kept) <==> u in UrlsOf(rows))
      && (forall i :: 0 <= i < |kept| ==> kept[i].url in UrlsOf(rows) && kept[i] == rows[FirstIndex(rows, kept[i].url)])
      && (forall a, b :: 0 <= a < b < |kept| ==>
            kept[a].url in UrlsOf(rows) && kept[b].url in UrlsOf(rows)
            && FirstIndex(rows, kept[a].url) < FirstIndex(rows, kept[b].url))
  {
    FirstsDistinct(rows);
    FirstsUrls(rows);
    FirstsAreFirst(rows);
    FirstsOrder(rows);
  }

  /** The URLs of `rows` are those of all but its last row, and the last row's. */
  lemma UrlsSnoc(rows: seq<Row>)
    requires rows != []
    ensures var front := rows[..|rows| - 1];
      && (forall k :: 0 <= k < |front| ==> UrlsOf(front)[k] == rows[k].url)
      && (forall u :: u in UrlsOf(rows) <==> u in UrlsOf(front) || u == rows[|rows| - 1].url)
      && (forall u :: u in UrlsOf(front) ==> FirstIndex(rows, u) == FirstIndex(front, u))
      && (rows[|rows| - 1].url !in UrlsOf(front) ==> FirstIndex(rows, rows[|rows| - 1].url) == |rows| - 1)
  {
    var n := |rows| - 1;
    var front := rows[..n];
    assert forall k :: 0 <= k < n ==> UrlsOf(front)[k] == rows[k].url;
    assert forall k :: 0 <= k < n ==> UrlsOf(rows)[k] == UrlsOf(front)[k];
    assert UrlsOf(rows)[n] == rows[n].url;
  }

  /** Keeping a row that is not yet kept adds its URL and no other. */
  lemma UrlsAppend(ff: seq<Row>, last: Row)
    ensures UrlsOf(ff + [last]) == UrlsOf(ff) + [last.url]
    ensures forall a :: 0 <= a < |ff| ==> UrlsOf(ff)[a] == ff[a].url
  {
  }

  /** No two of `rows` share a URL. */
  predicate DistinctUrls(rows: seq<Row>)
  {
    forall a, b :: 0 <= a < b < |rows| ==> rows[a].url != rows[b].url
  }

  lemma {:induction false} FirstsDistinct(rows: seq<Row>)
    ensures DistinctUrls(Firsts(rows))
    decreases |rows|
  {
    if rows != [] {
      var n := |rows| - 1;
      FirstsDistinct(rows[..n]);
      var ff := Firsts(rows[..n]);
      UrlsAppend(ff, rows[n]);
      if rows[n].url !in UrlsOf(ff) {
        var kept := ff + [rows[n]];
        assert Firsts(rows) == kept;
        forall a, b | 0 <= a < b < |kept| ensures kept[a].url != kept[b].url {
          if b == |ff| {
            assert UrlsOf(ff)[a] == kept[a].url;
          }
        }
      }
    }
  }

  lemma {:induction false} FirstsUrls(rows: seq<Row>)
    ensures forall u :: u in UrlsOf(Firsts(rows)) <==> u in UrlsOf(rows)
    decreases |rows|
  {
    if rows != [] {
      var n := |rows| - 1;
      FirstsUrls(rows[..n]);
      UrlsSnoc(rows);
      UrlsAppend(Firsts(rows[..n]), rows[n]);
    }
  }

  /** Each of `kept` is the first of `rows` with its URL. */
  predicate FirstRows(kept: seq<Row>, rows: seq<Row>)
  {
    forall i :: 0 <= i < |kept| ==> kept[i].url in UrlsOf(rows) && kept[i] == rows[FirstIndex(rows, kept[i].url)]
  }

  /** `kept` lists its URLs in the order in which they first appear in `rows`. */
  predicate FirstOrder(kept: seq<Row>, rows: seq<Row>)
  {
    forall a, b :: 0 <= a < b < |kept| ==>
      kept[a].url in UrlsOf(rows) && kept[b].url in UrlsOf(rows)
      && FirstIndex(rows, kept[a].url) < FirstIndex(rows, kept[b].url)
  }

  lemma {:induction false} FirstsAreFirst(rows: seq<Row>)
    ensures FirstRows(Firsts(rows), rows)
    decreases |rows|
  {
    if rows != [] {
      var n := |rows| - 1;
      FirstsAreFirst(rows[..n]);
      FirstsUrls(rows[..n]);
      UrlsSnoc(rows);
      var ff := Firsts(rows[..n]);
      var kept := Firsts(rows);
      forall i | 0 <= i < |kept| ensures kept[i].url in UrlsOf(rows) && kept[i] == rows[FirstIndex(rows, kept[i].url)] {
        if i < |ff| {
          assert kept[i] == ff[i];
          assert ff[i].url in UrlsOf(rows[..n]);
        } else {
          assert kept[i] == rows[n] && rows[n].url !in UrlsOf(ff);
        }
      }
    }
  }

  lemma {:induction false} FirstsOrder(rows: seq<Row>)
    ensures FirstOrder(Firsts(rows), rows)
    decreases |rows|
  {
    if rows != [] {
      var n := |rows| - 1;
      FirstsOrder(rows[..n]);
      FirstsAreFirst(rows[..n]);
      FirstsUrls(rows[..n]);
      UrlsSnoc(rows);
      var ff := Firsts(rows[..n]);
      var kept := Firsts(rows);
      forall i | 0 <= i < |kept| ensures kept[i].url in UrlsOf(rows) && kept[i] == rows[FirstIndex(rows, kept[i].url)] {
        if i < |ff| {
          assert kept[i] == ff[i];
          assert ff[i].url in UrlsOf(rows[..n]);
        } else {
          assert kept[i] == rows[n] && rows[n].url !in UrlsOf(ff);
        }
      }
    }
  }

  /** Offering `rows` in turn to `unique_products`, whose keys are `seen` and values `kept`. */
  method AddRows(kept: seq<Row>, seen: set<string>, rows: seq<Row>, ghost before: seq<Row>)
    returns (kept': seq<Row>, seen': set<string>)
    requires kept == Firsts(before) && forall u :: u in seen <==> u in UrlsOf(kept)
    ensures kept' == Firsts(before + rows) && forall u :: u in seen' <==> u in UrlsOf(kept')
  {
    kept', seen' := kept, seen;
    assert before + rows[..0] == before;
    for k := 0 to |rows|
      invariant kept' == Firsts(before + rows[..k])
      invariant forall u :: u in seen' <==> u in UrlsOf(kept')
    {
      var row := rows[k];
      ghost var next := before + rows[..k + 1];
      assert next[..|next| - 1] == before + rows[..k] && next[|next| - 1] == row;
      if row.url !in seen' {
        assert UrlsOf(kept' + [row]) == UrlsOf(kept') + [row.url];
        kept' := kept' + [row];
        seen' := seen' + {row.url};
      }
    }
    assert rows[..|rows|] == rows;
  }

  // ------------------------------------------------------------ the collections

  /** What the main loop does with one collection: raise, skip it, or extract the products of a handle. */
  datatype Pick = Raise | Skip | Take(handle: Option<string>)

  /** `if collections`: a filter is in force when the list is given and not empty. */
  predicate Filtering(filter: Option<seq<string>>)
  {
    filter.Some? && filter.value != []
  }

  /**
   * `if collections and col['handle'] not in collections: continue`, then
   * the log line that reads `col['handle']` again: an absent handle always
   * raises, a filter skips every handle it does not list (a `null` among
   * them), and without a filter every collection is taken.
   */
  function PickOf(filter: Option<seq<string>>, c: Collection): (r: Pick)
    ensures r.Raise? <==> c.handle.Missing?
    ensures r.Skip? <==> Filtering(filter) && (c.handle.Null? || (c.handle.Val? && c.handle.value !in filter.value))
    ensures r.Take? ==> r.handle == Lookup(c.handle)
    ensures r.Take? && Filtering(filter) ==> r.handle.Some? && r.handle.value in filter.value
  {
    match c.handle
    case Missing => Raise
    case Null => if Filtering(filter) then Skip else Take(None)
    case Val(h) => if Filtering(filter) && h !in filter.value then Skip else Take(Some(h))
  }

  /** The products pages of handle `h` end, at the latest, at page `lastOf(h)`. */
  predicate Ends(net: Client.Network<Response>, url: string, lastOf: Option<string> -> nat, h: Option<string>)
  {
    1 <= lastOf(h) && Stops(ProductsAt(net, url, h)(lastOf(h)))
  }

  /** Every handle's products pages end: no products loop runs forever. */
  ghost predicate AllEnd(net: Client.Network<Response>, url: string, lastOf: Option<string> -> nat)
  {
    forall h :: Ends(net, url, lastOf, h)
  }

  /**
   * `extract_products_collection(url, h)` as a value; a handle whose pages
   * never end is read as `None`, and the methods below are not called on
   * such a store.
   */
  function CollectionRows(net: Client.Network<Response>, url: string, lastOf: Option<string> -> nat,
                          h: Option<string>): Option<seq<Row>>
  {
    if Ends(net, url, lastOf, h) then
      var at := ProductsAt(net, url, h);
      PagesRows(ProductsBuilder(url), at, FirstStop(at, 1, lastOf(h)))
    else None
  }

  /** The rows one collection of `get_page_collections` contributes, before de-duplication. */
  function CollectionStep(net: Client.Network<Response>, url: string, filter: Option<seq<string>>,
                          lastOf: Option<string> -> nat, c: Collection): Option<seq<Row>>
  {
    match PickOf(filter, c)
    case Raise => None
    case Skip => Some([])
    case Take(h) => CollectionRows(net, url, lastOf, h)
  }

  function CollectionsBuilder(net: Client.Network<Response>, url: string, filter: Option<seq<string>>,
                              lastOf: Option<string> -> nat): Collection -> Option<seq<Row>>
  {
    c => CollectionStep(net, url, filter, lastOf, c)
  }

  /** One collection of the main loop. */
  method ReadCollection(net: Client.Network<Response>, url: string, filter: Option<seq<string>>, c: Collection,
                        ghost lastOf: Option<string> -> nat)
    returns (got: Option<seq<Row>>)
    requires AllEnd(net, url, lastOf)
    ensures got == CollectionStep(net, url, filter, lastOf, c)
  {
    var pick := PickOf(filter, c);
    match pick
    case Raise => got := None;
    case Skip => got := Some([]);
    case Take(h) =>
      assert Ends(net, url, lastOf, h);
      got := ExtractProductsCollection(net, url, h, lastOf(h));
  }

  /**
   * The main loop over the collections: each one's rows offered in turn to
   * `unique_products`; `None` as soon as one collection raises.
   */
  method GatherLoop(net: Client.Network<Response>, url: string, filter: Option<seq<string>>, cols: seq<Collection>,
                    ghost lastOf: Option<string> -> nat, ghost f: Collection -> Option<seq<Row>>)
    returns (unique: Option<seq<Row>>)
    requires AllEnd(net, url, lastOf)
    requires forall c {:trigger CollectionStep(net, url, filter, lastOf, c)} :: f(c) == CollectionStep(net, url, filter, lastOf, c)
    ensures unique == var g := Collect(f, cols); if g.None? then None else Some(Firsts(g.value))
  {
    var kept: seq<Row> := [];
    var seen: set<string> := {};
    ghost var all: seq<Row> := [];
    for k := 0 to |cols|
      invariant Collect(f, cols[..k]) == Some(all)
      invariant kept == Firsts(all) && forall u :: u in seen <==> u in UrlsOf(kept)
    {
      CollectSnoc(f, cols, k);
      var got := ReadCollection(net, url, filter, cols[k], lastOf);
      if got.None? {
        CollectStops(f, cols, k + 1);
        return None;
      }
      kept, seen := AddRows(kept, seen, got.value, all);
      all := all + got.value;
    }
    assert cols[..|cols|] == cols;
    unique := Some(kept);
  }

  // ------------------------------------------------------------ the images

  /** Opening `folder/name` for writing fails when the name is the folder itself or its parent. */
  predicate IsDirName(name: string)
  {
    name == "" || name == "." || name == ".."
  }

  /**
   * `download_image(url, folder)`: the outer `None` is a raise, the inner
   * is the function's `None`. An empty URL and a failed request give
   * `None`; a URL whose last path segment names a folder makes `open`
   * raise; otherwise the file is named by that segment.
   */
  function DownloadImage(fetch: string -> bool, url: string): (r: Option<Option<string>>)
    ensures r.None? <==> url != [] && fetch(url) && IsDirName(LastSegment(url))
    ensures r == Some(None) <==> url == [] || !fetch(url)
    ensures r.Some? && r.value.Some? ==>
      r.value.value == LastSegment(url) && r.value.value != [] && '/' !in r.value.value
  {
    if url == [] then Some(None)
    else if !fetch(url) then Some(None)
    else
      var name := LastSegment(url);
      if IsDirName(name) then None else Some(Some(name))
  }

  /**
   * One future of the thread pool: a row with a truthy `IMGURL` gets the
   * downloaded file name, when there is one; `None` when its download
   * raised. Nothing but `IMAGE_FILENAME` changes.
   */
  function Attach(fetch: string -> bool, row: Row): (r: Option<Row>)
    ensures r.None? <==> Truthy(row.imgUrl) && DownloadImage(fetch, row.imgUrl.value).None?
    ensures r.Some? ==> r.value.(imageFilename := row.imageFilename) == row
    ensures r.Some? && Truthy(row.imgUrl) && DownloadImage(fetch, row.imgUrl.value).value.Some? ==>
      r.value.imageFilename == DownloadImage(fetch, row.imgUrl.value).value
    ensures r.Some? && !(Truthy(row.imgUrl) && DownloadImage(fetch, row.imgUrl.value).value.Some?) ==>
      r.value == row
  {
    if !Truthy(row.imgUrl) then Some(row)
    else
      var d := DownloadImage(fetch, row.imgUrl.value);
      if d.None? then None
      else if d.value.Some? then Some(row.(imageFilename := d.value))
      else Some(row)
  }

  function AttachStep(fetch: string -> bool): Row -> Option<seq<Row>>
  {
    row => var r := Attach(fetch, row); if r.None? then None else Some([r.value])
  }

  /**
   * The image phase: every unique row with a truthy `IMGURL` has its image
   * downloaded and named; `None` when a download raised. Completion order
   * does not matter, as each future updates its own row.
   */
  method DownloadImages(rows: seq<Row>, fetch: string -> bool) returns (r: Option<seq<Row>>)
    ensures r == Collect(AttachStep(fetch), rows)
  {
    var f := AttachStep(fetch);
    var done: seq<Row> := [];
    for k := 0 to |rows|
      invariant Collect(f, rows[..k]) == Some(done)
    {
      CollectSnoc(f, rows, k);
      var a := Attach(fetch, rows[k]);
      if a.None? {
        CollectStops(f, rows, k + 1);
        return None;
      }
      done := done + [a.value];
    }
    assert rows[..|rows|] == rows;
    r := Some(done);
  }

  /**
   * The image phase raises exactly when one row's download does; otherwise
   * it yields the rows in their order, each differing from its original in
   * `IMAGE_FILENAME` at most.
   */
  lemma DownloadImagesMeaning(rows: seq<Row>, fetch: string -> bool)
    ensures Collect(AttachStep(fetch), rows).Some? <==> forall i :: 0 <= i < |rows| ==> Attach(fetch, rows[i]).Some?
    ensures Collect(AttachStep(fetch), rows).Some? ==>
      var out := Collect(AttachStep(fetch), rows).value;
      |out| == |rows|
      && forall i :: 0 <= i < |rows| ==>
        out[i] == Attach(fetch, rows[i]).value && out[i].(imageFilename := rows[i].imageFilename) == rows[i]
  {
    var f := AttachStep(fetch);
    CollectSome(f, rows);
    assert forall i :: 0 <= i < |rows| ==> (f(rows[i]).Some? <==> Attach(fetch, rows[i]).Some?);
    if Collect(f, rows).Some? && rows != [] {
      CollectSingles(f, rows, 0);
      forall i | 0 <= i < |rows|
        ensures Collect(f, rows).value[i] == Attach(fetch, rows[i]).value
      {
        CollectSingles(f, rows, i);
      }
    }
  }

  // ------------------------------------------------------------ the run

  /**
   * What a run leaves: the CSV written after the extraction, and the CSV
   * rewritten after the image downloads (`None` when a download raised
   * and the rewrite never happened).
   */
  datatype Export = Export(written: seq<Row>, updated: Option<seq<Row>>)

  /** The unique rows of the selected collections, or `None` when the extraction raised. */
  function UniqueRows(net: Client.Network<Response>, url: string, filter: Option<seq<string>>,
                      lastCols: nat, lastOf: Option<string> -> nat): Option<seq<Row>>
    requires 1 <= lastCols && Stops(CollectionsAt(net, url)(lastCols))
  {
    var at := CollectionsAt(net, url);
    var cols := Yielded(at, FirstStop(at, 1, lastCols));
    if cols.None? then None
    else
      var g := Collect(CollectionsBuilder(net, url, filter, lastOf), cols.value);
      if g.None? then None else Some(Firsts(g.value))
  }

  function Exported(net: Client.Network<Response>, url: string, filter: Option<seq<string>>, fetch: string -> bool,
                    lastCols: nat, lastOf: Option<string> -> nat): Option<Export>
    requires 1 <= lastCols && Stops(CollectionsAt(net, url)(lastCols))
  {
    var u := UniqueRows(net, url, filter, lastCols, lastOf);
    if u.None? then None else Some(Export(u.value, Collect(AttachStep(fetch), u.value)))
  }

  /**
   * `extract_products(url, collections)`: the collections, the rows of the
   * selected ones made unique by URL and written, then the images
   * downloaded and the rows written again. `lastCols` and `lastOf` are
   * pages on which the collection listing and each products listing end.
   */
  method ExtractProducts(net: Client.Network<Response>, url: string, filter: Option<seq<string>>, fetch: string -> bool,
                         ghost lastCols: nat, ghost lastOf: Option<string> -> nat)
    returns (r: Option<Export>)
    requires 1 <= lastCols && Stops(CollectionsAt(net, url)(lastCols)) && AllEnd(net, url, lastOf)
    ensures r == Exported(net, url, filter, fetch, lastCols, lastOf)
  {
    var cols := GetPageCollections(net, url, lastCols);
    if cols.None? {
      return None;
    }
    var unique := GatherLoop(net, url, filter, cols.value, lastOf, CollectionsBuilder(net, url, filter, lastOf));
    if unique.None? {
      return None;
    }
    var updated := DownloadImages(unique.value, fetch);
    r := Some(Export(unique.value, updated));
  }

  /**
   * A CSV as written and as rewritten: pairwise distinct URLs, and a
   * rewrite, when there is one, with the same rows in the same order and at
   * most their image file names filled in.
   */
  predicate SoundExport(e: Export)
  {
    (forall a, b :: 0 <= a < b < |e.written| ==> e.written[a].url != e.written[b].url)
    && (e.updated.Some? ==>
          |e.updated.value| == |e.written|
          && forall i :: 0 <= i < |e.written| ==>
               e.updated.value[i].(imageFilename := e.written[i].imageFilename) == e.written[i])
  }

  /** Making any rows unique by URL and downloading their images gives a sound export. */
  lemma FirstsExportSound(rows: seq<Row>, fetch: string -> bool)
    ensures SoundExport(Export(Firsts(rows), Collect(AttachStep(fetch), Firsts(rows))))
  {
    FirstsMeaning(rows);
    DownloadImagesMeaning(Firsts(rows), fetch);
  }

  /** Every run that gets as far as writing the CSV leaves a sound export. */
  lemma ExportedMeaning(net: Client.Network<Response>, url: string, filter: Option<seq<string>>, fetch: string -> bool,
                        lastCols: nat, lastOf: Option<string> -> nat)
    requires 1 <= lastCols && Stops(CollectionsAt(net, url)(lastCols))
    ensures Exported(net, url, filter, fetch, lastCols, lastOf).Some? ==>
              SoundExport(Exported(net, url, filter, fetch, lastCols, lastOf).value)
  {
    var u := UniqueRows(net, url, filter, lastCols, lastOf);
    if u.Some? {
      var at := CollectionsAt(net, url);
      var cols := Yielded(at, FirstStop(at, 1, lastCols));
      var g := Collect(CollectionsBuilder(net, url, filter, lastOf), cols.value);
      assert u.value == Firsts(g.value);
      FirstsExportSound(g.value, fetch);
      assert Exported(net, url, filter, fetch, lastCols, lastOf).value
          == Export(Firsts(g.value), Collect(AttachStep(fetch), Firsts(g.value)));
    }
  }
}
