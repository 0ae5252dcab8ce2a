/**
 * The stand-alone Zbozi script (`zbozi_feed.py`): a recursive retry, page
 * loops for collections and products, and `SHOPITEM` items that match the
 * package generator's but for the description (this script's cleaner) and
 * `CUSTOM_LABEL_0`. Its text cleaner is the Bing script's, character for
 * character, and its URL check is the package's.
 */
module ZboziLegacy {
  import opened Values
  import opened Text
  import opened Numbers
  import opened Catalog
  import opened FeedItems
  import Client
  import Bing
  import Zbozi
  import BingLegacy
  import Google

  const MaxRetries := 3
  const RetryDelay := 180
  const UserAgent := BingLegacy.UserAgent

  /** `CUSTOM_LABEL_0` of this script. */
  const CustomLabel := "Listnato"

  function RequestFor(url: string): Client.Request
  {
    Client.Request(url, UserAgent)
  }

  // ------------------------------------------------------------ the network

  /**
   * `make_request(url, retry_count)`: attempt number `retryCount`, then on
   * failure one sleep and a recursive call with the count increased, as
   * long as the count is below `MAX_RETRIES`; the body and the sleeps taken.
   */
  function MakeRequest<B>(net: Client.Network<B>, url: string, retryCount: nat): (Option<B>, nat)
    decreases if retryCount < MaxRetries then MaxRetries - retryCount else 0
  {
    var response := net(RequestFor(url), retryCount);
    if response.Some? then (response, 0)
    else if retryCount < MaxRetries then
      var rest := MakeRequest(net, url, retryCount + 1);
      (rest.0, rest.1 + 1)
    else (None, 0)
  }

  /**
   * From count `k`, the recursion returns the first success among attempts
   * `k` .. `MAX_RETRIES`, having slept once per failure before it; when all
   * fail it has slept once per retry.
   */
  lemma {:induction false} MakeRequestFrom<B>(net: Client.Network<B>, url: string, k: nat)
    requires k <= MaxRetries
    ensures var f := Client.FirstSuccess(net, RequestFor(url), MaxRetries + 1, k);
      var r := MakeRequest(net, url, k);
      r.0 == (if f.Some? then net(RequestFor(url), f.value) else None)
      && r.1 == (if f.Some? then f.value - k else MaxRetries - k)
    decreases MaxRetries - k
  {
    if net(RequestFor(url), k).None? && k < MaxRetries {
      MakeRequestFrom(net, url, k + 1);
    }
  }

  /**
   * `make_request(url)`: `MAX_RETRIES + 1` attempts in all, the first
   * success returned; `k` failures before it cost `k` sleeps, and when all
   * fail the result is `None` after `MAX_RETRIES` sleeps.
   */
  lemma MakeRequestAttempts<B>(net: Client.Network<B>, url: string)
    ensures var r := MakeRequest(net, url, 0);
      r.0 == Client.Fetch(net, RequestFor(url), MaxRetries + 1)
      && (r.0.None? ==> r.1 == MaxRetries)
      && (r.0.Some? ==> r.1 <= MaxRetries && r.0 == net(RequestFor(url), r.1)
                        && forall j :: 0 <= j < r.1 ==> net(RequestFor(url), j).None?)
  {
    MakeRequestFrom(net, url, 0);
  }

  /** The body `make_request` returns for `url`. */
  function Fetched<B>(net: Client.Network<B>, url: string): Option<B>
  {
    MakeRequest(net, url, 0).0
  }

  // ------------------------------------------------------------ the pages

  /** The loop of the page generators: pages 1, 2, ... until the first that lists nothing. */
  method ListPages<T>(urlOf: nat -> string, at: nat -> seq<T>, ghost last: nat)
    returns (items: seq<T>, requested: seq<string>)
    requires 1 <= last && at(last) == []
    ensures |requested| >= 1
    ensures forall i :: 0 <= i < |requested| ==> requested[i] == urlOf(i + 1)
    ensures at(|requested|) == []
    ensures forall p: nat :: 1 <= p < |requested| ==> at(p) != []
    ensures items == Client.Pages(at, 1, |requested|)
  {
    var page: nat := 1;
    items, requested := [], [];
    while true
      invariant 1 <= page <= last && |requested| == page - 1
      invariant forall i :: 0 <= i < |requested| ==> requested[i] == urlOf(i + 1)
      invariant forall p: nat :: 1 <= p < page ==> at(p) != []
      invariant Client.Pages(at, 1, page) == items
      decreases last - page
    {
      requested := requested + [urlOf(page)];
      var listed := at(page);
      if listed == [] {
        return;
      }
      items := items + listed;
      page := page + 1;
    }
  }

  /** `get_page(url, page, collection)`'s URL: the collection's products when one is named, else all products. */
  function PageUrl(url: string, page: nat, collection: Option<string>): string
  {
    if Truthy(collection) then url + "/collections/" + collection.value + "/products.json?page=" + NatToString(page)
    else url + "/products.json?page=" + NatToString(page)
  }

  function PageUrls(url: string, collection: Option<string>): nat -> string
  {
    (p: nat) => PageUrl(url, p, collection)
  }

  /** What `extract_products_collection` takes from each page: `data["products"]` when `data and data.get("products")`. */
  function ProductsAt(net: Client.Network<Response>, url: string, collection: Option<string>): nat -> seq<Product>
  {
    (p: nat) => Client.Listed(Fetched(net, PageUrl(url, p, collection)), Client.ProductsKey)
  }

  /** `extract_products_collection(url, collection)`: the products of every page before the first empty one. */
  method ExtractProductsCollection(net: Client.Network<Response>, url: string, collection: Option<string>,
                                   ghost last: nat)
    returns (products: seq<Product>, requested: seq<string>)
    requires 1 <= last && ProductsAt(net, url, collection)(last) == []
    ensures |requested| >= 1
    ensures forall i :: 0 <= i < |requested| ==> requested[i] == PageUrl(url, i + 1, collection)
    ensures ProductsAt(net, url, collection)(|requested|) == []
    ensures forall p: nat :: 1 <= p < |requested| ==> ProductsAt(net, url, collection)(p) != []
    ensures products == Client.Pages(ProductsAt(net, url, collection), 1, |requested|)
  {
    products, requested := ListPages(PageUrls(url, collection), ProductsAt(net, url, collection), last);
  }

  /** `/collections.json?page=n`. */
  function CollectionsRef(page: nat): string
  {
    "/collections.json?page=" + NatToString(page)
  }

  /** The URL `get_page_collections` requests for page `n` as written: each page's reference appended to the last URL. */
  function AccumulatedUrl(url: string, n: nat): string
  {
    if n == 0 then url else AccumulatedUrl(url, n - 1) + CollectionsRef(n)
  }

  /** The pages the loop as written lists: page `p`'s listing is read from the accumulated URL. */
  function AccumulatedAt<T>(list: string -> seq<T>, url: string): nat -> seq<T>
  {
    (p: nat) => list(AccumulatedUrl(url, p))
  }

  /** What `get_page_collections` takes from one URL's response: `data["collections"]` when truthy. */
  function CollectionsOf(net: Client.Network<Response>): string -> seq<Collection>
  {
    u => Client.Listed(Fetched(net, u), Client.CollectionsKey)
  }

  /**
   * `get_page_collections(url)` as written (zbozi_feed.py:76-86): the loop
   * rebinds `url`, so each request extends the previous URL.
   */
  method GetPageCollectionsAsWritten(net: Client.Network<Response>, url: string, ghost last: nat)
    returns (collections: seq<Collection>, requested: seq<string>)
    requires 1 <= last && AccumulatedAt(CollectionsOf(net), url)(last) == []
    ensures |requested| >= 1
    ensures forall i :: 0 <= i < |requested| ==> requested[i] == AccumulatedUrl(url, i + 1)
    ensures AccumulatedAt(CollectionsOf(net), url)(|requested|) == []
    ensures forall p: nat :: 1 <= p < |requested| ==> AccumulatedAt(CollectionsOf(net), url)(p) != []
    ensures collections == Client.Pages(AccumulatedAt(CollectionsOf(net), url), 1, |requested|)
  {
    collections, requested := AccumulatedPages(CollectionsOf(net), url, last);
  }

  /** The loop of `get_page_collections` as written, over any listing of a URL. */
  method AccumulatedPages<T>(list: string -> seq<T>, url: string, ghost last: nat)
    returns (items: seq<T>, requested: seq<string>)
    requires 1 <= last && list(AccumulatedUrl(url, last)) == []
    ensures |requested| >= 1
    ensures forall i :: 0 <= i < |requested| ==> requested[i] == AccumulatedUrl(url, i + 1)
    ensures AccumulatedAt(list, url)(|requested|) == []
    ensures forall p: nat :: 1 <= p < |requested| ==> AccumulatedAt(list, url)(p) != []
    ensures items == Client.Pages(AccumulatedAt(list, url), 1, |requested|)
  {
    ghost var at := AccumulatedAt(list, url);
    ghost var urlOf := (p: nat) => AccumulatedUrl(url, p);
    var page: nat := 1;
    var current := url;
    items, requested := [], [];
    while true
      invariant 1 <= page <= last && |requested| == page - 1
      invariant current == AccumulatedUrl(url, page - 1)
      invariant Client.RequestsPages(requested, urlOf)
      invariant Client.ListedBefore(at, page)
      invariant Client.Pages(at, 1, page) == items
      decreases last - page
    {
      current := current + CollectionsRef(page);
      assert current == urlOf(page);
      Client.UrlsSnoc(requested, current, urlOf, page);
      requested := requested + [current];
      var listed := list(current);
      assert listed == at(page);
      if listed == [] {
        return;
      }
      Client.ListedNext(at, page);
      items := items + listed;
      page := page + 1;
    }
  }

  /** The second request of the loop as written carries both pages' references. */
  lemma AccumulatedSecondPage(url: string)
    ensures AccumulatedUrl(url, 1) == url + CollectionsRef(1)
    ensures AccumulatedUrl(url, 2) == url + "/collections.json?page=1" + "/collections.json?page=2"
    ensures AccumulatedUrl(url, 2) != url + CollectionsRef(2)
  {
    assert CollectionsRef(1) == "/collections.json?page=1";
    assert CollectionsRef(2) == "/collections.json?page=2";
    assert AccumulatedUrl(url, 1) == url + CollectionsRef(1);
    assert AccumulatedUrl(url, 2) == url + CollectionsRef(1) + CollectionsRef(2);
    assert |AccumulatedUrl(url, 2)| != |url + CollectionsRef(2)|;
  }

  function CollectionsUrls(url: string): nat -> string
  {
    (p: nat) => url + CollectionsRef(p)
  }

  function CollectionsAt(net: Client.Network<Response>, url: string): nat -> seq<Collection>
  {
    (p: nat) => Client.Listed(Fetched(net, url + CollectionsRef(p)), Client.CollectionsKey)
  }

  /** `get_page_collections(url)` as intended: page `n` is requested at the store URL plus `/collections.json?page=n`. */
  method GetPageCollections(net: Client.Network<Response>, url: string, ghost last: nat)
    returns (collections: seq<Collection>, requested: seq<string>)
    requires 1 <= last && CollectionsAt(net, url)(last) == []
    ensures |requested| >= 1
    ensures forall i :: 0 <= i < |requested| ==> requested[i] == url + CollectionsRef(i + 1)
    ensures CollectionsAt(net, url)(|requested|) == []
    ensures forall p: nat :: 1 <= p < |requested| ==> CollectionsAt(net, url)(p) != []
    ensures collections == Client.Pages(CollectionsAt(net, url), 1, |requested|)
  {
    collections, requested := ListPages(CollectionsUrls(url), CollectionsAt(net, url), last);
  }

  // ------------------------------------------------------------ the items

  /** The literal (zbozi_feed.py:108-134): this script's description and label. */
  function Required(storeUrl: string, p: Product, v: Variant): Option<Item>
  {
    Zbozi.Labelled(storeUrl, p, v, BingLegacy.Description(p), CustomLabel)
  }

  /** The item of one variant: the literal, then the same optional fields as the package's. */
  function VariantItem(storeUrl: string, p: Product, v: Variant): Option<seq<Item>>
  {
    var req, name := Required(storeUrl, p, v), Zbozi.ProductName(p, v);
    if req.None? || name.None? then None
    else
      var opt := Zbozi.Optional(p, v, name.value);
      if opt.None? then None else Some([req.value + opt.value])
  }

  function Builder(storeUrl: string, p: Product): Variant -> Option<seq<Item>>
  {
    v => VariantItem(storeUrl, p, v)
  }

  /** `process_product(product, base_url)`: `product["variants"]` must be a list; one item per variant. */
  function ProductItems(storeUrl: string, p: Product): Option<seq<Item>>
  {
    if !p.variants.Val? then None else Collect(Builder(storeUrl, p), p.variants.value)
  }

  function ProductsBuilder(storeUrl: string): Product -> Option<seq<Item>>
  {
    p => ProductItems(storeUrl, p)
  }

  /** `a` and `b` have the same length and agree everywhere but at `DESCRIPTION` (1) and `CUSTOM_LABEL_0` (17), which hold `d` and `l` in `a`. */
  predicate SwappedAt(a: Item, b: Item, d: string, l: string)
  {
    |a| == |b| && 17 < |a| && a[1] == ("DESCRIPTION", Scalar(Some(d))) && a[17] == ("CUSTOM_LABEL_0", Scalar(Some(l)))
    && forall i :: 0 <= i < |a| && i != 1 && i != 17 ==> a[i] == b[i]
  }

  /** Swapping description and label of a literal changes entries 1 and 17 and nothing else. */
  lemma LiteralSwap(name: Option<string>, d1: string, d2: string, url: string, price: string, image: Option<string>,
                    itemId: string, groupId: string, product: Option<string>, vendor: Option<string>,
                    category: string, ean: Option<string>, productNo: string, productType: Option<string>,
                    tags: string, l1: string, l2: string, rest: Item)
    ensures SwappedAt(Zbozi.Literal(name, d1, url, price, image, itemId, groupId, product, vendor, category, ean,
                                    productNo, productType, tags, l1) + rest,
                      Zbozi.Literal(name, d2, url, price, image, itemId, groupId, product, vendor, category, ean,
                                    productNo, productType, tags, l2) + rest, d1, l1)
  {
  }

  /** The literal raises for both descriptions and labels or for neither, and otherwise differs only at 1 and 17. */
  lemma LabelledSwap(storeUrl: string, p: Product, v: Variant, d1: string, l1: string, d2: string, l2: string,
                     rest: Item)
    ensures Zbozi.Labelled(storeUrl, p, v, d1, l1).Some? <==> Zbozi.Labelled(storeUrl, p, v, d2, l2).Some?
    ensures Zbozi.Labelled(storeUrl, p, v, d1, l1).Some? ==>
              SwappedAt(Zbozi.Labelled(storeUrl, p, v, d1, l1).value + rest,
                        Zbozi.Labelled(storeUrl, p, v, d2, l2).value + rest, d1, l1)
  {
    var name, url, price := Zbozi.ProductName(p, v), Bing.Link(storeUrl, p, v), Bing.WholeNumber(v.price);
    var image, itemId, groupId := Bing.ImageLink(p), Bing.IdField(v.id), Bing.IdField(p.id);
    var category, productNo, tags := Zbozi.CategoryText(p), Zbozi.ProductNo(p, v), Zbozi.TagsLabel(p);
    if Zbozi.Labelled(storeUrl, p, v, d1, l1).Some? {
      LiteralSwap(name.value, d1, d2, url.value, price.value, image.value, itemId.value, groupId.value,
                  Lookup(p.title), Get(p.vendor, ""), category.value, Get(v.barcode, ""), productNo.value,
                  Get(p.productType, ""), tags.value, l1, l2, rest);
    }
  }

  /**
   * The script and the package map a variant alike but for two entries:
   * both raise or neither does, and the items differ only at `DESCRIPTION`
   * (this script's cleaner) and `CUSTOM_LABEL_0` (`"Listnato"`).
   */
  lemma AgreesWithPackage(storeUrl: string, p: Product, v: Variant)
    ensures VariantItem(storeUrl, p, v).Some? <==> Zbozi.VariantItem(storeUrl, p, v).Some?
    ensures VariantItem(storeUrl, p, v).Some? ==>
              SwappedAt(VariantItem(storeUrl, p, v).value[0], Zbozi.VariantItem(storeUrl, p, v).value[0],
                        BingLegacy.Description(p), CustomLabel)
  {
    var name := Zbozi.ProductName(p, v);
    if name.Some? {
      var rest := Zbozi.Optional(p, v, name.value);
      if rest.Some? {
        var mine, theirs := Required(storeUrl, p, v), Zbozi.Required(storeUrl, p, v);
        LabelledSwap(storeUrl, p, v, BingLegacy.Description(p), CustomLabel, Bing.Description(p), Zbozi.PackageLabel,
                     rest.value);
        assert VariantItem(storeUrl, p, v) == if mine.Some? then Some([mine.value + rest.value]) else None;
        assert Zbozi.VariantItem(storeUrl, p, v) == if theirs.Some? then Some([theirs.value + rest.value]) else None;
      }
    }
  }

  /** One variant's item: the literal, then the assignments in source order. */
  method BuildVariant(storeUrl: string, p: Product, v: Variant) returns (r: Option<seq<Item>>)
    ensures r == VariantItem(storeUrl, p, v)
  {
    var req, name := Required(storeUrl, p, v), Zbozi.ProductName(p, v);
    if req.None? || name.None? {
      return None;
    }
    var sale, images := Zbozi.SaleEntry(v), Zbozi.ImagesEntry(p);
    if sale.None? || images.None? {
      return None;
    }
    var params := Zbozi.BuildParams(p, v, name.value);
    if params.None? {
      return None;
    }
    Zbozi.LabelledKeys(storeUrl, p, v, BingLegacy.Description(p), CustomLabel);
    var it := AssignOptional(req.value, p, v, params.value);
    r := Some([it]);
  }

  /**
   * The assignments after the literal (zbozi_feed.py:136-199):
   * `PRICE_BEFORE_DISCOUNT`, the `IMGURL_ALTERNATIVE` append loop, the
   * `DELIVERY` loop, then `PARAM`.
   */
  method AssignOptional(a: Item, p: Product, v: Variant, params: seq<Atom>) returns (it: Item)
    requires Keys(a) == Zbozi.RequiredNames
    requires Zbozi.SaleEntry(v).Some? && Zbozi.ImagesEntry(p).Some?
    ensures it == a + (Zbozi.SaleEntry(v).value + Zbozi.ImagesEntry(p).value
                       + [("DELIVERY", Zbozi.DeliveryGroup(Zbozi.DefaultDelivery[|Zbozi.DefaultDelivery| - 1]))]
                       + [("PARAM", List(params))])
  {
    Zbozi.OptionalNotRequired();
    ghost var sale, images := Zbozi.SaleEntry(v).value, Zbozi.ImagesEntry(p).value;
    ghost var delivery: Item := [("DELIVERY", Zbozi.DeliveryGroup(Zbozi.DefaultDelivery[|Zbozi.DefaultDelivery| - 1]))];
    it := Zbozi.AssignSale(a, v);
    KeyAfter(a, sale, ["PRICE_BEFORE_DISCOUNT"], "IMGURL_ALTERNATIVE");
    KeyAfter(a, sale, ["PRICE_BEFORE_DISCOUNT"], "DELIVERY");
    KeyAfter(a, sale, ["PRICE_BEFORE_DISCOUNT"], "PARAM");
    ghost var b := it;
    it := AppendAlternatives(it, p);
    KeyAfter(b, images, ["IMGURL_ALTERNATIVE"], "DELIVERY");
    KeyAfter(b, images, ["IMGURL_ALTERNATIVE"], "PARAM");
    ghost var c := it;
    it := Zbozi.AssignDelivery(it);
    KeyAfter(c, delivery, ["DELIVERY"], "PARAM");
    PutNew(it, "PARAM", List(params));
    it := Put(it, "PARAM", List(params));
    Zbozi.OptionalAssoc(a, sale, images, delivery, [("PARAM", List(params))]);
  }

  /**
   * The `IMGURL_ALTERNATIVE` loop: on the first pass the key is created with
   * an empty list, and every pass appends one image's `src`; the list ends
   * up holding every image after the first, in order.
   */
  method AppendAlternatives(b: Item, p: Product) returns (it: Item)
    requires "IMGURL_ALTERNATIVE" !in Keys(b) && Zbozi.ImagesEntry(p).Some?
    ensures it == b + Zbozi.ImagesEntry(p).value
  {
    it := b;
    if p.images.Val? && |p.images.value| > 1 {
      var rest := p.images.value[1..];
      ghost var links := Google.Sources(rest).value;
      var alternatives: seq<Atom> := [];
      for j := 0 to |rest|
        invariant |alternatives| == j && forall i :: 0 <= i < j ==> alternatives[i] == Str(links[i])
        invariant j == 0 ==> it == b
        invariant j > 0 ==> it == b + [("IMGURL_ALTERNATIVE", List(alternatives))]
      {
        if j > 0 {
          KeysAppend(b, [("IMGURL_ALTERNATIVE", List(alternatives))]);
        }
        if "IMGURL_ALTERNATIVE" !in Keys(it) {
          PutNew(it, "IMGURL_ALTERNATIVE", List([]));
          it := Put(it, "IMGURL_ALTERNATIVE", List([]));
        }
        PutLast(b, "IMGURL_ALTERNATIVE", List(alternatives), List(alternatives + [Str(Lookup(rest[j].src))]));
        alternatives := alternatives + [Str(Lookup(rest[j].src))];
        it := Put(it, "IMGURL_ALTERNATIVE", List(alternatives));
      }
      assert alternatives == Google.Atoms(links);
    }
  }

  /** `process_product`: the loop over the variants, appending each one's item. */
  method ProcessProduct(storeUrl: string, p: Product) returns (r: Option<seq<Item>>)
    ensures r == ProductItems(storeUrl, p)
  {
    if !p.variants.Val? {
      return None;
    }
    var vs := p.variants.value;
    var items: seq<Item> := [];
    var k := 0;
    while k < |vs|
      invariant 0 <= k <= |vs|
      invariant Collect(Builder(storeUrl, p), vs[..k]) == Some(items)
    {
      var it := BuildVariant(storeUrl, p, vs[k]);
      CollectSnoc(Builder(storeUrl, p), vs, k);
      if it.None? {
        CollectStops(Builder(storeUrl, p), vs, k + 1);
        return None;
      }
      items := items + it.value;
      k := k + 1;
    }
    assert vs[..k] == vs;
    r := Some(items);
  }

  /** `process_collection(url, collection)` on the products it extracted: every product's items; a raise ends it. */
  method ProcessCollection(storeUrl: string, products: seq<Product>) returns (r: Option<seq<Item>>)
    ensures r == Collect(ProductsBuilder(storeUrl), products)
  {
    var all: seq<Item> := [];
    var i := 0;
    while i < |products|
      invariant 0 <= i <= |products|
      invariant Collect(ProductsBuilder(storeUrl), products[..i]) == Some(all)
    {
      var items := ProcessProduct(storeUrl, products[i]);
      CollectSnoc(ProductsBuilder(storeUrl), products, i);
      if items.None? {
        CollectStops(ProductsBuilder(storeUrl), products, i + 1);
        return None;
      }
      all := all + items.value;
      i := i + 1;
    }
    assert products[..i] == products;
    r := Some(all);
  }
}
