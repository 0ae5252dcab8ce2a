/**
 * The storefront client (`shopify_to_feeds/scraper/shopify_client.py`): GET
 * requests retried a bounded number of times, and the three paginated
 * listings that walk `?page=1, 2, ...` until the first page with nothing.
 *
 * The network is a parameter: `net(req, n)` is the decoded body of attempt
 * `n` (from 0) of the request, or `None` when that attempt fails (no
 * connection, a timeout, an error status). Sleeping is counted, not timed.
 */
module Client {
  import opened Values
  import opened Text
  import opened Numbers
  import opened Urls
  import opened Catalog

  const DefaultUserAgent := "Mozilla/5.0 (Macintosh; Intel Mac OS X 10_9_3) "
    + "AppleWebKit/537.36 (KHTML, like Gecko) Chrome/35.0.1916.47 Safari/537.36"
  const DefaultMaxRetries := 3
  const DefaultRetryDelay := 180

  /** A GET request: the URL and the `User-Agent` header it carries. */
  datatype Request = Request(url: string, userAgent: string)

  type Network<B> = (Request, nat) -> Option<B>

  /** `range(max_retries)` has no element for a negative count. */
  function Tries(maxRetries: int): nat
  {
    if maxRetries < 0 then 0 else maxRetries
  }

  /** The first attempt in `[k, tries)` that succeeds, if any. */
  function FirstSuccess<B>(net: Network<B>, req: Request, tries: nat, k: nat): (r: Option<nat>)
    ensures r.Some? ==> k <= r.value < tries && net(req, r.value).Some?
    ensures forall j :: k <= j < tries && (r.None? || j < r.value) ==> net(req, j).None?
    decreases tries - k
  {
    if k >= tries then None
    else if net(req, k).Some? then Some(k)
    else FirstSuccess(net, req, tries, k + 1)
  }

  /** What `_make_request` returns: the body of the first successful attempt, `None` when all fail. */
  function Fetch<B>(net: Network<B>, req: Request, tries: nat): (r: Option<B>)
    ensures r.None? <==> forall k :: 0 <= k < tries ==> net(req, k).None?
    ensures r.Some? ==> exists k :: 0 <= k < tries && net(req, k) == r
  {
    var first := FirstSuccess(net, req, tries, 0);
    if first.Some? then net(req, first.value) else None
  }

  /** A reference `urljoin` resolves against the store: an absolute path. */
  predicate AbsolutePath(ref: string)
  {
    StartsWith(ref, "/") && !StartsWith(ref, "//")
  }

  function CollectionsRef(page: nat): (r: string)
    ensures AbsolutePath(r)
  {
    var r := "/collections.json?page=" + NatToString(page);
    assert r[..1] == "/" && r[1] == 'c';
    r
  }

  function CollectionProductsRef(handle: string, page: nat): (r: string)
    ensures AbsolutePath(r)
  {
    var r := "/collections/" + handle + "/products.json?page=" + NatToString(page);
    assert r[..1] == "/" && r[1] == 'c';
    r
  }

  function AllProductsRef(page: nat): (r: string)
    ensures AbsolutePath(r)
  {
    var r := "/products.json?page=" + NatToString(page) + "&limit=250";
    assert r[..1] == "/" && r[1] == 'p';
    r
  }

  function ShopInfoRef(): (r: string)
    ensures AbsolutePath(r)
  {
    var r := "/products.json?limit=1";
    assert r[..1] == "/" && r[1] == 'p';
    r
  }

  /** The three paginated listings. */
  datatype Listing = Collections | CollectionProducts(handle: string) | AllProducts

  /** The reference a listing requests for page `page`. */
  function ListingRef(l: Listing, page: nat): (r: string)
    ensures AbsolutePath(r)
  {
    match l
    case Collections => CollectionsRef(page)
    case CollectionProducts(h) => CollectionProductsRef(h, page)
    case AllProducts => AllProductsRef(page)
  }

  function CollectionsKey(r: Response): Field<seq<Collection>>
  {
    r.collections
  }

  function ProductsKey(r: Response): Field<seq<Product>>
  {
    r.products
  }

  /** `data["key"]` when `data and data.get("key")` holds, and nothing otherwise. */
  function Listed<B, T>(data: Option<B>, key: B -> Field<seq<T>>): (r: seq<T>)
    ensures r != [] <==> data.Some? && key(data.value).Val? && key(data.value).value != []
  {
    if data.Some? && key(data.value).Val? then key(data.value).value else []
  }

  /** The items listed on pages `from`, `from + 1`, ..., `upto - 1`, in page order. */
  function Pages<T>(at: nat -> seq<T>, from: nat, upto: nat): seq<T>
    requires from <= upto
    decreases upto
  {
    if from == upto then [] else Pages(at, from, upto - 1) + at(upto - 1)
  }

  /** The log line of `get_collections` subscripts both keys: a collection missing either raises there. */
  predicate Named(c: Collection)
  {
    !c.title.Missing? && !c.handle.Missing?
  }

  /** No collection of `cs` makes the log line raise. */
  predicate AllNamed(cs: seq<Collection>)
  {
    forall i :: 0 <= i < |cs| ==> Named(cs[i])
  }

  lemma AllNamedSnoc(cs: seq<Collection>, c: Collection)
    ensures AllNamed(cs + [c]) <==> AllNamed(cs) && Named(c)
  {
    assert (cs + [c])[|cs|] == c;
    assert forall i :: 0 <= i < |cs| ==> (cs + [c])[i] == cs[i];
  }

  /** The listing is free of unnamed collections exactly when both of its parts are. */
  lemma AllNamedAppend(a: seq<Collection>, b: seq<Collection>)
    ensures AllNamed(a + b) <==> AllNamed(a) && AllNamed(b)
  {
    assert forall i :: 0 <= i < |a| ==> (a + b)[i] == a[i];
    assert forall i :: 0 <= i < |b| ==> (a + b)[|a| + i] == b[i];
  }

  /** Every page before page `n` lists something, and nothing unnamed. */
  ghost predicate NamedBefore(at: nat -> seq<Collection>, n: nat)
  {
    forall p: nat :: 1 <= p < n ==> at(p) != [] && AllNamed(at(p))
  }

  /** A page that lists only named collections extends the run of such pages. */
  lemma NamedNext(at: nat -> seq<Collection>, page: nat)
    requires NamedBefore(at, page) && at(page) != [] && AllNamed(at(page))
    ensures NamedBefore(at, page + 1)
  {
  }

  /** Page `page` extends the listing so far, and is free of unnamed collections exactly when the longer listing is. */
  lemma NamedStep(at: nat -> seq<Collection>, items: seq<Collection>, page: nat)
    requires 1 <= page && Pages(at, 1, page) == items && AllNamed(items)
    ensures Pages(at, 1, page + 1) == items + at(page)
    ensures AllNamed(items + at(page)) <==> AllNamed(at(page))
  {
    AllNamedAppend(items, at(page));
  }

  /** `requested` holds the URLs of pages `1`, `2`, ... in order. */
  ghost predicate RequestsPages(requested: seq<string>, urlOf: nat -> string)
  {
    forall i :: 0 <= i < |requested| ==> requested[i] == urlOf(i + 1)
  }

  /** Every page before page `n` lists something. */
  ghost predicate ListedBefore<T>(at: nat -> seq<T>, n: nat)
  {
    forall p: nat :: 1 <= p < n ==> at(p) != []
  }

  /** Requesting page `page` next keeps the requests in page order. */
  lemma UrlsSnoc(requested: seq<string>, url: string, urlOf: nat -> string, page: nat)
    requires |requested| == page - 1 && url == urlOf(page) && RequestsPages(requested, urlOf)
    ensures |requested + [url]| == page && RequestsPages(requested + [url], urlOf)
  {
  }

  /** A page that lists something extends the run of such pages. */
  lemma ListedNext<T>(at: nat -> seq<T>, page: nat)
    requires ListedBefore(at, page) && at(page) != []
    ensures ListedBefore(at, page + 1)
  {
  }

  /** Each page's items sit, as one block, between those of the pages before and after it. */
  lemma {:induction false} PagesSplit<T>(at: nat -> seq<T>, from: nat, mid: nat, upto: nat)
    requires from <= mid < upto
    ensures Pages(at, from, upto) == Pages(at, from, mid) + at(mid) + Pages(at, mid + 1, upto)
    decreases upto
  {
    if mid + 1 < upto {
      PagesSplit(at, from, mid, upto - 1);
    }
  }

  /** Every listed item comes from one of the pages. */
  lemma {:induction false} PagesFrom<T>(at: nat -> seq<T>, from: nat, upto: nat, i: nat)
    requires from <= upto && i < |Pages(at, from, upto)|
    ensures exists p: nat, j: nat :: (from <= p < upto && j < |at(p)| && Pages(at, from, upto)[i] == at(p)[j])
    decreases upto
  {
    var front := Pages(at, from, upto - 1);
    if i < |front| {
      PagesFrom(at, from, upto - 1, i);
    } else {
      assert Pages(at, from, upto)[i] == at(upto - 1)[i - |front|];
    }
  }

  class ShopifyClient {
    const storeUrl: string
    const maxRetries: int
    const retryDelay: int
    const userAgent: string

    /** `ShopifyClient(store_url, max_retries, retry_delay, user_agent)`. */
    constructor(storeUrlArg: string, maxRetriesArg: int, retryDelayArg: int, userAgentArg: Option<string>)
      ensures storeUrl == RStripSlashes(storeUrlArg)
      ensures maxRetries == maxRetriesArg && retryDelay == retryDelayArg
      ensures userAgent == if Truthy(userAgentArg) then userAgentArg.value else DefaultUserAgent
    {
      storeUrl := RStripSlashes(storeUrlArg);
      maxRetries := maxRetriesArg;
      retryDelay := retryDelayArg;
      userAgent := if Truthy(userAgentArg) then userAgentArg.value else DefaultUserAgent;
    }

    /** The request `_make_request` sends for `url`. */
    function RequestFor(url: string): Request
    {
      Request(url, userAgent)
    }

    /**
     * `_make_request(url)`: at most `max_retries` attempts, returning the
     * first success. `attempts` GETs are issued and `sleeps` pauses of
     * `retry_delay` seconds are taken, one after each failure except the
     * last permitted attempt's.
     */
    method MakeRequest<B>(net: Network<B>, url: string) returns (data: Option<B>, attempts: nat, sleeps: nat)
      ensures data == Fetch(net, RequestFor(url), Tries(maxRetries))
      ensures attempts <= Tries(maxRetries)
      ensures data.Some? ==> (attempts >= 1 && data == net(RequestFor(url), attempts - 1)
        && sleeps == attempts - 1
        && forall k :: 0 <= k < attempts - 1 ==> net(RequestFor(url), k).None?)
      ensures data.None? ==> attempts == Tries(maxRetries) && sleeps == if attempts == 0 then 0 else attempts - 1
    {
      var req := RequestFor(url);
      var tries := Tries(maxRetries);
      attempts, sleeps := 0, 0;
      while attempts < tries
        invariant attempts <= tries
        invariant attempts < tries || tries == 0
        invariant FirstSuccess(net, req, tries, attempts) == FirstSuccess(net, req, tries, 0)
        invariant sleeps == attempts
      {
        var response := net(req, attempts);
        attempts := attempts + 1;
        if response.Some? {
          data := response;
          return;
        }
        if attempts < tries {
          sleeps := sleeps + 1;
        } else {
          data := None;
          return;
        }
      }
      data := None;
    }

    /** The URL a listing requests for page `page`. */
    function PageUrl(l: Listing, page: nat): string
    {
      UrlJoin(storeUrl, ListingRef(l, page))
    }

    /** What one page lists: the items under `key` of its response, or nothing. */
    function PageItems<B, T>(net: Network<B>, url: string, key: B -> Field<seq<T>>): seq<T>
    {
      Listed(Fetch(net, RequestFor(url), Tries(maxRetries)), key)
    }

    /**
     * The loop the three listings share: pages 1, 2, ... are requested in
     * order until the first one that lists nothing (a failed request, a
     * missing, `null` or empty listing); the items of the earlier pages are
     * yielded in page order. `last`, a page known to list nothing, only
     * bounds the walk: without one the source loops for ever.
     */
    method Paginate<B, T>(net: Network<B>, urlOf: nat -> string, key: B -> Field<seq<T>>,
                          ghost at: nat -> seq<T>, ghost last: nat)
      returns (items: seq<T>, requested: seq<string>)
      requires forall p: nat :: at(p) == PageItems(net, urlOf(p), key)
      requires 1 <= last && at(last) == []
      ensures |requested| >= 1
      ensures forall i :: 0 <= i < |requested| ==> requested[i] == urlOf(i + 1)
      ensures at(|requested|) == []
      ensures forall p: nat :: 1 <= p < |requested| ==> at(p) != []
      ensures items == Pages(at, 1, |requested|)
    {
      var page: nat := 1;
      items, requested := [], [];
      while true
        invariant 1 <= page <= last && |requested| == page - 1
        invariant forall i :: 0 <= i < |requested| ==> requested[i] == urlOf(i + 1)
        invariant forall p: nat :: 1 <= p < page ==> at(p) != []
        invariant Pages(at, 1, page) == items
        decreases last - page
      {
        var url, listed := FetchPage(net, urlOf, key, page);
        requested := requested + [url];
        assert listed == at(page);
        if listed == [] {
          return;
        }
        items := items + listed;
        page := page + 1;
      }
    }

    /** One pass of the listing loop: the page's URL, and what it lists. */
    method FetchPage<B, T>(net: Network<B>, urlOf: nat -> string, key: B -> Field<seq<T>>, page: nat)
      returns (url: string, listed: seq<T>)
      ensures url == urlOf(page) && listed == PageItems(net, url, key)
    {
      url := urlOf(page);
      var data, _, _ := MakeRequest(net, url);
      listed := Listed(data, key);
    }

    /** The URLs of a listing's pages. */
    function UrlsOf(l: Listing): nat -> string
    {
      (p: nat) => PageUrl(l, p)
    }

    /** What each page of a listing lists. */
    function ItemsAt<B, T>(net: Network<B>, l: Listing, key: B -> Field<seq<T>>): nat -> seq<T>
    {
      (p: nat) => PageItems(net, PageUrl(l, p), key)
    }

    /**
     * `list(get_collections())`: every collection of every page before the
     * first empty one, in order. Each collection is logged with
     * `collection['title']` and `collection['handle']` before it is yielded,
     * so the first one without either key raises (`None`), and no page after
     * its own is requested.
     */
    method GetCollections(net: Network<Response>, ghost last: nat)
      returns (collections: Option<seq<Collection>>, requested: seq<string>)
      requires 1 <= last && ItemsAt(net, Collections, CollectionsKey)(last) == []
      ensures |requested| >= 1
      ensures forall i :: 0 <= i < |requested| ==> requested[i] == UrlsOf(Collections)(i + 1)
      ensures forall p: nat :: 1 <= p < |requested| ==>
                ItemsAt(net, Collections, CollectionsKey)(p) != [] && AllNamed(ItemsAt(net, Collections, CollectionsKey)(p))
      ensures collections.Some? <==> ItemsAt(net, Collections, CollectionsKey)(|requested|) == []
      ensures collections.None? ==> !AllNamed(ItemsAt(net, Collections, CollectionsKey)(|requested|))
      ensures collections.None? <==> !AllNamed(Pages(ItemsAt(net, Collections, CollectionsKey), 1, |requested| + 1))
      ensures collections.Some? ==> collections.value == Pages(ItemsAt(net, Collections, CollectionsKey), 1, |requested|)
    {
      collections, requested := ListNamed(net, UrlsOf(Collections), ItemsAt(net, Collections, CollectionsKey), last);
    }

    /** The loop of `get_collections` over any page URLs and what each page lists. */
    method ListNamed(net: Network<Response>, urlOf: nat -> string, ghost at: nat -> seq<Collection>, ghost last: nat)
      returns (collections: Option<seq<Collection>>, requested: seq<string>)
      requires forall p: nat :: at(p) == PageItems(net, urlOf(p), CollectionsKey)
      requires 1 <= last && at(last) == []
      ensures |requested| >= 1
      ensures forall i :: 0 <= i < |requested| ==> requested[i] == urlOf(i + 1)
      ensures forall p: nat :: 1 <= p < |requested| ==> at(p) != [] && AllNamed(at(p))
      ensures collections.Some? <==> at(|requested|) == []
      ensures collections.None? ==> !AllNamed(at(|requested|))
      ensures collections.None? <==> !AllNamed(Pages(at, 1, |requested| + 1))
      ensures collections.Some? ==> collections.value == Pages(at, 1, |requested|)
    {
      var page: nat := 1;
      var items: seq<Collection> := [];
      requested := [];
      while true
        invariant 1 <= page <= last && |requested| == page - 1
        invariant RequestsPages(requested, urlOf)
        invariant NamedBefore(at, page)
        invariant Pages(at, 1, page) == items && AllNamed(items)
        decreases last - page
      {
        var url, listed := FetchPage(net, urlOf, CollectionsKey, page);
        UrlsSnoc(requested, url, urlOf, page);
        requested := requested + [url];
        assert listed == at(page);
        NamedStep(at, items, page);
        if listed == [] {
          return Some(items), requested;
        }
        var named := LogCollections(listed);
        if !named {
          return None, requested;
        }
        NamedNext(at, page);
        items := items + listed;
        page := page + 1;
      }
    }

    /** The log loop over one page: `false` when a collection lacks `title` or `handle`. */
    method LogCollections(listed: seq<Collection>) returns (named: bool)
      ensures named <==> AllNamed(listed)
    {
      var i := 0;
      while i < |listed|
        invariant 0 <= i <= |listed| && AllNamed(listed[..i])
      {
        if !Named(listed[i]) {
          return false;
        }
        AllNamedSnoc(listed[..i], listed[i]);
        assert listed[..i + 1] == listed[..i] + [listed[i]];
        i := i + 1;
      }
      assert listed[..i] == listed;
      return true;
    }

    /** `get_collection_products(handle)`: the collection's products, page by page. */
    method GetCollectionProducts(net: Network<Response>, handle: string, ghost last: nat)
      returns (products: seq<Product>, requested: seq<string>)
      requires 1 <= last && ItemsAt(net, CollectionProducts(handle), ProductsKey)(last) == []
      ensures |requested| >= 1
      ensures forall i :: 0 <= i < |requested| ==> requested[i] == UrlsOf(CollectionProducts(handle))(i + 1)
      ensures ItemsAt(net, CollectionProducts(handle), ProductsKey)(|requested|) == []
      ensures forall p: nat :: 1 <= p < |requested| ==> ItemsAt(net, CollectionProducts(handle), ProductsKey)(p) != []
      ensures products == Pages(ItemsAt(net, CollectionProducts(handle), ProductsKey), 1, |requested|)
    {
      products, requested := Paginate(net, UrlsOf(CollectionProducts(handle)), ProductsKey,
                                      ItemsAt(net, CollectionProducts(handle), ProductsKey), last);
    }

    /** `get_all_products()`: the store's products, 250 a page. */
    method GetAllProducts(net: Network<Response>, ghost last: nat) returns (products: seq<Product>, requested: seq<string>)
      requires 1 <= last && ItemsAt(net, AllProducts, ProductsKey)(last) == []
      ensures |requested| >= 1
      ensures forall i :: 0 <= i < |requested| ==> requested[i] == UrlsOf(AllProducts)(i + 1)
      ensures ItemsAt(net, AllProducts, ProductsKey)(|requested|) == []
      ensures forall p: nat :: 1 <= p < |requested| ==> ItemsAt(net, AllProducts, ProductsKey)(p) != []
      ensures products == Pages(ItemsAt(net, AllProducts, ProductsKey), 1, |requested|)
    {
      products, requested := Paginate(net, UrlsOf(AllProducts), ProductsKey, ItemsAt(net, AllProducts, ProductsKey), last);
    }

    /** The shop description `get_shop_info` builds from a products response. */
    function ShopInfoOf(data: Option<Response>): (r: Option<ShopInfo>)
      ensures r.Some? <==> data.Some? && FieldNonEmpty(data.value.products)
      ensures r.Some? ==> (r.value.description == "" && r.value.url == storeUrl
        && r.value.name == Get(data.value.products.value[0].vendor, ""))
    {
      if data.Some? && FieldNonEmpty(data.value.products) then
        Some(ShopInfo(Get(data.value.products.value[0].vendor, ""), "", storeUrl))
      else None
    }

    /** `get_shop_info()`: the vendor of the first product, when there is one. */
    method GetShopInfo(net: Network<Response>) returns (info: Option<ShopInfo>)
      ensures info == ShopInfoOf(Fetch(net, RequestFor(UrlJoin(storeUrl, ShopInfoRef())), Tries(maxRetries)))
    {
      var data, _, _ := MakeRequest(net, UrlJoin(storeUrl, ShopInfoRef()));
      if data.Some? && FieldNonEmpty(data.value.products) {
        var product := data.value.products.value[0];
        info := Some(ShopInfo(Get(product.vendor, ""), "", storeUrl));
      } else {
        info := None;
      }
    }
  }

  /** A page whose every attempt fails ends the listing there: nothing after it is requested. */
  lemma FailedPageEnds<B, T>(c: ShopifyClient, net: Network<B>, url: string, key: B -> Field<seq<T>>)
    requires forall k :: 0 <= k < Tries(c.maxRetries) ==> net(c.RequestFor(url), k).None?
    ensures c.PageItems(net, url, key) == []
  {
  }
}
