/**
 * The storefront's public JSON catalog (`/products.json`,
 * `/collections.json`, `/collections/<handle>/products.json`) as typed
 * records. Every key of a JSON object is a `Field`: absent, `null`, or a
 * value of the type the catalog documents for it.
 */
module Catalog {
  import opened Values
  import opened Numbers
  import opened Text

  datatype Image = Image(id: Field<int>, src: Field<string>, variantIds: Field<seq<int>>)

  datatype ProductOption = ProductOption(name: Field<string>)

  /**
   * A variant. Prices and weights arrive as the JSON text of the number;
   * `grams` is a whole number of grams.
   */
  datatype Variant = Variant(
    id: Field<int>,
    title: Field<string>,
    sku: Field<string>,
    barcode: Field<string>,
    price: Field<string>,
    compareAtPrice: Field<string>,
    available: Field<bool>,
    grams: Field<nat>,
    option1: Field<string>,
    option2: Field<string>,
    option3: Field<string>,
    imageId: Field<int>,
    requiresShipping: Field<bool>,
    taxable: Field<bool>,
    weight: Field<string>,
    weightUnit: Field<string>)

  datatype Product = Product(
    id: Field<int>,
    title: Field<string>,
    handle: Field<string>,
    bodyHtml: Field<string>,
    vendor: Field<string>,
    productType: Field<string>,
    tags: Field<seq<string>>,
    images: Field<seq<Image>>,
    image: Field<Image>,
    options: Field<seq<ProductOption>>,
    variants: Field<seq<Variant>>,
    publishedAt: Field<string>,
    createdAt: Field<string>,
    updatedAt: Field<string>)

  datatype Collection = Collection(title: Field<string>, handle: Field<string>)

  /** A decoded response body: the two keys the client reads. */
  datatype Response = Response(collections: Field<seq<Collection>>, products: Field<seq<Product>>)

  /** The shop description the generators put in the feed header. */
  datatype ShopInfo = ShopInfo(name: Option<string>, description: string, url: string)

  /** `str(x)` of an optional integer. */
  function ShowInt(i: Option<int>): string
  {
    if i.Some? then IntToString(i.value) else "None"
  }

  /**
   * The reference `f"/products/{handle}{query}"` every mapper joins onto
   * the store URL: an absolute path, never a network-path reference.
   */
  function ProductPath(handle: string, query: string): (r: string)
    ensures StartsWith(r, "/") && !StartsWith(r, "//")
  {
    var r := "/products/" + handle + query;
    assert r[..1] == "/" && r[1] == 'p';
    r
  }

  /** Python truthiness of an optional list. */
  predicate NonEmpty<T>(s: Option<seq<T>>)
  {
    s.Some? && |s.value| > 0
  }

  /** `obj.get(key)` truthy for a list-valued key. */
  predicate FieldNonEmpty<T>(f: Field<seq<T>>)
  {
    f.Val? && |f.value| > 0
  }
}
