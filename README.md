# Storefront catalog to shopping feeds, in Dafny

The system reads a storefront's public JSON catalog (`/products.json`,
`/collections.json`, `/collections/<handle>/products.json`), maps every
variant of every product to a feed item, and writes three XML shopping
feeds: Google Merchant Center, Bing Shopping and Zbozi.cz. It also downloads
product images. The same work is done twice in the repository: once by the
`shopify_to_feeds` package (shared helpers, a catalog client with retries
and pagination, an image downloader and three feed generators), and once by
four older stand-alone scripts (`GMC_feed.py`, `bing_feed.py`,
`zbozi_feed.py`, `shopify_scraper.py`), each with its own variant of the text
cleaner, the URL check, the retry loop and the page loops.

This project models both. Each source file has its own module:

| module | file | source |
|---|---|---|
| `Helpers` | helpers.dfy | `shopify_to_feeds/utils/helpers.py` |
| `Base` | base.dfy | `shopify_to_feeds/feeds/base.py` |
| `Google` | google.dfy | `shopify_to_feeds/feeds/google.py` |
| `Bing` | bing.dfy | `shopify_to_feeds/feeds/bing.py` |
| `Zbozi` | zbozi.dfy | `shopify_to_feeds/feeds/zbozi.py` |
| `Client` | client.dfy | `shopify_to_feeds/scraper/shopify_client.py` |
| `Images` | images.dfy | `shopify_to_feeds/scraper/image_downloader.py` |
| `Gmc` | gmc.dfy | `GMC_feed.py` |
| `BingLegacy` | bing_legacy.dfy | `bing_feed.py` |
| `ZboziLegacy` | zbozi_legacy.dfy | `zbozi_feed.py` |
| `Scraper` | scraper.dfy | `shopify_scraper.py` |

Several support modules write out the Python library behaviour the code
relies on:

- `Values`: optional values, and the three states of a JSON key (absent, `null`, a value). It also holds truthiness and the "loop until a call raises" combinator `Collect`.
- `Text`: `strip`, the `\s+` collapse, `replace`, `split`/`join`, `upper`.
- `Tags`: scanners for the tag and entity regular expressions.
- `Numbers`: decimal text, `f"{x:.2f}"`, `str(int(float(x)))`, and weights in kilograms.
- `Urls`: `urljoin` with an absolute path, and the last path segment.
- `Catalog`: the catalog records.
- `FeedItems`: the insertion-ordered feed item.
- `Xml`: the element tree and the generic item serializer.

Conventions:

- A Python exception that ends an operation is `None`, or an outer `None`.
- The network is a parameter `net(request, attempt)`, which gives the body of that attempt or `None`. `time.sleep` is counted in out-parameters.
- A `while True` page loop takes a ghost page `last` that is known to list nothing. That page only bounds the walk.
- Where the source mutates state, the model does too:
  - Generators and clients are classes.
  - Loops are `while`/`for` loops with invariants.
  - Each loop is proved against a function of its inputs.
  - Lemmas then state what the source promises about that function.

## Model

| member | source | states |
|---|---|---|
| Helpers.RemoveHtmlTags | shopify_to_feeds/utils/helpers.py:9-29 | `""` for a `None` or empty text; otherwise no `<...>` tag is left, every whitespace is a single space with none leading, the result is a prefix of the untruncated cleaned text, at most `max_length` long for a truthy limit, and ends in a space only when it was cut |
| Helpers.CleanTagFree | shopify_to_feeds/utils/helpers.py:23-24 | the cleaned text holds no substring `<`, one or more non-`>` characters, `>` |
| Helpers.CleanSpacing | shopify_to_feeds/utils/helpers.py:24 | the cleaned text is single-spaced and has no whitespace at either end |
| Helpers.Truncate | shopify_to_feeds/utils/helpers.py:26-27 | the truncated text is the whole text or its first `max_length` characters, and never longer than the limit |
| Helpers.TruncateShape | shopify_to_feeds/utils/helpers.py:26-27 | a prefix of cleaned text stays tag-free, single-spaced and without a leading space; only its cut end may be a space |
| Helpers.RemoveHtmlTagsIdempotent | shopify_to_feeds/utils/helpers.py:20-29 | without truncation, cleaning cleaned text gives it back unchanged |
| Helpers.FormatPrice | shopify_to_feeds/utils/helpers.py:32-46 | the result always ends with `" " + currency`, and the amount before it has exactly two digits after the point |
| Helpers.FormatPriceUnparsed | shopify_to_feeds/utils/helpers.py:45-46 | a missing price or one `float` rejects gives exactly `"0.00 " + currency` |
| Helpers.FormatPriceParsed | shopify_to_feeds/utils/helpers.py:43-44 | a parseable price gives its two-decimal rendering, a space and the currency |
| Helpers.FormatPriceRoundTrip | shopify_to_feeds/utils/helpers.py:44 | reading back the amount in front of the currency gives the parsed price's sign and its hundredths |
| Helpers.FormatWeight | shopify_to_feeds/utils/helpers.py:49-65 | `None` exactly for falsy grams; otherwise the text ends with `" " + unit`, and the amount is grams/1000 with three decimals for `"kg"` and the grams as a float for any other unit |
| Helpers.FormatWeightKg | shopify_to_feeds/utils/helpers.py:63-64 | in kilograms the text in front of `" kg"` is exactly the three-decimal kilogram text, the one `Numbers.Kg3Value` reads back as the grams |
| Numbers.Fixed2RoundTrip | shopify_to_feeds/utils/helpers.py:44 | `f"{x:.2f}"` parsed back keeps the sign and the amount in hundredths |
| Numbers.Kg3Value | shopify_to_feeds/utils/helpers.py:64 | `f"{g / 1000:.3f}"` for whole grams reads back as `g` |
| Base.ValidateUrl | shopify_to_feeds/feeds/base.py:33-45 | the result never ends with `/` and starts with `http:` or `https:`; an input that already starts with `http://` or `https://` is only stripped of trailing slashes, any other input gets `https://` in front and is then stripped; the scripts' own `validate_url` (GMC_feed.py:122-126, zbozi_feed.py:47-51) is the same expression |
| Base.SchemeKept | shopify_to_feeds/feeds/base.py:45 | stripping slashes from a URL that starts with `http://` or `https://` keeps the scheme and its colon |
| Base.ValidateUrlIdempotent | shopify_to_feeds/feeds/base.py:43-45 | normalising again changes nothing whenever the result still starts with `http://` or `https://` |
| Base.ValidateUrlNotIdempotent | shopify_to_feeds/feeds/base.py:43-45 | `"https://"` becomes `"https:"`, and normalising that again gives `"https://https:"` |
| Base.StrippedOrigin | shopify_to_feeds/feeds/base.py:45 | stripping slashes from `scheme://host` and a path keeps the scheme and host whole |
| Base.JoinValidated | shopify_to_feeds/feeds/base.py:43-45 | product links joined onto a normalised store URL with a scheme keep its scheme and host, whatever path follows the host |
| Base.JoinValidatedBare | shopify_to_feeds/feeds/base.py:43-45 | product links joined onto a normalised bare host go to `https://` and that host |
| Catalog.ProductPath | shopify_to_feeds/feeds/google.py:102 | the reference `/products/{handle}...` is an absolute path and never a network-path reference, so `urljoin` replaces the base path |
| Urls.JoinOrigin | shopify_to_feeds/feeds/google.py:102 | joining an absolute path onto `scheme://host` plus any path, query or fragment gives `scheme://host` plus the path, as section 5.2.2 of RFC 3986 resolves it |
| Google.GoogleFeedGenerator.constructor | shopify_to_feeds/feeds/base.py:29 | `store_url` is `_validate_url` of the argument |
| Google.Sources | shopify_to_feeds/feeds/google.py:80-84 | every image's `src` in order; `None` exactly when one image has no `src` key |
| Google.Description | shopify_to_feeds/feeds/google.py:101 | the description is at most 5000 characters long and holds no tag; it is `""` for an empty or missing body |
| Google.Link | shopify_to_feeds/feeds/google.py:102 | the link ends with `/products/{handle}` |
| Google.LinkOf | shopify_to_feeds/feeds/google.py:102 | with a store URL normalised from `scheme://host` and any path, the link is `scheme://host/products/{handle}` |
| Google.Availability | shopify_to_feeds/feeds/google.py:96-104 | `"in stock"` exactly when `available` is `true`, `"out of stock"` otherwise |
| Google.Category | shopify_to_feeds/feeds/google.py:108 | the tag list when it is non-empty, `"Home & Garden"` otherwise |
| Google.TitleDefault | shopify_to_feeds/feeds/google.py:93-100 | a variant titled `"Default Title"`, or one with no title key, is titled by the product title alone, with every `" - Default Title"` removed from it too |
| Google.TitleKept | shopify_to_feeds/feeds/google.py:100 | a title in which `" - Default Title"` occurs nowhere is `"{title} - {variant_title}"` unchanged |
| Google.RequiredKeys | shopify_to_feeds/feeds/google.py:98-109 | every variant's item starts with the same ten keys in the literal's order |
| Google.VariantLookup | shopify_to_feeds/feeds/google.py:98-109 | each required key reads back the value the literal gave it |
| Google.OptionalLookup | shopify_to_feeds/feeds/google.py:111-118 | `product_type`, `gtin`, `mpn` and `additional_image_link` read back as assigned, and are absent when not assigned |
| Google.AdditionalField | shopify_to_feeds/feeds/google.py:80-118 | `additional_image_link` is present exactly when there is more than one image link, and then holds every link after the first, in order |
| Google.IdentifierFields | shopify_to_feeds/feeds/google.py:94-116 | `gtin` and `mpn` are both present exactly when the SKU is non-empty, and then both equal it |
| Google.TypeField | shopify_to_feeds/feeds/google.py:112-113 | `product_type` is present exactly when the product type is non-empty |
| Google.OptionalNotRequired | shopify_to_feeds/feeds/google.py:111-118 | none of the four optional keys is a literal key, so each assignment appends an entry |
| Google.AssignOptional | shopify_to_feeds/feeds/google.py:111-118 | the optional assignments in source order: each appends its entry only when its value is non-empty |
| Google.TypeAssigned | shopify_to_feeds/feeds/google.py:112-113 | a non-empty product type appends one entry at the end |
| Google.IdsAssigned | shopify_to_feeds/feeds/google.py:114-116 | a non-empty SKU appends `gtin` and then `mpn` |
| Google.ImagesAssigned | shopify_to_feeds/feeds/google.py:117-118 | more than one image link appends `additional_image_link` |
| Google.GoogleFeedGenerator.BuildVariant | shopify_to_feeds/feeds/google.py:91-119 | the item is the literal followed by the optional entries, or `None` when the `try` body raises |
| Google.GoogleFeedGenerator.ProcessProduct | shopify_to_feeds/feeds/google.py:66-125 | the image links, then one item per variant in variant order; a variant that raises is skipped and later variants are still mapped; `None` when the image links raise |
| Google.RequiredElements | shopify_to_feeds/feeds/google.py:206-215 | the ten required elements in the writer's order, `id` to `google_product_category`; `None` when a key is missing |
| Google.RequiredOfVariant | shopify_to_feeds/feeds/google.py:206-215 | for a variant's item, the ten required elements are the leaves of the literal's values |
| Google.CategoryWritable | shopify_to_feeds/feeds/google.py:215 | the category element holds a list, which the tree writer cannot write, exactly when the product has tags (the tags string becomes the category at line 108) |
| Google.RequiredWritable | shopify_to_feeds/feeds/google.py:206-215 | of the required elements only the category can hold an object |
| Google.OptionalWritable | shopify_to_feeds/feeds/google.py:218-226 | the elements after the required ten hold strings |
| Google.OptionalTagged | shopify_to_feeds/feeds/google.py:218-226 | the elements after the required ten are named `gtin`, `mpn`, `product_type`, then one `additional_image_link` per extra image, in that order |
| Google.GoogleItemOfVariant | shopify_to_feeds/feeds/google.py:201-226 | the writer never raises on a variant's item; it writes the ten required elements, then `gtin`, `mpn`, `product_type` when present, then one element per extra image, and the element can be written exactly when the product has no tags |
| Google.GoogleFeedGenerator.WriteItem | shopify_to_feeds/feeds/google.py:202-226 | the `item` element's children are the required elements followed by the optional ones, in the writer's order |
| Google.GoogleFeedGenerator.WriteDocument | shopify_to_feeds/feeds/google.py:193-226 | the `rss` document is the channel header followed by one item element per variant, in order |
| Google.DocumentWritten | shopify_to_feeds/feeds/google.py:228-230 | the document can be written exactly when each of its items can |
| Google.TaggedVariantFails | shopify_to_feeds/feeds/google.py:228-231 | any variant of a product with tags makes writing the whole document fail (the category set from the tags at line 108) |
| Google.UntaggedStoreWritten | shopify_to_feeds/feeds/google.py:138-235 | a store whose products carry no tags gets its feed written whenever the collections were listed and each has a handle |
| Google.CollectionsStop | shopify_to_feeds/feeds/google.py:145-154 | once a collection raises, generation has ended, and no later collection undoes it |
| Google.GoogleFeedGenerator.CollectionItems | shopify_to_feeds/feeds/google.py:148-150 | each product's items in product order, until `_process_product` raises |
| Google.GoogleFeedGenerator.Generate | shopify_to_feeds/feeds/google.py:138-235 | each collection's products in turn, each product's items appended, then the document; the result is the pure feed function of the client's answers |
| Google.GoogleFeedGenerator.GenerateListed | shopify_to_feeds/feeds/google.py:138-143 | generation from the client: when a listed collection up to the page where listing stopped lacks `title` or `handle`, no feed is written; otherwise the feed is that of every listed collection, in page order |
| Bing.BingFeedGenerator.constructor | shopify_to_feeds/feeds/base.py:29 | `store_url` is `_validate_url` of the argument |
| Bing.IdField | shopify_to_feeds/feeds/bing.py:63-78 | `str` of the integer id; `None` when the key is absent |
| Bing.Title | shopify_to_feeds/feeds/bing.py:64-68 | the product title when the variant title is `"Default Title"`, else `"{title} - {variant_title}"`; `None` when a title key is absent |
| Bing.LinkPath | shopify_to_feeds/feeds/bing.py:69 | the reference is `/products/{handle}?variant={id}` |
| Bing.Link | shopify_to_feeds/feeds/bing.py:69 | the link ends with the product path and the variant query |
| Bing.LinkOf | shopify_to_feeds/feeds/bing.py:69 | with a store URL `scheme://host` and any path, the link is `scheme://host/products/{handle}?variant={id}` |
| Bing.ImageLink | shopify_to_feeds/feeds/bing.py:70 | the first image's `src`, or `""` without images |
| Bing.WholeNumber | shopify_to_feeds/feeds/bing.py:71 | the price truncated toward zero; `None` when the key is absent, `null` or not a decimal number |
| Bing.WholePrice | shopify_to_feeds/feeds/bing.py:71 | the truncated price, a space and the currency |
| Bing.Availability | shopify_to_feeds/feeds/bing.py:74 | `"In Stock"` exactly when `available` is `true`, `"Out of Stock"` otherwise |
| Bing.Description | shopify_to_feeds/feeds/bing.py:76 | the cleaned body, never truncated: tag-free and single-spaced |
| Bing.VariantKeys | shopify_to_feeds/feeds/bing.py:62-104 | each item holds the twelve literal keys in order, then `SalePrice`, `ShippingWeight` and `AdditionalImageLink` when present, exactly one `Shipping`, and `GTIN` when present; no key occurs twice, so `MPN` is always there |
| Bing.OptionalLookup | shopify_to_feeds/feeds/bing.py:82-104 | `Shipping` is the one surviving group, PPL's; `GTIN` is present exactly for a truthy barcode; `SalePrice` is present exactly for a truthy compare-at price and has the `Price` form |
| Bing.OptionalFinds | shopify_to_feeds/feeds/bing.py:82-104 | lookups in the optional part: each key is found in the piece that may hold it |
| Bing.AssignOptional | shopify_to_feeds/feeds/bing.py:81-104 | the optional assignments in source order |
| Bing.AssignSale | shopify_to_feeds/feeds/bing.py:82-83 | `SalePrice` is appended exactly when `compare_at_price` is truthy |
| Bing.AssignWeight | shopify_to_feeds/feeds/bing.py:86-88 | `ShippingWeight` is appended exactly when `grams` is truthy |
| Bing.AssignImages | shopify_to_feeds/feeds/bing.py:91-92 | `AdditionalImageLink`, every image after the first, is appended exactly when there is more than one image |
| Bing.AssignShipping | shopify_to_feeds/feeds/bing.py:95-100 | one assignment per shipping entry; only the last group survives, at one position |
| Bing.AssignGtin | shopify_to_feeds/feeds/bing.py:103-104 | `GTIN` is appended exactly when the barcode is truthy |
| Bing.SaleAssigned | shopify_to_feeds/feeds/bing.py:82-83 | a truthy compare-at price appends `SalePrice` at the end |
| Bing.WeightAssigned | shopify_to_feeds/feeds/bing.py:86-88 | truthy grams append `ShippingWeight` at the end |
| Bing.GtinAssigned | shopify_to_feeds/feeds/bing.py:103-104 | a truthy barcode appends `GTIN` at the end |
| Bing.ImagesAssigned | shopify_to_feeds/feeds/bing.py:91-92 | more than one image appends `AdditionalImageLink` at the end |
| Bing.OptionalNotRequired | shopify_to_feeds/feeds/bing.py:62-104 | none of the five optional keys is a literal key |
| Bing.BingFeedGenerator.BuildVariant | shopify_to_feeds/feeds/bing.py:62-106 | the literal followed by the optional entries; `None` when a required lookup raises |
| Bing.BingFeedGenerator.ProcessProduct | shopify_to_feeds/feeds/bing.py:48-108 | one item per variant in variant order, or `None` as soon as one variant raises |
| Bing.OneItemPerVariant | shopify_to_feeds/feeds/bing.py:61-106 | a product that maps gives exactly one item per variant, item `k` from variant `k` |
| Bing.BadPriceFails | shopify_to_feeds/feeds/bing.py:126-128 | a price that is not a decimal number makes the whole feed fail, whatever the other products (the `int(float(...))` conversion at line 71) |
| Bing.FeedWhenMapped | shopify_to_feeds/feeds/bing.py:126-165 | with `str()` on every value the document can always be written, so the feed exists exactly when every product maps |
| Bing.BingFeedGenerator.Generate | shopify_to_feeds/feeds/bing.py:121-169 | every product's items, the `Catalog` header (`E-shop`, `""`, the store URL when there is no shop info), then one `Product` element per item written by the serializer |
| Xml.SerializeField | shopify_to_feeds/feeds/bing.py:151-160 | one field's children: one per list entry, one group with a child per key, or one child holding `str(value)` |
| Xml.SerializeItem | shopify_to_feeds/feeds/bing.py:149-160 | the fields are written in insertion order under one new item element |
| Xml.SerializeFeed | shopify_to_feeds/feeds/zbozi.py:209-227 | the root, its header elements, then one item element per item, in order |
| Xml.FieldAt | shopify_to_feeds/feeds/bing.py:151-160 | field `j` of an item produces the children at its offset onwards, in order; a list gives consecutive repeated children |
| Xml.ScalarField | shopify_to_feeds/feeds/bing.py:159-160 | a scalar field becomes one child whose text is `str(value)` |
| Xml.ItemWritable | shopify_to_feeds/feeds/bing.py:151-160 | with `str()` on every entry the item can always be written; when list entries are assigned raw, it can be written exactly when no entry is a non-empty dictionary |
| Xml.FeedWritable | shopify_to_feeds/feeds/bing.py:142-165 | the feed can be written exactly when each of its item elements can |
| Zbozi.ZboziFeedGenerator.constructor | shopify_to_feeds/feeds/base.py:29 | `store_url` is `_validate_url` of the argument |
| Zbozi.ProductName | shopify_to_feeds/feeds/zbozi.py:61-65 | the product title for a `"Default Title"` variant, else `"{title} - {variant_title}"`; `None` when a title key is absent |
| Zbozi.ProductNo | shopify_to_feeds/feeds/zbozi.py:79 | the SKU when truthy, else `"MM-"` and the upper-cased first ten characters of the handle; never empty |
| Zbozi.UpperLower | shopify_to_feeds/feeds/zbozi.py:79 | upper-casing the handle keeps its letters |
| Zbozi.CategoryText | shopify_to_feeds/feeds/zbozi.py:77 | every `/` of the product type becomes `" | "` and nothing else changes |
| Zbozi.TagsLabel | shopify_to_feeds/feeds/zbozi.py:86 | the tags joined with `" | "`; `None` when the tags are `null` |
| Zbozi.LastDelivery | shopify_to_feeds/feeds/zbozi.py:102-107 | the one surviving `DELIVERY` group is the last entry's, PPL's (`DEFAULT_DELIVERY`, lines 25-28) |
| Zbozi.OptionName | shopify_to_feeds/feeds/zbozi.py:114-136 | option `i`'s name is `options[i]["name"]` when the product has that many options, else `"Variant"`, `"Variant 2"` or `"Variant 3"` |
| Zbozi.ParamsOptions | shopify_to_feeds/feeds/zbozi.py:110-164 | the `PARAM` list starts with one entry per truthy option, in option order, and then holds at most one weight, one availability and one pot-size entry |
| Zbozi.ParamsTail | shopify_to_feeds/feeds/zbozi.py:138-162 | after the options come `Hmotnost` exactly when `grams` is truthy, `Dostupnost` exactly when `available` is not `None`, then the pot size exactly when the name holds one |
| Zbozi.ParamsSplit | shopify_to_feeds/feeds/zbozi.py:110-164 | the `PARAM` list is the option entries, exactly as many as there are truthy options, followed by the weight, availability and pot-size entries |
| Zbozi.OptionsOrder | shopify_to_feeds/feeds/zbozi.py:113-136 | where each option entry sits among the option entries |
| Zbozi.TailOrder | shopify_to_feeds/feeds/zbozi.py:138-162 | where the weight, availability and pot entries sit after the options |
| Zbozi.BuildParams | shopify_to_feeds/feeds/zbozi.py:110-164 | the `params` list built by successive appends is the parameter function of the variant |
| Zbozi.BuildOptionParams | shopify_to_feeds/feeds/zbozi.py:113-136 | the option entries, each appended when its option value is truthy |
| Zbozi.PotSizeNone | shopify_to_feeds/feeds/zbozi.py:157-162 | there is no pot size exactly when `(\d+)\s*cm` matches nowhere in the name |
| Zbozi.PotSizeSome | shopify_to_feeds/feeds/zbozi.py:157-162 | a pot size is the digit group of the leftmost match, and it is greedy |
| Zbozi.PatternGreedy | shopify_to_feeds/feeds/zbozi.py:157 | a match at a position has one digit group, the whole digit run |
| Zbozi.FirstMatch | shopify_to_feeds/feeds/zbozi.py:157 | the leftmost match at or after a position |
| Zbozi.VariantKeys | shopify_to_feeds/feeds/zbozi.py:59-164 | each item holds the twenty literal keys in order, then `PRICE_BEFORE_DISCOUNT` and `IMGURL_ALTERNATIVE` when present, then exactly one `DELIVERY` and one `PARAM`; no key occurs twice |
| Zbozi.OptionalLookup | shopify_to_feeds/feeds/zbozi.py:92-164 | `DELIVERY` holds the last entry's group, `PARAM` the parameter list, `PRICE_BEFORE_DISCOUNT` the truncated compare-at price exactly when that is truthy |
| Zbozi.OptionalFinds | shopify_to_feeds/feeds/zbozi.py:92-164 | lookups in the optional part: each key is found in the piece that may hold it |
| Zbozi.VariantDelivery | shopify_to_feeds/feeds/zbozi.py:102-164 | in a variant's item `DELIVERY` is PPL's single group and `PARAM` the parameter list |
| Zbozi.AssignOptional | shopify_to_feeds/feeds/zbozi.py:91-164 | the optional assignments in source order |
| Zbozi.AssignSale | shopify_to_feeds/feeds/zbozi.py:92-93 | `PRICE_BEFORE_DISCOUNT` is appended exactly when `compare_at_price` is truthy |
| Zbozi.AssignImages | shopify_to_feeds/feeds/zbozi.py:96-99 | `IMGURL_ALTERNATIVE`, every image after the first, is appended exactly when there is more than one image |
| Zbozi.AssignDelivery | shopify_to_feeds/feeds/zbozi.py:102-107 | one assignment per delivery entry; only the last group survives, at one position |
| Zbozi.OptionalNotRequired | shopify_to_feeds/feeds/zbozi.py:59-164 | none of the four optional keys is a literal key |
| Zbozi.ZboziFeedGenerator.BuildVariant | shopify_to_feeds/feeds/zbozi.py:59-164 | the literal, then the optional assignments with the delivery loop and the parameter list; `None` when a lookup raises |
| Zbozi.ZboziFeedGenerator.ProcessProduct | shopify_to_feeds/feeds/zbozi.py:45-167 | one item per variant in variant order, or `None` as soon as one variant raises |
| Zbozi.ParamText | shopify_to_feeds/feeds/zbozi.py:221 | a `PARAM` entry's text is Python's `str()` of the dictionary |
| Zbozi.ItemTail | shopify_to_feeds/feeds/zbozi.py:218-227 | an item element ends with one `DELIVERY` element holding a child per group key, then one `PARAM` element per entry whose text is `str(entry)` and which has no children |
| Zbozi.FeedWhenListed | shopify_to_feeds/feeds/zbozi.py:180-236 | with `str()` on every value the document can always be written; the feed fails only when a collection raises |
| Zbozi.CollectionsNext | shopify_to_feeds/feeds/zbozi.py:187-195 | one more collection either raises (no `handle`), is skipped (no `title`), or appends its products' items to those so far |
| Zbozi.CollectionsStop | shopify_to_feeds/feeds/zbozi.py:187-195 | once a collection raises, generation has ended |
| Zbozi.ProductsPrefix | shopify_to_feeds/feeds/zbozi.py:188-195 | a product that raises keeps the items of the products before it in its collection and drops those after it |
| Zbozi.ZboziFeedGenerator.CollectionItems | shopify_to_feeds/feeds/zbozi.py:190-192 | each product's items in product order, until `_process_product` raises |
| Zbozi.ZboziFeedGenerator.Generate | shopify_to_feeds/feeds/zbozi.py:180-236 | each collection's products in turn, then the `SHOP` header and the serializer loop; the result is the pure feed function of the client's answers |
| Zbozi.ZboziFeedGenerator.GenerateListed | shopify_to_feeds/feeds/zbozi.py:180-185 | generation from the client: when a listed collection up to the page where listing stopped lacks `title` or `handle`, no feed is written; otherwise the feed is that of every listed collection, in page order |
| Client.ShopifyClient.constructor | shopify_to_feeds/scraper/shopify_client.py:25-45 | `store_url` is the argument without trailing slashes; `user_agent` is the given one when truthy, else the default |
| Client.ShopifyClient.MakeRequest | shopify_to_feeds/scraper/shopify_client.py:47-79 | at most `max_retries` attempts; the body of the first success; `k` failures before a success cost `k` sleeps; when all fail the result is `None` after `max_retries - 1` sleeps; every request carries the client's user agent |
| Client.Fetch | shopify_to_feeds/scraper/shopify_client.py:59-67 | the body of the first successful attempt among the permitted ones, `None` when all fail |
| Client.FirstSuccess | shopify_to_feeds/scraper/shopify_client.py:59-67 | the first attempt index in a range that succeeds; all before it fail |
| Client.Listed | shopify_to_feeds/scraper/shopify_client.py:95-97 | the listing under the key when the response is non-empty and the listing truthy, nothing otherwise |
| Client.ShopifyClient.Paginate | shopify_to_feeds/scraper/shopify_client.py:88-109 | pages 1, 2, ... are requested in strict order up to the first that lists nothing; every earlier page lists something; the items are those pages' items in page order |
| Client.ShopifyClient.FetchPage | shopify_to_feeds/scraper/shopify_client.py:92-97 | one pass: the page's URL and what it lists |
| Client.ShopifyClient.GetCollections | shopify_to_feeds/scraper/shopify_client.py:81-111 | `list(get_collections())`: pages are requested in order until the first that lists nothing or lists a collection without `title` or `handle`; in the first case the result is every collection of the earlier pages, in order, in the second `None` (the log line's `KeyError`), and that is so exactly when some collection up to the stopping page lacks a key |
| Client.ShopifyClient.ListNamed | shopify_to_feeds/scraper/shopify_client.py:88-109 | the same statement for any page URLs and page contents: the loop stops at the first page that is empty or holds an unnamed collection, and raises exactly in the second case |
| Client.ShopifyClient.LogCollections | shopify_to_feeds/scraper/shopify_client.py:103-107 | the log loop over one page passes exactly when every collection on it has both `title` and `handle` |
| Client.NamedStep | shopify_to_feeds/scraper/shopify_client.py:103-109 | a page extends the listing, and the longer listing is free of unnamed collections exactly when the page is |
| Client.AllNamedAppend | shopify_to_feeds/scraper/shopify_client.py:103-107 | a listing is free of unnamed collections exactly when both of its parts are |
| Client.ShopifyClient.GetCollectionProducts | shopify_to_feeds/scraper/shopify_client.py:113-144 | the same termination rule on the collection's `products` pages |
| Client.ShopifyClient.GetAllProducts | shopify_to_feeds/scraper/shopify_client.py:146-169 | the same termination rule on `/products.json?page=n&limit=250` |
| Client.FailedPageEnds | shopify_to_feeds/scraper/shopify_client.py:134-136 | a page whose every attempt fails lists nothing, so it silently ends the listing |
| Client.PagesSplit | shopify_to_feeds/scraper/shopify_client.py:103-109 | each page's items sit as one block between those of the pages before and after it |
| Client.PagesFrom | shopify_to_feeds/scraper/shopify_client.py:103-109 | every yielded item comes from one of the pages |
| Client.ShopifyClient.ShopInfoOf | shopify_to_feeds/scraper/shopify_client.py:181-188 | present exactly when the response lists a product; then the name is the first product's vendor (or `""`), the description `""` and the URL the store URL |
| Client.ShopifyClient.GetShopInfo | shopify_to_feeds/scraper/shopify_client.py:171-191 | the shop information built from the response to `/products.json?limit=1` |
| Images.DownloadImage | shopify_to_feeds/scraper/image_downloader.py:31-62 | `None` for an empty URL without any request, `None` for a failed request, and the file name otherwise |
| Images.FileName | shopify_to_feeds/scraper/image_downloader.py:48-50 | the last segment of the URL path when it is non-empty, else `image_N.jpg` |
| Images.SyntheticName | shopify_to_feeds/scraper/image_downloader.py:50 | the synthetic name carries `hash(url) % 10000`, which is between 0 and 9999 |
| Urls.LastSegmentOf | shopify_to_feeds/scraper/image_downloader.py:48 | the last segment of `scheme://host/dir/name` followed by an optional query or fragment is `name` |
| Urls.LastSegment | shopify_to_feeds/scraper/image_downloader.py:48 | the last segment holds no `/`, `?` or `#` |
| Images.ImageDownloader.CollectUrls | shopify_to_feeds/scraper/image_downloader.py:88-94 | the URL set is every truthy `image_field` value and every `additional_image_link` entry; duplicates collapse |
| Images.ImageDownloader.DownloadProductImages | shopify_to_feeds/scraper/image_downloader.py:64-126 | exactly one task per distinct URL; the result maps exactly the URLs whose download gave a file name to that name; an empty URL set gives `{}` with no download; progress is reported at every tenth completion and at the last |
| Images.ImageDownloader.DownloadAll | shopify_to_feeds/scraper/image_downloader.py:104-121 | one task per URL, each result recorded as it completes |
| Images.ResultsMeaning | shopify_to_feeds/scraper/image_downloader.py:110-121 | the result map holds exactly the non-empty URLs whose request succeeded, each mapped to its file name |
| Images.ReportStep | shopify_to_feeds/scraper/image_downloader.py:118-119 | completion `i` is reported exactly when `i % 10 == 0` or `i` is the total |
| Gmc.RemoveHtmlTags | GMC_feed.py:129-132 | one pass of the lazy `<[^<]+?>` removal, cut to 5000 characters; `None` for a `None` text |
| Gmc.RemoveHtmlTagsKeeps | GMC_feed.py:129-132 | a text without a tag and at most 5000 characters comes out unchanged |
| Gmc.FormatPrice | GMC_feed.py:135-139 | `CZK` for a missing currency; `None` when `float` raises; otherwise the package's formatter's result |
| Gmc.FormatWeight | GMC_feed.py:142-146 | the package's formatter with the unit fixed to kilograms |
| Gmc.MakeRequest | GMC_feed.py:149-170 | at most `MAX_RETRIES` attempts, the first success returned, a sleep after every failure but the last; `None` after all fail |
| Gmc.VariantImagesMeaning | GMC_feed.py:214-220 | the loop finishes unless an image raises, and then lists in image order the `src` of exactly the images whose `variant_ids` hold the id |
| Gmc.GetVariantImages | GMC_feed.py:214-220 | the appending loop computes that list |
| Gmc.ImageLinks | GMC_feed.py:228-232 | every image's `src` when the product has `images`, else the single `image`'s `src`, else none |
| Gmc.ProductItems | GMC_feed.py:223-291 | `None` when the image links raise; otherwise one record per variant, and a variant whose `try` body raises is skipped |
| Gmc.OptionalFieldsKeys | GMC_feed.py:275-283 | the keys after the literal are optional keys; the additional images are present exactly for more than one link |
| Gmc.VariantItemFields | GMC_feed.py:249-283 | a record holds the variant's id, availability and first image, and the additional images exactly when there is more than one link, holding every link after the first |
| Gmc.LiteralFields | GMC_feed.py:249-283 | the literal's fields survive the optional keys appended after it |
| Gmc.LiteralNamesApart | GMC_feed.py:249-279 | the literal's thirteen keys are distinct, and no optional key is among them |
| Gmc.BuildVariant | GMC_feed.py:240-289 | one pass of the variant loop: the record, or `None` when the `try` body raises |
| Gmc.AssignOptional | GMC_feed.py:275-283 | the three conditional assignments in source order |
| Gmc.ProcessProduct | GMC_feed.py:223-291 | the image links, then the variant loop that skips a variant whose body raises |
| Gmc.ChosenImage | GMC_feed.py:327-333 | the `src` of the first image whose `id` equals the variant's `image_id`, replaced by the first image's `src` when it is falsy and there are images, else `""` |
| Gmc.ChosenMatch | GMC_feed.py:328-331 | a matching image with a truthy `src` gives the variant that `src` |
| Gmc.ImageFor | GMC_feed.py:327-333 | the loop with `break` and the fallback computes that choice |
| Gmc.CollectionVariantsCount | GMC_feed.py:321-324 | a variant is skipped exactly when its stringified id is empty; every other one gives one record |
| Gmc.CollectionItemIdentifiers | GMC_feed.py:336-353 | a record carries `gtin` exactly for a truthy SKU and `mpn` exactly for a truthy barcode |
| Gmc.BuildCollectionVariant | GMC_feed.py:321-355 | one variant: the id check, the image loop, the literal and the two identifiers |
| Gmc.ProcessCollectionProduct | GMC_feed.py:313-355 | one product: description, link and the variant loop |
| Gmc.GetPage | GMC_feed.py:302-309 | the products of one response, or nothing for a failed request or a missing key |
| Gmc.ReadPage | GMC_feed.py:300-357 | one pass of the page loop: the page's URL and products, and the records of the pages so far |
| Gmc.CollectionPages | GMC_feed.py:299-357 | pages 1, 2, ... in order until the first without products; the records of the earlier pages, or `None` when a product raises |
| Gmc.ProcessProducts | GMC_feed.py:313-355 | the products loop of one page |
| Gmc.ProcessCollection | GMC_feed.py:294-360 | `process_collection` over the collection's page URLs |
| Gmc.PageStep | GMC_feed.py:304-313 | reading a page extends what the earlier pages collected, or stops the collection |
| Gmc.IdentifierExists | GMC_feed.py:476-487 | `"TRUE"` exactly when the record has a `gtin` or an `mpn` key, `"FALSE"` otherwise |
| Gmc.FeedTitle | GMC_feed.py:449 | a title without `" - Default Title"` is written as it is; a title with it is written shorter by at least that suffix (`Gmc.FeedTitleDefault` gives the default-variant case exactly) |
| Text.RemoveShrinks | GMC_feed.py:449 | `str.replace(p, "")` never lengthens a text and removes at least one copy of `p` when `p` occurs |
| Gmc.FeedTitleDefault | GMC_feed.py:449 | the record of a default variant is written under the product title alone (the title built at line 251) |
| Gmc.CollectUrls | GMC_feed.py:554-560 | the set of every truthy `image_link` and every `additional_image_link` entry |
| Gmc.DownloadProductImages | GMC_feed.py:535-591 | one download per distinct URL; the map holds exactly the URLs whose download gave a name; `{}` with no download for an empty set |
| BingLegacy.RemoveHtmlTags | bing_feed.py:30-48 | `""` for a falsy text; otherwise only word characters, spaces and `. , ! ? -` are left, every whitespace is a single plain space, and there is none at either end |
| BingLegacy.Cleaned | bing_feed.py:34-47 | the whole chain on a non-empty text, with the same character-class and spacing guarantees |
| BingLegacy.KeepAllowed | bing_feed.py:45 | the allowed characters of the text, in order |
| BingLegacy.SeparateVisible | bing_feed.py:41-43 | the punctuation and case spacing only inserts spaces: the other characters are the input's, in order |
| BingLegacy.SeparateNoOp | bing_feed.py:41-43 | a text with no matching pair is unchanged |
| BingLegacy.SeparateExamples | bing_feed.py:41-43 | `".Next"` gets a space after the full stop and `"aB"` splits in two |
| BingLegacy.ValidateUrl | bing_feed.py:50-54 | `https://` is put in front of a URL without a scheme; trailing slashes are kept |
| BingLegacy.ValidateUrlIdempotent | bing_feed.py:50-54 | checking again changes nothing |
| BingLegacy.PackageStrips | bing_feed.py:50-54 | the package's normalisation is this check followed by stripping the trailing slashes |
| BingLegacy.MakeRequest | bing_feed.py:56-69 | at most `retries` attempts, the body of the first success, a sleep after every failure but the last, and the last failure re-raised; with no attempt at all the result is `None` |
| BingLegacy.FetchPage | bing_feed.py:77-82 | one pass of a page loop: the URL and what it lists |
| BingLegacy.ListPages | bing_feed.py:76-89 | pages 1, 2, ... in order until the first empty, `None` or raising page; the earlier pages' items in order |
| BingLegacy.GetProductsPages | bing_feed.py:71-91 | every product of every page before the first empty one |
| BingLegacy.GetCollectionProducts | bing_feed.py:103-123 | the same loop over one collection's pages |
| BingLegacy.GetCollections | bing_feed.py:93-101 | one unpaginated request; a raise and a missing key give `[]` |
| BingLegacy.Description | bing_feed.py:158 | the description is this script's cleaner on the body |
| BingLegacy.LiteralDescription | bing_feed.py:148-161 | swapping the description changes the `Description` entry and nothing else |
| BingLegacy.AgreesWithPackage | bing_feed.py:143-190 | the script and the package map a variant alike except for the description: both raise or neither does, and they differ only at `Description` |
| BingLegacy.MissingVariantsRaise | bing_feed.py:146 | a product without a `variants` list raises |
| BingLegacy.BuildVariant | bing_feed.py:148-186 | one variant's item: the literal, then the optional fields |
| BingLegacy.ProcessProduct | bing_feed.py:143-190 | one item per variant in order, or `None` when one raises |
| BingLegacy.CreateXmlFeed | bing_feed.py:192-238 | the writer loop over the products, then the serializer with raw list entries |
| BingLegacy.DefaultHeader | bing_feed.py:195-210 | without shop information the header is `E-shop`, an empty description and the store URL; the header description is always `""` |
| ZboziLegacy.MakeRequestFrom | zbozi_feed.py:53-66 | from retry count `k`, the first success among attempts `k` to `MAX_RETRIES`, one sleep per failure before it |
| ZboziLegacy.MakeRequestAttempts | zbozi_feed.py:53-66 | `MAX_RETRIES + 1` attempts in all and the first success returned; `k` failures before it cost `k` sleeps; `None` after `MAX_RETRIES` sleeps when all fail |
| ZboziLegacy.ListPages | zbozi_feed.py:90-97 | pages 1, 2, ... until the first that lists nothing; the earlier pages' items in order |
| ZboziLegacy.ExtractProductsCollection | zbozi_feed.py:88-97 | every product of every page before the first with no products, in order |
| ZboziLegacy.GetPageCollectionsAsWritten | zbozi_feed.py:76-86 | request `n` goes to the previous request's URL with `/collections.json?page=n` appended |
| ZboziLegacy.AccumulatedPages | zbozi_feed.py:78-86 | the loop as written over any listing of a URL |
| ZboziLegacy.AccumulatedSecondPage | zbozi_feed.py:80 | the second request carries both pages' references, so it is not the page-2 URL |
| ZboziLegacy.GetPageCollections | zbozi_feed.py:76-86 | corrected: request `n` goes to the store URL plus `/collections.json?page=n` |
| ZboziLegacy.LiteralSwap | zbozi_feed.py:108-134 | swapping description and label changes entries 1 and 17 only |
| ZboziLegacy.LabelledSwap | zbozi_feed.py:108-134 | the literal raises for this script's description and label exactly when it raises for the package's, and otherwise differs from it only at entries 1 and 17 |
| ZboziLegacy.AgreesWithPackage | zbozi_feed.py:103-202 | the script and the package map a variant alike but for `DESCRIPTION` (this script's cleaner) and `CUSTOM_LABEL_0` (`"Listnato"`) |
| ZboziLegacy.BuildVariant | zbozi_feed.py:108-200 | one variant's item: the literal, then the assignments in order |
| ZboziLegacy.AssignOptional | zbozi_feed.py:136-199 | `PRICE_BEFORE_DISCOUNT`, the `IMGURL_ALTERNATIVE` append loop, the `DELIVERY` loop, then `PARAM` |
| ZboziLegacy.AppendAlternatives | zbozi_feed.py:141-145 | with more than one image, the create-then-append loop leaves the same `IMGURL_ALTERNATIVE` entry the package assigns at once: every image after the first, in order |
| ZboziLegacy.ProcessProduct | zbozi_feed.py:103-202 | one item per variant in order, or `None` when one raises |
| ZboziLegacy.ProcessCollection | zbozi_feed.py:204-209 | every extracted product's items in order; a raise ends it |
| Scraper.RemoveHtmlTags | shopify_scraper.py:46-48 | one pass of the lazy tag removal, no truncation: a text without a tag comes back whole |
| Tags.StripLazyFixpoint | shopify_scraper.py:48 | the lazy removal leaves its input unchanged exactly when it holds no match |
| Tags.LazyPassLeavesTag | shopify_scraper.py:48 | one lazy pass can leave a tag behind: `<<a>b>` becomes `<b>` |
| Tags.StripDelimitedTagFree | shopify_to_feeds/utils/helpers.py:23 | the greedy removal leaves no match of `<[^>]+>` |
| Tags.StripDelimitedIdempotent | shopify_to_feeds/utils/helpers.py:23 | removing tags twice is removing them once |
| Scraper.MakeRequest | shopify_scraper.py:51-78 | at most `MAX_RETRIES` attempts, the first success returned; every failure, the last one included, is followed by a sleep; `None` after all fail |
| Scraper.GetPage | shopify_scraper.py:81-98 | the collection's or the store's page URL, and `data['products']`, or `[]` for a failed request |
| Scraper.GetCollectionsPage | shopify_scraper.py:113-116 | one request of the collections loop |
| Scraper.GetPageCollections | shopify_scraper.py:101-118 | pages 1, 2, ... until the first failed or empty page; everything the earlier pages listed, or `None` when that page raised |
| Scraper.CollectionsLoop | shopify_scraper.py:111-118 | the loop computes that listing |
| Scraper.FirstStopIs | shopify_scraper.py:112-118 | the page that ends the loop does not depend on the bound used to find it |
| Scraper.ProductNameEnds | shopify_scraper.py:154 | `PRODUCT` has neither a space nor a dash at either end |
| Scraper.ProductNameJoined | shopify_scraper.py:154 | titles without spaces or dashes at their outer ends are joined by `" - "` |
| Scraper.ProductNameUntitledVariant | shopify_scraper.py:154 | an empty variant title leaves the product title alone |
| Scraper.VariantRow | shopify_scraper.py:153-164 | the base row merged with the variant's values; raises exactly when `title`, `price`, `available` or `sku` is missing; `STOCK` is `Yes` exactly for a truthy `available`, `REQUIRES_SHIPPING` and `TAXABLE` exactly for truthy values |
| Scraper.ProductRowsMeaning | shopify_scraper.py:140-165 | rows exist exactly when the base, the variant list and every variant can be read; then one row per variant in order, each under the product's URL |
| Scraper.ExtractProductsCollection | shopify_scraper.py:121-168 | pages 1, 2, ... until the first that lists nothing; one row per variant of every product on the earlier pages, in page and product order |
| Scraper.ReadProductsPage | shopify_scraper.py:136-165 | one round: page `page` and its products' rows |
| Scraper.PageRowsStep | shopify_scraper.py:136-167 | reading a page appends its products' rows to those of the earlier pages |
| Scraper.PagesRowsKeepRaise | shopify_scraper.py:140-165 | a product that raised on an earlier page makes the whole collection raise |
| Scraper.ProcessProducts | shopify_scraper.py:140-165 | the products loop of one page |
| Scraper.LoopStopped | shopify_scraper.py:135-138 | the page that ends the loop yields the rows gathered so far, or `None` when a product raised |
| Scraper.LoopRaised | shopify_scraper.py:135-167 | a raise on a page before the last makes the whole collection raise |
| Scraper.FirstsMeaning | shopify_scraper.py:257-270 | the kept rows have pairwise distinct URLs and the same URLs as all the rows; each is the first row offered with its URL, in first-appearance order |
| Scraper.AddRows | shopify_scraper.py:265-270 | offering rows to `unique_products` keeps the first row per URL and adds new URLs at the end |
| Scraper.PickOf | shopify_scraper.py:261-263 | an absent handle raises; a non-empty filter skips every handle it does not list; without a filter every collection is read |
| Scraper.ReadCollection | shopify_scraper.py:261-270 | one collection of the main loop |
| Scraper.GatherLoop | shopify_scraper.py:261-270 | each collection's rows offered in turn to `unique_products`; `None` as soon as one collection raises |
| Scraper.DownloadImage | shopify_scraper.py:171-196 | `None` for an empty URL and a failed request; a raise when the last path segment names a folder; otherwise the last path segment |
| Scraper.Attach | shopify_scraper.py:289-297 | a row with a truthy `IMGURL` gets the file name when there is one; nothing but `IMAGE_FILENAME` changes |
| Scraper.DownloadImages | shopify_scraper.py:284-300 | every unique row with a truthy `IMGURL` has its image downloaded and named; completion order does not matter |
| Scraper.DownloadImagesMeaning | shopify_scraper.py:284-300 | the image phase raises exactly when one row's download does; otherwise the rows keep their order and differ only in `IMAGE_FILENAME` |
| Scraper.ExtractProducts | shopify_scraper.py:223-316 | the collections, the selected ones' rows made unique by URL and written, then the images downloaded and the rows written again |
| Scraper.FirstsExportSound | shopify_scraper.py:257-309 | deduplicated rows with their images downloaded form a sound export: distinct URLs, and the updated rows differ from the written ones only in `IMAGE_FILENAME` |
| Scraper.ExportedMeaning | shopify_scraper.py:223-316 | every run that gets as far as writing the CSV leaves a sound export |
| FeedItems.PutLast | shopify_to_feeds/feeds/zbozi.py:102-107 | re-assigning the last-appended key replaces its value in place |
| FeedItems.PutAllNew | shopify_to_feeds/feeds/bing.py:95-100 | assigning one key on every pass leaves one entry at the end, holding the last value |
| FeedItems.PutNew | shopify_to_feeds/feeds/google.py:111-118 | assigning a new key appends the entry |
| FeedItems.ReprTwo | shopify_to_feeds/feeds/zbozi.py:221 | `str()` of a two-entry dictionary shows each key and value in repr, in insertion order |
| FeedItems.EscapeRoundTrip | shopify_to_feeds/feeds/zbozi.py:221 | the repr escaping loses nothing: it reads back as the original string |

## Left out

- Network, threads and files:
  - Requests are the oracle `net(request, attempt)`. Timeouts and HTTP status handling are folded into "the attempt failed".
  - Sleep durations are not modelled; only the sleeps are counted.
  - File and CSV writes, `os.makedirs`, timestamped folder names, logging, the clock and the command-line `main()` functions are not modelled.
  - The thread pools run sequentially, in a completion order the caller chooses.
- `Scraper.GetPage`, `Scraper.GetCollectionsPage`: a response body is only its `collections` and `products` keys, so the empty object `{}`, which is falsy and gives `[]` in `shopify_scraper.py:98`, is not told apart from a body holding other keys only. Both are `Response(Missing, Missing)`, read as the `KeyError` the non-empty body raises.
- `zbozi_feed.py`'s `main()` feeds already-mapped items back into `process_product`. It is an entry point, not part of this model.
- `shopify_to_feeds/api.py`, `api.py`, `test_feeds.py`, `download_images.py`, `utils/shopify_data_explorer.py`, `setup.py` and the `__init__.py` files are not part of this model.
- The `get_shop_info` functions of `bing_feed.py` and `zbozi_feed.py` are not modelled. The header default that `create_xml_feed` falls back to is modelled by `BingLegacy.DefaultHeader`.
- Page loops without a bound: a `while True` page loop takes a ghost page `last` that lists nothing. A store whose pages never run out, on which the source loops for ever, is outside the model.
- Python's `hash()`: it is randomised per process, so it is the parameter `hashOf` of `Images.FileName`.
- Floats:
  - Prices are decimal text read by an explicit scanner (`[+-]digits[.digits]` with surrounding whitespace). `inf`, `nan`, exponents and underscores are not accepted.
  - `Numbers.Fixed2` rounds half up on the third fraction digit of the decimal text, where Python rounds the nearest binary double, so ties differ: `2.675` gives `2.68` here and `2.67` in Python, `0.125` gives `0.13` here and `0.12` in Python.
  - `Numbers.Kg2` rounds a half up, where Python's result at an exact tie depends on the binary value.
- `Urls.UrlJoin` models only an absolute-path reference onto an `http` or `https` base. Dot-segment removal is not modelled.
- Character classes:
  - `\s` is Python's `str.isspace` set.
  - `\w` is the ASCII letters, digits and `_`, plus the Latin-1 and Latin Extended-A letters. The rest of Unicode is not modelled.
  - `upper()` changes ASCII letters only.
  - `Text.IsDigit`, the `\d` of the pot-size pattern `(\d+)\s*cm` (zbozi.py:157, zbozi_feed.py:192), accepts the ASCII digits only. Python's `\d` accepts every Unicode decimal digit, so a name with `１２ cm` has a pot size in Python and none here.
  - `FeedItems.HexEscaped` covers the non-printable characters up to U+00FF, which `repr` writes as `\xhh`. `repr` writes the non-printable characters above U+00FF (U+200B, U+2028 and the like) as `\uXXXX` or `\UXXXXXXXX`; the model writes those raw in the `str()` text of a `PARAM` dictionary.
- XML:
  - Byte-level serialisation, escaping and namespace registration are not modelled.
  - `tree.write` is modelled as the document when every element can be written, and `None` otherwise.
  - `GMC_feed.py`'s writer is modelled only for its `identifier_exists` and title rules.
- The GMC script's `get_page` and `get_page_collections` are not modelled; they are not part of its mapping core. `process_collection`'s own page loop is modelled.
- Images.ImageDownloader.DownloadProductImages: the folder is created before the empty-set check. That creation is a file-system effect, so it is not modelled.
- Google.GoogleFeedGenerator.Generate: the image download between mapping and writing only reads the items, so it is left to `Images`. The shop information is a parameter.

## Findings

| source | as written | input that shows it | evidently intended | confidence | as-written member | corrected member |
|---|---|---|---|---|---|---|
| zbozi_feed.py:80 | `get_page_collections` rebinds `url`, so each page's request extends the previous request's URL | store URL `u`: the second request is `u/collections.json?page=1/collections.json?page=2` | page `n` requested at `u/collections.json?page=n` | high (not executed) | ZboziLegacy.GetPageCollectionsAsWritten, ZboziLegacy.AccumulatedSecondPage | ZboziLegacy.GetPageCollections |
