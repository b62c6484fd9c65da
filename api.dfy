/** The helpers of src/data/api.js: the API base address, the query builder,
    the image URL helper, the product normaliser with its variant mapping,
    and the discount filter of the offers listing.

    JavaScript numbers are `real`s; `Math.round(x)` is `floor(x + 1/2)`. */
module Api {
  import opened JsValues

  /* ---------- The API base address ---------- */

  const DefaultBase := "http://localhost:5000"

  /** `RAW_BASE`: the configured address when it is a non-empty string. */
  function RawBase(configured: Option<string>): string {
    if Present(configured) then configured.value else DefaultBase
  }

  /** `s.replace(/\/+$/, "")`: the run of slashes at the end is removed. */
  function StripTrailingSlashes(s: string): (r: string)
    ensures |r| <= |s| && r == s[..|r|]
    ensures r == [] || r[|r| - 1] != '/'
    ensures forall i | |r| <= i < |s| :: s[i] == '/'
  {
    if s != [] && s[|s| - 1] == '/' then
      var r := StripTrailingSlashes(s[..|s| - 1]);
      assert s[..|s| - 1][..|r|] == s[..|r|];
      r
    else s
  }

  /** Stripping a second time changes nothing. */
  lemma StripIdempotent(s: string)
    ensures StripTrailingSlashes(StripTrailingSlashes(s)) == StripTrailingSlashes(s)
  {
  }

  /** `API_BASE`, which never ends in a slash. */
  function ApiBase(configured: Option<string>): (base: string)
    ensures base == [] || base[|base| - 1] != '/'
    ensures |base| <= |RawBase(configured)| && base == RawBase(configured)[..|base|]
  {
    StripTrailingSlashes(RawBase(configured))
  }

  /* ---------- Query strings ---------- */

  /** A parameter's value: a scalar or an array of scalars. */
  datatype QueryValue = Scalar(v: JsValue) | Array(items: seq<JsValue>)

  /** One `[key, value]` of `Object.entries(params)`. */
  datatype Entry = Entry(key: string, value: QueryValue)

  /** One `append(key, value)` on the search parameters. */
  datatype QueryPair = QueryPair(key: string, value: JsValue)

  /** `v === undefined || v === null || v === ""` */
  predicate Dropped(v: QueryValue) {
    v == Scalar(Undefined) || v == Scalar(Null) || v == Scalar(Str(""))
  }

  /** The pairs one entry appends: none when dropped, one per element of an
      array, in order, and otherwise one. */
  function EntryPairs(e: Entry): (ps: seq<QueryPair>)
    ensures forall q | q in ps :: q.key == e.key
    ensures Dropped(e.value) ==> ps == []
  {
    if Dropped(e.value) then []
    else match e.value
      case Array(xs) => ArrayPairs(e.key, xs)
      case Scalar(x) => [QueryPair(e.key, x)]
  }

  /** `v.forEach((val) => sp.append(k, val))` */
  function ArrayPairs(key: string, xs: seq<JsValue>): (ps: seq<QueryPair>)
    ensures |ps| == |xs|
    ensures forall q | q in ps :: q.key == key
  {
    seq(|xs|, i requires 0 <= i < |xs| => QueryPair(key, xs[i]))
  }

  /** The pairs of all entries, entry after entry. */
  /** Every pair carries the key of an entry that was not dropped. */
  predicate KeysFrom(ps: seq<QueryPair>, es: seq<Entry>) {
    forall q | q in ps :: exists e | e in es :: e.key == q.key && !Dropped(e.value)
  }

  function QueryPairs(es: seq<Entry>): (r: seq<QueryPair>)
    ensures KeysFrom(r, es)
  {
    if es == [] then []
    else
      assert forall e | e in es[1..] :: e in es;
      EntryPairs(es[0]) + QueryPairs(es[1..])
  }

  lemma {:induction false} QueryPairsAppend(a: seq<Entry>, b: seq<Entry>)
    ensures QueryPairs(a + b) == QueryPairs(a) + QueryPairs(b)
  {
    if a == [] {
      assert a + b == b;
    } else {
      assert (a + b)[1..] == a[1..] + b;
      QueryPairsAppend(a[1..], b);
    }
  }

  /** Whether the entry for `key` with value `v` yields the pair value `x`. */
  predicate Yields(v: QueryValue, x: JsValue) {
    !Dropped(v) && match v
      case Array(xs) => x in xs
      case Scalar(y) => x == y
  }

  /** The pairs of one more entry are the earlier pairs and that entry's. */
  lemma QueryPairsStep(es: seq<Entry>, i: nat)
    requires i < |es|
    ensures QueryPairs(es[..i + 1]) == QueryPairs(es[..i]) + EntryPairs(es[i])
  {
    assert es[..i + 1] == es[..i] + [es[i]];
    QueryPairsAppend(es[..i], [es[i]]);
  }

  /** A pair is in the query exactly when some entry with its key yields its
      value: nothing is invented and nothing kept is lost. */
  lemma {:induction false} QueryPairsExact(es: seq<Entry>, k: string, x: JsValue)
    ensures QueryPair(k, x) in QueryPairs(es) <==>
      exists i | 0 <= i < |es| :: es[i].key == k && Yields(es[i].value, x)
  {
    if es != [] {
      QueryPairsExact(es[1..], k, x);
      assert forall i | 1 <= i < |es| :: es[1..][i - 1] == es[i];
      var e := es[0];
      if e.value.Array? && !Dropped(e.value) {
        var ps := EntryPairs(e);
        assert QueryPair(k, x) in ps <==> e.key == k && x in e.value.items by {
          if QueryPair(k, x) in ps {
            var i :| 0 <= i < |ps| && ps[i] == QueryPair(k, x);
            assert e.value.items[i] == x;
          }
          if e.key == k && x in e.value.items {
            var i :| 0 <= i < |e.value.items| && e.value.items[i] == x;
            assert ps[i] == QueryPair(k, x);
          }
        }
      }
    }
  }

  /** The query is empty exactly when every entry is dropped or an empty array. */
  lemma {:induction false} QueryEmptyExactly(es: seq<Entry>)
    ensures QueryPairs(es) == [] <==>
      forall i | 0 <= i < |es| :: Dropped(es[i].value) || es[i].value == Array([])
  {
    if es != [] {
      QueryEmptyExactly(es[1..]);
      assert forall i | 1 <= i < |es| :: es[1..][i - 1] == es[i];
      var e := es[0];
      if !Dropped(e.value) && e.value.Array? && e.value.items != [] {
        assert EntryPairs(e)[0] == QueryPair(e.key, e.value.items[0]);
      }
    }
  }

  /** The inner `forEach` of `buildQuery`: appends one pair per element of
      an array value, in order. */
  method AppendArray(sp: seq<QueryPair>, key: string, xs: seq<JsValue>) returns (out: seq<QueryPair>)
    ensures out == sp + ArrayPairs(key, xs)
  {
    out := sp;
    var j := 0;
    while j < |xs|
      invariant 0 <= j <= |xs|
      invariant out == sp + ArrayPairs(key, xs[..j])
    {
      assert ArrayPairs(key, xs[..j + 1]) == ArrayPairs(key, xs[..j]) + [QueryPair(key, xs[j])];
      out := out + [QueryPair(key, xs[j])];
      j := j + 1;
    }
    assert xs[..j] == xs;
  }

  /** `buildQuery(params)`: None is the empty string, Some(pairs) is
      `"?" + pairs`. A missing `params` counts as `{}`. */
  method BuildQuery(params: Option<seq<Entry>>) returns (query: Option<seq<QueryPair>>)
    ensures var es := params.GetOr([]);
      && (query.None? <==> forall i | 0 <= i < |es| :: Dropped(es[i].value) || es[i].value == Array([]))
      && (query.Some? ==> query.value == QueryPairs(es) && query.value != [])
  {
    var es := params.GetOr([]);
    var sp: seq<QueryPair> := [];
    var i := 0;
    while i < |es|
      invariant 0 <= i <= |es|
      invariant sp == QueryPairs(es[..i])
    {
      var e := es[i];
      if !Dropped(e.value) {
        match e.value
        case Array(xs) =>
          sp := AppendArray(sp, e.key, xs);
        case Scalar(x) =>
          sp := sp + [QueryPair(e.key, x)];
      }
      assert sp == QueryPairs(es[..i]) + EntryPairs(e);
      QueryPairsStep(es, i);
      i := i + 1;
    }
    assert es[..i] == es;
    QueryEmptyExactly(es);
    query := if sp == [] then None else Some(sp);
  }

  /* ---------- Image URLs ---------- */

  function Lower(c: char): char {
    if 'A' <= c <= 'Z' then (c as int + 32) as char else c
  }

  /** `s` starts with `prefix`, ignoring the case of ASCII letters. */
  predicate StartsWithIgnoringCase(s: string, prefix: string) {
    |prefix| <= |s| && forall i | 0 <= i < |prefix| :: Lower(s[i]) == prefix[i]
  }

  /** `/^https?:\/\//i.test(url)` */
  predicate HasHttpScheme(url: string) {
    StartsWithIgnoringCase(url, "http://") || StartsWithIgnoringCase(url, "https://")
  }

  /** `ensureFullUrl(url)` against the base address `base`. */
  function EnsureFullUrl(base: string, url: Option<string>): (r: Option<string>)
    ensures !Present(url) <==> r.None?
    ensures Present(url) && HasHttpScheme(url.value) ==> r == url
    ensures r.Some? ==> r.value != ""
  {
    if !Present(url) then None
    else if HasHttpScheme(url.value) then url
    else Some(base + (if url.value[0] == '/' then "" else "/") + url.value)
  }

  /** A relative path is joined to a base without a trailing slash with
      exactly one slash: the result is the base, a slash, and the path
      without its leading slash. */
  lemma EnsureFullUrlJoin(base: string, url: string)
    requires url != "" && !HasHttpScheme(url)
    requires base == [] || base[|base| - 1] != '/'
    ensures var rest := if url[0] == '/' then url[1..] else url;
      var r := EnsureFullUrl(base, Some(url)).value;
      && r == base + "/" + rest
      && r[|base|] == '/'
      && (|base| > 0 ==> r[|base| - 1] != '/')
      && (rest == [] || rest[0] != '/' ==> |r| == |base| + 1 || r[|base| + 1] != '/')
  {
    if url[0] == '/' {
      assert url == "/" + url[1..];
    }
  }

  /* ---------- Raw payloads ---------- */

  /** `img.variant`: absent or falsy, an object (whose `_id` may be
      missing), or an id. */
  datatype VariantRef = NoRef | RefObject(dbId: Option<string>) | RefId(id: string)

  /** An element of the product's `images` array (`dbId` fields are `_id`). */
  datatype RawImage = RawImage(
    fullUrl: Option<string>, fullImageUrl: Option<string>,
    url: Option<string>, imageUrl: Option<string>,
    variantId: Option<string>, variant: VariantRef,
    isPrimary: JsValue, isPrimarySnake: JsValue, primary: JsValue)

  /** A variant's `color` or `size`: absent, an object, or a plain value. */
  datatype RawAttr = NoAttr | AttrObject(name: Option<string>, altName: Option<string>, value: Option<string>) | AttrText(text: string)

  datatype RawVariant = RawVariant(
    id: Option<string>, dbId: Option<string>,
    color: RawAttr, size: RawAttr,
    sku: Option<string>, skuUpper: Option<string>,
    price: JsValue, currentStock: JsValue, stock: JsValue)

  /** The product fields `normalizeProduct` reads. */
  datatype RawProduct = RawProduct(
    id: Option<string>, dbId: Option<string>,
    images: Option<seq<Option<RawImage>>>,
    primaryImageFullUrl: Option<string>, primaryImage: Option<string>, image: Option<string>,
    discount: JsValue, basePrice: JsValue, discountPrice: JsValue,
    name: Option<string>, title: Option<string>,
    shortDescription: Option<string>, description: Option<string>, longDescription: Option<string>,
    totalStock: JsValue, stock: JsValue,
    rating: JsValue, avgRating: JsValue, reviewCount: JsValue, reviews: JsValue,
    variants: Option<seq<RawVariant>>)

  /* ---------- Normalised shapes ---------- */

  datatype Image = Image(fullUrl: Option<string>, variantId: Option<string>, isPrimary: bool)

  datatype Attr = Attr(name: string, value: string)

  datatype Variant = Variant(
    id: Option<string>, sku: Option<string>, price: JsValue, stock: JsValue,
    color: Option<Attr>, size: Option<Attr>, images: seq<string>)

  datatype Product = Product(
    id: Option<string>, images: seq<Image>, image: Option<string>,
    discountPercent: real,
    name: string, shortDescription: string, description: string,
    price: JsValue, originalPrice: JsValue,
    stock: JsValue, inStock: bool,
    rating: JsValue, reviews: JsValue,
    variants: seq<Variant>, generalImages: seq<string>, imagesUrls: seq<string>)

  /** `String(obj)` of an object: what a `variant` object without `_id`
      becomes when it is compared as a variant id. */
  const ObjectText := "[object Object]"

  /** `x || null` on an optional string. */
  function OrNull(x: Option<string>): Option<string> {
    if Present(x) then x else None
  }

  /** One element of `images` as the normaliser reshapes it. */
  function NormalizeImage(base: string, img: Option<RawImage>): (c: Image)
    ensures c.fullUrl.None? || c.fullUrl.value != ""
    ensures c.variantId.None? || c.variantId.value != ""
  {
    match img
    case None => Image(None, None, false)
    case Some(m) =>
      Image(
        fullUrl :=
          if Present(m.fullUrl) then m.fullUrl
          else if Present(m.fullImageUrl) then m.fullImageUrl
          else if EnsureFullUrl(base, m.url).Some? then EnsureFullUrl(base, m.url)
          else EnsureFullUrl(base, m.imageUrl),
        variantId :=
          if Present(m.variantId) then m.variantId
          else match m.variant
            case NoRef => None
            case RefId(s) => OrNull(Some(s))
            case RefObject(d) => if Present(d) then d else Some(ObjectText),
        isPrimary := Truthy(m.isPrimary) || Truthy(m.isPrimarySnake) || Truthy(m.primary))
  }

  function NormalizeImages(base: string, raw: Option<seq<Option<RawImage>>>): (imgs: seq<Image>)
    ensures raw.Some? ==> |imgs| == |raw.value|
    ensures raw.Some? ==> forall i | 0 <= i < |imgs| :: imgs[i] == NormalizeImage(base, raw.value[i])
    ensures raw.None? ==> imgs == []
  {
    match raw
    case None => []
    case Some(xs) => seq(|xs|, i requires 0 <= i < |xs| => NormalizeImage(base, xs[i]))
  }

  /** `images.find((i) => i.isPrimary) || images[0] || null` */
  function PrimaryImage(images: seq<Image>): (r: Option<Image>)
    ensures r.None? <==> images == []
    ensures r.Some? ==> r.value in images
    ensures (exists i | 0 <= i < |images| :: images[i].isPrimary) ==> r.Some? && r.value.isPrimary
    ensures r.Some? && r.value.isPrimary ==> exists k | 0 <= k < |images| ::
      images[k] == r.value && forall j | 0 <= j < k :: !images[j].isPrimary
    ensures (forall i | 0 <= i < |images| :: !images[i].isPrimary) && images != [] ==> r == Some(images[0])
  {
    var flagged := FirstPrimary(images);
    if flagged.Some? then flagged else if images != [] then Some(images[0]) else None
  }

  /** `images.find((i) => i.isPrimary)` */
  function FirstPrimary(images: seq<Image>): (r: Option<Image>)
    ensures r.Some? <==> exists i | 0 <= i < |images| :: images[i].isPrimary
    ensures r.Some? ==> r.value in images && r.value.isPrimary
    ensures r.Some? ==> exists k | 0 <= k < |images| ::
      images[k] == r.value && forall j | 0 <= j < k :: !images[j].isPrimary
  {
    if images == [] then None
    else if images[0].isPrimary then Some(images[0])
    else
      assert forall i | 1 <= i < |images| :: images[1..][i - 1] == images[i];
      var r := FirstPrimary(images[1..]);
      if r.Some? then
        var k :| 0 <= k < |images[1..]| && images[1..][k] == r.value
          && forall j | 0 <= j < k :: !images[1..][j].isPrimary;
        assert images[k + 1] == r.value && forall j | 0 <= j < k + 1 :: !images[j].isPrimary;
        r
      else r
  }

  /** The display image: `primaryImageFullUrl`, then `primaryImage`, then the
      primary (or first) element of `images`, then `image`, then none. */
  function ChooseImage(base: string, raw: RawProduct, images: seq<Image>): (r: Option<string>)
    ensures r.None? || r.value != ""
    ensures Present(raw.primaryImageFullUrl) ==> r == raw.primaryImageFullUrl
    ensures r.None? ==>
      !Present(raw.primaryImageFullUrl) && !Present(raw.primaryImage) && (images == [] ==> !Present(raw.image))
  {
    if Present(raw.primaryImageFullUrl) then raw.primaryImageFullUrl
    else if Present(raw.primaryImage) then EnsureFullUrl(base, raw.primaryImage)
    else if PrimaryImage(images).Some? then OrNull(PrimaryImage(images).value.fullUrl)
    else if Present(raw.image) then EnsureFullUrl(base, raw.image)
    else None
  }

  /** `Math.round(x)` */
  function Round(x: real): int {
    (x + 0.5).Floor
  }

  /** `discountPercent`: a numeric `discount` as it is; otherwise, with
      numeric prices and a positive base price, the rounded percentage off,
      never below zero; otherwise 0. */
  function DiscountPercent(discount: JsValue, basePrice: JsValue, discountPrice: JsValue): (r: real)
    ensures IsNumber(discount) ==> r == discount.n
    ensures !IsNumber(discount) ==> r >= 0.0 && r == r.Floor as real
    ensures !IsNumber(discount) && !(IsNumber(basePrice) && IsNumber(discountPrice) && basePrice.n > 0.0) ==> r == 0.0
  {
    if IsNumber(discount) then discount.n
    else if IsNumber(basePrice) && IsNumber(discountPrice) && basePrice.n > 0.0 then
      var pct := Round((1.0 - discountPrice.n / basePrice.n) * 100.0);
      if pct > 0 then pct as real else 0.0
    else 0.0
  }

  /** The derived percentage is the exact percentage off rounded to the
      nearest whole number, is never negative, and is 0 when the discount
      price is not below the base price. */
  lemma DiscountPercentRounds(basePrice: real, discountPrice: real, discount: JsValue)
    requires !IsNumber(discount) && basePrice > 0.0
    ensures var d := DiscountPercent(discount, Num(basePrice), Num(discountPrice));
      var exact := (1.0 - discountPrice / basePrice) * 100.0;
      && d >= 0.0
      && (discountPrice >= basePrice ==> d == 0.0)
      && (exact >= 0.0 ==> d - 0.5 <= exact < d + 0.5)
      && (discountPrice >= 0.0 ==> d <= 100.0)
  {
    var exact := (1.0 - discountPrice / basePrice) * 100.0;
    if discountPrice >= basePrice {
      assert discountPrice / basePrice >= 1.0;
    }
    if discountPrice >= 0.0 {
      assert discountPrice / basePrice >= 0.0;
      assert exact <= 100.0;
    }
  }

  /** `dp < basePrice` for a numeric `dp`, with JavaScript's coercion of
      `null` and booleans; `undefined` and strings compare as NaN. */
  predicate LessThan(dp: real, basePrice: JsValue) {
    match basePrice
    case Num(b) => dp < b
    case Null => dp < 0.0
    case Bool(b) => dp < (if b then 1.0 else 0.0)
    case _ => false
  }

  /** `attr ? (typeof attr === "object" ? {...} : { name: attr, value: "" }) : null` */
  function NormalizeAttr(a: RawAttr): Option<Attr> {
    match a
    case NoAttr => None
    case AttrText(t) => if t == "" then None else Some(Attr(t, ""))
    case AttrObject(n, alt, v) =>
      Some(Attr(if Present(n) then n.value else if Present(alt) then alt.value else "",
                if Present(v) then v.value else ""))
  }

  /** Which image URLs a list keeps. */
  datatype ImageSelection = AllImages | Untagged | ForVariant(id: string)

  predicate Selects(sel: ImageSelection, img: Image) {
    match sel
    case AllImages => true
    case Untagged => !Present(img.variantId)
    case ForVariant(id) => Present(img.variantId) && img.variantId.value == id
  }

  /** `images.filter(sel).map((img) => img.fullUrl).filter(Boolean)` */
  function Urls(images: seq<Image>, sel: ImageSelection): (r: seq<string>)
    ensures |r| <= |images|
    ensures forall u | u in r :: u != ""
  {
    if images == [] then []
    else
      (if Selects(sel, images[0]) && Present(images[0].fullUrl) then [images[0].fullUrl.value] else [])
      + Urls(images[1..], sel)
  }

  /** A URL is in a selection exactly when some selected image has it as
      its (non-empty) full URL. */
  lemma {:induction false} UrlsExact(images: seq<Image>, sel: ImageSelection, u: string)
    ensures u in Urls(images, sel) <==>
      exists i | 0 <= i < |images| :: Selects(sel, images[i]) && images[i].fullUrl == Some(u) && u != ""
  {
    if images != [] {
      UrlsExact(images[1..], sel, u);
      assert forall i | 1 <= i < |images| :: images[1..][i - 1] == images[i];
    }
  }

  /** Every image URL is either general or tied to a variant id: the URLs of
      all images are as many as the general ones and the tagged ones. */
  lemma {:induction false} UrlsPartition(images: seq<Image>)
    ensures |Urls(images, AllImages)| == |Urls(images, Untagged)| + |TaggedUrls(images)|
  {
    if images != [] {
      UrlsPartition(images[1..]);
    }
  }

  /** The URLs of the images that carry a variant id. */
  function TaggedUrls(images: seq<Image>): seq<string> {
    if images == [] then []
    else
      (if Present(images[0].variantId) && Present(images[0].fullUrl) then [images[0].fullUrl.value] else [])
      + TaggedUrls(images[1..])
  }

  /** One entry of `variants` as the normaliser maps it. */
  function NormalizeVariant(v: RawVariant, images: seq<Image>): (r: Variant)
    ensures Present(r.id) <==> Present(v.dbId) || Present(v.id)
    ensures r.sku.None? || r.sku.value != ""
    ensures !Nullish(r.stock)
    ensures r.stock == (if !Nullish(v.currentStock) then v.currentStock
                        else if !Nullish(v.stock) then v.stock else Num(0.0))
    ensures r.price == (if Nullish(v.price) then Null else v.price)
    ensures |r.images| <= |images| && forall u | u in r.images :: u != ""
  {
    var id := OrElse(v.dbId, v.id);
    Variant(
      id := id,
      sku := if Present(v.sku) then v.sku else OrNull(v.skuUpper),
      price := Coalesce(v.price, Null),
      stock := Coalesce(v.currentStock, Coalesce(v.stock, Num(0.0))),
      color := NormalizeAttr(v.color),
      size := NormalizeAttr(v.size),
      images := Urls(images, ForVariant(Template(id))))
  }

  /** `price`: `discountPrice ?? basePrice ?? null`, and `originalPrice`:
      the base price when a numeric discount price is below it, else null. */
  function Prices(basePrice: JsValue, discountPrice: JsValue): (r: (JsValue, JsValue))
    ensures r.1.Num? ==> r.0.Num? && r.0.n < r.1.n
    ensures IsNumber(discountPrice) && IsNumber(basePrice) && discountPrice.n < basePrice.n ==> r.1 == basePrice
    ensures !IsNumber(discountPrice) ==> r.1 == Null
    ensures !(IsNumber(discountPrice) && LessThan(discountPrice.n, basePrice)) ==> r.1 == Null
    ensures IsNumber(discountPrice) && LessThan(discountPrice.n, basePrice) ==> r.1 == basePrice
    ensures !Nullish(discountPrice) ==> r.0 == discountPrice
    ensures Nullish(discountPrice) ==> r.0 == (if Nullish(basePrice) then Null else basePrice)
  {
    (Coalesce(discountPrice, Coalesce(basePrice, Null)),
     if IsNumber(discountPrice) && LessThan(discountPrice.n, basePrice) then basePrice else Null)
  }

  /** `stock`: `totalStock ?? stock ?? 0`, and `inStock`, computed after
      `stock` was reassigned, from `totalStock ?? stock ?? 0` again: it is
      whether that stock is positive. */
  function Stock(totalStock: JsValue, stock: JsValue): (r: (JsValue, bool))
    ensures r.1 <==> Positive(r.0)
    ensures r.0 == (if !Nullish(totalStock) then totalStock else if !Nullish(stock) then stock else Num(0.0))
  {
    var s := Coalesce(totalStock, Coalesce(stock, Num(0.0)));
    (s, Positive(Coalesce(totalStock, Coalesce(s, Num(0.0)))))
  }

  /** `name || title || "Untitled product"` */
  function DisplayName(name: Option<string>, title: Option<string>): (r: string)
    ensures r != ""
    ensures Present(name) ==> r == name.value
    ensures !Present(name) ==> r == (if Present(title) then title.value else "Untitled product")
  {
    if Present(name) then name.value else if Present(title) then title.value else "Untitled product"
  }

  /** `a || b || ""` on two optional strings. */
  function TextOr(a: Option<string>, b: Option<string>): string {
    if Present(a) then a.value else if Present(b) then b.value else ""
  }

  function NormalizeVariants(raw: Option<seq<RawVariant>>, images: seq<Image>): (vs: seq<Variant>)
    ensures |vs| == |raw.GetOr([])|
    ensures forall i | 0 <= i < |vs| :: vs[i] == NormalizeVariant(raw.GetOr([])[i], images)
  {
    var variants := raw.GetOr([]);
    seq(|variants|, i requires 0 <= i < |variants| => NormalizeVariant(variants[i], images))
  }

  /** `normalizeProduct(raw)` against the base address `base`: the fields
      it assigns on its copy of `raw`. */
  function NormalizeProduct(base: string, raw: RawProduct): (p: Product)
    ensures p.inStock <==> Positive(p.stock)
    ensures p.originalPrice.Num? ==> p.price.Num? && p.price.n < p.originalPrice.n
    ensures !IsNumber(raw.discount) ==> p.discountPercent >= 0.0
    ensures |p.variants| == |raw.variants.GetOr([])|
    ensures p.name != ""
  {
    var images := NormalizeImages(base, raw.images);
    var prices := Prices(raw.basePrice, raw.discountPrice);
    var stock := Stock(raw.totalStock, raw.stock);
    Product(
      id := OrElse(raw.dbId, raw.id),
      images := images,
      image := ChooseImage(base, raw, images),
      discountPercent := DiscountPercent(raw.discount, raw.basePrice, raw.discountPrice),
      name := DisplayName(raw.name, raw.title),
      shortDescription := TextOr(raw.shortDescription, raw.description),
      description := TextOr(raw.description, raw.longDescription),
      price := prices.0,
      originalPrice := prices.1,
      stock := stock.0,
      inStock := stock.1,
      rating := if IsNumber(raw.rating) then raw.rating else Coalesce(raw.avgRating, Num(0.0)),
      reviews := if IsNumber(raw.reviewCount) then raw.reviewCount else if Truthy(raw.reviews) then raw.reviews else Num(0.0),
      variants := NormalizeVariants(raw.variants, images),
      generalImages := Urls(images, Untagged),
      imagesUrls := Urls(images, AllImages))
  }

  /** The display image follows the precedence chain: a full URL given on
      the product wins, then `primaryImage` made absolute, then the first
      primary-flagged image (else the first image) of a non-empty `images`
      array, and only when there is no image element at all, `image` made
      absolute. */
  lemma ImagePrecedence(base: string, raw: RawProduct)
    ensures var p := NormalizeProduct(base, raw);
      && (Present(raw.primaryImageFullUrl) ==> p.image == raw.primaryImageFullUrl)
      && (!Present(raw.primaryImageFullUrl) && Present(raw.primaryImage) ==>
            p.image == EnsureFullUrl(base, raw.primaryImage))
      && (!Present(raw.primaryImageFullUrl) && !Present(raw.primaryImage) && p.images != [] ==>
            exists i | 0 <= i < |p.images| ::
              p.image == p.images[i].fullUrl
              && (forall j | 0 <= j < i :: !p.images[j].isPrimary)
              && (p.images[i].isPrimary || (i == 0 && forall j | 0 <= j < |p.images| :: !p.images[j].isPrimary)))
      && (!Present(raw.primaryImageFullUrl) && !Present(raw.primaryImage) && p.images == [] ==>
            p.image == EnsureFullUrl(base, raw.image))
  {
    var p := NormalizeProduct(base, raw);
    if !Present(raw.primaryImageFullUrl) && !Present(raw.primaryImage) && p.images != [] {
      var img := PrimaryImage(p.images).value;
      if img.isPrimary {
        var k :| 0 <= k < |p.images| && p.images[k] == img
          && forall j | 0 <= j < k :: !p.images[j].isPrimary;
        assert p.image == p.images[k].fullUrl;
      } else {
        assert forall j | 0 <= j < |p.images| :: !p.images[j].isPrimary;
        assert p.image == p.images[0].fullUrl;
      }
    }
  }

  /** `generalImages` are exactly the URLs of the images without a variant
      id, and each variant's `images` exactly the URLs of the images whose
      variant id, as a string, is the variant's id. */
  lemma NormalizedImagesExact(base: string, raw: RawProduct, u: string)
    ensures var p := NormalizeProduct(base, raw);
      && (u in p.generalImages <==>
            exists i | 0 <= i < |p.images| :: !Present(p.images[i].variantId) && p.images[i].fullUrl == Some(u) && u != "")
      && (forall k | 0 <= k < |p.variants| ::
            u in p.variants[k].images <==>
              exists i | 0 <= i < |p.images| ::
                p.images[i].variantId == Some(Template(p.variants[k].id)) && p.images[i].fullUrl == Some(u) && u != "")
  {
    var p := NormalizeProduct(base, raw);
    UrlsExact(p.images, Untagged, u);
    forall k | 0 <= k < |p.variants|
      ensures u in p.variants[k].images <==>
        exists i | 0 <= i < |p.images| ::
          p.images[i].variantId == Some(Template(p.variants[k].id)) && p.images[i].fullUrl == Some(u) && u != ""
    {
      UrlsExact(p.images, ForVariant(Template(p.variants[k].id)), u);
      forall i | 0 <= i < |p.images|
        ensures Selects(ForVariant(Template(p.variants[k].id)), p.images[i])
                <==> p.images[i].variantId == Some(Template(p.variants[k].id))
      {
        assert p.images[i].variantId.None? || p.images[i].variantId.value != "";
      }
    }
  }

  /* ---------- Offers ---------- */

  /** `fetchOfferProducts`' filter: `(p.discountPercent || 0) >= minDiscount`,
      with `minDiscount` 30 when not given. */
  function OfferProducts(products: seq<Product>, minDiscount: Option<real>): (r: seq<Product>)
    ensures forall p | p in r :: p in products && p.discountPercent >= minDiscount.GetOr(30.0)
    ensures forall p | p in products && p.discountPercent >= minDiscount.GetOr(30.0) :: p in r
    ensures forall p :: multiset(r)[p] == (if p.discountPercent >= minDiscount.GetOr(30.0) then multiset(products)[p] else 0)
  {
    var keep := (p: Product) => p.discountPercent >= minDiscount.GetOr(30.0);
    FilterMultiset(products, keep);
    Filter(products, keep)
  }
}
