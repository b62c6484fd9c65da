/** The product listing logic of src/pages/CategoryProducts.jsx: the sort
    key mapping sent to the server, the client-side filter and sort chain
    behind `filteredProducts`, the active filter count, and the removal of
    one selected filter value. */
module CategoryProducts {
  import opened JsValues

  /* ---------- Server-side sort ---------- */

  datatype SortOrder = Asc | Desc

  datatype ServerSort = ServerSort(sortBy: string, sortOrder: SortOrder)

  /** `sortMapping(key)`: price sorts by base price, ascending or
      descending; every other key asks for the newest first. */
  function SortMapping(key: string): (r: ServerSort)
    ensures key == "priceLowHigh" ==> r == ServerSort("basePrice", Asc)
    ensures key == "priceHighLow" ==> r == ServerSort("basePrice", Desc)
    ensures key != "priceLowHigh" && key != "priceHighLow" ==> r == ServerSort("createdAt", Desc)
    ensures r.sortBy == "basePrice" <==> key in {"priceLowHigh", "priceHighLow"}
  {
    if key == "priceLowHigh" then ServerSort("basePrice", Asc)
    else if key == "priceHighLow" then ServerSort("basePrice", Desc)
    else ServerSort("createdAt", Desc)
  }

  /* ---------- Listed products and the filter record ---------- */

  /** A product's `category`: absent, a populated object (whose `_id` may
      be missing) or an id. */
  datatype CategoryRef = NoCategory | CategoryObject(dbId: Option<string>) | CategoryId(id: string)

  /** The fields of a listed product that the filters and sorts read. */
  datatype ListedProduct = ListedProduct(
    category: CategoryRef, brand: Option<string>,
    rating: Option<real>, discountPercent: Option<real>,
    totalStock: JsValue, inStock: JsValue)

  /** The `filters` state record. */
  datatype Filters = Filters(
    categories: seq<string>, brands: seq<string>, priceRange: seq<real>,
    ratings: seq<real>, discounts: seq<real>, inStock: bool, sortBy: string)

  /** The filters a page opens with: its `category` search parameter, when
      non-empty, is the one selected category. */
  function InitialFilters(categoryId: string): (f: Filters)
    ensures ActiveFiltersCount(f) == (if categoryId == "" then 0 else 1)
    ensures f.sortBy == "featured" && f.priceRange == [0.0, 100000.0]
  {
    Filters(if categoryId != "" then [categoryId] else [], [], [0.0, 100000.0], [], [], false, "featured")
  }

  /** `String(obj)` of a category object without `_id`. */
  const ObjectText := "[object Object]"

  /** `p?.category?._id || p?.category`, as the string it is compared as;
      None when it is falsy. */
  function CategoryKey(c: CategoryRef): Option<string> {
    match c
    case NoCategory => None
    case CategoryId(id) => if id == "" then None else Some(id)
    case CategoryObject(d) => if Present(d) then d else Some(ObjectText)
  }

  /** The smallest of a non-empty list of numbers (`Math.min(...xs)`). */
  function Min(xs: seq<real>): (m: real)
    requires xs != []
    ensures m in xs
    ensures forall x | x in xs :: m <= x
  {
    if |xs| == 1 then xs[0]
    else
      var rest := Min(xs[1..]);
      assert forall x | x in xs :: x == xs[0] || x in xs[1..];
      if xs[0] <= rest then xs[0] else rest
  }

  /** Being at least the smallest selected value is being at least one of
      the selected values. */
  lemma AtLeastMin(v: real, xs: seq<real>)
    requires xs != []
    ensures v >= Min(xs) <==> exists x | x in xs :: v >= x
  {
  }

  /* ---------- The filter predicates ---------- */

  /** The category filter: on when categories are selected and the page is
      not the trending page. */
  predicate CategoryOk(f: Filters, trending: bool, p: ListedProduct) {
    |f.categories| == 0 || trending ||
    (CategoryKey(p.category).Some? && CategoryKey(p.category).value in f.categories)
  }

  predicate BrandOk(f: Filters, p: ListedProduct) {
    |f.brands| == 0 || (Present(p.brand) && p.brand.value in f.brands)
  }

  predicate RatingOk(f: Filters, p: ListedProduct) {
    |f.ratings| == 0 || OrZero(p.rating) >= Min(f.ratings)
  }

  predicate DiscountOk(f: Filters, p: ListedProduct) {
    |f.discounts| == 0 || OrZero(p.discountPercent) >= Min(f.discounts)
  }

  /** The in-stock filter: a numeric `totalStock` must be positive;
      otherwise only an `inStock` of exactly `false` excludes. */
  predicate StockOk(f: Filters, p: ListedProduct) {
    !f.inStock ||
    (if IsNumber(p.totalStock) then p.totalStock.n > 0.0 else p.inStock != Bool(false))
  }

  /** The filters applied after the first one, two, ... steps of the chain. */
  predicate UpToBrand(f: Filters, trending: bool, p: ListedProduct) {
    CategoryOk(f, trending, p) && BrandOk(f, p)
  }

  predicate UpToRating(f: Filters, trending: bool, p: ListedProduct) {
    UpToBrand(f, trending, p) && RatingOk(f, p)
  }

  predicate UpToDiscount(f: Filters, trending: bool, p: ListedProduct) {
    UpToRating(f, trending, p) && DiscountOk(f, p)
  }

  /** A product passes every active filter. */
  predicate Passes(f: Filters, trending: bool, p: ListedProduct) {
    UpToDiscount(f, trending, p) && StockOk(f, p)
  }

  /* ---------- Sorting ---------- */

  datatype SortKey = ByRating | ByDiscount

  /** `p.rating || 0` or `p.discountPercent || 0` */
  function Key(k: SortKey, p: ListedProduct): real {
    match k
    case ByRating => OrZero(p.rating)
    case ByDiscount => OrZero(p.discountPercent)
  }

  predicate NonIncreasing(s: seq<ListedProduct>, k: SortKey) {
    forall i, j | 0 <= i < j < |s| :: Key(k, s[i]) >= Key(k, s[j])
  }

  /** Puts `x` before the first element whose key is not greater than its
      own, so that it stays ahead of the elements with an equal key. */
  function Insert(x: ListedProduct, s: seq<ListedProduct>, k: SortKey): (r: seq<ListedProduct>)
    ensures |r| == |s| + 1
  {
    if s == [] || Key(k, x) >= Key(k, s[0]) then [x] + s
    else [s[0]] + Insert(x, s[1..], k)
  }

  lemma {:induction false} InsertMultiset(x: ListedProduct, s: seq<ListedProduct>, k: SortKey)
    ensures multiset(Insert(x, s, k)) == multiset(s) + multiset{x}
  {
    if s != [] && Key(k, x) < Key(k, s[0]) {
      InsertMultiset(x, s[1..], k);
      assert s == [s[0]] + s[1..];
    }
  }

  /** Every key in the result of an insertion is a key of `x` or of `s`,
      so a bound on both bounds all of them. */
  lemma InsertBounded(x: ListedProduct, s: seq<ListedProduct>, k: SortKey, bound: real)
    requires Key(k, x) <= bound
    requires forall i | 0 <= i < |s| :: Key(k, s[i]) <= bound
    ensures forall i | 0 <= i < |s| + 1 :: Key(k, Insert(x, s, k)[i]) <= bound
  {
    var r := Insert(x, s, k);
    InsertMultiset(x, s, k);
    forall i | 0 <= i < |r| ensures Key(k, r[i]) <= bound {
      assert r[i] in multiset(r);
      if r[i] != x {
        assert r[i] in multiset(s);
        var j :| 0 <= j < |s| && s[j] == r[i];
      }
    }
  }

  lemma {:induction false} InsertSorted(x: ListedProduct, s: seq<ListedProduct>, k: SortKey)
    requires NonIncreasing(s, k)
    ensures NonIncreasing(Insert(x, s, k), k)
  {
    var r := Insert(x, s, k);
    if s == [] || Key(k, x) >= Key(k, s[0]) {
      assert r == [x] + s;
      forall i, j | 0 <= i < j < |r| ensures Key(k, r[i]) >= Key(k, r[j]) {
        if i > 0 {
          assert r[i] == s[i - 1] && r[j] == s[j - 1];
        } else {
          assert r[j] == s[j - 1];
        }
      }
    } else {
      var rest := s[1..];
      var t := Insert(x, rest, k);
      assert NonIncreasing(rest, k) by {
        forall i, j | 0 <= i < j < |rest| ensures Key(k, rest[i]) >= Key(k, rest[j]) {
          assert rest[i] == s[i + 1] && rest[j] == s[j + 1];
        }
      }
      InsertSorted(x, rest, k);
      assert forall i | 0 <= i < |rest| :: Key(k, rest[i]) <= Key(k, s[0]) by {
        forall i | 0 <= i < |rest| ensures Key(k, rest[i]) <= Key(k, s[0]) {
          assert rest[i] == s[i + 1];
        }
      }
      InsertBounded(x, rest, k, Key(k, s[0]));
      assert r == [s[0]] + t;
      forall i, j | 0 <= i < j < |r| ensures Key(k, r[i]) >= Key(k, r[j]) {
        assert r[j] == t[j - 1];
        if i > 0 {
          assert r[i] == t[i - 1];
        }
      }
    }
  }

  /** `list.sort((a, b) => key(b) - key(a))`: a stable sort into
      non-increasing key order. */
  function SortDesc(s: seq<ListedProduct>, k: SortKey): (r: seq<ListedProduct>)
    ensures multiset(r) == multiset(s)
    ensures NonIncreasing(r, k)
  {
    if s == [] then []
    else
      var t := SortDesc(s[1..], k);
      InsertMultiset(s[0], t, k);
      InsertSorted(s[0], t, k);
      assert s == [s[0]] + s[1..];
      Insert(s[0], t, k)
  }

  /* ---------- The memo body ---------- */

  /** The category step: filters only when categories are selected off the
      trending page. */
  function CategoryStep(list: seq<ListedProduct>, f: Filters, trending: bool): (r: seq<ListedProduct>)
    ensures r == Filter(list, p => CategoryOk(f, trending, p))
  {
    if |f.categories| > 0 && !trending then Filter(list, p => CategoryOk(f, trending, p))
    else
      FilterAll(list, p => CategoryOk(f, trending, p));
      list
  }

  /** The brand step. */
  function BrandStep(list: seq<ListedProduct>, f: Filters): (r: seq<ListedProduct>)
    ensures r == Filter(list, p => BrandOk(f, p))
  {
    if |f.brands| > 0 then Filter(list, p => BrandOk(f, p))
    else
      FilterAll(list, p => BrandOk(f, p));
      list
  }

  /** The ratings step, against the smallest selected rating. */
  function RatingStep(list: seq<ListedProduct>, f: Filters): (r: seq<ListedProduct>)
    ensures r == Filter(list, p => RatingOk(f, p))
  {
    if |f.ratings| > 0 then
      var minRating := Min(f.ratings);
      FilterSame(list, (p: ListedProduct) => OrZero(p.rating) >= minRating, p => RatingOk(f, p));
      Filter(list, (p: ListedProduct) => OrZero(p.rating) >= minRating)
    else
      FilterAll(list, p => RatingOk(f, p));
      list
  }

  /** The discounts step, against the smallest selected discount. */
  function DiscountStep(list: seq<ListedProduct>, f: Filters): (r: seq<ListedProduct>)
    ensures r == Filter(list, p => DiscountOk(f, p))
  {
    if |f.discounts| > 0 then
      var minDiscount := Min(f.discounts);
      FilterSame(list, (p: ListedProduct) => OrZero(p.discountPercent) >= minDiscount, p => DiscountOk(f, p));
      Filter(list, (p: ListedProduct) => OrZero(p.discountPercent) >= minDiscount)
    else
      FilterAll(list, p => DiscountOk(f, p));
      list
  }

  /** The in-stock step. */
  function StockStep(list: seq<ListedProduct>, f: Filters): (r: seq<ListedProduct>)
    ensures r == Filter(list, p => StockOk(f, p))
  {
    if f.inStock then Filter(list, p => StockOk(f, p))
    else
      FilterAll(list, p => StockOk(f, p));
      list
  }

  /** The five steps in a row keep, in order, the products that pass them all. */
  lemma {:induction false} StepsKeepPassing(all: seq<ListedProduct>, f: Filters, trending: bool)
    ensures StockStep(DiscountStep(RatingStep(BrandStep(CategoryStep(all, f, trending), f), f), f), f)
         == Filter(all, p => Passes(f, trending, p))
  {
    if all != [] {
      StepsKeepPassing(all[1..], f, trending);
    }
  }

  /** The filter steps of `filteredProducts`: a copy of `allProducts`
      (nothing when it is not an array), narrowed by each active filter in
      turn. Together they keep, in order, the products that pass them all. */
  method ApplyFilters(allProducts: Option<seq<ListedProduct>>, filters: Filters, trending: bool)
    returns (list: seq<ListedProduct>)
    ensures list == Filter(allProducts.GetOr([]), p => Passes(filters, trending, p))
  {
    var all := allProducts.GetOr([]);
    list := all;
    list := CategoryStep(list, filters, trending);
    list := BrandStep(list, filters);
    list := RatingStep(list, filters);
    list := DiscountStep(list, filters);
    list := StockStep(list, filters);
    StepsKeepPassing(all, filters, trending);
  }

  /** `filteredProducts`: the filtered copy, then sorted by rating or by
      discount, highest first, when that sort is chosen. It holds only
      products of `allProducts`, at most as often, exactly those that pass
      every active filter. */
  method FilteredProducts(allProducts: Option<seq<ListedProduct>>, filters: Filters, trending: bool)
    returns (list: seq<ListedProduct>)
    ensures multiset(list) <= multiset(allProducts.GetOr([]))
    ensures multiset(list) == multiset(Filter(allProducts.GetOr([]), p => Passes(filters, trending, p)))
    ensures forall p | p in list :: Passes(filters, trending, p)
    ensures forall p | p in allProducts.GetOr([]) && Passes(filters, trending, p) :: p in list
    ensures filters.sortBy == "rating" ==> NonIncreasing(list, ByRating)
    ensures filters.sortBy == "discount" ==> NonIncreasing(list, ByDiscount)
    ensures filters.sortBy != "rating" && filters.sortBy != "discount" ==>
      list == Filter(allProducts.GetOr([]), p => Passes(filters, trending, p))
  {
    list := ApplyFilters(allProducts, filters, trending);
    KeptFacts(allProducts.GetOr([]), filters, trending);
    ghost var kept := list;
    if filters.sortBy == "rating" {
      list := SortDesc(list, ByRating);
    } else if filters.sortBy == "discount" {
      list := SortDesc(list, ByDiscount);
    }
    assert multiset(list) == multiset(kept);
    SameElements(kept, list);
  }

  /** The products that pass the filters: no product more often than in
      the input, and exactly the passing ones. */
  lemma KeptFacts(all: seq<ListedProduct>, f: Filters, trending: bool)
    ensures var kept := Filter(all, p => Passes(f, trending, p));
      && multiset(kept) <= multiset(all)
      && (forall p | p in kept :: Passes(f, trending, p))
      && (forall p | p in all && Passes(f, trending, p) :: p in kept)
  {
    FilterMultiset(all, p => Passes(f, trending, p));
  }

  /** Two lists with the same multiset have the same elements. */
  lemma SameElements(a: seq<ListedProduct>, b: seq<ListedProduct>)
    requires multiset(a) == multiset(b)
    ensures forall p :: p in a <==> p in b
  {
    forall p ensures p in a <==> p in b {
      assert p in a <==> p in multiset(a);
      assert p in b <==> p in multiset(b);
    }
  }

  lemma {:induction false} FilterSame(s: seq<ListedProduct>, a: ListedProduct -> bool, b: ListedProduct -> bool)
    requires forall x :: a(x) == b(x)
    ensures Filter(s, a) == Filter(s, b)
  {
    if s != [] {
      FilterSame(s[1..], a, b);
    }
  }

  /* ---------- Filter chips ---------- */

  /** `activeFiltersCount`: one per selected brand, rating, discount and
      category, and one for in-stock; the price range and the sort order
      are not counted. It is zero exactly when no filter is active. */
  function ActiveFiltersCount(f: Filters): (n: nat)
    ensures n == 0 <==>
      f.brands == [] && f.ratings == [] && f.discounts == [] && !f.inStock && f.categories == []
  {
    |f.brands| + |f.ratings| + |f.discounts| + (if f.inStock then 1 else 0) + |f.categories|
  }

  /** The field named by `handleRemoveFilter`; `Other` is any name the
      record does not have. */
  datatype Field = Categories | Brands | PriceRange | Ratings | Discounts | InStock | SortBy | Other

  /** `arr.filter((v) => v !== value)` on a list of strings. */
  function RemoveText(xs: seq<string>, value: JsValue): (r: seq<string>)
    ensures value.Str? ==> value.s !in r && forall x | x in xs && x != value.s :: x in r
    ensures forall x | x in r :: x in xs
    ensures !value.Str? ==> r == xs
  {
    if value.Str? then Filter(xs, x => x != value.s) else xs
  }

  /** `arr.filter((v) => v !== value)` on a list of numbers. */
  function RemoveNumber(xs: seq<real>, value: JsValue): (r: seq<real>)
    ensures value.Num? ==> value.n !in r && forall x | x in xs && x != value.n :: x in r
    ensures forall x | x in r :: x in xs
    ensures !value.Num? ==> r == xs
  {
    if value.Num? then Filter(xs, x => x != value.n) else xs
  }

  /** `handleRemoveFilter(field, value)`: drops every occurrence of the
      value from an array field; any other field leaves the record as it was. */
  function RemoveFilter(prev: Filters, field: Field, value: JsValue): (next: Filters)
    ensures field in {InStock, SortBy, Other} ==> next == prev
    ensures field == Categories ==> next == prev.(categories := RemoveText(prev.categories, value))
    ensures field == Brands ==> next == prev.(brands := RemoveText(prev.brands, value))
    ensures field == PriceRange ==> next == prev.(priceRange := RemoveNumber(prev.priceRange, value))
    ensures field == Ratings ==> next == prev.(ratings := RemoveNumber(prev.ratings, value))
    ensures field == Discounts ==> next == prev.(discounts := RemoveNumber(prev.discounts, value))
  {
    match field
    case Categories => prev.(categories := RemoveText(prev.categories, value))
    case Brands => prev.(brands := RemoveText(prev.brands, value))
    case PriceRange => prev.(priceRange := RemoveNumber(prev.priceRange, value))
    case Ratings => prev.(ratings := RemoveNumber(prev.ratings, value))
    case Discounts => prev.(discounts := RemoveNumber(prev.discounts, value))
    case _ => prev
  }

  /** Removing a chip lowers the active filter count by the number of times
      the value was selected in that field, and removing it again changes
      nothing. */
  lemma RemoveFilterCount(prev: Filters, field: Field, value: JsValue)
    ensures var next := RemoveFilter(prev, field, value);
      && ActiveFiltersCount(next) <= ActiveFiltersCount(prev)
      && (field == Brands && value.Str? ==>
            ActiveFiltersCount(prev) - ActiveFiltersCount(next) == multiset(prev.brands)[value.s])
      && (field == Categories && value.Str? ==>
            ActiveFiltersCount(prev) - ActiveFiltersCount(next) == multiset(prev.categories)[value.s])
      && (field == Ratings && value.Num? ==>
            ActiveFiltersCount(prev) - ActiveFiltersCount(next) == multiset(prev.ratings)[value.n])
      && (field == Discounts && value.Num? ==>
            ActiveFiltersCount(prev) - ActiveFiltersCount(next) == multiset(prev.discounts)[value.n])
      && RemoveFilter(next, field, value) == next
  {
    var next := RemoveFilter(prev, field, value);
    if value.Str? && field == Brands {
      RemovedCount(prev.brands, value.s, x => x != value.s);
      FilterAll(next.brands, x => x != value.s);
    } else if value.Str? && field == Categories {
      RemovedCount(prev.categories, value.s, x => x != value.s);
      FilterAll(next.categories, x => x != value.s);
    } else if value.Num? && field == Ratings {
      RemovedCount(prev.ratings, value.n, x => x != value.n);
      FilterAll(next.ratings, x => x != value.n);
    } else if value.Num? && field == Discounts {
      RemovedCount(prev.discounts, value.n, x => x != value.n);
      FilterAll(next.discounts, x => x != value.n);
    } else if value.Num? && field == PriceRange {
      FilterAll(next.priceRange, x => x != value.n);
    }
  }

  /** Filtering out one value shortens a list by that value's occurrences. */
  lemma {:induction false} RemovedCount<T>(xs: seq<T>, v: T, keep: T -> bool)
    requires forall x :: keep(x) <==> x != v
    ensures |Filter(xs, keep)| == |xs| - multiset(xs)[v]
  {
    if xs != [] {
      RemovedCount(xs[1..], v, keep);
      assert xs == [xs[0]] + xs[1..];
    }
  }
}
