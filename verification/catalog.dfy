/** The product catalog of `server/routes/products.js`: the filtered, sorted,
    paginated listing, the featured list, and the one-review-per-user rule. */
module Catalog {
  import opened Common

  datatype Review = Review(user: UserId, name: string, rating: real, comment: string)

  datatype Product = Product(
    id: ProductId,
    name: string,
    price: real,
    compareAtPrice: Option<real>,
    stock: nat,
    category: string,
    brand: Option<string>,
    tags: seq<string>,
    rating: real,
    numReviews: nat,
    reviews: seq<Review>,
    featured: bool,
    isActive: bool,
    sold: nat,
    createdAt: int)

  /** The catalog as `findById` sees it. */
  type ProductStore = map<ProductId, Product>

  // ---------------------------------------------------------------------
  // Query parameters

  /** The listing filters once parsed; `None` is a parameter that is absent
      or empty (and so skipped by the handler's truthiness tests). `tags` is
      the raw comma-separated parameter. */
  datatype Filter = Filter(
    category: Option<string>,
    minPrice: Option<real>,
    maxPrice: Option<real>,
    minRating: Option<real>,
    brand: Option<string>,
    tags: Option<string>)

  /** `String.prototype.split(',')`. */
  function Split(s: string): (parts: seq<string>)
    ensures |parts| >= 1
    ensures forall i :: 0 <= i < |parts| ==> ',' !in parts[i]
  {
    if |s| == 0 then [""]
    else
      var rest := Split(s[1..]);
      if s[0] == ',' then [""] + rest
      else [[s[0]] + rest[0]] + rest[1..]
  }

  /** `Array.prototype.join(',')`, the inverse of `Split`. */
  function Join(parts: seq<string>): string
    requires |parts| >= 1
  {
    if |parts| == 1 then parts[0] else parts[0] + "," + Join(parts[1..])
  }

  lemma {:induction false} JoinSplit(s: string)
    ensures Join(Split(s)) == s
  {
    if |s| > 0 {
      var rest := Split(s[1..]);
      JoinSplit(s[1..]);
      assert s == [s[0]] + s[1..];
      if s[0] == ',' {
        JoinEmptyHead(rest);
      } else {
        JoinGrow(s[0], rest);
      }
    }
  }

  /** An empty first piece contributes just its separator. */
  lemma JoinEmptyHead(rest: seq<string>)
    requires |rest| >= 1
    ensures Join([""] + rest) == [','] + Join(rest)
  {
    assert ([""] + rest)[1..] == rest;
  }

  /** Growing the first piece by a character grows the joined text by it. */
  lemma JoinGrow(c: char, rest: seq<string>)
    requires |rest| >= 1
    ensures Join([[c] + rest[0]] + rest[1..]) == [c] + Join(rest)
  {
    if |rest| > 1 {
      JoinGrowMany(c, rest);
    }
  }

  lemma JoinGrowMany(c: char, rest: seq<string>)
    requires |rest| > 1
    ensures Join([[c] + rest[0]] + rest[1..]) == [c] + Join(rest)
  {
    var parts := [[c] + rest[0]] + rest[1..];
    var t := Join(rest[1..]);
    assert Join(parts) == [c] + rest[0] + "," + t by {
      assert parts[1..] == rest[1..];
    }
    Regroup([c], rest[0], "," + t);
  }

  lemma Regroup(a: string, b: string, d: string)
    ensures a + b + d == a + (b + d)
  {
  }

  lemma {:induction false} SplitJoin(parts: seq<string>)
    requires |parts| >= 1
    requires forall i :: 0 <= i < |parts| ==> ',' !in parts[i]
    ensures Split(Join(parts)) == parts
  {
    if |parts| == 1 {
      SplitNoComma(parts[0]);
    } else {
      SplitJoin(parts[1..]);
      SplitPrefix(parts[0], Join(parts[1..]));
      assert parts == [parts[0]] + parts[1..];
    }
  }

  lemma {:induction false} SplitNoComma(s: string)
    requires ',' !in s
    ensures Split(s) == [s]
  {
    if |s| > 0 {
      SplitNoComma(s[1..]);
      assert s == [s[0]] + s[1..];
    }
  }

  /** Splitting `w + "," + t` for a comma-free `w` yields `w` and then the
      pieces of `t`. */
  lemma {:induction false} SplitPrefix(w: string, t: string)
    requires ',' !in w
    ensures Split(w + "," + t) == [w] + Split(t)
  {
    if |w| == 0 {
      assert w + "," + t == [','] + t;
      assert (w + "," + t)[1..] == t;
    } else {
      SplitPrefix(w[1..], t);
      assert (w + "," + t)[1..] == w[1..] + "," + t;
      assert w == [w[0]] + w[1..];
    }
  }

  /** The `$in` test of the tag filter, computed element by element. */
  function SharesTag(tags: seq<string>, wanted: seq<string>): (b: bool)
    ensures b <==> exists t :: t in tags && t in wanted
  {
    if |tags| == 0 then false
    else if tags[0] in wanted then true
    else
      assert forall t :: t in tags ==> t == tags[0] || t in tags[1..];
      SharesTag(tags[1..], wanted)
  }

  /** The conjunctive query built at products.js:16-48. */
  predicate Matches(p: Product, f: Filter) {
    && p.isActive
    && (f.category.Some? ==> p.category == f.category.value)
    && (f.minPrice.Some? ==> f.minPrice.value <= p.price)
    && (f.maxPrice.Some? ==> p.price <= f.maxPrice.value)
    && (f.minRating.Some? ==> f.minRating.value <= p.rating)
    && (f.brand.Some? ==> p.brand == Some(f.brand.value))
    && (f.tags.Some? ==> SharesTag(p.tags, Split(f.tags.value)))
  }

  /** The products a query keeps, in collection order. */
  function Select(products: seq<Product>, f: Filter): (r: seq<Product>)
    ensures |r| <= |products|
    ensures forall p :: p in r <==> p in products && Matches(p, f)
  {
    if |products| == 0 then []
    else
      var rest := Select(products[1..], f);
      assert forall p :: p in products <==> p == products[0] || p in products[1..];
      if Matches(products[0], f) then [products[0]] + rest else rest
  }

  /** `countDocuments` and the listing see each matching product exactly as
      often as the collection holds it, and nothing else. */
  lemma {:induction false} SelectCounts(products: seq<Product>, f: Filter)
    ensures forall p :: multiset(Select(products, f))[p]
                          == (if Matches(p, f) then multiset(products)[p] else 0)
  {
    if |products| > 0 {
      SelectCounts(products[1..], f);
      assert products == [products[0]] + products[1..];
    }
  }

  // ---------------------------------------------------------------------
  // Sorting

  /** The sort orders products.js:51-75 can produce. */
  datatype SortKey = PriceAsc | PriceDesc | RatingDesc | Newest | Popular

  /** The `sort` parameter mapped to its key; `newest`, an unknown value and
      an absent parameter all sort by creation time, newest first. */
  function ParseSort(param: Option<string>): (k: SortKey)
    ensures param == Some("price-asc") <==> k == PriceAsc
    ensures param == Some("price-desc") <==> k == PriceDesc
    ensures param == Some("rating") <==> k == RatingDesc
    ensures param == Some("popular") <==> k == Popular
    ensures k == Newest <==>
      param !in {Some("price-asc"), Some("price-desc"), Some("rating"), Some("popular")}
  {
    match param
    case None => Newest
    case Some(s) =>
      if s == "price-asc" then PriceAsc
      else if s == "price-desc" then PriceDesc
      else if s == "rating" then RatingDesc
      else if s == "newest" then Newest
      else if s == "popular" then Popular
      else Newest
  }

  /** Every key sorts some field in descending order of this score. */
  function Score(k: SortKey, p: Product): real {
    match k
    case PriceAsc => -p.price
    case PriceDesc => p.price
    case RatingDesc => p.rating
    case Newest => p.createdAt as real
    case Popular => p.sold as real
  }

  ghost predicate Sorted(k: SortKey, s: seq<Product>) {
    forall i, j :: 0 <= i < j < |s| ==> Score(k, s[i]) >= Score(k, s[j])
  }

  /** Inserts `x` before the first element it does not score below. */
  function Insert(k: SortKey, x: Product, s: seq<Product>): (r: seq<Product>)
    ensures multiset(r) == multiset(s) + multiset{x}
  {
    if |s| == 0 then [x]
    else if Score(k, x) >= Score(k, s[0]) then [x] + s
    else
      assert s == [s[0]] + s[1..];
      [s[0]] + Insert(k, x, s[1..])
  }

  lemma {:induction false} InsertSorted(k: SortKey, x: Product, s: seq<Product>)
    requires Sorted(k, s)
    ensures Sorted(k, Insert(k, x, s))
  {
    if |s| > 0 && Score(k, x) < Score(k, s[0]) {
      var rest := Insert(k, x, s[1..]);
      InsertSorted(k, x, s[1..]);
      forall j | 0 <= j < |rest|
        ensures Score(k, s[0]) >= Score(k, rest[j])
      {
        assert rest[j] in rest;
        InsertMember(k, x, s[1..], rest[j]);
        if rest[j] != x {
          var i :| 0 <= i < |s[1..]| && s[1..][i] == rest[j];
          assert s[1 + i] == rest[j];
        }
      }
      SortedCons(k, s[0], rest);
    }
  }

  /** Insertion adds `x` and nothing else. */
  lemma InsertMember(k: SortKey, x: Product, s: seq<Product>, y: Product)
    ensures y in Insert(k, x, s) <==> y == x || y in s
  {
    assert y in Insert(k, x, s) <==> y in multiset(Insert(k, x, s));
    assert y in s <==> y in multiset(s);
  }

  lemma SortedCons(k: SortKey, h: Product, t: seq<Product>)
    requires Sorted(k, t)
    requires forall j :: 0 <= j < |t| ==> Score(k, h) >= Score(k, t[j])
    ensures Sorted(k, [h] + t)
  {
    forall i, j | 0 <= i < j < |[h] + t|
      ensures Score(k, ([h] + t)[i]) >= Score(k, ([h] + t)[j])
    {
      assert ([h] + t)[j] == t[j - 1];
      if i > 0 { assert ([h] + t)[i] == t[i - 1]; }
    }
  }

  /** The order the database returns for a sort key. */
  function SortBy(k: SortKey, s: seq<Product>): (r: seq<Product>)
    ensures multiset(r) == multiset(s)
    ensures |r| == |s|
  {
    if |s| == 0 then []
    else
      assert s == [s[0]] + s[1..];
      var r := Insert(k, s[0], SortBy(k, s[1..]));
      assert |multiset(r)| == |multiset(s)|;
      r
  }

  lemma {:induction false} SortBySorted(k: SortKey, s: seq<Product>)
    ensures Sorted(k, SortBy(k, s))
  {
    if |s| > 0 {
      SortBySorted(k, s[1..]);
      InsertSorted(k, s[0], SortBy(k, s[1..]));
    }
  }

  /** Sorting keeps exactly the products it was given. */
  lemma SortByMembers(k: SortKey, s: seq<Product>, p: Product)
    ensures p in SortBy(k, s) <==> p in s
  {
    assert p in SortBy(k, s) <==> p in multiset(SortBy(k, s));
    assert p in s <==> p in multiset(s);
  }

  /** `price-asc` output is non-decreasing in price, `price-desc` output
      non-increasing. */
  lemma PriceOrder(param: Option<string>, s: seq<Product>)
    ensures param == Some("price-asc") ==>
      forall i, j :: 0 <= i < j < |SortBy(ParseSort(param), s)| ==>
        SortBy(ParseSort(param), s)[i].price <= SortBy(ParseSort(param), s)[j].price
    ensures param == Some("price-desc") ==>
      forall i, j :: 0 <= i < j < |SortBy(ParseSort(param), s)| ==>
        SortBy(ParseSort(param), s)[i].price >= SortBy(ParseSort(param), s)[j].price
  {
    SortBySorted(ParseSort(param), s);
  }

  // ---------------------------------------------------------------------
  // Pagination

  const DefaultPage: nat := 1
  const DefaultLimit: nat := 12

  /** `parseInt(x) || d`: a missing, unparsable or zero parameter takes the
      default `d`. */
  function OrDefault(param: Option<nat>, d: nat): (n: nat)
    requires d > 0
    ensures n > 0
    ensures n == d <==> param.None? || param.value == 0 || param.value == d
    ensures param.Some? && param.value != 0 ==> n == param.value
  {
    if param.None? || param.value == 0 then d else param.value
  }

  /** `.skip(skip).limit(limit)`: at most `limit` products from position
      `skip` on. */
  function Window(s: seq<Product>, skip: nat, limit: nat): (r: seq<Product>)
    ensures |r| <= limit
    ensures skip <= |s| ==> |r| == Min(limit, |s| - skip)
    ensures skip > |s| ==> r == []
    ensures forall i :: 0 <= i < |r| ==> skip + i < |s| && r[i] == s[skip + i]
  {
    s[Min(skip, |s|)..Min(skip + limit, |s|)]
  }

  lemma SortedSlice(k: SortKey, s: seq<Product>, from: nat, to: nat)
    requires Sorted(k, s) && from <= to <= |s|
    ensures Sorted(k, s[from..to])
  {
    forall i, j | 0 <= i < j < to - from
      ensures Score(k, s[from..to][i]) >= Score(k, s[from..to][j])
    {
      assert s[from..to][i] == s[from + i] && s[from..to][j] == s[from + j];
    }
  }

  /** A window of a sorted result is sorted and holds only its products. */
  lemma WindowSorted(k: SortKey, s: seq<Product>, skip: nat, limit: nat)
    requires Sorted(k, s)
    ensures Sorted(k, Window(s, skip, limit))
    ensures forall p :: p in Window(s, skip, limit) ==> p in s
  {
    SortedSlice(k, s, Min(skip, |s|), Min(skip + limit, |s|));
  }

  /** `Math.ceil(total / limit)`. */
  function PageCount(total: nat, limit: nat): (pages: nat)
    requires limit > 0
    ensures total == 0 ==> pages == 0
    ensures total > 0 ==> (pages - 1) * limit < total <= pages * limit
  {
    var c := Ceil(total as real / limit as real);
    CeilBounds(total, limit, c);
    c
  }

  lemma CeilBounds(total: nat, limit: nat, c: int)
    requires limit > 0
    requires total as real / limit as real <= c as real < total as real / limit as real + 1.0
    ensures c >= 0
    ensures total == 0 ==> c == 0
    ensures total > 0 ==> (c - 1) * limit < total <= c * limit
  {
    DivideNonNegative(total as real, limit as real);
    CeilUpper(total, limit, c);
    CeilLower(total, limit, c);
  }

  lemma CeilUpper(total: nat, limit: nat, c: int)
    requires limit > 0 && total as real / limit as real <= c as real
    ensures total <= c * limit
  {
    var l := limit as real;
    var q := total as real / l;
    assert q * l == total as real;
    MulMonotone(q, c as real, l);
    CastMul(c, limit);
  }

  lemma CeilLower(total: nat, limit: nat, c: int)
    requires limit > 0 && c as real < total as real / limit as real + 1.0
    ensures (c - 1) * limit < total
  {
    var l := limit as real;
    var q := total as real / l;
    assert q * l == total as real;
    MulStrict(c as real - 1.0, q, l);
    CastMul(c - 1, limit);
  }

  lemma DivideNonNegative(a: real, m: real)
    requires a >= 0.0 && m > 0.0
    ensures a / m >= 0.0
  {
  }

  lemma CastMul(a: int, b: int)
    ensures (a * b) as real == a as real * b as real
  {
  }

  lemma MulMonotone(a: real, b: real, m: real)
    requires a <= b && m > 0.0
    ensures a * m <= b * m
  {
  }

  lemma MulStrict(a: real, b: real, m: real)
    requires a < b && m > 0.0
    ensures a * m < b * m
  {
  }

  datatype Listing = Listing(products: seq<Product>, page: nat, limit: nat, total: nat, pages: nat)

  /** GET /api/products. */
  function ListProducts(
    catalog: seq<Product>, f: Filter, sort: Option<string>,
    pageParam: Option<nat>, limitParam: Option<nat>): (r: Listing)
    ensures r.page >= 1 && r.limit >= 1
    ensures pageParam.Some? && pageParam.value > 0 ==> r.page == pageParam.value
    ensures limitParam.Some? && limitParam.value > 0 ==> r.limit == limitParam.value
    ensures (pageParam.None? || pageParam.value == 0) ==> r.page == DefaultPage
    ensures (limitParam.None? || limitParam.value == 0) ==> r.limit == DefaultLimit
    ensures |r.products| <= r.limit
    ensures var skip := Skip(r.page, r.limit);
            |r.products| == (if skip <= r.total then Min(r.limit, r.total - skip) else 0)
    ensures forall p :: p in r.products ==> p in catalog && Matches(p, f)
    ensures Sorted(ParseSort(sort), r.products)
    ensures r.total == |Select(catalog, f)|
    ensures r.total == 0 ==> r.pages == 0 && r.products == []
    ensures r.total > 0 ==> (r.pages - 1) * r.limit < r.total <= r.pages * r.limit
  {
    var page := OrDefault(pageParam, DefaultPage);
    var limit := OrDefault(limitParam, DefaultLimit);
    var matching := Select(catalog, f);
    Listing(Arrange(matching, ParseSort(sort), Skip(page, limit), limit), page, limit,
            |matching|, PageCount(|matching|, limit))
  }

  /** `(page - 1) * limit`: how many sorted matches precede the 1-indexed
      page. */
  function Skip(page: nat, limit: nat): nat
    requires page >= 1
  {
    (page - 1) * limit
  }

  /** Pages follow each other: the first page starts at the first match, and
      each later page starts `limit` matches after the one before it. */
  lemma SkipSteps(page: nat, limit: nat)
    requires page >= 1
    ensures page == 1 ==> Skip(page, limit) == 0
    ensures page > 1 ==> Skip(page, limit) == Skip(page - 1, limit) + limit
  {
  }

  /** The matching products in the order of `k`, from position `skip` on,
      at most `limit` of them. */
  function Arrange(matching: seq<Product>, k: SortKey, skip: nat, limit: nat): (shown: seq<Product>)
    ensures |shown| <= limit
    ensures |shown| == (if skip <= |matching| then Min(limit, |matching| - skip) else 0)
    ensures |matching| == 0 ==> shown == []
    ensures forall p :: p in shown ==> p in matching
    ensures Sorted(k, shown)
  {
    var sorted := SortBy(k, matching);
    SortBySorted(k, matching);
    WindowSorted(k, sorted, skip, limit);
    assert forall p :: p in sorted ==> p in matching by {
      forall p | p in sorted { SortByMembers(k, matching, p); }
    }
    Window(sorted, skip, limit)
  }

  /** The listed products are the window `[skip, skip + limit)` of the
      matching products in sorted order. */
  lemma ListingIsWindow(matching: seq<Product>, k: SortKey, skip: nat, limit: nat)
    ensures var shown := Arrange(matching, k, skip, limit);
            |shown| == (if skip <= |matching| then Min(limit, |matching| - skip) else 0)
    ensures var shown := Arrange(matching, k, skip, limit);
            forall i :: 0 <= i < |shown| ==>
              skip + i < |matching| && shown[i] == SortBy(k, matching)[skip + i]
    ensures var shown := Arrange(matching, k, skip, limit);
            |shown| > 0 ==>
              skip + |shown| <= |matching| && shown == SortBy(k, matching)[skip..skip + |shown|]
  {
    assert Arrange(matching, k, skip, limit) == Window(SortBy(k, matching), skip, limit);
  }

  /** The listing shows the 1-indexed page: a non-empty page is the run of
      sorted matches that starts at `skip = (page - 1) * limit`. */
  lemma ListingShowsPage(catalog: seq<Product>, f: Filter, sort: Option<string>,
                         pageParam: Option<nat>, limitParam: Option<nat>)
    ensures var r := ListProducts(catalog, f, sort, pageParam, limitParam);
            var skip := Skip(r.page, r.limit);
            |r.products| > 0 ==>
              && skip + |r.products| <= |Select(catalog, f)|
              && r.products == SortBy(ParseSort(sort), Select(catalog, f))[skip..skip + |r.products|]
  {
    var r := ListProducts(catalog, f, sort, pageParam, limitParam);
    ListingArranges(catalog, f, sort, pageParam, limitParam);
    ListingIsWindow(Select(catalog, f), ParseSort(sort), Skip(r.page, r.limit), r.limit);
  }

  lemma ListingArranges(catalog: seq<Product>, f: Filter, sort: Option<string>,
                        pageParam: Option<nat>, limitParam: Option<nat>)
    ensures var r := ListProducts(catalog, f, sort, pageParam, limitParam);
            r.products == Arrange(Select(catalog, f), ParseSort(sort), Skip(r.page, r.limit), r.limit)
  {
  }

  /** A product counts towards `total` exactly when it matches the query:
      the count does not depend on the page asked for. */
  lemma TotalIgnoresPage(catalog: seq<Product>, f: Filter, sort: Option<string>,
                         p1: Option<nat>, p2: Option<nat>, limitParam: Option<nat>)
    ensures ListProducts(catalog, f, sort, p1, limitParam).total
         == ListProducts(catalog, f, sort, p2, limitParam).total
    ensures ListProducts(catalog, f, sort, p1, limitParam).pages
         == ListProducts(catalog, f, sort, p2, limitParam).pages
  {
  }

  /** With the tag filter alone, a product is listed among the matches
      exactly when one of its tags is one of the comma-separated values. */
  lemma TagFilter(catalog: seq<Product>, tags: string, p: Product)
    ensures p in Select(catalog, Filter(None, None, None, None, None, Some(tags)))
        <==> p in catalog && p.isActive && exists t :: t in p.tags && t in Split(tags)
  {
  }

  // ---------------------------------------------------------------------
  // Featured products

  const FeaturedLimit: nat := 8

  predicate IsFeatured(p: Product) {
    p.featured && p.isActive
  }

  /** The featured, active products, each as often as in the collection. */
  function SelectFeatured(products: seq<Product>): (r: seq<Product>)
    ensures forall p :: p in r <==> p in products && IsFeatured(p)
    ensures forall p :: multiset(r)[p] == (if IsFeatured(p) then multiset(products)[p] else 0)
  {
    if |products| == 0 then []
    else
      var rest := SelectFeatured(products[1..]);
      assert forall p :: p in products <==> p == products[0] || p in products[1..];
      assert products == [products[0]] + products[1..];
      if IsFeatured(products[0]) then [products[0]] + rest else rest
  }

  /** GET /api/products/featured: featured, active, newest first, at most 8.
      The query sorts before it limits, whatever the order of the calls. */
  function Featured(catalog: seq<Product>): (r: seq<Product>)
    ensures |r| == Min(FeaturedLimit, |SelectFeatured(catalog)|)
    ensures forall p :: p in r ==> p in catalog && IsFeatured(p)
    ensures Sorted(Newest, r)
    ensures multiset(r) <= multiset(SelectFeatured(catalog))
    ensures forall p, q :: p in catalog && IsFeatured(p) && p !in r && q in r ==>
              q.createdAt >= p.createdAt
  {
    var featured := SelectFeatured(catalog);
    var sorted := SortBy(Newest, featured);
    var m := Min(FeaturedLimit, |sorted|);
    SortBySorted(Newest, featured);
    assert forall p :: p in sorted <==> p in featured by {
      forall p { SortByMembers(Newest, featured, p); }
    }
    SortedSlice(Newest, sorted, 0, m);
    TopOf(Newest, sorted, m);
    sorted[..m]
  }

  /** The first `m` elements of a sorted list are a sub-multiset of it, and
      each scores at least as high as any element left out. */
  lemma TopOf(k: SortKey, s: seq<Product>, m: nat)
    requires Sorted(k, s) && m <= |s|
    ensures multiset(s[..m]) <= multiset(s)
    ensures forall p, q :: p in s && p !in s[..m] && q in s[..m] ==> Score(k, q) >= Score(k, p)
  {
    assert s == s[..m] + s[m..];
    forall p, q | p in s && p !in s[..m] && q in s[..m]
      ensures Score(k, q) >= Score(k, p)
    {
      var j :| 0 <= j < |s| && s[j] == p;
      var i :| 0 <= i < m && s[..m][i] == q;
      assert j >= m;
    }
  }

  // ---------------------------------------------------------------------
  // Reviews

  function SumRatings(reviews: seq<Review>): real {
    if |reviews| == 0 then 0.0 else reviews[0].rating + SumRatings(reviews[1..])
  }

  /** The product's rating and review count, recomputed from its reviews
      (the arithmetic mean; 0 when there are none). */
  function CalculateAverageRating(p: Product): (q: Product)
    ensures q == p.(rating := q.rating, numReviews := q.numReviews)
    ensures q.numReviews == |p.reviews|
    ensures q.rating * |p.reviews| as real == SumRatings(p.reviews)
    ensures |p.reviews| == 0 ==> q.rating == 0.0
  {
    var n := |p.reviews|;
    p.(rating := if n == 0 then 0.0 else SumRatings(p.reviews) / n as real,
       numReviews := n)
  }

  predicate ReviewedBy(p: Product, user: UserId) {
    exists i :: 0 <= i < |p.reviews| && p.reviews[i].user == user
  }

  ghost predicate OneReviewPerUser(p: Product) {
    forall i, j :: 0 <= i < j < |p.reviews| ==> p.reviews[i].user != p.reviews[j].user
  }

  /** POST /api/products/:id/reviews, answering with the updated catalog. */
  function AddReview(products: ProductStore, id: ProductId, user: UserId, userName: string,
                     rating: real, comment: string): (r: Result<ProductStore>)
    ensures id !in products ==> r == Err(ProductNotFound)
    ensures id in products && ReviewedBy(products[id], user) ==> r == Err(AlreadyReviewed)
    ensures r.Ok? <==> id in products && !ReviewedBy(products[id], user)
    ensures r.Ok? ==>
      var before := products[id];
      && id in r.value
      && var after := r.value[id];
      && r.value == products[id := after]
      && after.reviews == before.reviews + [Review(user, userName, rating, comment)]
      && after == before.(reviews := after.reviews, rating := after.rating,
                          numReviews := after.numReviews)
      && after.numReviews == |after.reviews|
      && after.rating * |after.reviews| as real == SumRatings(after.reviews)
      && (OneReviewPerUser(before) ==> OneReviewPerUser(after))
  {
    if id !in products then Err(ProductNotFound)
    else
      var p := products[id];
      if ReviewedBy(p, user) then Err(AlreadyReviewed)
      else
        var added := p.(reviews := p.reviews + [Review(user, userName, rating, comment)]);
        Ok(products[id := CalculateAverageRating(added)])
  }

  /** When every review rates 1 to 5, so does the recomputed average. */
  lemma {:induction false} AverageInRange(p: Product)
    requires |p.reviews| > 0
    requires forall i :: 0 <= i < |p.reviews| ==> 1.0 <= p.reviews[i].rating <= 5.0
    ensures 1.0 <= CalculateAverageRating(p).rating <= 5.0
  {
    SumRatingsBounds(p.reviews);
    MeanBounds(SumRatings(p.reviews), |p.reviews| as real);
  }

  lemma MeanBounds(sum: real, n: real)
    requires n > 0.0 && n <= sum <= 5.0 * n
    ensures 1.0 <= sum / n <= 5.0
  {
  }

  lemma {:induction false} SumRatingsBounds(reviews: seq<Review>)
    requires forall i :: 0 <= i < |reviews| ==> 1.0 <= reviews[i].rating <= 5.0
    ensures |reviews| as real <= SumRatings(reviews) <= 5.0 * |reviews| as real
  {
    if |reviews| > 0 {
      SumRatingsBounds(reviews[1..]);
    }
  }

  /** A second review by the same user is refused, so the product keeps
      exactly one review from that user. */
  lemma SecondReviewRefused(products: ProductStore, id: ProductId, user: UserId,
                            n1: string, r1: real, c1: string, n2: string, r2: real, c2: string)
    requires AddReview(products, id, user, n1, r1, c1).Ok?
    ensures AddReview(AddReview(products, id, user, n1, r1, c1).value, id, user, n2, r2, c2)
         == Err(AlreadyReviewed)
  {
    var after := AddReview(products, id, user, n1, r1, c1).value[id];
    assert after.reviews[|after.reviews| - 1].user == user;
  }
}
