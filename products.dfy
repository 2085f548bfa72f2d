/**
 * products.controller: the catalogue queries, all pure filters, finds, maps
 * and slices over a fixed product list. The list is a parameter; the
 * controller's own seven demonstration products are SampleProducts, whose
 * creation times depend on the moment the module is loaded.
 */
module Products {
  import opened Tables
  import opened Records
  import opened Pricing

  /** A catalogue entry: the item fields, its review ratings and the `_count` figures (images and owner details are left out). */
  datatype Product = Product(
    id: int,
    name: string,
    description: string,
    category: string,
    price: real,
    rentPrice: real,
    isForRent: bool,
    condition: string,
    status: ItemStatus,
    createdAt: int,
    ownerId: int,
    ratings: seq<int>,
    reviewCount: int,
    wishlistCount: int)

  function ProductId(p: Product): int { p.id }

  /** A product as the handlers send it: every field of the product plus the three computed ones. */
  datatype RatedProduct = RatedProduct(product: Product, averageRating: real, reviewCount: int, wishlistCount: int)

  // ---------------------------------------------------------------------
  // calculateRating
  // ---------------------------------------------------------------------

  function SumRatings(rs: seq<int>): int {
    if rs == [] then 0 else rs[0] + SumRatings(rs[1..])
  }

  /** The mean of the ratings, 0 for none. */
  function AverageRating(rs: seq<int>): real {
    if |rs| > 0 then SumRatings(rs) as real / |rs| as real else 0.0
  }

  /** calculateRating: the product, its mean rating, and the two counts copied from `_count`. */
  function CalculateRating(p: Product): (r: RatedProduct)
    ensures r.product == p
    ensures p.ratings == [] ==> r.averageRating == 0.0
    ensures p.ratings != [] ==> r.averageRating * (|p.ratings| as real) == SumRatings(p.ratings) as real
    ensures r.reviewCount == p.reviewCount && r.wishlistCount == p.wishlistCount
  {
    var average := AverageRating(p.ratings);
    assert p.ratings != [] ==> average * (|p.ratings| as real) == SumRatings(p.ratings) as real;
    RatedProduct(p, average, p.reviewCount, p.wishlistCount)
  }

  /** Ratings between `lo` and `hi` sum to between `lo` and `hi` times their number. */
  lemma {:induction false} SumRatingsBounds(rs: seq<int>, lo: int, hi: int)
    requires forall i :: 0 <= i < |rs| ==> lo <= rs[i] <= hi
    ensures lo * |rs| <= SumRatings(rs) <= hi * |rs|
  {
    if rs != [] {
      SumRatingsBounds(rs[1..], lo, hi);
      assert rs[0] == rs[0];
    }
  }

  /** The average of ratings within a range lies within that range. */
  lemma AverageWithinBounds(rs: seq<int>, lo: int, hi: int)
    requires rs != [] && forall i :: 0 <= i < |rs| ==> lo <= rs[i] <= hi
    ensures lo as real <= AverageRating(rs) <= hi as real
  {
    SumRatingsBounds(rs, lo, hi);
    var n := |rs| as real;
    var s := SumRatings(rs) as real;
    assert lo as real * n <= s <= hi as real * n;
    assert s / n * n == s;
  }

  /** Each product of a list, rated, in order. */
  function MapRated(ps: seq<Product>): (r: seq<RatedProduct>)
    ensures |r| == |ps|
    ensures forall i :: 0 <= i < |ps| ==> r[i] == CalculateRating(ps[i])
    ensures forall p :: p in ps ==> CalculateRating(p) in r
    ensures forall x :: x in r ==> x.product in ps && x == CalculateRating(x.product)
  {
    var r := seq(|ps|, i requires 0 <= i < |ps| => CalculateRating(ps[i]));
    assert forall p :: p in ps ==> CalculateRating(p) in r by {
      forall p | p in ps ensures CalculateRating(p) in r {
        var i :| 0 <= i < |ps| && ps[i] == p;
        assert r[i] == CalculateRating(p);
      }
    }
    r
  }

  /** The products behind a rated list. */
  function ProductsOf(r: seq<RatedProduct>): (ps: seq<Product>)
    ensures |ps| == |r| && forall i :: 0 <= i < |r| ==> ps[i] == r[i].product
  {
    seq(|r|, i requires 0 <= i < |r| => r[i].product)
  }

  /** Rating a list and taking the products back gives the list. */
  lemma ProductsOfMapRated(ps: seq<Product>)
    ensures ProductsOf(MapRated(ps)) == ps
  {
  }

  // ---------------------------------------------------------------------
  // Handlers
  // ---------------------------------------------------------------------

  /** The start of the new-arrivals window: seven days before now. */
  function WeekAgo(now: int): int {
    now - 7 * DayMs
  }

  /** The filter of getNewArrivals. */
  function IsRecent(now: int): Product -> bool {
    (p: Product) => p.createdAt >= WeekAgo(now)
  }

  /** getNewArrivals: the products created since a week ago, in catalogue order, rated. */
  function NewArrivals(catalogue: seq<Product>, now: int): (r: seq<RatedProduct>)
    ensures forall x :: x in r ==> x == CalculateRating(x.product) && x.product in catalogue && x.product.createdAt >= WeekAgo(now)
    ensures forall p :: p in catalogue && p.createdAt >= WeekAgo(now) ==> CalculateRating(p) in r
    ensures Subsequence(ProductsOf(r), catalogue)
  {
    var recent := Filter(catalogue, IsRecent(now));
    FilterIsSubsequence(catalogue, IsRecent(now));
    ProductsOfMapRated(recent);
    MapRated(recent)
  }

  /** getProductDetail: the first product with the id, rated; None is the 404. */
  function ProductDetail(catalogue: seq<Product>, id: int): (r: Option<RatedProduct>)
    ensures r.None? <==> forall p :: p in catalogue ==> p.id != id
    ensures r.Some? ==> r.value.product in catalogue && r.value.product.id == id && r.value == CalculateRating(r.value.product)
    ensures r.Some? ==> exists i :: 0 <= i < |catalogue| && catalogue[i] == r.value.product && forall j :: 0 <= j < i ==> catalogue[j].id != id
  {
    match Find(catalogue, ProductId, id)
    case None => None
    case Some(p) => Some(CalculateRating(p))
  }

  /** The first `n` rows (Array.prototype.slice(0, n)). */
  function Take<T>(s: seq<T>, n: nat): (r: seq<T>)
    ensures |r| == if |s| < n then |s| else n
    ensures r == s[..|r|]
  {
    if |s| < n then s else s[..n]
  }

  /** The most similar products returned. */
  const SimilarLimit: nat := 6

  /** The filter of getSimilarProducts: another product of the same category. */
  function SameCategory(category: string, id: int): Product -> bool {
    (p: Product) => p.category == category && p.id != id
  }

  /**
   * getSimilarProducts: None (the 404) for an unknown id; otherwise the first
   * six other products of the same category, in catalogue order, rated.
   */
  function SimilarProducts(catalogue: seq<Product>, id: int): (r: Option<seq<RatedProduct>>)
    ensures r.None? <==> forall p :: p in catalogue ==> p.id != id
    ensures r.Some? ==> |r.value| <= SimilarLimit
    ensures r.Some? ==> forall x :: x in r.value ==>
      x == CalculateRating(x.product) && x.product in catalogue && x.product.id != id
      && x.product.category == Find(catalogue, ProductId, id).value.category
    ensures r.Some? && |r.value| < SimilarLimit ==> forall p ::
      p in catalogue && p.id != id && p.category == Find(catalogue, ProductId, id).value.category ==> CalculateRating(p) in r.value
    ensures r.Some? ==> Subsequence(ProductsOf(r.value), catalogue)
    ensures r.Some? ==> ProductsOf(r.value) == Take(Filter(catalogue, SameCategory(Find(catalogue, ProductId, id).value.category, id)), SimilarLimit)
  {
    match Find(catalogue, ProductId, id)
    case None => None
    case Some(current) =>
      var same := Filter(catalogue, SameCategory(current.category, id));
      FilterIsSubsequence(catalogue, SameCategory(current.category, id));
      var all := MapRated(same);
      var r := Take(all, SimilarLimit);
      assert forall x :: x in r ==> x in all;
      ProductsOfMapRated(same);
      TakeKeepsSubsequence(same, SimilarLimit, catalogue);
      assert ProductsOf(r) == Take(same, SimilarLimit);
      Some(r)
  }

  /** A prefix of a subsequence is a subsequence. */
  lemma {:induction false} PrefixOfSubsequence<T>(a: seq<T>, n: nat, b: seq<T>)
    requires n <= |a| && Subsequence(a, b)
    ensures Subsequence(a[..n], b)
    decreases |b|
  {
    if n > 0 {
      assert a != [] && b != [];
      if a[0] == b[0] && Subsequence(a[1..], b[1..]) {
        PrefixOfSubsequence(a[1..], n - 1, b[1..]);
        assert a[..n][1..] == a[1..][..n - 1];
      } else {
        PrefixOfSubsequence(a, n, b[1..]);
      }
    }
  }

  lemma TakeKeepsSubsequence<T>(a: seq<T>, n: nat, b: seq<T>)
    requires Subsequence(a, b)
    ensures Subsequence(Take(a, n), b)
  {
    if n <= |a| {
      PrefixOfSubsequence(a, n, b);
    }
  }

  // ---------------------------------------------------------------------
  // searchProducts
  // ---------------------------------------------------------------------

  /** toLowerCase on the ASCII letters (other characters are kept). */
  function LowerChar(c: char): char {
    if 'A' <= c <= 'Z' then (c as int + 32) as char else c
  }

  function Lower(s: string): (r: string)
    ensures |r| == |s| && forall i :: 0 <= i < |s| ==> r[i] == LowerChar(s[i])
  {
    seq(|s|, i requires 0 <= i < |s| => LowerChar(s[i]))
  }

  /** String.prototype.includes. */
  predicate Contains(s: string, t: string)
    decreases |s|
  {
    t <= s || (s != [] && Contains(s[1..], t))
  }

  /** The search predicate: the lowered term occurs in the lowered name, description or category. */
  predicate Matches(p: Product, term: string) {
    Contains(Lower(p.name), term) || Contains(Lower(p.description), term) || Contains(Lower(p.category), term)
  }

  /** searchProducts: `[]` for an absent or empty query; otherwise every matching product, in catalogue order, rated. */
  function SearchProducts(catalogue: seq<Product>, q: Option<string>): (r: seq<RatedProduct>)
    ensures q.None? || q == Some("") ==> r == []
    ensures q.Some? && q.value != "" ==>
      (forall x :: x in r ==> x == CalculateRating(x.product) && x.product in catalogue && Matches(x.product, Lower(q.value)))
      && (forall p :: p in catalogue && Matches(p, Lower(q.value)) ==> CalculateRating(p) in r)
    ensures Subsequence(ProductsOf(r), catalogue)
  {
    if q.None? || q.value == "" then []
    else
      var term := Lower(q.value);
      var hits := Filter(catalogue, (p: Product) => Matches(p, term));
      FilterIsSubsequence(catalogue, (p: Product) => Matches(p, term));
      ProductsOfMapRated(hits);
      MapRated(hits)
  }

  /** Every part of a string occurs in it. */
  lemma {:induction false} ContainsSlice(s: string, i: nat, j: nat)
    requires i <= j <= |s|
    ensures Contains(s, s[i..j])
    decreases i
  {
    if i > 0 {
      ContainsSlice(s[1..], i - 1, j - 1);
      assert s[1..][i - 1..j - 1] == s[i..j];
    }
  }

  /** Search ignores case: a query and its lowered form find the same products. */
  lemma SearchIgnoresCase(catalogue: seq<Product>, q: string)
    ensures SearchProducts(catalogue, Some(q)) == SearchProducts(catalogue, Some(Lower(q)))
  {
    assert Lower(Lower(q)) == Lower(q);
  }

  // ---------------------------------------------------------------------
  // getProductsByCategory and getUserWishlist
  // ---------------------------------------------------------------------

  /** getProductsByCategory: the products whose category is exactly the parameter, in catalogue order, rated. */
  function ProductsByCategory(catalogue: seq<Product>, category: string): (r: seq<RatedProduct>)
    ensures forall x :: x in r ==> x == CalculateRating(x.product) && x.product in catalogue && x.product.category == category
    ensures forall p :: p in catalogue && p.category == category ==> CalculateRating(p) in r
    ensures Subsequence(ProductsOf(r), catalogue)
  {
    var hits := Filter(catalogue, (p: Product) => p.category == category);
    FilterIsSubsequence(catalogue, (p: Product) => p.category == category);
    ProductsOfMapRated(hits);
    MapRated(hits)
  }

  /** A wishlist entry of the demonstration wishlist (its random id is left out). */
  datatype WishlistEntry = WishlistEntry(addedAt: int, item: RatedProduct)

  /** getUserWishlist: the first three catalogue products, rated, each added now. */
  function UserWishlist(catalogue: seq<Product>, now: int): (r: seq<WishlistEntry>)
    ensures |r| == if |catalogue| < 3 then |catalogue| else 3
    ensures forall i :: 0 <= i < |r| ==> r[i] == WishlistEntry(now, CalculateRating(catalogue[i]))
  {
    var first := Take(catalogue, 3);
    seq(|first|, i requires 0 <= i < |first| => WishlistEntry(now, CalculateRating(first[i])))
  }

  // ---------------------------------------------------------------------
  // The demonstration catalogue
  // ---------------------------------------------------------------------

  /** The seven products of the controller, created at `loaded` or the stated number of days before it. */
  function SampleProducts(loaded: int): seq<Product> {
    seq(7, i requires 0 <= i < 7 => SampleProduct(i + 1, loaded))
  }

  function SampleProduct(k: int, loaded: int): Product
    requires 1 <= k <= 7
  {
    if k == 1 then SampleProduct1(loaded)
    else if k == 2 then SampleProduct2(loaded)
    else if k == 3 then SampleProduct3(loaded)
    else if k == 4 then SampleProduct4(loaded)
    else if k == 5 then SampleProduct5(loaded)
    else if k == 6 then SampleProduct6(loaded)
    else SampleProduct7(loaded)
  }

  function SampleProduct1(loaded: int): Product {
    Product(1, "Introduction to Algorithms, 4th Edition",
      "Like new condition. Used for one semester only. No highlights or markings inside. Essential for CS students.",
      "Textbooks", 1250.0, 299.0, true, "Like New", Available, loaded, 101, [5], 1, 5)
  }

  function SampleProduct2(loaded: int): Product {
    Product(2, "Sony WH-1000XM4 Noise Cancelling Headphones",
      "Barely used. Comes with original case and cables. Perfect for studying in noisy dorms.",
      "Electronics", 15000.0, 0.0, false, "Excellent", Available, loaded, 102, [], 0, 12)
  }

  function SampleProduct3(loaded: int): Product {
    Product(3, "Scientific Calculator fx-991EX",
      "Standard engineering calculator. Works perfectly. Solar powered.",
      "Electronics", 800.0, 100.0, true, "Good", Available, loaded, 103, [4], 1, 3)
  }

  function SampleProduct4(loaded: int): Product {
    Product(4, "Dorm Room LED Strip Lights (5m)",
      "RGB LED strip with remote. Adds great vibe to the room. Unused in box.",
      "Dorm & Living", 450.0, 0.0, false, "New", Available, loaded, 104, [], 0, 8)
  }

  function SampleProduct5(loaded: int): Product {
    Product(5, "College Hoodie - Size M",
      "Official campus merchandise. Never worn, size didn't fit. Navy blue.",
      "Apparel", 600.0, 0.0, false, "New", Available, loaded - 2 * DayMs, 101, [], 0, 2)
  }

  function SampleProduct6(loaded: int): Product {
    Product(6, "Study Table Lamp",
      "Adjustable brightness, eye-care LED. USB rechargeable.",
      "Dorm & Living", 350.0, 0.0, false, "Good", Available, loaded - 5 * DayMs, 105, [3], 1, 4)
  }

  function SampleProduct7(loaded: int): Product {
    Product(7, "Psychology 101 Textbook",
      "Standard intro to psychology text. Some highlighting.",
      "Textbooks", 500.0, 0.0, false, "Fair", Available, loaded - 10 * DayMs, 102, [], 0, 1)
  }

  /** The ids of a rated list. */
  function RatedIds(r: seq<RatedProduct>): seq<int> {
    seq(|r|, i requires 0 <= i < |r| => r[i].product.id)
  }

  /** Right after loading, the five-day-old lamp is a new arrival and the ten-day-old textbook is not. */
  lemma SampleNewArrivals(loaded: int)
    ensures CalculateRating(SampleProduct6(loaded)) in NewArrivals(SampleProducts(loaded), loaded)
    ensures CalculateRating(SampleProduct7(loaded)) !in NewArrivals(SampleProducts(loaded), loaded)
  {
    var c := SampleProducts(loaded);
    var lamp, book := SampleProduct6(loaded), SampleProduct7(loaded);
    assert lamp in c by { assert c[5] == lamp; }
    assert lamp.createdAt >= WeekAgo(loaded) && book.createdAt < WeekAgo(loaded);
  }

  /** The demonstration ratings: the algorithms textbook has one five-star review. */
  lemma SampleReviewedRating(loaded: int)
    ensures CalculateRating(SampleProduct1(loaded)).averageRating == 5.0
  {
    assert AverageRating([5]) == 5.0 by { assert SumRatings([5]) == 5 by { assert [5][1..] == []; } }
    assert SampleProduct1(loaded).ratings == [5];
  }

  /** The headphones have no reviews, so a rating of 0, and twelve wishlist entries. */
  lemma SampleUnreviewedRating(loaded: int)
    ensures CalculateRating(SampleProduct2(loaded)).averageRating == 0.0
    ensures CalculateRating(SampleProduct2(loaded)).wishlistCount == 12
  {
  }
}
