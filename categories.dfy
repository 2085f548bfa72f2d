/**
 * categories.controller: slug resolution through SLUG_MAP, the item query
 * by category or category slug, and the two demonstration branches (a
 * placeholder product for an empty result, the sample products when the
 * query fails).
 */
module Categories {
  import opened Tables
  import opened Records
  import opened Products

  /** SLUG_MAP: the category names each known slug stands for. */
  const SlugMap: map<string, seq<string>> := map[
    "stationary" := ["Stationary", "Textbooks"],
    "furniture" := ["Dorm & Living", "Furniture"],
    "food" := ["Food", "Kitchen"],
    "clothes" := ["Apparel", "Clothes"]]

  /** `SLUG_MAP[slug] || [slug]`: a known slug's categories, else the slug itself as the one category. */
  function ResolveSlug(slug: string): (r: seq<string>)
    ensures slug in SlugMap ==> r == SlugMap[slug]
    ensures slug !in SlugMap ==> r == [slug]
    ensures |r| >= 1
  {
    if slug in SlugMap then SlugMap[slug] else [slug]
  }

  /** The four known slugs and what they resolve to; any other slug stands for itself. */
  lemma KnownSlugs(other: string)
    requires other !in {"stationary", "furniture", "food", "clothes"}
    ensures ResolveSlug("stationary") == ["Stationary", "Textbooks"]
    ensures ResolveSlug("furniture") == ["Dorm & Living", "Furniture"]
    ensures ResolveSlug("food") == ["Food", "Kitchen"]
    ensures ResolveSlug("clothes") == ["Apparel", "Clothes"]
    ensures ResolveSlug(other) == [other]
  {
  }

  /** The query's `where`: the category is one of the resolved names, or the linked category row has the slug. */
  function InCategories(categories: seq<string>, slug: string): Item -> bool {
    (it: Item) => it.category in categories || it.categorySlug == Some(slug)
  }

  /** The items the query returns, newest first. */
  function CategoryQuery(items: seq<Item>, slug: string): (r: seq<Item>)
    ensures forall it :: it in r <==> it in items && (it.category in ResolveSlug(slug) || it.categorySlug == Some(slug))
    ensures SortedDesc(r, ItemCreatedAt)
    ensures forall it :: multiset(r)[it] == if it.category in ResolveSlug(slug) || it.categorySlug == Some(slug) then multiset(items)[it] else 0
  {
    FilterCounts(items, InCategories(ResolveSlug(slug), slug));
    SortDesc(Filter(items, InCategories(ResolveSlug(slug), slug)), ItemCreatedAt)
  }

  /** The placeholder entry sent when nothing matches (images left out). */
  datatype Placeholder = Placeholder(
    id: int, name: string, description: string, price: real, isForRent: bool, rentPrice: Option<real>,
    averageRating: real, reviewCount: int, category: string, ownerName: string)

  /** The placeholder for a slug's first category. */
  function PlaceholderFor(category: string): (p: Placeholder)
    ensures p.id == 10001 && p.category == category && p.name == category + " Sample Product"
  {
    Placeholder(10001, category + " Sample Product", "Sample item for demo; replace with real data.",
                1299.0, false, None, 4.5, 18, category, "Demo Seller")
  }

  /** What getProductsByCategorySlug sends. */
  datatype CategoryReply =
    | Rows(items: seq<Item>)
    | Sample(placeholder: Placeholder)
    | Fallback(products: seq<Product>)

  /** The sample products whose category is one of the resolved names, in list order. */
  function SampleInCategories(sample: seq<Product>, categories: seq<string>): (r: seq<Product>)
    ensures forall p :: p in r <==> p in sample && p.category in categories
    ensures Subsequence(r, sample)
  {
    FilterIsSubsequence(sample, (p: Product) => p.category in categories);
    Filter(sample, (p: Product) => p.category in categories)
  }

  /**
   * getProductsByCategorySlug. `db` is the items table, or None when the
   * query fails; `sample` is the demonstration list the failure branch reads.
   */
  function ProductsByCategorySlug(db: Option<seq<Item>>, sample: seq<Product>, slug: string): (r: CategoryReply)
    ensures db.None? ==> r == Fallback(SampleInCategories(sample, ResolveSlug(slug)))
    ensures db.Some? && CategoryQuery(db.value, slug) == [] ==> r == Sample(PlaceholderFor(ResolveSlug(slug)[0]))
    ensures db.Some? && CategoryQuery(db.value, slug) != [] ==> r == Rows(CategoryQuery(db.value, slug))
    ensures r.Rows? ==> r.items != []
  {
    var categories := ResolveSlug(slug);
    match db
    case None => Fallback(SampleInCategories(sample, categories))
    case Some(items) =>
      var found := CategoryQuery(items, slug);
      if found == [] then Sample(PlaceholderFor(categories[0])) else Rows(found)
  }

  /** The placeholder is sent exactly when no item matches, and it names the slug's first category. */
  lemma PlaceholderIffNoMatch(items: seq<Item>, sample: seq<Product>, slug: string)
    ensures ProductsByCategorySlug(Some(items), sample, slug).Sample? <==>
      forall it :: it in items ==> it.category !in ResolveSlug(slug) && it.categorySlug != Some(slug)
    ensures ProductsByCategorySlug(Some(items), sample, slug).Sample? ==>
      ProductsByCategorySlug(Some(items), sample, slug).placeholder.category == ResolveSlug(slug)[0]
  {
    var found := CategoryQuery(items, slug);
    if found != [] {
      assert found[0] in found;
    }
  }

  /** An unknown slug's placeholder is named after the slug itself. */
  lemma UnknownSlugPlaceholder(items: seq<Item>, sample: seq<Product>, slug: string)
    requires slug !in SlugMap
    requires ProductsByCategorySlug(Some(items), sample, slug).Sample?
    ensures ProductsByCategorySlug(Some(items), sample, slug).placeholder.name == slug + " Sample Product"
  {
  }
}
