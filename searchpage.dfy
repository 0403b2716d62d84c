/** The search page's `filtered` list: products matching the query, the
    selected category and the maximum price, and the clamp on the price
    input. */
module SearchPage {
  import opened Wrappers
  import opened Types
  import opened JsString
  import opened Collections
  import Catalog

  /** `matchesQuery` for the normalised query `nq`: blank, or contained in
      the lower-cased name, category name or description, each on its own. */
  function MatchesQuery(p: Product, nq: string): (r: bool)
    ensures nq == "" ==> r
    ensures r <==> || nq == ""
                   || (exists i :: OccursAt(Lower(p.name), nq, i))
                   || (exists i :: OccursAt(Lower(p.category.name), nq, i))
                   || (exists i :: OccursAt(Lower(p.description.GetOr("")), nq, i))
  {
    || nq == ""
    || Contains(Lower(p.name), nq)
    || Contains(Lower(p.category.name), nq)
    || Contains(Lower(p.description.GetOr("")), nq)
  }

  /** `matchesCategory`: the value `'all'` selects every category. */
  function MatchesCategory(p: Product, selectedCategory: string): (r: bool)
    ensures selectedCategory == "all" ==> r
    ensures p.category.id == selectedCategory ==> r
    ensures r && selectedCategory != "all" ==> p.category.id == selectedCategory
  {
    selectedCategory == "all" || p.category.id == selectedCategory
  }

  /** `matchesPrice`: no limit when the input is empty (`None`); otherwise
      the price, in dollars, is at most the limit. */
  function MatchesPrice(p: Product, maxPrice: Option<real>): (r: bool)
    ensures maxPrice.None? ==> r
    ensures maxPrice.Some? ==> (r <==> p.price as real <= 100.0 * maxPrice.value)
    ensures maxPrice.Some? && maxPrice.value < 0.0 && p.price >= 0 ==> !r
  {
    maxPrice.None? || (p.price as real) / 100.0 <= maxPrice.value
  }

  /** `filtered`: the products satisfying all three conditions, in the order
      of `products`. */
  function Filtered(products: seq<Product>, query: string, selectedCategory: string, maxPrice: Option<real>): (r: seq<Product>)
    ensures IsSubsequence(r, products)
    ensures forall p :: p in r <==>
              p in products && MatchesQuery(p, Lower(Trim(query))) &&
              MatchesCategory(p, selectedCategory) && MatchesPrice(p, maxPrice)
    ensures forall p :: multiset(r)[p] ==
              if MatchesQuery(p, Lower(Trim(query))) && MatchesCategory(p, selectedCategory) && MatchesPrice(p, maxPrice)
              then multiset(products)[p] else 0
    ensures Trim(query) == "" && selectedCategory == "all" && maxPrice.None? ==> r == products
  {
    var nq := Lower(Trim(query));
    Filter(products, (p: Product) => MatchesQuery(p, nq) && MatchesCategory(p, selectedCategory) && MatchesPrice(p, maxPrice))
  }

  /** The max-price input handler: an empty field is no limit, and a number
      is raised to 0 when negative (`Math.max(0, Number(value))`). */
  function ClampMaxPrice(input: Option<real>): (r: Option<real>)
    ensures r.None? <==> input.None?
    ensures r.Some? ==> r.value >= 0.0
    ensures r.Some? && input.value >= 0.0 ==> r.value == input.value
    ensures r.Some? && input.value < 0.0 ==> r.value == 0.0
  {
    match input
    case None => None
    case Some(x) => Some(if x < 0.0 then 0.0 else x)
  }

  /** A product the search page finds by its query is also found by the
      catalog's `searchProducts`, provided its fields carry no surrounding
      white space (as every catalog entry does). */
  lemma PageQueryImpliesCatalogSearch(query: string, p: Product)
    requires p in Catalog.Products
    requires Trim(p.name) == p.name && Trim(p.category.name) == p.category.name
    requires Trim(p.description.GetOr("")) == p.description.GetOr("")
    requires MatchesQuery(p, Lower(Trim(query)))
    ensures p in Catalog.SearchProducts(query)
  {
    if Lower(Trim(query)) != "" {
      Catalog.SearchFindsByField(query, p);
    }
  }
}
