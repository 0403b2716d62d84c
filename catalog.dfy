/** The catalog service: the constant product list and the search, category
    and id lookups over it. */
module Catalog {
  import opened Wrappers
  import opened Types
  import opened JsString
  import opened Collections

  const Produce := Category("1", "Produce")
  const Meat := Category("2", "Meat")
  const DailyEssentials := Category("3", "Daily Essentials")

  /** The product list, in declaration order; no entry has a description. */
  const Products: seq<Product> := [
    Product("1", "Avocado", 599, Produce, true, None),
    Product("2", "Lettuce", 199, Produce, true, None),
    Product("3", "Bananas", 99, Produce, true, None),
    Product("9", "Tomatoes", 249, Produce, true, None),
    Product("10", "Cucumber", 129, Produce, true, None),
    Product("11", "Onion", 79, Produce, true, None),
    Product("4", "Chicken", 899, Meat, true, None),
    Product("5", "Beef", 1299, Meat, true, None),
    Product("6", "Pork", 999, Meat, true, None),
    Product("12", "Turkey", 1049, Meat, true, None),
    Product("13", "Lamb", 1499, Meat, true, None),
    Product("7", "Milk 1L", 350, DailyEssentials, true, None),
    Product("8", "Bread", 280, DailyEssentials, true, None),
    Product("14", "Eggs 12ct", 420, DailyEssentials, true, None),
    Product("15", "Butter", 310, DailyEssentials, true, None)
  ]

  /** `normalize(value)`: `value.toLowerCase().trim()`. */
  function Normalize(value: string): (r: string)
    ensures r == Lower(Trim(value))
    ensures |r| <= |value|
    ensures forall i :: 0 <= i < |r| ==> !('A' <= r[i] <= 'Z')
    ensures r == [] || (!IsWhiteSpace(r[0]) && !IsWhiteSpace(r[|r| - 1]))
  {
    TrimSpec(Lower(value));
    TrimLowerCommute(value);
    Trim(Lower(value))
  }

  /** The text a product is searched in: its normalised name, category name
      and description (empty when absent), joined with single spaces. */
  function Haystack(p: Product): (r: string)
    ensures Contains(r, Normalize(p.name))
    ensures Contains(r, Normalize(p.category.name))
    ensures Contains(r, Normalize(p.description.GetOr("")))
  {
    var n, c, d := Normalize(p.name), Normalize(p.category.name), Normalize(p.description.GetOr(""));
    assert OccursAt(n, n, 0) && OccursAt(c, c, 0) && OccursAt(d, d, 0);
    ContainsInJoin(n, c, d, n);
    ContainsInJoin(n, c, d, c);
    ContainsInJoin(n, c, d, d);
    n + " " + c + " " + d
  }

  /** The `filter` callback of `searchProducts` for an already normalised
      query `q`. */
  function MatchesSearch(q: string, p: Product): (r: bool)
    ensures q == "" ==> r
    ensures r <==> exists i :: OccursAt(Haystack(p), q, i)
  {
    assert OccursAt(Haystack(p), [], 0);
    Contains(Haystack(p), q)
  }

  /** `searchProducts(query)`: the whole list for a blank query; otherwise
      the products whose haystack contains the normalised query, in catalog
      order. */
  function SearchProducts(query: string): (r: seq<Product>)
    ensures IsSubsequence(r, Products)
    ensures Normalize(query) == "" ==> r == Products
    ensures forall p :: p in r <==> p in Products && (Normalize(query) == "" || MatchesSearch(Normalize(query), p))
  {
    var q := Normalize(query);
    SubsequenceOfItself(Products);
    if q == "" then Products else Filter(Products, p => MatchesSearch(q, p))
  }

  /** A query found in the normalised name, category name or description
      is found in the haystack. */
  lemma HaystackHasFields(q: string, p: Product)
    requires Contains(Normalize(p.name), q)
             || Contains(Normalize(p.category.name), q)
             || Contains(Normalize(p.description.GetOr("")), q)
    ensures MatchesSearch(q, p)
  {
    ContainsInJoin(Normalize(p.name), Normalize(p.category.name), Normalize(p.description.GetOr("")), q);
  }

  /** Completeness: a catalog product whose normalised name, category name
      or description contains the normalised query is found. */
  lemma SearchFindsByField(query: string, p: Product)
    ensures p in Products &&
            (Contains(Normalize(p.name), Normalize(query))
             || Contains(Normalize(p.category.name), Normalize(query))
             || Contains(Normalize(p.description.GetOr("")), Normalize(query)))
            ==> p in SearchProducts(query)
  {
    var q := Normalize(query);
    if q != "" && (Contains(Normalize(p.name), q) || Contains(Normalize(p.category.name), q)
                   || Contains(Normalize(p.description.GetOr("")), q)) {
      HaystackHasFields(q, p);
    }
  }

  /** `getProductsByCategory(categoryId, query = '')`: the products of the
      category, in catalog order, drawn from `searchProducts(query)` when the
      query is non-empty and from the whole list otherwise. */
  function ProductsByCategory(categoryId: string, query: string := ""): (r: seq<Product>)
    ensures IsSubsequence(r, if query != "" then SearchProducts(query) else Products)
    ensures forall p :: p in r <==>
              p in Products && p.category.id == categoryId &&
              (Normalize(query) == "" || MatchesSearch(Normalize(query), p))
  {
    var source := if query != "" then SearchProducts(query) else Products;
    assert query == "" ==> Normalize(query) == "";
    Filter(source, (p: Product) => p.category.id == categoryId)
  }

  /** `getProductById(id)`: the first product with that id, `None` standing
      for `undefined` when there is none. */
  function ProductById(id: string): (r: Option<Product>)
    ensures r.Some? ==> r.value in Products && r.value.id == id
    ensures r.Some? ==> exists i :: 0 <= i < |Products| && Products[i] == r.value &&
                           forall j :: 0 <= j < i ==> Products[j].id != id
    ensures r.None? <==> forall p :: p in Products ==> p.id != id
  {
    match FindIndex(Products, (p: Product) => p.id == id)
    case Some(i) => Some(Products[i])
    case None => None
  }
}
