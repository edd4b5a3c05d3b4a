/** The products page: one filter over the product list that ANDs a text search, an exact
    category choice and an exact choice of the stored stock tag, and the Clear Filters button. */
module Products {
  import opened Js
  import opened Seqs
  import opened Inventory
  import StockLevels

  /** The three filter inputs of the page; "" means "All". */
  datatype Filters = Filters(searchQuery: string, selectedCategory: string, stockFilter: string)

  /** The lowercased query occurs in the lowercased nome, descricao or sku. */
  predicate MatchesSearch(query: string, p: Product) {
    var q := Lower(query);
    Includes(Lower(p.nome), q) || Includes(Lower(p.descricao), q) || Includes(Lower(p.sku), q)
  }

  /** `selectedCategory ? product.categoria === selectedCategory : true`. */
  predicate MatchesCategory(selected: string, p: Product) {
    selected == "" || p.categoria == selected
  }

  /** `stockFilter ? product.stockLevel === stockFilter : true`, on the tag the product carries. */
  predicate MatchesStockLevel(filter: string, p: Product) {
    filter == "" || LevelName(p.stockLevel) == filter
  }

  predicate Keep(f: Filters, p: Product) {
    MatchesSearch(f.searchQuery, p) && MatchesCategory(f.selectedCategory, p) && MatchesStockLevel(f.stockFilter, p)
  }

  /** `mockProducts.filter(...)`: the products the page lists. */
  function Visible(products: seq<Product>, f: Filters): (r: seq<Product>)
    ensures IsSubsequence(r, products)
    ensures forall p :: p in r <==>
      p in products && MatchesSearch(f.searchQuery, p) && MatchesCategory(f.selectedCategory, p) && MatchesStockLevel(f.stockFilter, p)
    ensures forall p :: multiset(r)[p] == if Keep(f, p) then multiset(products)[p] else 0
    ensures forall p :: p in r && f.selectedCategory != "" ==> p.categoria == f.selectedCategory
    ensures forall p :: p in r && f.stockFilter != "" ==> LevelName(p.stockLevel) == f.stockFilter
  {
    Filter(p => Keep(f, p), products)
  }

  /** The filters the Clear Filters button sets. */
  const Cleared := Filters("", "", "")

  /** With every filter cleared, the whole list is shown. */
  lemma ClearedShowsAll(products: seq<Product>)
    ensures Visible(products, Cleared) == products
  {
    forall i | 0 <= i < |products| ensures Keep(Cleared, products[i]) {
      IncludesEmpty(Lower(products[i].nome));
    }
    FilterKeepsAll(p => Keep(Cleared, p), products);
  }

  function BySearch(products: seq<Product>, query: string): seq<Product> {
    Filter(p => MatchesSearch(query, p), products)
  }

  function ByCategory(products: seq<Product>, selected: string): seq<Product> {
    Filter(p => MatchesCategory(selected, p), products)
  }

  function ByStockLevel(products: seq<Product>, filter: string): seq<Product> {
    Filter(p => MatchesStockLevel(filter, p), products)
  }

  /** The combined filter is the three single filters applied one after another, search first. */
  lemma {:induction false} VisibleIsSequential(products: seq<Product>, f: Filters)
    ensures Visible(products, f) == ByStockLevel(ByCategory(BySearch(products, f.searchQuery), f.selectedCategory), f.stockFilter)
  {
    if products != [] {
      var p, rest := products[0], products[1..];
      VisibleIsSequential(rest, f);
      var searched := BySearch(products, f.searchQuery);
      if MatchesSearch(f.searchQuery, p) {
        assert searched == [p] + BySearch(rest, f.searchQuery);
        var categorised := ByCategory(searched, f.selectedCategory);
        assert searched[0] == p && searched[1..] == BySearch(rest, f.searchQuery);
        if MatchesCategory(f.selectedCategory, p) {
          assert categorised == [p] + ByCategory(BySearch(rest, f.searchQuery), f.selectedCategory);
          assert categorised[0] == p;
          assert categorised[1..] == ByCategory(BySearch(rest, f.searchQuery), f.selectedCategory);
        } else {
          assert categorised == ByCategory(BySearch(rest, f.searchQuery), f.selectedCategory);
        }
      } else {
        assert searched == BySearch(rest, f.searchQuery);
      }
    }
  }

  /** ... and the order of the three single filters does not matter. */
  lemma SingleFiltersCommute(products: seq<Product>, f: Filters)
    ensures ByCategory(BySearch(products, f.searchQuery), f.selectedCategory) == BySearch(ByCategory(products, f.selectedCategory), f.searchQuery)
    ensures ByStockLevel(BySearch(products, f.searchQuery), f.stockFilter) == BySearch(ByStockLevel(products, f.stockFilter), f.searchQuery)
    ensures ByStockLevel(ByCategory(products, f.selectedCategory), f.stockFilter) == ByCategory(ByStockLevel(products, f.stockFilter), f.selectedCategory)
  {
    var s := (p: Product) => MatchesSearch(f.searchQuery, p);
    var c := (p: Product) => MatchesCategory(f.selectedCategory, p);
    var l := (p: Product) => MatchesStockLevel(f.stockFilter, p);
    FilterCommutes(c, s, products);
    FilterCommutes(l, s, products);
    FilterCommutes(l, c, products);
  }

  /** The stock filter reads the stored tag: a product tagged "high" whose quantity the
      classifier puts in the medium band is listed under "high" and not under "medium". */
  lemma StockFilterReadsStoredTag()
    ensures var p := Product(1, "Headphones", "", "Electronics", 19999, 45, High, "EL-WH-001", "");
      && StockLevels.Classify(p.estoque) == Medium
      && Visible([p], Filters("", "", "high")) == [p]
      && Visible([p], Filters("", "", "medium")) == []
  {
    var p := Product(1, "Headphones", "", "Electronics", 19999, 45, High, "EL-WH-001", "");
    IncludesEmpty(Lower(p.nome));
    assert Keep(Filters("", "", "high"), p);
    assert !Keep(Filters("", "", "medium"), p);
    assert [p][1..] == [];
  }
}
