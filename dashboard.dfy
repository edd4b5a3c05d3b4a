/** The dashboard's product list: the fetched rows filtered by a search over nome,
    categoria and sku. */
module Dashboard {
  import opened Js
  import opened Seqs
  import opened Inventory

  /** Whether the lowercased query occurs in the lowercased text. */
  predicate Finds(text: string, query: string) {
    Includes(Lower(text), Lower(query))
  }

  /** The search predicate, reading a null categoria as no match (as the category page's
      search does for a null descricao). */
  predicate MatchesSearch(query: string, p: Row) {
    || Finds(p.nome, query)
    || (p.categoria.Some? && Finds(p.categoria.value, query))
    || Finds(p.sku, query)
  }

  /** `products.filter(...)` with the search predicate; descricao is not searched. */
  function Search(products: seq<Row>, query: string): (r: seq<Row>)
    ensures IsSubsequence(r, products)
    ensures forall p :: p in r <==> p in products && MatchesSearch(query, p)
    ensures forall p :: multiset(r)[p] == if MatchesSearch(query, p) then multiset(products)[p] else 0
  {
    Filter(p => MatchesSearch(query, p), products)
  }

  /** An empty search box lists every row. */
  lemma EmptyQueryKeepsAll(products: seq<Row>)
    ensures Search(products, "") == products
  {
    forall i | 0 <= i < |products| ensures MatchesSearch("", products[i]) {
      IncludesEmpty(Lower(products[i].nome));
    }
    FilterKeepsAll(p => MatchesSearch("", p), products);
  }

  /** Queries that lowercase alike give the same list. */
  lemma SearchIgnoresQueryCase(products: seq<Row>, q1: string, q2: string)
    requires Lower(q1) == Lower(q2)
    ensures Search(products, q1) == Search(products, q2)
  {
    FilterAgrees(p => MatchesSearch(q1, p), p => MatchesSearch(q2, p), products);
  }

  /** In particular the result does not change when the query is lowercased first. */
  lemma SearchOfLoweredQuery(products: seq<Row>, query: string)
    ensures Search(products, Lower(query)) == Search(products, query)
  {
    LowerIsLowerCase(query);
    SearchIgnoresQueryCase(products, Lower(query), query);
  }

  // ---------------------------------------------------------------------------
  // The search as written

  /** The predicate as the page evaluates it: `||` stops at the first true operand, and
      `product.categoria.toLowerCase()` on a null categoria throws (None). */
  function MatchesAsWritten(query: string, p: Row): Option<bool> {
    if Finds(p.nome, query) then Some(true)
    else if p.categoria.None? then None
    else Some(Finds(p.categoria.value, query) || Finds(p.sku, query))
  }

  /** `filter` calls the predicate on each row in order; a throw aborts the whole render. */
  function SearchAsWritten(products: seq<Row>, query: string): Option<seq<Row>> {
    if products == [] then Some([])
    else
      match MatchesAsWritten(query, products[0])
      case None => None
      case Some(keep) =>
        match SearchAsWritten(products[1..], query)
        case None => None
        case Some(rest) => Some(if keep then [products[0]] + rest else rest)
  }

  /** The page as written fails exactly when some row has a null categoria and a nome that
      does not contain the query; otherwise it lists what Search lists. */
  lemma {:induction false} SearchAsWrittenFails(products: seq<Row>, query: string)
    ensures SearchAsWritten(products, query).None? <==>
      exists i :: 0 <= i < |products| && products[i].categoria.None? && !Finds(products[i].nome, query)
    ensures SearchAsWritten(products, query).Some? ==> SearchAsWritten(products, query).value == Search(products, query)
  {
    if products != [] {
      var p, rest := products[0], products[1..];
      SearchAsWrittenFails(rest, query);
      if p.categoria.None? && !Finds(p.nome, query) {
        assert SearchAsWritten(products, query).None?;
      } else {
        assert forall i :: 1 <= i < |products| ==> products[i] == rest[i - 1];
        assert MatchesAsWritten(query, p) == Some(MatchesSearch(query, p));
        SearchCons(products, query);
      }
    }
  }

  /** Search looks at the first row and then searches the rest. */
  lemma SearchCons(products: seq<Row>, query: string)
    requires products != []
    ensures Search(products, query) ==
      if MatchesSearch(query, products[0]) then [products[0]] + Search(products[1..], query) else Search(products[1..], query)
  {
  }

  /** A product saved without a category makes any query that is not part of its name fail. */
  lemma NullCategoryBreaksSearch()
    ensures var p := Row(None, None, None, Some(3), 9, "Desk", 10000, "FU-DK-009");
      && SearchAsWritten([p], "bookshelves").None?
      && Search([p], "bookshelves") == []
  {
    var p := Row(None, None, None, Some(3), 9, "Desk", 10000, "FU-DK-009");
    var q := "bookshelves";
    if Finds(p.nome, q) {
      IncludesFits(Lower(p.nome), Lower(q));
    }
    if Finds(p.sku, q) {
      IncludesFits(Lower(p.sku), Lower(q));
    }
    assert !MatchesSearch(q, p);
    assert [p][1..] == [];
  }
}
