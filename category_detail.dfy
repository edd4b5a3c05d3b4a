/** The category page: it tags each fetched row with a stock level, totals the rows,
    searches them, and checks the new name before renaming the category. */
module CategoryDetail {
  import opened Js
  import opened Seqs
  import opened Inventory
  import StockLevels

  /** A fetched row together with the `stockLevel` the page spreads into it. */
  datatype StockedRow = StockedRow(row: Row, stockLevel: StockLevel)

  /** The page's inline level conditional: a strict `=== 0` test first, then `<` against
      the bands, where a null column compares as 0. */
  function LevelOf(estoque: Option<nat>): (l: StockLevel)
    ensures l == StockLevels.ClassifyColumn(estoque)
  {
    if estoque == Some(0) then Out
    else if Quantity(estoque) < 10 then Low
    else if Quantity(estoque) < 50 then Medium
    else High
  }

  /** `data.map(product => ({...product, stockLevel}))`. */
  function WithStockLevel(rows: seq<Row>): (r: seq<StockedRow>)
    ensures |r| == |rows|
    ensures forall i :: 0 <= i < |rows| ==> r[i].row == rows[i]
    ensures forall i :: 0 <= i < |rows| && rows[i].estoque.Some? ==>
      r[i].stockLevel == StockLevels.Classify(rows[i].estoque.value)
  {
    seq(|rows|, i requires 0 <= i < |rows| => StockedRow(rows[i], LevelOf(rows[i].estoque)))
  }

  // ---------------------------------------------------------------------------
  // Totals

  /** `products.reduce((sum, p) => sum + p.estoque, 0)`. */
  function TotalItems(products: seq<StockedRow>): nat {
    if products == [] then 0
    else TotalItems(products[..|products| - 1]) + Quantity(products[|products| - 1].row.estoque)
  }

  /** `products.reduce((sum, p) => sum + p.preco * p.estoque, 0)`, in cents. */
  function TotalValue(products: seq<StockedRow>): int {
    if products == [] then 0
    else
      var p := products[|products| - 1].row;
      TotalValue(products[..|products| - 1]) + p.preco * Quantity(p.estoque)
  }

  datatype CategoryTotals = CategoryTotals(totalProducts: nat, totalItems: nat, totalValue: int)

  function Totals(products: seq<StockedRow>): (t: CategoryTotals)
    ensures t.totalProducts == |products|
    ensures products == [] ==> t == CategoryTotals(0, 0, 0)
  {
    CategoryTotals(|products|, TotalItems(products), TotalValue(products))
  }

  /** Both totals add up over a split of the list. */
  lemma {:induction false} TotalsAppend(a: seq<StockedRow>, b: seq<StockedRow>)
    ensures TotalItems(a + b) == TotalItems(a) + TotalItems(b)
    ensures TotalValue(a + b) == TotalValue(a) + TotalValue(b)
    decreases |b|
  {
    if b == [] {
      assert a + b == a;
    } else {
      var b' := b[..|b| - 1];
      assert (a + b)[..|a + b| - 1] == a + b';
      TotalsAppend(a, b');
    }
  }

  /** The total quantity is at least the quantity of every single row. */
  lemma {:induction false} TotalItemsBoundsEach(products: seq<StockedRow>, i: nat)
    requires i < |products|
    ensures Quantity(products[i].row.estoque) <= TotalItems(products)
  {
    if i < |products| - 1 {
      TotalItemsBoundsEach(products[..|products| - 1], i);
    }
  }

  /** With no negative price, the total value is not negative. */
  lemma {:induction false} TotalValueNonNegative(products: seq<StockedRow>)
    requires forall i :: 0 <= i < |products| ==> products[i].row.preco >= 0
    ensures TotalValue(products) >= 0
  {
    if products != [] {
      TotalValueNonNegative(products[..|products| - 1]);
    }
  }

  // ---------------------------------------------------------------------------
  // Search

  /** The search predicate: the lowercased query occurs in the lowercased nome or sku, or
      in descricao when present (`descricao?.… || false` is false for a null descricao). */
  predicate MatchesSearch(query: string, p: StockedRow) {
    var q := Lower(query);
    || Includes(Lower(p.row.nome), q)
    || Includes(Lower(p.row.sku), q)
    || (p.row.descricao.Some? && Includes(Lower(p.row.descricao.value), q))
  }

  /** `products.filter(...)` with the search predicate. */
  function Search(products: seq<StockedRow>, query: string): (r: seq<StockedRow>)
    ensures IsSubsequence(r, products)
    ensures forall p :: p in r <==> p in products && MatchesSearch(query, p)
    ensures forall p :: multiset(r)[p] == if MatchesSearch(query, p) then multiset(products)[p] else 0
  {
    Filter(p => MatchesSearch(query, p), products)
  }

  /** An empty search box shows every row. */
  lemma EmptyQueryKeepsAll(products: seq<StockedRow>)
    ensures Search(products, "") == products
  {
    forall i | 0 <= i < |products| ensures MatchesSearch("", products[i]) {
      IncludesEmpty(Lower(products[i].row.nome));
    }
    FilterKeepsAll(p => MatchesSearch("", p), products);
  }

  /** A row without a description is found only through its nome or sku. */
  lemma MissingDescriptionNeverMatches(query: string, p: StockedRow)
    requires p.row.descricao.None?
    ensures MatchesSearch(query, p) <==>
      Includes(Lower(p.row.nome), Lower(query)) || Includes(Lower(p.row.sku), Lower(query))
  {
  }

  // ---------------------------------------------------------------------------
  // Renaming the category

  datatype EditDecision = RejectEdit(message: string) | SubmitEdit(newName: string)

  /** handleEditCategory's guard: a name that trims to nothing is refused with a message and
      nothing is fetched or updated; any other name goes ahead unchanged (untrimmed). */
  function EditCategory(nome: string): (d: EditDecision)
    ensures d.RejectEdit? <==> IsBlank(nome)
    ensures d.RejectEdit? ==> d.message == "Category name is required"
    ensures d.SubmitEdit? ==> d.newName == nome
  {
    TrimEmptyIffBlank(nome);
    if Trim(nome) == [] then RejectEdit("Category name is required") else SubmitEdit(nome)
  }
}
