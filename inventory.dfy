/** The records the pages pass around: the `Product`, `Category` and `DashboardStat`
    interfaces, the `produtos` table row with its nullable columns, and the payload the
    pages insert into that table. Prices are integer cents. */
module Inventory {
  import opened Js

  datatype StockLevel = Out | Low | Medium | High

  /** The string a level is stored as and compared against. */
  function LevelName(l: StockLevel): (name: string)
    ensures name in {"out", "low", "medium", "high"}
  {
    match l
    case Out => "out"
    case Low => "low"
    case Medium => "medium"
    case High => "high"
  }

  lemma LevelNameInjective(a: StockLevel, b: StockLevel)
    requires LevelName(a) == LevelName(b)
    ensures a == b
  {
  }

  /** A product as the fixture and the Products page hold it, with a stored stock tag. */
  datatype Product = Product(
    id: int,
    nome: string,
    descricao: string,
    categoria: string,
    preco: int,
    estoque: nat,
    stockLevel: StockLevel,
    sku: string,
    criadoEm: string)

  /** A category entry as the Categories page lists it. */
  datatype Category = Category(id: string, nome: string, descricao: string, productCount: nat)

  datatype DashboardStat = DashboardStat(
    totalProducts: nat,
    lowStockProducts: nat,
    outOfStockProducts: nat,
    totalValue: int)

  /** A fetched `produtos` row. */
  datatype Row = Row(
    categoria: Option<string>,
    criadoEm: Option<string>,
    descricao: Option<string>,
    estoque: Option<nat>,
    id: int,
    nome: string,
    preco: int,
    sku: string)

  /** What the pages insert into (or update in) `produtos`; a `preco` of `None` is NaN. */
  datatype ProductInsert = ProductInsert(
    nome: string,
    sku: string,
    descricao: Option<string>,
    preco: Option<int>,
    estoque: int,
    categoria: Option<string>)

  /** The number an `estoque` column contributes to `+`, `*` and `<`: JavaScript reads null as 0. */
  function Quantity(estoque: Option<nat>): (q: nat)
    ensures estoque.Some? ==> q == estoque.value
    ensures estoque.None? ==> q == 0
  {
    estoque.GetOr(0)
  }

  /** `x || null` for a text column. */
  function NullIfEmpty(s: string): (r: Option<string>)
    ensures r.None? <==> s == ""
    ensures r.Some? ==> r.value == s
  {
    if s == "" then None else Some(s)
  }

  /** The truthy values of a list of `categoria` values (present and non-empty), in order. */
  function NamedCategories(cats: seq<Option<string>>): seq<string> {
    if cats == [] then []
    else
      var last := cats[|cats| - 1];
      NamedCategories(cats[..|cats| - 1]) + (if last.Some? && last.value != "" then [last.value] else [])
  }

  /** The truthy values are exactly the present, non-empty ones. */
  lemma {:induction false} NamedCategoriesMembers(cats: seq<Option<string>>)
    ensures forall c :: c in NamedCategories(cats) <==> c != "" && Some(c) in cats
  {
    if cats != [] {
      var prefix := cats[..|cats| - 1];
      assert cats == prefix + [cats[|cats| - 1]];
      NamedCategoriesMembers(prefix);
    }
  }

  /** When every value is present and non-empty, the truthy values are all of them. */
  lemma {:induction false} NamedCategoriesAllPresent(cats: seq<Option<string>>)
    requires forall i :: 0 <= i < |cats| ==> cats[i].Some? && cats[i].value != ""
    ensures |NamedCategories(cats)| == |cats|
    ensures forall i :: 0 <= i < |cats| ==> NamedCategories(cats)[i] == cats[i].value
  {
    if cats != [] {
      var n := |cats| - 1;
      var prefix := cats[..n];
      NamedCategoriesAllPresent(prefix);
      var named := NamedCategories(prefix);
      assert NamedCategories(cats) == named + [cats[n].value];
      forall i | 0 <= i < |cats| ensures (named + [cats[n].value])[i] == cats[i].value {
        if i < n {
          assert prefix[i] == cats[i];
        }
      }
    }
  }
}
