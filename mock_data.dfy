/** The fixture lists and the dashboard statistics computed from the product list. */
module MockData {
  import opened Js
  import opened Seqs
  import opened Inventory
  import StockLevels
  import Categories

  /** `products.reduce((sum, p) => sum + p.preco * p.estoque, 0)`, in cents. */
  function StockValue(products: seq<Product>): int {
    if products == [] then 0
    else StockValue(products[..|products| - 1]) + products[|products| - 1].preco * products[|products| - 1].estoque
  }

  function Tagged(products: seq<Product>, level: StockLevel): seq<Product> {
    Filter((p: Product) => p.stockLevel == level, products)
  }

  /** A product carries one tag, so two tags select at most all products between them. */
  lemma TaggedDisjoint(products: seq<Product>, a: StockLevel, b: StockLevel)
    requires a != b
    ensures |Tagged(products, a)| + |Tagged(products, b)| <= |products|
  {
    FilterDisjointLengths((p: Product) => p.stockLevel == a, (p: Product) => p.stockLevel == b, products);
  }

  /** mockDashboardStats: the number of products, the number tagged "low" and "out", and
      the total stock value. */
  function DashboardStats(products: seq<Product>): (r: DashboardStat)
    ensures r.totalProducts == |products|
    ensures r.lowStockProducts + r.outOfStockProducts <= r.totalProducts
    ensures r.lowStockProducts == CountTagged(products, Low)
    ensures r.outOfStockProducts == CountTagged(products, Out)
    ensures products == [] ==> r == DashboardStat(0, 0, 0, 0)
  {
    TaggedDisjoint(products, Low, Out);
    TaggedLength(products, Low);
    TaggedLength(products, Out);
    DashboardStat(|products|, |Tagged(products, Low)|, |Tagged(products, Out)|, StockValue(products))
  }

  /** With no negative price the total value is not negative. */
  lemma {:induction false} StockValueNonNegative(products: seq<Product>)
    requires forall i :: 0 <= i < |products| ==> products[i].preco >= 0
    ensures StockValue(products) >= 0
  {
    if products != [] {
      StockValueNonNegative(products[..|products| - 1]);
    }
  }

  // ---------------------------------------------------------------------------
  // The fixture

  const MockProducts: seq<Product> := [
    Product(1, "Wireless Headphones", "Premium noise cancelling wireless headphones with long battery life",
      "Electronics", 19999, 45, High, "EL-WH-001", "2023-03-15T10:30:00Z"),
    Product(2, "Smart Watch", "Fitness and health tracking smartwatch with heart rate monitor",
      "Electronics", 24999, 18, Medium, "EL-SW-002", "2023-02-10T09:45:00Z"),
    Product(3, "Cadeira Ergonômica", "Adjustable office chair with lumbar support",
      "Furniture", 18999, 7, Low, "FU-OC-001", "2023-01-25T13:15:00Z"),
    Product(4, "Mechanical Keyboard", "Mechanical gaming keyboard with RGB lighting",
      "Electronics", 12999, 0, Out, "EL-KB-003", "2023-03-05T15:20:00Z"),
    Product(5, "Standing Desk", "Adjustable height standing desk for home office",
      "Furniture", 34999, 12, Medium, "FU-SD-002", "2023-02-18T11:30:00Z"),
    Product(6, "Laptop Backpack", "Waterproof laptop backpack with USB charging port",
      "Accessories", 5999, 32, High, "AC-BP-001", "2023-03-01T10:00:00Z"),
    Product(7, "Wireless Mouse", "Ergonomic wireless mouse with adjustable DPI",
      "Electronics", 3999, 8, Low, "EL-WM-004", "2023-03-12T16:45:00Z"),
    Product(8, "External SSD", "1TB portable external solid state drive",
      "Electronics", 15999, 15, Medium, "EL-SSD-005", "2023-02-28T09:15:00Z")
  ]

  const MockCategories: seq<Category> := [
    Category("1", "Electronics", "Electronic devices and gadgets", 5),
    Category("2", "Furniture", "Office and home furniture", 2),
    Category("3", "Accessories", "Various accessories and add-ons", 1)
  ]

  /** How many products carry the tag. */
  function CountTagged(products: seq<Product>, level: StockLevel): nat {
    if products == [] then 0
    else (if products[0].stockLevel == level then 1 else 0) + CountTagged(products[1..], level)
  }

  lemma {:induction false} TaggedLength(products: seq<Product>, level: StockLevel)
    ensures |Tagged(products, level)| == CountTagged(products, level)
  {
    if products != [] {
      TaggedLength(products[1..], level);
    }
  }

  lemma MockTaggedLow()
    ensures |Tagged(MockProducts, Low)| == 2
  {
    var t := MockProducts;
    assert t[8..] == [];
    assert t[7..][1..] == t[8..];
    assert CountTagged(t[7..], Low) == 0;
    assert t[6..][1..] == t[7..];
    assert CountTagged(t[6..], Low) == 1;
    assert t[5..][1..] == t[6..];
    assert CountTagged(t[5..], Low) == 1;
    assert t[4..][1..] == t[5..];
    assert CountTagged(t[4..], Low) == 1;
    assert t[3..][1..] == t[4..];
    assert CountTagged(t[3..], Low) == 1;
    assert t[2..][1..] == t[3..];
    assert CountTagged(t[2..], Low) == 2;
    assert t[1..][1..] == t[2..];
    assert CountTagged(t[1..], Low) == 2;
    assert t[0..][1..] == t[1..];
    assert CountTagged(t[0..], Low) == 2;
    assert t[0..] == t;
    TaggedLength(t, Low);
  }

  lemma MockTaggedOut()
    ensures |Tagged(MockProducts, Out)| == 1
  {
    var t := MockProducts;
    assert t[8..] == [];
    assert t[7..][1..] == t[8..];
    assert CountTagged(t[7..], Out) == 0;
    assert t[6..][1..] == t[7..];
    assert CountTagged(t[6..], Out) == 0;
    assert t[5..][1..] == t[6..];
    assert CountTagged(t[5..], Out) == 0;
    assert t[4..][1..] == t[5..];
    assert CountTagged(t[4..], Out) == 0;
    assert t[3..][1..] == t[4..];
    assert CountTagged(t[3..], Out) == 1;
    assert t[2..][1..] == t[3..];
    assert CountTagged(t[2..], Out) == 1;
    assert t[1..][1..] == t[2..];
    assert CountTagged(t[1..], Out) == 1;
    assert t[0..][1..] == t[1..];
    assert CountTagged(t[0..], Out) == 1;
    assert t[0..] == t;
    TaggedLength(t, Out);
  }

  /** The products whose quantity the classifier puts at the level. */
  function Classified(products: seq<Product>, level: StockLevel): seq<Product> {
    Filter((p: Product) => StockLevels.Classify(p.estoque) == level, products)
  }

  function CountClassified(products: seq<Product>, level: StockLevel): nat {
    if products == [] then 0
    else (if StockLevels.Classify(products[0].estoque) == level then 1 else 0) + CountClassified(products[1..], level)
  }

  lemma {:induction false} ClassifiedLength(products: seq<Product>, level: StockLevel)
    ensures |Classified(products, level)| == CountClassified(products, level)
  {
    if products != [] {
      ClassifiedLength(products[1..], level);
    }
  }

  lemma MockClassifiedLow()
    ensures |Classified(MockProducts, Low)| == 2
  {
    var t := MockProducts;
    assert t[8..] == [];
    assert t[7..][1..] == t[8..];
    assert CountClassified(t[7..], Low) == 0;
    assert t[6..][1..] == t[7..];
    assert CountClassified(t[6..], Low) == 1;
    assert t[5..][1..] == t[6..];
    assert CountClassified(t[5..], Low) == 1;
    assert t[4..][1..] == t[5..];
    assert CountClassified(t[4..], Low) == 1;
    assert t[3..][1..] == t[4..];
    assert CountClassified(t[3..], Low) == 1;
    assert t[2..][1..] == t[3..];
    assert CountClassified(t[2..], Low) == 2;
    assert t[1..][1..] == t[2..];
    assert CountClassified(t[1..], Low) == 2;
    assert t[0..][1..] == t[1..];
    assert CountClassified(t[0..], Low) == 2;
    assert t[0..] == t;
    ClassifiedLength(t, Low);
  }

  lemma MockClassifiedOut()
    ensures |Classified(MockProducts, Out)| == 1
  {
    var t := MockProducts;
    assert t[8..] == [];
    assert t[7..][1..] == t[8..];
    assert CountClassified(t[7..], Out) == 0;
    assert t[6..][1..] == t[7..];
    assert CountClassified(t[6..], Out) == 0;
    assert t[5..][1..] == t[6..];
    assert CountClassified(t[5..], Out) == 0;
    assert t[4..][1..] == t[5..];
    assert CountClassified(t[4..], Out) == 0;
    assert t[3..][1..] == t[4..];
    assert CountClassified(t[3..], Out) == 1;
    assert t[2..][1..] == t[3..];
    assert CountClassified(t[2..], Out) == 1;
    assert t[1..][1..] == t[2..];
    assert CountClassified(t[1..], Out) == 1;
    assert t[0..][1..] == t[1..];
    assert CountClassified(t[0..], Out) == 1;
    assert t[0..] == t;
    ClassifiedLength(t, Out);
  }

  /** Counting by the classifier instead of the stored tags gives the same low and out counts. */
  lemma MockTagsAgreeOnLowAndOut()
    ensures |Classified(MockProducts, Low)| == DashboardStats(MockProducts).lowStockProducts
    ensures |Classified(MockProducts, Out)| == DashboardStats(MockProducts).outOfStockProducts
  {
    MockStats();
    MockClassifiedLow();
    MockClassifiedOut();
  }

  lemma MockStockValue()
    ensures StockValue(MockProducts) == 2366863
  {
    var t := MockProducts;
    assert t[..0] == [];
    assert t[..1][..0] == t[..0];
    assert StockValue(t[..1]) == 899955;
    assert t[..2][..1] == t[..1];
    assert StockValue(t[..2]) == 1349937;
    assert t[..3][..2] == t[..2];
    assert StockValue(t[..3]) == 1482930;
    assert t[..4][..3] == t[..3];
    assert StockValue(t[..4]) == 1482930;
    assert t[..5][..4] == t[..4];
    assert StockValue(t[..5]) == 1902918;
    assert t[..6][..5] == t[..5];
    assert StockValue(t[..6]) == 2094886;
    assert t[..7][..6] == t[..6];
    assert StockValue(t[..7]) == 2126878;
    assert t[..8][..7] == t[..7];
    assert StockValue(t[..8]) == 2366863;
    assert t[..8] == t;
  }

  /** The fixture's statistics: 8 products, ids 3 and 7 tagged low, id 4 tagged out, and a
      stock value of 23668.63. */
  lemma MockStats()
    ensures DashboardStats(MockProducts) == DashboardStat(8, 2, 1, 2366863)
  {
    MockTaggedLow();
    MockTaggedOut();
    MockStockValue();
  }
  /** The `categoria` column of a product list, as the categories page selects it. */
  function CategoryColumn(products: seq<Product>): (c: seq<Option<string>>)
    ensures |c| == |products|
    ensures forall i :: 0 <= i < |products| ==> c[i] == Some(products[i].categoria)
  {
    seq(|products|, i requires 0 <= i < |products| => Some(products[i].categoria))
  }

  /** The fixture's category column, with e, f and a for its three names. */
  function Pattern(e: string, f: string, a: string): seq<Option<string>> {
    [Some(e), Some(e), Some(f), Some(e), Some(f), Some(a), Some(e), Some(e)]
  }

  lemma PatternNamed(e: string, f: string, a: string)
    requires e != "" && f != "" && a != ""
    ensures NamedCategories(Pattern(e, f, a)) == [e, e, f, e, f, a, e, e]
  {
    NamedCategoriesAllPresent(Pattern(e, f, a));
    var named := NamedCategories(Pattern(e, f, a));
    assert named[0] == e && named[1] == e && named[2] == f && named[3] == e;
    assert named[4] == f && named[5] == a && named[6] == e && named[7] == e;
  }

  lemma PatternGroups(e: string, f: string, a: string)
    requires e != "" && f != "" && a != ""
    requires e != f && e != a && f != a
    ensures Categories.GroupNames(Pattern(e, f, a)) == [e, f, a]
  {
    var p4: seq<string> := [e, e, f, e];
    var p5: seq<string> := [e, e, f, e, f];
    var p6: seq<string> := [e, e, f, e, f, a];
    var p7: seq<string> := [e, e, f, e, f, a, e];
    var p8: seq<string> := [e, e, f, e, f, a, e, e];
    assert Unique(p4) == [e, f] by {
      PatternGroupsHead(e, f);
    }
    assert Unique(p5) == [e, f] by {
      assert p5 == p4 + [f];
      UniqueSnoc(p4, f);
    }
    assert Unique(p6) == [e, f, a] by {
      assert p6 == p5 + [a];
      UniqueSnoc(p5, a);
    }
    assert Unique(p7) == [e, f, a] by {
      assert p7 == p6 + [e];
      UniqueSnoc(p6, e);
    }
    assert Unique(p8) == [e, f, a] by {
      assert p8 == p7 + [e];
      UniqueSnoc(p7, e);
    }
    PatternNamed(e, f, a);
  }

  /** The first four values of the fixture's category column hold two names. */
  lemma PatternGroupsHead(e: string, f: string)
    requires e != f
    ensures Unique([e, e, f, e]) == [e, f]
  {
    var p1: seq<string> := [e];
    var p2: seq<string> := [e, e];
    var p3: seq<string> := [e, e, f];
    var p4: seq<string> := [e, e, f, e];
    assert Unique(p1) == [e] by {
      var none: seq<string> := [];
      assert p1 == none + [e];
      UniqueSnoc(none, e);
    }
    assert Unique(p2) == [e] by {
      assert p2 == p1 + [e];
      UniqueSnoc(p1, e);
    }
    assert Unique(p3) == [e, f] by {
      assert p3 == p2 + [f];
      UniqueSnoc(p2, f);
    }
    assert Unique(p4) == [e, f] by {
      assert p4 == p3 + [e];
      UniqueSnoc(p3, e);
    }
  }

  lemma PatternCounts(e: string, f: string, a: string)
    requires e != "" && f != "" && a != ""
    requires e != f && e != a && f != a
    ensures Categories.Occurrences(Pattern(e, f, a), e) == 5
    ensures Categories.Occurrences(Pattern(e, f, a), f) == 2
    ensures Categories.Occurrences(Pattern(e, f, a), a) == 1
  {
    PatternCount(e, f, a, e);
    PatternCount(e, f, a, f);
    PatternCount(e, f, a, a);
  }

  lemma PatternCount(e: string, f: string, a: string, name: string)
    requires e != "" && f != "" && a != ""
    requires e != f && e != a && f != a
    requires name == e || name == f || name == a
    ensures Categories.Occurrences(Pattern(e, f, a), name) == if name == e then 5 else if name == f then 2 else 1
  {
    Categories.OccurrencesIsMultiplicity(Pattern(e, f, a), name);
  }

  /** Grouping the fixture's products gives the names and counts of the category fixture,
      in the same order. */
  lemma MockGroupingMatchesCategories()
    ensures |Categories.Rollup(CategoryColumn(MockProducts))| == |MockCategories|
    ensures forall i :: 0 <= i < |MockCategories| ==>
      && Categories.Rollup(CategoryColumn(MockProducts))[i].nome == MockCategories[i].nome
      && Categories.Rollup(CategoryColumn(MockProducts))[i].productCount == MockCategories[i].productCount
  {
    var e, f, a := "Electronics", "Furniture", "Accessories";
    var column := CategoryColumn(MockProducts);
    assert column == Pattern(e, f, a) by {
      assert MockProducts[0].categoria == e && MockProducts[1].categoria == e;
      assert MockProducts[2].categoria == f && MockProducts[3].categoria == e;
      assert MockProducts[4].categoria == f && MockProducts[5].categoria == a;
      assert MockProducts[6].categoria == e && MockProducts[7].categoria == e;
    }
    assert e != f && e != a && f != a by {
      assert e[0] != f[0] && e[0] != a[0] && f[0] != a[0];
    }
    PatternGroups(e, f, a);
    PatternCounts(e, f, a);
    var r := Categories.Rollup(column);
    assert r[0] == Categories.Entry(e, 5);
    assert r[1] == Categories.Entry(f, 2);
    assert r[2] == Categories.Entry(a, 1);
    var m := MockCategories;
    assert m[0].nome == e && m[0].productCount == 5;
    assert m[1].nome == f && m[1].productCount == 2;
    assert m[2].nome == a && m[2].productCount == 1;
    forall i | 0 <= i < |m| ensures r[i].nome == m[i].nome && r[i].productCount == m[i].productCount {
      assert i == 0 || i == 1 || i == 2;
    }
  }
}
