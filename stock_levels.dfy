/** The stock-level bands that CategoryDetail and ProductDetail each write inline. */
module StockLevels {
  import opened Js
  import opened Inventory

  /** A quantity's level: none left is Out, fewer than 10 Low, fewer than 50 Medium, else High. */
  function Classify(q: nat): (l: StockLevel)
    ensures l == Out <==> q == 0
    ensures l == Low <==> 1 <= q < 10
    ensures l == Medium <==> 10 <= q < 50
    ensures l == High <==> 50 <= q
  {
    if q == 0 then Out else if q < 10 then Low else if q < 50 then Medium else High
  }

  /** The levels ordered from least to most stock. */
  function Rank(l: StockLevel): nat {
    match l
    case Out => 0
    case Low => 1
    case Medium => 2
    case High => 3
  }

  /** More stock never yields a lower level. */
  lemma ClassifyMonotone(q1: nat, q2: nat)
    requires q1 <= q2
    ensures Rank(Classify(q1)) <= Rank(Classify(q2))
  {
  }

  /** The bands applied to an `estoque` column the way the inline conditionals evaluate them:
      `null === 0` is false and `null < 10` is true, so a null quantity is Low. */
  function ClassifyColumn(estoque: Option<nat>): (l: StockLevel)
    ensures estoque.Some? ==> l == Classify(estoque.value)
    ensures estoque.None? ==> l == Low
  {
    match estoque
    case Some(q) => Classify(q)
    case None => Low
  }
}
