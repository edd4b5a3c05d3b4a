/** The product page: the route id it fetches and deletes by, the stock level it shows,
    the value card and the description fallback. */
module ProductDetail {
  import opened Js
  import opened Inventory
  import StockLevels
  import CategoryDetail

  /** `parseInt(id || "0")`: the key the page fetches the product by and deletes it by. */
  function ProductKey(id: Option<string>): (k: Option<int>)
    ensures id.None? || id == Some("") ==> k == Some(0)
    ensures forall n: nat :: id == Some(NatToString(n)) ==> k == Some(n)
  {
    ParseIntOfNatToString(0);
    assert NatToString(0) == "0";
    forall n: nat | id == Some(NatToString(n)) ensures ParseInt(id.value) == Some(n) {
      ParseIntOfNatToString(n);
    }
    ParseInt(if id.None? || id == Some("") then "0" else id.value)
  }

  /** The page's own copy of the level conditional. */
  function LevelOf(estoque: Option<nat>): (l: StockLevel)
    ensures l == StockLevels.ClassifyColumn(estoque)
  {
    if estoque == Some(0) then Out
    else if Quantity(estoque) < 10 then Low
    else if Quantity(estoque) < 50 then Medium
    else High
  }

  /** Both pages classify every quantity alike. */
  lemma SameLevelAsCategoryDetail(estoque: Option<nat>)
    ensures LevelOf(estoque) == CategoryDetail.LevelOf(estoque)
  {
  }

  /** The value card, `preco * estoque`, in cents. */
  function Value(product: Row): (v: int)
    ensures product.estoque.Some? ==> v == product.preco * product.estoque.value
    ensures product.estoque.None? ==> v == 0
    ensures LevelOf(product.estoque) == Out ==> v == 0
    ensures product.preco >= 0 ==> v >= 0
  {
    product.preco * Quantity(product.estoque)
  }

  const NoDescription := "No description available."

  /** `descricao || "No description available."`. */
  function Description(product: Row): (text: string)
    ensures product.descricao.None? || product.descricao == Some("") ==> text == NoDescription
    ensures product.descricao.Some? && product.descricao.value != "" ==> text == product.descricao.value
  {
    match product.descricao
    case Some(d) => if d == "" then NoDescription else d
    case None => NoDescription
  }
}
