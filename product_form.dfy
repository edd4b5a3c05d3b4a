/** The product form: the category choices, the form state loaded from a row and edited
    one field at a time, and the submit step that validates, converts and picks create or
    update. */
module ProductForm {
  import opened Js
  import opened Seqs
  import opened Inventory

  /** The form state; every field holds the text of its input. */
  datatype FormData = FormData(
    nome: string,
    sku: string,
    descricao: string,
    preco: string,
    estoque: string,
    categoria: string)

  const EmptyForm := FormData("", "", "", "", "", "")

  /** The `name` attributes of the inputs wired to handleChange; categoria has its own handler. */
  datatype InputName = Nome | Sku | Preco | Estoque | Descricao

  function Field(f: FormData, name: InputName): string {
    match name
    case Nome => f.nome
    case Sku => f.sku
    case Preco => f.preco
    case Estoque => f.estoque
    case Descricao => f.descricao
  }

  /** `{ ...prev, [name]: value }`. */
  function WithField(f: FormData, name: InputName, value: string): (g: FormData)
    ensures Field(g, name) == value
    ensures forall other :: other != name ==> Field(g, other) == Field(f, other)
    ensures g.categoria == f.categoria
  {
    match name
    case Nome => f.(nome := value)
    case Sku => f.(sku := value)
    case Preco => f.(preco := value)
    case Estoque => f.(estoque := value)
    case Descricao => f.(descricao := value)
  }

  // ---------------------------------------------------------------------------
  // Category choices

  /** `[...new Set(data.map(item => item.categoria))].filter(Boolean)`. */
  function UniqueCategories(data: seq<Option<string>>): (r: seq<string>)
    ensures forall c :: c in r <==> c != "" && Some(c) in data
  {
    NamedCategoriesMembers(Unique(data));
    NamedCategories(Unique(data))
  }

  lemma NamedCategoriesSnoc(s: seq<Option<string>>, x: Option<string>)
    ensures NamedCategories(s + [x]) == NamedCategories(s) + (if x.Some? && x.value != "" then [x.value] else [])
  {
    assert (s + [x])[..|s|] == s;
  }

  /** Removing the empty entries after deduplicating is deduplicating the non-empty entries. */
  lemma {:induction false} UniqueCategoriesCommute(data: seq<Option<string>>)
    ensures UniqueCategories(data) == Unique(NamedCategories(data))
  {
    if data != [] {
      var p, x := data[..|data| - 1], data[|data| - 1];
      assert data == p + [x];
      UniqueCategoriesCommute(p);
      UniqueSnoc(p, x);
      NamedCategoriesSnoc(p, x);
      if x.Some? && x.value != "" {
        var named := NamedCategories(p);
        UniqueSnoc(named, x.value);
        if x !in Unique(p) {
          NamedCategoriesSnoc(Unique(p), x);
        }
        assert named + [x.value] == NamedCategories(data);
      } else {
        if x !in Unique(p) {
          NamedCategoriesSnoc(Unique(p), x);
        }
        assert NamedCategories(data) == NamedCategories(p);
      }
    }
  }

  /** The choices have no repeats, and list the categories in the order they first appear. */
  lemma UniqueCategoriesOrdered(data: seq<Option<string>>)
    ensures NoDuplicates(UniqueCategories(data))
    ensures forall i, j :: 0 <= i < j < |UniqueCategories(data)| ==>
      && UniqueCategories(data)[i] in NamedCategories(data) && UniqueCategories(data)[j] in NamedCategories(data)
      && FirstIndex(NamedCategories(data), UniqueCategories(data)[i]) < FirstIndex(NamedCategories(data), UniqueCategories(data)[j])
  {
    UniqueCategoriesCommute(data);
    UniqueOrdered(NamedCategories(data));
  }

  // ---------------------------------------------------------------------------
  // Row to form, form to row

  /** The form filled from a fetched row (the edit page's effect). */
  function FromRow(row: Row): (f: FormData)
    ensures f.nome == row.nome && f.sku == row.sku
    ensures f.descricao == (if row.descricao.Some? then row.descricao.value else "")
    ensures f.categoria == (if row.categoria.Some? then row.categoria.value else "")
    ensures row.estoque.None? ==> f.estoque == "0"
    ensures row.estoque.Some? ==> ParseInt(f.estoque) == Some(row.estoque.value)
    ensures ParsePrice(f.preco) == Some(row.preco)
  {
    ParsePriceOfPriceText(row.preco);
    var estoque := if row.estoque.Some? then (ParseIntOfNatToString(row.estoque.value); NatToString(row.estoque.value)) else "0";
    FormData(row.nome, row.sku, row.descricao.GetOr(""), PriceText(row.preco), estoque, row.categoria.GetOr(""))
  }

  /** The conversion in handleSubmit: empty descricao and categoria become null, preco is
      `parseFloat` (None is NaN), and estoque is `parseInt(...) || 0`. */
  function ToInsert(f: FormData): (p: ProductInsert)
    ensures p.nome == f.nome && p.sku == f.sku
    ensures p.descricao.None? <==> f.descricao == ""
    ensures p.categoria.None? <==> f.categoria == ""
    ensures p.descricao.Some? ==> p.descricao.value == f.descricao
    ensures p.categoria.Some? ==> p.categoria.value == f.categoria
    ensures p.preco == ParsePrice(f.preco)
    ensures ParseInt(f.estoque).None? ==> p.estoque == 0
    ensures ParseInt(f.estoque).Some? ==> p.estoque == ParseInt(f.estoque).value
  {
    ProductInsert(f.nome, f.sku, NullIfEmpty(f.descricao), ParsePrice(f.preco),
      ParseInt(f.estoque).GetOr(0), NullIfEmpty(f.categoria))
  }

  /** An empty estoque box is read as 0. */
  lemma EmptyStockIsZero(f: FormData)
    requires f.estoque == ""
    ensures ToInsert(f).estoque == 0
  {
    assert DigitRun(Unsigned(f.estoque).0) == 0;
  }

  /** row, then form, then payload: every column comes back, except that an empty text
      column comes back as null and a null estoque as 0. */
  lemma RowFormRoundTrip(row: Row)
    ensures var p := ToInsert(FromRow(row));
      && p.nome == row.nome && p.sku == row.sku
      && p.preco == Some(row.preco)
      && p.estoque == Quantity(row.estoque)
      && p.descricao == (if row.descricao == Some("") then None else row.descricao)
      && p.categoria == (if row.categoria == Some("") then None else row.categoria)
  {
    if row.estoque.None? {
      ParseIntOfNatToString(0);
      assert NatToString(0) == "0";
    }
  }

  // ---------------------------------------------------------------------------
  // Submitting

  datatype Submission =
    | Invalid(message: string)
    | Create(payload: ProductInsert)
    | Update(id: string, payload: ProductInsert)

  /** handleSubmit: nome, sku and preco must be non-empty; then the converted payload is
      sent as an update in edit mode with a product id, and as a create otherwise. */
  function Submit(f: FormData, isEdit: bool, productId: Option<string>): (s: Submission)
    ensures s.Invalid? <==> f.nome == "" || f.sku == "" || f.preco == ""
    ensures s.Invalid? ==> s.message == "Name, SKU and Price are required fields."
    ensures s.Update? <==> !s.Invalid? && isEdit && productId.Some? && productId.value != ""
    ensures s.Update? ==> s.id == productId.value
    ensures !s.Invalid? ==> s.payload == ToInsert(f)
  {
    if f.nome == "" || f.sku == "" || f.preco == "" then Invalid("Name, SKU and Price are required fields.")
    else if isEdit && productId.Some? && productId.value != "" then Update(productId.value, ToInsert(f))
    else Create(ToInsert(f))
  }

  /** A form loaded from a row can be submitted unless the row's nome or sku is empty. */
  lemma LoadedFormSubmits(row: Row, isEdit: bool, productId: Option<string>)
    ensures Submit(FromRow(row), isEdit, productId).Invalid? <==> row.nome == "" || row.sku == ""
  {
  }

  // ---------------------------------------------------------------------------
  // The form state

  /** The component's `formData` state and the handlers that update it. */
  class FormState {
    var formData: FormData

    constructor()
      ensures formData == EmptyForm
    {
      formData := EmptyForm;
    }

    /** The effect that copies a fetched row into the form. */
    method Load(row: Row)
      modifies this
      ensures formData == FromRow(row)
    {
      formData := FromRow(row);
    }

    /** handleChange: only the named field changes. */
    method HandleChange(name: InputName, value: string)
      modifies this
      ensures Field(formData, name) == value
      ensures forall other :: other != name ==> Field(formData, other) == Field(old(formData), other)
      ensures formData.categoria == old(formData).categoria
    {
      formData := WithField(formData, name, value);
    }

    /** handleCategoryChange: only categoria changes. */
    method HandleCategoryChange(value: string)
      modifies this
      ensures formData.categoria == value
      ensures forall name :: Field(formData, name) == Field(old(formData), name)
    {
      formData := formData.(categoria := value);
    }
  }
}
