# Stock inventory core in Dafny

This project models the inventory logic of a small stock-control web application. The
application's pages fetch product rows (`produtos`: nome, sku, descricao, preco, estoque,
categoria) and derive what they show from them:

- a stock level tag (`out`, `low`, `medium`, `high`) computed from the quantity on hand;
- per-category counts, with a slug id and a pluralised description for each category;
- three product searches: one on the category page, one on the products page combined with
  a category filter and a stock-tag filter, and one on the dashboard;
- totals of units and of stock value;
- the product form: its category choices, its validation, and its conversion between a
  fetched row and the text fields it edits;
- the dashboard statistics over the bundled fixture lists.

The model is split into modules:

- `Js` models the JavaScript built-ins the pages rely on: `toLowerCase`, `includes`, `trim`,
  `toString`, `parseInt` and `parseFloat`.
- `Seqs` models `filter` and `[...new Set(...)]`.
- `Inventory` holds the record shapes.
- `StockLevels` holds the reference classifier.
- There is one module per page or component: `CategoryDetail`, `ProductDetail`, `Categories`,
  `Products`, `Dashboard`, `ProductForm`, and `MockData` for the fixtures.

Modelling conventions:

- Prices are integer cents.
- A SQL null is `None`.
- Lower-casing and white space are ASCII.
- The counting loop of the categories page is a method over a `map` with a loop invariant.
- The product form's state is a class whose methods update its `formData` field.
- Everything else is a function, because the source computes it with expressions.

Rules of JavaScript's null coercion that the model follows:

- In `sum + p.estoque` and in `p.preco * p.estoque`, a null quantity counts as 0.
- In the inline level conditional, `null === 0` is false but `null < 10` is true, so a null
  quantity is tagged `low` (`StockLevels.ClassifyColumn`).

## Model

| member | source | states |
|---|---|---|
| StockLevels.Classify | src/pages/CategoryDetail.tsx:59-65 | quantity 0 is out, 1..9 low, 10..49 medium, 50 and above high, each band as an if-and-only-if, so every quantity gets exactly one level |
| StockLevels.ClassifyMonotone | src/pages/CategoryDetail.tsx:59-65 | a larger quantity never gets a lower level in the order out < low < medium < high |
| StockLevels.ClassifyColumn | src/pages/CategoryDetail.tsx:59-65 | a present quantity is classified by Classify, and a null one is tagged low |
| CategoryDetail.LevelOf | src/pages/CategoryDetail.tsx:57-66 | the page's inline conditional equals the reference classifier on every value, null included |
| CategoryDetail.WithStockLevel | src/pages/CategoryDetail.tsx:57-66 | tagging keeps the length, the order and every row unchanged, and adds the classifier's level for each present quantity |
| CategoryDetail.Totals | src/pages/CategoryDetail.tsx:85-87 | totalProducts is the number of rows, and an empty list gives all-zero totals |
| CategoryDetail.TotalsAppend | src/pages/CategoryDetail.tsx:86-87 | the unit total and the value total are additive over any split of the list |
| CategoryDetail.TotalItemsBoundsEach | src/pages/CategoryDetail.tsx:86 | the unit total is at least the quantity of each single row |
| CategoryDetail.TotalValueNonNegative | src/pages/CategoryDetail.tsx:87 | with no negative price, the value total is not negative |
| CategoryDetail.Search | src/pages/CategoryDetail.tsx:195-199 | the result is an order-preserving subsequence keeping every copy of a matching row and no copy of another, and a row is in it iff the lowercased query occurs in the lowercased nome, sku or present descricao |
| CategoryDetail.EmptyQueryKeepsAll | src/pages/CategoryDetail.tsx:195-199 | an empty query returns the list unchanged |
| CategoryDetail.MissingDescriptionNeverMatches | src/pages/CategoryDetail.tsx:198 | a row without descricao matches iff its nome or sku matches |
| CategoryDetail.EditCategory | src/pages/CategoryDetail.tsx:100-107 | a name that is empty or all white space is rejected with "Category name is required", and any other name goes ahead untrimmed |
| ProductDetail.ProductKey | src/pages/ProductDetail.tsx:28 | a missing or empty route id reads as key 0, and a printed natural number reads back as itself |
| ProductDetail.LevelOf | src/pages/ProductDetail.tsx:99-105 | the product page's conditional equals the reference classifier |
| ProductDetail.SameLevelAsCategoryDetail | src/pages/ProductDetail.tsx:99-105 | the product page and the category page give every value the same level |
| ProductDetail.Value | src/pages/ProductDetail.tsx:185 | the value card is preco times estoque, and 0 for a null estoque; it is 0 when the level is out and not negative for a non-negative price |
| ProductDetail.Description | src/pages/ProductDetail.tsx:202 | the fallback text is shown iff descricao is null or empty, and otherwise descricao itself is shown |
| Categories.OccurrencesMembers | src/pages/Categories.tsx:34 | a name's count is positive iff some fetched value equals that name |
| Categories.OccurrencesIsMultiplicity | src/pages/Categories.tsx:34 | a name's count is the multiplicity of that value in the fetched column |
| Categories.GroupNamesMembers | src/pages/Categories.tsx:33 | the dictionary keys are exactly the truthy values, so null and "" values join no group |
| Categories.GroupNamesStep | src/pages/Categories.tsx:32-35 | one more value adds a key at the end iff it is truthy and new, and otherwise leaves the keys as they were |
| Categories.CountByCategory | src/pages/Categories.tsx:31-36 | the loop's keys are the truthy values in first-seen order, and each key's count is the number of values exactly equal to it |
| Categories.CountedBump | src/pages/Categories.tsx:33-34 | one loop step on a truthy value keeps the loop invariant |
| Categories.CountedSkip | src/pages/Categories.tsx:33 | a null or empty value leaves the counts and the invariant unchanged |
| Categories.SlugShape | src/pages/Categories.tsx:40 | the slug is lowercase and has no white space, and slugging a slug changes nothing |
| Categories.SlugRun | src/pages/Categories.tsx:40 | a whole run of white space between two words becomes a single '-' |
| Categories.SlugWithoutSpace | src/pages/Categories.tsx:40 | a name without white space is only lowercased |
| Categories.DescribeInjective | src/pages/Categories.tsx:43 | different counts get different descriptions |
| Categories.FetchCategories | src/pages/Categories.tsx:31-44 | counting and then formatting gives exactly the rollup of the fetched column |
| Categories.RollupEntries | src/pages/Categories.tsx:39-44 | every entry names a truthy value; its count is that value's number of occurrences and is at least 1; its id is the slug of the name; its description names the count |
| Categories.RollupOneEntryPerName | src/pages/Categories.tsx:39-44 | a name has an entry iff it is a truthy value, and no two entries share a name |
| Categories.RollupCountsSum | src/pages/Categories.tsx:31-36 | the counts add up to the number of values with a truthy category |
| Categories.SearchCategories | src/pages/Categories.tsx:110-112 | the result is an order-preserving subsequence, with every copy kept, of the entries whose lowercased name contains the lowercased query |
| Categories.EmptySearchKeepsAllCategories | src/pages/Categories.tsx:110-112 | an empty query keeps every entry |
| Categories.CreateCategory | src/pages/Categories.tsx:64-86 | a blank name is rejected with "Category name is required" and nothing is inserted; otherwise the placeholder has the name as nome and categoria, the given sku, price 0 and stock 0, and an empty descricao becomes null |
| Categories.FormAfterInsert | src/pages/Categories.tsx:97 | after a successful insert the form is empty, and after a failed one it is unchanged |
| Categories.PrototypeNamesMiscounted | src/pages/Categories.tsx:31-36 | with the dictionary as written, category "toString" gets a mangled slot and "__proto__" gets no key, while the grouping counts each of them once |
| Categories.CountAsWrittenAgrees | src/pages/Categories.tsx:31-36 | away from inherited names, the dictionary as written has the grouping's keys and counts |
| Products.Visible | src/pages/Products.tsx:21-35 | the result is an order-preserving subsequence keeping every copy of a kept product; a product is kept iff search, category and stock predicates all hold; a chosen category matches exactly; a chosen stock filter matches the stored tag |
| Products.ClearedShowsAll | src/pages/Products.tsx:104-108 | after Clear Filters the whole list is shown |
| Products.VisibleIsSequential | src/pages/Products.tsx:21-35 | the combined filter equals the search, category and stock filters applied one after another |
| Products.SingleFiltersCommute | src/pages/Products.tsx:21-35 | the three single filters give the same list in any order |
| Products.StockFilterReadsStoredTag | src/pages/Products.tsx:32 | the stock filter reads the stored tag: a product with 45 units tagged high is listed under "high" and not under "medium" |
| Dashboard.Search | src/pages/Index.tsx:164-169 | the result is an order-preserving subsequence keeping every copy of a kept row, and a row is kept iff the lowercased query occurs in the lowercased nome, categoria or sku; descricao is not searched |
| Dashboard.EmptyQueryKeepsAll | src/pages/Index.tsx:165-168 | an empty query keeps every row |
| Dashboard.SearchIgnoresQueryCase | src/pages/Index.tsx:166-168 | queries that lowercase alike give the same result |
| Dashboard.SearchOfLoweredQuery | src/pages/Index.tsx:166-168 | lowercasing the query first does not change the result |
| Dashboard.SearchAsWrittenFails | src/pages/Index.tsx:167 | the search as written fails iff some row has a null categoria and a nome that does not match; when it does not fail it equals Search |
| Dashboard.NullCategoryBreaksSearch | src/pages/Index.tsx:167 | for a row with null categoria and nome "Desk", the query "bookshelves" makes the search as written fail, while Search returns the empty list |
| ProductForm.WithField | src/components/ProductForm.tsx:163 | the named input gets the value, and every other input and categoria keep theirs |
| ProductForm.UniqueCategories | src/components/ProductForm.tsx:56 | a choice is listed iff it is a non-empty value of the column |
| ProductForm.UniqueCategoriesCommute | src/components/ProductForm.tsx:56 | deduplicating and then dropping falsy values equals dropping them and then deduplicating |
| ProductForm.UniqueCategoriesOrdered | src/components/ProductForm.tsx:56 | the choices have no repeats and follow the order of first occurrence |
| ProductForm.FromRow | src/components/ProductForm.tsx:83-90 | nome and sku are copied; null descricao and categoria become ""; null estoque becomes "0"; a present estoque and the price text parse back to the row's values |
| ProductForm.ToInsert | src/components/ProductForm.tsx:181-188 | empty descricao and categoria become null, and other values are kept; preco is the parsed price; estoque is the parsed integer, or 0 when that is NaN |
| ProductForm.EmptyStockIsZero | src/components/ProductForm.tsx:186 | an empty stock input is stored as 0 |
| ProductForm.RowFormRoundTrip | src/components/ProductForm.tsx:181-188 | row to form to payload gives back nome, sku, preco and the quantity (null as 0); descricao and categoria come back, with "" as null |
| ProductForm.Submit | src/components/ProductForm.tsx:176-194 | the form is invalid iff nome, sku or preco is empty, with the page's message; an update is sent iff it is valid, in edit mode, with a non-empty product id; every valid form sends the converted payload |
| ProductForm.LoadedFormSubmits | src/components/ProductForm.tsx:176-178 | a form loaded from a row is refused iff the row's nome or sku is empty |
| ProductForm.FormState.constructor | src/components/ProductForm.tsx:32-39 | the form starts with all fields empty |
| ProductForm.FormState.Load | src/components/ProductForm.tsx:81-92 | loading a row sets the form to FromRow of that row |
| ProductForm.FormState.HandleChange | src/components/ProductForm.tsx:161-164 | only the named field changes |
| ProductForm.FormState.HandleCategoryChange | src/components/ProductForm.tsx:166-168 | only categoria changes |
| MockData.DashboardStats | src/data/mockData.ts:116-121 | totalProducts is the list length; lowStockProducts and outOfStockProducts are the numbers of products tagged low and out, counted one by one; the two together are at most totalProducts; an empty list gives zeros |
| MockData.TaggedDisjoint | src/data/mockData.ts:118-119 | two different tags select at most all products between them |
| MockData.StockValueNonNegative | src/data/mockData.ts:120 | with no negative price, the stock value is not negative |
| MockData.MockStats | src/data/mockData.ts:116-121 | the fixture has 8 products, 2 tagged low, 1 tagged out, and a stock value of 2366863 cents |
| MockData.MockTagsAgreeOnLowAndOut | src/data/mockData.ts:4-93 | classifying the fixture's quantities gives the same low and out counts as its stored tags |
| MockData.MockGroupingMatchesCategories | src/data/mockData.ts:4-114 | grouping the fixture's products gives Electronics 5, Furniture 2 and Accessories 1, in the order of the category fixture |
| Categories.Slug | src/pages/Categories.tsx:40 | the definition (lowercase, then each white-space run to '-'); its properties are stated by the Categories.SlugShape, Categories.SlugRun and Categories.SlugWithoutSpace rows |
| Categories.Describe | src/pages/Categories.tsx:43 | the definition of the description template; its property is stated by the Categories.DescribeInjective row |
| Categories.Format | src/pages/Categories.tsx:39-44 | one entry per dictionary key, in key order; what the entries hold is stated by the Categories.FetchCategories, Categories.RollupEntries and Categories.RollupOneEntryPerName rows |
| Categories.CountAsWritten | src/pages/Categories.tsx:31-36 | the definition of the loop over a plain object, inherited names included; its behaviour is stated by the Categories.PrototypeNamesMiscounted and Categories.CountAsWrittenAgrees rows |
| Dashboard.SearchAsWritten | src/pages/Index.tsx:164-169 | the definition of the search as the page evaluates it, with the throw as failure; its behaviour is stated by the Dashboard.SearchAsWrittenFails and Dashboard.NullCategoryBreaksSearch rows |
| CategoryDetail.TotalItems | src/pages/CategoryDetail.tsx:86 | the definition of the unit sum, null as 0; its properties are stated by the CategoryDetail.Totals, CategoryDetail.TotalsAppend and CategoryDetail.TotalItemsBoundsEach rows |
| CategoryDetail.TotalValue | src/pages/CategoryDetail.tsx:87 | the definition of the value sum, null as 0; its properties are stated by the CategoryDetail.TotalsAppend and CategoryDetail.TotalValueNonNegative rows |
| MockData.Tagged | src/data/mockData.ts:118-119 | the definition of the tag filter; its properties are stated by the MockData.TaggedDisjoint, MockData.DashboardStats and MockData.MockTagsAgreeOnLowAndOut rows |
| MockData.StockValue | src/data/mockData.ts:120 | the definition of the value sum; its properties are stated by the MockData.StockValueNonNegative and MockData.MockStats rows |
| Js.PriceText | src/components/ProductForm.tsx:87 | `toString` of a price in cents: never empty; that `parseFloat` reads it back is stated by the Js.ParsePriceOfPriceText row |
| Js.ParsePrice | src/components/ProductForm.tsx:185 | `parseFloat` is NaN iff, after the white space and the sign, the text starts with neither a digit nor a point followed by a digit; the round trip is stated by the Js.ParsePriceOfPriceText row |
| Inventory.LevelNameInjective | src/types.ts:9 | different levels have different tag names |
| Inventory.NamedCategoriesMembers | src/pages/Categories.tsx:33 | the truthy values are exactly the present, non-empty ones |
| Inventory.NullIfEmpty | src/components/ProductForm.tsx:184 | `x \|\| null` is null iff x is "", and otherwise is x |
| Js.IncludesIffOccurs | src/pages/Products.tsx:24-26 | `includes` holds iff the needle occurs as a block at some position |
| Js.TrimEmptyIffBlank | src/pages/Categories.tsx:64 | `!s.trim()` holds exactly when s is empty or all white space |
| Js.ParseIntOfNatToString | src/components/ProductForm.tsx:88 | `parseInt` of a printed natural number gives that number back |
| Js.ParseInt | src/components/ProductForm.tsx:186 | `parseInt` is NaN iff no digit follows the white space and the sign |
| Js.ParsePriceOfPriceText | src/components/ProductForm.tsx:87 | `parseFloat` of a printed price gives the same number of cents back |
| Js.NatToStringInjective | src/pages/Categories.tsx:43 | different numbers print differently |
| Seqs.Filter | src/pages/Products.tsx:21 | `filter` keeps, in order and with their multiplicities, exactly the elements satisfying the predicate |
| Seqs.FilterCommutes | src/pages/Products.tsx:21-35 | two filters give the same list in either order |
| Seqs.UniqueOrdered | src/components/ProductForm.tsx:56 | `[...new Set(s)]` has no duplicates and lists elements by first occurrence |

## Left out

- All Supabase calls are left out: selects, inserts, updates, deletes, `.single()` lookups and the low-stock RPC. Each page model starts from the rows a select returned, and ends with the payload an insert or update would send.
  - The remote steps of renaming a category are left out: the two id lookups and the bulk update of `categoria_id`.
  - Deleting a category and deleting a product are left out.
  - The edit page's `parseInt(productId)` lookup is left out.
- Authentication, React state plumbing, loading flags, toasts, navigation and query caching are left out. They are asynchronous and run through libraries outside this repository.
- The SKU `CAT-${Date.now()}` reads the clock. `Categories.CreateCategory` takes the SKU as a parameter.
- `Categories.CountByCategory`: lists keys in insertion order. `Object.entries` lists array-index keys (such as "2" or "10") first, in numeric order. So the model assumes no category name is an array index. The same order carries over to `Categories.FetchCategories` and `Categories.Rollup`.
- Prices are integer cents. This has three consequences:
  - floating-point rounding of `preco * estoque` is not modelled;
  - `toFixed(2)` display is not modelled;
  - `parseFloat` is modelled for plain decimal text only, with no exponents and no "Infinity", and only the first two fraction digits count.
- `Js.PriceText`: `toString` switches to exponent notation from 1e21; the model always prints plain decimals.
- `Js.ParseInt`: reads decimal digits only. The `0x` prefix that `parseInt` also accepts is not modelled, because the form's inputs are numeric.
- `ProductDetail.ProductKey`: inherits that limit, so a hexadecimal route id such as "0x1A" is read as key 0 where the page would read 26. The app's own links print `product.id.toString()` (src/pages/Products.tsx:92, src/pages/Index.tsx:173), so only a hand-typed URL carries `0x`.
- `Inventory.Row`: stores `estoque` as a natural number or null. The column is typed `number | null`, so a negative or fractional stock, which the inline conditional would tag low, is not modelled. The form always stores the result of `parseInt` or 0.
- Lowercasing is ASCII only, and white space is ASCII only (`\s` has more code points).
- The dashboard's statistic and alert cards are not modelled: they use an import that is commented out, an RPC promise read as an array, and a hard-coded level.
- The fixture tags ids 1 and 6 `high`, although their quantities are 45 and 32. The classifier gives `medium` for both, so the model compares tags with the classifier only for the low and out counts.
- The presentation components are not modelled, and neither is the generated database typing beyond the product row.
- `ProductForm.FormState.Load`: states the new state only; the mapping's properties are proved on `ProductForm.FromRow`.

## Findings

| source | as written | input that shows it | evidently intended | confidence | as-written member | corrected member |
|---|---|---|---|---|---|---|
| src/pages/Categories.tsx:31-36 | counts go into a plain `{}`, so `counts[c] \|\| 0` reads members inherited from Object.prototype | a product with categoria "toString" gets no number but a function's text with "1" appended; one with categoria "__proto__" gets no entry at all | each non-empty category name is counted once per product | not executed | Categories.PrototypeNamesMiscounted | Categories.CountByCategory |
| src/pages/Index.tsx:167 | `product.categoria.toLowerCase()` is called on a nullable column | a row with null categoria whose nome does not match the query: nome "Desk", query "bookshelves" | a null categoria simply does not match | not executed | Dashboard.NullCategoryBreaksSearch | Dashboard.Search |
