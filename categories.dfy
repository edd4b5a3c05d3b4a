/** The categories page: it counts the fetched `categoria` values in a dictionary, formats
    one entry per name (slug id, count, description), searches the entries by name, and
    creates a category by inserting a placeholder product. */
module Categories {
  import opened Js
  import opened Seqs
  import opened Inventory

  // ---------------------------------------------------------------------------
  // Counting

  /** How many of the fetched values are exactly (case-sensitively) name. */
  function Occurrences(cats: seq<Option<string>>, name: string): (n: nat)
    ensures n <= |cats|
  {
    if cats == [] then 0
    else
      var prefix := cats[..|cats| - 1];
      assert cats == prefix + [cats[|cats| - 1]];
      Occurrences(prefix, name) + (if cats[|cats| - 1] == Some(name) then 1 else 0)
  }

  /** A name is counted exactly when it occurs. */
  lemma {:induction false} OccurrencesMembers(cats: seq<Option<string>>, name: string)
    ensures Occurrences(cats, name) > 0 <==> Some(name) in cats
  {
    if cats != [] {
      var prefix := cats[..|cats| - 1];
      assert cats == prefix + [cats[|cats| - 1]];
      OccurrencesMembers(prefix, name);
    }
  }

  /** The count of a name is its multiplicity among the fetched values. */
  lemma {:induction false} OccurrencesIsMultiplicity(cats: seq<Option<string>>, name: string)
    ensures Occurrences(cats, name) == multiset(cats)[Some(name)]
  {
    if cats != [] {
      var prefix := cats[..|cats| - 1];
      assert cats == prefix + [cats[|cats| - 1]];
      OccurrencesIsMultiplicity(prefix, name);
    }
  }

  /** The keys of the counting dictionary in insertion order: each truthy name once, first-seen first. */
  function GroupNames(cats: seq<Option<string>>): seq<string> {
    Unique(NamedCategories(cats))
  }

  /** The keys are exactly the truthy names. */
  lemma GroupNamesMembers(cats: seq<Option<string>>)
    ensures forall k :: k in GroupNames(cats) <==> k != "" && Some(k) in cats
  {
    NamedCategoriesMembers(cats);
  }

  lemma GroupNamesStep(cats: seq<Option<string>>, x: Option<string>)
    ensures GroupNames(cats + [x]) ==
      if x.Some? && x.value != "" && x.value !in GroupNames(cats) then GroupNames(cats) + [x.value]
      else GroupNames(cats)
  {
    var s := cats + [x];
    assert s[..|s| - 1] == cats;
    var named := NamedCategories(cats);
    if x.Some? && x.value != "" {
      var n := named + [x.value];
      assert NamedCategories(s) == n;
      assert n[..|n| - 1] == named;
    } else {
      assert NamedCategories(s) == named;
    }
  }

  lemma OccurrencesStep(cats: seq<Option<string>>, x: Option<string>, name: string)
    ensures Occurrences(cats + [x], name) == Occurrences(cats, name) + (if x == Some(name) then 1 else 0)
  {
    var s := cats + [x];
    assert s[..|s| - 1] == cats;
  }

  /** counts and order are the dictionary and its key order after counting seen. */
  ghost predicate Counted(counts: map<string, nat>, order: seq<string>, seen: seq<Option<string>>) {
    && order == GroupNames(seen)
    && (forall k :: k in counts <==> k in order)
    && (forall k :: k in counts ==> counts[k] == Occurrences(seen, k))
  }

  /** A truthy name adds a key with count one, or bumps the count it has. */
  lemma CountedBump(counts: map<string, nat>, order: seq<string>, seen: seq<Option<string>>, name: string)
    requires Counted(counts, order, seen) && name != ""
    ensures Counted(counts[name := (if name in counts then counts[name] else 0) + 1],
                    if name in counts then order else order + [name], seen + [Some(name)])
  {
    var seen' := seen + [Some(name)];
    var before := Occurrences(seen, name);
    assert name !in counts ==> before == 0 by {
      GroupNamesMembers(seen);
      OccurrencesMembers(seen, name);
    }
    var bumped := counts[name := before + 1];
    assert bumped == counts[name := (if name in counts then counts[name] else 0) + 1];
    GroupNamesStep(seen, Some(name));
    forall k | k in bumped ensures bumped[k] == Occurrences(seen', k) {
      OccurrencesStep(seen, Some(name), k);
    }
  }

  /** A missing or empty `categoria` is skipped. */
  lemma CountedSkip(counts: map<string, nat>, order: seq<string>, seen: seq<Option<string>>, c: Option<string>)
    requires Counted(counts, order, seen) && (c.None? || c == Some(""))
    ensures Counted(counts, order, seen + [c])
  {
    GroupNamesStep(seen, c);
    GroupNamesMembers(seen);
    assert forall k :: k in order ==> k != "";
    forall k ensures Occurrences(seen + [c], k) == Occurrences(seen, k) + (if c == Some(k) then 1 else 0) {
      OccurrencesStep(seen, c, k);
    }
  }

  /** The loop of fetchCategories: for each truthy `categoria`, `counts[c] = (counts[c] || 0) + 1`.
      The dictionary is returned with its keys in insertion order, which is the order
      `Object.entries` lists them in as long as no category name is an array index ("2", "10"):
      such keys it lists first, in numeric order, and that ordering is not modelled. */
  method CountByCategory(cats: seq<Option<string>>) returns (counts: map<string, nat>, order: seq<string>)
    ensures order == GroupNames(cats)
    ensures forall k :: k in counts <==> k in order
    ensures forall k :: k in counts ==> counts[k] == Occurrences(cats, k)
  {
    counts, order := map[], [];
    for i := 0 to |cats|
      invariant Counted(counts, order, cats[..i])
    {
      var c := cats[i];
      assert cats[..i + 1] == cats[..i] + [c];
      if c.Some? && c.value != "" {
        CountedBump(counts, order, cats[..i], c.value);
        var previous := if c.value in counts then counts[c.value] else 0;
        if c.value !in counts {
          order := order + [c.value];
        }
        counts := counts[c.value := previous + 1];
      } else {
        CountedSkip(counts, order, cats[..i], c);
      }
    }
    assert cats[..|cats|] == cats;
  }

  // ---------------------------------------------------------------------------
  // Formatting

  /** `s.replace(/\s+/g, '-')`, scanning left to right: the first white-space character of
      a run becomes '-', the rest of the run is dropped. inRun says the previous character
      was white space. */
  function CollapseSpaces(s: string, inRun: bool): string {
    if s == [] then []
    else if IsSpace(s[0]) then (if inRun then [] else "-") + CollapseSpaces(s[1..], true)
    else [s[0]] + CollapseSpaces(s[1..], false)
  }

  /** The id of a category, `name.toLowerCase().replace(/\s+/g, '-')`. */
  function Slug(name: string): string {
    CollapseSpaces(Lower(name), false)
  }

  predicate HasNoSpace(s: string) {
    forall i :: 0 <= i < |s| ==> !IsSpace(s[i])
  }

  lemma {:induction false} CollapseSpacesHasNoSpace(s: string, inRun: bool)
    ensures HasNoSpace(CollapseSpaces(s, inRun))
  {
    if s != [] {
      var head := if IsSpace(s[0]) then (if inRun then [] else "-") else [s[0]];
      CollapseSpacesHasNoSpace(s[1..], IsSpace(s[0]));
      var r := CollapseSpaces(s, inRun);
      var rest := CollapseSpaces(s[1..], IsSpace(s[0]));
      assert r == head + rest;
      forall i | 0 <= i < |r| ensures !IsSpace(r[i]) {
        if i >= |head| {
          assert r[i] == rest[i - |head|];
        }
      }
    }
  }

  lemma {:induction false} CollapseSpacesLowerCase(s: string, inRun: bool)
    requires IsLowerCase(s)
    ensures IsLowerCase(CollapseSpaces(s, inRun))
  {
    if s != [] {
      var head := if IsSpace(s[0]) then (if inRun then [] else "-") else [s[0]];
      assert IsLowerCase(s[1..]) by {
        forall i | 0 <= i < |s| - 1 ensures !IsUpper(s[1..][i]) {
          assert s[1..][i] == s[i + 1];
        }
      }
      CollapseSpacesLowerCase(s[1..], IsSpace(s[0]));
      var r := CollapseSpaces(s, inRun);
      var rest := CollapseSpaces(s[1..], IsSpace(s[0]));
      assert r == head + rest;
      forall i | 0 <= i < |r| ensures !IsUpper(r[i]) {
        if i >= |head| {
          assert r[i] == rest[i - |head|];
        }
      }
    }
  }

  lemma {:induction false} CollapseSpacesIdentity(s: string, inRun: bool)
    requires HasNoSpace(s)
    ensures CollapseSpaces(s, inRun) == s
  {
    if s != [] {
      assert !IsSpace(s[0]);
      assert HasNoSpace(s[1..]) by {
        forall i | 0 <= i < |s| - 1 ensures !IsSpace(s[1..][i]) {
          assert s[1..][i] == s[i + 1];
        }
      }
      CollapseSpacesIdentity(s[1..], false);
    }
  }

  /** A slug is lowercase and has no white space, and slugging it again changes nothing. */
  lemma SlugShape(name: string)
    ensures IsLowerCase(Slug(name)) && HasNoSpace(Slug(name))
    ensures Slug(Slug(name)) == Slug(name)
  {
    var t := Slug(name);
    LowerIsLowerCase(name);
    CollapseSpacesHasNoSpace(Lower(name), false);
    CollapseSpacesLowerCase(Lower(name), false);
    LowerIsLowerCase(t);
    CollapseSpacesIdentity(t, false);
  }

  /** Text that ends in a non-space character collapses independently of what follows it. */
  lemma {:induction false} CollapseSpacesAppend(a: string, t: string, inRun: bool)
    requires a != [] && !IsSpace(a[|a| - 1])
    ensures CollapseSpaces(a + t, inRun) == CollapseSpaces(a, inRun) + CollapseSpaces(t, false)
  {
    var space := IsSpace(a[0]);
    var head := if space then (if inRun then [] else "-") else [a[0]];
    var tail := a[1..];
    assert CollapseSpaces(a, inRun) == head + CollapseSpaces(tail, space);
    assert CollapseSpaces(a + t, inRun) == head + CollapseSpaces(tail + t, space) by {
      assert (a + t)[0] == a[0];
      assert (a + t)[1..] == tail + t;
    }
    assert CollapseSpaces(tail + t, space) == CollapseSpaces(tail, space) + CollapseSpaces(t, false) by {
      if tail == [] {
        assert tail + t == t;
      } else {
        CollapseSpacesAppend(tail, t, space);
      }
    }
    assert head + (CollapseSpaces(tail, space) + CollapseSpaces(t, false))
        == (head + CollapseSpaces(tail, space)) + CollapseSpaces(t, false);
  }

  /** Inside a run, further white space adds nothing. */
  lemma {:induction false} CollapseSpacesInRun(w: string, b: string)
    requires IsBlank(w)
    requires b == [] || !IsSpace(b[0])
    ensures CollapseSpaces(w + b, true) == CollapseSpaces(b, false)
  {
    if w == [] {
      assert w + b == b;
    } else {
      assert (w + b)[0] == w[0];
      assert (w + b)[1..] == w[1..] + b;
      CollapseSpacesInRun(w[1..], b);
    }
  }

  /** Between text that neither ends nor starts with white space, a whole run of white space
      becomes a single '-' in the slug. */
  lemma SlugRun(a: string, w: string, b: string)
    requires a == [] || !IsSpace(a[|a| - 1])
    requires w != [] && IsBlank(w)
    requires b == [] || !IsSpace(b[0])
    ensures Slug(a + w + b) == Slug(a) + "-" + Slug(b)
  {
    var la, lw, lb := Lower(a), Lower(w), Lower(b);
    var t := lw + lb;
    assert Lower(a + w + b) == la + t by {
      LowerAppend(a + w, b);
      LowerAppend(a, w);
      assert la + lw + lb == la + (lw + lb);
    }
    assert CollapseSpaces(t, false) == "-" + CollapseSpaces(lb, false) by {
      LoweredRun(w, b);
    }
    assert CollapseSpaces(la + t, false) == CollapseSpaces(la, false) + CollapseSpaces(t, false) by {
      if a == [] {
        assert la + t == t;
      } else {
        assert !IsSpace(la[|la| - 1]);
        CollapseSpacesAppend(la, t, false);
      }
    }
  }

  /** A lowercased run of white space followed by lowercased text that does not start with
      white space collapses to one '-' and the text. */
  lemma LoweredRun(w: string, b: string)
    requires w != [] && IsBlank(w)
    requires b == [] || !IsSpace(b[0])
    ensures CollapseSpaces(Lower(w) + Lower(b), false) == "-" + CollapseSpaces(Lower(b), false)
  {
    var lw, lb := Lower(w), Lower(b);
    var t := lw + lb;
    assert t[0] == lw[0];
    assert t[1..] == lw[1..] + lb;
    assert IsBlank(lw[1..]) by {
      assert forall i :: 0 <= i < |lw[1..]| ==> lw[1..][i] == LowerChar(w[i + 1]);
    }
    assert lb == [] || !IsSpace(lb[0]);
    CollapseSpacesInRun(lw[1..], lb);
  }

  /** A name without white space is only lowercased. */
  lemma SlugWithoutSpace(name: string)
    requires HasNoSpace(name)
    ensures Slug(name) == Lower(name)
  {
    CollapseSpacesIdentity(Lower(name), false);
  }

  /** The generated description, "Collection of N product" or "... N products". */
  function Describe(count: nat): string {
    "Collection of " + NatToString(count) + (if count == 1 then " product" else " products")
  }

  /** Different counts give different descriptions. */
  lemma DescribeInjective(m: nat, n: nat)
    requires Describe(m) == Describe(n)
    ensures m == n
  {
    var dm, dn := NatToString(m), NatToString(n);
    var prefix := "Collection of ";
    assert NatToString(1) == "1";
    assert |dm| == |dn|;
    assert dm == Describe(m)[|prefix|..|prefix| + |dm|];
    assert dn == Describe(n)[|prefix|..|prefix| + |dn|];
    NatToStringInjective(m, n);
  }

  /** The entry formatted for one dictionary key. */
  function Entry(name: string, count: nat): Category {
    Category(Slug(name), name, Describe(count), count)
  }

  /** `Object.entries(counts).map(([name, count]) => ...)`. */
  function Format(order: seq<string>, counts: map<string, nat>): (r: seq<Category>)
    requires forall k :: k in order ==> k in counts
    ensures |r| == |order|
  {
    seq(|order|, i requires 0 <= i < |order| => Entry(order[i], counts[order[i]]))
  }

  /** The entries for the given names, each with its number of occurrences in cats. */
  function Entries(names: seq<string>, cats: seq<Option<string>>): (r: seq<Category>)
    ensures |r| == |names|
  {
    seq(|names|, i requires 0 <= i < |names| => Entry(names[i], Occurrences(cats, names[i])))
  }

  /** The list the page shows, as a function of the fetched `categoria` values. */
  function Rollup(cats: seq<Option<string>>): seq<Category> {
    Entries(GroupNames(cats), cats)
  }

  /** fetchCategories after the fetch: count, then format. */
  method FetchCategories(cats: seq<Option<string>>) returns (entries: seq<Category>)
    ensures entries == Rollup(cats)
  {
    var counts, order := CountByCategory(cats);
    entries := Format(order, counts);
    assert forall i :: 0 <= i < |entries| ==> entries[i] == Rollup(cats)[i];
  }

  /** Every entry describes one truthy name: its count is the number of values equal to it
      (at least one), its id is its slug, its description names its count. */
  lemma RollupEntries(cats: seq<Option<string>>)
    ensures forall e :: e in Rollup(cats) ==>
      && e.nome != "" && Some(e.nome) in cats
      && e.productCount == Occurrences(cats, e.nome) && e.productCount >= 1
      && e.id == Slug(e.nome) && e.descricao == Describe(e.productCount)
  {
    var r := Rollup(cats);
    var order := GroupNames(cats);
    GroupNamesMembers(cats);
    forall e | e in r
      ensures e.nome in order && e.productCount == Occurrences(cats, e.nome) && e.productCount >= 1
    {
      var i :| 0 <= i < |r| && r[i] == e;
      assert e.nome == order[i];
      OccurrencesMembers(cats, e.nome);
    }
  }

  /** Exactly the truthy names have an entry, and no name has two. */
  lemma RollupOneEntryPerName(cats: seq<Option<string>>)
    ensures forall name :: (name != "" && Some(name) in cats) <==> exists i :: 0 <= i < |Rollup(cats)| && Rollup(cats)[i].nome == name
    ensures forall i, j :: 0 <= i < j < |Rollup(cats)| ==> Rollup(cats)[i].nome != Rollup(cats)[j].nome
  {
    var order := GroupNames(cats);
    var r := Rollup(cats);
    UniqueOrdered(NamedCategories(cats));
    GroupNamesMembers(cats);
    assert forall i :: 0 <= i < |r| ==> r[i].nome == order[i];
    forall name | name in order ensures exists i :: 0 <= i < |r| && r[i].nome == name {
      var i :| 0 <= i < |order| && order[i] == name;
      assert r[i].nome == name;
    }
  }

  // ---------------------------------------------------------------------------
  // The sum of the counts

  function SumCounts(entries: seq<Category>): nat {
    if entries == [] then 0
    else SumCounts(entries[..|entries| - 1]) + entries[|entries| - 1].productCount
  }

  /** The sum of the occurrences of the given names. */
  function SumOccurrences(names: seq<string>, cats: seq<Option<string>>): nat {
    if names == [] then 0
    else SumOccurrences(names[..|names| - 1], cats) + Occurrences(cats, names[|names| - 1])
  }

  lemma {:induction false} SumCountsOfEntries(names: seq<string>, cats: seq<Option<string>>)
    ensures SumCounts(Entries(names, cats)) == SumOccurrences(names, cats)
  {
    if names != [] {
      var prefix := names[..|names| - 1];
      assert Entries(names, cats)[..|names| - 1] == Entries(prefix, cats);
      SumCountsOfEntries(prefix, cats);
    }
  }

  lemma {:induction false} SumOccurrencesStep(names: seq<string>, cats: seq<Option<string>>, x: Option<string>)
    requires NoDuplicates(names)
    ensures SumOccurrences(names, cats + [x]) ==
      SumOccurrences(names, cats) + (if x.Some? && x.value in names then 1 else 0)
  {
    if names != [] {
      var prefix := names[..|names| - 1];
      var last := names[|names| - 1];
      assert NoDuplicates(prefix);
      SumOccurrencesStep(prefix, cats, x);
      OccurrencesStep(cats, x, last);
      assert names == prefix + [last];
      assert x.Some? && x.value in names <==> (x.Some? && x.value in prefix) || x == Some(last);
      assert !(x.Some? && x.value in prefix && x == Some(last));
    }
  }

  lemma {:induction false} SumOccurrencesOfGroups(cats: seq<Option<string>>)
    ensures SumOccurrences(GroupNames(cats), cats) == |NamedCategories(cats)|
  {
    if cats != [] {
      var prefix := cats[..|cats| - 1];
      var x := cats[|cats| - 1];
      assert cats == prefix + [x];
      var truthy := x.Some? && x.value != "";
      assert |NamedCategories(cats)| == |NamedCategories(prefix)| + (if truthy then 1 else 0);
      SumOccurrencesOfGroups(prefix);
      GroupNamesStep(prefix, x);
      var keys := GroupNames(prefix);
      UniqueOrdered(NamedCategories(prefix));
      SumOccurrencesStep(keys, prefix, x);
      if truthy && x.value !in keys {
        var keys' := keys + [x.value];
        assert keys'[..|keys'| - 1] == keys;
        OccurrencesStep(prefix, x, x.value);
        assert Occurrences(prefix, x.value) == 0 by {
          GroupNamesMembers(prefix);
          OccurrencesMembers(prefix, x.value);
        }
        assert GroupNames(cats) == keys';
        assert SumOccurrences(keys', cats) == SumOccurrences(keys, cats) + 1;
      } else {
        assert GroupNames(cats) == keys;
        assert !truthy ==> !(x.Some? && x.value in keys) by {
          GroupNamesMembers(prefix);
        }
      }
    }
  }

  /** The counts add up to the number of fetched values with a truthy category. */
  lemma RollupCountsSum(cats: seq<Option<string>>)
    ensures SumCounts(Rollup(cats)) == |NamedCategories(cats)|
  {
    SumCountsOfEntries(GroupNames(cats), cats);
    SumOccurrencesOfGroups(cats);
  }

  // ---------------------------------------------------------------------------
  // Searching the entries

  predicate NameMatches(query: string, c: Category) {
    Includes(Lower(c.nome), Lower(query))
  }

  /** `categoriesData.filter(category => category.nome.toLowerCase().includes(query.toLowerCase()))`. */
  function SearchCategories(entries: seq<Category>, query: string): (r: seq<Category>)
    ensures IsSubsequence(r, entries)
    ensures forall c :: c in r <==> c in entries && NameMatches(query, c)
    ensures forall c :: multiset(r)[c] == if NameMatches(query, c) then multiset(entries)[c] else 0
  {
    Filter(c => NameMatches(query, c), entries)
  }

  lemma EmptySearchKeepsAllCategories(entries: seq<Category>)
    ensures SearchCategories(entries, "") == entries
  {
    FilterKeepsAll(c => NameMatches("", c), entries);
  }

  // ---------------------------------------------------------------------------
  // Creating a category

  datatype NewCategoryForm = NewCategoryForm(nome: string, descricao: string)

  datatype CreateDecision = RejectCreate(message: string) | InsertPlaceholder(payload: ProductInsert)

  /** handleCreateCategory: a name that trims to nothing is refused and nothing is inserted;
      otherwise a placeholder product carrying the (untrimmed) name is inserted. The SKU the
      page builds from the clock is passed in. */
  function CreateCategory(form: NewCategoryForm, sku: string): (d: CreateDecision)
    ensures d.RejectCreate? <==> IsBlank(form.nome)
    ensures d.RejectCreate? ==> d.message == "Category name is required"
    ensures d.InsertPlaceholder? ==>
      && d.payload.nome == form.nome && d.payload.sku == sku
      && d.payload.preco == Some(0) && d.payload.estoque == 0
      && d.payload.categoria == Some(form.nome)
      && (d.payload.descricao.None? <==> form.descricao == "")
      && (d.payload.descricao.Some? ==> d.payload.descricao.value == form.descricao)
  {
    TrimEmptyIffBlank(form.nome);
    if Trim(form.nome) == [] then RejectCreate("Category name is required")
    else InsertPlaceholder(ProductInsert(form.nome, sku, NullIfEmpty(form.descricao), Some(0), 0, Some(form.nome)))
  }

  /** The form after the insert: emptied when it succeeded, kept when it failed. */
  function FormAfterInsert(form: NewCategoryForm, succeeded: bool): (f: NewCategoryForm)
    ensures succeeded ==> f.nome == "" && f.descricao == ""
    ensures !succeeded ==> f == form
  {
    if succeeded then NewCategoryForm("", "") else form
  }

  // ---------------------------------------------------------------------------
  // The dictionary as JavaScript evaluates it

  /** What `categoryCounts[name]` holds in the page's `{}`: a count, or the text produced by
      `+ 1` on a function inherited from Object.prototype (and on that text again). */
  datatype Slot = Count(n: nat) | Mangled

  /** The names a plain object inherits from Object.prototype. */
  const PrototypeMembers: set<string> := {
    "constructor", "hasOwnProperty", "isPrototypeOf", "propertyIsEnumerable",
    "toLocaleString", "toString", "valueOf", "__proto__",
    "__defineGetter__", "__defineSetter__", "__lookupGetter__", "__lookupSetter__"
  }

  /** `counts[c] = (counts[c] || 0) + 1` on a plain object: an inherited member is truthy, so
      `+ 1` concatenates onto its source text; assigning a string to `__proto__` is ignored. */
  function BumpAsWritten(counts: map<string, Slot>, name: string): map<string, Slot> {
    if name in counts then
      counts[name := match counts[name] case Count(n) => Count(n + 1) case Mangled => Mangled]
    else if name == "__proto__" then counts
    else if name in PrototypeMembers then counts[name := Mangled]
    else counts[name := Count(1)]
  }

  /** The counting loop as written, over a plain object. */
  function CountAsWritten(cats: seq<Option<string>>): map<string, Slot> {
    if cats == [] then map[]
    else
      var counts := CountAsWritten(cats[..|cats| - 1]);
      var last := cats[|cats| - 1];
      if last.Some? && last.value != "" then BumpAsWritten(counts, last.value) else counts
  }

  /** A product in category "toString" gets no numeric count from the as-written loop, and one in
      category "__proto__" gets no entry at all, while the grouping counts each of them once. */
  lemma PrototypeNamesMiscounted()
    ensures CountAsWritten([Some("toString")]) == map["toString" := Mangled]
    ensures Rollup([Some("toString")]) == [Entry("toString", 1)]
    ensures CountAsWritten([Some("__proto__")]) == map[]
    ensures Rollup([Some("__proto__")]) == [Entry("__proto__", 1)]
  {
    var a: seq<Option<string>> := [Some("toString")];
    assert a[..0] == [];
    assert NamedCategories(a) == ["toString"] by {
      assert NamedCategories(a[..0]) == [];
    }
    assert Unique(["toString"]) == ["toString"] by {
      assert ["toString"][..0] == [];
    }
    var b: seq<Option<string>> := [Some("__proto__")];
    assert b[..0] == [];
    assert NamedCategories(b) == ["__proto__"] by {
      assert NamedCategories(b[..0]) == [];
    }
    assert Unique(["__proto__"]) == ["__proto__"] by {
      assert ["__proto__"][..0] == [];
    }
  }

  /** The plain-object dictionary holds exactly the grouping's names, each with its count. */
  ghost predicate AgreesWithGrouping(slots: map<string, Slot>, seen: seq<Option<string>>) {
    && (forall k :: k in slots <==> k in GroupNames(seen))
    && (forall k :: k in slots ==> slots[k] == Count(Occurrences(seen, k)))
  }

  lemma AgreementBump(slots: map<string, Slot>, seen: seq<Option<string>>, name: string)
    requires AgreesWithGrouping(slots, seen) && name != "" && name !in PrototypeMembers
    ensures AgreesWithGrouping(BumpAsWritten(slots, name), seen + [Some(name)])
  {
    var seen' := seen + [Some(name)];
    var before := Occurrences(seen, name);
    assert name !in slots ==> before == 0 by {
      GroupNamesMembers(seen);
      OccurrencesMembers(seen, name);
    }
    var bumped := slots[name := Count(before + 1)];
    assert BumpAsWritten(slots, name) == bumped;
    GroupNamesStep(seen, Some(name));
    forall k | k in bumped ensures bumped[k] == Count(Occurrences(seen', k)) {
      OccurrencesStep(seen, Some(name), k);
    }
  }

  lemma AgreementSkip(slots: map<string, Slot>, seen: seq<Option<string>>, c: Option<string>)
    requires AgreesWithGrouping(slots, seen) && (c.None? || c == Some(""))
    ensures AgreesWithGrouping(slots, seen + [c])
  {
    GroupNamesStep(seen, c);
    GroupNamesMembers(seen);
    assert forall k :: k in GroupNames(seen) ==> k != "";
    forall k ensures Occurrences(seen + [c], k) == Occurrences(seen, k) + (if c == Some(k) then 1 else 0) {
      OccurrencesStep(seen, c, k);
    }
  }

  /** Away from inherited names, the as-written loop computes the grouping's counts. */
  lemma {:induction false} CountAsWrittenAgrees(cats: seq<Option<string>>)
    requires forall i :: 0 <= i < |cats| && cats[i].Some? ==> cats[i].value !in PrototypeMembers
    ensures forall k :: k in CountAsWritten(cats) <==> k in GroupNames(cats)
    ensures forall k :: k in CountAsWritten(cats) ==> CountAsWritten(cats)[k] == Count(Occurrences(cats, k))
  {
    if cats != [] {
      var prefix := cats[..|cats| - 1];
      var x := cats[|cats| - 1];
      assert cats == prefix + [x];
      assert forall i :: 0 <= i < |prefix| ==> prefix[i] == cats[i];
      CountAsWrittenAgrees(prefix);
      if x.Some? && x.value != "" {
        AgreementBump(CountAsWritten(prefix), prefix, x.value);
      } else {
        AgreementSkip(CountAsWritten(prefix), prefix, x);
      }
    }
  }
}
