/** The SKU registry: the read-only SKU queries (list, categories, get) and
    the pieces of the create, update and delete handlers that do not touch
    the tables. The handlers that do are methods of Store.Inventory. */
module Registry {
  import opened Schema
  import opened Seqs
  import opened Text

  // ---------------------------------------------------------------- list

  /** Query parameters of the SKU list; None stands for an absent parameter. */
  datatype SkuFilter = SkuFilter(category: Option<string>, search: Option<string>, lowStock: Option<string>)

  /** A SKU passes every filter that is supplied. */
  predicate SkuMatches(s: Sku, f: SkuFilter)
  {
    && (Given(f.category) ==> s.category == f.category.value)
    && (Given(f.search) ==> Like(s.name, "%" + f.search.value + "%"))
    && (f.lowStock == Some("true") ==> NeedsReorder(s))
  }

  predicate ByName(a: Sku, b: Sku)
  {
    LexLe(a.name, b.name)
  }

  lemma ByNameOrders()
    ensures TotalPreorder(ByName)
  {
    forall a: Sku, b: Sku ensures ByName(a, b) || ByName(b, a) {
      LexLeTotal(a.name, b.name);
    }
    forall a: Sku, b: Sku, c: Sku | ByName(a, b) && ByName(b, c) ensures ByName(a, c) {
      LexLeTransitive(a.name, b.name, c.name);
    }
  }

  /** GET /api/skus: every SKU that passes all supplied filters, each as often
      as it occurs in the table and nothing else, ordered by name. */
  function ListSkus(skus: seq<Sku>, f: SkuFilter): (r: seq<Sku>)
    ensures forall s :: s in r <==> s in skus && SkuMatches(s, f)
    ensures forall s :: multiset(r)[s] == if SkuMatches(s, f) then multiset(skus)[s] else 0
    ensures forall i, j :: 0 <= i < j < |r| ==> LexLe(r[i].name, r[j].name)
  {
    var rows := Filter(skus, s => SkuMatches(s, f));
    FilterCount(skus, f);
    ByNameOrders();
    SortBySorted(rows, ByName);
    SortBy(rows, ByName)
  }

  lemma {:induction false} FilterCount(skus: seq<Sku>, f: SkuFilter)
    ensures forall s :: multiset(Filter(skus, s => SkuMatches(s, f)))[s] == if SkuMatches(s, f) then multiset(skus)[s] else 0
  {
    if skus != [] {
      FilterCount(skus[1..], f);
      assert skus == [skus[0]] + skus[1..];
    }
  }

  /** With search text free of LIKE wildcards, the name search is a
      case-insensitive substring test. */
  lemma ListSkusBySearch(skus: seq<Sku>, q: string, s: Sku)
    requires NoWildcards(q)
    ensures s in ListSkus(skus, SkuFilter(None, Some(q), None)) <==> s in skus && ContainsIgnoringCase(s.name, q)
  {
    if q == "" {
      // An empty search text switches the filter off, and every name contains it.
      assert OccursAt(s.name, q, 0);
    } else {
      SearchIsSubstring(s.name, q);
    }
  }

  // ---------------------------------------------------------- categories

  /** Drops adjacent repeats. */
  function Dedup(s: seq<string>): (r: seq<string>)
    ensures forall x :: x in r <==> x in s
    ensures |s| > 0 ==> |r| > 0 && r[0] == s[0]
  {
    if |s| <= 1 then s
    else if s[0] == s[1] then Dedup(s[1..])
    else [s[0]] + Dedup(s[1..])
  }

  /** Strictly ascending: sorted, and no value twice. */
  predicate Ascending(r: seq<string>)
  {
    forall i, j :: 0 <= i < j < |r| ==> LexLe(r[i], r[j]) && r[i] != r[j]
  }

  lemma {:induction false} DedupAscending(s: seq<string>)
    requires forall i, j :: 0 <= i < j < |s| ==> LexLe(s[i], s[j])
    ensures Ascending(Dedup(s))
  {
    if |s| > 1 {
      DedupAscending(s[1..]);
      if s[0] != s[1] {
        var rest := Dedup(s[1..]);
        forall y | y in rest ensures LexLe(s[0], y) && y != s[0] {
          var k :| 1 <= k < |s| && s[k] == y;
          if y == s[0] {
            LexLeAntisymmetric(s[0], s[1]);
          }
        }
        var r := [s[0]] + rest;
        forall i, j | 0 <= i < j < |r| ensures LexLe(r[i], r[j]) && r[i] != r[j] {
          if i > 0 {
            assert r[i] == rest[i - 1] && r[j] == rest[j - 1];
          } else {
            assert r[j] == rest[j - 1];
          }
        }
      }
    }
  }

  lemma StringOrder()
    ensures TotalPreorder(LexLe)
  {
    forall a, b ensures LexLe(a, b) || LexLe(b, a) {
      LexLeTotal(a, b);
    }
    forall a, b, c | LexLe(a, b) && LexLe(b, c) ensures LexLe(a, c) {
      LexLeTransitive(a, b, c);
    }
  }

  function CategoryOf(s: Sku): string { s.category }

  /** GET /api/skus/categories: each category in use exactly once, ascending. */
  function Categories(skus: seq<Sku>): (r: seq<string>)
    ensures forall c :: c in r <==> exists i :: 0 <= i < |skus| && skus[i].category == c
    ensures Ascending(r)
  {
    var names := Map(skus, CategoryOf);
    var sorted := SortBy(names, LexLe);
    StringOrder();
    SortBySorted(names, LexLe);
    DedupAscending(sorted);
    assert forall c :: c in sorted <==> c in names by {
      forall c ensures c in sorted <==> c in names {
        assert c in sorted <==> c in multiset(sorted);
        assert c in names <==> c in multiset(names);
      }
    }
    assert forall c :: c in names <==> exists i :: 0 <= i < |skus| && skus[i].category == c by {
      forall c ensures c in names <==> exists i :: 0 <= i < |skus| && skus[i].category == c {
        if c in names {
          var i :| 0 <= i < |names| && names[i] == c;
          assert skus[i].category == c;
        }
        if exists i :: 0 <= i < |skus| && skus[i].category == c {
          var i :| 0 <= i < |skus| && skus[i].category == c;
          assert names[i] == c;
        }
      }
    }
    Dedup(sorted)
  }

  // ----------------------------------------------------------------- get

  /** GET /api/skus/:id. */
  function GetSku(skus: seq<Sku>, id: int): (r: Result<Sku, Error>)
    ensures r.Success? <==> exists i :: 0 <= i < |skus| && skus[i].id == id
    ensures r.Success? ==> r.value in skus && r.value.id == id
    ensures r.Failure? ==> r.error == SkuNotFound
  {
    match Lookup(skus, id)
    case Some(s) => Success(s)
    case None => Failure(SkuNotFound)
  }

  // -------------------------------------------------------------- create

  /** Body of POST /api/skus; None stands for a field the body leaves out. */
  datatype NewSku = NewSku(
    name: Option<string>,
    category: Option<string>,
    reorderLevel: Option<int>,
    currentQuantity: Option<int>,
    unitPrice: Option<int>)

  const DefaultReorderLevel: int := 10

  function OrDefault(o: Option<int>, d: int): int
  {
    if o.Some? then o.value else d
  }

  /** The row POST /api/skus inserts under the given id and time, or why it refuses. */
  function NewSkuRow(req: NewSku, id: int, now: int): (r: Result<Sku, Error>)
    ensures r.Failure? <==> !Given(req.name) || !Given(req.category)
    ensures r.Failure? ==> r.error == NameAndCategoryRequired
    ensures r.Success? ==>
      && r.value.id == id && r.value.createdAt == now
      && Some(r.value.name) == req.name && Some(r.value.category) == req.category
      && r.value.reorderLevel == (if req.reorderLevel.None? then 10 else req.reorderLevel.value)
      && r.value.currentQuantity == (if req.currentQuantity.None? then 0 else req.currentQuantity.value)
      && r.value.unitPrice == (if req.unitPrice.None? then 0 else req.unitPrice.value)
  {
    if !Given(req.name) || !Given(req.category) then Failure(NameAndCategoryRequired)
    else Success(Sku(id, req.name.value, req.category.value,
                     OrDefault(req.reorderLevel, DefaultReorderLevel),
                     OrDefault(req.currentQuantity, 0),
                     OrDefault(req.unitPrice, 0), now))
  }

  // -------------------------------------------------------------- update

  /** Body of PUT /api/skus/:id. current_quantity is not among its fields. */
  datatype SkuPatch = SkuPatch(
    name: Option<string>,
    category: Option<string>,
    reorderLevel: Option<int>,
    unitPrice: Option<int>)

  /** One "column = value" clause of the UPDATE statement. */
  datatype Assignment =
    | SetName(name: string)
    | SetCategory(category: string)
    | SetReorderLevel(level: int)
    | SetUnitPrice(price: int)

  function Assign(s: Sku, a: Assignment): Sku
  {
    match a
    case SetName(n) => s.(name := n)
    case SetCategory(c) => s.(category := c)
    case SetReorderLevel(l) => s.(reorderLevel := l)
    case SetUnitPrice(p) => s.(unitPrice := p)
  }

  /** The row after the UPDATE's clauses, applied left to right. */
  function AssignAll(s: Sku, fields: seq<Assignment>): Sku
  {
    if fields == [] then s else Assign(AssignAll(s, fields[..|fields| - 1]), fields[|fields| - 1])
  }

  /** No field of the body is applicable: name and category count only when
      non-empty, reorder level and unit price whenever present (zero included). */
  predicate NothingToUpdate(p: SkuPatch)
  {
    !Given(p.name) && !Given(p.category) && p.reorderLevel.None? && p.unitPrice.None?
  }

  /** The row the update promises: each applicable field replaced, and the
      id, the stock quantity and the creation time never changed. */
  function Patched(s: Sku, p: SkuPatch): (r: Sku)
    ensures r.id == s.id && r.currentQuantity == s.currentQuantity && r.createdAt == s.createdAt
    ensures r.name == (if Given(p.name) then p.name.value else s.name)
    ensures r.category == (if Given(p.category) then p.category.value else s.category)
    ensures r.reorderLevel == OrDefault(p.reorderLevel, s.reorderLevel)
    ensures r.unitPrice == OrDefault(p.unitPrice, s.unitPrice)
  {
    Sku(s.id,
        if Given(p.name) then p.name.value else s.name,
        if Given(p.category) then p.category.value else s.category,
        OrDefault(p.reorderLevel, s.reorderLevel),
        s.currentQuantity,
        OrDefault(p.unitPrice, s.unitPrice),
        s.createdAt)
  }

  lemma AssignAllSnoc(s: Sku, fields: seq<Assignment>, a: Assignment)
    ensures AssignAll(s, fields + [a]) == Assign(AssignAll(s, fields), a)
  {
    assert (fields + [a])[..|fields + [a]| - 1] == fields;
  }

  /** Builds the SET clauses of the update, one for each applicable field. */
  method CollectAssignments(p: SkuPatch) returns (fields: seq<Assignment>)
    ensures |fields| == 0 <==> NothingToUpdate(p)
    ensures forall s :: AssignAll(s, fields) == Patched(s, p)
  {
    fields := [];
    ghost var f0 := fields;
    if Given(p.name) {
      fields := fields + [SetName(p.name.value)];
    }
    ghost var f1 := fields;
    if Given(p.category) {
      fields := fields + [SetCategory(p.category.value)];
    }
    ghost var f2 := fields;
    if p.reorderLevel.Some? {
      fields := fields + [SetReorderLevel(p.reorderLevel.value)];
    }
    ghost var f3 := fields;
    if p.unitPrice.Some? {
      fields := fields + [SetUnitPrice(p.unitPrice.value)];
    }
    forall s ensures AssignAll(s, fields) == Patched(s, p) {
      if Given(p.name) { AssignAllSnoc(s, f0, SetName(p.name.value)); }
      if Given(p.category) { AssignAllSnoc(s, f1, SetCategory(p.category.value)); }
      if p.reorderLevel.Some? { AssignAllSnoc(s, f2, SetReorderLevel(p.reorderLevel.value)); }
      if p.unitPrice.Some? { AssignAllSnoc(s, f3, SetUnitPrice(p.unitPrice.value)); }
    }
  }

  // -------------------------------------------------------------- delete

  /** SELECT COUNT(*) FROM transactions WHERE sku_id = id. */
  function ReferenceCount(txns: seq<Txn>, id: int): (n: nat)
    ensures n == 0 <==> forall i :: 0 <= i < |txns| ==> txns[i].skuId != id
  {
    if txns == [] then 0
    else (if txns[0].skuId == id then 1 else 0) + ReferenceCount(txns[1..], id)
  }
}
