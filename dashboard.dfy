/** GET /api/dashboard/stats: the overview figures, the latest movements,
    today's movements by type and the stock by category. Every figure is a
    read of the two tables; the lemmas here tie each figure to the report
    or list that shows the same rows. */
module Dashboard {
  import opened Schema
  import opened Seqs
  import opened Registry
  import opened Ledger
  import opened Reports

  // ------------------------------------------------------------ overview

  datatype Overview = Overview(
    totalSkus: nat,
    stockValue: int,
    reorderCount: nat,
    outOfStock: nat,
    deadStockCount: nat,
    deadStockValue: int)

  /** The overview figures: every count is a count of SKUs, out of stock and
      dead stock are positive exactly when some SKU is, and the stock value
      is the inventory's value to the nearest whole unit. */
  function OverviewOf(skus: seq<Sku>, txns: seq<Txn>, now: int): (r: Overview)
    ensures r.totalSkus == |skus|
    ensures r.reorderCount <= r.totalSkus && r.outOfStock <= r.totalSkus && r.deadStockCount <= r.totalSkus
    ensures r.outOfStock > 0 <==> exists i :: 0 <= i < |skus| && skus[i].currentQuantity == 0
    ensures r.deadStockCount > 0 <==> exists i :: 0 <= i < |skus| && IsDeadStock(skus[i], txns, now)
    ensures 100 * r.stockValue - 50 <= SumOf(skus, StockValue) < 100 * r.stockValue + 50
  {
    CountWherePositive(skus, OutOfStock);
    CountWherePositive(skus, DeadOn(txns, now));
    Overview(
      |skus|,
      RoundToUnit(SumOf(skus, StockValue)),
      CountWhere(skus, NeedsReorder),
      CountWhere(skus, OutOfStock),
      CountWhere(skus, DeadOn(txns, now)),
      RoundToUnit(SumOf(Filter(skus, DeadOn(txns, now)), StockValue)))
  }

  /** The overview agrees with the reports: it counts every SKU, its
      reorder and dead-stock figures are the lengths of those reports, its
      dead-stock value is that report's total, and its stock value is the
      whole inventory's value to the nearest unit, 0 for an empty table. */
  lemma OverviewMatchesReports(skus: seq<Sku>, txns: seq<Txn>, now: int)
    ensures var o := OverviewOf(skus, txns, now);
      && o.totalSkus == |skus|
      && o.reorderCount == |Reorder(skus)|
      && o.deadStockCount == |DeadStock(skus, txns, now)|
      && o.deadStockValue == DeadStockSummary(DeadStock(skus, txns, now)).totalValue
      && 100 * o.stockValue - 50 <= SumOf(skus, StockValue) < 100 * o.stockValue + 50
      && (skus == [] ==> o.stockValue == 0)
  {
    DeadStockValue(skus, txns, now);
  }

  /** When no reorder level is negative, every SKU at zero is also at or
      below its level, so the overview's out-of-stock count equals the
      reorder report's. */
  lemma {:induction false} OutOfStockMatchesReorder(skus: seq<Sku>)
    requires forall i :: 0 <= i < |skus| ==> skus[i].reorderLevel >= 0
    ensures CountWhere(skus, OutOfStock) == ReorderSummaryOf(Reorder(skus)).outOfStock
  {
    ReorderOutOfStock(skus);
    CountWhereSame(skus, OutOfStock, ReorderAndOut);
  }

  /** Nothing stops a reorder level from being negative, and then the two
      out-of-stock figures part: a SKU at zero with level -1 is counted by the
      overview but is not on the reorder report. */
  lemma OutOfStockDiverges()
    ensures var skus := [Sku(1, "Widget", "Tools", -1, 0, 0, 0)];
      CountWhere(skus, OutOfStock) == 1 && ReorderSummaryOf(Reorder(skus)).outOfStock == 0
  {
    var skus := [Sku(1, "Widget", "Tools", -1, 0, 0, 0)];
    ReorderOutOfStock(skus);
    assert CountWhere(skus, ReorderAndOut) == 0;
  }

  // ------------------------------------------------- recent transactions

  const RecentLimit: nat := 10

  /** The transaction list with no filter and a limit of ten. */
  function RecentFilter(): TxnFilter
  {
    TxnFilter(None, None, None, None, Some(RecentLimit))
  }

  /** With no filter every joined row is selected. */
  lemma UnfilteredSelectsAll(skus: seq<Sku>, txns: seq<Txn>)
    ensures Selected(skus, txns, RecentFilter()) == Join(skus, txns)
  {
    FilterAll(Join(skus, txns), MatchesOn(RecentFilter()));
  }

  /** The ten newest transactions joined with their SKUs: no filter applies,
      so these are the newest of all joined rows. */
  function RecentTransactions(skus: seq<Sku>, txns: seq<Txn>): (r: seq<TxnRow>)
    ensures |r| == Min(RecentLimit, |Join(skus, txns)|)
    ensures multiset(r) <= multiset(Join(skus, txns))
    ensures forall i :: 0 <= i < |r| ==> r[i] in Join(skus, txns)
    ensures forall i, j :: 0 <= i < j < |r| ==> r[i].txn.createdAt >= r[j].txn.createdAt
    ensures forall row, i :: row in multiset(Join(skus, txns)) - multiset(r) && 0 <= i < |r| ==>
      r[i].txn.createdAt >= row.txn.createdAt
  {
    UnfilteredSelectsAll(skus, txns);
    ListTransactions(skus, txns, RecentFilter())
  }

  // ---------------------------------------------------------- today

  /** DATE(created_at): the day an instant falls on. */
  function DayOf(instant: int): int
  {
    instant / SecondsPerDay
  }

  function TodayAs(kind: TxnType, now: int): Txn -> bool
  {
    (t: Txn) => t.kind == kind && DayOf(t.createdAt) == DayOf(now)
  }

  function TodayQuantity(kind: TxnType, now: int): Txn -> int
  {
    (t: Txn) => if t.kind == kind && DayOf(t.createdAt) == DayOf(now) then t.quantity else 0
  }

  datatype DayStat = DayStat(kind: TxnType, count: nat, totalQuantity: int)

  function DayStatOf(txns: seq<Txn>, now: int, kind: TxnType): DayStat
  {
    DayStat(kind, CountWhere(txns, TodayAs(kind, now)), SumOf(txns, TodayQuantity(kind, now)))
  }

  function DayStatOn(txns: seq<Txn>, now: int): TxnType -> DayStat
  {
    (k: TxnType) => DayStatOf(txns, now, k)
  }

  function Occurred(st: DayStat): bool
  {
    st.count > 0
  }

  const AllTypes: seq<TxnType> := [Purchase, Sale, Damage, Return]

  /** Today's movements grouped by type: one row for each type that
      occurred today, with its count and total quantity, no type twice. */
  function TodayStats(txns: seq<Txn>, now: int): (r: seq<DayStat>)
    ensures forall k :: DayStatOf(txns, now, k) in r <==>
      exists i :: 0 <= i < |txns| && txns[i].kind == k && DayOf(txns[i].createdAt) == DayOf(now)
    ensures forall i :: 0 <= i < |r| ==> r[i] == DayStatOf(txns, now, r[i].kind) && r[i].count > 0
    ensures forall i, j :: 0 <= i < j < |r| ==> r[i].kind != r[j].kind
  {
    var r := TodayRows(txns, now);
    TodayStatsFacts(txns, now, r);
    r
  }

  function TodayRows(txns: seq<Txn>, now: int): seq<DayStat>
  {
    Filter(Map(AllTypes, DayStatOn(txns, now)), Occurred)
  }

  lemma TodayRowsAreStats(txns: seq<Txn>, now: int)
    ensures var all := Map(AllTypes, DayStatOn(txns, now));
      && (forall k :: DayStatOf(txns, now, k) in all)
      && (forall x :: x in all ==> x == DayStatOf(txns, now, x.kind))
      && NoDuplicates(all)
  {
    var all := Map(AllTypes, DayStatOn(txns, now));
    assert all == [DayStatOf(txns, now, Purchase), DayStatOf(txns, now, Sale),
                   DayStatOf(txns, now, Damage), DayStatOf(txns, now, Return)];
    forall k ensures DayStatOf(txns, now, k) in all {
      match k
      case Purchase => assert all[0] == DayStatOf(txns, now, k);
      case Sale => assert all[1] == DayStatOf(txns, now, k);
      case Damage => assert all[2] == DayStatOf(txns, now, k);
      case Return => assert all[3] == DayStatOf(txns, now, k);
    }
  }

  lemma TodayMembers(txns: seq<Txn>, now: int, k: TxnType)
    ensures DayStatOf(txns, now, k) in TodayRows(txns, now) <==>
      exists i :: 0 <= i < |txns| && txns[i].kind == k && DayOf(txns[i].createdAt) == DayOf(now)
  {
    TodayRowsAreStats(txns, now);
    CountWherePositive(txns, TodayAs(k, now));
  }

  lemma TodayDistinct(txns: seq<Txn>, now: int)
    ensures var r := TodayRows(txns, now);
      && (forall i :: 0 <= i < |r| ==> r[i] == DayStatOf(txns, now, r[i].kind) && r[i].count > 0)
      && (forall i, j :: 0 <= i < j < |r| ==> r[i].kind != r[j].kind)
  {
    var all := Map(AllTypes, DayStatOn(txns, now));
    var r := TodayRows(txns, now);
    TodayRowsAreStats(txns, now);
    FilterNoDuplicates(all, Occurred);
    forall i | 0 <= i < |r| ensures r[i] == DayStatOf(txns, now, r[i].kind) && r[i].count > 0 {
      assert r[i] in r;
    }
    forall i, j | 0 <= i < j < |r| ensures r[i].kind != r[j].kind {
      assert r[i] in r && r[j] in r;
      assert r[i] != r[j];
    }
  }

  lemma TodayStatsFacts(txns: seq<Txn>, now: int, r: seq<DayStat>)
    requires r == TodayRows(txns, now)
    ensures forall k :: DayStatOf(txns, now, k) in r <==>
      exists i :: 0 <= i < |txns| && txns[i].kind == k && DayOf(txns[i].createdAt) == DayOf(now)
    ensures forall i :: 0 <= i < |r| ==> r[i] == DayStatOf(txns, now, r[i].kind) && r[i].count > 0
    ensures forall i, j :: 0 <= i < j < |r| ==> r[i].kind != r[j].kind
  {
    forall k ensures DayStatOf(txns, now, k) in r <==>
      exists i :: 0 <= i < |txns| && txns[i].kind == k && DayOf(txns[i].createdAt) == DayOf(now)
    {
      TodayMembers(txns, now, k);
    }
    TodayDistinct(txns, now);
  }

  // --------------------------------------------------------- categories

  function InCategory(c: string): Sku -> bool
  {
    (s: Sku) => s.category == c
  }

  function QuantityIn(c: string): Sku -> int
  {
    (s: Sku) => if s.category == c then s.currentQuantity else 0
  }

  function ValueIn(c: string): Sku -> int
  {
    (s: Sku) => if s.category == c then StockValue(s) else 0
  }

  datatype CategoryStat = CategoryStat(category: string, skuCount: nat, totalQuantity: int, totalValue: int)

  function CategoryStatOf(skus: seq<Sku>, c: string): CategoryStat
  {
    CategoryStat(c, CountWhere(skus, InCategory(c)), SumOf(skus, QuantityIn(c)), SumOf(skus, ValueIn(c)))
  }

  function CategoryStatOn(skus: seq<Sku>): string -> CategoryStat
  {
    (c: string) => CategoryStatOf(skus, c)
  }

  predicate MostValuableFirst(a: CategoryStat, b: CategoryStat)
  {
    a.totalValue >= b.totalValue
  }

  lemma MostValuableFirstOrders()
    ensures TotalPreorder(MostValuableFirst)
  {
  }

  /** SKUs grouped by category: one row per category in use, each holding
      that category's SKU count, quantity and value, no category twice, the
      most valuable category first. */
  function CategoryStats(skus: seq<Sku>): (r: seq<CategoryStat>)
    ensures forall c :: CategoryStatOf(skus, c) in r <==> exists i :: 0 <= i < |skus| && skus[i].category == c
    ensures forall i :: 0 <= i < |r| ==> r[i] == CategoryStatOf(skus, r[i].category)
    ensures forall i, j :: 0 <= i < j < |r| ==> r[i].category != r[j].category
    ensures forall i, j :: 0 <= i < j < |r| ==> r[i].totalValue >= r[j].totalValue
  {
    var r := SortBy(CategoryRows(skus), MostValuableFirst);
    CategoryStatsFacts(skus, r);
    r
  }

  function CategoryRows(skus: seq<Sku>): seq<CategoryStat>
  {
    Map(Categories(skus), CategoryStatOn(skus))
  }

  /** One statistics row per distinct category, before ordering. */
  lemma CategoryRowsFacts(skus: seq<Sku>)
    ensures var all := CategoryRows(skus);
      && (forall c :: CategoryStatOf(skus, c) in all <==> exists i :: 0 <= i < |skus| && skus[i].category == c)
      && (forall x :: x in all ==> x == CategoryStatOf(skus, x.category))
      && NoDuplicates(all)
  {
    var cats := Categories(skus);
    var all := CategoryRows(skus);
    MapMembers(cats, CategoryStatOn(skus));
    forall c ensures CategoryStatOf(skus, c) in all <==> c in cats {
      if CategoryStatOf(skus, c) in all {
        var c' :| c' in cats && CategoryStatOf(skus, c) == CategoryStatOf(skus, c');
      }
    }
    forall i, j | 0 <= i < j < |all| ensures all[i] != all[j] {
      assert all[i].category == cats[i] && all[j].category == cats[j];
    }
  }

  lemma CategoryStatsFacts(skus: seq<Sku>, r: seq<CategoryStat>)
    requires r == SortBy(CategoryRows(skus), MostValuableFirst)
    ensures forall c :: CategoryStatOf(skus, c) in r <==> exists i :: 0 <= i < |skus| && skus[i].category == c
    ensures forall i :: 0 <= i < |r| ==> r[i] == CategoryStatOf(skus, r[i].category)
    ensures forall i, j :: 0 <= i < j < |r| ==> r[i].category != r[j].category
    ensures forall i, j :: 0 <= i < j < |r| ==> r[i].totalValue >= r[j].totalValue
  {
    var all := CategoryRows(skus);
    MostValuableFirstOrders();
    SortBySorted(all, MostValuableFirst);
    CategoryRowsFacts(skus);
    PermutationNoDuplicates(all, r);
    forall x ensures x in r <==> x in all {
      assert x in r <==> x in multiset(r);
    }
    forall i | 0 <= i < |r| ensures r[i] == CategoryStatOf(skus, r[i].category) {
      assert r[i] in r;
    }
    forall i, j | 0 <= i < j < |r| ensures r[i].category != r[j].category {
      assert r[i] in r && r[j] in r;
      assert r[i] != r[j];
    }
  }

  function SkuCount(st: CategoryStat): int
  {
    st.skuCount
  }

  function SkusIn(skus: seq<Sku>): string -> int
  {
    (c: string) => CountWhere(skus, InCategory(c))
  }

  function InAny(cats: seq<string>): Sku -> bool
  {
    (s: Sku) => s.category in cats
  }

  function IsCategory(x: string): string -> int
  {
    (c: string) => if c == x then 1 else 0
  }

  /** Among distinct categories, x is counted at most once. */
  lemma {:induction false} SumOfIndicator(cats: seq<string>, x: string)
    requires NoDuplicates(cats)
    ensures SumOf(cats, IsCategory(x)) == if x in cats then 1 else 0
  {
    if cats != [] {
      assert NoDuplicates(cats[1..]) by {
        forall i, j | 0 <= i < j < |cats[1..]| ensures cats[1..][i] != cats[1..][j] {
          assert cats[1..][i] == cats[i + 1] && cats[1..][j] == cats[j + 1];
        }
      }
      SumOfIndicator(cats[1..], x);
      assert x in cats <==> x == cats[0] || x in cats[1..] by {
        assert cats == [cats[0]] + cats[1..];
      }
    }
  }

  /** Summing the per-category counts over distinct categories counts the
      SKUs whose category is among them. */
  lemma {:induction false} CountsByCategory(skus: seq<Sku>, cats: seq<string>)
    requires NoDuplicates(cats)
    ensures SumOf(cats, SkusIn(skus)) == CountWhere(skus, InAny(cats))
  {
    if skus == [] {
      SumOfZero(cats, SkusIn(skus));
    } else {
      var rest := skus[1..];
      forall c ensures SkusIn(skus)(c) == IsCategory(skus[0].category)(c) + SkusIn(rest)(c) {
      }
      SumOfAdd(cats, SkusIn(skus), IsCategory(skus[0].category), SkusIn(rest));
      SumOfIndicator(cats, skus[0].category);
      CountsByCategory(rest, cats);
    }
  }

  /** The SKU counts of the categories add up to the number of SKUs. */
  lemma CategoryCountsAddUp(skus: seq<Sku>)
    ensures SumOf(CategoryStats(skus), SkuCount) == |skus|
  {
    var cats := Categories(skus);
    var all := CategoryRows(skus);
    SumOfPermutation(SortBy(all, MostValuableFirst), all, SkuCount);
    SumOfMap(cats, CategoryStatOn(skus), SkuCount, SkusIn(skus));
    assert NoDuplicates(cats);
    CountsByCategory(skus, cats);
    forall i | 0 <= i < |skus| ensures InAny(cats)(skus[i]) {
      assert skus[i].category in cats;
    }
    CountWhereAll(skus, InAny(cats));
  }
}
