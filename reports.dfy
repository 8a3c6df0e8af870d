/** The analytical reports: dead stock, items to reorder, the best sellers and
    the slowest movers. Each is a selection of SKUs with derived columns and
    an ordering; none changes either table. */
module Reports {
  import opened Schema
  import opened Seqs

  /** current_quantity * unit_price, in hundredths. */
  function StockValue(s: Sku): int
  {
    s.currentQuantity * s.unitPrice
  }

  /** Math.round of an amount given in hundredths, to whole units: the
      nearest whole unit, halves rounding up. */
  function RoundToUnit(c: int): (r: int)
    ensures 100 * r - 50 <= c < 100 * r + 50
  {
    (c + 50) / 100
  }

  /** The window of the query string when none is given. */
  const DefaultDays: int := 30

  function DaysOrDefault(days: Option<int>): int
  {
    if days.Some? then days.value else DefaultDays
  }

  predicate IsSale(t: Txn, id: int)
  {
    t.skuId == id && t.kind == Sale
  }

  /** Some SALE of SKU id was recorded at or after since. */
  predicate SoldSince(txns: seq<Txn>, id: int, since: int)
  {
    exists i :: 0 <= i < |txns| && IsSale(txns[i], id) && txns[i].createdAt >= since
  }

  // ---------------------------------------------------------- dead stock

  const DeadStockDays: int := 90

  /** Stock on hand, and no sale in the last 90 days. */
  predicate IsDeadStock(s: Sku, txns: seq<Txn>, now: int)
  {
    s.currentQuantity > 0 && !SoldSince(txns, s.id, WindowStart(now, DeadStockDays))
  }

  function DeadOn(txns: seq<Txn>, now: int): Sku -> bool
  {
    (s: Sku) => IsDeadStock(s, txns, now)
  }

  /** MAX(created_at) over the sales of SKU id, or null when it never sold. */
  function LastSale(txns: seq<Txn>, id: int): (r: Option<int>)
    ensures r.None? <==> forall i :: 0 <= i < |txns| ==> !IsSale(txns[i], id)
    ensures r.Some? ==> exists i :: 0 <= i < |txns| && IsSale(txns[i], id) && txns[i].createdAt == r.value
    ensures r.Some? ==> forall i :: 0 <= i < |txns| && IsSale(txns[i], id) ==> txns[i].createdAt <= r.value
  {
    if txns == [] then None
    else
      var rest := LastSale(txns[1..], id);
      assert forall i :: 1 <= i < |txns| ==> txns[i] == txns[1..][i - 1];
      if !IsSale(txns[0], id) then rest
      else if rest.Some? && rest.value >= txns[0].createdAt then rest
      else Some(txns[0].createdAt)
  }

  /** EXTRACT(DAY FROM interval)::INTEGER: the whole days in a span of
      seconds, truncated toward zero. */
  function WholeDays(span: int): (d: int)
    ensures span >= 0 ==> d * SecondsPerDay <= span < (d + 1) * SecondsPerDay
    ensures span < 0 ==> (d - 1) * SecondsPerDay < span <= d * SecondsPerDay
  {
    if span >= 0 then span / SecondsPerDay else -((-span) / SecondsPerDay)
  }

  /** A row of the dead-stock report. */
  datatype DeadRow = DeadRow(sku: Sku, stockValue: int, lastSaleDate: Option<int>, daysSinceLastSale: Option<int>)

  function DeadRowOf(s: Sku, txns: seq<Txn>, now: int): DeadRow
  {
    var last := LastSale(txns, s.id);
    DeadRow(s, StockValue(s), last, if last.Some? then Some(WholeDays(now - last.value)) else None)
  }

  function DeadRowOn(txns: seq<Txn>, now: int): Sku -> DeadRow
  {
    (s: Sku) => DeadRowOf(s, txns, now)
  }

  /** ORDER BY days_since_last_sale DESC NULLS FIRST. */
  predicate LongestUnsoldFirst(a: DeadRow, b: DeadRow)
  {
    a.daysSinceLastSale.None? || (b.daysSinceLastSale.Some? && a.daysSinceLastSale.value >= b.daysSinceLastSale.value)
  }

  lemma LongestUnsoldFirstOrders()
    ensures TotalPreorder(LongestUnsoldFirst)
  {
  }

  /** GET /api/reports/dead-stock: one row per dead-stock SKU; the SKUs that
      never sold come first, then the rest by days since their last sale,
      longest first. */
  function DeadStock(skus: seq<Sku>, txns: seq<Txn>, now: int): (r: seq<DeadRow>)
    ensures |r| == CountWhere(skus, DeadOn(txns, now))
    ensures forall row :: row in r <==> exists s :: s in skus && IsDeadStock(s, txns, now) && row == DeadRowOf(s, txns, now)
    ensures forall i, j :: 0 <= i < j < |r| && r[j].daysSinceLastSale.None? ==> r[i].daysSinceLastSale.None?
    ensures forall i, j :: 0 <= i < j < |r| && r[j].daysSinceLastSale.Some? && r[i].daysSinceLastSale.Some? ==>
      r[i].daysSinceLastSale.value >= r[j].daysSinceLastSale.value
  {
    LongestUnsoldFirstOrders();
    SortedSelection(skus, DeadOn(txns, now), DeadRowOn(txns, now), LongestUnsoldFirst);
    SortBy(Map(Filter(skus, DeadOn(txns, now)), DeadRowOn(txns, now)), LongestUnsoldFirst)
  }

  /** A dead-stock row that ever sold carries its latest sale, which lies
      more than 90 days back, so at least 90 whole days have passed. */
  lemma DeadStockLongUnsold(skus: seq<Sku>, txns: seq<Txn>, now: int, row: DeadRow)
    requires row in DeadStock(skus, txns, now)
    requires row.lastSaleDate.Some?
    ensures row.lastSaleDate.value < WindowStart(now, DeadStockDays)
    ensures row.daysSinceLastSale.Some? && row.daysSinceLastSale.value >= DeadStockDays
  {
    var s :| s in skus && IsDeadStock(s, txns, now) && row == DeadRowOf(s, txns, now);
    var i :| 0 <= i < |txns| && IsSale(txns[i], s.id) && txns[i].createdAt == row.lastSaleDate.value;
    var d := WholeDays(now - row.lastSaleDate.value);
    assert now - row.lastSaleDate.value > DeadStockDays * SecondsPerDay;
  }

  /** A SKU with stock on hand that never sold is dead stock, and its row says null. */
  lemma NeverSoldIsDeadStock(skus: seq<Sku>, txns: seq<Txn>, now: int, s: Sku)
    requires s in skus && s.currentQuantity > 0
    requires forall i :: 0 <= i < |txns| ==> !IsSale(txns[i], s.id)
    ensures DeadRowOf(s, txns, now) in DeadStock(skus, txns, now)
    ensures DeadRowOf(s, txns, now).lastSaleDate.None? && DeadRowOf(s, txns, now).daysSinceLastSale.None?
  {
  }

  function RowValue(row: DeadRow): int
  {
    row.stockValue
  }

  datatype DeadSummary = DeadSummary(count: nat, totalValue: int)

  /** The summary of the dead-stock report: its row count and the rounded
      total of its stock values. */
  function DeadStockSummary(rows: seq<DeadRow>): (r: DeadSummary)
    ensures r.count == |rows|
    ensures 100 * r.totalValue - 50 <= SumOf(rows, RowValue) < 100 * r.totalValue + 50
  {
    DeadSummary(|rows|, RoundToUnit(SumOf(rows, RowValue)))
  }

  /** The reported total is the stock value of the dead-stock SKUs themselves. */
  lemma DeadStockValue(skus: seq<Sku>, txns: seq<Txn>, now: int)
    ensures DeadStockSummary(DeadStock(skus, txns, now)).totalValue
         == RoundToUnit(SumOf(Filter(skus, DeadOn(txns, now)), StockValue))
  {
    var selected := Filter(skus, DeadOn(txns, now));
    var all := Map(selected, DeadRowOn(txns, now));
    SumOfPermutation(SortBy(all, LongestUnsoldFirst), all, RowValue);
    SumOfMap(selected, DeadRowOn(txns, now), RowValue, StockValue);
  }

  // ------------------------------------------------------------- reorder

  predicate OutOfStock(s: Sku)
  {
    s.currentQuantity == 0
  }

  datatype ReorderRow = ReorderRow(sku: Sku, shortage: int, suggestedOrderQty: int)

  function ReorderRowOf(s: Sku): ReorderRow
  {
    ReorderRow(s, s.reorderLevel - s.currentQuantity, s.reorderLevel * 2)
  }

  /** Out-of-stock rows first, then by shortage, largest first. */
  predicate MostUrgentFirst(a: ReorderRow, b: ReorderRow)
  {
    if OutOfStock(a.sku) != OutOfStock(b.sku) then OutOfStock(a.sku) else a.shortage >= b.shortage
  }

  lemma MostUrgentFirstOrders()
    ensures TotalPreorder(MostUrgentFirst)
  {
  }

  /** GET /api/reports/reorder: one row per SKU at or below its reorder
      level, with a shortage that is never negative and an order suggestion
      of twice the level; every out-of-stock row precedes every other, and
      within each group the shortage does not increase. */
  function Reorder(skus: seq<Sku>): (r: seq<ReorderRow>)
    ensures |r| == CountWhere(skus, NeedsReorder)
    ensures forall row :: row in r <==> exists s :: s in skus && NeedsReorder(s) && row == ReorderRowOf(s)
    ensures forall i :: 0 <= i < |r| ==>
      && NeedsReorder(r[i].sku)
      && r[i].shortage == r[i].sku.reorderLevel - r[i].sku.currentQuantity >= 0
      && r[i].suggestedOrderQty == 2 * r[i].sku.reorderLevel
    ensures forall i, j :: 0 <= i < j < |r| && OutOfStock(r[j].sku) ==> OutOfStock(r[i].sku)
    ensures forall i, j :: 0 <= i < j < |r| && OutOfStock(r[i].sku) == OutOfStock(r[j].sku) ==>
      r[i].shortage >= r[j].shortage
  {
    MostUrgentFirstOrders();
    SortedSelection(skus, NeedsReorder, ReorderRowOf, MostUrgentFirst);
    var r := SortBy(Map(Filter(skus, NeedsReorder), ReorderRowOf), MostUrgentFirst);
    assert forall i :: 0 <= i < |r| ==> r[i] in r;
    r
  }

  function RowOutOfStock(row: ReorderRow): bool
  {
    OutOfStock(row.sku)
  }

  datatype ReorderSummary = ReorderSummary(count: nat, outOfStock: nat)

  /** The summary of the reorder report: its row count and how many of its
      rows are out of stock. */
  function ReorderSummaryOf(rows: seq<ReorderRow>): (r: ReorderSummary)
    ensures r.count == |rows|
    ensures r.outOfStock <= r.count
    ensures r.outOfStock > 0 <==> exists i :: 0 <= i < |rows| && OutOfStock(rows[i].sku)
  {
    CountWherePositive(rows, RowOutOfStock);
    ReorderSummary(|rows|, CountWhere(rows, RowOutOfStock))
  }

  /** The summary's out-of-stock figure counts the SKUs that are both at or
      below their level and at zero. */
  lemma ReorderOutOfStock(skus: seq<Sku>)
    ensures ReorderSummaryOf(Reorder(skus)).outOfStock == CountWhere(skus, ReorderAndOut)
  {
    var selected := Filter(skus, NeedsReorder);
    var all := Map(selected, ReorderRowOf);
    var r := SortBy(all, MostUrgentFirst);
    CountWhereIsSum(r, RowOutOfStock, RowIndicator);
    SumOfPermutation(r, all, RowIndicator);
    SumOfMap(selected, ReorderRowOf, RowIndicator, SkuIndicator);
    SumOfFilter(skus, NeedsReorder, SkuIndicator, BothIndicator);
    CountWhereIsSum(skus, ReorderAndOut, BothIndicator);
  }

  function ReorderAndOut(s: Sku): bool
  {
    NeedsReorder(s) && OutOfStock(s)
  }

  function RowIndicator(row: ReorderRow): int
  {
    if OutOfStock(row.sku) then 1 else 0
  }

  function SkuIndicator(s: Sku): int
  {
    if OutOfStock(s) then 1 else 0
  }

  function BothIndicator(s: Sku): int
  {
    if ReorderAndOut(s) then 1 else 0
  }

  // --------------------------------------------------------- top selling

  const ReportLimit: nat := 10

  predicate SaleInWindow(t: Txn, id: int, since: int)
  {
    IsSale(t, id) && t.createdAt >= since
  }

  function SalesIn(id: int, since: int): Txn -> bool
  {
    (t: Txn) => SaleInWindow(t, id, since)
  }

  function SoldIn(id: int, since: int): Txn -> int
  {
    (t: Txn) => if SaleInWindow(t, id, since) then t.quantity else 0
  }

  function RevenueIn(id: int, price: int, since: int): Txn -> int
  {
    (t: Txn) => if SaleInWindow(t, id, since) then t.quantity * price else 0
  }

  /** A row of the top-selling report: the SKU's columns and its sales in the window. */
  datatype TopRow = TopRow(
    id: int, name: string, category: string, currentQuantity: int, unitPrice: int,
    saleCount: nat, totalSold: int, revenue: int)

  function TopRowOf(s: Sku, txns: seq<Txn>, since: int): TopRow
  {
    TopRow(s.id, s.name, s.category, s.currentQuantity, s.unitPrice,
           CountWhere(txns, SalesIn(s.id, since)),
           SumOf(txns, SoldIn(s.id, since)),
           SumOf(txns, RevenueIn(s.id, s.unitPrice, since)))
  }

  function TopRowOn(txns: seq<Txn>, since: int): Sku -> TopRow
  {
    (s: Sku) => TopRowOf(s, txns, since)
  }

  function SoldOn(txns: seq<Txn>, since: int): Sku -> bool
  {
    (s: Sku) => SoldSince(txns, s.id, since)
  }

  predicate MostSoldFirst(a: TopRow, b: TopRow)
  {
    a.totalSold >= b.totalSold
  }

  lemma MostSoldFirstOrders()
    ensures TotalPreorder(MostSoldFirst)
  {
  }

  /** The row of a SKU counts its sales in the window, and its revenue is
      their quantity times the SKU's price; the join keeps a SKU exactly
      when that count is positive. */
  lemma TopRowFacts(s: Sku, txns: seq<Txn>, since: int)
    ensures var row := TopRowOf(s, txns, since);
      && row.revenue == row.totalSold * s.unitPrice
      && (row.saleCount > 0 <==> SoldSince(txns, s.id, since))
  {
    SumOfScale(txns, SoldIn(s.id, since), RevenueIn(s.id, s.unitPrice, since), s.unitPrice);
    CountWherePositive(txns, SalesIn(s.id, since));
  }

  /** GET /api/reports/top-selling: at most ten rows, one per SKU that sold in
      the window, by quantity sold, largest first; a SKU that sold in the
      window but is left out sold no more than any SKU that is kept. */
  function TopSelling(skus: seq<Sku>, txns: seq<Txn>, now: int, days: Option<int>): (r: seq<TopRow>)
    ensures var since := WindowStart(now, DaysOrDefault(days));
      && |r| == Min(ReportLimit, CountWhere(skus, SoldOn(txns, since)))
      && multiset(r) <= multiset(Map(Filter(skus, SoldOn(txns, since)), TopRowOn(txns, since)))
      && (forall i :: 0 <= i < |r| ==>
            exists s :: s in skus && SoldSince(txns, s.id, since) && r[i] == TopRowOf(s, txns, since))
      && (forall i, j :: 0 <= i < j < |r| ==> r[i].totalSold >= r[j].totalSold)
      && (forall s, i :: s in skus && SoldSince(txns, s.id, since) && TopRowOf(s, txns, since) !in r && 0 <= i < |r| ==>
            r[i].totalSold >= TopRowOf(s, txns, since).totalSold)
  {
    var since := WindowStart(now, DaysOrDefault(days));
    MostSoldFirstOrders();
    var r := Take(SortBy(Map(Filter(skus, SoldOn(txns, since)), TopRowOn(txns, since)), MostSoldFirst), ReportLimit);
    RankedSelection(skus, SoldOn(txns, since), TopRowOn(txns, since), MostSoldFirst, ReportLimit, r);
    r
  }

  // --------------------------------------------------------- slow moving

  /** Every movement of SKU id in the window counts, whatever its type. */
  function MovedIn(id: int, since: int): Txn -> int
  {
    (t: Txn) => if t.skuId == id && t.createdAt >= since then t.quantity else 0
  }

  predicate InStock(s: Sku)
  {
    s.currentQuantity > 0
  }

  datatype SlowRow = SlowRow(
    id: int, name: string, category: string, currentQuantity: int, unitPrice: int,
    stockValue: int, totalMovement: int)

  function SlowRowOf(s: Sku, txns: seq<Txn>, since: int): SlowRow
  {
    SlowRow(s.id, s.name, s.category, s.currentQuantity, s.unitPrice, StockValue(s), SumOf(txns, MovedIn(s.id, since)))
  }

  function SlowRowOn(txns: seq<Txn>, since: int): Sku -> SlowRow
  {
    (s: Sku) => SlowRowOf(s, txns, since)
  }

  /** ORDER BY total_movement ASC, stock_value DESC. */
  predicate SlowestFirst(a: SlowRow, b: SlowRow)
  {
    a.totalMovement < b.totalMovement || (a.totalMovement == b.totalMovement && a.stockValue >= b.stockValue)
  }

  lemma SlowestFirstOrders()
    ensures TotalPreorder(SlowestFirst)
  {
  }

  /** A SKU that did not move in the window has a total movement of 0. */
  lemma UnmovedIsZero(s: Sku, txns: seq<Txn>, since: int)
    requires forall i :: 0 <= i < |txns| ==> txns[i].skuId != s.id || txns[i].createdAt < since
    ensures SlowRowOf(s, txns, since).totalMovement == 0
  {
    SumOfZero(txns, MovedIn(s.id, since));
  }

  /** GET /api/reports/slow-moving: at most ten rows of SKUs with stock on
      hand, least moved first and, among equals, the larger stock value
      first; a SKU with stock that is left out ranks no earlier than any SKU
      kept: it moved more, or as much with no larger stock value. */
  function SlowMoving(skus: seq<Sku>, txns: seq<Txn>, now: int, days: Option<int>): (r: seq<SlowRow>)
    ensures var since := WindowStart(now, DaysOrDefault(days));
      && |r| == Min(ReportLimit, CountWhere(skus, InStock))
      && multiset(r) <= multiset(Map(Filter(skus, InStock), SlowRowOn(txns, since)))
      && (forall i :: 0 <= i < |r| ==> exists s :: s in skus && InStock(s) && r[i] == SlowRowOf(s, txns, since))
      && (forall i, j :: 0 <= i < j < |r| ==>
            || r[i].totalMovement < r[j].totalMovement
            || (r[i].totalMovement == r[j].totalMovement && r[i].stockValue >= r[j].stockValue))
      && (forall s, i :: s in skus && InStock(s) && SlowRowOf(s, txns, since) !in r && 0 <= i < |r| ==>
            SlowestFirst(r[i], SlowRowOf(s, txns, since)))
  {
    var since := WindowStart(now, DaysOrDefault(days));
    SlowestFirstOrders();
    var r := Take(SortBy(Map(Filter(skus, InStock), SlowRowOn(txns, since)), SlowestFirst), ReportLimit);
    RankedSelection(skus, InStock, SlowRowOn(txns, since), SlowestFirst, ReportLimit, r);
    r
  }

  // ------------------------------------------------------ one row per SKU

  function SkuId(s: Sku): int
  {
    s.id
  }

  function TopRowId(row: TopRow): int
  {
    row.id
  }

  function SlowRowId(row: SlowRow): int
  {
    row.id
  }

  /** GROUP BY s.id: under the primary key no SKU appears twice among the
      best sellers. */
  lemma TopSellingOnePerSku(skus: seq<Sku>, txns: seq<Txn>, now: int, days: Option<int>)
    requires UniqueIds(skus)
    ensures var r := TopSelling(skus, txns, now, days);
      forall i, j :: 0 <= i < j < |r| ==> r[i].id != r[j].id
  {
    var since := WindowStart(now, DaysOrDefault(days));
    var selected := Filter(skus, SoldOn(txns, since));
    assert KeysDistinct(skus, SkuId);
    SubmultisetKeysDistinct(selected, skus, SkuId);
    MapKeysDistinct(selected, TopRowOn(txns, since), SkuId, TopRowId);
    SubmultisetKeysDistinct(TopSelling(skus, txns, now, days), Map(selected, TopRowOn(txns, since)), TopRowId);
  }

  /** Each row of the slow-moving report is a different SKU. */
  lemma SlowMovingOnePerSku(skus: seq<Sku>, txns: seq<Txn>, now: int, days: Option<int>)
    requires UniqueIds(skus)
    ensures var r := SlowMoving(skus, txns, now, days);
      forall i, j :: 0 <= i < j < |r| ==> r[i].id != r[j].id
  {
    var since := WindowStart(now, DaysOrDefault(days));
    var selected := Filter(skus, InStock);
    assert KeysDistinct(skus, SkuId);
    SubmultisetKeysDistinct(selected, skus, SkuId);
    MapKeysDistinct(selected, SlowRowOn(txns, since), SkuId, SlowRowId);
    SubmultisetKeysDistinct(SlowMoving(skus, txns, now, days), Map(selected, SlowRowOn(txns, since)), SlowRowId);
  }
}
