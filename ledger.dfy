/** The transaction ledger: the movement types, how each movement changes a
    SKU's stock, the validation of a new movement, and the transaction list.
    Recording a movement (which writes both tables) is Store.Inventory.Record. */
module Ledger {
  import opened Schema
  import opened Seqs

  // ------------------------------------------------------ movement types

  /** The text of a movement type as stored and as sent by clients. */
  function TypeName(k: TxnType): string
  {
    match k
    case Purchase => "PURCHASE"
    case Sale => "SALE"
    case Damage => "DAMAGE"
    case Return => "RETURN"
  }

  /** VALID_TYPES: the movement type a client's text names, if any. */
  function ParseType(s: string): (r: Option<TxnType>)
    ensures forall k :: r == Some(k) <==> TypeName(k) == s
  {
    if s == "PURCHASE" then Some(Purchase)
    else if s == "SALE" then Some(Sale)
    else if s == "DAMAGE" then Some(Damage)
    else if s == "RETURN" then Some(Return)
    else None
  }

  /** IN_TYPES: the movements that bring stock in. */
  predicate IsIn(k: TxnType)
  {
    k == Purchase || k == Return
  }

  /** The change a movement makes to its SKU's stock: in-movements add their
      quantity, SALE and DAMAGE subtract it. */
  function Signed(k: TxnType, quantity: int): int
  {
    if IsIn(k) then quantity else -quantity
  }

  // ----------------------------------------------------- the ledger fold

  /** The change transaction t makes to the stock of SKU id. */
  function Effect(t: Txn, id: int): int
  {
    if t.skuId == id then Signed(t.kind, t.quantity) else 0
  }

  function EffectOn(id: int): Txn -> int
  {
    t => Effect(t, id)
  }

  function InflowOn(id: int): Txn -> int
  {
    (t: Txn) => if t.skuId == id && IsIn(t.kind) then t.quantity else 0
  }

  function OutflowOn(id: int): Txn -> int
  {
    (t: Txn) => if t.skuId == id && !IsIn(t.kind) then t.quantity else 0
  }

  /** The net change the ledger records for SKU id. */
  function NetMovement(txns: seq<Txn>, id: int): int
  {
    SumOf(txns, EffectOn(id))
  }

  /** The stock of SKU id after the ledger's movements are applied one by
      one, in order, to an opening quantity q. */
  function Replay(q: int, txns: seq<Txn>, id: int): int
    decreases |txns|
  {
    if txns == [] then q else Replay(q + Effect(txns[0], id), txns[1..], id)
  }

  /** Replaying the ledger from q ends at q plus the net movement. */
  lemma {:induction false} ReplayIsNet(q: int, txns: seq<Txn>, id: int)
    ensures Replay(q, txns, id) == q + NetMovement(txns, id)
    decreases |txns|
  {
    if txns != [] {
      ReplayIsNet(q + Effect(txns[0], id), txns[1..], id);
    }
  }

  /** The net movement is everything that came in minus everything that went out. */
  lemma NetIsInMinusOut(txns: seq<Txn>, id: int)
    ensures NetMovement(txns, id) == SumOf(txns, InflowOn(id)) - SumOf(txns, OutflowOn(id))
  {
    SumOfLinear(txns, EffectOn(id), InflowOn(id), OutflowOn(id));
  }

  /** The order in which movements were recorded does not matter. */
  lemma NetMovementOrderFree(a: seq<Txn>, b: seq<Txn>, id: int)
    requires multiset(a) == multiset(b)
    ensures NetMovement(a, id) == NetMovement(b, id)
    ensures Replay(0, a, id) == Replay(0, b, id)
  {
    SumOfPermutation(a, b, EffectOn(id));
    ReplayIsNet(0, a, id);
    ReplayIsNet(0, b, id);
  }

  /** Appending a movement changes the net of its own SKU by its signed
      quantity and the net of every other SKU not at all. */
  lemma NetMovementAppend(txns: seq<Txn>, t: Txn, id: int)
    ensures NetMovement(txns + [t], id) == NetMovement(txns, id) + Effect(t, id)
  {
    SumOfAppend(txns, [t], EffectOn(id));
  }

  /** A SKU no transaction references has no net movement. */
  lemma NetMovementUnreferenced(txns: seq<Txn>, id: int)
    requires forall i :: 0 <= i < |txns| ==> txns[i].skuId != id
    ensures NetMovement(txns, id) == 0
  {
    SumOfZero(txns, EffectOn(id));
  }

  // -------------------------------------------------- recording: checks

  /** Body of POST /api/transactions; None stands for a field the body leaves out. */
  datatype RecordRequest = RecordRequest(
    skuId: Option<int>,
    transactionType: Option<string>,
    quantity: Option<int>,
    reason: Option<string>,
    notes: Option<string>)

  /** A required field is absent or falsy: an id or quantity of 0, an empty type. */
  predicate MissingRequired(req: RecordRequest)
  {
    || req.skuId.None? || req.skuId.value == 0
    || !Given(req.transactionType)
    || req.quantity.None? || req.quantity.value == 0
  }

  /** A movement that passed the checks that need no table. */
  datatype Movement = Movement(skuId: int, kind: TxnType, quantity: int)

  /** The checks of the POST handler that precede the SKU lookup, in the
      handler's order: required fields, then the type, then the sign of the
      quantity. */
  function CheckRequest(req: RecordRequest): (r: Result<Movement, Error>)
    ensures r == Failure(FieldsRequired) <==> MissingRequired(req)
    ensures r == Failure(InvalidType) <==>
      !MissingRequired(req) && ParseType(req.transactionType.value).None?
    ensures r == Failure(NonPositiveQuantity) <==>
      !MissingRequired(req) && ParseType(req.transactionType.value).Some? && req.quantity.value < 0
    ensures r.Success? <==>
      !MissingRequired(req) && ParseType(req.transactionType.value).Some? && req.quantity.value > 0
    ensures r.Success? ==>
      && req.skuId == Some(r.value.skuId)
      && req.transactionType == Some(TypeName(r.value.kind))
      && req.quantity == Some(r.value.quantity)
      && r.value.quantity > 0
  {
    if MissingRequired(req) then Failure(FieldsRequired)
    else match ParseType(req.transactionType.value)
      case None => Failure(InvalidType)
      case Some(k) =>
        if req.quantity.value <= 0 then Failure(NonPositiveQuantity)
        else Success(Movement(req.skuId.value, k, req.quantity.value))
  }

  /** `value || null`: an empty text is stored as null. */
  function NullIfEmpty(o: Option<string>): (r: Option<string>)
    ensures r.None? <==> !Given(o)
    ensures r.Some? ==> r == o
  {
    if Given(o) then o else None
  }

  // ------------------------------------------------------------- listing

  /** A transaction joined with the name and category of its SKU. */
  datatype TxnRow = TxnRow(txn: Txn, skuName: string, skuCategory: string)

  /** The row carries the name and category of the SKU its transaction references. */
  predicate JoinedWith(row: TxnRow, skus: seq<Sku>)
  {
    match Lookup(skus, row.txn.skuId)
    case None => false
    case Some(s) => row.skuName == s.name && row.skuCategory == s.category
  }

  /** transactions JOIN skus: one row per transaction whose SKU exists, as
      many times as the transaction occurs. */
  function Join(skus: seq<Sku>, txns: seq<Txn>): (rows: seq<TxnRow>)
    ensures forall row :: row in rows <==> row.txn in txns && JoinedWith(row, skus)
    ensures forall row :: multiset(rows)[row] == if JoinedWith(row, skus) then multiset(txns)[row.txn] else 0
  {
    if txns == [] then []
    else
      var rest := Join(skus, txns[1..]);
      assert txns == [txns[0]] + txns[1..];
      assert forall t :: t in txns <==> t == txns[0] || t in txns[1..];
      assert forall t :: multiset(txns)[t] == multiset(txns[1..])[t] + if t == txns[0] then 1 else 0;
      match Lookup(skus, txns[0].skuId)
      case None => rest
      case Some(s) =>
        var head := TxnRow(txns[0], s.name, s.category);
        assert forall row :: row == head <==> row.txn == txns[0] && JoinedWith(row, skus);
        [head] + rest
  }

  /** Query parameters of the transaction list. Dates are day numbers; None
      stands for an absent or empty parameter. */
  datatype TxnFilter = TxnFilter(
    skuId: Option<int>,
    kind: Option<string>,
    startDate: Option<int>,
    endDate: Option<int>,
    limit: Option<nat>)

  const DefaultLimit: nat := 100

  function Limit(f: TxnFilter): nat
  {
    if f.limit.Some? then f.limit.value else DefaultLimit
  }

  /** The transaction passes every filter that is supplied; the end date
      includes its whole day, up to 23:59:59. */
  predicate Matches(t: Txn, f: TxnFilter)
  {
    && (f.skuId.Some? ==> t.skuId == f.skuId.value)
    && (Given(f.kind) ==> TypeName(t.kind) == f.kind.value)
    && (f.startDate.Some? ==> t.createdAt >= DayStart(f.startDate.value))
    && (f.endDate.Some? ==> t.createdAt <= DayEnd(f.endDate.value))
  }

  function MatchesOn(f: TxnFilter): TxnRow -> bool
  {
    (row: TxnRow) => Matches(row.txn, f)
  }

  /** The joined rows the WHERE clause of the list keeps. */
  function Selected(skus: seq<Sku>, txns: seq<Txn>, f: TxnFilter): (rows: seq<TxnRow>)
    ensures forall row :: row in rows <==> row.txn in txns && JoinedWith(row, skus) && Matches(row.txn, f)
  {
    Filter(Join(skus, txns), MatchesOn(f))
  }

  predicate NewerFirst(a: TxnRow, b: TxnRow)
  {
    a.txn.createdAt >= b.txn.createdAt
  }

  lemma NewerFirstOrders()
    ensures TotalPreorder(NewerFirst)
  {
  }

  /** ORDER BY created_at DESC LIMIT k over the given rows. */
  lemma NewestRows(rows: seq<TxnRow>, k: nat)
    ensures var r := Take(SortBy(rows, NewerFirst), k);
      && |r| == Min(k, |rows|)
      && multiset(r) <= multiset(rows)
      && (forall i :: 0 <= i < |r| ==> r[i] in rows)
      && (forall i, j :: 0 <= i < j < |r| ==> r[i].txn.createdAt >= r[j].txn.createdAt)
      && (forall row, i :: row in multiset(rows) - multiset(r) && 0 <= i < |r| ==>
            r[i].txn.createdAt >= row.txn.createdAt)
  {
    NewerFirstOrders();
    TopRows(rows, NewerFirst, k);
    var r := Take(SortBy(rows, NewerFirst), k);
    forall i | 0 <= i < |r| ensures r[i] in rows {
      assert r[i] in multiset(r);
    }
  }

  /** GET /api/transactions: the selected rows, newest first, at most the
      limit of them; when rows are cut off, none of them is newer than a row
      that is kept. */
  function ListTransactions(skus: seq<Sku>, txns: seq<Txn>, f: TxnFilter): (r: seq<TxnRow>)
    ensures |r| == Min(Limit(f), |Selected(skus, txns, f)|)
    ensures multiset(r) <= multiset(Selected(skus, txns, f))
    ensures forall i :: 0 <= i < |r| ==>
      r[i].txn in txns && JoinedWith(r[i], skus) && Matches(r[i].txn, f)
    ensures forall i, j :: 0 <= i < j < |r| ==> r[i].txn.createdAt >= r[j].txn.createdAt
    ensures forall row, i :: row in multiset(Selected(skus, txns, f)) - multiset(r) && 0 <= i < |r| ==>
      r[i].txn.createdAt >= row.txn.createdAt
  {
    NewestRows(Selected(skus, txns, f), Limit(f));
    Take(SortBy(Selected(skus, txns, f), NewerFirst), Limit(f))
  }
}
