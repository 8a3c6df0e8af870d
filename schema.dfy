/** The two tables of the inventory database, the closed set of movement
    types, and the representations chosen for time and money.

    Timestamps are whole seconds on one clock; a calendar date is the number
    of its day on that clock. Prices and values are integer hundredths of the
    currency unit, which is exact for a DECIMAL(10,2) column. */
module Schema {

  datatype Option<+T> = None | Some(value: T)

  datatype Result<+T, +E> = Success(value: T) | Failure(error: E)

  /** The transaction_type column admits exactly these four values. */
  datatype TxnType = Purchase | Sale | Damage | Return

  /** A row of the skus table. */
  datatype Sku = Sku(
    id: int,
    name: string,
    category: string,
    reorderLevel: int,
    currentQuantity: int,
    unitPrice: int,      // hundredths
    createdAt: int)

  /** A row of the transactions table. */
  datatype Txn = Txn(
    id: int,
    skuId: int,
    kind: TxnType,
    quantity: int,
    reason: Option<string>,
    notes: Option<string>,
    createdAt: int)

  /** The failures the handlers report to their callers. */
  datatype Error =
    | FieldsRequired            // sku_id, transaction_type and quantity are required
    | InvalidType               // transaction type outside the four values
    | NonPositiveQuantity       // quantity must be greater than 0
    | SkuNotFound
    | NameAndCategoryRequired
    | NoFieldsToUpdate
    | HasTransactions           // cannot delete a SKU that transactions reference

  /** The HTTP status each failure is answered with. */
  function Status(e: Error): int
  {
    if e == SkuNotFound then 404 else 400
  }

  const SecondsPerDay: int := 86400

  /** Midnight at the start of day d. */
  function DayStart(d: int): int { d * SecondsPerDay }

  /** The last whole second of day d ("23:59:59"). */
  function DayEnd(d: int): int { d * SecondsPerDay + SecondsPerDay - 1 }

  /** The instant a window of the given number of days reaching back from now begins. */
  function WindowStart(now: int, days: int): int { now - days * SecondsPerDay }

  /** A non-empty query-string or body value; absent and empty both read as false. */
  predicate Given(o: Option<string>)
  {
    o.Some? && o.value != ""
  }

  /** The first row of the skus table with the given id. */
  function Lookup(skus: seq<Sku>, id: int): (r: Option<Sku>)
    ensures r.None? <==> forall i :: 0 <= i < |skus| ==> skus[i].id != id
    ensures r.Some? ==> r.value in skus && r.value.id == id
  {
    if skus == [] then None
    else if skus[0].id == id then Some(skus[0])
    else Lookup(skus[1..], id)
  }

  /** The SKU is at or below its reorder level: the low-stock filter of the
      SKU list and the selection of the reorder report. */
  predicate NeedsReorder(s: Sku)
  {
    s.currentQuantity <= s.reorderLevel
  }

  /** The primary-key constraint of the skus table. */
  predicate UniqueIds(skus: seq<Sku>)
  {
    forall i, j :: 0 <= i < j < |skus| ==> skus[i].id != skus[j].id
  }

  /** Under the primary key, Lookup finds the one row that carries the id. */
  lemma LookupUnique(skus: seq<Sku>, k: int)
    requires UniqueIds(skus)
    requires 0 <= k < |skus|
    ensures Lookup(skus, skus[k].id) == Some(skus[k])
  {
    if k > 0 {
      assert skus[0].id != skus[k].id;
      assert UniqueIds(skus[1..]) by {
        forall i, j | 0 <= i < j < |skus[1..]| ensures skus[1..][i].id != skus[1..][j].id {
          assert skus[1..][i] == skus[i + 1] && skus[1..][j] == skus[j + 1];
        }
      }
      LookupUnique(skus[1..], k - 1);
    }
  }
}
