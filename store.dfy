/** The database as one object holding both tables, with the handlers that
    write to it: recording a stock movement and creating, updating and
    deleting SKUs. Reads go through the functions of Registry, Ledger,
    Reports and Dashboard applied to the two tables. */
module Store {
  import opened Schema
  import opened Seqs
  import opened Registry
  import opened Ledger

  /** What a successful POST /api/transactions answers: the new transaction
      joined with its SKU, and that SKU's quantity after the update. */
  datatype Recorded = Recorded(row: TxnRow, newQuantity: int)

  /** UPDATE skus SET ... WHERE id = ...: g applied to the rows with that id. */
  function UpdateWhere(skus: seq<Sku>, id: int, g: Sku -> Sku): (r: seq<Sku>)
    ensures |r| == |skus|
    ensures forall i :: 0 <= i < |skus| ==> r[i] == if skus[i].id == id then g(skus[i]) else skus[i]
  {
    if skus == [] then []
    else [if skus[0].id == id then g(skus[0]) else skus[0]] + UpdateWhere(skus[1..], id, g)
  }

  /** The position of the row with the given id, or -1 when there is none. */
  function IndexOf(skus: seq<Sku>, id: int): (k: int)
    ensures -1 <= k < |skus|
    ensures k == -1 <==> forall i :: 0 <= i < |skus| ==> skus[i].id != id
    ensures k >= 0 ==> skus[k].id == id
  {
    if skus == [] then -1
    else if skus[0].id == id then 0
    else
      var k := IndexOf(skus[1..], id);
      if k == -1 then -1 else k + 1
  }

  /** Every SKU id was drawn from the SKU sequence, which starts at 1. */
  ghost predicate SkuIdsDrawn(skus: seq<Sku>, nextSkuId: int)
  {
    forall i :: 0 <= i < |skus| ==> 1 <= skus[i].id < nextSkuId
  }

  /** Transaction ids were drawn from their sequence in insertion order. */
  ghost predicate TxnIdsDrawn(txns: seq<Txn>, nextTxnId: int)
  {
    && (forall i, j :: 0 <= i < j < |txns| ==> txns[i].id < txns[j].id)
    && (forall i :: 0 <= i < |txns| ==> 1 <= txns[i].id < nextTxnId)
  }

  ghost predicate HasId(skus: seq<Sku>, id: int)
  {
    exists i :: 0 <= i < |skus| && skus[i].id == id
  }

  /** The foreign key: every transaction references an existing SKU. */
  ghost predicate ReferencesExist(skus: seq<Sku>, txns: seq<Txn>)
  {
    forall i :: 0 <= i < |txns| ==> HasId(skus, txns[i].skuId)
  }

  /** Every SKU's current quantity is its opening quantity plus the net
      movement the ledger records for it. */
  ghost predicate LedgerHolds(skus: seq<Sku>, txns: seq<Txn>, opening: map<int, int>)
  {
    forall i :: 0 <= i < |skus| ==>
      skus[i].id in opening && skus[i].currentQuantity == opening[skus[i].id] + NetMovement(txns, skus[i].id)
  }

  ghost predicate Consistent(skus: seq<Sku>, txns: seq<Txn>, nextSkuId: int, nextTxnId: int, opening: map<int, int>)
  {
    && 1 <= nextSkuId && 1 <= nextTxnId
    && UniqueIds(skus)
    && SkuIdsDrawn(skus, nextSkuId)
    && TxnIdsDrawn(txns, nextTxnId)
    && ReferencesExist(skus, txns)
    && LedgerHolds(skus, txns, opening)
  }

  /** The ledger balance: a SKU's quantity is its opening quantity plus
      everything that came in minus everything that went out, and replaying
      the movements in any order from the opening quantity ends at it. */
  lemma LedgerBalance(skus: seq<Sku>, txns: seq<Txn>, opening: map<int, int>, k: int, reordered: seq<Txn>)
    requires LedgerHolds(skus, txns, opening)
    requires 0 <= k < |skus|
    requires multiset(reordered) == multiset(txns)
    ensures skus[k].id in opening
    ensures skus[k].currentQuantity
         == opening[skus[k].id] + SumOf(txns, InflowOn(skus[k].id)) - SumOf(txns, OutflowOn(skus[k].id))
    ensures skus[k].currentQuantity == Replay(opening[skus[k].id], reordered, skus[k].id)
  {
    var id := skus[k].id;
    NetIsInMinusOut(txns, id);
    NetMovementOrderFree(txns, reordered, id);
    ReplayIsNet(opening[id], reordered, id);
  }

  function SetQuantity(q: int): Sku -> Sku
  {
    (s: Sku) => s.(currentQuantity := q)
  }

  function ApplyAssignments(fields: seq<Assignment>): Sku -> Sku
  {
    (s: Sku) => AssignAll(s, fields)
  }

  /** Replacing rows without touching their ids keeps the key invariants. */
  lemma SameIds(a: seq<Sku>, b: seq<Sku>, txns: seq<Txn>, nextSkuId: int)
    requires |a| == |b|
    requires forall i :: 0 <= i < |a| ==> a[i].id == b[i].id
    ensures UniqueIds(a) ==> UniqueIds(b)
    ensures SkuIdsDrawn(a, nextSkuId) ==> SkuIdsDrawn(b, nextSkuId)
    ensures ReferencesExist(a, txns) ==> ReferencesExist(b, txns)
  {
    if ReferencesExist(a, txns) {
      forall i | 0 <= i < |txns| ensures HasId(b, txns[i].skuId) {
        var j :| 0 <= j < |a| && a[j].id == txns[i].skuId;
        assert b[j].id == txns[i].skuId;
      }
    }
  }

  lemma RecordKeepsLedger(skus: seq<Sku>, txns: seq<Txn>, opening: map<int, int>, t: Txn, q: int)
    requires UniqueIds(skus) && LedgerHolds(skus, txns, opening)
    requires Lookup(skus, t.skuId).Some?
    requires q == Lookup(skus, t.skuId).value.currentQuantity + Signed(t.kind, t.quantity)
    ensures LedgerHolds(UpdateWhere(skus, t.skuId, SetQuantity(q)), txns + [t], opening)
  {
    var skus' := UpdateWhere(skus, t.skuId, SetQuantity(q));
    forall i | 0 <= i < |skus'|
      ensures skus'[i].id in opening && skus'[i].currentQuantity == opening[skus'[i].id] + NetMovement(txns + [t], skus'[i].id)
    {
      NetMovementAppend(txns, t, skus[i].id);
      if skus[i].id == t.skuId {
        LookupUnique(skus, i);
      }
    }
  }

  lemma AppendKeepsReferences(skus: seq<Sku>, txns: seq<Txn>, t: Txn)
    requires ReferencesExist(skus, txns)
    requires HasId(skus, t.skuId)
    ensures ReferencesExist(skus, txns + [t])
  {
    forall i | 0 <= i < |txns + [t]| ensures HasId(skus, (txns + [t])[i].skuId) {
      if i < |txns| {
        assert (txns + [t])[i] == txns[i];
      }
    }
  }

  lemma AppendKeepsTxnIds(txns: seq<Txn>, nextTxnId: int, t: Txn)
    requires 1 <= nextTxnId && TxnIdsDrawn(txns, nextTxnId)
    requires t.id == nextTxnId
    ensures TxnIdsDrawn(txns + [t], nextTxnId + 1)
  {
    var txns' := txns + [t];
    assert forall i :: 0 <= i < |txns| ==> txns'[i] == txns[i];
  }

  /** Appending a transaction and moving its SKU's quantity by its effect
      keeps the tables consistent. */
  lemma RecordKeepsConsistent(skus: seq<Sku>, txns: seq<Txn>, nextSkuId: int, nextTxnId: int,
                              opening: map<int, int>, t: Txn, q: int)
    requires Consistent(skus, txns, nextSkuId, nextTxnId, opening)
    requires Lookup(skus, t.skuId).Some?
    requires q == Lookup(skus, t.skuId).value.currentQuantity + Signed(t.kind, t.quantity)
    requires t.id == nextTxnId
    ensures Consistent(UpdateWhere(skus, t.skuId, SetQuantity(q)), txns + [t], nextSkuId, nextTxnId + 1, opening)
  {
    var skus' := UpdateWhere(skus, t.skuId, SetQuantity(q));
    RecordKeepsLedger(skus, txns, opening, t, q);
    var k := IndexOf(skus, t.skuId);
    AppendKeepsReferences(skus, txns, t);
    SameIds(skus, skus', txns + [t], nextSkuId);
    AppendKeepsTxnIds(txns, nextTxnId, t);
  }

  /** Appending a SKU under the next id of the sequence keeps the tables
      consistent, with its quantity as its opening quantity. */
  lemma CreateKeepsConsistent(skus: seq<Sku>, txns: seq<Txn>, nextSkuId: int, nextTxnId: int,
                              opening: map<int, int>, s: Sku)
    requires Consistent(skus, txns, nextSkuId, nextTxnId, opening)
    requires s.id == nextSkuId
    ensures forall i :: 0 <= i < |skus| ==> skus[i].id != s.id
    ensures Consistent(skus + [s], txns, nextSkuId + 1, nextTxnId, opening[s.id := s.currentQuantity])
  {
    var skus' := skus + [s];
    var opening' := opening[s.id := s.currentQuantity];
    forall i | 0 <= i < |txns| ensures txns[i].skuId != s.id {
      assert HasId(skus, txns[i].skuId);
      var j :| 0 <= j < |skus| && skus[j].id == txns[i].skuId;
    }
    NetMovementUnreferenced(txns, s.id);
    assert ReferencesExist(skus', txns) by {
      forall i | 0 <= i < |txns| ensures HasId(skus', txns[i].skuId) {
        var j :| 0 <= j < |skus| && skus[j].id == txns[i].skuId;
        assert skus'[j] == skus[j];
      }
    }
    assert LedgerHolds(skus', txns, opening') by {
      forall i | 0 <= i < |skus'|
        ensures skus'[i].id in opening' && skus'[i].currentQuantity == opening'[skus'[i].id] + NetMovement(txns, skus'[i].id)
      {
        if i < |skus| {
          assert skus'[i] == skus[i];
        }
      }
    }
  }

  /** Rewriting the non-key, non-quantity fields of one row keeps the tables
      consistent. */
  lemma UpdateKeepsConsistent(skus: seq<Sku>, txns: seq<Txn>, nextSkuId: int, nextTxnId: int,
                              opening: map<int, int>, id: int, g: Sku -> Sku)
    requires Consistent(skus, txns, nextSkuId, nextTxnId, opening)
    requires forall s :: g(s).id == s.id && g(s).currentQuantity == s.currentQuantity
    ensures Consistent(UpdateWhere(skus, id, g), txns, nextSkuId, nextTxnId, opening)
  {
    var skus' := UpdateWhere(skus, id, g);
    SameIds(skus, skus', txns, nextSkuId);
  }

  /** The skus table without its row at k. */
  function RemoveAt(skus: seq<Sku>, k: int): (r: seq<Sku>)
    requires 0 <= k < |skus|
    ensures |r| == |skus| - 1
    ensures forall i :: 0 <= i < |r| ==> r[i] == if i < k then skus[i] else skus[i + 1]
  {
    skus[..k] + skus[k + 1..]
  }

  lemma RemoveAtMembers(skus: seq<Sku>, k: int)
    requires 0 <= k < |skus|
    requires UniqueIds(skus)
    ensures forall s :: s in RemoveAt(skus, k) <==> s in skus && s.id != skus[k].id
  {
    var r := RemoveAt(skus, k);
    forall s ensures s in r <==> s in skus && s.id != skus[k].id {
      if s in skus && s.id != skus[k].id {
        var j :| 0 <= j < |skus| && skus[j] == s;
        assert s == if j < k then r[j] else r[j - 1];
      }
    }
  }

  lemma RemoveAtKeepsKeys(skus: seq<Sku>, k: int, nextSkuId: int)
    requires 0 <= k < |skus|
    requires UniqueIds(skus) && SkuIdsDrawn(skus, nextSkuId)
    ensures UniqueIds(RemoveAt(skus, k)) && SkuIdsDrawn(RemoveAt(skus, k), nextSkuId)
  {
    var r := RemoveAt(skus, k);
    forall i, j | 0 <= i < j < |r| ensures r[i].id != r[j].id {
      var i' := if i < k then i else i + 1;
      var j' := if j < k then j else j + 1;
      assert r[i] == skus[i'] && r[j] == skus[j'];
    }
  }

  lemma RemoveAtKeepsReferences(skus: seq<Sku>, txns: seq<Txn>, k: int)
    requires 0 <= k < |skus|
    requires ReferencesExist(skus, txns)
    requires forall i :: 0 <= i < |txns| ==> txns[i].skuId != skus[k].id
    ensures ReferencesExist(RemoveAt(skus, k), txns)
  {
    var r := RemoveAt(skus, k);
    forall i | 0 <= i < |txns| ensures HasId(r, txns[i].skuId) {
      assert HasId(skus, txns[i].skuId);
      var j :| 0 <= j < |skus| && skus[j].id == txns[i].skuId;
      assert j != k;
      assert skus[j] == if j < k then r[j] else r[j - 1];
    }
  }

  lemma RemoveAtKeepsLedger(skus: seq<Sku>, txns: seq<Txn>, opening: map<int, int>, k: int)
    requires 0 <= k < |skus|
    requires LedgerHolds(skus, txns, opening)
    ensures LedgerHolds(RemoveAt(skus, k), txns, opening)
  {
    var r := RemoveAt(skus, k);
    forall i | 0 <= i < |r|
      ensures r[i].id in opening && r[i].currentQuantity == opening[r[i].id] + NetMovement(txns, r[i].id)
    {
      var i' := if i < k then i else i + 1;
      assert r[i] == skus[i'];
    }
  }

  /** Removing the row at k, when no transaction references it, keeps the
      tables consistent. */
  lemma DeleteKeepsConsistent(skus: seq<Sku>, txns: seq<Txn>, nextSkuId: int, nextTxnId: int,
                              opening: map<int, int>, k: int)
    requires Consistent(skus, txns, nextSkuId, nextTxnId, opening)
    requires 0 <= k < |skus|
    requires forall i :: 0 <= i < |txns| ==> txns[i].skuId != skus[k].id
    ensures forall s :: s in RemoveAt(skus, k) <==> s in skus && s.id != skus[k].id
    ensures Consistent(RemoveAt(skus, k), txns, nextSkuId, nextTxnId, opening)
  {
    RemoveAtMembers(skus, k);
    RemoveAtKeepsKeys(skus, k, nextSkuId);
    RemoveAtKeepsReferences(skus, txns, k);
    RemoveAtKeepsLedger(skus, txns, opening, k);
  }

  /** The state of the skus table after one SKU's quantity is set to q. */
  lemma QuantitySet(skus: seq<Sku>, id: int, q: int)
    requires UniqueIds(skus)
    requires Lookup(skus, id).Some?
    ensures var r := UpdateWhere(skus, id, SetQuantity(q));
      && |r| == |skus|
      && (forall i :: 0 <= i < |r| ==> r[i] == if skus[i].id == id then skus[i].(currentQuantity := q) else skus[i])
      && Lookup(r, id) == Some(Lookup(skus, id).value.(currentQuantity := q))
  {
    var r := UpdateWhere(skus, id, SetQuantity(q));
    var k := IndexOf(skus, id);
    LookupUnique(skus, k);
    SameIds(skus, r, [], 1);
    LookupUnique(r, k);
  }

  /** The tables after a movement m of an existing SKU was committed at time
      now: the transaction joined with its SKU is the response, and that
      SKU's quantity moved by the signed quantity while no other row
      changed. */
  ghost predicate Committed(skus: seq<Sku>, txns: seq<Txn>, nextTxnId: int, m: Movement,
                            reason: Option<string>, notes: Option<string>, now: int,
                            skus': seq<Sku>, txns': seq<Txn>, nextTxnId': int, rec: Recorded)
  {
    && Lookup(skus, m.skuId).Some?
    && var s := Lookup(skus, m.skuId).value;
    var t := Txn(nextTxnId, m.skuId, m.kind, m.quantity, reason, notes, now);
    && rec.row == TxnRow(t, s.name, s.category)
    && rec.newQuantity == s.currentQuantity + Signed(m.kind, m.quantity)
    && txns' == txns + [t]
    && nextTxnId' == nextTxnId + 1
    && |skus'| == |skus|
    && (forall i :: 0 <= i < |skus| ==>
          skus'[i] == if skus[i].id == m.skuId then skus[i].(currentQuantity := rec.newQuantity) else skus[i])
    && Lookup(skus', m.skuId) == Some(s.(currentQuantity := rec.newQuantity))
  }

  lemma CommitState(skus: seq<Sku>, txns: seq<Txn>, nextTxnId: int, m: Movement,
                    reason: Option<string>, notes: Option<string>, now: int, t: Txn, rec: Recorded)
    requires UniqueIds(skus)
    requires Lookup(skus, m.skuId).Some?
    requires t == Txn(nextTxnId, m.skuId, m.kind, m.quantity, reason, notes, now)
    requires rec.row == TxnRow(t, Lookup(skus, m.skuId).value.name, Lookup(skus, m.skuId).value.category)
    requires rec.newQuantity == Lookup(skus, m.skuId).value.currentQuantity + Signed(m.kind, m.quantity)
    ensures Committed(skus, txns, nextTxnId, m, reason, notes, now,
                      UpdateWhere(skus, m.skuId, SetQuantity(rec.newQuantity)), txns + [t], nextTxnId + 1, rec)
  {
    var s := Lookup(skus, m.skuId).value;
    var q := rec.newQuantity;
    var skus' := UpdateWhere(skus, m.skuId, SetQuantity(q));
    QuantitySet(skus, m.skuId, q);
    assert forall i :: 0 <= i < |skus| ==>
      skus'[i] == if skus[i].id == m.skuId then skus[i].(currentQuantity := q) else skus[i];
    assert Lookup(skus', m.skuId) == Some(s.(currentQuantity := q));
  }

  class Inventory {
    /** The skus table, in insertion order. */
    var skus: seq<Sku>
    /** The transactions table, in insertion order. */
    var txns: seq<Txn>
    /** The next values of the two SERIAL id sequences. */
    var nextSkuId: int
    var nextTxnId: int
    /** The quantity each SKU was created with. */
    ghost var opening: map<int, int>

    /** The table invariants: ids are unique and come from their sequences,
        every transaction references an existing SKU, and every SKU's
        current quantity is its opening quantity plus the net movement the
        ledger records for it. */
    ghost predicate Valid()
      reads this
    {
      Consistent(skus, txns, nextSkuId, nextTxnId, opening)
    }

    constructor ()
      ensures Valid()
      ensures skus == [] && txns == [] && nextSkuId == 1 && nextTxnId == 1 && opening == map[]
    {
      skus, txns := [], [];
      nextSkuId, nextTxnId := 1, 1;
      opening := map[];
    }

    /** GET /api/skus/:id. What a client reads as a SKU's quantity is its
        opening quantity with the whole ledger replayed on top. */
    method Get(id: int) returns (r: Result<Sku, Error>)
      requires Valid()
      ensures r == GetSku(skus, id)
      ensures r.Success? ==> id in opening && r.value.currentQuantity == Replay(opening[id], txns, id)
    {
      r := GetSku(skus, id);
      if r.Success? {
        var k := IndexOf(skus, id);
        LookupUnique(skus, k);
        ReplayIsNet(opening[id], txns, id);
      }
    }

    /** POST /api/transactions. The checks run in the handler's order and
        every failure leaves both tables as they were. On success exactly one
        transaction is appended and only the referenced SKU's quantity moves,
        by the signed quantity, even when it goes below zero. */
    method Record(req: RecordRequest, now: int) returns (r: Result<Recorded, Error>)
      requires Valid()
      modifies this
      ensures Valid()
      ensures CheckRequest(req).Failure? ==> r == Failure(CheckRequest(req).error) && unchanged(this)
      ensures CheckRequest(req).Success? && Lookup(old(skus), CheckRequest(req).value.skuId).None? ==>
        r == Failure(SkuNotFound) && unchanged(this)
      ensures r.Success? <==> CheckRequest(req).Success? && Lookup(old(skus), CheckRequest(req).value.skuId).Some?
      ensures r.Success? ==>
        var m := CheckRequest(req).value;
        Committed(old(skus), old(txns), old(nextTxnId), m, NullIfEmpty(req.reason), NullIfEmpty(req.notes), now,
                  skus, txns, nextTxnId, r.value)
        && nextSkuId == old(nextSkuId) && opening == old(opening)
    {
      var checked := CheckRequest(req);
      if checked.Failure? {
        return Failure(checked.error);
      }
      var m := checked.value;
      if Lookup(skus, m.skuId).None? {
        return Failure(SkuNotFound);
      }
      var recorded := Commit(m, NullIfEmpty(req.reason), NullIfEmpty(req.notes), now);
      r := Success(recorded);
    }

    /** The two writes of the handler: insert the transaction, then set the
        quantity of its SKU. */
    method Commit(m: Movement, reason: Option<string>, notes: Option<string>, now: int) returns (rec: Recorded)
      requires Valid()
      requires Lookup(skus, m.skuId).Some?
      modifies this
      ensures Valid()
      ensures Committed(old(skus), old(txns), old(nextTxnId), m, reason, notes, now, skus, txns, nextTxnId, rec)
      ensures nextSkuId == old(nextSkuId) && opening == old(opening)
    {
      var sku := Lookup(skus, m.skuId).value;
      var newQuantity;
      if IsIn(m.kind) {
        newQuantity := sku.currentQuantity + m.quantity;
      } else {
        // A negative result is only logged as a warning, never refused.
        newQuantity := sku.currentQuantity - m.quantity;
      }
      var t := Txn(nextTxnId, m.skuId, m.kind, m.quantity, reason, notes, now);
      rec := Recorded(TxnRow(t, sku.name, sku.category), newQuantity);
      var skus', txns' := UpdateWhere(skus, m.skuId, SetQuantity(newQuantity)), txns + [t];
      RecordKeepsConsistent(skus, txns, nextSkuId, nextTxnId, opening, t, newQuantity);
      CommitState(skus, txns, nextTxnId, m, reason, notes, now, t, rec);
      skus, txns, nextTxnId := skus', txns', nextTxnId + 1;
    }

    /** POST /api/skus. Refuses a missing or empty name or category and then
        leaves the tables alone; otherwise appends one row under a fresh id
        with the defaults filled in. */
    method Create(req: NewSku, now: int) returns (r: Result<Sku, Error>)
      requires Valid()
      modifies this
      ensures Valid()
      ensures r == NewSkuRow(req, old(nextSkuId), now)
      ensures r.Failure? ==> unchanged(this)
      ensures r.Success? ==>
        && skus == old(skus) + [r.value]
        && (forall i :: 0 <= i < |old(skus)| ==> old(skus)[i].id != r.value.id)
        && txns == old(txns)
        && nextSkuId == old(nextSkuId) + 1 && nextTxnId == old(nextTxnId)
        && opening == old(opening)[r.value.id := r.value.currentQuantity]
    {
      r := NewSkuRow(req, nextSkuId, now);
      if r.Success? {
        CreateKeepsConsistent(skus, txns, nextSkuId, nextTxnId, opening, r.value);
        skus := skus + [r.value];
        nextSkuId := nextSkuId + 1;
        opening := opening[r.value.id := r.value.currentQuantity];
      }
    }

    /** PUT /api/skus/:id. A body with no applicable field is refused before
        the id is looked at; an unknown id is not found. Otherwise only the
        supplied fields of that one row change, never its quantity. */
    method Update(id: int, p: SkuPatch) returns (r: Result<Sku, Error>)
      requires Valid()
      modifies this
      ensures Valid()
      ensures NothingToUpdate(p) ==> r == Failure(NoFieldsToUpdate) && unchanged(this)
      ensures !NothingToUpdate(p) && Lookup(old(skus), id).None? ==> r == Failure(SkuNotFound) && unchanged(this)
      ensures r.Success? <==> !NothingToUpdate(p) && Lookup(old(skus), id).Some?
      ensures r.Success? ==>
        && r.value == Patched(Lookup(old(skus), id).value, p)
        && txns == old(txns) && nextSkuId == old(nextSkuId) && nextTxnId == old(nextTxnId)
        && opening == old(opening)
        && |skus| == |old(skus)|
        && (forall i :: 0 <= i < |skus| ==>
              skus[i] == if old(skus)[i].id == id then Patched(old(skus)[i], p) else old(skus)[i])
    {
      var fields := CollectAssignments(p);
      if |fields| == 0 {
        return Failure(NoFieldsToUpdate);
      }
      var found := Lookup(skus, id);
      if found.None? {
        return Failure(SkuNotFound);
      }
      UpdateKeepsConsistent(skus, txns, nextSkuId, nextTxnId, opening, id, ApplyAssignments(fields));
      skus := UpdateWhere(skus, id, ApplyAssignments(fields));
      r := Success(AssignAll(found.value, fields));
    }

    /** DELETE /api/skus/:id. Refused while any transaction references the
        id, a check made before the id is looked up; an unknown id is not
        found. Otherwise exactly that one row goes. */
    method Delete(id: int) returns (r: Result<int, Error>)
      requires Valid()
      modifies this
      ensures Valid()
      ensures ReferenceCount(old(txns), id) > 0 ==> r == Failure(HasTransactions) && unchanged(this)
      ensures ReferenceCount(old(txns), id) == 0 && Lookup(old(skus), id).None? ==>
        r == Failure(SkuNotFound) && unchanged(this)
      ensures r.Success? <==> ReferenceCount(old(txns), id) == 0 && Lookup(old(skus), id).Some?
      ensures r.Success? ==>
        && r.value == id
        && |skus| == |old(skus)| - 1
        && (forall s :: s in skus <==> s in old(skus) && s.id != id)
        && txns == old(txns) && nextSkuId == old(nextSkuId) && nextTxnId == old(nextTxnId)
        && opening == old(opening)
    {
      if ReferenceCount(txns, id) > 0 {
        return Failure(HasTransactions);
      }
      var k := IndexOf(skus, id);
      if k == -1 {
        return Failure(SkuNotFound);
      }
      DeleteKeepsConsistent(skus, txns, nextSkuId, nextTxnId, opening, k);
      skus := RemoveAt(skus, k);
      r := Success(id);
    }
  }

  /** A sale larger than the stock is recorded, and the stock goes
      negative: a SKU created with 5 units and then sold 10 reads -5. */
  method NegativeStockScenario()
  {
    var db := new Inventory();
    var created := db.Create(NewSku(Some("Tile"), Some("Tiles"), None, Some(5), None), 0);
    assert created == Success(Sku(1, "Tile", "Tiles", 10, 5, 0, 0));
    var sale := db.Record(RecordRequest(Some(1), Some("SALE"), Some(10), None, None), 1);
    assert sale.Success? && sale.value.newQuantity == -5;
    var got := db.Get(1);
    assert got.Success? && got.value.currentQuantity == -5;
  }
}
