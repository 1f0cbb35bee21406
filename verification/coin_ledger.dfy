/** The coin log endpoint `/api/coin-transactions`: `POST` validates and
    appends one row, then reads the client to notify it; `PUT` and `DELETE`
    touch the addressed row only. None of them writes a client's
    `coin_balance`: keeping that cache in step with the log is left to the
    admin page (module `CoinsPage`). */
module CoinLedger {
  import opened Basics

  /** The JSON body of a posting; `coinsAdded` is `None` when the field is `undefined`. */
  datatype CoinRequest = CoinRequest(
    clientId: Option<Id>,
    clientName: Option<string>,
    amount: Option<int>,
    coinsAdded: Option<int>)

  /** Which store calls fail during one posting. */
  datatype CoinFaults = CoinFaults(insertFails: bool, lookupFails: bool)

  const NoFaults := CoinFaults(false, false)

  /** The 400 check: `client_id` and `amount` truthy, `coins_added` present (0 allowed). */
  predicate Valid(req: CoinRequest)
  {
    TruthyNum(req.clientId) && TruthyNum(req.amount) && req.coinsAdded.Some?
  }

  /** The row a valid posting inserts, with the next identity. */
  function NewRow(db: Db, req: CoinRequest): CoinTx
    requires Valid(req)
  {
    CoinTx(db.nextId, req.clientId.value, req.clientName, req.amount.value, req.coinsAdded.value)
  }

  /** `POST /api/coin-transactions`. */
  function Post(db: Db, req: CoinRequest, f: CoinFaults): (r: Step<CoinTx>)
    ensures !Valid(req) ==> r == Step(Err(BadRequest), db, [])
    ensures Valid(req) && f.insertFails ==> r == Step(Err(ServerError), db, [])
    ensures r.response.Ok? <==> Valid(req) && !f.insertFails
    ensures r.response.Err? ==> r.db == db && r.notices == []
    // The client table is read, never written.
    ensures r.db.users == db.users && r.db.debtTxs == db.debtTxs && r.db.sales == db.sales
    ensures r.db.posTxs == db.posTxs
    ensures r.response.Ok? ==>
              var row := r.response.body;
              && row.clientId == req.clientId.value
              && row.clientName == req.clientName
              && row.amount == req.amount.value
              && row.coinsAdded == req.coinsAdded.value
              && row.id == db.nextId
              && r.db.coinTxs == db.coinTxs + [row]
              && r.db.nextId > db.nextId
    // A notice goes out exactly when the client is found and has a phone; it
    // announces the cached balance as read, and its outcome is not awaited.
    ensures r.response.Ok? ==>
              var c := Single(db.users, UserId, req.clientId.value);
              r.notices == (if !f.lookupFails && c.Some? && TruthyStr(c.value.phone)
                            then [CoinNotice(req.clientName, req.amount.value, OrZero(c.value.coinBalance),
                                             c.value.phone.value)]
                            else [])
  {
    if !Valid(req) then Step(Err(BadRequest), db, [])
    else if f.insertFails then Step(Err(ServerError), db, [])
    else
      var row := NewRow(db, req);
      var found := Single(db.users, UserId, row.clientId);
      var notices := if !f.lookupFails && found.Some? && TruthyStr(found.value.phone)
                     then [CoinNotice(req.clientName, row.amount, OrZero(found.value.coinBalance), found.value.phone.value)]
                     else [];
      Step(Ok(row), db.(coinTxs := db.coinTxs + [row], nextId := db.nextId + 1), notices)
  }

  /** A failed lookup only suppresses the notice. */
  lemma LookupFailureIsSilent(db: Db, req: CoinRequest, f: CoinFaults)
    ensures Post(db, req, f).response == Post(db, req, f.(lookupFails := false)).response
    ensures Post(db, req, f).db == Post(db, req, f.(lookupFails := false)).db
    ensures f.lookupFails ==> Post(db, req, f).notices == []
  {
  }

  /** The columns a `PUT` body may carry besides `id`; absent ones are not written. */
  datatype CoinPatch = CoinPatch(clientId: Option<Id>, clientName: Option<string>, amount: Option<int>, coinsAdded: Option<int>)

  /** The update writes only the supplied columns: it never changes the
      id, and writing the same columns twice is writing them once. */
  function PatchTx(p: CoinPatch): (r: CoinTx -> CoinTx)
    ensures KeepsKey(CoinTxId, r) && Idempotent(r)
  {
    (t: CoinTx) => t.(
      clientId := if p.clientId.Some? then p.clientId.value else t.clientId,
      clientName := if p.clientName.Some? then p.clientName else t.clientName,
      amount := if p.amount.Some? then p.amount.value else t.amount,
      coinsAdded := if p.coinsAdded.Some? then p.coinsAdded.value else t.coinsAdded)
  }

  /** `PUT /api/coin-transactions`: without a truthy id, 400; otherwise the
      addressed rows get the supplied columns and nothing else changes. */
  function Put(db: Db, id: Option<Id>, p: CoinPatch, fails: bool): (r: Step<seq<CoinTx>>)
    ensures !TruthyNum(id) ==> r == Step(Err(BadRequest), db, [])
    ensures TruthyNum(id) && fails ==> r == Step(Err(ServerError), db, [])
    ensures r.response.Ok? <==> TruthyNum(id) && !fails
    ensures r.db.users == db.users && r.db.debtTxs == db.debtTxs && r.db.sales == db.sales && r.db.nextId == db.nextId
    ensures r.db.posTxs == db.posTxs
    ensures |r.db.coinTxs| == |db.coinTxs|
    ensures forall i :: 0 <= i < |db.coinTxs| && (!TruthyNum(id) || db.coinTxs[i].id != id.value) ==>
              r.db.coinTxs[i] == db.coinTxs[i]
    ensures r.response.Ok? ==> forall i :: 0 <= i < |db.coinTxs| && db.coinTxs[i].id == id.value ==>
              var t, t' := db.coinTxs[i], r.db.coinTxs[i];
              && t'.id == t.id
              && t'.clientId == (if p.clientId.Some? then p.clientId.value else t.clientId)
              && t'.clientName == (if p.clientName.Some? then p.clientName else t.clientName)
              && t'.amount == (if p.amount.Some? then p.amount.value else t.amount)
              && t'.coinsAdded == (if p.coinsAdded.Some? then p.coinsAdded.value else t.coinsAdded)
    ensures r.response.Ok? ==> r.response.body == Where(r.db.coinTxs, CoinTxId, id.value)
  {
    if !TruthyNum(id) then Step(Err(BadRequest), db, [])
    else if fails then Step(Err(ServerError), db, [])
    else
      var txs := UpdateWhere(db.coinTxs, CoinTxId, id.value, PatchTx(p));
      Step(Ok(Where(txs, CoinTxId, id.value)), db.(coinTxs := txs), [])
  }

  /** `DELETE /api/coin-transactions?id=`: removes the row and nothing else. */
  function Delete(db: Db, id: Option<Id>, fails: bool): (r: Step<()>)
    ensures id.None? ==> r == Step(Err(BadRequest), db, [])
    ensures id.Some? && fails ==> r == Step(Err(ServerError), db, [])
    ensures r.response.Ok? <==> id.Some? && !fails
    ensures r.db.users == db.users && r.db.debtTxs == db.debtTxs && r.db.sales == db.sales && r.db.nextId == db.nextId
    ensures r.db.posTxs == db.posTxs
    ensures r.response.Ok? ==>
              && (forall i :: 0 <= i < |r.db.coinTxs| ==> r.db.coinTxs[i] in db.coinTxs && r.db.coinTxs[i].id != id.value)
              && (forall i :: 0 <= i < |db.coinTxs| && db.coinTxs[i].id != id.value ==> db.coinTxs[i] in r.db.coinTxs)
  {
    if id.None? then Step(Err(BadRequest), db, [])
    else if fails then Step(Err(ServerError), db, [])
    else
      DeleteFromRows(db.coinTxs, CoinTxId, id.value);
      Step(Ok(()), db.(coinTxs := DeleteWhere(db.coinTxs, CoinTxId, id.value)), [])
  }

  /** After a successful `PUT`, `.eq('id', j).single()` finds, for the
      addressed id, the old row with the supplied columns written over it,
      and for every other id exactly what it found before. */
  lemma PutAddressesOne(db: Db, id: Option<Id>, p: CoinPatch, j: Id)
    requires TruthyNum(id)
    ensures var r := Put(db, id, p, false);
            && (j != id.value ==> Single(r.db.coinTxs, CoinTxId, j) == Single(db.coinTxs, CoinTxId, j))
            && (j == id.value && Single(db.coinTxs, CoinTxId, j).Some? ==>
                  Single(r.db.coinTxs, CoinTxId, j) == Some(PatchTx(p)(Single(db.coinTxs, CoinTxId, j).value)))
            && (j == id.value && Single(db.coinTxs, CoinTxId, j).None? ==> Single(r.db.coinTxs, CoinTxId, j).None?)
  {
    SingleUpdate(db.coinTxs, CoinTxId, id.value, PatchTx(p), j);
  }

  /** Sending the same `PUT` twice leaves the store as the first one did. */
  lemma PutIdempotent(db: Db, id: Option<Id>, p: CoinPatch)
    ensures var r := Put(db, id, p, false);
            Put(r.db, id, p, false) == r
  {
    if TruthyNum(id) {
        UpdateTwice(db.coinTxs, CoinTxId, id.value, PatchTx(p));
    }
  }

  /** After a successful `DELETE`, `.eq('id', j).single()` on every other id
      finds what it found before. */
  lemma DeleteKeepsOthers(db: Db, id: Id, j: Id)
    requires j != id
    ensures Single(Delete(db, Some(id), false).db.coinTxs, CoinTxId, j) == Single(db.coinTxs, CoinTxId, j)
  {
    SingleDelete(db.coinTxs, CoinTxId, id, j);
  }

  // ---------------------------------------------------------------------
  // The coin invariant: a client's cached `coin_balance` is the sum of the
  // `coins_added` of its log rows.
  // ---------------------------------------------------------------------

  function CoinSum(txs: seq<CoinTx>, id: Id): int
    decreases |txs|
  {
    if |txs| == 0 then 0
    else
      var n := |txs| - 1;
      CoinSum(txs[..n], id) + (if txs[n].clientId == id then txs[n].coinsAdded else 0)
  }

  predicate CoinsConsistent(db: Db, id: Id)
  {
    Single(db.users, UserId, id).Some? && OrZero(Single(db.users, UserId, id).value.coinBalance) == CoinSum(db.coinTxs, id)
  }

  lemma CoinSumAppend(txs: seq<CoinTx>, row: CoinTx, id: Id)
    ensures CoinSum(txs + [row], id) == CoinSum(txs, id) + (if row.clientId == id then row.coinsAdded else 0)
  {
    assert (txs + [row])[..|txs|] == txs;
  }

  /** Removing rows takes exactly their coins out of the sum. */
  lemma {:induction false} CoinSumDelete(txs: seq<CoinTx>, tid: Id, id: Id)
    ensures CoinSum(DeleteWhere(txs, CoinTxId, tid), id) == CoinSum(txs, id) - CoinSum(Where(txs, CoinTxId, tid), id)
    decreases |txs|
  {
    if |txs| > 0 {
      var n := |txs| - 1;
      var x := txs[n];
      CoinSumDelete(txs[..n], tid, id);
      var d := DeleteWhere(txs[..n], CoinTxId, tid);
      var w := Where(txs[..n], CoinTxId, tid);
      CoinSumAppend(txs[..n], x, id);
      assert txs[..n] + [x] == txs;
      if x.id == tid {
        assert DeleteWhere(txs, CoinTxId, tid) == d;
        assert Where(txs, CoinTxId, tid) == w + [x];
        CoinSumAppend(w, x, id);
      } else {
        assert DeleteWhere(txs, CoinTxId, tid) == d + [x];
        assert Where(txs, CoinTxId, tid) == w;
        CoinSumAppend(d, x, id);
      }
    }
  }

  /** On its own, a posting that adds coins leaves the client's cache behind
      its log: the endpoint relies on its caller to move the balance. */
  lemma PostAloneDrifts(db: Db, req: CoinRequest, f: CoinFaults)
    requires Post(db, req, f).response.Ok?
    requires CoinsConsistent(db, req.clientId.value)
    requires req.coinsAdded.value != 0
    ensures !CoinsConsistent(Post(db, req, f).db, req.clientId.value)
  {
    CoinSumAppend(db.coinTxs, Post(db, req, f).response.body, req.clientId.value);
  }

  /** A posting for one client leaves every other client's invariant alone. */
  lemma PostKeepsOthersConsistent(db: Db, req: CoinRequest, f: CoinFaults, j: Id)
    requires CoinsConsistent(db, j)
    requires !Valid(req) || req.clientId.value != j || req.coinsAdded.value == 0
    ensures CoinsConsistent(Post(db, req, f).db, j)
  {
    var r := Post(db, req, f);
    if r.response.Ok? {
      CoinSumAppend(db.coinTxs, r.response.body, j);
    }
  }

  /** Deleting a row removes its coins from its client's sum, and only from it. */
  lemma DeleteRemovesCoins(db: Db, t: CoinTx, j: Id)
    requires Single(db.coinTxs, CoinTxId, t.id) == Some(t)
    ensures var r := Delete(db, Some(t.id), false);
            CoinSum(r.db.coinTxs, j) == CoinSum(db.coinTxs, j) - (if t.clientId == j then t.coinsAdded else 0)
  {
    DeleteOneRow(db.coinTxs, t, j);
  }

  lemma DeleteOneRow(txs: seq<CoinTx>, t: CoinTx, j: Id)
    requires Single(txs, CoinTxId, t.id) == Some(t)
    ensures CoinSum(DeleteWhere(txs, CoinTxId, t.id), j) == CoinSum(txs, j) - (if t.clientId == j then t.coinsAdded else 0)
  {
    CoinSumDelete(txs, t.id, j);
    CoinSumAppend([], t, j);
    assert [] + [t] == [t];
  }
}
