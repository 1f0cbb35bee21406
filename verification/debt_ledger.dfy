/** The running-account (debt) ledger: `POST` and `DELETE` of
    `/api/debt-transactions`. A posting reads the client's cached
    `debt_balance`, appends a row whose `balance_after` is the new balance,
    writes the new balance back, mirrors a payment into `sales` and notifies
    the client. Only the validation, the client lookup and the row insert can
    fail the request; the balance write, the mirrored sale and the
    notification fail silently. */
module DebtLedger {
  import opened Basics
  import Text

  /** The JSON body of a posting, fields absent when not supplied. */
  datatype DebtRequest = DebtRequest(
    clientId: Option<Id>,
    clientName: Option<string>,
    amount: Option<int>,
    kind: Option<string>,
    notes: Option<string>,
    branch: Option<string>)

  /** Which store calls fail during one posting. */
  datatype DebtFaults = DebtFaults(lookupFails: bool, insertFails: bool, updateFails: bool, saleFails: bool)

  const NoFaults := DebtFaults(false, false, false, false)

  /** The success payload: the inserted row and `newBalance`. */
  datatype Posted = Posted(row: DebtTx, newBalance: int)

  /** The fields a posting needs, once validated. */
  datatype Checked = Checked(clientId: Id, amount: int, kind: TxType)

  function ParseKind(s: string): (r: Option<TxType>)
    ensures r == Some(Charge) <==> s == "charge"
    ensures r == Some(Payment) <==> s == "payment"
  {
    if s == "charge" then Some(Charge)
    else if s == "payment" then Some(Payment)
    else None
  }

  /** The two 400 checks: `client_id`, `amount` and `transaction_type` must be
      truthy (so an amount of 0 counts as missing), and the type must be
      `charge` or `payment`. */
  function Validate(req: DebtRequest): (r: Option<Checked>)
    ensures r.Some? <==>
              TruthyNum(req.clientId) && TruthyNum(req.amount) && TruthyStr(req.kind)
              && (req.kind.value == "charge" || req.kind.value == "payment")
    ensures r.Some? ==> r.value.clientId == req.clientId.value && r.value.amount == req.amount.value
    ensures r.Some? ==> r.value.amount != 0
    ensures r.Some? ==> (r.value.kind == Charge <==> req.kind.value == "charge")
  {
    if !TruthyNum(req.clientId) || !TruthyNum(req.amount) || !TruthyStr(req.kind) then None
    else
      match ParseKind(req.kind.value)
      case None => None
      case Some(kind) => Some(Checked(req.clientId.value, req.amount.value, kind))
  }

  /** The effect of one row on the running balance. */
  function Signed(kind: TxType, amount: int): int
  {
    if kind == Charge then amount else -amount
  }

  /** The balance after applying a row, never clamped: a charge raises the
      debt by the amount and a payment lowers it by the amount. */
  function NextBalance(current: int, kind: TxType, amount: int): (r: int)
    ensures kind == Charge ==> r == current + amount
    ensures kind == Payment ==> r == current - amount
  {
    current + Signed(kind, amount)
  }

  /** The other kind of row. */
  function Opposite(kind: TxType): (r: TxType)
    ensures r != kind
  {
    if kind == Charge then Payment else Charge
  }

  /** A row of the opposite kind and the same amount undoes a row. */
  lemma NextBalanceUndo(current: int, kind: TxType, amount: int)
    ensures NextBalance(NextBalance(current, kind, amount), Opposite(kind), amount) == current
  {
  }

  /** A payment larger than the balance overdraws it. */
  lemma OverpaymentGoesNegative(current: int, amount: int)
    requires amount > current
    ensures NextBalance(current, Payment, amount) < 0
  {
  }

  /** `notes || (branch ? "Sucursal: " + branch : null)`. */
  function StoredNotes(notes: Option<string>, branch: Option<string>): (r: Option<string>)
    ensures TruthyStr(notes) ==> r == notes
    ensures !TruthyStr(notes) && TruthyStr(branch) ==> r == Some("Sucursal: " + branch.value)
    ensures !TruthyStr(notes) && !TruthyStr(branch) ==> r.None?
  {
    if TruthyStr(notes) then notes
    else if TruthyStr(branch) then Some("Sucursal: " + branch.value)
    else None
  }

  /** A value interpolated into a template string (`undefined` when absent). */
  function Shown(o: Option<string>): string
  {
    if o.Some? then o.value else "undefined"
  }

  /** The income row a payment is mirrored as. */
  function MirrorSale(id: Id, amount: int, req: DebtRequest): (r: Sale)
    ensures r.amount == amount
    ensures r.branch == StrOr(req.branch, "Rawson")
  {
    Sale(id, amount, StrOr(req.branch, "Rawson"),
         Text.Trim("PAGO CTA CTE - " + Shown(req.clientName) + " - " + StrOr(req.notes, "")))
  }

  /** Sets the cached debt balance of a client row. */
  function SetDebt(balance: int): Client -> Client
  {
    (c: Client) => c.(debtBalance := Some(balance))
  }

  /** `.eq('id', client_id).single()`: the one client with the id, or
      nothing when none or several carry it. */
  function Lookup(db: Db, id: Id): (r: Option<Client>)
    ensures r.Some? ==> r.value in db.users && r.value.id == id
    ensures r.Some? <==> |Where(db.users, UserId, id)| == 1
  {
    Single(db.users, UserId, id)
  }

  /** `POST /api/debt-transactions`. */
  function Post(db: Db, req: DebtRequest, f: DebtFaults): (r: Step<Posted>)
    // Rejections come before any store access and leave the store untouched.
    ensures Validate(req).None? ==> r == Step(Err(BadRequest), db, [])
    ensures r.response.Err? ==> r.db == db && r.notices == []
    ensures r.response == Err(NotFound) <==>
              Validate(req).Some? && (f.lookupFails || Lookup(db, req.clientId.value).None?)
    ensures r.response.Ok? <==>
              Validate(req).Some? && !f.lookupFails && Lookup(db, req.clientId.value).Some? && !f.insertFails
    ensures Validate(req).Some? && !f.lookupFails && Lookup(db, req.clientId.value).Some? && f.insertFails ==>
              r.response == Err(ServerError)
    // A successful posting: one row appended, carrying the new balance.
    ensures r.response.Ok? ==>
              var c := Lookup(db, req.clientId.value).value;
              var p := r.response.body;
              && p.row.clientId == req.clientId.value
              && p.row.amount == req.amount.value
              && (p.row.kind == Charge <==> req.kind.value == "charge")
              && p.newBalance == OrZero(c.debtBalance) + Signed(p.row.kind, p.row.amount)
              && p.row.balanceAfter == p.newBalance
              && p.row.notes == StoredNotes(req.notes, req.branch)
              && p.row.id == db.nextId
              && r.db.debtTxs == db.debtTxs + [p.row]
              && r.db.coinTxs == db.coinTxs
              && r.db.posTxs == db.posTxs
              && r.db.nextId > db.nextId
              && (f.updateFails ==> r.db.users == db.users)
              && (!f.updateFails ==> r.db.users == UpdateWhere(db.users, UserId, c.id, SetDebt(p.newBalance)))
              && (p.row.kind == Charge || f.saleFails ==> r.db.sales == db.sales)
              && (p.row.kind == Payment && !f.saleFails ==>
                    && |r.db.sales| == |db.sales| + 1
                    && r.db.sales[..|db.sales|] == db.sales
                    && r.db.sales[|db.sales|].amount == p.row.amount
                    && r.db.sales[|db.sales|].branch == StrOr(req.branch, "Rawson"))
              && r.notices == (if TruthyStr(c.phone)
                               then [DebtNotice(req.clientName, p.row.amount, p.newBalance, p.row.kind, c.phone.value)]
                               else [])
  {
    match Validate(req)
    case None => Step(Err(BadRequest), db, [])
    case Some(v) =>
      var found := Lookup(db, v.clientId);
      if f.lookupFails || found.None? then Step(Err(NotFound), db, [])
      else if f.insertFails then Step(Err(ServerError), db, [])
      else
        var client := found.value;
        var balance := NextBalance(OrZero(client.debtBalance), v.kind, v.amount);
        var row := DebtTx(db.nextId, v.clientId, req.clientName, v.amount, v.kind, balance,
                          StoredNotes(req.notes, req.branch));
        var users := if f.updateFails then db.users else UpdateWhere(db.users, UserId, v.clientId, SetDebt(balance));
        var sales := if v.kind == Payment && !f.saleFails
                     then db.sales + [MirrorSale(db.nextId + 1, v.amount, req)]
                     else db.sales;
        var notices := if TruthyStr(client.phone)
                       then [DebtNotice(req.clientName, v.amount, balance, v.kind, client.phone.value)]
                       else [];
        Step(Ok(Posted(row, balance)),
             db.(users := users, debtTxs := db.debtTxs + [row], sales := sales, nextId := db.nextId + 2),
             notices)
  }

  /** The balance write and the mirrored sale never change the answer. */
  lemma SideEffectFailuresAreSilent(db: Db, req: DebtRequest, f: DebtFaults)
    ensures Post(db, req, f).response == Post(db, req, f.(updateFails := false, saleFails := false)).response
  {
  }

  /** `DELETE /api/debt-transactions?id=`: removes the row and nothing else. */
  function Delete(db: Db, id: Option<Id>, fails: bool): (r: Step<()>)
    ensures id.None? ==> r == Step(Err(BadRequest), db, [])
    ensures id.Some? && fails ==> r == Step(Err(ServerError), db, [])
    ensures id.Some? && !fails ==> r.response.Ok?
    ensures r.db.users == db.users && r.db.sales == db.sales && r.db.coinTxs == db.coinTxs
    ensures r.db.posTxs == db.posTxs && r.db.nextId == db.nextId
    ensures r.response.Ok? ==>
              && r.db.debtTxs == DeleteWhere(db.debtTxs, DebtTxId, id.value)
              && (forall t :: t in r.db.debtTxs ==> t.id != id.value)
  {
    if id.None? then Step(Err(BadRequest), db, [])
    else if fails then Step(Err(ServerError), db, [])
    else Step(Ok(()), db.(debtTxs := DeleteWhere(db.debtTxs, DebtTxId, id.value)), [])
  }

  // ---------------------------------------------------------------------
  // The ledger invariant: the cached balance is the last `balance_after`
  // of the client's rows, and every row's `balance_after` is the previous
  // one plus its signed amount (starting from 0).
  // ---------------------------------------------------------------------

  /** Charges minus payments over the client's rows. */
  function DebtSum(txs: seq<DebtTx>, id: Id): int
    decreases |txs|
  {
    if |txs| == 0 then 0
    else
      var n := |txs| - 1;
      DebtSum(txs[..n], id) + (if txs[n].clientId == id then Signed(txs[n].kind, txs[n].amount) else 0)
  }

  /** The `balance_after` of the client's most recent row. */
  function LastAfter(txs: seq<DebtTx>, id: Id): Option<int>
    decreases |txs|
  {
    if |txs| == 0 then None
    else
      var n := |txs| - 1;
      if txs[n].clientId == id then Some(txs[n].balanceAfter) else LastAfter(txs[..n], id)
  }

  /** Each of the client's rows records the balance its predecessor left, moved by its own amount. */
  predicate ChainOk(txs: seq<DebtTx>, id: Id)
    decreases |txs|
  {
    if |txs| == 0 then true
    else
      var n := |txs| - 1;
      && ChainOk(txs[..n], id)
      && (txs[n].clientId == id ==>
            txs[n].balanceAfter == NextBalance(OrZero(LastAfter(txs[..n], id)), txs[n].kind, txs[n].amount))
  }

  /** The client's cached balance agrees with its audit trail. */
  predicate DebtConsistent(db: Db, id: Id)
  {
    && Lookup(db, id).Some?
    && OrZero(Lookup(db, id).value.debtBalance) == OrZero(LastAfter(db.debtTxs, id))
    && ChainOk(db.debtTxs, id)
  }

  /** The client's cached balance is the signed sum of its rows. */
  predicate CacheMatchesSum(db: Db, id: Id)
  {
    Lookup(db, id).Some? && OrZero(Lookup(db, id).value.debtBalance) == DebtSum(db.debtTxs, id)
  }

  /** A well-formed audit trail ends at the signed sum of its rows: the two
      readings of the ledger invariant agree. */
  lemma {:induction false} ChainEndsAtSum(txs: seq<DebtTx>, id: Id)
    requires ChainOk(txs, id)
    ensures OrZero(LastAfter(txs, id)) == DebtSum(txs, id)
    decreases |txs|
  {
    if |txs| > 0 {
      ChainEndsAtSum(txs[..|txs| - 1], id);
    }
  }

  lemma ConsistentMatchesSum(db: Db, id: Id)
    requires DebtConsistent(db, id)
    ensures CacheMatchesSum(db, id)
  {
    ChainEndsAtSum(db.debtTxs, id);
  }

  lemma AppendRow(txs: seq<DebtTx>, row: DebtTx, id: Id)
    ensures (txs + [row])[..|txs|] == txs
    ensures DebtSum(txs + [row], id) == DebtSum(txs, id) + (if row.clientId == id then Signed(row.kind, row.amount) else 0)
    ensures LastAfter(txs + [row], id) == (if row.clientId == id then Some(row.balanceAfter) else LastAfter(txs, id))
    ensures ChainOk(txs + [row], id) <==>
              ChainOk(txs, id)
              && (row.clientId == id ==> row.balanceAfter == NextBalance(OrZero(LastAfter(txs, id)), row.kind, row.amount))
  {
    assert (txs + [row])[..|txs|] == txs;
  }

  /** A posting keeps every client's ledger consistent, except that a failed
      balance write leaves the posted client's cache behind its audit trail. */
  lemma PostKeepsLedgerConsistent(db: Db, req: DebtRequest, f: DebtFaults, j: Id)
    requires DebtConsistent(db, j)
    ensures var r := Post(db, req, f);
            !(r.response.Ok? && f.updateFails && j == req.clientId.value) ==> DebtConsistent(r.db, j)
  {
    var r := Post(db, req, f);
    if r.response.Ok? {
      var id := req.clientId.value;
      var p := r.response.body;
      AppendRow(db.debtTxs, p.row, j);
      if !f.updateFails {
        SingleUpdate(db.users, UserId, id, SetDebt(p.newBalance), j);
      }
    }
  }

  /** When the balance write fails after the row was appended, the cache
      no longer equals the last `balance_after` (the amount is never 0). */
  lemma FailedBalanceWriteLeavesDrift(db: Db, req: DebtRequest, f: DebtFaults)
    requires Post(db, req, f).response.Ok? && f.updateFails
    requires DebtConsistent(db, req.clientId.value)
    ensures var r := Post(db, req, f);
            var id := req.clientId.value;
            && Lookup(r.db, id) == Lookup(db, id)
            && OrZero(Lookup(r.db, id).value.debtBalance) != OrZero(LastAfter(r.db.debtTxs, id))
  {
    var r := Post(db, req, f);
    AppendRow(db.debtTxs, r.response.body.row, req.clientId.value);
  }

  /** What one fault-free posting does to its client: the cache and the
      audit-trail sum both move by the row's signed amount. */
  lemma PostMovesClient(db: Db, req: DebtRequest, f: DebtFaults)
    requires Validate(req).Some? && Lookup(db, req.clientId.value).Some?
    requires !f.lookupFails && !f.insertFails && !f.updateFails
    ensures var r := Post(db, req, f);
            var id := req.clientId.value;
            var delta := Signed(Validate(req).value.kind, req.amount.value);
            && r.response.Ok?
            && Lookup(r.db, id).Some?
            && Lookup(r.db, id).value.debtBalance == Some(OrZero(Lookup(db, id).value.debtBalance) + delta)
            && DebtSum(r.db.debtTxs, id) == DebtSum(db.debtTxs, id) + delta
  {
    var r := Post(db, req, f);
    var id := req.clientId.value;
    SingleUpdate(db.users, UserId, id, SetDebt(r.response.body.newBalance), id);
    AppendRow(db.debtTxs, r.response.body.row, id);
  }

  /** Posting a charge and then a payment of the same amount for the same
      client brings its cached balance back to where it started and leaves
      its audit-trail sum unchanged. */
  lemma ChargeThenPaymentCancel(db: Db, req: DebtRequest, f: DebtFaults)
    requires Validate(req).Some? && req.kind == Some("charge") && Lookup(db, req.clientId.value).Some?
    requires !f.lookupFails && !f.insertFails && !f.updateFails
    ensures var r1 := Post(db, req, f);
            var r2 := Post(r1.db, req.(kind := Some("payment")), f);
            var id := req.clientId.value;
            && r2.response.Ok?
            && Lookup(r2.db, id).Some?
            && Lookup(r2.db, id).value.debtBalance == Some(OrZero(Lookup(db, id).value.debtBalance))
            && DebtSum(r2.db.debtTxs, id) == DebtSum(db.debtTxs, id)
  {
    var id, a := req.clientId.value, req.amount.value;
    var b0 := OrZero(Lookup(db, id).value.debtBalance);
    var s0 := DebtSum(db.debtTxs, id);
    var r1 := Post(db, req, f);
    assert r1.response.Ok? && Lookup(r1.db, id).Some? && Lookup(r1.db, id).value.debtBalance == Some(b0 + a)
           && DebtSum(r1.db.debtTxs, id) == s0 + a by {
      PostMovesClient(db, req, f);
      assert Validate(req).value.kind == Charge;
    }
    var pay := req.(kind := Some("payment"));
    var r2 := Post(r1.db, pay, f);
    assert r2.response.Ok? && Lookup(r2.db, id).Some? && Lookup(r2.db, id).value.debtBalance == Some(b0)
           && DebtSum(r2.db.debtTxs, id) == s0 by {
      assert Validate(pay).Some? && Validate(pay).value.kind == Payment;
      PostMovesClient(r1.db, pay, f);
    }
  }

  /** Deleting rows removes exactly their signed amounts from the sum. */
  lemma {:induction false} DebtSumDelete(txs: seq<DebtTx>, tid: Id, id: Id)
    ensures DebtSum(DeleteWhere(txs, DebtTxId, tid), id) == DebtSum(txs, id) - DebtSum(Where(txs, DebtTxId, tid), id)
    decreases |txs|
  {
    if |txs| > 0 {
      var n := |txs| - 1;
      var x := txs[n];
      DebtSumDelete(txs[..n], tid, id);
      var d := DeleteWhere(txs[..n], DebtTxId, tid);
      var w := Where(txs[..n], DebtTxId, tid);
      AppendRow(txs[..n], x, id);
      assert txs[..n] + [x] == txs;
      if x.id == tid {
        assert DeleteWhere(txs, DebtTxId, tid) == d;
        assert Where(txs, DebtTxId, tid) == w + [x];
        AppendRow(w, x, id);
      } else {
        assert DeleteWhere(txs, DebtTxId, tid) == d + [x];
        assert Where(txs, DebtTxId, tid) == w;
        AppendRow(d, x, id);
      }
    }
  }

  /** As written, deleting a row of a client whose cache matched its rows
      leaves the cache untouched, so it no longer matches. */
  lemma DeleteLeavesBalanceStale(db: Db, t: DebtTx)
    requires CacheMatchesSum(db, t.clientId)
    requires Single(db.debtTxs, DebtTxId, t.id) == Some(t)
    requires t.amount != 0
    ensures var r := Delete(db, Some(t.id), false);
            r.response.Ok? && Lookup(r.db, t.clientId) == Lookup(db, t.clientId) && !CacheMatchesSum(r.db, t.clientId)
  {
    DebtSumDelete(db.debtTxs, t.id, t.clientId);
    AppendRow([], t, t.clientId);
  }

  /** Reversal as it is evidently intended: the row's signed amount is taken
      back out of the client's cached balance and the row is removed, as one
      unit; an unknown row or client is a 404 and a store failure changes nothing. */
  function Reverse(db: Db, id: Option<Id>, fails: bool): (r: Step<()>)
    ensures id.None? ==> r == Step(Err(BadRequest), db, [])
    ensures r.response.Err? ==> r.db == db
    ensures r.response.Ok? <==>
              id.Some? && !fails && Single(db.debtTxs, DebtTxId, id.value).Some?
              && Lookup(db, Single(db.debtTxs, DebtTxId, id.value).value.clientId).Some?
    ensures r.response.Ok? ==>
              var t := Single(db.debtTxs, DebtTxId, id.value).value;
              var c := Lookup(db, t.clientId).value;
              && r.db.debtTxs == DeleteWhere(db.debtTxs, DebtTxId, id.value)
              && r.db.users == UpdateWhere(db.users, UserId, c.id,
                                           SetDebt(OrZero(c.debtBalance) - Signed(t.kind, t.amount)))
              && r.db.sales == db.sales && r.db.coinTxs == db.coinTxs
    ensures r.db.posTxs == db.posTxs && r.db.nextId == db.nextId
  {
    if id.None? then Step(Err(BadRequest), db, [])
    else
      match Single(db.debtTxs, DebtTxId, id.value)
      case None => Step(Err(NotFound), db, [])
      case Some(t) =>
        match Lookup(db, t.clientId)
        case None => Step(Err(NotFound), db, [])
        case Some(c) =>
          if fails then Step(Err(ServerError), db, [])
          else
            var balance := OrZero(c.debtBalance) - Signed(t.kind, t.amount);
            Step(Ok(()), db.(users := UpdateWhere(db.users, UserId, c.id, SetDebt(balance)),
                             debtTxs := DeleteWhere(db.debtTxs, DebtTxId, id.value)), [])
  }

  /** The corrected reversal keeps every client's cache equal to the sum of its rows. */
  lemma ReverseKeepsCacheMatchingSum(db: Db, id: Option<Id>, fails: bool, j: Id)
    requires CacheMatchesSum(db, j)
    ensures CacheMatchesSum(Reverse(db, id, fails).db, j)
  {
    var r := Reverse(db, id, fails);
    if r.response.Ok? {
      var t := Single(db.debtTxs, DebtTxId, id.value).value;
      var c := Lookup(db, t.clientId).value;
      RemoveRowKeepsMatch(db, t, c, j, r.db);
    }
  }

  /** Taking one row out together with its signed amount keeps a matching
      cache matching. */
  lemma RemoveRowKeepsMatch(db: Db, t: DebtTx, c: Client, j: Id, after: Db)
    requires Single(db.debtTxs, DebtTxId, t.id) == Some(t)
    requires Lookup(db, t.clientId) == Some(c)
    requires CacheMatchesSum(db, j)
    requires after.users == UpdateWhere(db.users, UserId, c.id, SetDebt(OrZero(c.debtBalance) - Signed(t.kind, t.amount)))
    requires after.debtTxs == DeleteWhere(db.debtTxs, DebtTxId, t.id)
    ensures CacheMatchesSum(after, j)
  {
    DeleteOneRow(db.debtTxs, t, j, after.debtTxs);
    SetDebtLookup(db.users, c, OrZero(c.debtBalance) - Signed(t.kind, t.amount), j, after.users);
  }

  /** Deleting the one row with an id takes its signed amount out of the sum. */
  lemma DeleteOneRow(txs: seq<DebtTx>, t: DebtTx, j: Id, txs': seq<DebtTx>)
    requires Single(txs, DebtTxId, t.id) == Some(t)
    requires txs' == DeleteWhere(txs, DebtTxId, t.id)
    ensures DebtSum(txs', j) == DebtSum(txs, j) - (if t.clientId == j then Signed(t.kind, t.amount) else 0)
  {
    DebtSumDelete(txs, t.id, j);
    assert Where(txs, DebtTxId, t.id) == [t];
    AppendRow([], t, j);
    assert [] + [t] == [t];
  }

  /** Setting the cached balance of the one client with an id changes only
      that client's lookup. */
  lemma SetDebtLookup(users: seq<Client>, c: Client, balance: int, j: Id, users': seq<Client>)
    requires Single(users, UserId, c.id) == Some(c)
    requires users' == UpdateWhere(users, UserId, c.id, SetDebt(balance))
    ensures j == c.id ==> Single(users', UserId, j) == Some(c.(debtBalance := Some(balance)))
    ensures j != c.id ==> Single(users', UserId, j) == Single(users, UserId, j)
  {
    SingleUpdate(users, UserId, c.id, SetDebt(balance), j);
  }
}
