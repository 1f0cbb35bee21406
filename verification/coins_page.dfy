/** The coin admin page: the coins earned by a purchase, the balance preview,
    and the two request sequences the page drives — a purchase (`PUT
    /api/clients` with the new balance, then `POST /api/coin-transactions`)
    and a reversal (`PUT /api/clients` with the balance minus the row's coins,
    then `DELETE /api/coin-transactions`). Each request is the handler of the
    module that models it; the page stops at the first failed request. */
module CoinsPage {
  import opened Basics
  import ClientsApi
  import CoinLedger

  /** One coin per whole 1000 spent: `Math.floor(amount / 1000)`. */
  function CoinsToAdd(amount: int): (r: int)
    ensures r * 1000 <= amount < (r + 1) * 1000
    ensures amount >= 0 ==> r >= 0
  {
    amount / 1000
  }

  /** `(selectedClient?.coin_balance || 0) + coinsToAdd`. */
  function PreviewBalance(selected: Option<Client>, amount: int): (r: int)
    ensures selected.None? ==> r == CoinsToAdd(amount)
    ensures selected.Some? ==> r - OrZero(selected.value.coinBalance) == CoinsToAdd(amount)
  {
    (if selected.Some? then OrZero(selected.value.coinBalance) else 0) + CoinsToAdd(amount)
  }

  /** A `PUT /api/clients` body that carries only `coin_balance`. */
  function CoinsOnly(balance: int): ClientsApi.ClientPatch
  {
    ClientsApi.ClientPatch(None, None, None, None, Some(balance), None)
  }

  const UpdateFailedMessage := "Error al actualizar cliente"
  const DeleteFailedMessage := "Error al eliminar transacción"

  /** The coin row the page posts for a purchase. */
  function PurchaseRequest(c: Client, amount: int): CoinLedger.CoinRequest
  {
    CoinLedger.CoinRequest(Some(c.id), c.name, Some(amount), Some(CoinsToAdd(amount)))
  }

  /** `handleSubmit`: the page's guards, then the balance write, then the log row. */
  function Submit(db: Db, selected: Option<Client>, amount: int, putFails: bool, post: CoinLedger.CoinFaults): (r: PageStep)
    ensures selected.None? ==> r == PageStep(Rejected(NoClientMessage), db, 0, [])
    ensures selected.Some? && amount <= 0 ==> r == PageStep(Rejected(BadAmountMessage), db, 0, [])
    ensures r.outcome.Rejected? <==> selected.None? || amount <= 0
    ensures r.requests == 0 <==> r.outcome.Rejected?
    // A failed balance write stops the page before the log is touched.
    ensures r.outcome == Failed(UpdateFailedMessage) ==> r.db == db && r.requests == 1
    ensures r.outcome == Failed(UpdateFailedMessage) <==>
              selected.Some? && amount > 0 && (!TruthyNum(Some(selected.value.id)) || putFails)
    // A failed insert comes after the balance has already moved.
    ensures r.outcome == Failed(PostFailedMessage) <==>
              selected.Some? && amount > 0 && TruthyNum(Some(selected.value.id)) && !putFails && post.insertFails
    ensures r.outcome == Done <==>
              selected.Some? && amount > 0 && TruthyNum(Some(selected.value.id)) && !putFails && !post.insertFails
    ensures r.outcome == Failed(PostFailedMessage) || r.outcome == Done ==>
              var c := selected.value;
              && r.requests == 2
              && |r.db.users| == |db.users|
              && (forall i :: 0 <= i < |db.users| && db.users[i].id != c.id ==> r.db.users[i] == db.users[i])
              && (forall i :: 0 <= i < |db.users| && db.users[i].id == c.id ==>
                    r.db.users[i] == db.users[i].(coinBalance := Some(PreviewBalance(selected, amount))))
              && r.db.debtTxs == db.debtTxs && r.db.sales == db.sales
    ensures r.outcome == Failed(PostFailedMessage) ==> r.db.coinTxs == db.coinTxs
    ensures r.outcome == Done ==>
              && |r.db.coinTxs| == |db.coinTxs| + 1
              && r.db.coinTxs[..|db.coinTxs|] == db.coinTxs
              && r.db.coinTxs[|db.coinTxs|] == CoinTx(db.nextId, selected.value.id, selected.value.name, amount, CoinsToAdd(amount))
  {
    if selected.None? then PageStep(Rejected(NoClientMessage), db, 0, [])
    else if amount <= 0 then PageStep(Rejected(BadAmountMessage), db, 0, [])
    else
      var c := selected.value;
      var put := ClientsApi.Put(db, Some(c.id), CoinsOnly(PreviewBalance(selected, amount)), putFails);
      if put.response.Err? then PageStep(Failed(UpdateFailedMessage), put.db, 1, [])
      else
        var log := CoinLedger.Post(put.db, PurchaseRequest(c, amount), post);
        if log.response.Err? then PageStep(Failed(PostFailedMessage), log.db, 2, [])
        else
          assert (put.db.coinTxs + [log.response.body])[..|db.coinTxs|] == db.coinTxs;
          PageStep(Done, log.db, 2, log.notices)
  }

  /** The store's `.single()` view of a client. */
  function Stored(db: Db, id: Id): Option<Client>
  {
    Single(db.users, UserId, id)
  }

  /** The client rows after the balance write of a purchase. */
  function Bumped(users: seq<Client>, c: Client, amount: int): seq<Client>
  {
    UpdateWhere(users, UserId, c.id, ClientsApi.Patch(CoinsOnly(PreviewBalance(Some(c), amount))))
  }

  /** The store a purchase leaves, by how far it got. */
  lemma SubmitStore(db: Db, c: Client, amount: int, putFails: bool, post: CoinLedger.CoinFaults)
    ensures var r := Submit(db, Some(c), amount, putFails, post);
            && (r.outcome == Failed(PostFailedMessage) ==> r.db == db.(users := Bumped(db.users, c, amount)))
            && (r.outcome == Done ==>
                  r.db == db.(users := Bumped(db.users, c, amount),
                              coinTxs := db.coinTxs + [CoinTx(db.nextId, c.id, c.name, amount, CoinsToAdd(amount))],
                              nextId := db.nextId + 1))
            && (r.outcome != Done && r.outcome != Failed(PostFailedMessage) ==> r.db == db)
  {
  }

  /** A purchase made from a fresh snapshot of the client keeps every
      client's cached balance equal to the sum of its log rows. */
  lemma SubmitKeepsCoinsConsistent(db: Db, c: Client, amount: int, putFails: bool, post: CoinLedger.CoinFaults, j: Id)
    requires Stored(db, c.id) == Some(c)
    requires CoinLedger.CoinsConsistent(db, j)
    requires Submit(db, Some(c), amount, putFails, post).outcome != Failed(PostFailedMessage)
    ensures CoinLedger.CoinsConsistent(Submit(db, Some(c), amount, putFails, post).db, j)
  {
    var r := Submit(db, Some(c), amount, putFails, post);
    SubmitStore(db, c, amount, putFails, post);
    if r.outcome == Done {
      PurchaseKeepsMatch(db, c, amount, j, r.db);
    }
  }

  /** Raising the client's balance by the coins a purchase earns while
      logging the same coins keeps a matching cache matching. */
  lemma PurchaseKeepsMatch(db: Db, c: Client, amount: int, j: Id, after: Db)
    requires Stored(db, c.id) == Some(c)
    requires CoinLedger.CoinsConsistent(db, j)
    requires after.users == Bumped(db.users, c, amount)
    requires after.coinTxs == db.coinTxs + [CoinTx(db.nextId, c.id, c.name, amount, CoinsToAdd(amount))]
    ensures CoinLedger.CoinsConsistent(after, j)
  {
    var f := ClientsApi.Patch(CoinsOnly(PreviewBalance(Some(c), amount)));
    SingleUpdate(db.users, UserId, c.id, f, j);
    CoinLedger.CoinSumAppend(db.coinTxs, CoinTx(db.nextId, c.id, c.name, amount, CoinsToAdd(amount)), j);
  }

  /** When the log insert fails after the balance write, a purchase that
      earns coins leaves the cache ahead of the log. */
  lemma FailedInsertLeavesDrift(db: Db, c: Client, amount: int, post: CoinLedger.CoinFaults)
    requires Stored(db, c.id) == Some(c)
    requires CoinLedger.CoinsConsistent(db, c.id)
    requires Submit(db, Some(c), amount, false, post).outcome == Failed(PostFailedMessage)
    requires CoinsToAdd(amount) != 0
    ensures !CoinLedger.CoinsConsistent(Submit(db, Some(c), amount, false, post).db, c.id)
  {
    SubmitStore(db, c, amount, false, post);
    var f := ClientsApi.Patch(CoinsOnly(PreviewBalance(Some(c), amount)));
    SingleUpdate(db.users, UserId, c.id, f, c.id);
  }

  /** A purchase made from a stale snapshot (another write moved the
      balance since the page loaded) overwrites that write. */
  lemma StaleSnapshotLosesUpdate(db: Db, c: Client, amount: int, post: CoinLedger.CoinFaults)
    requires Stored(db, c.id).Some? && Stored(db, c.id).value == c.(coinBalance := Stored(db, c.id).value.coinBalance)
    requires OrZero(Stored(db, c.id).value.coinBalance) != OrZero(c.coinBalance)
    requires CoinLedger.CoinsConsistent(db, c.id)
    requires Submit(db, Some(c), amount, false, post).outcome == Done
    ensures !CoinLedger.CoinsConsistent(Submit(db, Some(c), amount, false, post).db, c.id)
  {
    SubmitStore(db, c, amount, false, post);
    var s := Stored(db, c.id).value;
    var f := ClientsApi.Patch(CoinsOnly(PreviewBalance(Some(c), amount)));
    SingleUpdate(db.users, UserId, c.id, f, c.id);
    CoinLedger.CoinSumAppend(db.coinTxs, CoinTx(db.nextId, c.id, c.name, amount, CoinsToAdd(amount)), c.id);
  }

  /** `clients.find(c => c.id === id)`: the first loaded client with the id. */
  function Find(loaded: seq<Client>, id: Id): (r: Option<Client>)
    ensures r.None? <==> forall i :: 0 <= i < |loaded| ==> loaded[i].id != id
    ensures r.Some? ==> exists i :: 0 <= i < |loaded| && loaded[i] == r.value && loaded[i].id == id
                          && (forall j :: 0 <= j < i ==> loaded[j].id != id)
  {
    var w := Where(loaded, UserId, id);
    if |w| == 0 then
      assert forall i :: 0 <= i < |loaded| ==> loaded[i].id != id by {
        forall i | 0 <= i < |loaded| ensures loaded[i].id != id {
          WhereIndexAbsent(loaded, UserId, id, i);
        }
      }
      None
    else
      WhereFirst(loaded, UserId, id);
      Some(w[0])
  }

  /** The balance a reversal writes: the loaded balance (0 when absent) less
      the row's coins. */
  function Reverted(c: Client, t: CoinTx): int
  {
    OrZero(c.coinBalance) - t.coinsAdded
  }

  /** `handleConfirmDelete`: the loaded client's balance is moved back by the
      row's coins, then the row is deleted; without a loaded client the row
      is deleted alone. */
  function ConfirmDelete(db: Db, tx: Option<CoinTx>, loaded: seq<Client>, putFails: bool, deleteFails: bool): (r: PageStep)
    ensures tx.None? ==> r == PageStep(Idle, db, 0, [])
    ensures r.notices == []
    ensures r.db.coinTxs != db.coinTxs ==> r.outcome == Done
    // A failed balance write stops the reversal before the delete.
    ensures r.outcome == Failed(UpdateFailedMessage) ==> r.db == db && r.requests == 1
    ensures tx.Some? && Find(loaded, tx.value.clientId).None? ==>
              && r.db.users == db.users
              && r.requests == 1
              && (r.outcome == Done <==> !deleteFails)
    ensures tx.Some? && Find(loaded, tx.value.clientId).Some? ==>
              && (r.outcome == Failed(UpdateFailedMessage) <==> !TruthyNum(Some(Find(loaded, tx.value.clientId).value.id)) || putFails)
              && (r.outcome == Done <==> TruthyNum(Some(Find(loaded, tx.value.clientId).value.id)) && !putFails && !deleteFails)
    ensures r.outcome == Done ==>
              var t := tx.value;
              && r.db.coinTxs == DeleteWhere(db.coinTxs, CoinTxId, t.id)
              && r.db.debtTxs == db.debtTxs && r.db.sales == db.sales && r.db.nextId == db.nextId
              && |r.db.users| == |db.users|
              && (Find(loaded, t.clientId).Some? ==>
                    var c := Find(loaded, t.clientId).value;
                    forall i :: 0 <= i < |db.users| ==>
                      r.db.users[i] == (if db.users[i].id == c.id
                                        then db.users[i].(coinBalance := Some(Reverted(c, t)))
                                        else db.users[i]))
  {
    if tx.None? then PageStep(Idle, db, 0, [])
    else
      var t := tx.value;
      match Find(loaded, t.clientId)
      case None =>
        var del := CoinLedger.Delete(db, Some(t.id), deleteFails);
        if del.response.Err? then PageStep(Failed(DeleteFailedMessage), del.db, 1, [])
        else PageStep(Done, del.db, 1, [])
      case Some(c) =>
        var put := ClientsApi.Put(db, Some(c.id), CoinsOnly(Reverted(c, t)), putFails);
        if put.response.Err? then PageStep(Failed(UpdateFailedMessage), put.db, 1, [])
        else
          var del := CoinLedger.Delete(put.db, Some(t.id), deleteFails);
          if del.response.Err? then PageStep(Failed(DeleteFailedMessage), del.db, 2, [])
          else PageStep(Done, del.db, 2, [])
  }

  /** The balance the reversal writes for a loaded client. */
  function Unbumped(users: seq<Client>, c: Client, t: CoinTx): seq<Client>
  {
    UpdateWhere(users, UserId, c.id, ClientsApi.Patch(CoinsOnly(Reverted(c, t))))
  }

  /** The store a reversal leaves, by how far it got. */
  lemma ConfirmStore(db: Db, t: CoinTx, loaded: seq<Client>, putFails: bool, deleteFails: bool)
    ensures var r := ConfirmDelete(db, Some(t), loaded, putFails, deleteFails);
            && (r.outcome == Done && Find(loaded, t.clientId).Some? ==>
                  r.db == db.(users := Unbumped(db.users, Find(loaded, t.clientId).value, t),
                              coinTxs := DeleteWhere(db.coinTxs, CoinTxId, t.id)))
            && (r.outcome == Done && Find(loaded, t.clientId).None? ==>
                  r.db == db.(coinTxs := DeleteWhere(db.coinTxs, CoinTxId, t.id)))
            && (r.outcome == Failed(DeleteFailedMessage) && Find(loaded, t.clientId).Some? ==>
                  r.db == db.(users := Unbumped(db.users, Find(loaded, t.clientId).value, t)))
            && (r.outcome != Done && (r.outcome != Failed(DeleteFailedMessage) || Find(loaded, t.clientId).None?) ==>
                  r.db == db)
  {
  }

  /** Writing a coins-only body to one client changes `.single()` for that
      client only, and only in its balance. */
  lemma SetCoinsSingle(users: seq<Client>, c: Client, b: int, j: Id)
    requires Single(users, UserId, c.id) == Some(c)
    ensures Single(UpdateWhere(users, UserId, c.id, ClientsApi.Patch(CoinsOnly(b))), UserId, j) ==
              (if j == c.id then Some(c.(coinBalance := Some(b))) else Single(users, UserId, j))
  {
    PatchCoinsOnly(b);
    SingleUpdate(users, UserId, c.id, ClientsApi.Patch(CoinsOnly(b)), j);
  }

  /** Moving a client's balance back by a row's coins and deleting that row
      keeps every client's cache equal to its log sum. */
  lemma UnbumpKeepsConsistent(db: Db, c: Client, t: CoinTx, j: Id)
    requires Single(db.coinTxs, CoinTxId, t.id) == Some(t)
    requires Stored(db, t.clientId) == Some(c)
    requires CoinLedger.CoinsConsistent(db, j)
    ensures CoinLedger.CoinsConsistent(db.(users := Unbumped(db.users, c, t), coinTxs := DeleteWhere(db.coinTxs, CoinTxId, t.id)), j)
  {
    assert c.id == t.clientId;
    SetCoinsSingle(db.users, c, Reverted(c, t), j);
    CoinLedger.DeleteOneRow(db.coinTxs, t, j);
  }

  /** A coins-only body sets the balance and keeps every other column. */
  lemma PatchCoinsOnly(b: int)
    ensures forall x: Client :: ClientsApi.Patch(CoinsOnly(b))(x) == x.(coinBalance := Some(b))
    ensures KeepsKey(UserId, ClientsApi.Patch(CoinsOnly(b)))
  {
  }

  /** With a fresh list of clients, a completed reversal keeps every client's
      cached balance equal to the sum of its log rows. */
  lemma ReversalKeepsCoinsConsistent(db: Db, t: CoinTx, j: Id)
    requires Single(db.coinTxs, CoinTxId, t.id) == Some(t)
    requires CoinLedger.CoinsConsistent(db, j)
    requires Stored(db, t.clientId).Some?
    ensures CoinLedger.CoinsConsistent(ConfirmDelete(db, Some(t), db.users, false, false).db, j)
  {
    var c := Stored(db, t.clientId).value;
    SingleFind(db.users, c);
    ConfirmStore(db, t, db.users, false, false);
    UnbumpKeepsConsistent(db, c, t, j);
  }

  /** A client stored exactly once is also the one `find` picks. */
  lemma SingleFind(users: seq<Client>, c: Client)
    requires Single(users, UserId, c.id) == Some(c)
    ensures Find(users, c.id) == Some(c)
  {
  }

  /** A purchase followed, with nothing in between, by the reversal of the row
      it posted gives back the log and the client's balance (an absent
      balance comes back as 0); nothing else about the client changes. */
  lemma PurchaseThenReversalRestores(db: Db, c: Client, amount: int)
    requires Stored(db, c.id) == Some(c)
    requires IdsBelow(db)
    requires Submit(db, Some(c), amount, false, CoinLedger.NoFaults).outcome == Done
    ensures var mid := Submit(db, Some(c), amount, false, CoinLedger.NoFaults).db;
            var t := mid.coinTxs[|db.coinTxs|];
            var r := ConfirmDelete(mid, Some(t), mid.users, false, false);
            && r.outcome == Done
            && r.db.coinTxs == db.coinTxs
            && |r.db.users| == |db.users|
            && (forall i :: 0 <= i < |db.users| ==>
                  r.db.users[i] == (if db.users[i].id == c.id
                                    then db.users[i].(coinBalance := Some(OrZero(c.coinBalance)))
                                    else db.users[i]))
  {
    SubmitStore(db, c, amount, false, CoinLedger.NoFaults);
    var t := CoinTx(db.nextId, c.id, c.name, amount, CoinsToAdd(amount));
    assert (db.coinTxs + [t])[|db.coinTxs|] == t;
    ReverseAfterPurchase(db, c, amount);
    SetCoinsTwice(db.users, c.id, PreviewBalance(Some(c), amount), OrZero(c.coinBalance));
  }

  /** The reversal step of the round trip, on the store the purchase leaves. */
  lemma ReverseAfterPurchase(db: Db, c: Client, amount: int)
    requires Stored(db, c.id) == Some(c)
    requires c.id != 0
    requires IdsBelow(db)
    ensures var t := CoinTx(db.nextId, c.id, c.name, amount, CoinsToAdd(amount));
            var mid := db.(users := Bumped(db.users, c, amount), coinTxs := db.coinTxs + [t], nextId := db.nextId + 1);
            var r := ConfirmDelete(mid, Some(t), mid.users, false, false);
            && r.outcome == Done
            && r.db.coinTxs == db.coinTxs
            && r.db.users == UpdateWhere(Bumped(db.users, c, amount), UserId, c.id, ClientsApi.Patch(CoinsOnly(OrZero(c.coinBalance))))
  {
    var t := CoinTx(db.nextId, c.id, c.name, amount, CoinsToAdd(amount));
    var mid := db.(users := Bumped(db.users, c, amount), coinTxs := db.coinTxs + [t], nextId := db.nextId + 1);
    var preview := PreviewBalance(Some(c), amount);
    var f := ClientsApi.Patch(CoinsOnly(preview));
    SingleUpdate(db.users, UserId, c.id, f, c.id);
    var c' := c.(coinBalance := Some(preview));
    assert f(c) == c';
    SingleFind(mid.users, c');
    ConfirmStore(mid, t, mid.users, false, false);
    DeleteLastAppended(db.coinTxs, t, CoinTxId);
    assert Reverted(c', t) == OrZero(c.coinBalance);
  }

  /** Two coins-only writes to one client: the second balance is what stays. */
  lemma SetCoinsTwice(users: seq<Client>, id: Id, b1: int, b2: int)
    ensures var u := UpdateWhere(UpdateWhere(users, UserId, id, ClientsApi.Patch(CoinsOnly(b1))),
                                 UserId, id, ClientsApi.Patch(CoinsOnly(b2)));
            && |u| == |users|
            && forall i :: 0 <= i < |users| ==>
                 u[i] == (if users[i].id == id then users[i].(coinBalance := Some(b2)) else users[i])
  {
    PatchCoinsOnly(b1);
    PatchCoinsOnly(b2);
  }
}
