/** The running-account admin page: the client search box and its
    suggestions, the balance preview shown before a posting, and the submit
    handler that posts one row to `/api/debt-transactions`. */
module DebtPage {
  import opened Basics
  import Text
  import DebtLedger

  /** The search filter: the lower-cased name contains the lower-cased term,
      or the phone contains the term as typed. A client without a name or
      phone cannot match on it. */
  predicate Matches(c: Client, term: string)
  {
    || (c.name.Some? && Text.Contains(Text.Lower(c.name.value), Text.Lower(term)))
    || (c.phone.Some? && Text.Contains(c.phone.value, term))
  }

  /** `clients.filter(...)`: the matching clients, in list order. */
  function Filtered(clients: seq<Client>, term: string): (r: seq<Client>)
    ensures |r| <= |clients|
    ensures forall i :: 0 <= i < |r| ==> Matches(r[i], term)
    ensures forall i :: 0 <= i < |clients| && Matches(clients[i], term) ==> clients[i] in r
    decreases |clients|
  {
    if |clients| == 0 then []
    else
      var n := |clients| - 1;
      Filtered(clients[..n], term) + (if Matches(clients[n], term) then [clients[n]] else [])
  }

  /** Every suggestion is one of the loaded clients (stated apart from
      `Filtered` so that its two membership directions are never both in scope). */
  lemma {:induction false} FilteredFromClients(clients: seq<Client>, term: string)
    ensures forall i :: 0 <= i < |Filtered(clients, term)| ==> Filtered(clients, term)[i] in clients
    decreases |clients|
  {
    if |clients| > 0 {
      var n := |clients| - 1;
      FilteredFromClients(clients[..n], term);
      var w := Filtered(clients[..n], term);
      forall i | 0 <= i < |w| ensures w[i] in clients {
        assert w[i] in clients[..n];
      }
    }
  }

  /** The positions of the matching clients, in increasing order. */
  function MatchIndexes(clients: seq<Client>, term: string): (r: seq<int>)
    ensures forall k :: 0 <= k < |r| ==> 0 <= r[k] < |clients| && Matches(clients[r[k]], term)
    ensures forall k, l :: 0 <= k < l < |r| ==> r[k] < r[l]
    ensures forall i :: 0 <= i < |clients| && Matches(clients[i], term) ==> i in r
    decreases |clients|
  {
    if |clients| == 0 then []
    else
      var n := |clients| - 1;
      var w := MatchIndexes(clients[..n], term);
      assert forall k :: 0 <= k < |w| ==> clients[w[k]] == clients[..n][w[k]];
      assert forall i :: 0 <= i < n ==> clients[i] == clients[..n][i];
      w + (if Matches(clients[n], term) then [n] else [])
  }

  /** The filter keeps the matching clients in list order: its k-th
      suggestion is the client at the k-th matching position. */
  lemma {:induction false} FilteredInOrder(clients: seq<Client>, term: string)
    ensures |Filtered(clients, term)| == |MatchIndexes(clients, term)|
    ensures forall k :: 0 <= k < |MatchIndexes(clients, term)| ==>
              Filtered(clients, term)[k] == clients[MatchIndexes(clients, term)[k]]
    decreases |clients|
  {
    if |clients| > 0 {
      var n := |clients| - 1;
      FilteredInOrder(clients[..n], term);
      var w, idx := Filtered(clients[..n], term), MatchIndexes(clients[..n], term);
      forall k | 0 <= k < |idx| ensures w[k] == clients[idx[k]] {
        assert clients[..n][idx[k]] == clients[idx[k]];
      }
    }
  }

  /** The filter is empty exactly when no loaded client matches. */
  lemma FilteredEmptyIff(clients: seq<Client>, term: string)
    ensures |Filtered(clients, term)| == 0 <==> forall i :: 0 <= i < |clients| ==> !Matches(clients[i], term)
  {
    if |Filtered(clients, term)| > 0 {
      FilteredFromClients(clients, term);
      var c := Filtered(clients, term)[0];
      assert c in clients;
      var i :| 0 <= i < |clients| && clients[i] == c;
      assert Matches(clients[i], term);
    }
  }

  /** When every client matches, the filter keeps the whole list. */
  lemma {:induction false} FilteredKeepsAll(clients: seq<Client>, term: string)
    requires forall i :: 0 <= i < |clients| ==> Matches(clients[i], term)
    ensures Filtered(clients, term) == clients
    decreases |clients|
  {
    if |clients| > 0 {
      var n := |clients| - 1;
      FilteredKeepsAll(clients[..n], term);
      assert clients[..n] + [clients[n]] == clients;
    }
  }

  /** The empty term matches exactly the clients that have a name or a phone. */
  lemma EmptyTermMatches(c: Client)
    ensures Matches(c, "") <==> c.name.Some? || c.phone.Some?
  {
    assert Text.Lower("") == "";
    if c.name.Some? {
      Text.ContainsEmpty(Text.Lower(c.name.value));
    }
    if c.phone.Some? {
      Text.ContainsEmpty(c.phone.value);
    }
  }

  /** On the name, the search ignores the case of the term. */
  lemma NameSearchIgnoresCase(c: Client, term: string)
    requires c.phone.None?
    ensures Matches(c, term) <==> Matches(c, Text.Lower(term))
  {
    Text.LowerIdempotent(term);
  }

  const MaxSuggestions := 10

  /** The drop-down under the search box: shown only while no client is
      selected and the term is not empty, with the first ten matches. */
  function Suggestions(clients: seq<Client>, term: string, selected: Option<Client>): (r: seq<Client>)
    ensures |r| <= MaxSuggestions
    ensures r <= Filtered(clients, term)
    ensures selected.Some? || term == "" ==> r == []
    ensures selected.None? && term != "" ==>
              |r| == (if |Filtered(clients, term)| < MaxSuggestions then |Filtered(clients, term)| else MaxSuggestions)
  {
    var f := Filtered(clients, term);
    if selected.Some? || term == "" || |f| == 0 then []
    else if |f| < MaxSuggestions then f
    else f[..MaxSuggestions]
  }

  /** `currentBalance` (0 without a selected client or balance) moved by the
      amount: up for a charge, down for a payment. */
  function Preview(selected: Option<Client>, amount: int, kind: TxType): (r: int)
    ensures kind == Charge ==> r == OrZero(if selected.Some? then selected.value.debtBalance else None) + amount
    ensures kind == Payment ==> r == OrZero(if selected.Some? then selected.value.debtBalance else None) - amount
  {
    var current := if selected.Some? then OrZero(selected.value.debtBalance) else 0;
    if kind == Charge then current + amount else current - amount
  }

  /** The `transaction_type` the page sends. */
  function KindName(kind: TxType): (r: string)
    ensures DebtLedger.ParseKind(r) == Some(kind)
  {
    match kind
    case Charge => "charge"
    case Payment => "payment"
  }

  /** The JSON body the page posts: id, name, amount and type, no notes or branch. */
  function PageRequest(c: Client, amount: int, kind: TxType): DebtLedger.DebtRequest
  {
    DebtLedger.DebtRequest(Some(c.id), c.name, Some(amount), Some(KindName(kind)), None, None)
  }

  /** `handleSubmit`: the page's guards, then one posting. */
  function Submit(db: Db, selected: Option<Client>, amount: int, kind: TxType, f: DebtLedger.DebtFaults): (r: PageStep)
    ensures selected.None? ==> r == PageStep(Rejected(NoClientMessage), db, 0, [])
    ensures selected.Some? && amount <= 0 ==> r == PageStep(Rejected(BadAmountMessage), db, 0, [])
    ensures r.outcome.Rejected? <==> r.requests == 0
    ensures r.outcome != Done ==> r.db == db && r.notices == []
    ensures r.outcome == Failed(PostFailedMessage) <==> selected.Some? && amount > 0 && r.outcome != Done
    ensures r.outcome == Done <==>
              && selected.Some? && amount > 0 && selected.value.id != 0
              && !f.lookupFails && DebtLedger.Lookup(db, selected.value.id).Some? && !f.insertFails
    ensures r.outcome == Done ==>
              && r.requests == 1
              && |r.db.debtTxs| == |db.debtTxs| + 1
              && r.db.debtTxs[..|db.debtTxs|] == db.debtTxs
              && r.db.debtTxs[|db.debtTxs|].clientId == selected.value.id
              && r.db.debtTxs[|db.debtTxs|].amount == amount
              && r.db.debtTxs[|db.debtTxs|].kind == kind
  {
    if selected.None? then PageStep(Rejected(NoClientMessage), db, 0, [])
    else if amount <= 0 then PageStep(Rejected(BadAmountMessage), db, 0, [])
    else
      var post := DebtLedger.Post(db, PageRequest(selected.value, amount, kind), f);
      if post.response.Err? then PageStep(Failed(PostFailedMessage), post.db, 1, [])
      else
        assert (db.debtTxs + [post.response.body.row])[..|db.debtTxs|] == db.debtTxs;
        PageStep(Done, post.db, 1, post.notices)
  }

  /** With a fresh snapshot of the selected client, the balance the page
      previews is the balance the server records in the row and, unless the
      balance write fails, in the client's cache. */
  lemma PreviewAgreesWithServer(db: Db, c: Client, amount: int, kind: TxType, f: DebtLedger.DebtFaults)
    requires DebtLedger.Lookup(db, c.id) == Some(c)
    requires Submit(db, Some(c), amount, kind, f).outcome == Done
    ensures var r := Submit(db, Some(c), amount, kind, f);
            && r.db.debtTxs[|db.debtTxs|].balanceAfter == Preview(Some(c), amount, kind)
            && (!f.updateFails ==> DebtLedger.Lookup(r.db, c.id) == Some(c.(debtBalance := Some(Preview(Some(c), amount, kind)))))
  {
    var post := DebtLedger.Post(db, PageRequest(c, amount, kind), f);
    var p := post.response.body;
    assert p.newBalance == Preview(Some(c), amount, kind);
    if !f.updateFails {
      SingleUpdate(db.users, UserId, c.id, DebtLedger.SetDebt(p.newBalance), c.id);
    }
  }
}
