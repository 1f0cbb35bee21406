/** The point-of-sale endpoint `POST /api/sale`. The client is looked up by
    phone with `.single()`, created when that lookup returns no row, and then
    credited in one update: coins for every thousand pesos, and the amount on
    the running account when the sale is on credit. A row is then appended to
    the `transactions` log and a webhook message is sent; neither of these can
    fail the request. The sale never writes `coin_transactions`, so the coin
    log does not see coins earned at the till. */
module PosSale {
  import opened Basics
  import CoinLedger

  /** The JSON body; `isCredit` is read for its truthiness only. */
  datatype SaleRequest = SaleRequest(
    whatsapp: Option<string>,
    amount: Option<int>,
    isCredit: bool,
    clientName: Option<string>)

  /** Which store calls fail during one sale. A lookup that finds no row or
      several rows (`PGRST116`) is not a failure. */
  datatype SaleFaults = SaleFaults(fetchFails: bool, createFails: bool, updateFails: bool, logFails: bool)

  const NoFaults := SaleFaults(false, false, false, false)

  /** The success payload: the client with its new balances, and the coins earned. */
  datatype SaleResult = SaleResult(user: Client, earnedCoins: int)

  /** The 400 check: `whatsapp` and `amount` truthy. */
  predicate Valid(req: SaleRequest)
  {
    TruthyStr(req.whatsapp) && TruthyNum(req.amount)
  }

  /** `Math.floor(amount / 1000)`: one coin per whole thousand, rounding down
      (also for a negative amount, which the 400 check lets through). */
  function EarnedCoins(amount: int): (r: int)
    ensures r * 1000 <= amount < (r + 1) * 1000
  {
    amount / 1000
  }

  /** `.eq('phone', whatsapp).single()`. */
  function Found(db: Db, phone: string): Option<Client>
  {
    Single(db.users, UserPhone, Some(phone))
  }

  /** The client row inserted for an unknown phone. */
  function NewClient(db: Db, req: SaleRequest): (r: Client)
    requires Valid(req)
    ensures r.id == db.nextId && r.phone == req.whatsapp
    ensures r.coinBalance == Some(0) && r.debtBalance == Some(0) && r.profile == "CLIENT"
    ensures TruthyStr(req.clientName) ==> r.name == req.clientName
    ensures !TruthyStr(req.clientName) ==> r.name == Some("Cliente " + req.whatsapp.value)
  {
    Client(db.nextId, Some(StrOr(req.clientName, "Cliente " + req.whatsapp.value)), req.whatsapp,
           Some(0), Some(0), "CLIENT", None)
  }

  /** The client the sale is applied to: the one found, or the new one. */
  function Buyer(db: Db, req: SaleRequest): Client
    requires Valid(req)
  {
    var found := Found(db, req.whatsapp.value);
    if found.Some? then found.value else NewClient(db, req)
  }

  /** The store after the find-or-create step. */
  function WithBuyer(db: Db, req: SaleRequest): Db
    requires Valid(req)
  {
    if Found(db, req.whatsapp.value).Some? then db
    else db.(users := db.users + [NewClient(db, req)], nextId := db.nextId + 1)
  }

  /** `newDebt`: the cached debt plus the amount on credit, unchanged on cash. */
  function NewDebt(c: Client, amount: int, isCredit: bool): (r: int)
    ensures isCredit ==> r - OrZero(c.debtBalance) == amount
    ensures !isCredit ==> r == OrZero(c.debtBalance)
  {
    OrZero(c.debtBalance) + (if isCredit then amount else 0)
  }

  /** `newCoins`: the cached coins plus the coins earned, on credit or not. */
  function NewCoins(c: Client, amount: int): (r: int)
    ensures r - OrZero(c.coinBalance) == EarnedCoins(amount)
  {
    OrZero(c.coinBalance) + EarnedCoins(amount)
  }

  /** The update body: both balances, every other column kept, so phones
      and identities stay put. */
  function Settle(debt: int, coins: int): (r: Client -> Client)
    ensures forall c :: r(c).debtBalance == Some(debt) && r(c).coinBalance == Some(coins)
    ensures KeepsKey(UserPhone, r) && KeepsKey(UserId, r)
  {
    (c: Client) => c.(debtBalance := Some(debt), coinBalance := Some(coins))
  }

  /** Steps 3 to 6 of a sale, once the buyer is known: the balance update,
      the log row and the webhook. */
  function Credit(db: Db, c: Client, req: SaleRequest, f: SaleFaults): (r: Step<SaleResult>)
    requires Valid(req)
    ensures f.updateFails ==> r == Step(Err(ServerError), db, [])
    ensures !f.updateFails ==> r.response.Ok?
    ensures r.response.Ok? ==>
              var res := r.response.body;
              && res.earnedCoins == EarnedCoins(req.amount.value)
              && res.user == c.(coinBalance := Some(NewCoins(c, req.amount.value)),
                                debtBalance := Some(NewDebt(c, req.amount.value, req.isCredit)))
    ensures r.response.Ok? ==>
              var res := r.response.body.user;
              && |r.db.users| == |db.users|
              && (forall i :: 0 <= i < |db.users| && db.users[i].id != res.id ==> r.db.users[i] == db.users[i])
              && (forall i :: 0 <= i < |db.users| && db.users[i].id == res.id ==>
                    r.db.users[i] == db.users[i].(coinBalance := res.coinBalance, debtBalance := res.debtBalance))
    ensures r.response.Ok? ==>
              && r.db.coinTxs == db.coinTxs && r.db.debtTxs == db.debtTxs && r.db.sales == db.sales
              && |r.db.posTxs| == |db.posTxs| + (if f.logFails then 0 else 1)
              && r.db.posTxs[..|db.posTxs|] == db.posTxs
              && (!f.logFails ==>
                    var row := r.db.posTxs[|db.posTxs|];
                    && row.userId == c.id
                    && row.amountFiat == req.amount.value
                    && row.amountCoins == r.response.body.earnedCoins
                    && row.onCredit == req.isCredit)
    ensures r.response.Ok? ==>
              var res := r.response.body;
              r.notices == [SaleWebhook(req.whatsapp.value, res.earnedCoins, res.user.coinBalance.value,
                                        res.user.debtBalance.value, req.isCredit)]
  {
    var amount := req.amount.value;
    var earned := EarnedCoins(amount);
    var debt := NewDebt(c, amount, req.isCredit);
    var coins := NewCoins(c, amount);
    if f.updateFails then Step(Err(ServerError), db, [])
    else
      var db2 := db.(users := UpdateWhere(db.users, UserId, c.id, Settle(debt, coins)));
      var db3 := if f.logFails then db2
                 else db2.(posTxs := db2.posTxs + [PosTx(db2.nextId, c.id, amount, earned, req.isCredit)],
                           nextId := db2.nextId + 1);
      Step(Ok(SaleResult(c.(debtBalance := Some(debt), coinBalance := Some(coins)), earned)), db3,
           [SaleWebhook(req.whatsapp.value, earned, coins, debt, req.isCredit)])
  }

  /** `POST /api/sale`. */
  function Post(db: Db, req: SaleRequest, f: SaleFaults): (r: Step<SaleResult>)
    ensures !Valid(req) ==> r == Step(Err(BadRequest), db, [])
    ensures Valid(req) && f.fetchFails ==> r == Step(Err(ServerError), db, [])
    ensures r.response.Ok? <==>
              && Valid(req) && !f.fetchFails
              && (Found(db, req.whatsapp.value).Some? || !f.createFails)
              && !f.updateFails
    ensures Valid(req) && !f.fetchFails && r.response.Err? ==> r.response.status == ServerError
    // A failure leaves no trace, except a client created before the update failed.
    ensures r.response.Err? ==> r.notices == []
    ensures r.response.Err? ==>
              r.db == (if Valid(req) && !f.fetchFails && Found(db, req.whatsapp.value).None? && !f.createFails
                       then db.(users := db.users + [NewClient(db, req)], nextId := db.nextId + 1)
                       else db)
    ensures r.response.Ok? ==>
              var c := Buyer(db, req);
              var res := r.response.body;
              && res.earnedCoins == EarnedCoins(req.amount.value)
              && res.user.id == c.id && res.user.name == c.name && res.user.phone == c.phone
              && res.user.profile == c.profile && res.user.observations == c.observations
              && res.user.coinBalance == Some(NewCoins(c, req.amount.value))
              && res.user.debtBalance == Some(NewDebt(c, req.amount.value, req.isCredit))
    // The client rows: the buyer's get the new balances, the rest are untouched.
    ensures r.response.Ok? ==>
              var before := WithBuyer(db, req).users;
              var res := r.response.body.user;
              && |r.db.users| == |before|
              && (forall i :: 0 <= i < |before| && before[i].id != res.id ==> r.db.users[i] == before[i])
              && (forall i :: 0 <= i < |before| && before[i].id == res.id ==>
                    r.db.users[i] == before[i].(coinBalance := res.coinBalance, debtBalance := res.debtBalance))
    // No ledger is touched; the POS log gets one row unless its insert fails.
    ensures r.response.Ok? ==>
              && r.db.coinTxs == db.coinTxs && r.db.debtTxs == db.debtTxs && r.db.sales == db.sales
              && |r.db.posTxs| == |db.posTxs| + (if f.logFails then 0 else 1)
              && r.db.posTxs[..|db.posTxs|] == db.posTxs
              && (!f.logFails ==>
                    var row := r.db.posTxs[|db.posTxs|];
                    && row.userId == r.response.body.user.id
                    && row.amountFiat == req.amount.value
                    && row.amountCoins == r.response.body.earnedCoins
                    && row.onCredit == req.isCredit)
    // The webhook always goes to the number typed at the till.
    ensures r.response.Ok? ==>
              var res := r.response.body;
              r.notices == [SaleWebhook(req.whatsapp.value, res.earnedCoins, res.user.coinBalance.value,
                                        res.user.debtBalance.value, req.isCredit)]
  {
    if !Valid(req) then Step(Err(BadRequest), db, [])
    else if f.fetchFails then Step(Err(ServerError), db, [])
    else if Found(db, req.whatsapp.value).None? && f.createFails then Step(Err(ServerError), db, [])
    else
      Credit(WithBuyer(db, req), Buyer(db, req), req, f)
  }

  /** The client rows a successful sale leaves, as one update of the buyer. */
  lemma SaleStore(db: Db, req: SaleRequest, f: SaleFaults)
    requires Post(db, req, f).response.Ok?
    ensures var c := Buyer(db, req);
            Post(db, req, f).db.users ==
              UpdateWhere(WithBuyer(db, req).users, UserId, c.id,
                          Settle(NewDebt(c, req.amount.value, req.isCredit), NewCoins(c, req.amount.value)))
  {
  }

  /** After a successful sale, the phone's `.single()` lookup is the sale's
      client, now carrying the balances the response reports, provided the
      phone matched at most one row before. */
  lemma {:induction false} SaleIsFoundNext(db: Db, req: SaleRequest, f: SaleFaults)
    requires Post(db, req, f).response.Ok?
    requires |Where(db.users, UserPhone, req.whatsapp)| <= 1
    ensures Found(Post(db, req, f).db, req.whatsapp.value) == Some(Post(db, req, f).response.body.user)
  {
    var r := Post(db, req, f);
    var c := Buyer(db, req);
    var debt := NewDebt(c, req.amount.value, req.isCredit);
    var coins := NewCoins(c, req.amount.value);
    var before := WithBuyer(db, req).users;
    SaleStore(db, req, f);
    WhereUpdateCommute(before, UserId, c.id, Settle(debt, coins), UserPhone, req.whatsapp);
    if Found(db, req.whatsapp.value).None? {
      WhereAppend(db.users, NewClient(db, req), UserPhone, req.whatsapp);
      assert Where(before, UserPhone, req.whatsapp) == [c];
    }
  }

  /** When a phone is stored on several clients, `.single()` finds none of
      them: the sale creates one more client with that phone and credits it,
      so every later sale to the phone does the same. */
  lemma {:induction false} DuplicatePhoneCreatesAgain(db: Db, req: SaleRequest, f: SaleFaults)
    requires Post(db, req, f).response.Ok?
    requires |Where(db.users, UserPhone, req.whatsapp)| >= 2
    ensures Post(db, req, f).response.body.user.id == db.nextId
    ensures |Where(Post(db, req, f).db.users, UserPhone, req.whatsapp)| == |Where(db.users, UserPhone, req.whatsapp)| + 1
    ensures Found(Post(db, req, f).db, req.whatsapp.value).None?
  {
    var c := Buyer(db, req);
    var debt := NewDebt(c, req.amount.value, req.isCredit);
    var coins := NewCoins(c, req.amount.value);
    SaleStore(db, req, f);
    WhereUpdateCommute(WithBuyer(db, req).users, UserId, c.id, Settle(debt, coins), UserPhone, req.whatsapp);
    WhereAppend(db.users, NewClient(db, req), UserPhone, req.whatsapp);
  }

  /** Coins earned at the till are added to the cached balance without a row
      in `coin_transactions`, so a client whose cache matched its coin log no
      longer does once a sale earns coins. */
  lemma SaleBypassesCoinLog(db: Db, req: SaleRequest, f: SaleFaults, c: Client)
    requires Post(db, req, f).response.Ok?
    requires Found(db, req.whatsapp.value) == Some(c)
    requires Single(db.users, UserId, c.id) == Some(c)
    requires CoinLedger.CoinsConsistent(db, c.id)
    requires EarnedCoins(req.amount.value) != 0
    ensures !CoinLedger.CoinsConsistent(Post(db, req, f).db, c.id)
  {
    var debt := NewDebt(c, req.amount.value, req.isCredit);
    var coins := NewCoins(c, req.amount.value);
    SaleStore(db, req, f);
    SingleUpdate(db.users, UserId, c.id, Settle(debt, coins), c.id);
  }

  /** Two sales to a phone that names exactly one client add up: the coins of
      both, and the amounts of those on credit, land on that client. */
  lemma TwoSalesAddUp(db: Db, req1: SaleRequest, req2: SaleRequest, c: Client)
    requires Valid(req1) && Valid(req2) && req1.whatsapp == req2.whatsapp
    requires Found(db, req1.whatsapp.value) == Some(c)
    ensures var mid := Post(db, req1, NoFaults).db;
            var r := Post(mid, req2, NoFaults);
            && r.response.Ok?
            && r.response.body.user.id == c.id
            && r.response.body.user.coinBalance ==
                 Some(OrZero(c.coinBalance) + EarnedCoins(req1.amount.value) + EarnedCoins(req2.amount.value))
            && r.response.body.user.debtBalance ==
                 Some(OrZero(c.debtBalance) + (if req1.isCredit then req1.amount.value else 0)
                                            + (if req2.isCredit then req2.amount.value else 0))
  {
    var r1 := Post(db, req1, NoFaults);
    SaleOnKnownPhone(db, req1, NoFaults, c);
    SaleIsFoundNext(db, req1, NoFaults);
    var u := r1.response.body.user;
    SaleOnKnownPhone(r1.db, req2, NoFaults, u);
    CreditTwice(c, u, Post(r1.db, req2, NoFaults).response.body.user, req1, req2);
  }

  /** The balance arithmetic of two sales in a row. */
  lemma CreditTwice(c: Client, u: Client, v: Client, req1: SaleRequest, req2: SaleRequest)
    requires Valid(req1) && Valid(req2)
    requires u == c.(coinBalance := Some(NewCoins(c, req1.amount.value)),
                     debtBalance := Some(NewDebt(c, req1.amount.value, req1.isCredit)))
    requires v == u.(coinBalance := Some(NewCoins(u, req2.amount.value)),
                     debtBalance := Some(NewDebt(u, req2.amount.value, req2.isCredit)))
    ensures v.id == c.id
    ensures v.coinBalance == Some(OrZero(c.coinBalance) + EarnedCoins(req1.amount.value) + EarnedCoins(req2.amount.value))
    ensures v.debtBalance == Some(OrZero(c.debtBalance) + (if req1.isCredit then req1.amount.value else 0)
                                                        + (if req2.isCredit then req2.amount.value else 0))
  {
  }

  /** A sale to a phone that names exactly one client succeeds unless the
      fetch or the update fails, and credits that client. */
  lemma SaleOnKnownPhone(db: Db, req: SaleRequest, f: SaleFaults, c: Client)
    requires Valid(req) && !f.fetchFails && !f.updateFails
    requires Found(db, req.whatsapp.value) == Some(c)
    ensures Post(db, req, f).response.Ok?
    ensures Post(db, req, f).response.body.user ==
              c.(coinBalance := Some(NewCoins(c, req.amount.value)),
                 debtBalance := Some(NewDebt(c, req.amount.value, req.isCredit)))
  {
  }
}
