/** The client table endpoints of `/api/clients`: the bulk import (`POST`:
    boolean coercion, defaults, de-duplication by phone, upsert on phone), the
    generic field update (`PUT`) and the delete (`DELETE`). */
module ClientsApi {
  import opened Basics
  import Text

  /** A spreadsheet cell or JSON value as it reaches `toBool`. */
  datatype JsValue = Undefined | Null | Bool(b: bool) | Str(s: string) | Num(n: int) | Obj

  /** The strings that read as `true` after lower-casing and trimming. */
  predicate YesWord(s: string)
  {
    s == "true" || s == "1" || s == "yes" || s == "si"
  }

  /** `toBool`: a missing or empty cell means true, a boolean is itself, a
      string is true iff it is a yes-word up to case and surrounding white
      space, and anything else follows `Boolean(val)`. */
  function ToBool(v: JsValue): (r: bool)
    ensures v == Undefined || v == Null || v == Str("") ==> r
    ensures v.Bool? ==> r == v.b
    ensures v.Str? && v.s != "" ==> (r <==> YesWord(Text.Trim(Text.Lower(v.s))))
    ensures v.Num? ==> (r <==> v.n != 0)
    ensures v == Obj ==> r
  {
    match v
    case Undefined => true
    case Null => true
    case Bool(b) => b
    case Str(s) => s == "" || YesWord(Text.Trim(Text.Lower(s)))
    case Num(n) => n != 0
    case Obj => true
  }

  /** Case does not matter to `toBool`. */
  lemma ToBoolIgnoresCase(s: string)
    ensures ToBool(Str(Text.Lower(s))) == ToBool(Str(s))
  {
    Text.LowerIdempotent(s);
  }

  /** A non-empty string that is not a yes-word in any spelling reads as false,
      unlike every missing or empty cell. */
  lemma ToBoolRejectsOtherWords(s: string)
    requires s != "" && !YesWord(Text.Trim(Text.Lower(s)))
    ensures !ToBool(Str(s)) && ToBool(Str("")) && ToBool(Undefined)
  {
  }

  /** One imported record, after the spreadsheet's column aliases were merged. */
  datatype ClientInput = ClientInput(
    name: Option<string>,
    phone: Option<string>,
    observations: Option<string>,
    profile: Option<string>,
    coinBalance: Option<int>,
    debtBalance: Option<int>,
    userView: JsValue,
    userStatus: JsValue)

  /** The row `inserts` builds for it. */
  datatype ClientRow = ClientRow(
    name: Option<string>,
    phone: Option<string>,
    observations: Option<string>,
    profile: string,
    coinBalance: int,
    debtBalance: int,
    userView: bool,
    userStatus: bool)

  /** Defaults on import: profile `CLIENT`, balances 0 when missing. */
  function ToRow(item: ClientInput): (r: ClientRow)
    ensures r.phone == item.phone && r.name == item.name && r.observations == item.observations
    ensures r.profile == (if TruthyStr(item.profile) then item.profile.value else "CLIENT")
    ensures r.coinBalance == OrZero(item.coinBalance) && r.debtBalance == OrZero(item.debtBalance)
    ensures item.userView == Undefined ==> r.userView
    ensures item.userStatus == Undefined ==> r.userStatus
    ensures r.userView == ToBool(item.userView) && r.userStatus == ToBool(item.userStatus)
  {
    ClientRow(item.name, item.phone, item.observations, StrOr(item.profile, "CLIENT"),
              OrZero(item.coinBalance), OrZero(item.debtBalance),
              ToBool(item.userView), ToBool(item.userStatus))
  }

  function ToRows(items: seq<ClientInput>): (r: seq<ClientRow>)
    ensures |r| == |items|
    ensures forall i :: 0 <= i < |items| ==> r[i] == ToRow(items[i])
  {
    seq(|items|, i requires 0 <= i < |items| => ToRow(items[i]))
  }

  /** `if (item.phone)`: only rows with a non-empty phone reach the map. */
  predicate HasPhone(r: ClientRow)
  {
    TruthyStr(r.phone)
  }

  /** Position of the first row with phone `p`, or -1. */
  function IndexOfPhone(rows: seq<ClientRow>, p: string): (r: int)
    ensures -1 <= r < |rows|
    ensures r >= 0 ==> rows[r].phone == Some(p)
    ensures r == -1 <==> forall i :: 0 <= i < |rows| ==> rows[i].phone != Some(p)
    decreases |rows|
  {
    if |rows| == 0 then -1
    else
      var n := |rows| - 1;
      var i := IndexOfPhone(rows[..n], p);
      if i >= 0 then i else if rows[n].phone == Some(p) then n else -1
  }

  /** Position of the last row with phone `p`, or -1. */
  function LastIndexOfPhone(rows: seq<ClientRow>, p: string): (r: int)
    ensures -1 <= r < |rows|
    ensures r >= 0 ==> rows[r].phone == Some(p)
    ensures r >= 0 ==> forall i :: r < i < |rows| ==> rows[i].phone != Some(p)
    ensures r == -1 <==> forall i :: 0 <= i < |rows| ==> rows[i].phone != Some(p)
    decreases |rows|
  {
    if |rows| == 0 then -1
    else
      var n := |rows| - 1;
      if rows[n].phone == Some(p) then n else LastIndexOfPhone(rows[..n], p)
  }

  /** `map.set(phone, row)`: overwrite the entry in place, or append a new one. */
  function MapSet(acc: seq<ClientRow>, row: ClientRow): seq<ClientRow>
    requires HasPhone(row)
  {
    var i := IndexOfPhone(acc, Phone(row));
    if i >= 0 then acc[i := row] else acc + [row]
  }

  /** `Array.from(inserts.reduce(map.set ...).values())`. */
  function Dedup(rows: seq<ClientRow>): (r: seq<ClientRow>)
    ensures |r| <= |rows|
    ensures AllHavePhones(r)
    decreases |rows|
  {
    if |rows| == 0 then []
    else
      var n := |rows| - 1;
      var acc := Dedup(rows[..n]);
      if HasPhone(rows[n]) then MapSet(acc, rows[n]) else acc
  }

  /** The phone of a row that has one (`""` otherwise, never consulted). */
  function Phone(row: ClientRow): string
  {
    if row.phone.Some? then row.phone.value else ""
  }

  predicate AllHavePhones(r: seq<ClientRow>)
  {
    forall i :: 0 <= i < |r| ==> HasPhone(r[i])
  }

  predicate DistinctPhones(r: seq<ClientRow>)
  {
    forall i, j :: 0 <= i < j < |r| ==> r[i].phone != r[j].phone
  }

  /** Each kept row is the last input row carrying its phone. */
  predicate LastWins(rows: seq<ClientRow>, r: seq<ClientRow>)
  {
    forall i :: 0 <= i < |r| ==>
      (0 <= LastIndexOfPhone(rows, Phone(r[i])) && r[i] == rows[LastIndexOfPhone(rows, Phone(r[i]))])
  }

  /** Every phone of the input is kept. */
  predicate Covers(rows: seq<ClientRow>, r: seq<ClientRow>)
  {
    forall k :: 0 <= k < |rows| && HasPhone(rows[k]) ==> IndexOfPhone(r, Phone(rows[k])) >= 0
  }

  /** Kept phones appear in the order of their first occurrence in the input. */
  predicate FirstSeenOrder(rows: seq<ClientRow>, r: seq<ClientRow>)
  {
    forall i, j :: 0 <= i < j < |r| ==> IndexOfPhone(rows, Phone(r[i])) < IndexOfPhone(rows, Phone(r[j]))
  }

  /** What the de-duplication promises: every kept row has a phone, phones
      are distinct, each kept row is the last input row with its phone, every
      phone of the input is kept, and phones appear in order of first occurrence. */
  predicate DedupOf(rows: seq<ClientRow>, r: seq<ClientRow>)
  {
    AllHavePhones(r) && DistinctPhones(r) && LastWins(rows, r) && Covers(rows, r) && FirstSeenOrder(rows, r)
  }

  /** How appending a row moves the first and last index of one phone. */
  lemma AppendIndex(rows: seq<ClientRow>, x: ClientRow, q: string)
    ensures IndexOfPhone(rows + [x], q) ==
              (if IndexOfPhone(rows, q) >= 0 then IndexOfPhone(rows, q)
               else if x.phone == Some(q) then |rows| else -1)
    ensures LastIndexOfPhone(rows + [x], q) ==
              (if x.phone == Some(q) then |rows| else LastIndexOfPhone(rows, q))
  {
    assert (rows + [x])[..|rows|] == rows;
  }

  lemma FirstLastAgree(rows: seq<ClientRow>, q: string)
    ensures IndexOfPhone(rows, q) >= 0 <==> LastIndexOfPhone(rows, q) >= 0
  {
  }

  /** A phone-less row leaves the map as it was. */
  lemma StepSkip(init: seq<ClientRow>, acc: seq<ClientRow>, x: ClientRow)
    requires DedupOf(init, acc)
    requires !HasPhone(x)
    ensures DedupOf(init + [x], acc)
  {
    var rows := init + [x];
    forall i | 0 <= i < |acc|
      ensures LastIndexOfPhone(rows, Phone(acc[i])) == LastIndexOfPhone(init, Phone(acc[i]))
      ensures IndexOfPhone(rows, Phone(acc[i])) == IndexOfPhone(init, Phone(acc[i]))
    {
      assert x.phone != acc[i].phone;
      KeptIndexes(init, acc, x, i);
    }
    assert LastWins(rows, acc);
    assert FirstSeenOrder(rows, acc);
    forall k | 0 <= k < |rows| && HasPhone(rows[k]) ensures IndexOfPhone(acc, Phone(rows[k])) >= 0 {
      assert k < |init| && rows[k] == init[k];
    }
  }

  /** In the overwrite case the kept phones are unchanged, position by position. */
  lemma OverwritePhones(acc: seq<ClientRow>, x: ClientRow, i0: int)
    requires 0 <= i0 < |acc| && acc[i0].phone == x.phone
    ensures forall i :: 0 <= i < |acc| ==> acc[i0 := x][i].phone == acc[i].phone
    ensures forall q :: IndexOfPhone(acc[i0 := x], q) == IndexOfPhone(acc, q)
  {
    forall q ensures IndexOfPhone(acc[i0 := x], q) == IndexOfPhone(acc, q) {
      PhonesSameIndexes(acc[i0 := x], acc, q);
    }
  }

  /** Kept phones are indexed in the longer input as in the shorter one. */
  lemma KeptIndexes(init: seq<ClientRow>, acc: seq<ClientRow>, x: ClientRow, i: int)
    requires LastWins(init, acc) && 0 <= i < |acc|
    ensures IndexOfPhone(init + [x], Phone(acc[i])) == IndexOfPhone(init, Phone(acc[i])) >= 0
    ensures x.phone != acc[i].phone ==>
              LastIndexOfPhone(init + [x], Phone(acc[i])) == LastIndexOfPhone(init, Phone(acc[i]))
  {
    AppendIndex(init, x, Phone(acc[i]));
    FirstLastAgree(init, Phone(acc[i]));
  }

  lemma OverwriteLastWins(init: seq<ClientRow>, acc: seq<ClientRow>, x: ClientRow, i0: int)
    requires AllHavePhones(acc) && DistinctPhones(acc) && LastWins(init, acc)
    requires HasPhone(x) && 0 <= i0 < |acc| && acc[i0].phone == x.phone
    ensures LastWins(init + [x], acc[i0 := x])
  {
    var rows, r := init + [x], acc[i0 := x];
    AppendIndex(init, x, Phone(x));
    forall i | 0 <= i < |r|
      ensures 0 <= LastIndexOfPhone(rows, Phone(r[i])) && r[i] == rows[LastIndexOfPhone(rows, Phone(r[i]))]
    {
      if i != i0 {
        assert r[i] == acc[i] && acc[i].phone != x.phone;
        KeptIndexes(init, acc, x, i);
      }
    }
  }

  lemma OverwriteOrder(init: seq<ClientRow>, acc: seq<ClientRow>, x: ClientRow, i0: int)
    requires LastWins(init, acc) && FirstSeenOrder(init, acc)
    requires 0 <= i0 < |acc| && acc[i0].phone == x.phone
    ensures FirstSeenOrder(init + [x], acc[i0 := x])
  {
    var rows, r := init + [x], acc[i0 := x];
    forall i | 0 <= i < |r| ensures IndexOfPhone(rows, Phone(r[i])) == IndexOfPhone(init, Phone(acc[i])) {
      KeptIndexes(init, acc, x, i);
      assert Phone(r[i]) == Phone(acc[i]);
    }
  }

  lemma OverwriteCovers(init: seq<ClientRow>, acc: seq<ClientRow>, x: ClientRow, i0: int)
    requires Covers(init, acc)
    requires HasPhone(x) && 0 <= i0 < |acc| && acc[i0].phone == x.phone
    ensures Covers(init + [x], acc[i0 := x])
  {
    var rows, r := init + [x], acc[i0 := x];
    OverwritePhones(acc, x, i0);
    forall k | 0 <= k < |rows| && HasPhone(rows[k]) ensures IndexOfPhone(r, Phone(rows[k])) >= 0 {
      if k < |init| {
        assert rows[k] == init[k];
      }
    }
  }

  /** A repeated phone overwrites its entry in place. */
  lemma StepOverwrite(init: seq<ClientRow>, acc: seq<ClientRow>, x: ClientRow)
    requires DedupOf(init, acc)
    requires HasPhone(x) && IndexOfPhone(acc, Phone(x)) >= 0
    ensures DedupOf(init + [x], MapSet(acc, x))
  {
    var i0 := IndexOfPhone(acc, Phone(x));
    var r := acc[i0 := x];
    assert MapSet(acc, x) == r;
    OverwritePhones(acc, x, i0);
    assert AllHavePhones(r) && DistinctPhones(r);
    OverwriteLastWins(init, acc, x, i0);
    OverwriteOrder(init, acc, x, i0);
    OverwriteCovers(init, acc, x, i0);
  }

  /** A phone that no kept row carries does not occur in the input so far. */
  lemma NewPhoneUnseen(init: seq<ClientRow>, acc: seq<ClientRow>, p: string)
    requires Covers(init, acc)
    requires p != "" && IndexOfPhone(acc, p) == -1
    ensures IndexOfPhone(init, p) == -1
  {
  }

  /** The kept phones are still indexed as before once a row with a new phone arrives. */
  lemma AppendKeepsIndexes(init: seq<ClientRow>, acc: seq<ClientRow>, x: ClientRow)
    requires AllHavePhones(acc) && LastWins(init, acc)
    requires HasPhone(x) && IndexOfPhone(acc, Phone(x)) == -1
    ensures forall i :: 0 <= i < |acc| ==>
              && Phone(acc[i]) != Phone(x)
              && 0 <= LastIndexOfPhone(init + [x], Phone(acc[i])) == LastIndexOfPhone(init, Phone(acc[i]))
              && 0 <= IndexOfPhone(init + [x], Phone(acc[i])) == IndexOfPhone(init, Phone(acc[i])) < |init|
  {
    forall i | 0 <= i < |acc|
      ensures Phone(acc[i]) != Phone(x)
      ensures 0 <= LastIndexOfPhone(init + [x], Phone(acc[i])) == LastIndexOfPhone(init, Phone(acc[i]))
      ensures 0 <= IndexOfPhone(init + [x], Phone(acc[i])) == IndexOfPhone(init, Phone(acc[i])) < |init|
    {
      AppendIndex(init, x, Phone(acc[i]));
      FirstLastAgree(init, Phone(acc[i]));
    }
  }

  lemma AppendCovers(init: seq<ClientRow>, acc: seq<ClientRow>, x: ClientRow)
    requires Covers(init, acc)
    requires HasPhone(x)
    ensures Covers(init + [x], acc + [x])
  {
    var rows := init + [x];
    forall k | 0 <= k < |rows| && HasPhone(rows[k]) ensures IndexOfPhone(acc + [x], Phone(rows[k])) >= 0 {
      AppendIndex(acc, x, Phone(rows[k]));
      if k < |init| {
        assert rows[k] == init[k];
      }
    }
  }

  /** The appended row's phone is new, so phones stay distinct. */
  lemma AppendDistinct(acc: seq<ClientRow>, x: ClientRow)
    requires AllHavePhones(acc) && DistinctPhones(acc)
    requires HasPhone(x) && IndexOfPhone(acc, Phone(x)) == -1
    ensures AllHavePhones(acc + [x]) && DistinctPhones(acc + [x])
  {
  }

  lemma AppendLastWins(init: seq<ClientRow>, acc: seq<ClientRow>, x: ClientRow)
    requires AllHavePhones(acc) && LastWins(init, acc)
    requires HasPhone(x) && IndexOfPhone(acc, Phone(x)) == -1
    ensures LastWins(init + [x], acc + [x])
  {
    AppendIndex(init, x, Phone(x));
    AppendKeepsIndexes(init, acc, x);
    var rows, r := init + [x], acc + [x];
    forall i | 0 <= i < |r|
      ensures 0 <= LastIndexOfPhone(rows, Phone(r[i])) && r[i] == rows[LastIndexOfPhone(rows, Phone(r[i]))]
    {
      if i < |acc| {
        assert r[i] == acc[i];
      }
    }
  }

  lemma AppendOrder(init: seq<ClientRow>, acc: seq<ClientRow>, x: ClientRow)
    requires AllHavePhones(acc) && LastWins(init, acc) && FirstSeenOrder(init, acc) && Covers(init, acc)
    requires HasPhone(x) && IndexOfPhone(acc, Phone(x)) == -1
    ensures FirstSeenOrder(init + [x], acc + [x])
  {
    NewPhoneUnseen(init, acc, Phone(x));
    AppendIndex(init, x, Phone(x));
    var rows, r := init + [x], acc + [x];
    forall i, j | 0 <= i < j < |r| ensures IndexOfPhone(rows, Phone(r[i])) < IndexOfPhone(rows, Phone(r[j])) {
      assert r[i] == acc[i];
      KeptIndexes(init, acc, x, i);
      if j < |acc| {
        assert r[j] == acc[j];
        KeptIndexes(init, acc, x, j);
      } else {
        assert r[j] == x;
      }
    }
  }

  /** A new phone is appended at the end. */
  lemma StepAppend(init: seq<ClientRow>, acc: seq<ClientRow>, x: ClientRow)
    requires DedupOf(init, acc)
    requires HasPhone(x) && IndexOfPhone(acc, Phone(x)) == -1
    ensures DedupOf(init + [x], MapSet(acc, x))
  {
    assert MapSet(acc, x) == acc + [x];
    AppendDistinct(acc, x);
    AppendLastWins(init, acc, x);
    AppendOrder(init, acc, x);
    AppendCovers(init, acc, x);
  }

  /** One more input row keeps the de-duplication meeting its promise. */
  lemma DedupStep(init: seq<ClientRow>, x: ClientRow)
    requires DedupOf(init, Dedup(init))
    ensures DedupOf(init + [x], Dedup(init + [x]))
  {
    var acc := Dedup(init);
    assert (init + [x])[..|init|] == init;
    if !HasPhone(x) {
      assert Dedup(init + [x]) == acc;
      StepSkip(init, acc, x);
    } else {
      assert Dedup(init + [x]) == MapSet(acc, x);
      if IndexOfPhone(acc, Phone(x)) >= 0 {
        StepOverwrite(init, acc, x);
      } else {
        StepAppend(init, acc, x);
      }
    }
  }

  lemma {:induction false} DedupMeetsSpec(rows: seq<ClientRow>)
    ensures DedupOf(rows, Dedup(rows))
    decreases |rows|
  {
    if |rows| > 0 {
      var n := |rows| - 1;
      DedupMeetsSpec(rows[..n]);
      DedupStep(rows[..n], rows[n]);
      assert rows[..n] + [rows[n]] == rows;
    }
  }

  /** Two tables with the same phone column answer the same index queries. */
  lemma {:induction false} PhonesSameIndexes(a: seq<ClientRow>, b: seq<ClientRow>, q: string)
    requires |a| == |b|
    requires forall i :: 0 <= i < |a| ==> a[i].phone == b[i].phone
    ensures IndexOfPhone(a, q) == IndexOfPhone(b, q)
    decreases |a|
  {
    if |a| > 0 {
      PhonesSameIndexes(a[..|a| - 1], b[..|b| - 1], q);
    }
  }

  /** The client row an imported record becomes (no other column is modelled). */
  function Overwrite(row: ClientRow): Client -> Client
  {
    (c: Client) => c.(name := row.name, phone := row.phone, observations := row.observations,
                      profile := row.profile, coinBalance := Some(row.coinBalance),
                      debtBalance := Some(row.debtBalance))
  }

  /** `upsert(rows, { onConflict: 'phone' })`, one row at a time: an existing
      client with the phone is overwritten, otherwise a new client is added. */
  function UpsertAll(users: seq<Client>, rows: seq<ClientRow>, nextId: Id): (r: seq<Client>)
    ensures |r| >= |users|
    ensures forall c :: c in users && (forall i :: 0 <= i < |rows| ==> rows[i].phone != c.phone) ==> c in r
    decreases |rows|
  {
    if |rows| == 0 then users
    else
      var n := |rows| - 1;
      var before := UpsertAll(users, rows[..n], nextId);
      assert forall i :: 0 <= i < n ==> rows[..n][i] == rows[i];
      UpsertOneKeepsAll(before, rows[n], nextId + n);
      UpsertOne(before, rows[n], nextId + n)
  }

  /** One row of the batch: overwrite every client with its phone, or insert
      a new client with id `id`. */
  function UpsertOne(before: seq<Client>, row: ClientRow, id: Id): seq<Client>
  {
    if |Where(before, UserPhone, row.phone)| > 0 then UpdateWhere(before, UserPhone, row.phone, Overwrite(row))
    else before + [Overwrite(row)(Client(id, None, None, None, None, "", None))]
  }

  /** After one row, a client with its phone carries its balances. */
  lemma UpsertOneWrites(before: seq<Client>, row: ClientRow, id: Id)
    ensures Carries(UpsertOne(before, row, id), row)
  {
    var after := UpsertOne(before, row, id);
    var w := Where(before, UserPhone, row.phone);
    if |w| > 0 {
      var c := w[0];
      WhereFromRows(before, UserPhone, row.phone);
      assert c in before;
      var k :| 0 <= k < |before| && before[k] == c;
      assert after[k] == Overwrite(row)(c);
    } else {
      assert after[|before|] == Overwrite(row)(Client(id, None, None, None, None, "", None));
    }
  }

  /** Every client with another phone passes through one row untouched. */
  lemma UpsertOneKeepsAll(before: seq<Client>, row: ClientRow, id: Id)
    ensures |UpsertOne(before, row, id)| >= |before|
    ensures forall c :: c in before && c.phone != row.phone ==> c in UpsertOne(before, row, id)
  {
    forall c | c in before && c.phone != row.phone ensures c in UpsertOne(before, row, id) {
      UpsertOneKeeps(before, row, id, c);
    }
  }

  /** A client with another phone passes through one row untouched. */
  lemma UpsertOneKeeps(before: seq<Client>, row: ClientRow, id: Id, c: Client)
    requires c in before && c.phone != row.phone
    ensures c in UpsertOne(before, row, id)
  {
    var k :| 0 <= k < |before| && before[k] == c;
    assert UpsertOne(before, row, id)[k] == c;
  }

  /** `POST /api/clients`: one upsert of the de-duplicated rows; the answer
      counts them. A store failure writes nothing. */
  function Import(db: Db, items: seq<ClientInput>, fails: bool): (r: Step<nat>)
    ensures fails ==> r == Step(Err(ServerError), db, [])
    ensures !fails ==> r.response == Ok(|Dedup(ToRows(items))|)
    ensures !fails ==> r.response.body <= |items|
    ensures r.db.coinTxs == db.coinTxs && r.db.debtTxs == db.debtTxs
    ensures r.db.sales == db.sales && r.db.posTxs == db.posTxs
    // Every imported phone ends up on a client carrying the imported
    // balances, and a client whose phone is not imported is kept as it was.
    ensures !fails ==> forall i :: 0 <= i < |Dedup(ToRows(items))| ==> Carries(r.db.users, Dedup(ToRows(items))[i])
    ensures !fails ==> forall c :: c in db.users && (forall k :: 0 <= k < |items| ==> items[k].phone != c.phone) ==>
                         c in r.db.users
  {
    if fails then Step(Err(ServerError), db, [])
    else
      var rows := Dedup(ToRows(items));
      DedupMeetsSpec(ToRows(items));
      UpsertCarriesAll(db.users, rows, db.nextId);
      assert forall c :: c in db.users && (forall k :: 0 <= k < |items| ==> items[k].phone != c.phone) ==>
                           c in UpsertAll(db.users, rows, db.nextId) by {
        forall c | c in db.users && (forall k :: 0 <= k < |items| ==> items[k].phone != c.phone)
          ensures c in UpsertAll(db.users, rows, db.nextId)
        {
          KeptPhonesImported(items, rows, c);
        }
      }
      Step(Ok(|rows|), db.(users := UpsertAll(db.users, rows, db.nextId), nextId := db.nextId + |rows|), [])
  }

  /** Some client has the row's phone and carries its balances. */
  predicate Carries(users: seq<Client>, row: ClientRow)
  {
    exists c :: c in users && c.phone == row.phone
      && c.coinBalance == Some(row.coinBalance) && c.debtBalance == Some(row.debtBalance)
  }

  /** A later row with another phone does not undo what an earlier row wrote. */
  lemma UpsertOneKeepsCarried(before: seq<Client>, earlier: ClientRow, row: ClientRow, id: Id)
    requires Carries(before, earlier) && earlier.phone != row.phone
    ensures Carries(UpsertOne(before, row, id), earlier)
  {
    var c :| c in before && c.phone == earlier.phone
             && c.coinBalance == Some(earlier.coinBalance) && c.debtBalance == Some(earlier.debtBalance);
    UpsertOneKeeps(before, row, id, c);
  }

  /** After the upsert, every imported phone belongs to a client carrying the
      imported balances, whatever the ledgers say. */
  lemma {:induction false} UpsertOverwritesBalances(users: seq<Client>, rows: seq<ClientRow>, nextId: Id, i: int)
    requires DistinctPhones(rows)
    requires 0 <= i < |rows|
    ensures Carries(UpsertAll(users, rows, nextId), rows[i])
    decreases |rows|
  {
    var n := |rows| - 1;
    var before := UpsertAll(users, rows[..n], nextId);
    assert UpsertAll(users, rows, nextId) == UpsertOne(before, rows[n], nextId + n);
    if i == n {
      UpsertOneWrites(before, rows[n], nextId + n);
    } else {
      assert DistinctPhones(rows[..n]);
      UpsertOverwritesBalances(users, rows[..n], nextId, i);
      assert rows[..n][i] == rows[i] && rows[i].phone != rows[n].phone;
      UpsertOneKeepsCarried(before, rows[i], rows[n], nextId + n);
    }
  }



  /** The upsert of distinct phones leaves every one of them carried. */
  lemma UpsertCarriesAll(users: seq<Client>, rows: seq<ClientRow>, nextId: Id)
    requires DistinctPhones(rows)
    ensures forall i :: 0 <= i < |rows| ==> Carries(UpsertAll(users, rows, nextId), rows[i])
  {
    forall i | 0 <= i < |rows| ensures Carries(UpsertAll(users, rows, nextId), rows[i]) {
      UpsertOverwritesBalances(users, rows, nextId, i);
    }
  }

  /** A phone no imported record carries is not among the kept rows. */
  lemma KeptPhonesImported(items: seq<ClientInput>, kept: seq<ClientRow>, c: Client)
    requires LastWins(ToRows(items), kept)
    requires forall k :: 0 <= k < |items| ==> items[k].phone != c.phone
    ensures forall i :: 0 <= i < |kept| ==> kept[i].phone != c.phone
  {
    var rows := ToRows(items);
    forall i | 0 <= i < |kept| ensures kept[i].phone != c.phone {
      var w := LastIndexOfPhone(rows, Phone(kept[i]));
      assert kept[i] == rows[w] && rows[w].phone == items[w].phone;
    }
  }

  /** The fields a `PUT` body may carry besides `id`; absent fields are not written. */
  datatype ClientPatch = ClientPatch(
    name: Option<string>,
    phone: Option<string>,
    observations: Option<string>,
    profile: Option<string>,
    coinBalance: Option<int>,
    debtBalance: Option<int>)

  /** The update writes only the supplied fields: it never changes the id,
      and writing the same fields twice is writing them once. */
  function Patch(p: ClientPatch): (r: Client -> Client)
    ensures KeepsKey(UserId, r) && Idempotent(r)
  {
    (c: Client) => c.(
      name := if p.name.Some? then p.name else c.name,
      phone := if p.phone.Some? then p.phone else c.phone,
      observations := if p.observations.Some? then p.observations else c.observations,
      profile := if p.profile.Some? then p.profile.value else c.profile,
      coinBalance := if p.coinBalance.Some? then p.coinBalance else c.coinBalance,
      debtBalance := if p.debtBalance.Some? then p.debtBalance else c.debtBalance)
  }

  /** `PUT /api/clients`: without a (truthy) id, 400; otherwise every client
      with that id gets the supplied fields, balances included, as given, and
      nothing else in the store changes. The answer is the updated rows. */
  function Put(db: Db, id: Option<Id>, p: ClientPatch, fails: bool): (r: Step<seq<Client>>)
    ensures !TruthyNum(id) ==> r == Step(Err(BadRequest), db, [])
    ensures TruthyNum(id) && fails ==> r == Step(Err(ServerError), db, [])
    ensures r.response.Ok? <==> TruthyNum(id) && !fails
    ensures r.db.coinTxs == db.coinTxs && r.db.debtTxs == db.debtTxs && r.db.sales == db.sales
    ensures r.db.posTxs == db.posTxs && r.db.nextId == db.nextId
    ensures |r.db.users| == |db.users|
    ensures forall i :: 0 <= i < |db.users| && (!TruthyNum(id) || db.users[i].id != id.value) ==>
              r.db.users[i] == db.users[i]
    ensures r.response.Ok? ==> forall i :: 0 <= i < |db.users| && db.users[i].id == id.value ==>
              var c, c' := db.users[i], r.db.users[i];
              && c'.id == c.id
              && c'.name == (if p.name.Some? then p.name else c.name)
              && c'.phone == (if p.phone.Some? then p.phone else c.phone)
              && c'.observations == (if p.observations.Some? then p.observations else c.observations)
              && c'.profile == (if p.profile.Some? then p.profile.value else c.profile)
              && c'.coinBalance == (if p.coinBalance.Some? then p.coinBalance else c.coinBalance)
              && c'.debtBalance == (if p.debtBalance.Some? then p.debtBalance else c.debtBalance)
    ensures r.response.Ok? ==> r.response.body == Where(r.db.users, UserId, id.value)
  {
    if !TruthyNum(id) then Step(Err(BadRequest), db, [])
    else if fails then Step(Err(ServerError), db, [])
    else
      var users := UpdateWhere(db.users, UserId, id.value, Patch(p));
      Step(Ok(Where(users, UserId, id.value)), db.(users := users), [])
  }

  /** `DELETE /api/clients?id=`: removes the client rows only; the client's
      ledger rows stay behind. */
  function Delete(db: Db, id: Option<Id>, fails: bool): (r: Step<()>)
    ensures id.None? ==> r == Step(Err(BadRequest), db, [])
    ensures id.Some? && fails ==> r == Step(Err(ServerError), db, [])
    ensures r.response.Ok? <==> id.Some? && !fails
    ensures r.db.coinTxs == db.coinTxs && r.db.debtTxs == db.debtTxs && r.db.sales == db.sales
    ensures r.db.posTxs == db.posTxs && r.db.nextId == db.nextId
    ensures r.response.Ok? ==>
              && (forall i :: 0 <= i < |r.db.users| ==> r.db.users[i] in db.users && r.db.users[i].id != id.value)
              && (forall i :: 0 <= i < |db.users| && db.users[i].id != id.value ==> db.users[i] in r.db.users)
  {
    if id.None? then Step(Err(BadRequest), db, [])
    else if fails then Step(Err(ServerError), db, [])
    else
      DeleteFromRows(db.users, UserId, id.value);
      Step(Ok(()), db.(users := DeleteWhere(db.users, UserId, id.value)), [])
  }

  /** After a successful `PUT`, `.eq('id', j).single()` finds, for the
      addressed id, the old client with the supplied fields written over it,
      and for every other id exactly what it found before. */
  lemma PutAddressesOne(db: Db, id: Option<Id>, p: ClientPatch, j: Id)
    requires TruthyNum(id)
    ensures var r := Put(db, id, p, false);
            && (j != id.value ==> Single(r.db.users, UserId, j) == Single(db.users, UserId, j))
            && (j == id.value && Single(db.users, UserId, j).Some? ==>
                  Single(r.db.users, UserId, j) == Some(Patch(p)(Single(db.users, UserId, j).value)))
            && (j == id.value && Single(db.users, UserId, j).None? ==> Single(r.db.users, UserId, j).None?)
  {
    SingleUpdate(db.users, UserId, id.value, Patch(p), j);
  }

  /** Sending the same `PUT` twice leaves the store as the first one did. */
  lemma PutIdempotent(db: Db, id: Option<Id>, p: ClientPatch)
    ensures var r := Put(db, id, p, false);
            Put(r.db, id, p, false) == r
  {
    if TruthyNum(id) {
        UpdateTwice(db.users, UserId, id.value, Patch(p));
    }
  }

  /** After a successful `DELETE`, `.eq('id', j).single()` on every other id
      finds what it found before. */
  lemma DeleteKeepsOthers(db: Db, id: Id, j: Id)
    requires j != id
    ensures Single(Delete(db, Some(id), false).db.users, UserId, j) == Single(db.users, UserId, j)
  {
    SingleDelete(db.users, UserId, id, j);
  }

  /** Deleting the same id twice leaves the store as the first delete did. */
  lemma DeleteIdempotent(db: Db, id: Id)
    ensures var r := Delete(db, Some(id), false);
            Delete(r.db, Some(id), false) == r
  {
    var r := Delete(db, Some(id), false);
    DeleteAbsent(r.db.users, UserId, id);
  }
}
