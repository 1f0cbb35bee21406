/** Shared vocabulary of the two client ledgers: optional values, JavaScript
    truthiness, HTTP-style responses, the rows of the store's tables and the
    three table operations every handler is built from (select the rows whose
    key equals a value, update them, delete them).

    The store is a set of tables, each a sequence of rows in insertion order.
    A row is addressed by an equality filter on one of its columns, exactly as
    the handlers address the relational store: `.eq(column, v)` selects every
    matching row, `.single()` succeeds only when exactly one row matches. */
module Basics {

  datatype Option<+T> = None | Some(value: T)

  /** `x || 0` on a nullable numeric column (a missing value and 0 both read as 0). */
  function OrZero(o: Option<int>): int
  {
    if o.Some? then o.value else 0
  }

  /** JavaScript truthiness of an optional number: present and not 0. */
  predicate TruthyNum(o: Option<int>)
  {
    o.Some? && o.value != 0
  }

  /** JavaScript truthiness of an optional string: present and not empty. */
  predicate TruthyStr(o: Option<string>)
  {
    o.Some? && o.value != ""
  }

  /** `o || fallback` on an optional string. */
  function StrOr(o: Option<string>, fallback: string): string
  {
    if TruthyStr(o) then o.value else fallback
  }

  const BadRequest: nat := 400
  const NotFound: nat := 404
  const ServerError: nat := 500

  /** What a handler answers: a success payload or an error status. */
  datatype Response<+T> = Ok(body: T) | Err(status: nat)

  type Id = int

  /** A row of the `users` table (the clients). */
  datatype Client = Client(
    id: Id,
    name: Option<string>,
    phone: Option<string>,
    coinBalance: Option<int>,
    debtBalance: Option<int>,
    profile: string,
    observations: Option<string>)

  /** A row of `coin_transactions`; `clientName` is a snapshot taken when posted. */
  datatype CoinTx = CoinTx(id: Id, clientId: Id, clientName: Option<string>, amount: int, coinsAdded: int)

  datatype TxType = Charge | Payment

  /** A row of `debt_transactions`; `balanceAfter` is the audit trail of the running balance. */
  datatype DebtTx = DebtTx(
    id: Id,
    clientId: Id,
    clientName: Option<string>,
    amount: int,
    kind: TxType,
    balanceAfter: int,
    notes: Option<string>)

  /** A row of `sales` (month number and date come from the clock and are left out). */
  datatype Sale = Sale(id: Id, amount: int, branch: string, observations: string)

  /** A row of the point-of-sale `transactions` log. */
  datatype PosTx = PosTx(id: Id, userId: Id, amountFiat: int, amountCoins: int, onCredit: bool)

  /** The whole store; `nextId` is the identity the next inserted row receives. */
  datatype Db = Db(
    users: seq<Client>,
    coinTxs: seq<CoinTx>,
    debtTxs: seq<DebtTx>,
    sales: seq<Sale>,
    posTxs: seq<PosTx>,
    nextId: Id)

  /** An outbound message a handler fires and forgets. */
  datatype Notice =
    | CoinNotice(name: Option<string>, amount: int, totalCoins: int, phone: string)
    | DebtNotice(name: Option<string>, amount: int, newBalance: int, kind: TxType, phone: string)
    | SaleWebhook(number: string, earnedCoins: int, totalCoins: int, debt: int, onCredit: bool)

  /** The result of one request: the response, the store afterwards and the
      notifications that were dispatched. */
  datatype Step<+T> = Step(response: Response<T>, db: Db, notices: seq<Notice>)

  /** How an action of an admin page ended. */
  datatype Outcome = Idle | Rejected(message: string) | Failed(message: string) | Done

  /** The outcome of a page action, the store afterwards, how many requests
      the page issued, and the notifications the handlers dispatched. */
  datatype PageStep = PageStep(outcome: Outcome, db: Db, requests: nat, notices: seq<Notice>)

  /** The messages both admin pages show. */
  const NoClientMessage := "Debes seleccionar un cliente"
  const BadAmountMessage := "El importe debe ser mayor a 0"
  const PostFailedMessage := "Error al registrar transacción"

  function UserId(c: Client): Id { c.id }
  function UserPhone(c: Client): Option<string> { c.phone }
  function CoinTxId(t: CoinTx): Id { t.id }
  function DebtTxId(t: DebtTx): Id { t.id }

  /** Every row whose key equals `k`, in table order (`.eq(column, k)`). */
  function Where<T, K(==)>(rows: seq<T>, key: T -> K, k: K): (r: seq<T>)
    ensures |r| <= |rows|
    ensures forall i :: 0 <= i < |r| ==> key(r[i]) == k
    ensures forall i :: 0 <= i < |rows| && key(rows[i]) == k ==> rows[i] in r
    decreases |rows|
  {
    if |rows| == 0 then []
    else
      var n := |rows| - 1;
      Where(rows[..n], key, k) + (if key(rows[n]) == k then [rows[n]] else [])
  }

  /** Every selected row is a row of the table (stated apart from `Where`
      so that its two membership directions are never both in scope). */
  lemma {:induction false} WhereFromRows<T, K>(rows: seq<T>, key: T -> K, k: K)
    ensures forall i :: 0 <= i < |Where(rows, key, k)| ==> Where(rows, key, k)[i] in rows
    decreases |rows|
  {
    if |rows| > 0 {
      var n := |rows| - 1;
      WhereFromRows(rows[..n], key, k);
      var w := Where(rows[..n], key, k);
      forall i | 0 <= i < |w| ensures w[i] in rows {
        assert w[i] in rows[..n];
      }
    }
  }

  /** `.eq(column, k).single()`: the row when exactly one matches, nothing otherwise. */
  function Single<T, K(==)>(rows: seq<T>, key: T -> K, k: K): (r: Option<T>)
    ensures r.Some? ==> r.value in rows && key(r.value) == k
    ensures r.None? ==> |Where(rows, key, k)| != 1
    ensures r.Some? ==> Where(rows, key, k) == [r.value]
  {
    var w := Where(rows, key, k);
    if |w| == 1 then
      WhereFromRows(rows, key, k);
      Some(w[0])
    else None
  }

  /** `.eq(column, k).delete()`: every other row survives, in order. */
  function DeleteWhere<T, K(==)>(rows: seq<T>, key: T -> K, k: K): (r: seq<T>)
    ensures |r| <= |rows|
    ensures forall i :: 0 <= i < |r| ==> key(r[i]) != k
    ensures forall i :: 0 <= i < |rows| && key(rows[i]) != k ==> rows[i] in r
    decreases |rows|
  {
    if |rows| == 0 then []
    else
      var n := |rows| - 1;
      DeleteWhere(rows[..n], key, k) + (if key(rows[n]) == k then [] else [rows[n]])
  }

  /** `.eq(column, k).update(...)`: `f` applied to every matching row, the rest untouched. */
  function UpdateWhere<T, K(==)>(rows: seq<T>, key: T -> K, k: K, f: T -> T): (r: seq<T>)
    ensures |r| == |rows|
    ensures forall i :: 0 <= i < |rows| && key(rows[i]) != k ==> r[i] == rows[i]
    ensures forall i :: 0 <= i < |rows| && key(rows[i]) == k ==> r[i] == f(rows[i])
    decreases |rows|
  {
    if |rows| == 0 then []
    else
      var n := |rows| - 1;
      UpdateWhere(rows[..n], key, k, f) + [if key(rows[n]) == k then f(rows[n]) else rows[n]]
  }

  /** Every row a delete keeps is a row of the table (stated apart from
      `DeleteWhere` so that its two membership directions are never both in scope). */
  lemma {:induction false} DeleteFromRows<T, K>(rows: seq<T>, key: T -> K, k: K)
    ensures forall i :: 0 <= i < |DeleteWhere(rows, key, k)| ==> DeleteWhere(rows, key, k)[i] in rows
    decreases |rows|
  {
    if |rows| > 0 {
      var n := |rows| - 1;
      DeleteFromRows(rows[..n], key, k);
      var d := DeleteWhere(rows[..n], key, k);
      forall i | 0 <= i < |d| ensures d[i] in rows {
        assert d[i] in rows[..n];
      }
    }
  }

  /** `f` keeps the key of every row it is applied to. */
  ghost predicate KeepsKey<T(!new), K>(key: T -> K, f: T -> T)
  {
    forall x :: key(f(x)) == key(x)
  }

  /** After an update of key `k`, the rows carrying another key are the same
      rows as before, and the rows carrying `k` are the updated ones. */
  lemma {:induction false} WhereUpdate<T(!new), K>(rows: seq<T>, key: T -> K, k: K, f: T -> T, j: K)
    requires KeepsKey(key, f)
    ensures j != k ==> Where(UpdateWhere(rows, key, k, f), key, j) == Where(rows, key, j)
    ensures j == k ==> |Where(UpdateWhere(rows, key, k, f), key, j)| == |Where(rows, key, j)|
    ensures j == k && |Where(rows, key, j)| == 1 ==>
              Where(UpdateWhere(rows, key, k, f), key, j) == [f(Where(rows, key, j)[0])]
    decreases |rows|
  {
    if |rows| > 0 {
      var n := |rows| - 1;
      var x := rows[n];
      var u := UpdateWhere(rows, key, k, f);
      var y := u[n];
      assert u[..n] == UpdateWhere(rows[..n], key, k, f);
      assert u == u[..n] + [y];
      WhereUpdate(rows[..n], key, k, f, j);
      assert key(y) == key(x);
      assert Where(u, key, j) == Where(u[..n], key, j) + (if key(y) == j then [y] else []);
      assert Where(rows, key, j) == Where(rows[..n], key, j) + (if key(x) == j then [x] else []);
    }
  }

  lemma WhereAbsentLength<T, K>(rows: seq<T>, key: T -> K, k: K)
    requires |Where(rows, key, k)| == 0
    ensures forall x :: x in rows ==> key(x) != k
  {
    forall x | x in rows ensures key(x) != k {
      var i :| 0 <= i < |rows| && rows[i] == x;
    }
  }

  /** Updating rows leaves `.single()` on another key unchanged, and turns a
      unique match on the updated key into its updated row. */
  lemma SingleUpdate<T(!new), K>(rows: seq<T>, key: T -> K, k: K, f: T -> T, j: K)
    requires KeepsKey(key, f)
    ensures j != k ==> Single(UpdateWhere(rows, key, k, f), key, j) == Single(rows, key, j)
    ensures j == k && Single(rows, key, k).Some? ==>
              Single(UpdateWhere(rows, key, k, f), key, k) == Some(f(Single(rows, key, k).value))
    ensures j == k && Single(rows, key, k).None? ==> Single(UpdateWhere(rows, key, k, f), key, k).None?
  {
    WhereUpdate(rows, key, k, f, j);
  }

  /** Selecting on a column that an update never writes commutes with the
      update: the selected rows are the old selection, updated. */
  lemma {:induction false} WhereUpdateCommute<T(!new), K, L>(rows: seq<T>, key: T -> K, k: K, f: T -> T, col: T -> L, v: L)
    requires KeepsKey(col, f)
    ensures Where(UpdateWhere(rows, key, k, f), col, v) == UpdateWhere(Where(rows, col, v), key, k, f)
    decreases |rows|
  {
    if |rows| > 0 {
      var n := |rows| - 1;
      var x := rows[n];
      var y := if key(x) == k then f(x) else x;
      var u := UpdateWhere(rows, key, k, f);
      assert u[..n] == UpdateWhere(rows[..n], key, k, f);
      assert u[n] == y;
      WhereUpdateCommute(rows[..n], key, k, f, col, v);
      var w := Where(rows[..n], col, v);
      if col(x) == v {
        assert Where(rows, col, v) == w + [x];
        assert (w + [x])[..|w|] == w;
      } else {
        assert Where(rows, col, v) == w;
      }
    }
  }

  /** `.eq(column, v)` on a table with one row appended. */
  lemma WhereAppend<T, K>(rows: seq<T>, x: T, key: T -> K, k: K)
    ensures Where(rows + [x], key, k) == Where(rows, key, k) + (if key(x) == k then [x] else [])
  {
    assert (rows + [x])[..|rows|] == rows;
  }

  /** No two rows share a key (the store's primary-key constraint). */
  predicate UniqueKeys<T, K(==)>(rows: seq<T>, key: T -> K)
  {
    forall i, j :: 0 <= i < j < |rows| ==> key(rows[i]) != key(rows[j])
  }

  /** Every identity in use is below `nextId`, so a fresh insert cannot collide. */
  predicate IdsBelow(db: Db)
  {
    && (forall c :: c in db.users ==> c.id < db.nextId)
    && (forall t :: t in db.coinTxs ==> t.id < db.nextId)
    && (forall t :: t in db.debtTxs ==> t.id < db.nextId)
  }

  /** Deleting a key no row carries leaves the table as it was. */
  lemma {:induction false} DeleteAbsent<T, K>(rows: seq<T>, key: T -> K, k: K)
    requires forall x :: x in rows ==> key(x) != k
    ensures DeleteWhere(rows, key, k) == rows
    decreases |rows|
  {
    if |rows| > 0 {
      var n := |rows| - 1;
      DeleteAbsent(rows[..n], key, k);
      assert rows[..n] + [rows[n]] == rows;
    }
  }

  /** Appending a row and then deleting its (fresh) key gives the table back. */
  lemma DeleteLastAppended<T, K>(rows: seq<T>, x: T, key: T -> K)
    requires forall y :: y in rows ==> key(y) != key(x)
    ensures DeleteWhere(rows + [x], key, key(x)) == rows
  {
    assert (rows + [x])[..|rows|] == rows;
    DeleteAbsent(rows, key, key(x));
  }

  /** With unique keys, `.single()` finds a row exactly when one carries the key. */
  lemma {:induction false} SingleUnique<T, K>(rows: seq<T>, key: T -> K, x: T)
    requires UniqueKeys(rows, key)
    requires x in rows
    ensures Single(rows, key, key(x)) == Some(x)
    decreases |rows|
  {
    var n := |rows| - 1;
    var init := rows[..n];
    assert UniqueKeys(init, key);
    if rows[n] == x {
      assert forall y :: y in init ==> key(y) != key(x) by {
        forall y | y in init ensures key(y) != key(x) {
          var i :| 0 <= i < n && init[i] == y;
        }
      }
      WhereAbsent(init, key, key(x));
    } else {
      assert x in init by {
        var i :| 0 <= i < |rows| && rows[i] == x;
        assert i < n;
      }
      SingleUnique(init, key, x);
      var i :| 0 <= i < n && rows[i] == x;
      assert key(rows[n]) != key(x);
    }
  }

  lemma {:induction false} WhereAbsent<T, K>(rows: seq<T>, key: T -> K, k: K)
    requires forall x :: x in rows ==> key(x) != k
    ensures Where(rows, key, k) == []
    decreases |rows|
  {
    if |rows| > 0 {
      var n := |rows| - 1;
      WhereAbsent(rows[..n], key, k);
    }
  }

  /** The first row `.eq` returns is the first matching row of the table. */
  lemma {:induction false} WhereFirst<T, K>(rows: seq<T>, key: T -> K, k: K)
    requires |Where(rows, key, k)| > 0
    ensures exists i :: 0 <= i < |rows| && rows[i] == Where(rows, key, k)[0]
              && key(rows[i]) == k && (forall j :: 0 <= j < i ==> key(rows[j]) != k)
    decreases |rows|
  {
    var n := |rows| - 1;
    var init := rows[..n];
    var w := Where(init, key, k);
    assert Where(rows, key, k) == w + (if key(rows[n]) == k then [rows[n]] else []);
    if |w| > 0 {
      assert Where(rows, key, k)[0] == w[0];
      WhereFirst(init, key, k);
      var i :| 0 <= i < n && init[i] == w[0] && key(init[i]) == k && (forall j :: 0 <= j < i ==> key(init[j]) != k);
      assert forall j :: 0 <= j < i ==> rows[j] == init[j];
      assert rows[i] == init[i];
    } else {
      assert Where(rows, key, k)[0] == rows[n];
      forall j | 0 <= j < n ensures key(rows[j]) != k {
        assert rows[j] == init[j];
        WhereIndexAbsent(init, key, k, j);
      }
    }
  }

  lemma WhereIndexAbsent<T, K>(rows: seq<T>, key: T -> K, k: K, j: int)
    requires |Where(rows, key, k)| == 0 && 0 <= j < |rows|
    ensures key(rows[j]) != k
  {
  }
  /** Deleting key `k` leaves the selection on any other key as it was. */
  lemma {:induction false} WhereDelete<T, K>(rows: seq<T>, key: T -> K, k: K, j: K)
    requires j != k
    ensures Where(DeleteWhere(rows, key, k), key, j) == Where(rows, key, j)
    decreases |rows|
  {
    if |rows| > 0 {
      var n := |rows| - 1;
      var d := DeleteWhere(rows[..n], key, k);
      WhereDelete(rows[..n], key, k, j);
      assert Where(rows, key, j) == Where(rows[..n], key, j) + (if key(rows[n]) == j then [rows[n]] else []);
      if key(rows[n]) != k {
        assert DeleteWhere(rows, key, k) == d + [rows[n]];
        WhereAppend(d, rows[n], key, j);
      } else {
        assert DeleteWhere(rows, key, k) == d;
      }
    }
  }

  /** Deleting key `k` leaves `.single()` on any other key as it was. */
  lemma SingleDelete<T, K>(rows: seq<T>, key: T -> K, k: K, j: K)
    requires j != k
    ensures Single(DeleteWhere(rows, key, k), key, j) == Single(rows, key, j)
  {
    WhereDelete(rows, key, k, j);
  }

  /** `f` gives the same row when applied a second time. */
  ghost predicate Idempotent<T(!new)>(f: T -> T)
  {
    forall x :: f(f(x)) == f(x)
  }

  /** Repeating an update whose patch is idempotent changes nothing. */
  lemma UpdateTwice<T(!new), K>(rows: seq<T>, key: T -> K, k: K, f: T -> T)
    requires KeepsKey(key, f) && Idempotent(f)
    ensures UpdateWhere(UpdateWhere(rows, key, k, f), key, k, f) == UpdateWhere(rows, key, k, f)
  {
    var u := UpdateWhere(rows, key, k, f);
    var v := UpdateWhere(u, key, k, f);
    forall i | 0 <= i < |rows| ensures v[i] == u[i] {
      assert key(u[i]) == key(rows[i]);
    }
  }
}
