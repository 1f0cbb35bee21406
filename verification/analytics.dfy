/** `GET /api/analytics`: sales and expenses grouped by month, expense
    categories ranked by total, a three-month sales forecast, sales per
    weekday and per-branch totals for the last three months.

    The JavaScript records the handler accumulates into are modelled as
    association lists of `Entry`s: the month records as a list kept sorted by
    key (the order the timeline and the branch comparison are reported in),
    the category record in insertion order. The date library (`getDay`,
    `differenceInMonths`, `addMonths`) is a `Calendar` parameter. */
module Analytics {
  import opened Basics
  import Text

  datatype Entry<V> = Entry(key: string, value: V)

  /** The value stored under `k`, if any (the first entry with that key). */
  function Get<V>(rows: seq<Entry<V>>, k: string): Option<V>
  {
    if |rows| == 0 then None
    else if rows[0].key == k then Some(rows[0].value)
    else Get(rows[1..], k)
  }

  function ValueOr<V>(o: Option<V>, init: V): V
  {
    if o.Some? then o.value else init
  }

  // ---------------------------------------------------------------------
  // Records in insertion order (`obj[k] = f(obj[k] || init)`).
  // ---------------------------------------------------------------------

  /** Updates the entry of `k` in place, or appends a new one at the end. */
  function Upsert<V>(rows: seq<Entry<V>>, k: string, init: V, f: V -> V): (r: seq<Entry<V>>)
    ensures |r| == |rows| + (if Get(rows, k).None? then 1 else 0)
    ensures Get(r, k) == Some(f(ValueOr(Get(rows, k), init)))
    ensures forall j :: j != k ==> Get(r, j) == Get(rows, j)
    ensures forall i :: 0 <= i < |rows| ==> r[i].key == rows[i].key
    decreases |rows|
  {
    if |rows| == 0 then [Entry(k, f(init))]
    else if rows[0].key == k then [Entry(k, f(rows[0].value))] + rows[1..]
    else [rows[0]] + Upsert(rows[1..], k, init, f)
  }

  /** A new key is appended after every existing entry. */
  lemma {:induction false} UpsertAppends<V>(rows: seq<Entry<V>>, k: string, init: V, f: V -> V)
    requires Get(rows, k).None?
    ensures Upsert(rows, k, init, f) == rows + [Entry(k, f(init))]
    decreases |rows|
  {
    if |rows| > 0 {
      UpsertAppends(rows[1..], k, init, f);
      assert [rows[0]] + (rows[1..] + [Entry(k, f(init))]) == rows + [Entry(k, f(init))];
    }
  }

  // ---------------------------------------------------------------------
  // Records kept sorted by key.
  // ---------------------------------------------------------------------

  /** Keys strictly increasing in the default string order. */
  predicate Sorted<V>(rows: seq<Entry<V>>)
  {
    forall i, j :: 0 <= i < j < |rows| ==> Text.Less(rows[i].key, rows[j].key)
  }

  /** Every key of `rows` comes after `lo`. */
  predicate AllAbove<V>(lo: string, rows: seq<Entry<V>>)
  {
    forall i :: 0 <= i < |rows| ==> Text.Less(lo, rows[i].key)
  }

  /** Updates the entry of `k` in place, or inserts a new one where its key belongs. */
  function SortedUpsert<V>(rows: seq<Entry<V>>, k: string, init: V, f: V -> V): (r: seq<Entry<V>>)
    ensures |r| >= |rows|
    decreases |rows|
  {
    if |rows| == 0 then [Entry(k, f(init))]
    else if rows[0].key == k then [Entry(k, f(rows[0].value))] + rows[1..]
    else if Text.Less(k, rows[0].key) then [Entry(k, f(init))] + rows
    else [rows[0]] + SortedUpsert(rows[1..], k, init, f)
  }

  lemma SortedTail<V>(rows: seq<Entry<V>>)
    requires Sorted(rows) && |rows| > 0
    ensures Sorted(rows[1..]) && AllAbove(rows[0].key, rows[1..])
  {
  }

  lemma SortedCons<V>(x: Entry<V>, rows: seq<Entry<V>>)
    requires Sorted(rows) && AllAbove(x.key, rows)
    ensures Sorted([x] + rows)
  {
    var r := [x] + rows;
    forall i, j | 0 <= i < j < |r| ensures Text.Less(r[i].key, r[j].key) {
      assert r[j] == rows[j - 1];
      if i > 0 {
        assert r[i] == rows[i - 1];
      }
    }
  }

  /** A key below the first key of a sorted list is in none of its entries. */
  lemma {:induction false} BelowFirstAbsent<V>(rows: seq<Entry<V>>, k: string)
    requires Sorted(rows) && |rows| > 0 && Text.Less(k, rows[0].key)
    ensures Get(rows, k).None?
    decreases |rows|
  {
    if |rows| > 1 {
      SortedTail(rows);
      Text.LessTransitive(k, rows[0].key, rows[1].key);
      BelowFirstAbsent(rows[1..], k);
    }
  }

  /** Inserting a key above `lo` keeps every key above `lo`. */
  lemma {:induction false} SortedUpsertAbove<V>(rows: seq<Entry<V>>, k: string, init: V, f: V -> V, lo: string)
    requires AllAbove(lo, rows) && Text.Less(lo, k)
    ensures AllAbove(lo, SortedUpsert(rows, k, init, f))
    decreases |rows|
  {
    if |rows| > 0 && rows[0].key != k && !Text.Less(k, rows[0].key) {
      SortedUpsertAbove(rows[1..], k, init, f, lo);
    }
  }

  /** The sorted upsert keeps the list sorted, and it updates exactly the
      entry of `k`, creating it from `init` when absent. */
  lemma {:induction false} SortedUpsertSpec<V>(rows: seq<Entry<V>>, k: string, init: V, f: V -> V)
    requires Sorted(rows)
    ensures var r := SortedUpsert(rows, k, init, f);
            && Sorted(r)
            && |r| == |rows| + (if Get(rows, k).None? then 1 else 0)
            && Get(r, k) == Some(f(ValueOr(Get(rows, k), init)))
            && (forall j :: j != k ==> Get(r, j) == Get(rows, j))
    decreases |rows|
  {
    var r := SortedUpsert(rows, k, init, f);
    if |rows| == 0 {
    } else if rows[0].key == k {
      SortedTail(rows);
      SortedCons(Entry(k, f(rows[0].value)), rows[1..]);
    } else if Text.Less(k, rows[0].key) {
      BelowFirstAbsent(rows, k);
      forall i | 0 <= i < |rows| ensures Text.Less(k, rows[i].key) {
        if i > 0 {
          Text.LessTransitive(k, rows[0].key, rows[i].key);
        }
      }
      SortedCons(Entry(k, f(init)), rows);
    } else {
      SortedTail(rows);
      SortedUpsertSpec(rows[1..], k, init, f);
      Text.LessTotal(k, rows[0].key);
      SortedUpsertAbove(rows[1..], k, init, f, rows[0].key);
      SortedCons(rows[0], SortedUpsert(rows[1..], k, init, f));
    }
  }

  lemma SortedUpsertSorted<V>(rows: seq<Entry<V>>, k: string, init: V, f: V -> V)
    ensures Sorted(rows) ==> Sorted(SortedUpsert(rows, k, init, f))
  {
    if Sorted(rows) {
      SortedUpsertSpec(rows, k, init, f);
    }
  }

  // ---------------------------------------------------------------------
  // Sums over a record.
  // ---------------------------------------------------------------------

  /** The sum of `w` over the values of a record. */
  function SumOf<V>(rows: seq<Entry<V>>, w: V -> int): int
    decreases |rows|
  {
    if |rows| == 0 then 0 else w(rows[0].value) + SumOf(rows[1..], w)
  }

  /** An upsert moves the sum by the change of the one entry it touches. */
  lemma {:induction false} UpsertSum<V>(rows: seq<Entry<V>>, k: string, init: V, f: V -> V, w: V -> int)
    requires w(init) == 0
    ensures var v := ValueOr(Get(rows, k), init);
            SumOf(Upsert(rows, k, init, f), w) == SumOf(rows, w) + w(f(v)) - w(v)
    decreases |rows|
  {
    if |rows| > 0 && rows[0].key != k {
      UpsertSum(rows[1..], k, init, f, w);
    }
  }

  lemma {:induction false} SortedUpsertSum<V>(rows: seq<Entry<V>>, k: string, init: V, f: V -> V, w: V -> int)
    requires Sorted(rows) && w(init) == 0
    ensures var v := ValueOr(Get(rows, k), init);
            SumOf(SortedUpsert(rows, k, init, f), w) == SumOf(rows, w) + w(f(v)) - w(v)
    decreases |rows|
  {
    if |rows| > 0 && rows[0].key != k {
      if Text.Less(k, rows[0].key) {
        BelowFirstAbsent(rows, k);
      } else {
        SortedTail(rows);
        SortedUpsertSum(rows[1..], k, init, f, w);
      }
    }
  }

  // ---------------------------------------------------------------------
  // The input rows and the calendar.
  // ---------------------------------------------------------------------

  /** A `sales` row as selected: `date, amount, branch`. */
  datatype SaleRec = SaleRec(date: string, amount: int, branch: Option<string>)

  /** An `expenses` row as selected: `date, amount, category, branch`. */
  datatype ExpenseRec = ExpenseRec(date: string, amount: int, category: Option<string>, branch: Option<string>)

  /** `getDay`: 0 is Sunday. */
  type Weekday = d: int | 0 <= d < 7

  /** The date library: the weekday of a date, `differenceInMonths` between
      the first days of two month keys, and the month key `i` months after
      a month key. */
  datatype Calendar = Calendar(
    dayOf: string -> Weekday,
    monthsBetween: (string, string) -> int,
    monthAfter: (string, int) -> string)

  /** `getMonthKey`: `date.substring(0, 7)`, the `YYYY-MM` prefix. */
  function MonthKey(date: string): (r: string)
    ensures r <= date
    ensures |r| == if |date| < 7 then |date| else 7
  {
    if |date| <= 7 then date else date[..7]
  }

  /** `normalizeBranch`: a falsy branch is `Unknown`, any other is trimmed. */
  function NormalizeBranch(b: Option<string>): (r: string)
    ensures !TruthyStr(b) ==> r == "Unknown"
    ensures TruthyStr(b) ==> r == Text.Trim(b.value)
  {
    if TruthyStr(b) then Text.Trim(b.value) else "Unknown"
  }

  function SalesTotal(sales: seq<SaleRec>): int
    decreases |sales|
  {
    if |sales| == 0 then 0 else SalesTotal(sales[..|sales| - 1]) + sales[|sales| - 1].amount
  }

  function ExpensesTotal(expenses: seq<ExpenseRec>): int
    decreases |expenses|
  {
    if |expenses| == 0 then 0 else ExpensesTotal(expenses[..|expenses| - 1]) + expenses[|expenses| - 1].amount
  }

  /** The expenses that carry a (truthy) category. */
  function CategorizedTotal(expenses: seq<ExpenseRec>): int
    decreases |expenses|
  {
    if |expenses| == 0 then 0
    else
      var e := expenses[|expenses| - 1];
      CategorizedTotal(expenses[..|expenses| - 1]) + (if TruthyStr(e.category) then e.amount else 0)
  }

  // ---------------------------------------------------------------------
  // Monthly totals (the timeline).
  // ---------------------------------------------------------------------

  datatype Totals = Totals(sales: int, expenses: int)

  const Zero := Totals(0, 0)

  function AddSales(a: int): Totals -> Totals
  {
    (t: Totals) => t.(sales := t.sales + a)
  }

  function AddExpenses(a: int): Totals -> Totals
  {
    (t: Totals) => t.(expenses := t.expenses + a)
  }

  function SalesOf(t: Totals): int { t.sales }
  function ExpensesOf(t: Totals): int { t.expenses }

  /** `monthlyData` after the sales loop, in month order. */
  function SaleMonths(sales: seq<SaleRec>): (r: seq<Entry<Totals>>)
    ensures Sorted(r)
    decreases |sales|
  {
    if |sales| == 0 then []
    else
      var s := sales[|sales| - 1];
      var before := SaleMonths(sales[..|sales| - 1]);
      SortedUpsertSpec(before, MonthKey(s.date), Zero, AddSales(s.amount));
      SortedUpsert(before, MonthKey(s.date), Zero, AddSales(s.amount))
  }

  /** `monthlyData` after the expense loop, starting from the sales months. */
  function ExpenseMonths(base: seq<Entry<Totals>>, expenses: seq<ExpenseRec>): (r: seq<Entry<Totals>>)
    ensures Sorted(base) ==> Sorted(r)
    decreases |expenses|
  {
    if |expenses| == 0 then base
    else
      var e := expenses[|expenses| - 1];
      var before := ExpenseMonths(base, expenses[..|expenses| - 1]);
      SortedUpsertSorted(before, MonthKey(e.date), Zero, AddExpenses(e.amount));
      SortedUpsert(before, MonthKey(e.date), Zero, AddExpenses(e.amount))
  }

  /** `monthlyData` as reported: one entry per month, in month order. */
  function Timeline(sales: seq<SaleRec>, expenses: seq<ExpenseRec>): (r: seq<Entry<Totals>>)
    ensures Sorted(r)
  {
    ExpenseMonths(SaleMonths(sales), expenses)
  }

  /** One sale filed under its month: the months stay sorted, the sales
      grow by its amount, the expenses stay. */
  lemma AddSalesStep(rows: seq<Entry<Totals>>, k: string, a: int)
    requires Sorted(rows)
    ensures var r := SortedUpsert(rows, k, Zero, AddSales(a));
            && Sorted(r)
            && SumOf(r, SalesOf) == SumOf(rows, SalesOf) + a
            && SumOf(r, ExpensesOf) == SumOf(rows, ExpensesOf)
  {
    var v := ValueOr(Get(rows, k), Zero);
    assert AddSales(a)(v) == Totals(v.sales + a, v.expenses);
    SortedUpsertSpec(rows, k, Zero, AddSales(a));
    SortedUpsertSum(rows, k, Zero, AddSales(a), SalesOf);
    SortedUpsertSum(rows, k, Zero, AddSales(a), ExpensesOf);
  }

  /** One expense filed under its month. */
  lemma AddExpensesStep(rows: seq<Entry<Totals>>, k: string, a: int)
    requires Sorted(rows)
    ensures var r := SortedUpsert(rows, k, Zero, AddExpenses(a));
            && Sorted(r)
            && SumOf(r, SalesOf) == SumOf(rows, SalesOf)
            && SumOf(r, ExpensesOf) == SumOf(rows, ExpensesOf) + a
  {
    var v := ValueOr(Get(rows, k), Zero);
    assert AddExpenses(a)(v) == Totals(v.sales, v.expenses + a);
    SortedUpsertSpec(rows, k, Zero, AddExpenses(a));
    SortedUpsertSum(rows, k, Zero, AddExpenses(a), SalesOf);
    SortedUpsertSum(rows, k, Zero, AddExpenses(a), ExpensesOf);
  }

  /** The sales loop files every sale under its month: the months are sorted,
      they sum to all sales and carry no expenses. */
  lemma {:induction false} SaleMonthsSpec(sales: seq<SaleRec>)
    ensures Sorted(SaleMonths(sales))
    ensures SumOf(SaleMonths(sales), SalesOf) == SalesTotal(sales)
    ensures SumOf(SaleMonths(sales), ExpensesOf) == 0
    decreases |sales|
  {
    if |sales| > 0 {
      var n := |sales| - 1;
      var s := sales[n];
      SaleMonthsSpec(sales[..n]);
      AddSalesStep(SaleMonths(sales[..n]), MonthKey(s.date), s.amount);
    }
  }

  lemma {:induction false} ExpenseMonthsSpec(base: seq<Entry<Totals>>, expenses: seq<ExpenseRec>)
    requires Sorted(base)
    ensures Sorted(ExpenseMonths(base, expenses))
    ensures SumOf(ExpenseMonths(base, expenses), SalesOf) == SumOf(base, SalesOf)
    ensures SumOf(ExpenseMonths(base, expenses), ExpensesOf) == SumOf(base, ExpensesOf) + ExpensesTotal(expenses)
    decreases |expenses|
  {
    if |expenses| > 0 {
      var n := |expenses| - 1;
      var e := expenses[n];
      ExpenseMonthsSpec(base, expenses[..n]);
      AddExpensesStep(ExpenseMonths(base, expenses[..n]), MonthKey(e.date), e.amount);
    }
  }

  /** The timeline is in month order and accounts for every sale and every
      expense exactly once. */
  lemma TimelineSpec(sales: seq<SaleRec>, expenses: seq<ExpenseRec>)
    ensures Sorted(Timeline(sales, expenses))
    ensures SumOf(Timeline(sales, expenses), SalesOf) == SalesTotal(sales)
    ensures SumOf(Timeline(sales, expenses), ExpensesOf) == ExpensesTotal(expenses)
  {
    SaleMonthsSpec(sales);
    ExpenseMonthsSpec(SaleMonths(sales), expenses);
  }

  // ---------------------------------------------------------------------
  // Expense categories.
  // ---------------------------------------------------------------------

  function AddAmount(a: int): int -> int
  {
    (x: int) => x + a
  }

  function Amount(x: int): int { x }

  /** `expenseCategories`: a running total per truthy category, in the order
      the categories first occur. */
  function Categories(expenses: seq<ExpenseRec>): (r: seq<Entry<int>>)
    ensures forall i :: 0 <= i < |r| ==> r[i].key != "" && Mentions(expenses, r[i].key)
    decreases |expenses|
  {
    if |expenses| == 0 then []
    else
      var e := expenses[|expenses| - 1];
      var before := Categories(expenses[..|expenses| - 1]);
      if TruthyStr(e.category) then
        if Get(before, e.category.value).None? then
          UpsertAppends(before, e.category.value, 0, AddAmount(e.amount));
          Upsert(before, e.category.value, 0, AddAmount(e.amount))
        else Upsert(before, e.category.value, 0, AddAmount(e.amount))
      else before
  }

  /** Some expense is filed under category `k`. */
  predicate Mentions(expenses: seq<ExpenseRec>, k: string)
    decreases |expenses|
  {
    |expenses| > 0 && (expenses[|expenses| - 1].category == Some(k) || Mentions(expenses[..|expenses| - 1], k))
  }

  /** The sum of the expenses filed under category `k`. */
  function CategoryTotal(expenses: seq<ExpenseRec>, k: string): int
    decreases |expenses|
  {
    if |expenses| == 0 then 0
    else
      var e := expenses[|expenses| - 1];
      CategoryTotal(expenses[..|expenses| - 1], k) + (if e.category == Some(k) then e.amount else 0)
  }

  lemma {:induction false} NoMentionNoTotal(expenses: seq<ExpenseRec>, k: string)
    requires !Mentions(expenses, k)
    ensures CategoryTotal(expenses, k) == 0
    decreases |expenses|
  {
    if |expenses| > 0 {
      NoMentionNoTotal(expenses[..|expenses| - 1], k);
    }
  }

  /** The category record holds exactly the non-empty categories some
      expense names, each with the sum of its expenses; together they add up
      to every categorised expense. */
  lemma {:induction false} CategoriesSpec(expenses: seq<ExpenseRec>)
    ensures forall k :: Get(Categories(expenses), k) ==
              if k != "" && Mentions(expenses, k) then Some(CategoryTotal(expenses, k)) else None
    ensures SumOf(Categories(expenses), Amount) == CategorizedTotal(expenses)
    decreases |expenses|
  {
    if |expenses| > 0 {
      var n := |expenses| - 1;
      var e := expenses[n];
      var before := Categories(expenses[..n]);
      CategoriesSpec(expenses[..n]);
      if TruthyStr(e.category) {
        UpsertSum(before, e.category.value, 0, AddAmount(e.amount), Amount);
      }
      forall k ensures Get(Categories(expenses), k) ==
                 if k != "" && Mentions(expenses, k) then Some(CategoryTotal(expenses, k)) else None
      {
        assert Mentions(expenses, k) == (e.category == Some(k) || Mentions(expenses[..n], k));
        assert CategoryTotal(expenses, k) == CategoryTotal(expenses[..n], k) + (if e.category == Some(k) then e.amount else 0);
        if k != "" && !Mentions(expenses[..n], k) {
          assert CategoryTotal(expenses[..n], k) == 0 by { NoMentionNoTotal(expenses[..n], k); }
        }
      }
    }
  }

  /** Values never increase from one entry to the next. */
  predicate Descending(rows: seq<Entry<int>>)
  {
    forall i :: 0 <= i < |rows| - 1 ==> rows[i].value >= rows[i + 1].value
  }

  /** Places `x` before the first entry whose value it reaches. */
  function InsertDescending(x: Entry<int>, rows: seq<Entry<int>>): (r: seq<Entry<int>>)
    requires Descending(rows)
    ensures Descending(r)
    ensures multiset(r) == multiset(rows) + multiset{x}
    ensures r[0] == x || (|rows| > 0 && r[0] == rows[0])
    decreases |rows|
  {
    if |rows| == 0 || x.value >= rows[0].value then
      ConsDescending(x, rows);
      [x] + rows
    else
      var rest := InsertDescending(x, rows[1..]);
      assert rows == [rows[0]] + rows[1..];
      assert |rows| > 1 ==> rows[0].value >= rows[1].value;
      ConsDescending(rows[0], rest);
      [rows[0]] + rest
  }

  lemma ConsDescending(y: Entry<int>, rows: seq<Entry<int>>)
    requires Descending(rows) && (|rows| > 0 ==> y.value >= rows[0].value)
    ensures Descending([y] + rows)
  {
    var r := [y] + rows;
    forall i | 0 <= i < |r| - 1 ensures r[i].value >= r[i + 1].value {
      if i > 0 {
        assert r[i] == rows[i - 1] && r[i + 1] == rows[i];
      }
    }
  }

  /** `.sort((a, b) => b.value - a.value)`: a stable sort by descending
      value; entries of equal value keep their order. */
  function RankDescending(rows: seq<Entry<int>>): (r: seq<Entry<int>>)
    ensures Descending(r)
    ensures multiset(r) == multiset(rows)
    decreases |rows|
  {
    if |rows| == 0 then []
    else
      assert rows == [rows[0]] + rows[1..];
      InsertDescending(rows[0], RankDescending(rows[1..]))
  }

  lemma {:induction false} InsertDescendingSum(x: Entry<int>, rows: seq<Entry<int>>)
    requires Descending(rows)
    ensures SumOf(InsertDescending(x, rows), Amount) == SumOf(rows, Amount) + x.value
    decreases |rows|
  {
    if |rows| == 0 || x.value >= rows[0].value {
      assert ([x] + rows)[1..] == rows;
    } else {
      var rest := InsertDescending(x, rows[1..]);
      InsertDescendingSum(x, rows[1..]);
      assert ([rows[0]] + rest)[1..] == rest;
    }
  }

  /** Ranking moves the categories but keeps their total. */
  lemma {:induction false} RankKeepsSum(rows: seq<Entry<int>>)
    ensures SumOf(RankDescending(rows), Amount) == SumOf(rows, Amount)
    decreases |rows|
  {
    if |rows| > 0 {
      RankKeepsSum(rows[1..]);
      InsertDescendingSum(rows[0], RankDescending(rows[1..]));
    }
  }

  /** Descending order between neighbours is descending order between any
      two entries: the first category is the largest. */
  lemma {:induction false} DescendingPairwise(rows: seq<Entry<int>>, i: int, j: int)
    requires Descending(rows) && 0 <= i <= j < |rows|
    ensures rows[i].value >= rows[j].value
    decreases j - i
  {
    if i < j {
      DescendingPairwise(rows, i + 1, j);
    }
  }

  /** Entries of equal value keep their relative order: the stable sort of
      a list that is already descending changes nothing. */
  lemma {:induction false} RankKeepsDescending(rows: seq<Entry<int>>)
    requires Descending(rows)
    ensures RankDescending(rows) == rows
    decreases |rows|
  {
    if |rows| > 0 {
      var tail := rows[1..];
      assert Descending(tail) by {
        forall i | 0 <= i < |tail| - 1 ensures tail[i].value >= tail[i + 1].value {
          assert tail[i] == rows[i + 1] && tail[i + 1] == rows[i + 2];
        }
      }
      RankKeepsDescending(tail);
      assert RankDescending(rows) == InsertDescending(rows[0], tail);
      assert |tail| > 0 ==> rows[0].value >= tail[0].value;
      assert InsertDescending(rows[0], tail) == [rows[0]] + tail;
      assert [rows[0]] + tail == rows;
    }
  }

  // ---------------------------------------------------------------------
  // Sales per weekday.
  // ---------------------------------------------------------------------

  /** Indexed by `getDay`: 0 is Sunday. */
  const DayNames: seq<string> := ["Domingo", "Lunes", "Martes", "Miércoles", "Jueves", "Viernes", "Sábado"]

  /** `weekdayTotals`: seven running totals, one per `getDay` index. */
  function WeekdayTotals(sales: seq<SaleRec>, cal: Calendar): (r: seq<int>)
    ensures |r| == 7
    decreases |sales|
  {
    if |sales| == 0 then [0, 0, 0, 0, 0, 0, 0]
    else
      var s := sales[|sales| - 1];
      var t := WeekdayTotals(sales[..|sales| - 1], cal);
      var d := cal.dayOf(s.date);
      t[d := t[d] + s.amount]
  }

  /** The sales that fall on weekday `d`. */
  function DayTotal(sales: seq<SaleRec>, cal: Calendar, d: Weekday): int
    decreases |sales|
  {
    if |sales| == 0 then 0
    else
      var s := sales[|sales| - 1];
      DayTotal(sales[..|sales| - 1], cal, d) + (if cal.dayOf(s.date) == d then s.amount else 0)
  }

  function Total(xs: seq<int>): int
    decreases |xs|
  {
    if |xs| == 0 then 0 else Total(xs[..|xs| - 1]) + xs[|xs| - 1]
  }

  lemma Total7(t: seq<int>)
    requires |t| == 7
    ensures Total(t) == t[0] + t[1] + t[2] + t[3] + t[4] + t[5] + t[6]
  {
    assert Total(t[..1]) == t[0] by { assert t[..1][..0] == []; }
    assert Total(t[..2]) == Total(t[..1]) + t[1] by { assert t[..2][..1] == t[..1]; }
    assert Total(t[..3]) == Total(t[..2]) + t[2] by { assert t[..3][..2] == t[..2]; }
    assert Total(t[..4]) == Total(t[..3]) + t[3] by { assert t[..4][..3] == t[..3]; }
    assert Total(t[..5]) == Total(t[..4]) + t[4] by { assert t[..5][..4] == t[..4]; }
    assert Total(t[..6]) == Total(t[..5]) + t[5] by { assert t[..6][..5] == t[..5]; }
  }

  /** Every weekday slot holds the sales of that weekday, and the slots add
      up to all sales. */
  lemma {:induction false} WeekdayTotalsSpec(sales: seq<SaleRec>, cal: Calendar)
    ensures forall d: Weekday :: WeekdayTotals(sales, cal)[d] == DayTotal(sales, cal, d)
    ensures Total(WeekdayTotals(sales, cal)) == SalesTotal(sales)
    decreases |sales|
  {
    var t := WeekdayTotals(sales, cal);
    Total7(t);
    if |sales| > 0 {
      var n := |sales| - 1;
      WeekdayTotalsSpec(sales[..n], cal);
      Total7(WeekdayTotals(sales[..n], cal));
    }
  }

  datatype DayRow = DayRow(day: string, sales: int)

  /** `weekdayStats`: the weekday totals reported Monday first, Sunday last. */
  function WeekdayStats(t: seq<int>): (r: seq<DayRow>)
    requires |t| == 7
    ensures |r| == 7
    ensures r[0].day == "Lunes" && r[6] == DayRow("Domingo", t[0])
    ensures forall i, j :: 0 <= i < j < 7 ==> r[i].day != r[j].day
  {
    [ DayRow(DayNames[1], t[1]), DayRow(DayNames[2], t[2]), DayRow(DayNames[3], t[3]), DayRow(DayNames[4], t[4]),
      DayRow(DayNames[5], t[5]), DayRow(DayNames[6], t[6]), DayRow(DayNames[0], t[0]) ]
  }

  /** Every weekday's total is reported, under that weekday's name. */
  lemma WeekdayStatsCover(t: seq<int>, d: Weekday)
    requires |t| == 7
    ensures exists i :: 0 <= i < 7 && WeekdayStats(t)[i] == DayRow(DayNames[d], t[d])
  {
    var i := if d == 0 then 6 else d - 1;
    assert WeekdayStats(t)[i] == DayRow(DayNames[d], t[d]);
  }

  /** The reported rows add up to the seven totals. */
  lemma WeekdayStatsSum(t: seq<int>)
    requires |t| == 7
    ensures var r := WeekdayStats(t);
            r[0].sales + r[1].sales + r[2].sales + r[3].sales + r[4].sales + r[5].sales + r[6].sales == Total(t)
  {
    Total7(t);
  }

  // ---------------------------------------------------------------------
  // Per-branch totals per month.
  // ---------------------------------------------------------------------

  type Branches = seq<Entry<Totals>>

  function AddBranchSale(b: string, a: int): Branches -> Branches
  {
    (bs: Branches) => Upsert(bs, b, Zero, AddSales(a))
  }

  function AddBranchExpense(b: string, a: int): Branches -> Branches
  {
    (bs: Branches) => Upsert(bs, b, Zero, AddExpenses(a))
  }

  /** `branchMonthlyStats` after the sales loop. */
  function BranchSaleMonths(sales: seq<SaleRec>): (r: seq<Entry<Branches>>)
    ensures Sorted(r)
    decreases |sales|
  {
    if |sales| == 0 then []
    else
      var s := sales[|sales| - 1];
      var before := BranchSaleMonths(sales[..|sales| - 1]);
      SortedUpsertSorted(before, MonthKey(s.date), [], AddBranchSale(NormalizeBranch(s.branch), s.amount));
      SortedUpsert(before, MonthKey(s.date), [], AddBranchSale(NormalizeBranch(s.branch), s.amount))
  }

  /** `branchMonthlyStats` after the expense loop. */
  function BranchExpenseMonths(base: seq<Entry<Branches>>, expenses: seq<ExpenseRec>): (r: seq<Entry<Branches>>)
    ensures Sorted(base) ==> Sorted(r)
    decreases |expenses|
  {
    if |expenses| == 0 then base
    else
      var e := expenses[|expenses| - 1];
      var before := BranchExpenseMonths(base, expenses[..|expenses| - 1]);
      SortedUpsertSorted(before, MonthKey(e.date), [], AddBranchExpense(NormalizeBranch(e.branch), e.amount));
      SortedUpsert(before, MonthKey(e.date), [], AddBranchExpense(NormalizeBranch(e.branch), e.amount))
  }

  /** `branchMonthlyStats` as built: one entry per month, in month order,
      each a record of per-branch totals. */
  function BranchMonths(sales: seq<SaleRec>, expenses: seq<ExpenseRec>): (r: seq<Entry<Branches>>)
    ensures Sorted(r)
  {
    BranchExpenseMonths(BranchSaleMonths(sales), expenses)
  }

  /** The branch record has the months of the timeline, and in each month
      the branches' sales and expenses add up to the month's totals. */
  ghost predicate Agree(timeline: seq<Entry<Totals>>, months: seq<Entry<Branches>>)
  {
    forall k ::
      && (Get(timeline, k).Some? <==> Get(months, k).Some?)
      && (Get(timeline, k).Some? ==>
            && SumOf(Get(months, k).value, SalesOf) == Get(timeline, k).value.sales
            && SumOf(Get(months, k).value, ExpensesOf) == Get(timeline, k).value.expenses)
  }

  /** One sale or one expense, filed in both records, keeps them agreeing. */
  lemma AgreeStep(timeline: seq<Entry<Totals>>, months: seq<Entry<Branches>>, k: string, b: string, a: int, isSale: bool)
    requires Sorted(timeline) && Sorted(months) && Agree(timeline, months)
    ensures var t := SortedUpsert(timeline, k, Zero, if isSale then AddSales(a) else AddExpenses(a));
            var m := SortedUpsert(months, k, [], if isSale then AddBranchSale(b, a) else AddBranchExpense(b, a));
            Sorted(t) && Sorted(m) && Agree(t, m) && |t| == |m| + |timeline| - |months|
  {
    var ft := if isSale then AddSales(a) else AddExpenses(a);
    var fm := if isSale then AddBranchSale(b, a) else AddBranchExpense(b, a);
    var t := SortedUpsert(timeline, k, Zero, ft);
    var m := SortedUpsert(months, k, [], fm);
    SortedUpsertSpec(timeline, k, Zero, ft);
    SortedUpsertSpec(months, k, [], fm);
    var old_b := ValueOr(Get(months, k), []);
    var fa := if isSale then AddSales(a) else AddExpenses(a);
    assert fm(old_b) == Upsert(old_b, b, Zero, fa);
    UpsertSum(old_b, b, Zero, fa, SalesOf);
    UpsertSum(old_b, b, Zero, fa, ExpensesOf);
    forall j ensures
      && (Get(t, j).Some? <==> Get(m, j).Some?)
      && (Get(t, j).Some? ==>
            && SumOf(Get(m, j).value, SalesOf) == Get(t, j).value.sales
            && SumOf(Get(m, j).value, ExpensesOf) == Get(t, j).value.expenses)
    {
    }
  }

  /** The two records are built from the same months: they agree, and they
      have the same length. */
  lemma {:induction false} BranchSaleMonthsAgree(sales: seq<SaleRec>)
    ensures Sorted(SaleMonths(sales)) && Sorted(BranchSaleMonths(sales))
    ensures Agree(SaleMonths(sales), BranchSaleMonths(sales))
    ensures |SaleMonths(sales)| == |BranchSaleMonths(sales)|
    decreases |sales|
  {
    if |sales| > 0 {
      var n := |sales| - 1;
      var s := sales[n];
      BranchSaleMonthsAgree(sales[..n]);
      AgreeStep(SaleMonths(sales[..n]), BranchSaleMonths(sales[..n]), MonthKey(s.date), NormalizeBranch(s.branch), s.amount, true);
    }
  }

  lemma {:induction false} BranchExpenseMonthsAgree(tbase: seq<Entry<Totals>>, mbase: seq<Entry<Branches>>, expenses: seq<ExpenseRec>)
    requires Sorted(tbase) && Sorted(mbase) && Agree(tbase, mbase) && |tbase| == |mbase|
    ensures Sorted(ExpenseMonths(tbase, expenses)) && Sorted(BranchExpenseMonths(mbase, expenses))
    ensures Agree(ExpenseMonths(tbase, expenses), BranchExpenseMonths(mbase, expenses))
    ensures |ExpenseMonths(tbase, expenses)| == |BranchExpenseMonths(mbase, expenses)|
    decreases |expenses|
  {
    if |expenses| > 0 {
      var n := |expenses| - 1;
      var e := expenses[n];
      BranchExpenseMonthsAgree(tbase, mbase, expenses[..n]);
      AgreeStep(ExpenseMonths(tbase, expenses[..n]), BranchExpenseMonths(mbase, expenses[..n]),
                MonthKey(e.date), NormalizeBranch(e.branch), e.amount, false);
    }
  }

  /** Per-branch figures add up to the timeline's figures, month by month. */
  lemma BranchMonthsAgree(sales: seq<SaleRec>, expenses: seq<ExpenseRec>)
    ensures Sorted(BranchMonths(sales, expenses))
    ensures Agree(Timeline(sales, expenses), BranchMonths(sales, expenses))
    ensures |Timeline(sales, expenses)| == |BranchMonths(sales, expenses)|
  {
    BranchSaleMonthsAgree(sales);
    BranchExpenseMonthsAgree(SaleMonths(sales), BranchSaleMonths(sales), expenses);
  }

  // ---------------------------------------------------------------------
  // What each month, and each branch within a month, holds.
  // ---------------------------------------------------------------------

  /** A row dated `date` at branch `branch` falls in month `k` and, when `b`
      names a branch, in that branch (after `normalizeBranch`). */
  predicate In(date: string, branch: Option<string>, k: string, b: Option<string>)
  {
    MonthKey(date) == k && (b.None? || NormalizeBranch(branch) == b.value)
  }

  /** Some sale falls in month `k` (and branch `b`). */
  predicate AnySale(sales: seq<SaleRec>, k: string, b: Option<string>)
    decreases |sales|
  {
    |sales| > 0
    && (In(sales[|sales| - 1].date, sales[|sales| - 1].branch, k, b) || AnySale(sales[..|sales| - 1], k, b))
  }

  /** The sum of the sales that fall in month `k` (and branch `b`). */
  function SalesIn(sales: seq<SaleRec>, k: string, b: Option<string>): int
    decreases |sales|
  {
    if |sales| == 0 then 0
    else
      var s := sales[|sales| - 1];
      SalesIn(sales[..|sales| - 1], k, b) + (if In(s.date, s.branch, k, b) then s.amount else 0)
  }

  /** Some expense falls in month `k` (and branch `b`). */
  predicate AnyExpense(expenses: seq<ExpenseRec>, k: string, b: Option<string>)
    decreases |expenses|
  {
    |expenses| > 0
    && (In(expenses[|expenses| - 1].date, expenses[|expenses| - 1].branch, k, b)
        || AnyExpense(expenses[..|expenses| - 1], k, b))
  }

  /** The sum of the expenses that fall in month `k` (and branch `b`). */
  function ExpensesIn(expenses: seq<ExpenseRec>, k: string, b: Option<string>): int
    decreases |expenses|
  {
    if |expenses| == 0 then 0
    else
      var e := expenses[|expenses| - 1];
      ExpensesIn(expenses[..|expenses| - 1], k, b) + (if In(e.date, e.branch, k, b) then e.amount else 0)
  }

  /** What the route should report for month `k` (and branch `b`): nothing
      when no row falls there, otherwise the sales and the expenses that do. */
  function Expected(sales: seq<SaleRec>, expenses: seq<ExpenseRec>, k: string, b: Option<string>): Option<Totals>
  {
    if AnySale(sales, k, b) || AnyExpense(expenses, k, b)
    then Some(Totals(SalesIn(sales, k, b), ExpensesIn(expenses, k, b)))
    else None
  }

  lemma {:induction false} NoSaleNoSum(sales: seq<SaleRec>, k: string, b: Option<string>)
    requires !AnySale(sales, k, b)
    ensures SalesIn(sales, k, b) == 0
    decreases |sales|
  {
    if |sales| > 0 {
      NoSaleNoSum(sales[..|sales| - 1], k, b);
    }
  }

  lemma {:induction false} NoExpenseNoSum(expenses: seq<ExpenseRec>, k: string, b: Option<string>)
    requires !AnyExpense(expenses, k, b)
    ensures ExpensesIn(expenses, k, b) == 0
    decreases |expenses|
  {
    if |expenses| > 0 {
      NoExpenseNoSum(expenses[..|expenses| - 1], k, b);
    }
  }

  /** One step of either month loop: adding to month `d` changes that
      month and no other. */
  lemma MonthStep(before: seq<Entry<Totals>>, d: string, f: Totals -> Totals, k: string)
    requires Sorted(before)
    ensures Get(SortedUpsert(before, d, Zero, f), k) ==
              if d == k then Some(f(ValueOr(Get(before, k), Zero))) else Get(before, k)
  {
    SortedUpsertSpec(before, d, Zero, f);
  }

  /** The sales loop files each sale under its month: a month is present
      exactly when some sale falls in it, and holds their sum. */
  lemma {:induction false} SaleMonthsAt(sales: seq<SaleRec>, k: string)
    ensures Get(SaleMonths(sales), k) ==
              if AnySale(sales, k, None) then Some(Totals(SalesIn(sales, k, None), 0)) else None
    decreases |sales|
  {
    if |sales| > 0 {
      var n := |sales| - 1;
      var s := sales[n];
      var inn := In(s.date, s.branch, k, None);
      var any0, sum0 := AnySale(sales[..n], k, None), SalesIn(sales[..n], k, None);
      var prev := Get(SaleMonths(sales[..n]), k);
      var cur := Get(SaleMonths(sales), k);
      assert cur == if inn then Some(AddSales(s.amount)(ValueOr(prev, Zero))) else prev by {
        MonthStep(SaleMonths(sales[..n]), MonthKey(s.date), AddSales(s.amount), k);
      }
      assert prev == if any0 then Some(Totals(sum0, 0)) else None by {
        SaleMonthsAt(sales[..n], k);
      }
      assert !any0 ==> sum0 == 0 by {
        if !any0 {
          NoSaleNoSum(sales[..n], k, None);
        }
      }
      assert AnySale(sales, k, None) == (inn || any0);
      assert SalesIn(sales, k, None) == sum0 + (if inn then s.amount else 0);
      SaleCellStep(cur, prev, inn, any0, sum0, s.amount, AnySale(sales, k, None), SalesIn(sales, k, None));
    }
  }

  /** The expense loop adds each expense to its month, creating the month
      when no sale fell in it. */
  lemma {:induction false} ExpenseMonthsAt(base: seq<Entry<Totals>>, expenses: seq<ExpenseRec>, k: string)
    requires Sorted(base)
    ensures Get(ExpenseMonths(base, expenses), k) ==
              if AnyExpense(expenses, k, None) then Some(AddExpenses(ExpensesIn(expenses, k, None))(ValueOr(Get(base, k), Zero)))
              else Get(base, k)
    decreases |expenses|
  {
    if |expenses| > 0 {
      var n := |expenses| - 1;
      var e := expenses[n];
      var inn := In(e.date, e.branch, k, None);
      var any0, sum0 := AnyExpense(expenses[..n], k, None), ExpensesIn(expenses[..n], k, None);
      var start := Get(base, k);
      var prev := Get(ExpenseMonths(base, expenses[..n]), k);
      var cur := Get(ExpenseMonths(base, expenses), k);
      assert cur == if inn then Some(AddExpenses(e.amount)(ValueOr(prev, Zero))) else prev by {
        MonthStep(ExpenseMonths(base, expenses[..n]), MonthKey(e.date), AddExpenses(e.amount), k);
      }
      assert prev == if any0 then Some(AddExpenses(sum0)(ValueOr(start, Zero))) else start by {
        ExpenseMonthsAt(base, expenses[..n], k);
      }
      assert !any0 ==> sum0 == 0 by {
        if !any0 {
          NoExpenseNoSum(expenses[..n], k, None);
        }
      }
      assert AnyExpense(expenses, k, None) == (inn || any0);
      assert ExpensesIn(expenses, k, None) == sum0 + (if inn then e.amount else 0);
      ExpenseCellStep(cur, prev, start, inn, any0, sum0, e.amount, AnyExpense(expenses, k, None), ExpensesIn(expenses, k, None));
    }
  }

  /** Sales first, then expenses: the totals of one month or cell. */
  lemma CellClose(cur: Option<Totals>, start: Option<Totals>, anyS: bool, sumS: int, anyE: bool, sumE: int)
    requires start == if anyS then Some(Totals(sumS, 0)) else None
    requires cur == if anyE then Some(AddExpenses(sumE)(ValueOr(start, Zero))) else start
    requires !anyS ==> sumS == 0
    requires !anyE ==> sumE == 0
    ensures cur == if anyS || anyE then Some(Totals(sumS, sumE)) else None
  {
  }

  /** Each month of the timeline is present exactly when some sale or
      expense falls in it, and holds the sum of each. */
  lemma TimelineMonths(sales: seq<SaleRec>, expenses: seq<ExpenseRec>)
    ensures forall k :: Get(Timeline(sales, expenses), k) == Expected(sales, expenses, k, None)
  {
    forall k ensures Get(Timeline(sales, expenses), k) == Expected(sales, expenses, k, None) {
      var start := Get(SaleMonths(sales), k);
      var anyS, sumS := AnySale(sales, k, None), SalesIn(sales, k, None);
      var anyE, sumE := AnyExpense(expenses, k, None), ExpensesIn(expenses, k, None);
      assert start == if anyS then Some(Totals(sumS, 0)) else None by {
        SaleMonthsAt(sales, k);
      }
      assert Get(Timeline(sales, expenses), k) == if anyE then Some(AddExpenses(sumE)(ValueOr(start, Zero))) else start by {
        ExpenseMonthsAt(SaleMonths(sales), expenses, k);
      }
      assert !anyS ==> sumS == 0 by {
        if !anyS {
          NoSaleNoSum(sales, k, None);
        }
      }
      assert !anyE ==> sumE == 0 by {
        if !anyE {
          NoExpenseNoSum(expenses, k, None);
        }
      }
      CellClose(Get(Timeline(sales, expenses), k), start, anyS, sumS, anyE, sumE);
    }
  }

  /** The totals of branch `b` in month `k` of a branch record, if any. */
  function Cell(months: seq<Entry<Branches>>, k: string, b: string): Option<Totals>
  {
    if Get(months, k).Some? then Get(Get(months, k).value, b) else None
  }

  /** One step of either branch loop: adding to branch `nb` of month `d`
      changes that one cell and no other. */
  lemma BranchStep(before: seq<Entry<Branches>>, d: string, nb: string, g: Branches -> Branches, f: Totals -> Totals, k: string, b: string)
    requires Sorted(before)
    requires forall bs :: g(bs) == Upsert(bs, nb, Zero, f)
    ensures Cell(SortedUpsert(before, d, [], g), k, b) ==
              if d == k && nb == b then Some(f(ValueOr(Cell(before, k, b), Zero))) else Cell(before, k, b)
  {
    SortedUpsertSpec(before, d, [], g);
    if d == k {
      var v := ValueOr(Get(before, k), []);
      assert Get(SortedUpsert(before, d, [], g), k) == Some(Upsert(v, nb, Zero, f));
    }
  }

  /** The bookkeeping of one sale step, on the cell alone. */
  lemma SaleCellStep(cur: Option<Totals>, prev: Option<Totals>, inn: bool, any0: bool, sum0: int, a: int, any: bool, sum: int)
    requires cur == if inn then Some(AddSales(a)(ValueOr(prev, Zero))) else prev
    requires prev == if any0 then Some(Totals(sum0, 0)) else None
    requires !any0 ==> sum0 == 0
    requires any == (inn || any0) && sum == sum0 + (if inn then a else 0)
    ensures cur == if any then Some(Totals(sum, 0)) else None
  {
  }

  /** The bookkeeping of one expense step, on the cell alone. */
  lemma ExpenseCellStep(cur: Option<Totals>, prev: Option<Totals>, start: Option<Totals>, inn: bool, any0: bool, sum0: int, a: int,
                        any: bool, sum: int)
    requires cur == if inn then Some(AddExpenses(a)(ValueOr(prev, Zero))) else prev
    requires prev == if any0 then Some(AddExpenses(sum0)(ValueOr(start, Zero))) else start
    requires !any0 ==> sum0 == 0
    requires any == (inn || any0) && sum == sum0 + (if inn then a else 0)
    ensures cur == if any then Some(AddExpenses(sum)(ValueOr(start, Zero))) else start
  {
  }

  /** The sales loop files each sale under its month and branch. */
  lemma {:induction false} BranchSaleMonthsAt(sales: seq<SaleRec>, k: string, b: string)
    ensures Cell(BranchSaleMonths(sales), k, b) ==
              if AnySale(sales, k, Some(b)) then Some(Totals(SalesIn(sales, k, Some(b)), 0)) else None
    decreases |sales|
  {
    if |sales| > 0 {
      var n := |sales| - 1;
      var s := sales[n];
      var nb := NormalizeBranch(s.branch);
      var inn := In(s.date, s.branch, k, Some(b));
      var any0, sum0 := AnySale(sales[..n], k, Some(b)), SalesIn(sales[..n], k, Some(b));
      var prev := Cell(BranchSaleMonths(sales[..n]), k, b);
      var cur := Cell(BranchSaleMonths(sales), k, b);
      assert cur == if inn then Some(AddSales(s.amount)(ValueOr(prev, Zero))) else prev by {
        BranchStep(BranchSaleMonths(sales[..n]), MonthKey(s.date), nb, AddBranchSale(nb, s.amount), AddSales(s.amount), k, b);
      }
      assert prev == if any0 then Some(Totals(sum0, 0)) else None by {
        BranchSaleMonthsAt(sales[..n], k, b);
      }
      assert !any0 ==> sum0 == 0 by {
        if !any0 {
          NoSaleNoSum(sales[..n], k, Some(b));
        }
      }
      assert AnySale(sales, k, Some(b)) == (inn || any0);
      assert SalesIn(sales, k, Some(b)) == sum0 + (if inn then s.amount else 0);
      SaleCellStep(cur, prev, inn, any0, sum0, s.amount, AnySale(sales, k, Some(b)), SalesIn(sales, k, Some(b)));
    }
  }

  /** The expense loop adds each expense to its month and branch. */
  lemma {:induction false} BranchExpenseMonthsAt(base: seq<Entry<Branches>>, expenses: seq<ExpenseRec>, k: string, b: string)
    requires Sorted(base)
    ensures Cell(BranchExpenseMonths(base, expenses), k, b) ==
              if AnyExpense(expenses, k, Some(b)) then Some(AddExpenses(ExpensesIn(expenses, k, Some(b)))(ValueOr(Cell(base, k, b), Zero)))
              else Cell(base, k, b)
    decreases |expenses|
  {
    if |expenses| > 0 {
      var n := |expenses| - 1;
      var e := expenses[n];
      var nb := NormalizeBranch(e.branch);
      var inn := In(e.date, e.branch, k, Some(b));
      var any0, sum0 := AnyExpense(expenses[..n], k, Some(b)), ExpensesIn(expenses[..n], k, Some(b));
      var start := Cell(base, k, b);
      var prev := Cell(BranchExpenseMonths(base, expenses[..n]), k, b);
      var cur := Cell(BranchExpenseMonths(base, expenses), k, b);
      assert cur == if inn then Some(AddExpenses(e.amount)(ValueOr(prev, Zero))) else prev by {
        BranchStep(BranchExpenseMonths(base, expenses[..n]), MonthKey(e.date), nb, AddBranchExpense(nb, e.amount), AddExpenses(e.amount), k, b);
      }
      assert prev == if any0 then Some(AddExpenses(sum0)(ValueOr(start, Zero))) else start by {
        BranchExpenseMonthsAt(base, expenses[..n], k, b);
      }
      assert !any0 ==> sum0 == 0 by {
        if !any0 {
          NoExpenseNoSum(expenses[..n], k, Some(b));
        }
      }
      assert AnyExpense(expenses, k, Some(b)) == (inn || any0);
      assert ExpensesIn(expenses, k, Some(b)) == sum0 + (if inn then e.amount else 0);
      ExpenseCellStep(cur, prev, start, inn, any0, sum0, e.amount, AnyExpense(expenses, k, Some(b)), ExpensesIn(expenses, k, Some(b)));
    }
  }

  /** Each branch of each month of the branch record is present exactly
      when some sale or expense of that branch falls in that month, and
      holds the sum of each. */
  lemma BranchMonthsCells(sales: seq<SaleRec>, expenses: seq<ExpenseRec>, k: string, b: string)
    ensures Cell(BranchMonths(sales, expenses), k, b) == Expected(sales, expenses, k, Some(b))
  {
    var start := Cell(BranchSaleMonths(sales), k, b);
    var anyS, sumS := AnySale(sales, k, Some(b)), SalesIn(sales, k, Some(b));
    var anyE, sumE := AnyExpense(expenses, k, Some(b)), ExpensesIn(expenses, k, Some(b));
    assert start == if anyS then Some(Totals(sumS, 0)) else None by {
      BranchSaleMonthsAt(sales, k, b);
    }
    assert Cell(BranchMonths(sales, expenses), k, b) == if anyE then Some(AddExpenses(sumE)(ValueOr(start, Zero))) else start by {
      BranchExpenseMonthsAt(BranchSaleMonths(sales), expenses, k, b);
    }
    assert !anyS ==> sumS == 0 by {
      if !anyS {
        NoSaleNoSum(sales, k, Some(b));
      }
    }
    assert !anyE ==> sumE == 0 by {
      if !anyE {
        NoExpenseNoSum(expenses, k, Some(b));
      }
    }
    CellClose(Cell(BranchMonths(sales, expenses), k, b), start, anyS, sumS, anyE, sumE);
  }

  /** `sortedAvailableMonths.slice(0, 3).reverse()` on the reversed sort:
      the last three months, oldest first. */
  function LastThree<V>(rows: seq<Entry<V>>): (r: seq<Entry<V>>)
    ensures |r| == if |rows| < 3 then |rows| else 3
    ensures forall i :: 0 <= i < |r| ==> r[i] == rows[|rows| - |r| + i]
    ensures Sorted(rows) ==> Sorted(r)
    ensures Sorted(rows) ==>
              forall i, j :: 0 <= i < |rows| - |r| && 0 <= j < |r| ==> Text.Less(rows[i].key, r[j].key)
  {
    if |rows| <= 3 then rows else rows[|rows| - 3..]
  }

  // ---------------------------------------------------------------------
  // The sales forecast: a least-squares line over the month offsets.
  // ---------------------------------------------------------------------

  function Sum(xs: seq<int>): int
    decreases |xs|
  {
    if |xs| == 0 then 0 else Sum(xs[..|xs| - 1]) + xs[|xs| - 1]
  }

  function SumSquares(xs: seq<int>): int
    decreases |xs|
  {
    if |xs| == 0 then 0 else SumSquares(xs[..|xs| - 1]) + xs[|xs| - 1] * xs[|xs| - 1]
  }

  function SumProducts(xs: seq<int>, ys: seq<int>): int
    requires |xs| == |ys|
    decreases |xs|
  {
    if |xs| == 0 then 0
    else SumProducts(xs[..|xs| - 1], ys[..|ys| - 1]) + xs[|xs| - 1] * ys[|ys| - 1]
  }

  /** `n * sumXX - sumX * sumX`. */
  function Denominator(xs: seq<int>): int
  {
    |xs| * SumSquares(xs) - Sum(xs) * Sum(xs)
  }

  function Square(d: int): (r: int)
    ensures r >= 0 && (d != 0 ==> r > 0)
  {
    d * d
  }

  /** The sum of the squared distances from `y` to the points of `xs`. */
  function SpreadAround(xs: seq<int>, y: int): (r: int)
    ensures r >= 0
    decreases |xs|
  {
    if |xs| == 0 then 0
    else SpreadAround(xs[..|xs| - 1], y) + Square(xs[|xs| - 1] - y)
  }

  lemma SquareOfDifference(a: int, y: int)
    ensures Square(a - y) == a * a - 2 * y * a + y * y
  {
  }

  lemma {:induction false} SpreadExpand(xs: seq<int>, y: int)
    ensures SpreadAround(xs, y) == SumSquares(xs) - 2 * y * Sum(xs) + |xs| * (y * y)
    decreases |xs|
  {
    if |xs| > 0 {
      var n := |xs| - 1;
      var a := xs[n];
      var p := xs[..n];
      SpreadExpand(p, y);
      SquareOfDifference(a, y);
      var s0, q0, yy := Sum(p), SumSquares(p), y * y;
      assert SpreadAround(xs, y) == SpreadAround(p, y) + Square(a - y);
      assert SumSquares(xs) == q0 + a * a;
      assert Sum(xs) == s0 + a;
      SpreadStepAlgebra(q0, s0, n, a, y);
    }
  }

  lemma SpreadStepAlgebra(q: int, s: int, n: int, a: int, y: int)
    ensures q - 2 * y * s + n * (y * y) + (a * a - 2 * y * a + y * y)
            == (q + a * a) - 2 * y * (s + a) + (n + 1) * (y * y)
  {
    assert 2 * y * (s + a) == 2 * y * s + 2 * y * a;
    assert (n + 1) * (y * y) == n * (y * y) + y * y;
  }

  /** The algebra of one appended point, on plain numbers. */
  lemma AppendAlgebra(n: int, s: int, q: int, y: int)
    ensures (n + 1) * (q + y * y) - (s + y) * (s + y) == (n * q - s * s) + (q - 2 * y * s + n * (y * y))
  {
    assert (n + 1) * (q + y * y) == n * q + q + n * (y * y) + y * y;
    assert (s + y) * (s + y) == s * s + 2 * y * s + y * y;
  }

  /** Lagrange's identity, one point at a time: appending `y` adds its
      spread around the earlier points to the denominator. */
  lemma DenominatorAppend(xs: seq<int>, y: int)
    ensures Denominator(xs + [y]) == Denominator(xs) + SpreadAround(xs, y)
  {
    var ys := xs + [y];
    assert ys[..|xs|] == xs;
    SpreadExpand(xs, y);
    var n, s, q := |xs|, Sum(xs), SumSquares(xs);
    assert Sum(ys) == s + y;
    assert SumSquares(ys) == q + y * y;
    assert |ys| == n + 1;
    AppendAlgebra(n, s, q, y);
  }

  /** The denominator is never negative. */
  lemma {:induction false} DenominatorNonNegative(xs: seq<int>)
    ensures Denominator(xs) >= 0
    decreases |xs|
  {
    if |xs| > 0 {
      var n := |xs| - 1;
      DenominatorNonNegative(xs[..n]);
      assert xs[..n] + [xs[n]] == xs;
      DenominatorAppend(xs[..n], xs[n]);
    }
  }

  lemma {:induction false} SpreadAtLeast(xs: seq<int>, y: int, i: int)
    requires 0 <= i < |xs|
    ensures SpreadAround(xs, y) >= Square(xs[i] - y)
    decreases |xs|
  {
    var n := |xs| - 1;
    if i < n {
      SpreadAtLeast(xs[..n], y, i);
    }
  }

  /** The denominator is zero only when every offset is the same. */
  lemma {:induction false} DenominatorPositive(xs: seq<int>, i: int, j: int)
    requires 0 <= i < |xs| && 0 <= j < |xs| && xs[i] != xs[j]
    ensures Denominator(xs) > 0
    decreases |xs|
  {
    var n := |xs| - 1;
    var p := xs[..n];
    assert p + [xs[n]] == xs;
    DenominatorAppend(p, xs[n]);
    if i < n && j < n {
      DenominatorPositive(p, i, j);
    } else {
      DenominatorNonNegative(p);
      var k := if i < n then i else j;
      assert p[k] == xs[k] && xs[k] != xs[n];
      SpreadAtLeast(p, xs[n], k);
    }
  }

  function Offsets(timeline: seq<Entry<Totals>>, cal: Calendar): (r: seq<int>)
    requires |timeline| > 0
    ensures |r| == |timeline|
  {
    seq(|timeline|, i requires 0 <= i < |timeline| => cal.monthsBetween(timeline[i].key, timeline[0].key))
  }

  function MonthSales(timeline: seq<Entry<Totals>>): (r: seq<int>)
    ensures |r| == |timeline|
  {
    seq(|timeline|, i requires 0 <= i < |timeline| => timeline[i].value.sales)
  }

  /** `(n * sumXY - sumX * sumY) / denominator`. */
  function Slope(xs: seq<int>, ys: seq<int>): real
    requires |xs| == |ys| && Denominator(xs) != 0
  {
    (|xs| * SumProducts(xs, ys) - Sum(xs) * Sum(ys)) as real / Denominator(xs) as real
  }

  /** `(sumY - slope * sumX) / n`. */
  function Intercept(xs: seq<int>, ys: seq<int>): real
    requires |xs| == |ys| > 0 && Denominator(xs) != 0
  {
    (Sum(ys) as real - Slope(xs, ys) * Sum(xs) as real) / |xs| as real
  }

  function MaxZero(x: real): (r: real)
    ensures r >= 0.0 && r >= x && (r == 0.0 || r == x)
  {
    if x < 0.0 then 0.0 else x
  }

  datatype Projection = Projection(month: string, amount: real)

  /** The forecast `i` months after the last month of the timeline. */
  function Project(cal: Calendar, lastKey: string, lastX: int, slope: real, intercept: real, i: int): (r: Projection)
    ensures r.amount >= 0.0 && r.month == cal.monthAfter(lastKey, i)
  {
    Projection(cal.monthAfter(lastKey, i), MaxZero(slope * (lastX + i) as real + intercept))
  }

  /** The forecast: with two or more months and offsets that are not all
      equal, the fitted line at the three months after the last one, floored
      at 0; otherwise nothing. Exact rationals stand in for the floats. */
  function Forecast(timeline: seq<Entry<Totals>>, cal: Calendar): (r: seq<Projection>)
    ensures |r| == 0 || |r| == 3
    ensures |r| == 3 <==> |timeline| >= 2 && Denominator(Offsets(timeline, cal)) != 0
    ensures forall i :: 0 <= i < |r| ==>
              && r[i].amount >= 0.0
              && r[i].month == cal.monthAfter(timeline[|timeline| - 1].key, i + 1)
  {
    if |timeline| < 2 then []
    else
      var xs, ys := Offsets(timeline, cal), MonthSales(timeline);
      if Denominator(xs) == 0 then []
      else
        var slope, intercept := Slope(xs, ys), Intercept(xs, ys);
        var lastX, lastKey := xs[|xs| - 1], timeline[|timeline| - 1].key;
        [Project(cal, lastKey, lastX, slope, intercept, 1),
         Project(cal, lastKey, lastX, slope, intercept, 2),
         Project(cal, lastKey, lastX, slope, intercept, 3)]
  }

  /** Months at different offsets from the first always produce a forecast. */
  lemma ForecastWhenOffsetsDiffer(timeline: seq<Entry<Totals>>, cal: Calendar, i: int, j: int)
    requires 0 <= i < |timeline| && 0 <= j < |timeline|
    requires cal.monthsBetween(timeline[i].key, timeline[0].key) != cal.monthsBetween(timeline[j].key, timeline[0].key)
    ensures |Forecast(timeline, cal)| == 3
  {
    DenominatorPositive(Offsets(timeline, cal), i, j);
  }

  /** The sums of points lying on the line `a * x + b`. */
  lemma {:induction false} LinearSums(xs: seq<int>, ys: seq<int>, a: int, b: int)
    requires |xs| == |ys|
    requires forall i :: 0 <= i < |xs| ==> ys[i] == a * xs[i] + b
    ensures Sum(ys) == a * Sum(xs) + |xs| * b
    ensures SumProducts(xs, ys) == a * SumSquares(xs) + b * Sum(xs)
    decreases |xs|
  {
    if |xs| > 0 {
      var n := |xs| - 1;
      LinearSums(xs[..n], ys[..n], a, b);
      var x, y, s, q, sp := xs[n], ys[n], Sum(xs[..n]), SumSquares(xs[..n]), SumProducts(xs[..n], ys[..n]);
      assert Sum(ys) == Sum(ys[..n]) + y;
      assert Sum(xs) == s + x;
      assert SumSquares(xs) == q + x * x;
      assert SumProducts(xs, ys) == sp + x * y;
      LinearStep(a, b, x, y, n, s, q);
    }
  }

  lemma LinearStep(a: int, b: int, x: int, y: int, n: int, s: int, q: int)
    requires y == a * x + b
    ensures (a * s + n * b) + y == a * (s + x) + (n + 1) * b
    ensures (a * q + b * s) + x * y == a * (q + x * x) + b * (s + x)
  {
    assert x * y == a * (x * x) + b * x;
  }

  /** The numerator of the slope of points on `a * x + b`. */
  lemma SlopeAlgebra(n: int, s: int, q: int, a: int, b: int)
    ensures n * (a * q + b * s) - s * (a * s + n * b) == a * (n * q - s * s)
  {
    assert n * (a * q + b * s) == a * (n * q) + b * (n * s);
    assert s * (a * s + n * b) == a * (s * s) + b * (n * s);
  }

  lemma RealCancel(a: int, d: int)
    requires d != 0
    ensures (a * d) as real / d as real == a as real
  {
    assert (a * d) as real == a as real * d as real;
  }

  lemma InterceptAlgebra(sy: int, a: int, s: int, n: int, b: int)
    requires sy == a * s + n * b && n > 0
    ensures (sy as real - a as real * s as real) / n as real == b as real
  {
    assert a as real * s as real == (a * s) as real;
    assert sy as real - (a * s) as real == (b * n) as real;
    RealCancel(b, n);
  }

  lemma RealLine(a: int, x: int, b: int)
    ensures a as real * x as real + b as real == (a * x + b) as real
  {
  }

  lemma ProjectOnLine(cal: Calendar, lastKey: string, lastX: int, a: int, b: int, i: int)
    ensures Project(cal, lastKey, lastX, a as real, b as real, i).amount == MaxZero((a * (lastX + i) + b) as real)
  {
    RealLine(a, lastX + i, b);
  }

  /** The slope through points lying on `a * x + b` is `a`. */
  lemma SlopeOfLine(xs: seq<int>, ys: seq<int>, a: int, b: int)
    requires |xs| == |ys| && Denominator(xs) != 0
    requires forall i :: 0 <= i < |xs| ==> ys[i] == a * xs[i] + b
    ensures Slope(xs, ys) == a as real
  {
    var n, s, q, d := |xs|, Sum(xs), SumSquares(xs), Denominator(xs);
    LinearSums(xs, ys, a, b);
    var sp, sy := SumProducts(xs, ys), Sum(ys);
    SlopeAlgebra(n, s, q, a, b);
    assert n * sp - s * sy == a * d;
    RealCancel(a, d);
  }

  /** The fitted line through points lying on `a * x + b` is that line. */
  lemma FitOfLine(xs: seq<int>, ys: seq<int>, a: int, b: int)
    requires |xs| == |ys| > 0 && Denominator(xs) != 0
    requires forall i :: 0 <= i < |xs| ==> ys[i] == a * xs[i] + b
    ensures Slope(xs, ys) == a as real && Intercept(xs, ys) == b as real
  {
    SlopeOfLine(xs, ys, a, b);
    LinearSums(xs, ys, a, b);
    InterceptAlgebra(Sum(ys), a, Sum(xs), |xs|, b);
  }

  /** Least squares reproduces an exact trend: when every month's sales lie
      on `a * offset + b`, the forecast continues that line. */
  lemma ForecastExtendsExactTrend(timeline: seq<Entry<Totals>>, cal: Calendar, a: int, b: int)
    requires |timeline| >= 2 && Denominator(Offsets(timeline, cal)) != 0
    requires forall i :: 0 <= i < |timeline| ==>
               timeline[i].value.sales == a * cal.monthsBetween(timeline[i].key, timeline[0].key) + b
    ensures var r := Forecast(timeline, cal);
            var lastX := cal.monthsBetween(timeline[|timeline| - 1].key, timeline[0].key);
            forall i :: 0 <= i < |r| ==> r[i].amount == MaxZero((a * (lastX + i + 1) + b) as real)
  {
    var xs, ys := Offsets(timeline, cal), MonthSales(timeline);
    forall i | 0 <= i < |xs| ensures ys[i] == a * xs[i] + b {
      assert ys[i] == timeline[i].value.sales;
    }
    FitOfLine(xs, ys, a, b);
    var n := |xs|;
    var lastX, lastKey := xs[n - 1], timeline[n - 1].key;
    var r := Forecast(timeline, cal);
    assert r == [Project(cal, lastKey, lastX, a as real, b as real, 1),
                 Project(cal, lastKey, lastX, a as real, b as real, 2),
                 Project(cal, lastKey, lastX, a as real, b as real, 3)];
    ProjectOnLine(cal, lastKey, lastX, a, b, 1);
    ProjectOnLine(cal, lastKey, lastX, a, b, 2);
    ProjectOnLine(cal, lastKey, lastX, a, b, 3);
  }

  // ---------------------------------------------------------------------
  // The handler.
  // ---------------------------------------------------------------------

  datatype Report = Report(
    timeline: seq<Entry<Totals>>,
    categories: seq<Entry<int>>,
    forecast: seq<Projection>,
    weekdays: seq<DayRow>,
    branches: seq<Entry<Branches>>)

  const EmptyReport := Report([], [], [], [], [])

  /** `Get(rows, rows[i].key)` always finds an entry. */
  lemma {:induction false} GetMember<V>(rows: seq<Entry<V>>, i: int)
    requires 0 <= i < |rows|
    ensures Get(rows, rows[i].key).Some?
    decreases i
  {
    if i > 0 && rows[0].key != rows[i].key {
      GetMember(rows[1..], i - 1);
    }
  }

  /** In a sorted record, `Get` finds each entry under its own key. */
  lemma {:induction false} GetSorted<V>(rows: seq<Entry<V>>, i: int)
    requires Sorted(rows) && 0 <= i < |rows|
    ensures Get(rows, rows[i].key) == Some(rows[i].value)
    decreases i
  {
    if i > 0 {
      assert rows[1..][i - 1] == rows[i];
      GetSorted(rows[1..], i - 1);
    }
  }

  /** Where `Get` found its entry. */
  lemma {:induction false} GetIndex<V>(rows: seq<Entry<V>>, k: string) returns (i: int)
    requires Get(rows, k).Some?
    ensures 0 <= i < |rows| && rows[i].key == k
    decreases |rows|
  {
    if rows[0].key == k {
      i := 0;
    } else {
      var j := GetIndex(rows[1..], k);
      i := j + 1;
    }
  }

  /** The branch comparison covers months of the timeline, the latest
      three, oldest first. */
  lemma BranchComparisonSpec(sales: seq<SaleRec>, expenses: seq<ExpenseRec>)
    ensures var t, m := Timeline(sales, expenses), BranchMonths(sales, expenses);
            var c := LastThree(m);
            && |c| == (if |t| < 3 then |t| else 3)
            && Sorted(c)
            && (forall i :: 0 <= i < |c| ==> Get(t, c[i].key).Some?)
            && (forall i, j :: 0 <= i < |m| - |c| && 0 <= j < |c| ==> Text.Less(m[i].key, c[j].key))
  {
    var m := BranchMonths(sales, expenses);
    BranchMonthsAgree(sales, expenses);
    var c := LastThree(m);
    forall i | 0 <= i < |c| ensures Get(Timeline(sales, expenses), c[i].key).Some? {
      GetMember(m, |m| - |c| + i);
    }
  }

  /** Every month of the timeline the branch comparison leaves out is
      earlier than every month it shows. */
  lemma BranchComparisonLatest(sales: seq<SaleRec>, expenses: seq<ExpenseRec>)
    ensures var t, c := Timeline(sales, expenses), LastThree(BranchMonths(sales, expenses));
            forall i, j :: 0 <= i < |t| && 0 <= j < |c| && Get(c, t[i].key).None? ==>
              Text.Less(t[i].key, c[j].key)
  {
    var t, m := Timeline(sales, expenses), BranchMonths(sales, expenses);
    BranchMonthsAgree(sales, expenses);
    var c := LastThree(m);
    forall i, j | 0 <= i < |t| && 0 <= j < |c| && Get(c, t[i].key).None?
      ensures Text.Less(t[i].key, c[j].key)
    {
      GetMember(t, i);
      var ii := GetIndex(m, t[i].key);
      if ii >= |m| - |c| {
        GetMember(c, ii - (|m| - |c|));
      }
    }
  }

  /** Each month the branch comparison shows holds, per branch, the sales
      and expenses of that branch in that month. */
  lemma BranchComparisonCells(sales: seq<SaleRec>, expenses: seq<ExpenseRec>)
    ensures forall i, b :: 0 <= i < |LastThree(BranchMonths(sales, expenses))| ==>
              Get(LastThree(BranchMonths(sales, expenses))[i].value, b) ==
                Expected(sales, expenses, LastThree(BranchMonths(sales, expenses))[i].key, Some(b))
  {
    var m := BranchMonths(sales, expenses);
    var c := LastThree(m);
    forall i, b | 0 <= i < |c| ensures Get(c[i].value, b) == Expected(sales, expenses, c[i].key, Some(b)) {
      GetSorted(m, |m| - |c| + i);
      BranchMonthsCells(sales, expenses, c[i].key, b);
    }
  }

  /** What the five lists of a non-empty report promise, each proved on
      its own. */
  lemma ReportFacts(sales: seq<SaleRec>, expenses: seq<ExpenseRec>, cal: Calendar)
    ensures Sorted(Timeline(sales, expenses))
    ensures SumOf(Timeline(sales, expenses), SalesOf) == SalesTotal(sales)
    ensures SumOf(Timeline(sales, expenses), ExpensesOf) == ExpensesTotal(expenses)
    ensures forall k :: Get(Timeline(sales, expenses), k) == Expected(sales, expenses, k, None)
    ensures Descending(RankDescending(Categories(expenses)))
    ensures SumOf(RankDescending(Categories(expenses)), Amount) == CategorizedTotal(expenses)
    ensures |Forecast(Timeline(sales, expenses), cal)| == 0 || |Forecast(Timeline(sales, expenses), cal)| == 3
    ensures var w := WeekdayStats(WeekdayTotals(sales, cal));
            && |w| == 7 && w[6].day == "Domingo"
            && w[0].sales + w[1].sales + w[2].sales + w[3].sales + w[4].sales + w[5].sales + w[6].sales == SalesTotal(sales)
    ensures var t, c := Timeline(sales, expenses), LastThree(BranchMonths(sales, expenses));
            && |c| == (if |t| < 3 then |t| else 3)
            && Sorted(c)
            && (forall i :: 0 <= i < |c| ==> Get(t, c[i].key).Some?)
            && (forall i, j :: 0 <= i < |t| && 0 <= j < |c| && Get(c, t[i].key).None? ==> Text.Less(t[i].key, c[j].key))
    ensures forall i, b :: 0 <= i < |LastThree(BranchMonths(sales, expenses))| ==>
              Get(LastThree(BranchMonths(sales, expenses))[i].value, b) ==
                Expected(sales, expenses, LastThree(BranchMonths(sales, expenses))[i].key, Some(b))
  {
    TimelineSpec(sales, expenses);
    TimelineMonths(sales, expenses);
    assert SumOf(RankDescending(Categories(expenses)), Amount) == CategorizedTotal(expenses) by {
      CategoriesSpec(expenses);
      RankKeepsSum(Categories(expenses));
    }
    var weekdays := WeekdayTotals(sales, cal);
    assert WeekdayStats(weekdays)[0].sales + WeekdayStats(weekdays)[1].sales + WeekdayStats(weekdays)[2].sales
           + WeekdayStats(weekdays)[3].sales + WeekdayStats(weekdays)[4].sales + WeekdayStats(weekdays)[5].sales
           + WeekdayStats(weekdays)[6].sales == SalesTotal(sales) by {
      WeekdayTotalsSpec(sales, cal);
      WeekdayStatsSum(weekdays);
    }
    BranchComparisonSpec(sales, expenses);
    BranchComparisonLatest(sales, expenses);
    BranchComparisonCells(sales, expenses);
  }

  /** `GET /api/analytics`. */
  function Analyze(sales: seq<SaleRec>, expenses: seq<ExpenseRec>, cal: Calendar, fetchFails: bool): (r: Response<Report>)
    ensures r.Err? <==> fetchFails
    ensures r.Err? ==> r.status == ServerError
    ensures !fetchFails && |sales| == 0 ==> r == Ok(EmptyReport)
    ensures r.Ok? && |sales| > 0 ==>
              && Sorted(r.body.timeline)
              && SumOf(r.body.timeline, SalesOf) == SalesTotal(sales)
              && SumOf(r.body.timeline, ExpensesOf) == ExpensesTotal(expenses)
              && Descending(r.body.categories)
              && SumOf(r.body.categories, Amount) == CategorizedTotal(expenses)
              && (|r.body.forecast| == 0 || |r.body.forecast| == 3)
              && |r.body.weekdays| == 7 && r.body.weekdays[6].day == "Domingo"
              && r.body.weekdays[0].sales + r.body.weekdays[1].sales + r.body.weekdays[2].sales + r.body.weekdays[3].sales
                 + r.body.weekdays[4].sales + r.body.weekdays[5].sales + r.body.weekdays[6].sales == SalesTotal(sales)
              && |r.body.branches| == (if |r.body.timeline| < 3 then |r.body.timeline| else 3)
              && Sorted(r.body.branches)
              && (forall i :: 0 <= i < |r.body.branches| ==> Get(r.body.timeline, r.body.branches[i].key).Some?)
              && (forall i, j :: 0 <= i < |r.body.timeline| && 0 <= j < |r.body.branches| && Get(r.body.branches, r.body.timeline[i].key).None? ==>
                    Text.Less(r.body.timeline[i].key, r.body.branches[j].key))
    ensures r.Ok? && |sales| > 0 ==>
              forall k :: Get(r.body.timeline, k) == Expected(sales, expenses, k, None)
    ensures r.Ok? && |sales| > 0 ==>
              forall i, b :: 0 <= i < |r.body.branches| ==>
                Get(r.body.branches[i].value, b) == Expected(sales, expenses, r.body.branches[i].key, Some(b))
  {
    if fetchFails then Err(ServerError)
    else if |sales| == 0 then Ok(EmptyReport)
    else
      var timeline := Timeline(sales, expenses);
      ReportFacts(sales, expenses, cal);
      Ok(Report(
        timeline,
        RankDescending(Categories(expenses)),
        Forecast(timeline, cal),
        WeekdayStats(WeekdayTotals(sales, cal)),
        LastThree(BranchMonths(sales, expenses))))
  }
}
