/** The business-intelligence dashboard: the KPI cards, the combined
    history-and-forecast series, and the pie chart's categories with every
    category under one percent of the total folded into `Varios`. */
module BiPage {
  import opened Basics
  import Analytics

  type Category = Analytics.Entry<int>

  const Varios := "Varios"

  // ---------------------------------------------------------------------
  // The "Varios" fold.
  // ---------------------------------------------------------------------

  /** `(value / total) * 100 < 1`, with JavaScript's division by zero: over
      a zero total a positive value gives +Infinity, a negative one -Infinity
      and zero gives NaN, so only negative values count as small; over a
      negative total the inequality turns around. */
  predicate IsSmall(value: int, total: int)
  {
    if total > 0 then 100 * value < total
    else if total == 0 then value < 0
    else 100 * value > total
  }

  lemma ScaleLess(x: real, y: real, t: real)
    requires t > 0.0
    ensures x < y <==> x * t < y * t
  {
  }

  lemma ScaledPercentage(value: int, total: int, q: real)
    requires total != 0 && q * total as real == value as real
    ensures IsSmall(value, total) <==> q * 100.0 < 1.0
  {
    var t := total as real;
    assert (q * 100.0) * t == 100.0 * (q * t);
    if total > 0 {
      ScaleLess(q * 100.0, 1.0, t);
    } else {
      ScaleLess(1.0, q * 100.0, -t);
    }
  }

  /** Over a non-zero total, `IsSmall` is the percentage test on exact
      rationals. */
  lemma SmallIsUnderOnePercent(value: int, total: int)
    requires total != 0
    ensures IsSmall(value, total) <==> (value as real / total as real) * 100.0 < 1.0
  {
    var q := value as real / total as real;
    assert q * total as real == value as real;
    ScaledPercentage(value, total, q);
  }

  /** `acc.findIndex(c => c.name === name)`. */
  function FirstIndex(rows: seq<Category>, name: string): (r: int)
    ensures -1 <= r < |rows|
    ensures r >= 0 ==> rows[r].key == name && forall j :: 0 <= j < r ==> rows[j].key != name
    ensures r == -1 ==> forall j :: 0 <= j < |rows| ==> rows[j].key != name
    decreases |rows|
  {
    if |rows| == 0 then -1
    else if rows[0].key == name then 0
    else
      var i := FirstIndex(rows[1..], name);
      if i < 0 then -1 else i + 1
  }

  /** Adds `value` to the first `Varios` entry, or appends one. */
  function AddToVarios(acc: seq<Category>, value: int): (r: seq<Category>)
    ensures |r| <= |acc| + 1
  {
    var i := FirstIndex(acc, Varios);
    if i >= 0 then acc[i := acc[i].(value := acc[i].value + value)]
    else acc + [Analytics.Entry(Varios, value)]
  }

  /** The `reduce` over the ranked categories. */
  function Fold(cats: seq<Category>, total: int): (r: seq<Category>)
    ensures |r| <= |cats|
    decreases |cats|
  {
    if |cats| == 0 then []
    else
      var c := cats[|cats| - 1];
      var acc := Fold(cats[..|cats| - 1], total);
      if IsSmall(c.value, total) then AddToVarios(acc, c.value) else acc + [c]
  }

  /** `processedExpenseCategories`. */
  function Processed(cats: seq<Category>): (r: seq<Category>)
    ensures |r| <= |cats|
    ensures Analytics.SumOf(r, Analytics.Amount) == Analytics.SumOf(cats, Analytics.Amount)
  {
    FoldKeepsSum(cats, Analytics.SumOf(cats, Analytics.Amount));
    Fold(cats, Analytics.SumOf(cats, Analytics.Amount))
  }

  // Reference definitions: what the fold keeps, and what it folds.

  function Kept(cats: seq<Category>, total: int): seq<Category>
    decreases |cats|
  {
    if |cats| == 0 then []
    else
      var c := cats[|cats| - 1];
      Kept(cats[..|cats| - 1], total) + (if IsSmall(c.value, total) then [] else [c])
  }

  predicate AnySmall(cats: seq<Category>, total: int)
    decreases |cats|
  {
    |cats| > 0 && (IsSmall(cats[|cats| - 1].value, total) || AnySmall(cats[..|cats| - 1], total))
  }

  function SmallSum(cats: seq<Category>, total: int): int
    decreases |cats|
  {
    if |cats| == 0 then 0
    else
      var c := cats[|cats| - 1];
      SmallSum(cats[..|cats| - 1], total) + (if IsSmall(c.value, total) then c.value else 0)
  }

  /** The entries not named `name`, in order. */
  function Without(rows: seq<Category>, name: string): seq<Category>
    decreases |rows|
  {
    if |rows| == 0 then []
    else
      var x := rows[|rows| - 1];
      Without(rows[..|rows| - 1], name) + (if x.key == name then [] else [x])
  }

  /** How many entries are named `name`. */
  function Count(rows: seq<Category>, name: string): nat
    decreases |rows|
  {
    if |rows| == 0 then 0
    else Count(rows[..|rows| - 1], name) + (if rows[|rows| - 1].key == name then 1 else 0)
  }

  lemma {:induction false} SumOfAppend(rows: seq<Category>, x: Category)
    ensures Analytics.SumOf(rows + [x], Analytics.Amount) == Analytics.SumOf(rows, Analytics.Amount) + x.value
    decreases |rows|
  {
    if |rows| > 0 {
      assert (rows + [x])[1..] == rows[1..] + [x];
      SumOfAppend(rows[1..], x);
    }
  }

  lemma {:induction false} SumOfUpdate(rows: seq<Category>, i: int, x: Category)
    requires 0 <= i < |rows|
    ensures Analytics.SumOf(rows[i := x], Analytics.Amount)
            == Analytics.SumOf(rows, Analytics.Amount) - rows[i].value + x.value
    decreases |rows|
  {
    if i > 0 {
      assert rows[i := x][1..] == rows[1..][i - 1 := x];
      SumOfUpdate(rows[1..], i - 1, x);
    } else {
      assert rows[i := x][1..] == rows[1..];
    }
  }

  /** Folding moves values around but loses none: the processed categories
      add up to the same total. */
  lemma {:induction false} FoldKeepsSum(cats: seq<Category>, total: int)
    ensures Analytics.SumOf(Fold(cats, total), Analytics.Amount) == Analytics.SumOf(cats, Analytics.Amount)
    decreases |cats|
  {
    if |cats| > 0 {
      var n := |cats| - 1;
      var c := cats[n];
      var acc := Fold(cats[..n], total);
      FoldKeepsSum(cats[..n], total);
      SumOfAppend(cats[..n], c);
      assert cats[..n] + [c] == cats;
      if IsSmall(c.value, total) {
        var i := FirstIndex(acc, Varios);
        assert Fold(cats, total) == AddToVarios(acc, c.value);
        if i >= 0 {
          assert AddToVarios(acc, c.value) == acc[i := acc[i].(value := acc[i].value + c.value)];
          SumOfUpdate(acc, i, acc[i].(value := acc[i].value + c.value));
        } else {
          SumOfAppend(acc, Analytics.Entry(Varios, c.value));
        }
      } else {
        SumOfAppend(acc, c);
      }
    }
  }

  lemma {:induction false} GetFirstIndex(rows: seq<Category>, k: string)
    ensures Analytics.Get(rows, k) == if FirstIndex(rows, k) >= 0 then Some(rows[FirstIndex(rows, k)].value) else None
    decreases |rows|
  {
    if |rows| > 0 && rows[0].key != k {
      GetFirstIndex(rows[1..], k);
    }
  }

  lemma {:induction false} GetAppend(rows: seq<Category>, x: Category, k: string)
    ensures Analytics.Get(rows + [x], k) ==
              if Analytics.Get(rows, k).Some? then Analytics.Get(rows, k)
              else if x.key == k then Some(x.value) else None
    decreases |rows|
  {
    if |rows| > 0 {
      assert (rows + [x])[1..] == rows[1..] + [x];
      GetAppend(rows[1..], x, k);
    }
  }

  lemma {:induction false} WithoutUpdate(rows: seq<Category>, i: int, x: Category, name: string)
    requires 0 <= i < |rows| && rows[i].key == name && x.key == name
    ensures Without(rows[i := x], name) == Without(rows, name)
    ensures Count(rows[i := x], name) == Count(rows, name)
    decreases |rows|
  {
    var n := |rows| - 1;
    if i < n {
      assert rows[i := x][..n] == rows[..n][i := x];
      WithoutUpdate(rows[..n], i, x, name);
    } else {
      assert rows[i := x][..n] == rows[..n];
    }
  }

  lemma FirstIndexUnique(rows: seq<Category>, name: string, i: int)
    requires 0 <= i < |rows| && rows[i].key == name
    requires forall j :: 0 <= j < i ==> rows[j].key != name
    ensures FirstIndex(rows, name) == i
  {
  }

  lemma NoSmallNoSum(cats: seq<Category>, total: int)
    requires !AnySmall(cats, total)
    ensures SmallSum(cats, total) == 0
  {
  }

  /** The fold's invariant, for categories none of which is itself named
      `Varios`. */
  predicate FoldInvariant(acc: seq<Category>, cats: seq<Category>, total: int)
  {
    && Without(acc, Varios) == Kept(cats, total)
    && Count(acc, Varios) == (if AnySmall(cats, total) then 1 else 0)
    && Analytics.Get(acc, Varios) == (if AnySmall(cats, total) then Some(SmallSum(cats, total)) else None)
  }

  /** The reference definitions, one category further. */
  lemma ReferenceStep(cats: seq<Category>, c: Category, total: int)
    ensures Kept(cats + [c], total) == Kept(cats, total) + (if IsSmall(c.value, total) then [] else [c])
    ensures AnySmall(cats + [c], total) == (IsSmall(c.value, total) || AnySmall(cats, total))
    ensures SmallSum(cats + [c], total) == SmallSum(cats, total) + (if IsSmall(c.value, total) then c.value else 0)
  {
    assert (cats + [c])[..|cats|] == cats;
  }

  /** A small category when a `Varios` entry exists: it is added there. */
  lemma FoldStepMerge(acc: seq<Category>, cats: seq<Category>, c: Category, total: int)
    requires FoldInvariant(acc, cats, total) && IsSmall(c.value, total) && FirstIndex(acc, Varios) >= 0
    ensures FoldInvariant(AddToVarios(acc, c.value), cats + [c], total)
  {
    ReferenceStep(cats, c, total);
    GetFirstIndex(acc, Varios);
    var i := FirstIndex(acc, Varios);
    var x := acc[i].(value := acc[i].value + c.value);
    var r := acc[i := x];
    WithoutUpdate(acc, i, x, Varios);
    forall j | 0 <= j < i ensures r[j].key != Varios {
      assert r[j] == acc[j];
    }
    FirstIndexUnique(r, Varios, i);
    GetFirstIndex(r, Varios);
  }

  /** The first small category: a `Varios` entry is appended. */
  lemma FoldStepFirst(acc: seq<Category>, cats: seq<Category>, c: Category, total: int)
    requires FoldInvariant(acc, cats, total) && IsSmall(c.value, total) && FirstIndex(acc, Varios) < 0
    ensures FoldInvariant(AddToVarios(acc, c.value), cats + [c], total)
  {
    ReferenceStep(cats, c, total);
    GetFirstIndex(acc, Varios);
    NoSmallNoSum(cats, total);
    var x := Analytics.Entry(Varios, c.value);
    assert (acc + [x])[..|acc|] == acc;
    GetAppend(acc, x, Varios);
  }

  /** A category that is not small is appended as it is. */
  lemma FoldStepKeep(acc: seq<Category>, cats: seq<Category>, c: Category, total: int)
    requires FoldInvariant(acc, cats, total) && !IsSmall(c.value, total) && c.key != Varios
    ensures FoldInvariant(acc + [c], cats + [c], total)
  {
    ReferenceStep(cats, c, total);
    assert (acc + [c])[..|acc|] == acc;
    GetAppend(acc, c, Varios);
  }

  /** When no category is itself named `Varios`: the fold keeps the other
      categories in order, adds exactly one `Varios` entry when something is
      small (none otherwise), and that entry holds the sum of the small
      categories. */
  lemma {:induction false} FoldSpec(cats: seq<Category>, total: int)
    requires forall i :: 0 <= i < |cats| ==> cats[i].key != Varios
    ensures FoldInvariant(Fold(cats, total), cats, total)
    decreases |cats|
  {
    if |cats| > 0 {
      var n := |cats| - 1;
      var acc := Fold(cats[..n], total);
      FoldSpec(cats[..n], total);
      assert cats[..n] + [cats[n]] == cats;
      if !IsSmall(cats[n].value, total) {
        FoldStepKeep(acc, cats[..n], cats[n], total);
      } else if FirstIndex(acc, Varios) >= 0 {
        FoldStepMerge(acc, cats[..n], cats[n], total);
      } else {
        FoldStepFirst(acc, cats[..n], cats[n], total);
      }
    }
  }

  /** `findIndex` goes by name, so small categories are added to a category
      that is itself called `Varios` rather than to a separate entry. */
  lemma SmallJoinsNamedVarios()
    ensures Processed([Analytics.Entry(Varios, 500), Analytics.Entry("Luz", 1)]) == [Analytics.Entry(Varios, 501)]
  {
    var cats := [Analytics.Entry(Varios, 500), Analytics.Entry("Luz", 1)];
    assert cats[1..] == [Analytics.Entry("Luz", 1)] && cats[1..][1..] == [];
    assert Analytics.SumOf(cats[1..][1..], Analytics.Amount) == 0;
    assert Analytics.SumOf(cats[1..], Analytics.Amount) == 1;
    assert Analytics.SumOf(cats, Analytics.Amount) == 501;
    var first := cats[..1];
    assert first == [Analytics.Entry(Varios, 500)] && first[..0] == [];
    assert !IsSmall(500, 501);
    assert Fold(first, 501) == Fold(first[..0], 501) + [Analytics.Entry(Varios, 500)];
    var acc := Fold(first, 501);
    assert acc == [Analytics.Entry(Varios, 500)];
    assert FirstIndex(acc, Varios) == 0;
  }

  /** Over a zero total, a negative category is folded and a positive one
      kept. */
  lemma ZeroTotalFoldsNegatives()
    ensures Processed([Analytics.Entry("Luz", 5), Analytics.Entry("Agua", -5)])
            == [Analytics.Entry("Luz", 5), Analytics.Entry(Varios, -5)]
  {
    var cats := [Analytics.Entry("Luz", 5), Analytics.Entry("Agua", -5)];
    assert cats[1..] == [Analytics.Entry("Agua", -5)] && cats[1..][1..] == [];
    assert Analytics.SumOf(cats[1..][1..], Analytics.Amount) == 0;
    assert Analytics.SumOf(cats[1..], Analytics.Amount) == -5;
    assert Analytics.SumOf(cats, Analytics.Amount) == 0;
    var first := cats[..1];
    assert first == [Analytics.Entry("Luz", 5)] && first[..0] == [];
    assert Fold(first, 0) == Fold(first[..0], 0) + [Analytics.Entry("Luz", 5)];
    var acc := Fold(first, 0);
    assert acc == [Analytics.Entry("Luz", 5)];
    assert FirstIndex(acc, Varios) == -1;
  }

  // ---------------------------------------------------------------------
  // KPI cards.
  // ---------------------------------------------------------------------

  function TotalSales(timeline: seq<Analytics.Entry<Analytics.Totals>>): int
  {
    Analytics.SumOf(timeline, Analytics.SalesOf)
  }

  function TotalExpenses(timeline: seq<Analytics.Entry<Analytics.Totals>>): int
  {
    Analytics.SumOf(timeline, Analytics.ExpensesOf)
  }

  /** One month's sales less its expenses. */
  function NetOf(t: Analytics.Totals): int { t.sales - t.expenses }

  /** Summing months' nets is netting the summed months. */
  lemma {:induction false} SumOfNet(timeline: seq<Analytics.Entry<Analytics.Totals>>)
    ensures Analytics.SumOf(timeline, NetOf) == TotalSales(timeline) - TotalExpenses(timeline)
    decreases |timeline|
  {
    if |timeline| > 0 {
      SumOfNet(timeline[1..]);
    }
  }

  /** `BALANCE NETO`: the sum of every month's net. */
  function NetBalance(timeline: seq<Analytics.Entry<Analytics.Totals>>): (r: int)
    ensures r == Analytics.SumOf(timeline, NetOf)
  {
    SumOfNet(timeline);
    TotalSales(timeline) - TotalExpenses(timeline)
  }

  /** On a report with sales, the cards show every sale and every expense
      recorded, and the net balance is their difference. */
  lemma CardsMatchLedger(sales: seq<Analytics.SaleRec>, expenses: seq<Analytics.ExpenseRec>, cal: Analytics.Calendar)
    requires |sales| > 0
    ensures var t := Analytics.Analyze(sales, expenses, cal, false).body.timeline;
            && TotalSales(t) == Analytics.SalesTotal(sales)
            && TotalExpenses(t) == Analytics.ExpensesTotal(expenses)
            && NetBalance(t) == Analytics.SalesTotal(sales) - Analytics.ExpensesTotal(expenses)
  {
  }

  /** Without any sale the report is empty, so the cards show 0 whatever
      the expenses are. */
  lemma NoSalesHidesExpenses(expenses: seq<Analytics.ExpenseRec>, cal: Analytics.Calendar)
    ensures var t := Analytics.Analyze([], expenses, cal, false).body.timeline;
            TotalExpenses(t) == 0 && NetBalance(t) == 0
  {
  }

  // ---------------------------------------------------------------------
  // The combined history-and-forecast series.
  // ---------------------------------------------------------------------

  /** A point of the trend chart; `None` is the JSON `null`. */
  datatype ChartRow = ChartRow(month: string, sales: Option<int>, expenses: Option<int>, forecast: Option<real>)

  function HistoryRow(e: Analytics.Entry<Analytics.Totals>): ChartRow
  {
    ChartRow(e.key, Some(e.value.sales), Some(e.value.expenses), None)
  }

  function ForecastRow(p: Analytics.Projection): ChartRow
  {
    ChartRow(p.month, None, None, Some(p.amount))
  }

  /** `combinedForecastData`: the history, then the forecast. */
  function Combined(timeline: seq<Analytics.Entry<Analytics.Totals>>, forecast: seq<Analytics.Projection>): (r: seq<ChartRow>)
    ensures |r| == |timeline| + |forecast|
  {
    seq(|timeline|, i requires 0 <= i < |timeline| => HistoryRow(timeline[i]))
      + seq(|forecast|, i requires 0 <= i < |forecast| => ForecastRow(forecast[i]))
  }

  /** Reads a history point back; `None` for a forecast point. */
  function AsHistory(row: ChartRow): Option<Analytics.Entry<Analytics.Totals>>
  {
    if row.sales.Some? && row.expenses.Some? && row.forecast.None?
    then Some(Analytics.Entry(row.month, Analytics.Totals(row.sales.value, row.expenses.value)))
    else None
  }

  /** Reads a forecast point back; `None` for a history point. */
  function AsForecast(row: ChartRow): Option<Analytics.Projection>
  {
    if row.sales.None? && row.expenses.None? && row.forecast.Some?
    then Some(Analytics.Projection(row.month, row.forecast.value))
    else None
  }

  /** The series splits back into the two inputs: the first rows are
      exactly the history (no forecast value), the rest exactly the forecast
      (no sales or expenses). */
  lemma CombinedSplits(timeline: seq<Analytics.Entry<Analytics.Totals>>, forecast: seq<Analytics.Projection>)
    ensures var r := Combined(timeline, forecast);
            && (forall i :: 0 <= i < |timeline| ==> AsHistory(r[i]) == Some(timeline[i]) && AsForecast(r[i]).None?)
            && (forall i :: 0 <= i < |forecast| ==>
                  AsForecast(r[|timeline| + i]) == Some(forecast[i]) && AsHistory(r[|timeline| + i]).None?)
  {
  }

  // ---------------------------------------------------------------------
  // What the page shows for the analytics response.
  // ---------------------------------------------------------------------

  /** The JSON the page receives: the report, or `{ error }` with status 500. */
  datatype Payload = ReportBody(report: Analytics.Report) | ErrorBody(message: string)

  const FetchFailedMessage := "Failed to fetch data"

  function Respond(r: Response<Analytics.Report>): Payload
  {
    if r.Ok? then ReportBody(r.body) else ErrorBody(FetchFailedMessage)
  }

  datatype Screen =
    | ErrorLoading
    | Crashed
    | Dashboard(totalSales: int, totalExpenses: int, net: int, categories: seq<Category>, series: seq<ChartRow>)

  /** The cards, the processed categories and the chart of a report. */
  function DashboardOf(p: Analytics.Report): (v: Screen)
    ensures v.Dashboard?
    ensures v.totalSales == Analytics.SumOf(p.timeline, Analytics.SalesOf)
    ensures v.totalExpenses == Analytics.SumOf(p.timeline, Analytics.ExpensesOf)
    ensures v.net == v.totalSales - v.totalExpenses
    ensures Analytics.SumOf(v.categories, Analytics.Amount) == Analytics.SumOf(p.categories, Analytics.Amount)
    ensures |v.categories| <= |p.categories|
    ensures |v.series| == |p.timeline| + |p.forecast|
  {
    Dashboard(TotalSales(p.timeline), TotalExpenses(p.timeline), NetBalance(p.timeline),
              Processed(p.categories), Combined(p.timeline, p.forecast))
  }

  /** The page as written: `data` is `None` only when the request or the
      JSON parse failed; it never looks at the status, so an error body
      reaches `data.timeline.map` and the render throws. */
  function ViewAsWritten(data: Option<Payload>): (v: Screen)
    ensures data.None? ==> v == ErrorLoading
    ensures v == Crashed <==> data.Some? && data.value.ErrorBody?
    ensures data.Some? && data.value.ReportBody? ==>
              var p := data.value.report;
              && v.Dashboard?
              && v.totalSales == Analytics.SumOf(p.timeline, Analytics.SalesOf)
              && v.totalExpenses == Analytics.SumOf(p.timeline, Analytics.ExpensesOf)
              && v.net == v.totalSales - v.totalExpenses
              && Analytics.SumOf(v.categories, Analytics.Amount) == Analytics.SumOf(p.categories, Analytics.Amount)
              && |v.series| == |p.timeline| + |p.forecast|
  {
    match data
    case None => ErrorLoading
    case Some(ErrorBody(_)) => Crashed
    case Some(ReportBody(p)) => DashboardOf(p)
  }

  /** A failed fetch on the server crashes the page instead of showing the
      error message. */
  lemma FetchFailureCrashesPage(sales: seq<Analytics.SaleRec>, expenses: seq<Analytics.ExpenseRec>, cal: Analytics.Calendar)
    ensures ViewAsWritten(Some(Respond(Analytics.Analyze(sales, expenses, cal, true)))) == Crashed
  {
  }

  /** The page with the error body treated like a failed request. */
  function Render(data: Option<Payload>): (v: Screen)
    ensures v != Crashed
    ensures ViewAsWritten(data) != Crashed ==> v == ViewAsWritten(data)
  {
    match data
    case None => ErrorLoading
    case Some(ErrorBody(_)) => ErrorLoading
    case Some(ReportBody(p)) => DashboardOf(p)
  }

  /** With the error body handled, the analytics handler's answer always
      renders: the error message on failure, the dashboard otherwise, its
      cards matching the ledger and its pie chart adding up to the
      categorised expenses. */
  lemma ViewOfAnalytics(sales: seq<Analytics.SaleRec>, expenses: seq<Analytics.ExpenseRec>, cal: Analytics.Calendar, fetchFails: bool)
    ensures var v := Render(Some(Respond(Analytics.Analyze(sales, expenses, cal, fetchFails))));
            && (fetchFails <==> v == ErrorLoading)
            && (!fetchFails && |sales| > 0 ==>
                  && v.Dashboard?
                  && v.net == Analytics.SalesTotal(sales) - Analytics.ExpensesTotal(expenses)
                  && Analytics.SumOf(v.categories, Analytics.Amount) == Analytics.CategorizedTotal(expenses))
  {
    if !fetchFails && |sales| > 0 {
      var p := Analytics.Analyze(sales, expenses, cal, false).body;
      var total := Analytics.SumOf(p.categories, Analytics.Amount);
      FoldKeepsSum(p.categories, total);
    }
  }
}
