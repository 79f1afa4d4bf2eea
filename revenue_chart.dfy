/** The data shaping of the revenue charts (frontend/components/RevenueChart.tsx):
    which days are plotted and which revenue each plotted point shows.
    Dates are `YYYY-MM-DD` strings, whose order by `Date.getTime()` is their
    lexicographic order; the display label a point also carries is not
    modelled. */
module RevenueChart {
  import opened Wrappers
  import opened Text
  import opened Seqs

  /** A `revenue_per_day` row of the backend summary. */
  datatype DailyRevenue = DailyRevenue(date: string, currency: string, revenue: real)

  /** A point of the single-currency charts. */
  datatype ChartPoint = ChartPoint(fullDate: string, revenue: real)

  /** A point of the stacked chart: one value per currency. */
  datatype StackedPoint = StackedPoint(fullDate: string, values: map<string, real>)

  /** `slice(-14)`: the charts show at most two weeks. */
  const MaxPoints: nat := 14

  // ---------------------------------------------------------------------
  // The plotted dates
  // ---------------------------------------------------------------------

  function DatesOf(rows: seq<DailyRevenue>): (ds: seq<string>)
    ensures |ds| == |rows|
    ensures forall i :: 0 <= i < |rows| ==> ds[i] == rows[i].date
  {
    seq(|rows|, i requires 0 <= i < |rows| => rows[i].date)
  }

  /** `Array.from(new Set(rows.map(r => r.date)))`. */
  function DistinctDates(rows: seq<DailyRevenue>): (ds: seq<string>)
    ensures Distinct(ds)
    ensures forall d :: d in ds <==> HasDate(rows, d)
  {
    var all := DatesOf(rows);
    assert forall d :: d in all <==> HasDate(rows, d) by {
      forall d ensures d in all <==> HasDate(rows, d) {
        if d in all {
          var i :| 0 <= i < |all| && all[i] == d;
        }
        if HasDate(rows, d) {
          var i :| 0 <= i < |rows| && rows[i].date == d;
          assert all[i] == d;
        }
      }
    }
    Dedupe(all)
  }

  predicate HasDate(rows: seq<DailyRevenue>, d: string)
  {
    exists i :: 0 <= i < |rows| && rows[i].date == d
  }

  predicate StrictlyAscending(s: seq<string>)
  {
    forall i, j :: 0 <= i < j < |s| ==> Less(s[i], s[j])
  }

  /** Inserts a new date into an ascending list of dates. */
  function InsertAsc(s: seq<string>, x: string): (r: seq<string>)
    requires StrictlyAscending(s) && x !in s
    ensures StrictlyAscending(r)
    ensures forall y :: y in r <==> y in s || y == x
    ensures |r| == |s| + 1
  {
    if s == [] then [x]
    else if Less(x, s[0]) then
      assert forall j :: 0 < j < |s| ==> Less(x, s[j]) by {
        forall j | 0 < j < |s| ensures Less(x, s[j]) {
          LessTransitive(x, s[0], s[j]);
        }
      }
      [x] + s
    else
      LessTotal(x, s[0]);
      var rest := InsertAsc(s[1..], x);
      assert forall y :: y in rest ==> Less(s[0], y) by {
        forall y | y in rest ensures Less(s[0], y) {
          if y != x {
            var j :| 0 <= j < |s[1..]| && s[1..][j] == y;
            assert s[j + 1] == y;
          }
        }
      }
      [s[0]] + rest
  }

  /** `sort((a, b) => new Date(a).getTime() - new Date(b).getTime())` on
      distinct dates. */
  function SortAsc(s: seq<string>): (r: seq<string>)
    requires Distinct(s)
    ensures StrictlyAscending(r)
    ensures forall y :: y in r <==> y in s
    ensures |r| == |s|
  {
    if s == [] then []
    else
      var init, last := s[..|s| - 1], s[|s| - 1];
      assert s == init + [last];
      assert last !in init;
      InsertAsc(SortAsc(init), last)
  }

  /** `slice(-n)`: the last `n` elements, or all of them. */
  function LastN<T>(s: seq<T>, n: nat): (r: seq<T>)
    ensures |r| == if |s| <= n then |s| else n
    ensures r == s[|s| - |r|..]
  {
    if |s| <= n then s else s[|s| - n..]
  }

  /** The dates every chart plots: dates of the rows, at most 14 of them. */
  function ChartDates(rows: seq<DailyRevenue>): (ds: seq<string>)
    ensures |ds| <= MaxPoints
    ensures forall d :: d in ds ==> HasDate(rows, d)
  {
    LastN(SortAsc(DistinctDates(rows)), MaxPoints)
  }

  /** The plotted dates are distinct dates of the rows, in ascending order;
      there are min(14, number of distinct dates) of them, and they are the
      latest: every date of the rows left out is earlier than all of them. */
  lemma ChartDatesSpec(rows: seq<DailyRevenue>)
    ensures var ds := ChartDates(rows);
      && StrictlyAscending(ds)
      && |ds| == (if |DistinctDates(rows)| <= MaxPoints then |DistinctDates(rows)| else MaxPoints)
      && (forall d, e :: HasDate(rows, d) && d !in ds && e in ds ==> Less(d, e))
  {
    var sorted := SortAsc(DistinctDates(rows));
    var ds := ChartDates(rows);
    var k := |sorted| - |ds|;
    assert forall i :: 0 <= i < |ds| ==> ds[i] == sorted[k + i];
    forall d, e | HasDate(rows, d) && d !in ds && e in ds ensures Less(d, e) {
      assert d in sorted;
      var j :| 0 <= j < |sorted| && sorted[j] == d;
      var i :| 0 <= i < |ds| && ds[i] == e;
      assert sorted[k + i] == e;
    }
  }

  /** With no more than 14 distinct dates every date is plotted. */
  lemma ChartDatesAllWhenFew(rows: seq<DailyRevenue>)
    requires |DistinctDates(rows)| <= MaxPoints
    ensures forall d :: d in ChartDates(rows) <==> HasDate(rows, d)
  {
  }

  // ---------------------------------------------------------------------
  // The revenue of a point
  // ---------------------------------------------------------------------

  predicate IsRowFor(r: DailyRevenue, date: string, currency: string)
  {
    r.date == date && r.currency == currency
  }

  /** `rows.find(r => r.date === date && r.currency === currency)`. */
  function FindRow(rows: seq<DailyRevenue>, date: string, currency: string): (r: Option<nat>)
    ensures r.Some? ==> r.value < |rows| && IsRowFor(rows[r.value], date, currency)
    ensures r.Some? ==> forall i :: 0 <= i < r.value ==> !IsRowFor(rows[i], date, currency)
    ensures r.None? ==> forall i :: 0 <= i < |rows| ==> !IsRowFor(rows[i], date, currency)
  {
    if rows == [] then None
    else if IsRowFor(rows[0], date, currency) then Some(0)
    else
      match FindRow(rows[1..], date, currency)
      case None => None
      case Some(k) => Some(k + 1)
  }

  /** `dayRevenue?.revenue || 0`: the revenue of the first row for that
      date and currency, or 0 when there is none. */
  function RevenueFor(rows: seq<DailyRevenue>, date: string, currency: string): (v: real)
    ensures (forall i :: 0 <= i < |rows| ==> !IsRowFor(rows[i], date, currency)) ==> v == 0.0
    ensures forall k :: 0 <= k < |rows| && IsRowFor(rows[k], date, currency) ==>
      (forall i :: 0 <= i < k ==> !IsRowFor(rows[i], date, currency)) ==> v == rows[k].revenue
  {
    match FindRow(rows, date, currency)
    case None => 0.0
    case Some(k) => rows[k].revenue
  }

  /** The `chartData` of `RevenueChart`, which `RevenueBarChart` builds by
      the same pipeline: one point per plotted date, carrying the revenue
      in the selected currency. */
  function ChartData(rows: seq<DailyRevenue>, currencyFilter: string): (points: seq<ChartPoint>)
    ensures |points| == |ChartDates(rows)|
    ensures forall i :: 0 <= i < |points| ==>
      points[i] == ChartPoint(ChartDates(rows)[i], RevenueFor(rows, ChartDates(rows)[i], currencyFilter))
  {
    var dates := ChartDates(rows);
    seq(|dates|, i requires 0 <= i < |dates| => ChartPoint(dates[i], RevenueFor(rows, dates[i], currencyFilter)))
  }

  // ---------------------------------------------------------------------
  // The stacked multi-currency chart
  // ---------------------------------------------------------------------

  predicate HasCurrency(rows: seq<DailyRevenue>, c: string)
  {
    exists i :: 0 <= i < |rows| && rows[i].currency == c
  }

  /** `Array.from(new Set(rows.map(r => r.currency)))`. */
  function DistinctCurrencies(rows: seq<DailyRevenue>): (cs: seq<string>)
    ensures Distinct(cs)
    ensures forall c :: c in cs <==> HasCurrency(rows, c)
  {
    var all := seq(|rows|, i requires 0 <= i < |rows| => rows[i].currency);
    assert forall c :: c in all <==> HasCurrency(rows, c) by {
      forall c ensures c in all <==> HasCurrency(rows, c) {
        if c in all {
          var i :| 0 <= i < |all| && all[i] == c;
        }
        if HasCurrency(rows, c) {
          var i :| 0 <= i < |rows| && rows[i].currency == c;
          assert all[i] == c;
        }
      }
    }
    Dedupe(all)
  }

  /** The `forEach` that fills one data point: every currency gets the
      revenue of its row for that date, or 0. */
  method FillDataPoint(rows: seq<DailyRevenue>, date: string, currencies: seq<string>) returns (values: map<string, real>)
    ensures forall c :: c in values <==> c in currencies
    ensures forall c :: c in values ==> values[c] == RevenueFor(rows, date, c)
  {
    values := map[];
    for j := 0 to |currencies|
      invariant forall c :: c in values <==> c in currencies[..j]
      invariant forall c :: c in values ==> values[c] == RevenueFor(rows, date, c)
    {
      assert currencies[..j + 1] == currencies[..j] + [currencies[j]];
      values := values[currencies[j] := RevenueFor(rows, date, currencies[j])];
    }
    assert currencies[..|currencies|] == currencies;
  }

  /** A stacked point for `date` carries a value for exactly the currencies
      of the rows, each that currency's revenue on the day. */
  ghost predicate IsStackedPoint(rows: seq<DailyRevenue>, p: StackedPoint)
  {
    && (forall c :: c in p.values <==> HasCurrency(rows, c))
    && (forall c :: c in p.values ==> p.values[c] == RevenueFor(rows, p.fullDate, c))
  }

  /** The `chartData` of `MultiCurrencyChart`: the same plotted dates as the
      single-currency charts, and at each date a value for every currency
      occurring anywhere in the rows, 0 where that day has no row for it. */
  method MultiCurrencyChartData(rows: seq<DailyRevenue>) returns (points: seq<StackedPoint>)
    ensures |points| == |ChartDates(rows)|
    ensures forall i :: 0 <= i < |points| ==> points[i].fullDate == ChartDates(rows)[i]
    ensures forall i, c :: 0 <= i < |points| ==> (c in points[i].values <==> HasCurrency(rows, c))
    ensures forall i, c :: 0 <= i < |points| && c in points[i].values ==>
      points[i].values[c] == RevenueFor(rows, points[i].fullDate, c)
  {
    var dates := ChartDates(rows);
    var currencies := DistinctCurrencies(rows);
    points := [];
    for i := 0 to |dates|
      invariant |points| == i
      invariant forall k :: 0 <= k < i ==> points[k].fullDate == dates[k]
      invariant forall k :: 0 <= k < i ==> IsStackedPoint(rows, points[k])
    {
      var values := FillDataPoint(rows, dates[i], currencies);
      assert IsStackedPoint(rows, StackedPoint(dates[i], values));
      points := points + [StackedPoint(dates[i], values)];
    }
  }
}
