/** Currency conversion and the revenue breakdown of the admin dashboard
    (frontend/app/admin/services/currencyService.ts). Amounts and rates are
    exact `real`s. */
module CurrencyService {
  import opened Seqs

  /** A `total_revenue` entry of the backend summary. */
  datatype CurrencyTotal = CurrencyTotal(currency: string, total: real)

  datatype BreakdownItem = BreakdownItem(currency: string, total: real, iskEquivalent: real, percentage: real)

  /** `CURRENCY_RATES`: ISK per unit of each listed currency. */
  const CurrencyRates: map<string, real> :=
    map["ISK" := 1.0, "USD" := 138.89, "EUR" := 153.85, "GBP" := 175.45, "SEK" := 13.86, "NOK" := 12.84]

  /** `CURRENCY_RATES[currency] || 1`: the listed rate, or 1 for a currency
      that is not listed (a listed rate of 0 would fall back to 1 as well). */
  function Rate(currency: string): (r: real)
    ensures r > 0.0
    ensures currency in CurrencyRates && CurrencyRates[currency] != 0.0 ==> r == CurrencyRates[currency]
    ensures currency !in CurrencyRates ==> r == 1.0
  {
    if currency in CurrencyRates && CurrencyRates[currency] != 0.0 then CurrencyRates[currency] else 1.0
  }

  /** `toISK`. */
  function ToIsk(amount: real, currency: string): (r: real)
    ensures currency in CurrencyRates ==> r == amount * CurrencyRates[currency]
    ensures currency == "ISK" || currency !in CurrencyRates ==> r == amount
    ensures (r >= 0.0) == (amount >= 0.0) && (r == 0.0) == (amount == 0.0)
  {
    amount * Rate(currency)
  }

  /** 100 US dollars are 13 889 krónur at the listed rate; an unlisted
      currency is taken at par. */
  lemma ToIskExamples()
    ensures ToIsk(100.0, "USD") == 13889.0
    ensures ToIsk(100.0, "DKK") == 100.0
  {
    assert "DKK" !in CurrencyRates;
  }

  function IskOf(t: CurrencyTotal): real { ToIsk(t.total, t.currency) }

  /** `calculateTotalRevenueISK`: the `toISK` values added up left to right. */
  function TotalRevenueIsk(ts: seq<CurrencyTotal>): (r: real)
    ensures ts == [] ==> r == 0.0
  {
    if ts == [] then 0.0 else TotalRevenueIsk(ts[..|ts| - 1]) + IskOf(ts[|ts| - 1])
  }

  /** The ISK total of two lists of entries is the sum of their totals. */
  lemma {:induction false} TotalRevenueIskAppend(a: seq<CurrencyTotal>, b: seq<CurrencyTotal>)
    ensures TotalRevenueIsk(a + b) == TotalRevenueIsk(a) + TotalRevenueIsk(b)
    decreases |b|
  {
    if b == [] {
      assert a + b == a;
    } else {
      var init := b[..|b| - 1];
      assert (a + b)[..|a + b| - 1] == a + init;
      assert (a + b)[|a + b| - 1] == b[|b| - 1];
      TotalRevenueIskAppend(a, init);
    }
  }

  /** One breakdown row: the entry with its ISK value and its share of the
      ISK total in percent (0 when the total is not positive). */
  function ItemOf(t: CurrencyTotal, totalIsk: real): (b: BreakdownItem)
    ensures b.currency == t.currency && b.total == t.total && b.iskEquivalent == IskOf(t)
    ensures totalIsk <= 0.0 ==> b.percentage == 0.0
    ensures totalIsk > 0.0 ==> b.percentage == IskOf(t) / totalIsk * 100.0
  {
    var isk := IskOf(t);
    BreakdownItem(t.currency, t.total, isk, if totalIsk > 0.0 then (isk / totalIsk) * 100.0 else 0.0)
  }

  function Items(ts: seq<CurrencyTotal>, totalIsk: real): (r: seq<BreakdownItem>)
    ensures |r| == |ts|
    ensures forall i :: 0 <= i < |ts| ==> r[i] == ItemOf(ts[i], totalIsk)
  {
    seq(|ts|, i requires 0 <= i < |ts| => ItemOf(ts[i], totalIsk))
  }

  // ---------------------------------------------------------------------
  // The descending sort (`sort((a, b) => b.iskEquivalent - a.iskEquivalent)`)
  // ---------------------------------------------------------------------

  predicate SortedDesc(s: seq<BreakdownItem>)
  {
    forall i, j :: 0 <= i < j < |s| ==> s[i].iskEquivalent >= s[j].iskEquivalent
  }

  /** Inserts `x` after every element whose value is at least its own. */
  function InsertDesc(s: seq<BreakdownItem>, x: BreakdownItem): (r: seq<BreakdownItem>)
    ensures |r| == |s| + 1
    ensures forall y :: y in r <==> y in s || y == x
  {
    if s == [] then [x]
    else if s[|s| - 1].iskEquivalent >= x.iskEquivalent then s + [x]
    else
      assert s == s[..|s| - 1] + [s[|s| - 1]];
      InsertDesc(s[..|s| - 1], x) + [s[|s| - 1]]
  }

  lemma {:induction false} InsertDescSorted(s: seq<BreakdownItem>, x: BreakdownItem)
    requires SortedDesc(s)
    ensures SortedDesc(InsertDesc(s, x))
    decreases |s|
  {
    if s != [] && s[|s| - 1].iskEquivalent < x.iskEquivalent {
      var init, last := s[..|s| - 1], s[|s| - 1];
      InsertDescSorted(init, x);
      var r := InsertDesc(init, x);
      forall y | y in r ensures y.iskEquivalent >= last.iskEquivalent {
        if y != x {
          var i :| 0 <= i < |init| && init[i] == y;
          assert s[i] == y;
        }
      }
    }
  }

  lemma {:induction false} InsertDescPermutes(s: seq<BreakdownItem>, x: BreakdownItem)
    ensures multiset(InsertDesc(s, x)) == multiset(s) + multiset{x}
    decreases |s|
  {
    if s != [] && s[|s| - 1].iskEquivalent < x.iskEquivalent {
      var init, last := s[..|s| - 1], s[|s| - 1];
      InsertDescPermutes(init, x);
      assert s == init + [last];
    }
  }

  /** A stable sort by `iskEquivalent`, largest first: each element is
      inserted, in input order, after the elements not smaller than it. */
  function SortDesc(s: seq<BreakdownItem>): (r: seq<BreakdownItem>)
    ensures SortedDesc(r)
    ensures multiset(r) == multiset(s)
    ensures |r| == |s|
  {
    if s == [] then []
    else
      var init, last := s[..|s| - 1], s[|s| - 1];
      var sorted := SortDesc(init);
      InsertDescSorted(sorted, last);
      InsertDescPermutes(sorted, last);
      assert s == init + [last];
      InsertDesc(sorted, last)
  }

  /** `createCurrencyBreakdown`. */
  function CreateCurrencyBreakdown(ts: seq<CurrencyTotal>): (r: seq<BreakdownItem>)
    ensures |r| == |ts| && SortedDesc(r)
  {
    SortDesc(Items(ts, TotalRevenueIsk(ts)))
  }

  /** The breakdown is sorted largest first, has one row per input entry
      (a permutation of the unsorted rows), and each row keeps its entry's
      currency and total. */
  lemma BreakdownShape(ts: seq<CurrencyTotal>)
    ensures var b := CreateCurrencyBreakdown(ts);
      && SortedDesc(b)
      && |b| == |ts|
      && multiset(b) == multiset(Items(ts, TotalRevenueIsk(ts)))
      && (forall x :: x in b ==> exists i :: 0 <= i < |ts| && x == ItemOf(ts[i], TotalRevenueIsk(ts)))
  {
    var items := Items(ts, TotalRevenueIsk(ts));
    var b := CreateCurrencyBreakdown(ts);
    forall x | x in b ensures exists i :: 0 <= i < |ts| && x == ItemOf(ts[i], TotalRevenueIsk(ts)) {
      assert x in multiset(items);
      var i :| 0 <= i < |items| && items[i] == x;
    }
  }

  /** When the ISK total is not positive every percentage is 0. */
  lemma BreakdownZeroTotal(ts: seq<CurrencyTotal>)
    requires TotalRevenueIsk(ts) <= 0.0
    ensures forall x :: x in CreateCurrencyBreakdown(ts) ==> x.percentage == 0.0
  {
    BreakdownShape(ts);
  }

  // ---------------------------------------------------------------------
  // Percentages
  // ---------------------------------------------------------------------

  function SumPercent(s: seq<BreakdownItem>): real
  {
    if s == [] then 0.0 else SumPercent(s[..|s| - 1]) + s[|s| - 1].percentage
  }

  lemma {:induction false} SumPercentInsert(s: seq<BreakdownItem>, x: BreakdownItem)
    ensures SumPercent(InsertDesc(s, x)) == SumPercent(s) + x.percentage
    decreases |s|
  {
    if s != [] && s[|s| - 1].iskEquivalent < x.iskEquivalent {
      var init := s[..|s| - 1];
      SumPercentInsert(init, x);
      var r := InsertDesc(init, x) + [s[|s| - 1]];
      assert r[..|r| - 1] == InsertDesc(init, x);
    }
  }

  /** Sorting does not change the sum of the percentages. */
  lemma {:induction false} SumPercentSort(s: seq<BreakdownItem>)
    ensures SumPercent(SortDesc(s)) == SumPercent(s)
    decreases |s|
  {
    if s != [] {
      SumPercentSort(s[..|s| - 1]);
      SumPercentInsert(SortDesc(s[..|s| - 1]), s[|s| - 1]);
    }
  }

  lemma ShareAdds(a: real, b: real, t: real)
    requires t > 0.0
    ensures a / t * 100.0 + b / t * 100.0 == (a + b) / t * 100.0
  {
    assert a / t + b / t == (a + b) / t;
  }

  lemma WholeShare(t: real)
    requires t > 0.0
    ensures t / t * 100.0 == 100.0
  {
  }

  /** Before sorting, the percentages add up to the ISK total's share of
      `totalIsk`. */
  lemma {:induction false} SumPercentItems(ts: seq<CurrencyTotal>, totalIsk: real)
    requires totalIsk > 0.0
    ensures SumPercent(Items(ts, totalIsk)) == TotalRevenueIsk(ts) / totalIsk * 100.0
    decreases |ts|
  {
    if ts != [] {
      var init := ts[..|ts| - 1];
      var items := Items(ts, totalIsk);
      assert items[..|items| - 1] == Items(init, totalIsk);
      SumPercentItems(init, totalIsk);
      ShareAdds(TotalRevenueIsk(init), IskOf(ts[|ts| - 1]), totalIsk);
    }
  }

  /** With a positive ISK total the percentages of the breakdown add up to
      100 (in exact arithmetic). */
  lemma BreakdownPercentagesSumTo100(ts: seq<CurrencyTotal>)
    requires TotalRevenueIsk(ts) > 0.0
    ensures SumPercent(CreateCurrencyBreakdown(ts)) == 100.0
  {
    var t := TotalRevenueIsk(ts);
    var items := Items(ts, t);
    assert CreateCurrencyBreakdown(ts) == SortDesc(items);
    SumPercentSort(items);
    SumPercentItems(ts, t);
    WholeShare(t);
  }

  predicate NonNegative(ts: seq<CurrencyTotal>)
  {
    forall i :: 0 <= i < |ts| ==> ts[i].total >= 0.0
  }

  /** With non-negative amounts each ISK value is at most the ISK total. */
  lemma {:induction false} IskWithinTotal(ts: seq<CurrencyTotal>, k: nat)
    requires NonNegative(ts) && k < |ts|
    ensures 0.0 <= IskOf(ts[k]) <= TotalRevenueIsk(ts)
    ensures TotalRevenueIsk(ts) >= 0.0
    decreases |ts|
  {
    var init := ts[..|ts| - 1];
    if k < |ts| - 1 {
      IskWithinTotal(init, k);
      assert ts[k] == init[k];
    } else if init != [] {
      IskWithinTotal(init, 0);
    }
  }

  lemma ShareBounded(a: real, t: real)
    requires 0.0 <= a <= t && t > 0.0
    ensures 0.0 <= a / t * 100.0 <= 100.0
  {
    var q := a / t;
    assert q * t == a;
    assert (1.0 - q) * t == t - a;
  }

  /** With non-negative amounts and a positive ISK total each percentage
      lies between 0 and 100. */
  lemma BreakdownPercentagesBounded(ts: seq<CurrencyTotal>)
    requires NonNegative(ts) && TotalRevenueIsk(ts) > 0.0
    ensures forall x :: x in CreateCurrencyBreakdown(ts) ==> 0.0 <= x.percentage <= 100.0
  {
    var t := TotalRevenueIsk(ts);
    BreakdownShape(ts);
    forall x | x in CreateCurrencyBreakdown(ts) ensures 0.0 <= x.percentage <= 100.0 {
      var i :| 0 <= i < |ts| && x == ItemOf(ts[i], t);
      IskWithinTotal(ts, i);
      ShareBounded(IskOf(ts[i]), t);
    }
  }

  // ---------------------------------------------------------------------
  // Currency list and price formatting
  // ---------------------------------------------------------------------

  /** `getUniqueCurrencies`: the currencies of the entries in input order;
      despite its name it does not remove duplicates, which is harmless on
      the summary's totals, whose currencies are distinct. */
  function GetUniqueCurrencies(ts: seq<CurrencyTotal>): (r: seq<string>)
    ensures |r| == |ts|
    ensures forall i :: 0 <= i < |ts| ==> r[i] == ts[i].currency
    ensures (forall i, j :: 0 <= i < j < |ts| ==> ts[i].currency != ts[j].currency) <==> Distinct(r)
  {
    seq(|ts|, i requires 0 <= i < |ts| => ts[i].currency)
  }

  /** The prefix `formatPrice` puts before a non-ISK amount. */
  function Symbol(currency: string): (r: string)
    ensures |r| <= 1
    ensures r != "" <==> currency in {"USD", "EUR", "GBP"}
  {
    if currency == "USD" then "$"
    else if currency == "EUR" then "€"
    else if currency == "GBP" then "£"
    else ""
  }

  /** `formatPrice`, up to the locale rendering of the amount, which is the
      parameter `localized`: ISK amounts get the suffix " kr", others the
      currency's symbol as a prefix, and the rendered amount is kept whole. */
  function FormatPrice(localized: string, currency: string): (r: string)
    ensures |r| == |localized| + (if currency == "ISK" then 3 else |Symbol(currency)|)
    ensures currency == "ISK" ==> r[..|localized|] == localized && r[|localized|..] == " kr"
    ensures currency != "ISK" ==> r[|r| - |localized|..] == localized && r[..|r| - |localized|] == Symbol(currency)
  {
    if currency == "ISK" then localized + " kr" else Symbol(currency) + localized
  }
}
