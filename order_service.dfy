/** The admin dashboard's order filtering and statistics
    (frontend/app/admin/services/orderService.ts). Orders arrive as JSON, so
    the status is a plain string and the amount a number, modelled as an
    exact `real`. */
module OrderService {
  import opened Text
  import opened Seqs

  /** The fields of the `Order` record the service reads. */
  datatype Order = Order(
    id: int,
    orderId: string,
    customerId: string,
    totalAmount: real,
    currency: string,
    status: string,
    orderDate: string)

  datatype Statistics = Statistics(averageOrderValue: real, todayOrders: nat, pendingOrders: nat)

  const AllStatuses: string := "all"

  // ---------------------------------------------------------------------
  // Filters
  // ---------------------------------------------------------------------

  function FilterByStatus(orders: seq<Order>, status: string): (r: seq<Order>)
    ensures status == AllStatuses ==> r == orders
    ensures status != AllStatuses ==> forall o :: o in r <==> o in orders && o.status == status
    ensures IsSubsequence(r, orders)
  {
    if status == AllStatuses then
      assert Filter(orders, o => true) == orders by { FilterKeepsAll(orders, o => true); }
      FilterIsSubsequence(orders, o => true);
      orders
    else
      FilterIsSubsequence(orders, (o: Order) => o.status == status);
      Filter(orders, (o: Order) => o.status == status)
  }

  /** The search condition, given the already lower-cased query. */
  predicate MatchesQuery(o: Order, lowerQuery: string)
  {
    Contains(Lower(o.orderId), lowerQuery) || Contains(Lower(o.customerId), lowerQuery)
  }

  function FilterBySearch(orders: seq<Order>, query: string): (r: seq<Order>)
    ensures query == "" ==> r == orders
    ensures query != "" ==> forall o :: o in r <==> o in orders && MatchesQuery(o, Lower(query))
    ensures IsSubsequence(r, orders)
  {
    if query == "" then
      assert Filter(orders, o => true) == orders by { FilterKeepsAll(orders, o => true); }
      FilterIsSubsequence(orders, o => true);
      orders
    else
      var lowerQuery := Lower(query);
      FilterIsSubsequence(orders, (o: Order) => MatchesQuery(o, lowerQuery));
      Filter(orders, (o: Order) => MatchesQuery(o, lowerQuery))
  }

  /** `applyFilters`: the status filter, then the search; it keeps
      exactly the orders that pass both, and with neither set it keeps
      the list as it is. */
  function ApplyFilters(orders: seq<Order>, statusFilter: string, searchQuery: string): (r: seq<Order>)
    ensures forall o :: o in r <==> o in orders && Selected(o, statusFilter, searchQuery)
    ensures statusFilter == AllStatuses && searchQuery == "" ==> r == orders
  {
    var byStatus := if statusFilter != AllStatuses then FilterByStatus(orders, statusFilter) else orders;
    if searchQuery != "" then FilterBySearch(byStatus, searchQuery) else byStatus
  }

  /** The combined condition `applyFilters` selects by. */
  predicate Selected(o: Order, statusFilter: string, searchQuery: string)
  {
    && (statusFilter != AllStatuses ==> o.status == statusFilter)
    && (searchQuery != "" ==> MatchesQuery(o, Lower(searchQuery)))
  }

  /** The two-step `applyFilters` is the search applied after the status
      filter, and equals a single filter by the combined condition. */
  lemma ApplyFiltersIsOneFilter(orders: seq<Order>, statusFilter: string, searchQuery: string)
    ensures ApplyFilters(orders, statusFilter, searchQuery)
         == FilterBySearch(FilterByStatus(orders, statusFilter), searchQuery)
    ensures ApplyFilters(orders, statusFilter, searchQuery)
         == Filter(orders, (o: Order) => Selected(o, statusFilter, searchQuery))
  {
    var sel := (o: Order) => Selected(o, statusFilter, searchQuery);
    var byStatus := (o: Order) => o.status == statusFilter;
    var bySearch := (o: Order) => MatchesQuery(o, Lower(searchQuery));
    if statusFilter != AllStatuses && searchQuery != "" {
      FilterCompose(orders, byStatus, bySearch, sel);
    } else if statusFilter != AllStatuses {
      FilterExtensional(orders, byStatus, sel);
    } else if searchQuery != "" {
      FilterExtensional(orders, bySearch, sel);
    } else {
      FilterKeepsAll(orders, sel);
    }
  }

  /** `applyFilters` keeps the selected orders in their original order,
      and applying it twice changes nothing. */
  lemma ApplyFiltersSpec(orders: seq<Order>, statusFilter: string, searchQuery: string)
    ensures var r := ApplyFilters(orders, statusFilter, searchQuery);
      && IsSubsequence(r, orders)
      && ApplyFilters(r, statusFilter, searchQuery) == r
  {
    var sel := (o: Order) => Selected(o, statusFilter, searchQuery);
    var r := ApplyFilters(orders, statusFilter, searchQuery);
    ApplyFiltersIsOneFilter(orders, statusFilter, searchQuery);
    FilterIsSubsequence(orders, sel);
    ApplyFiltersIsOneFilter(r, statusFilter, searchQuery);
    FilterKeepsAll(r, sel);
  }

  /** The search ignores the case of the query. */
  lemma SearchIgnoresQueryCase(orders: seq<Order>, query: string)
    ensures FilterBySearch(orders, Upper(query)) == FilterBySearch(orders, query)
    ensures FilterBySearch(orders, Lower(query)) == FilterBySearch(orders, query)
  {
    LowerOfUpper(query);
    LowerIdempotent(query);
    FilterExtensional(orders, (o: Order) => MatchesQuery(o, Lower(Upper(query))), (o: Order) => MatchesQuery(o, Lower(query)));
    FilterExtensional(orders, (o: Order) => MatchesQuery(o, Lower(Lower(query))), (o: Order) => MatchesQuery(o, Lower(query)));
  }

  /** An order whose id or customer id contains the query verbatim is
      always found. */
  lemma SearchFindsVerbatim(orders: seq<Order>, query: string, o: Order)
    requires o in orders
    requires Contains(o.orderId, query) || Contains(o.customerId, query)
    ensures o in FilterBySearch(orders, query)
  {
    if Contains(o.orderId, query) {
      ContainsLower(o.orderId, query);
    } else {
      ContainsLower(o.customerId, query);
    }
  }

  // ---------------------------------------------------------------------
  // Statistics
  // ---------------------------------------------------------------------

  /** `orders.reduce((sum, o) => sum + o.total_amount, 0)`. */
  function SumAmounts(orders: seq<Order>): real
  {
    if orders == [] then 0.0 else SumAmounts(orders[..|orders| - 1]) + orders[|orders| - 1].totalAmount
  }

  /** `calculateStatistics`. `today` is the current day and `dayOf` maps an
      order date to its day, both in the form `toDateString` gives. */
  function CalculateStatistics(orders: seq<Order>, today: string, dayOf: string -> string): (r: Statistics)
    ensures orders == [] ==> r.averageOrderValue == 0.0
    ensures orders != [] ==> r.averageOrderValue * (|orders| as real) == SumAmounts(orders)
    ensures r.todayOrders == |Filter(orders, (o: Order) => dayOf(o.orderDate) == today)|
    ensures r.pendingOrders == |Filter(orders, (o: Order) => o.status == "pending")|
    ensures r.todayOrders <= |orders| && r.pendingOrders <= |orders|
  {
    var average := if |orders| > 0 then SumAmounts(orders) / (|orders| as real) else 0.0;
    Statistics(
      average,
      Count(orders, (o: Order) => dayOf(o.orderDate) == today),
      Count(orders, (o: Order) => o.status == "pending"))
  }

  lemma {:induction false} SumAmountsBounds(orders: seq<Order>, lo: real, hi: real)
    requires forall i :: 0 <= i < |orders| ==> lo <= orders[i].totalAmount <= hi
    ensures (|orders| as real) * lo <= SumAmounts(orders) <= (|orders| as real) * hi
  {
    if orders != [] {
      SumAmountsBounds(orders[..|orders| - 1], lo, hi);
    }
  }

  lemma QuotientBounds(sum: real, n: real, lo: real, hi: real)
    requires n > 0.0 && n * lo <= sum <= n * hi
    ensures lo <= sum / n <= hi
  {
    var q := sum / n;
    assert q * n == sum;
    assert (q - lo) * n == sum - n * lo;
    assert (hi - q) * n == n * hi - sum;
  }

  /** The average lies between the smallest and the largest amount. */
  lemma AverageWithinBounds(orders: seq<Order>, today: string, dayOf: string -> string, lo: real, hi: real)
    requires orders != []
    requires forall i :: 0 <= i < |orders| ==> lo <= orders[i].totalAmount <= hi
    ensures lo <= CalculateStatistics(orders, today, dayOf).averageOrderValue <= hi
  {
    SumAmountsBounds(orders, lo, hi);
    QuotientBounds(SumAmounts(orders), |orders| as real, lo, hi);
  }

  /** Pending and non-pending orders together are all the orders. */
  lemma {:induction false} PendingPartition(orders: seq<Order>)
    ensures |Filter(orders, (o: Order) => o.status == "pending")| + |Filter(orders, (o: Order) => o.status != "pending")|
         == |orders|
  {
    if orders != [] {
      PendingPartition(orders[1..]);
    }
  }
}
