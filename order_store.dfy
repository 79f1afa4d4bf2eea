/** The order endpoints of the backend (backend/app/main.py) over an
    in-memory orders table. The table is a `Store` object whose `orders`
    sequence the create, update and delete endpoints change in place; the
    read endpoints and the summary are functions of that sequence. The
    request body has already been decoded; its validation is `Schemas`. */
module OrderStore {
  import opened Wrappers
  import opened Text
  import opened Seqs
  import opened Schemas

  /** A row of the `orders` table; `id` is the serial primary key. The
      server-maintained `created_at`/`updated_at` columns are not modelled. */
  datatype Order = Order(
    id: nat,
    orderId: string,
    customerId: string,
    totalAmount: int,
    currency: string,
    status: OrderStatus,
    orderDate: Date)

  /** An endpoint failure: a 422 validation response carrying the field
      errors, or an `HTTPException` with its status code and detail. */
  datatype ApiError = Unprocessable(errors: seq<FieldError>) | HttpError(status: nat, detail: string)

  const OrderIdExists: string := "Order ID already exists"
  const OrderNotFound: string := "Order not found"

  /** What every stored order satisfies, because it reached the table
      only through the validated create and update requests. */
  predicate WellFormed(o: Order)
  {
    && IsStrippedId(o.orderId)
    && IsStrippedId(o.customerId)
    && o.totalAmount > 0
    && o.currency in ValidCurrencies
  }

  predicate UniqueOrderIds(orders: seq<Order>)
  {
    forall i, j :: 0 <= i < j < |orders| ==> orders[i].orderId != orders[j].orderId
  }

  /** `query(Order).filter(Order.order_id == orderId).first()`: the
      position of the first order with that business id. */
  function FindOrder(orders: seq<Order>, orderId: string): (r: Option<nat>)
    ensures r.None? <==> forall i :: 0 <= i < |orders| ==> orders[i].orderId != orderId
    ensures r.Some? ==> r.value < |orders| && orders[r.value].orderId == orderId
    ensures r.Some? ==> forall i :: 0 <= i < r.value ==> orders[i].orderId != orderId
  {
    if orders == [] then None
    else if orders[0].orderId == orderId then Some(0)
    else
      match FindOrder(orders[1..], orderId)
      case None => None
      case Some(k) => Some(k + 1)
  }

  // ---------------------------------------------------------------------
  // Reading one order (GET /orders/{order_id})
  // ---------------------------------------------------------------------

  /** Reads one order by business id; with unique ids (which the table
      keeps) the order returned is the one stored under that id. */
  function ReadOrder(orders: seq<Order>, orderId: string): (r: Result<Order, ApiError>)
    ensures r.Ok? ==> r.value in orders && r.value.orderId == orderId
    ensures r.Err? <==> forall i :: 0 <= i < |orders| ==> orders[i].orderId != orderId
    ensures r.Err? ==> r.error == HttpError(404, OrderNotFound)
    ensures UniqueOrderIds(orders) ==>
      forall k :: 0 <= k < |orders| && orders[k].orderId == orderId ==> r == Ok(orders[k])
  {
    match FindOrder(orders, orderId)
    case None => Err(HttpError(404, OrderNotFound))
    case Some(k) => Ok(orders[k])
  }

  // ---------------------------------------------------------------------
  // Partial update: `model_dump(exclude_unset=True)` and `setattr`
  // ---------------------------------------------------------------------

  /** One entry of the `update_data` dictionary: a column and its new value. */
  datatype FieldValue =
    | SetCustomerId(customerId: string)
    | SetTotalAmount(totalAmount: int)
    | SetCurrency(currency: string)
    | SetStatus(status: OrderStatus)
    | SetOrderDate(orderDate: Date)

  /** The fields the client supplied, in the schema's declaration order. */
  function UpdateData(u: OrderUpdate): (d: seq<FieldValue>)
    ensures |d| <= 5
  {
    (if u.customerId.Some? then [SetCustomerId(u.customerId.value)] else [])
    + (if u.totalAmount.Some? then [SetTotalAmount(u.totalAmount.value)] else [])
    + (if u.currency.Some? then [SetCurrency(u.currency.value)] else [])
    + (if u.status.Some? then [SetStatus(u.status.value)] else [])
    + (if u.orderDate.Some? then [SetOrderDate(u.orderDate.value)] else [])
  }

  /** `setattr(db_order, field, value)`. */
  function SetAttr(o: Order, f: FieldValue): Order
  {
    match f
    case SetCustomerId(v) => o.(customerId := v)
    case SetTotalAmount(v) => o.(totalAmount := v)
    case SetCurrency(v) => o.(currency := v)
    case SetStatus(v) => o.(status := v)
    case SetOrderDate(v) => o.(orderDate := v)
  }

  /** The order after the `setattr` calls for `fs`, made left to right. */
  function ApplyAll(o: Order, fs: seq<FieldValue>): Order
    decreases |fs|
  {
    if fs == [] then o else ApplyAll(SetAttr(o, fs[0]), fs[1..])
  }

  /** What a partial update means: each supplied field takes its new value
      and every other column keeps its old one. */
  function Patched(o: Order, u: OrderUpdate): Order
  {
    Order(
      o.id,
      o.orderId,
      if u.customerId.Some? then u.customerId.value else o.customerId,
      if u.totalAmount.Some? then u.totalAmount.value else o.totalAmount,
      if u.currency.Some? then u.currency.value else o.currency,
      if u.status.Some? then u.status.value else o.status,
      if u.orderDate.Some? then u.orderDate.value else o.orderDate)
  }

  /** Applying the fields of `a + b` is applying those of `a`, then those
      of `b`. */
  lemma {:induction false} ApplyAllAppend(o: Order, a: seq<FieldValue>, b: seq<FieldValue>)
    ensures ApplyAll(o, a + b) == ApplyAll(ApplyAll(o, a), b)
    decreases |a|
  {
    if a != [] {
      assert (a + b)[0] == a[0];
      assert (a + b)[1..] == a[1..] + b;
      ApplyAllAppend(SetAttr(o, a[0]), a[1..], b);
    } else {
      assert a + b == b;
    }
  }

  /** The `setattr` loop over `update_data` performs exactly the partial
      update: supplied fields change and nothing else does. */
  lemma ApplyUpdateData(o: Order, u: OrderUpdate)
    ensures ApplyAll(o, UpdateData(u)) == Patched(o, u)
  {
    var c := if u.customerId.Some? then [SetCustomerId(u.customerId.value)] else [];
    var t := if u.totalAmount.Some? then [SetTotalAmount(u.totalAmount.value)] else [];
    var y := if u.currency.Some? then [SetCurrency(u.currency.value)] else [];
    var s := if u.status.Some? then [SetStatus(u.status.value)] else [];
    var d := if u.orderDate.Some? then [SetOrderDate(u.orderDate.value)] else [];
    ApplyAllAppend(o, c + t + y + s, d);
    ApplyAllAppend(o, c + t + y, s);
    ApplyAllAppend(o, c + t, y);
    ApplyAllAppend(o, c, t);
    var o1 := ApplyAll(o, c);
    var o2 := ApplyAll(o1, t);
    var o3 := ApplyAll(o2, y);
    var o4 := ApplyAll(o3, s);
    var o5 := ApplyAll(o4, d);
    assert o1 == if u.customerId.Some? then o.(customerId := u.customerId.value) else o;
    assert o2 == if u.totalAmount.Some? then o1.(totalAmount := u.totalAmount.value) else o1;
    assert o3 == if u.currency.Some? then o2.(currency := u.currency.value) else o2;
    assert o4 == if u.status.Some? then o3.(status := u.status.value) else o3;
    assert o5 == if u.orderDate.Some? then o4.(orderDate := u.orderDate.value) else o4;
  }

  /** A validated update keeps an order well formed and never touches its
      primary key or business id. */
  lemma PatchedWellFormed(o: Order, u: OrderUpdate)
    requires WellFormed(o) && ValidUpdate(u)
    ensures WellFormed(Patched(o, u))
    ensures Patched(o, u).id == o.id && Patched(o, u).orderId == o.orderId
  {
  }

  // ---------------------------------------------------------------------
  // The orders table
  // ---------------------------------------------------------------------

  /** The table invariant: business ids are unique (the unique index on
      `order_id`), every row is well formed, and the serial primary keys
      increase along the table and stay below the next serial value. */
  predicate ValidTable(orders: seq<Order>, nextId: nat)
  {
    && UniqueOrderIds(orders)
    && (forall i :: 0 <= i < |orders| ==> WellFormed(orders[i]) && orders[i].id < nextId)
    && (forall i, j :: 0 <= i < j < |orders| ==> orders[i].id < orders[j].id)
  }

  /** Inserting a well-formed row under a fresh business id and the next
      serial key keeps the invariant. */
  lemma InsertKeepsValid(orders: seq<Order>, nextId: nat, o: Order)
    requires ValidTable(orders, nextId)
    requires WellFormed(o) && o.id == nextId && FindOrder(orders, o.orderId).None?
    ensures ValidTable(orders + [o], nextId + 1)
  {
    var t := orders + [o];
    forall i, j | 0 <= i < j < |t| ensures t[i].orderId != t[j].orderId && t[i].id < t[j].id {
      if j < |orders| {
        assert t[i] == orders[i] && t[j] == orders[j];
      } else {
        assert t[i] == orders[i];
      }
    }
  }

  /** Replacing a row by a well-formed row with the same keys keeps the
      invariant. */
  lemma ReplaceKeepsValid(orders: seq<Order>, nextId: nat, k: nat, o: Order)
    requires ValidTable(orders, nextId) && k < |orders|
    requires WellFormed(o) && o.id == orders[k].id && o.orderId == orders[k].orderId
    ensures ValidTable(orders[k := o], nextId)
  {
  }

  /** Removing a row keeps the invariant, and its business id no longer
      occurs. */
  lemma RemoveKeepsValid(orders: seq<Order>, nextId: nat, k: nat)
    requires ValidTable(orders, nextId) && k < |orders|
    ensures ValidTable(orders[..k] + orders[k + 1..], nextId)
    ensures FindOrder(orders[..k] + orders[k + 1..], orders[k].orderId).None?
  {
    var t := orders[..k] + orders[k + 1..];
    assert forall i :: 0 <= i < |t| ==> t[i] == if i < k then orders[i] else orders[i + 1];
    forall i, j | 0 <= i < j < |t| ensures t[i].orderId != t[j].orderId && t[i].id < t[j].id {
      assert t[i] == if i < k then orders[i] else orders[i + 1];
      assert t[j] == if j < k then orders[j] else orders[j + 1];
    }
  }

  class Store {
    /** The rows in insertion order. */
    var orders: seq<Order>
    /** The next value of the serial primary key. */
    var nextId: nat

    ghost predicate Valid()
      reads this
    {
      ValidTable(orders, nextId)
    }

    constructor ()
      ensures Valid() && orders == [] && nextId == 1
    {
      orders := [];
      nextId := 1;
    }

    /** POST /orders/: validates the body (422), refuses a business id that
        is already stored (400) and otherwise appends one new row carrying
        the submitted fields. `today` stands for the database's default
        order date, used when the request gives none. */
    method Create(input: OrderInput, today: Date) returns (r: Result<Order, ApiError>)
      requires Valid()
      modifies this
      ensures Valid()
      ensures ValidateOrderCreate(input).Err? ==>
        r == Err(Unprocessable(ValidateOrderCreate(input).error))
        && orders == old(orders) && nextId == old(nextId)
      ensures ValidateOrderCreate(input).Ok? && FindOrder(old(orders), ValidateOrderCreate(input).value.orderId).Some? ==>
        r == Err(HttpError(400, OrderIdExists)) && orders == old(orders) && nextId == old(nextId)
      ensures ValidateOrderCreate(input).Ok? && FindOrder(old(orders), ValidateOrderCreate(input).value.orderId).None? ==>
        r.Ok?
      ensures r.Ok? ==>
        var c := ValidateOrderCreate(input).value;
        && ValidateOrderCreate(input).Ok?
        && r.value == Order(old(nextId), c.orderId, c.customerId, c.totalAmount, c.currency, c.status,
             if c.orderDate.Some? then c.orderDate.value else today)
        && orders == old(orders) + [r.value]
        && nextId == old(nextId) + 1
      ensures r.Err? ==> orders == old(orders)
    {
      var v := ValidateOrderCreate(input);
      if v.Err? {
        return Err(Unprocessable(v.error));
      }
      var c := v.value;
      if FindOrder(orders, c.orderId).Some? {
        return Err(HttpError(400, OrderIdExists));
      }
      var date := if c.orderDate.Some? then c.orderDate.value else today;
      var order := Order(nextId, c.orderId, c.customerId, c.totalAmount, c.currency, c.status, date);
      InsertKeepsValid(orders, nextId, order);
      orders := orders + [order];
      nextId := nextId + 1;
      r := Ok(order);
    }

    /** PATCH /orders/{order_id}: validates the body (422), answers 404 for
        an unknown id, and otherwise sets the supplied fields one `setattr`
        at a time. */
    method Update(orderId: string, input: UpdateInput) returns (r: Result<Order, ApiError>)
      requires Valid()
      modifies this
      ensures Valid() && nextId == old(nextId)
      ensures ValidateOrderUpdate(input).Err? ==>
        r == Err(Unprocessable(ValidateOrderUpdate(input).error)) && orders == old(orders)
      ensures ValidateOrderUpdate(input).Ok? && FindOrder(old(orders), orderId).None? ==>
        r == Err(HttpError(404, OrderNotFound)) && orders == old(orders)
      ensures ValidateOrderUpdate(input).Ok? && FindOrder(old(orders), orderId).Some? ==>
        var k := FindOrder(old(orders), orderId).value;
        && r == Ok(Patched(old(orders)[k], ValidateOrderUpdate(input).value))
        && orders == old(orders)[k := r.value]
    {
      var v := ValidateOrderUpdate(input);
      if v.Err? {
        return Err(Unprocessable(v.error));
      }
      var found := FindOrder(orders, orderId);
      if found.None? {
        return Err(HttpError(404, OrderNotFound));
      }
      var k := found.value;
      var updateData := UpdateData(v.value);
      var order := orders[k];
      ApplyUpdateData(order, v.value);
      for i := 0 to |updateData|
        invariant ApplyAll(order, updateData[i..]) == Patched(orders[k], v.value)
      {
        assert updateData[i..][1..] == updateData[i + 1..];
        order := SetAttr(order, updateData[i]);
      }
      PatchedWellFormed(orders[k], v.value);
      ReplaceKeepsValid(orders, nextId, k, order);
      orders := orders[k := order];
      r := Ok(order);
    }

    /** DELETE /orders/{order_id}: answers 404 for an unknown id, and
        otherwise removes the row, after which the id reads as not found. */
    method Delete(orderId: string) returns (r: Result<(), ApiError>)
      requires Valid()
      modifies this
      ensures Valid() && nextId == old(nextId)
      ensures FindOrder(old(orders), orderId).None? ==>
        r == Err(HttpError(404, OrderNotFound)) && orders == old(orders)
      ensures FindOrder(old(orders), orderId).Some? ==>
        var k := FindOrder(old(orders), orderId).value;
        r == Ok(()) && orders == old(orders)[..k] + old(orders)[k + 1..]
      ensures r.Ok? ==> ReadOrder(orders, orderId) == Err(HttpError(404, OrderNotFound))
    {
      var found := FindOrder(orders, orderId);
      if found.None? {
        return Err(HttpError(404, OrderNotFound));
      }
      var k := found.value;
      RemoveKeepsValid(orders, nextId, k);
      orders := orders[..k] + orders[k + 1..];
      r := Ok(());
    }
  }

  // ---------------------------------------------------------------------
  // Listing orders (GET /orders/ and GET /orders/customer/{customer_id})
  // ---------------------------------------------------------------------

  /** A query parameter filters only when it is truthy: present and not
      the empty string. */
  predicate IsGiven(f: Option<string>)
  {
    f.Some? && f.value != ""
  }

  predicate MatchesFilters(o: Order, status: Option<string>, customerId: Option<string>)
  {
    && (IsGiven(status) ==> StatusValue(o.status) == status.value)
    && (IsGiven(customerId) ==> o.customerId == customerId.value)
  }

  function MatchingOrders(orders: seq<Order>, status: Option<string>, customerId: Option<string>): seq<Order>
  {
    Filter(orders, o => MatchesFilters(o, status, customerId))
  }

  /** `OFFSET skip LIMIT limit`. */
  function Page<T>(s: seq<T>, skip: nat, limit: nat): seq<T>
  {
    if skip >= |s| then []
    else if limit >= |s| - skip then s[skip..]
    else s[skip..skip + limit]
  }

  /** GET /orders/ with its `skip`, `limit`, `status` and `customer_id`
      query parameters: only stored orders that pass the filters, the
      first `skip` of those skipped and at most `limit` of the rest, in
      table order; in particular `limit = 0` returns nothing. */
  function ReadOrders(orders: seq<Order>, skip: nat, limit: nat, status: Option<string>, customerId: Option<string>): (r: seq<Order>)
    ensures forall o :: o in r ==> o in orders && MatchesFilters(o, status, customerId)
    ensures var m := MatchingOrders(orders, status, customerId);
      && |r| == (if skip >= |m| then 0 else Min(limit, |m| - skip))
      && (forall i :: 0 <= i < |r| ==> r[i] == m[skip + i])
    ensures limit == 0 ==> r == []
  {
    var m := MatchingOrders(orders, status, customerId);
    var r := Page(m, skip, limit);
    assert forall o :: o in r ==> o in m;
    r
  }

  lemma PageConcat<T>(s: seq<T>, skip: nat, a: nat, b: nat)
    ensures Page(s, skip, a) + Page(s, skip + a, b) == Page(s, skip, a + b)
  {
    if skip < |s| && skip + a < |s| {
      if skip + a + b <= |s| {
        assert s[skip..skip + a] + s[skip + a..skip + a + b] == s[skip..skip + a + b];
      } else {
        assert s[skip..skip + a] + s[skip + a..] == s[skip..];
      }
    }
  }

  /** Consecutive pages fit together: the page of `a` orders after `skip`
      followed by the page of `b` orders after `skip + a` is the page of
      `a + b` orders after `skip`. */
  lemma ReadOrdersPages(orders: seq<Order>, skip: nat, a: nat, b: nat, status: Option<string>, customerId: Option<string>)
    ensures ReadOrders(orders, skip, a, status, customerId) + ReadOrders(orders, skip + a, b, status, customerId)
         == ReadOrders(orders, skip, a + b, status, customerId)
  {
    PageConcat(MatchingOrders(orders, status, customerId), skip, a, b);
  }

  /** Without filters and with a large enough limit the listing is the
      whole table. */
  lemma ReadOrdersAll(orders: seq<Order>)
    ensures ReadOrders(orders, 0, |orders|, None, None) == orders
  {
    FilterKeepsAll(orders, o => MatchesFilters(o, None, None));
  }

  /** GET /orders/customer/{customer_id}: every order of that customer, in
      table order (here the id is compared even when empty). */
  function ReadCustomerOrders(orders: seq<Order>, customerId: string): (r: seq<Order>)
    ensures forall o :: o in r <==> o in orders && o.customerId == customerId
  {
    Filter(orders, (o: Order) => o.customerId == customerId)
  }

  /** The customer endpoint agrees with the listing filtered by that
      customer when the listing's limit does not cut it short. */
  lemma CustomerOrdersAreFilteredListing(orders: seq<Order>, customerId: string, limit: nat)
    requires customerId != "" && limit >= |orders|
    ensures ReadCustomerOrders(orders, customerId) == ReadOrders(orders, 0, limit, None, Some(customerId))
  {
    FilterExtensional(orders, (o: Order) => o.customerId == customerId, (o: Order) => MatchesFilters(o, None, Some(customerId)));
  }

  // ---------------------------------------------------------------------
  // GET /orders/summary
  // ---------------------------------------------------------------------

  datatype CurrencyTotal = CurrencyTotal(currency: string, total: int)

  datatype DailyRevenue = DailyRevenue(date: Date, currency: string, revenue: int)

  datatype OrderSummary = OrderSummary(
    totalOrders: nat,
    totalRevenue: seq<CurrencyTotal>,
    revenuePerDay: seq<DailyRevenue>)

  /** The grouping key of `revenue_per_day`. */
  datatype DayKey = DayKey(date: Date, currency: string)

  function CurrencyOf(o: Order): string { o.currency }

  function AmountOf(o: Order): int { o.totalAmount }

  function DayKeyOf(o: Order): DayKey { DayKey(o.orderDate, o.currency) }

  predicate HasCurrency(orders: seq<Order>, c: string)
  {
    exists i :: 0 <= i < |orders| && orders[i].currency == c
  }

  predicate HasDayKey(orders: seq<Order>, k: DayKey)
  {
    exists i :: 0 <= i < |orders| && DayKeyOf(orders[i]) == k
  }

  /** The currency groups, in order of first appearance (the query has no
      ORDER BY). */
  function Currencies(orders: seq<Order>): (cs: seq<string>)
    ensures Distinct(cs)
    ensures forall c :: c in cs <==> HasCurrency(orders, c)
  {
    var all := seq(|orders|, i requires 0 <= i < |orders| => orders[i].currency);
    assert forall c :: c in all <==> HasCurrency(orders, c) by {
      forall c ensures c in all <==> HasCurrency(orders, c) {
        if c in all {
          var i :| 0 <= i < |all| && all[i] == c;
          assert orders[i].currency == c;
        }
        if HasCurrency(orders, c) {
          var i :| 0 <= i < |orders| && orders[i].currency == c;
          assert all[i] == c;
        }
      }
    }
    Dedupe(all)
  }

  function CurrencyRows(cs: seq<string>, orders: seq<Order>): seq<CurrencyTotal>
  {
    seq(|cs|, i requires 0 <= i < |cs| => CurrencyTotal(cs[i], SumWhere(orders, CurrencyOf, cs[i], AmountOf)))
  }

  /** The order of `revenue_per_day`: date descending, then currency
      ascending. */
  predicate DayKeyBefore(a: DayKey, b: DayKey)
  {
    Less(b.date, a.date) || (a.date == b.date && Less(a.currency, b.currency))
  }

  predicate SortedKeys(s: seq<DayKey>)
  {
    forall i, j :: 0 <= i < j < |s| ==> DayKeyBefore(s[i], s[j])
  }

  lemma DayKeyOrder(a: DayKey, b: DayKey, c: DayKey)
    ensures !DayKeyBefore(a, a)
    ensures a != b ==> DayKeyBefore(a, b) || DayKeyBefore(b, a)
    ensures DayKeyBefore(a, b) ==> !DayKeyBefore(b, a)
    ensures DayKeyBefore(a, b) && DayKeyBefore(b, c) ==> DayKeyBefore(a, c)
  {
    LessIrreflexive(a.date);
    LessIrreflexive(a.currency);
    if a != b {
      if a.date != b.date { LessTotal(a.date, b.date); }
      else { LessTotal(a.currency, b.currency); }
    }
    if DayKeyBefore(a, b) {
      if Less(b.date, a.date) { LessAsymmetric(b.date, a.date); }
      else { LessAsymmetric(a.currency, b.currency); }
    }
    if DayKeyBefore(a, b) && DayKeyBefore(b, c) {
      if Less(b.date, a.date) && Less(c.date, b.date) { LessTransitive(c.date, b.date, a.date); }
      if a.date == b.date && b.date == c.date { LessTransitive(a.currency, b.currency, c.currency); }
    }
  }

  /** Inserts a key into a strictly sorted key list unless it is there. */
  function InsertKey(k: DayKey, s: seq<DayKey>): (r: seq<DayKey>)
    requires SortedKeys(s)
    ensures SortedKeys(r)
    ensures forall x :: x in r <==> x in s || x == k
  {
    if s == [] then [k]
    else if k == s[0] then s
    else if DayKeyBefore(k, s[0]) then
      assert forall j :: 0 < j < |s| ==> DayKeyBefore(k, s[j]) by {
        forall j | 0 < j < |s| ensures DayKeyBefore(k, s[j]) {
          DayKeyOrder(k, s[0], s[j]);
        }
      }
      [k] + s
    else
      var rest := InsertKey(k, s[1..]);
      assert forall x :: x in rest ==> DayKeyBefore(s[0], x) by {
        forall x | x in rest ensures DayKeyBefore(s[0], x) {
          DayKeyOrder(k, s[0], s[0]);
          if x != k {
            var j :| 0 <= j < |s[1..]| && s[1..][j] == x;
            assert s[j + 1] == x;
          }
        }
      }
      [s[0]] + rest
  }

  /** The distinct (date, currency) pairs of the orders, sorted. */
  function DayKeys(orders: seq<Order>): (ks: seq<DayKey>)
    ensures SortedKeys(ks)
    ensures forall k :: k in ks <==> HasDayKey(orders, k)
  {
    if orders == [] then []
    else
      var p := orders[..|orders| - 1];
      var last := DayKeyOf(orders[|orders| - 1]);
      var ks := InsertKey(last, DayKeys(p));
      assert forall k :: HasDayKey(orders, k) <==> HasDayKey(p, k) || k == last by {
        forall k ensures HasDayKey(orders, k) <==> HasDayKey(p, k) || k == last {
          if HasDayKey(orders, k) {
            var i :| 0 <= i < |orders| && DayKeyOf(orders[i]) == k;
            if i < |p| { assert DayKeyOf(p[i]) == k; }
          }
          if HasDayKey(p, k) {
            var i :| 0 <= i < |p| && DayKeyOf(p[i]) == k;
            assert DayKeyOf(orders[i]) == k;
          }
        }
      }
      ks
  }

  function DayRows(ks: seq<DayKey>, orders: seq<Order>): seq<DailyRevenue>
  {
    seq(|ks|, i requires 0 <= i < |ks| =>
      DailyRevenue(ks[i].date, ks[i].currency, SumWhere(orders, DayKeyOf, ks[i], AmountOf)))
  }

  /** GET /orders/summary/stats. `total_orders` counts every stored order,
      whatever its status; an empty table gives 0 and two empty lists. */
  function Summary(orders: seq<Order>): (r: OrderSummary)
    ensures r.totalOrders == |orders|
    ensures orders == [] ==> r == OrderSummary(0, [], [])
  {
    OrderSummary(|orders|, CurrencyRows(Currencies(orders), orders), DayRows(DayKeys(orders), orders))
  }

  /** `total_revenue` has one entry per distinct currency of the stored
      orders, and each entry's total is the sum of that currency's amounts. */
  lemma SummaryCurrencyTotals(orders: seq<Order>)
    ensures var tr := Summary(orders).totalRevenue;
      && (forall i, j :: 0 <= i < j < |tr| ==> tr[i].currency != tr[j].currency)
      && (forall i :: 0 <= i < |tr| ==> HasCurrency(orders, tr[i].currency))
      && (forall m :: 0 <= m < |orders| ==> exists i :: 0 <= i < |tr| && tr[i].currency == orders[m].currency)
      && (forall i :: 0 <= i < |tr| ==> tr[i].total == SumWhere(orders, CurrencyOf, tr[i].currency, AmountOf))
  {
    var cs := Currencies(orders);
    var tr := Summary(orders).totalRevenue;
    forall m | 0 <= m < |orders| ensures exists i :: 0 <= i < |tr| && tr[i].currency == orders[m].currency {
      assert HasCurrency(orders, orders[m].currency);
      var i :| 0 <= i < |cs| && cs[i] == orders[m].currency;
      assert tr[i].currency == cs[i];
    }
  }

  /** `revenue_per_day` has one row per distinct (date, currency) pair of
      the stored orders, with that pair's summed amounts, sorted by date
      descending and then by currency ascending. */
  lemma SummaryDailyRevenue(orders: seq<Order>)
    ensures var rd := Summary(orders).revenuePerDay;
      && (forall i, j :: 0 <= i < j < |rd| ==>
            Less(rd[j].date, rd[i].date) || (rd[i].date == rd[j].date && Less(rd[i].currency, rd[j].currency)))
      && (forall i :: 0 <= i < |rd| ==> HasDayKey(orders, DayKey(rd[i].date, rd[i].currency)))
      && (forall m :: 0 <= m < |orders| ==>
            exists i :: 0 <= i < |rd| && rd[i].date == orders[m].orderDate && rd[i].currency == orders[m].currency)
      && (forall i :: 0 <= i < |rd| ==>
            rd[i].revenue == SumWhere(orders, DayKeyOf, DayKey(rd[i].date, rd[i].currency), AmountOf))
  {
    var ks := DayKeys(orders);
    var rd := Summary(orders).revenuePerDay;
    forall i, j | 0 <= i < j < |rd|
      ensures Less(rd[j].date, rd[i].date) || (rd[i].date == rd[j].date && Less(rd[i].currency, rd[j].currency))
    {
      assert DayKeyBefore(ks[i], ks[j]);
    }
    forall i | 0 <= i < |rd| ensures HasDayKey(orders, DayKey(rd[i].date, rd[i].currency)) {
      assert DayKey(rd[i].date, rd[i].currency) == ks[i];
    }
    forall m | 0 <= m < |orders|
      ensures exists i :: 0 <= i < |rd| && rd[i].date == orders[m].orderDate && rd[i].currency == orders[m].currency
    {
      assert HasDayKey(orders, DayKeyOf(orders[m]));
      var i :| 0 <= i < |ks| && ks[i] == DayKeyOf(orders[m]);
      assert rd[i].date == ks[i].date && rd[i].currency == ks[i].currency;
    }
  }

  function TotalOf(t: CurrencyTotal): int { t.total }

  function RevenueOf(r: DailyRevenue): int { r.revenue }

  lemma {:induction false} CurrencyRowsSum(cs: seq<string>, orders: seq<Order>)
    ensures SumOf(CurrencyRows(cs, orders), TotalOf) == SumOverKeys(cs, orders, CurrencyOf, AmountOf)
  {
    if cs != [] {
      var rows := CurrencyRows(cs, orders);
      assert rows[..|rows| - 1] == CurrencyRows(cs[..|cs| - 1], orders);
      CurrencyRowsSum(cs[..|cs| - 1], orders);
    }
  }

  lemma {:induction false} DayRowsSum(ks: seq<DayKey>, orders: seq<Order>)
    ensures SumOf(DayRows(ks, orders), RevenueOf) == SumOverKeys(ks, orders, DayKeyOf, AmountOf)
  {
    if ks != [] {
      var rows := DayRows(ks, orders);
      assert rows[..|rows| - 1] == DayRows(ks[..|ks| - 1], orders);
      DayRowsSum(ks[..|ks| - 1], orders);
    }
  }

  /** Both breakdowns of the summary account for every amount exactly once:
      the currency totals, and likewise the daily revenues, add up to the
      sum of all stored order amounts. */
  lemma SummaryTotalsAddUp(orders: seq<Order>)
    ensures SumOf(Summary(orders).totalRevenue, TotalOf) == SumOf(orders, AmountOf)
    ensures SumOf(Summary(orders).revenuePerDay, RevenueOf) == SumOf(orders, AmountOf)
  {
    var cs := Currencies(orders);
    CurrencyRowsSum(cs, orders);
    forall o | o in orders ensures CurrencyOf(o) in cs {
      var i :| 0 <= i < |orders| && orders[i] == o;
      assert HasCurrency(orders, orders[i].currency);
    }
    GroupSumsAddUp(cs, orders, CurrencyOf, AmountOf);

    var ks := DayKeys(orders);
    DayRowsSum(ks, orders);
    assert Distinct(ks) by {
      forall i, j | 0 <= i < j < |ks| ensures ks[i] != ks[j] {
        DayKeyOrder(ks[i], ks[j], ks[j]);
      }
    }
    forall o | o in orders ensures DayKeyOf(o) in ks {
      var i :| 0 <= i < |orders| && orders[i] == o;
      assert HasDayKey(orders, DayKeyOf(orders[i]));
    }
    GroupSumsAddUp(ks, orders, DayKeyOf, AmountOf);
  }
}
