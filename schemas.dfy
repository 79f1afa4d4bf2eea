/** The request schemas of the order service (backend/app/schemas.py): the
    status enumeration, the currency whitelist and the field validators that
    run on an incoming order before any endpoint sees it. A validator either
    returns the (possibly normalised) value or reports an error kind; a
    whole request is accepted only when every field is, and is otherwise
    rejected with the list of all field errors, as pydantic does. */
module Schemas {
  import opened Wrappers
  import opened Text

  /** A calendar day written `YYYY-MM-DD`; the time of day and the time
      zone of the source's timestamps are not modelled. */
  type Date = string

  // ---------------------------------------------------------------------
  // OrderStatus
  // ---------------------------------------------------------------------

  datatype OrderStatus =
    | Pending | Confirmed | Processing | Shipped | Delivered | Completed | Cancelled

  /** The string value of each member of the enumeration. */
  function StatusValue(s: OrderStatus): string
  {
    match s
    case Pending => "pending"
    case Confirmed => "confirmed"
    case Processing => "processing"
    case Shipped => "shipped"
    case Delivered => "delivered"
    case Completed => "completed"
    case Cancelled => "cancelled"
  }

  const StatusValues: set<string> :=
    {"pending", "confirmed", "processing", "shipped", "delivered", "completed", "cancelled"}

  /** Coercion of a request string to `OrderStatus`: exactly the seven
      values are accepted, case-sensitively. */
  function ParseStatus(v: string): (r: Option<OrderStatus>)
    ensures r.Some? <==> v in StatusValues
    ensures r.Some? ==> StatusValue(r.value) == v
  {
    if v == "pending" then Some(Pending)
    else if v == "confirmed" then Some(Confirmed)
    else if v == "processing" then Some(Processing)
    else if v == "shipped" then Some(Shipped)
    else if v == "delivered" then Some(Delivered)
    else if v == "completed" then Some(Completed)
    else if v == "cancelled" then Some(Cancelled)
    else None
  }

  /** Every member round-trips through its string value, and the seven
      values are the members' values and nothing else. */
  lemma StatusRoundTrip(s: OrderStatus)
    ensures ParseStatus(StatusValue(s)) == Some(s)
    ensures StatusValue(s) in StatusValues
  {
  }

  // ---------------------------------------------------------------------
  // Currencies
  // ---------------------------------------------------------------------

  /** The whitelist of accepted currency codes. */
  const ValidCurrencies: set<string> :=
    {"ISK", "USD", "EUR", "GBP", "CAD", "AUD", "JPY", "CHF", "SEK", "NOK", "DKK"}

  // ---------------------------------------------------------------------
  // Errors
  // ---------------------------------------------------------------------

  datatype Field = OrderIdField | CustomerIdField | TotalAmountField | CurrencyField | StatusField

  datatype ErrorKind =
    | TooShort(minLength: nat)      // Field(min_length = ...)
    | TooLong(maxLength: nat)       // Field(max_length = ...)
    | NotGreaterThan(bound: int)    // Field(gt = ...)
    | EmptyOrWhitespace             // the not-empty validators
    | UnknownCurrency               // the currency validators
    | NotAStatus                    // coercion to OrderStatus

  datatype FieldError = FieldError(field: Field, kind: ErrorKind)

  // ---------------------------------------------------------------------
  // Field validators
  // ---------------------------------------------------------------------

  /** An identifier as the validators leave it: non-empty, with no
      whitespace at either end. */
  predicate IsStrippedId(s: string)
  {
    s != [] && !IsSpace(s[0]) && !IsSpace(s[|s| - 1])
  }

  /** `validate_not_empty`: rejects an empty or all-whitespace string and
      otherwise returns it stripped. */
  function ValidateNotEmpty(v: string): (r: Result<string, ErrorKind>)
    ensures r.Ok? <==> !AllSpace(v)
    ensures r.Err? ==> r.error == EmptyOrWhitespace
    ensures r.Ok? ==> r.value == Strip(v)
    ensures r.Ok? ==> IsStrippedId(r.value) && exists i :: OccursAt(v, r.value, i)
  {
    StripShape(v);
    if v == "" || Strip(v) == "" then Err(EmptyOrWhitespace) else Ok(Strip(v))
  }

  /** An accepted identifier validates to itself. */
  lemma ValidateNotEmptyIdempotent(v: string)
    requires ValidateNotEmpty(v).Ok?
    ensures ValidateNotEmpty(ValidateNotEmpty(v).value) == ValidateNotEmpty(v)
  {
    StripIdempotent(v);
  }

  /** A string the validators would leave alone is accepted unchanged. */
  lemma ValidateNotEmptyKeepsStripped(v: string)
    requires IsStrippedId(v)
    ensures ValidateNotEmpty(v) == Ok(v)
  {
    TrimStartNoop(v);
    TrimEndNoop(v);
  }

  /** `validate_currency`: upper-cases the code and accepts it only when it
      is on the whitelist. */
  function ValidateCurrency(v: string): (r: Result<string, ErrorKind>)
    ensures r.Ok? <==> Upper(v) in ValidCurrencies
    ensures r.Ok? ==> r.value == Upper(v)
    ensures r.Ok? ==> r.value in ValidCurrencies && |r.value| == |v|
    ensures r.Err? ==> r.error == UnknownCurrency
  {
    var u := Upper(v);
    if u in ValidCurrencies then Ok(u) else Err(UnknownCurrency)
  }

  /** Currency validation is idempotent. */
  lemma ValidateCurrencyIdempotent(v: string)
    requires ValidateCurrency(v).Ok?
    ensures ValidateCurrency(ValidateCurrency(v).value) == ValidateCurrency(v)
  {
    UpperIdempotent(v);
  }

  /** Every whitelisted code is its own upper-case form, so a whitelisted
      code is accepted unchanged. */
  lemma ValidateCurrencyKeepsCodes(c: string)
    requires c in ValidCurrencies
    ensures ValidateCurrency(c) == Ok(c)
  {
    assert forall i :: 0 <= i < |c| ==> !IsAsciiLower(c[i]);
    assert Upper(c) == c;
  }

  /** Lower-case input is accepted in upper case ("usd" becomes "USD"), and
      a well-formed code that is not whitelisted ("XXX") is refused. */
  lemma ValidateCurrencyExamples()
    ensures ValidateCurrency("usd") == Ok("USD")
    ensures ValidateCurrency("XXX") == Err(UnknownCurrency)
  {
    assert Upper("usd") == "USD";
    assert Upper("XXX") == "XXX";
  }

  /** The `currency` field: `min_length=3, max_length=3`, then the
      validator. */
  function CheckCurrency(v: string): (r: Result<string, ErrorKind>)
    ensures r.Ok? ==> |v| == 3 && |r.value| == 3 && r.value in ValidCurrencies
    ensures |v| < 3 ==> r == Err(TooShort(3))
    ensures |v| > 3 ==> r == Err(TooLong(3))
    ensures |v| == 3 ==> r == ValidateCurrency(v)
  {
    if |v| < 3 then Err(TooShort(3))
    else if |v| > 3 then Err(TooLong(3))
    else ValidateCurrency(v)
  }

  /** The `order_id` and `customer_id` fields: `min_length=1`, then the
      not-empty validator. */
  function CheckId(v: string): (r: Result<string, ErrorKind>)
    ensures v == "" ==> r == Err(TooShort(1))
    ensures v != "" ==> r == ValidateNotEmpty(v)
  {
    if |v| < 1 then Err(TooShort(1)) else ValidateNotEmpty(v)
  }

  /** The `total_amount` field: `gt=0`. */
  function CheckAmount(a: int): (r: Result<int, ErrorKind>)
    ensures r.Ok? <==> a > 0
    ensures r.Ok? ==> r.value == a
    ensures r.Err? ==> r.error == NotGreaterThan(0)
  {
    if a > 0 then Ok(a) else Err(NotGreaterThan(0))
  }

  function CheckStatus(v: string): (r: Result<OrderStatus, ErrorKind>)
    ensures r.Ok? <==> v in StatusValues
    ensures r.Ok? ==> StatusValue(r.value) == v
  {
    match ParseStatus(v)
    case Some(s) => Ok(s)
    case None => Err(NotAStatus)
  }

  /** The error list pydantic reports for one field. */
  function ErrorsOf<T>(field: Field, r: Result<T, ErrorKind>): seq<FieldError>
  {
    if r.Err? then [FieldError(field, r.error)] else []
  }

  // ---------------------------------------------------------------------
  // OrderCreate
  // ---------------------------------------------------------------------

  /** A create request as decoded from JSON, before validation. */
  datatype OrderInput = OrderInput(
    orderId: string,
    customerId: string,
    totalAmount: int,
    currency: string,
    status: Option<string>,     // absent: the default `pending`
    orderDate: Option<Date>)    // absent: the database's default

  /** A validated create request. */
  datatype OrderCreate = OrderCreate(
    orderId: string,
    customerId: string,
    totalAmount: int,
    currency: string,
    status: OrderStatus,
    orderDate: Option<Date>)

  /** What every field of a validated create request satisfies. */
  predicate ValidCreate(c: OrderCreate)
  {
    && IsStrippedId(c.orderId)
    && IsStrippedId(c.customerId)
    && c.totalAmount > 0
    && c.currency in ValidCurrencies
  }

  function StatusOrDefault(v: Option<string>): Result<OrderStatus, ErrorKind>
  {
    if v.None? then Ok(Pending) else CheckStatus(v.value)
  }

  /** `OrderCreate(**data)`: every field is checked; the request is accepted
      when all checks pass, and otherwise rejected with every failing
      field's error, in field order. */
  function ValidateOrderCreate(input: OrderInput): (r: Result<OrderCreate, seq<FieldError>>)
    ensures r.Ok? ==> ValidCreate(r.value)
    ensures r.Err? ==> |r.error| > 0
  {
    var orderId := CheckId(input.orderId);
    var customerId := CheckId(input.customerId);
    var amount := CheckAmount(input.totalAmount);
    var currency := CheckCurrency(input.currency);
    var status := StatusOrDefault(input.status);
    if orderId.Ok? && customerId.Ok? && amount.Ok? && currency.Ok? && status.Ok? then
      Ok(OrderCreate(orderId.value, customerId.value, amount.value, currency.value, status.value, input.orderDate))
    else
      Err(ErrorsOf(OrderIdField, orderId) + ErrorsOf(CustomerIdField, customerId)
        + ErrorsOf(TotalAmountField, amount) + ErrorsOf(CurrencyField, currency)
        + ErrorsOf(StatusField, status))
  }

  /** A create request is accepted exactly when no id is empty or all
      whitespace, the amount is positive, the currency is three characters
      naming a whitelisted code in any case, and a given status is one of
      the seven values; the accepted request carries the stripped ids, the
      upper-cased currency, the status (by default `pending`) and the
      submitted amount and date. */
  lemma ValidateOrderCreateSpec(input: OrderInput)
    ensures var r := ValidateOrderCreate(input);
      && (r.Ok? <==>
        && !AllSpace(input.orderId)
        && !AllSpace(input.customerId)
        && input.totalAmount > 0
        && |input.currency| == 3 && Upper(input.currency) in ValidCurrencies
        && (input.status.Some? ==> input.status.value in StatusValues))
      && (r.Ok? ==>
        && r.value.orderId == Strip(input.orderId)
        && r.value.customerId == Strip(input.customerId)
        && r.value.totalAmount == input.totalAmount
        && r.value.currency == Upper(input.currency)
        && StatusValue(r.value.status) == (if input.status.Some? then input.status.value else "pending")
        && r.value.orderDate == input.orderDate)
  {
    var orderId := CheckId(input.orderId);
    var customerId := CheckId(input.customerId);
    var currency := CheckCurrency(input.currency);
    var status := StatusOrDefault(input.status);
    assert orderId.Ok? <==> !AllSpace(input.orderId);
    assert customerId.Ok? <==> !AllSpace(input.customerId);
    assert currency.Ok? <==> |input.currency| == 3 && Upper(input.currency) in ValidCurrencies;
    assert status.Ok? <==> (input.status.Some? ==> input.status.value in StatusValues);
    assert orderId.Ok? ==> orderId.value == Strip(input.orderId);
    assert customerId.Ok? ==> customerId.value == Strip(input.customerId);
    assert currency.Ok? ==> currency.value == Upper(input.currency);
  }

  /** A request whose fields are already in validated form is accepted as
      it stands: validation changes nothing that it has once accepted. */
  lemma ValidateOrderCreateKeepsValid(c: OrderCreate)
    requires ValidCreate(c)
    ensures ValidateOrderCreate(OrderInput(c.orderId, c.customerId, c.totalAmount, c.currency,
      Some(StatusValue(c.status)), c.orderDate)) == Ok(c)
  {
    var input := OrderInput(c.orderId, c.customerId, c.totalAmount, c.currency,
      Some(StatusValue(c.status)), c.orderDate);
    CheckIdKeepsStripped(c.orderId);
    CheckIdKeepsStripped(c.customerId);
    CheckCurrencyKeepsCodes(c.currency);
    StatusRoundTrip(c.status);
    assert StatusOrDefault(input.status) == Ok(c.status);
    assert CheckAmount(c.totalAmount) == Ok(c.totalAmount);
  }

  lemma CheckIdKeepsStripped(v: string)
    requires IsStrippedId(v)
    ensures CheckId(v) == Ok(v)
  {
    ValidateNotEmptyKeepsStripped(v);
  }

  lemma CheckCurrencyKeepsCodes(c: string)
    requires c in ValidCurrencies
    ensures CheckCurrency(c) == Ok(c)
  {
    ValidateCurrencyKeepsCodes(c);
  }

  // ---------------------------------------------------------------------
  // OrderUpdate
  // ---------------------------------------------------------------------

  /** A partial-update request as decoded from JSON: an absent field is
      `None`. */
  datatype UpdateInput = UpdateInput(
    customerId: Option<string>,
    totalAmount: Option<int>,
    currency: Option<string>,
    status: Option<string>,
    orderDate: Option<Date>)

  /** A validated partial update. */
  datatype OrderUpdate = OrderUpdate(
    customerId: Option<string>,
    totalAmount: Option<int>,
    currency: Option<string>,
    status: Option<OrderStatus>,
    orderDate: Option<Date>)

  predicate ValidUpdate(u: OrderUpdate)
  {
    && (u.customerId.Some? ==> IsStrippedId(u.customerId.value))
    && (u.totalAmount.Some? ==> u.totalAmount.value > 0)
    && (u.currency.Some? ==> u.currency.value in ValidCurrencies)
  }

  /** Runs a field check on a present value and passes an absent one through. */
  function CheckOptional<T, U>(v: Option<T>, check: T -> Result<U, ErrorKind>): (r: Result<Option<U>, ErrorKind>)
    ensures v.None? ==> r == Ok(None)
    ensures v.Some? ==> (r.Ok? <==> check(v.value).Ok?)
    ensures v.Some? && r.Ok? ==> r.value == Some(check(v.value).value)
  {
    match v
    case None => Ok(None)
    case Some(x) =>
      match check(x)
      case Ok(y) => Ok(Some(y))
      case Err(e) => Err(e)
  }

  /** `OrderUpdate(**data)`: each present field is checked as on create;
      absent fields stay absent. */
  function ValidateOrderUpdate(input: UpdateInput): (r: Result<OrderUpdate, seq<FieldError>>)
    ensures r.Ok? ==> ValidUpdate(r.value)
    ensures r.Err? ==> |r.error| > 0
  {
    var customerId := CheckOptional(input.customerId, CheckId);
    var amount := CheckOptional(input.totalAmount, CheckAmount);
    var currency := CheckOptional(input.currency, CheckCurrency);
    var status := CheckOptional(input.status, CheckStatus);
    if customerId.Ok? && amount.Ok? && currency.Ok? && status.Ok? then
      Ok(OrderUpdate(customerId.value, amount.value, currency.value, status.value, input.orderDate))
    else
      Err(ErrorsOf(CustomerIdField, customerId) + ErrorsOf(TotalAmountField, amount)
        + ErrorsOf(CurrencyField, currency) + ErrorsOf(StatusField, status))
  }

  /** A partial update is accepted exactly when every field it supplies
      passes the create-time check; a supplied field stays supplied, with
      the customer id stripped and the currency upper-cased, and an absent
      one stays absent. */
  lemma ValidateOrderUpdateSpec(input: UpdateInput)
    ensures var r := ValidateOrderUpdate(input);
      && (r.Ok? <==>
        && (input.customerId.Some? ==> !AllSpace(input.customerId.value))
        && (input.totalAmount.Some? ==> input.totalAmount.value > 0)
        && (input.currency.Some? ==> |input.currency.value| == 3 && Upper(input.currency.value) in ValidCurrencies)
        && (input.status.Some? ==> input.status.value in StatusValues))
      && (r.Ok? ==>
        && (r.value.customerId.Some? <==> input.customerId.Some?)
        && (r.value.customerId.Some? ==> r.value.customerId.value == Strip(input.customerId.value))
        && (r.value.totalAmount == input.totalAmount)
        && (r.value.currency.Some? <==> input.currency.Some?)
        && (r.value.currency.Some? ==> r.value.currency.value == Upper(input.currency.value))
        && (r.value.status.Some? <==> input.status.Some?)
        && (r.value.status.Some? ==> StatusValue(r.value.status.value) == input.status.value)
        && (r.value.orderDate == input.orderDate))
  {
  }

  /** A status-only update leaves every other field absent. */
  lemma StatusOnlyUpdate(v: string)
    requires v in StatusValues
    ensures var r := ValidateOrderUpdate(UpdateInput(None, None, None, Some(v), None));
      && r.Ok?
      && r.value == OrderUpdate(None, None, None, ParseStatus(v), None)
  {
  }
}
