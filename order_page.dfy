/** The client-side helpers of the order form (frontend/app/page.tsx):
    the customer and order identifiers it generates and the price it shows.
    The clock reading `Date.now()` is a parameter. */
module OrderPage {
  import opened Wrappers
  import opened Text
  import opened Seqs

  // ---------------------------------------------------------------------
  // generateCustomerId
  // ---------------------------------------------------------------------

  const CustomerPrefix: string := "CUST-"

  /** `name.replace(/[^a-zA-Z]/g, '').toUpperCase()`. */
  function Cleaned(name: string): string
  {
    Upper(Filter(name, IsAsciiLetter))
  }

  /** The sum of the character codes, added up left to right. */
  function CodeSum(s: string): nat
  {
    if s == [] then 0 else CodeSum(s[..|s| - 1]) + s[|s| - 1] as nat
  }

  /** `CUST-` and the first five digits of the code sum of the cleaned name. */
  function GenerateCustomerId(name: string): (id: string)
    ensures |id| == 5 + Min(5, |Decimal(CodeSum(Cleaned(name)))|)
    ensures id[..5] == CustomerPrefix
  {
    var digits := Decimal(CodeSum(Cleaned(name)));
    CustomerPrefix + digits[..Min(5, |digits|)]
  }

  /** A customer id is `CUST-` followed by one to five decimal digits, the
      leading digits of the code sum; when the sum has at most five digits
      they spell it exactly. */
  lemma CustomerIdShape(name: string)
    ensures var id := GenerateCustomerId(name);
      && |id| == 5 + Min(5, |Decimal(CodeSum(Cleaned(name)))|)
      && 6 <= |id| <= 10
      && id[..5] == CustomerPrefix
      && AllDigits(id[5..])
      && Decimal(CodeSum(Cleaned(name)))[..|id| - 5] == id[5..]
      && (CodeSum(Cleaned(name)) < 100000 ==> ParseDecimal(id[5..]) == CodeSum(Cleaned(name)))
  {
    var h := CodeSum(Cleaned(name));
    var digits := Decimal(h);
    var id := GenerateCustomerId(name);
    assert id[5..] == digits[..Min(5, |digits|)];
    if h < 100000 {
      DecimalLength(h, 5);
      assert digits[..|digits|] == digits;
      DecimalRoundTrip(h);
    }
  }

  lemma {:induction false} FilterUpper(s: string)
    ensures Filter(Upper(s), IsAsciiLetter) == Upper(Filter(s, IsAsciiLetter))
    decreases |s|
  {
    if s != [] {
      var u := Upper(s);
      assert u[0] == UpperChar(s[0]);
      assert u[1..] == Upper(s[1..]);
      FilterUpper(s[1..]);
      var rest := Filter(s[1..], IsAsciiLetter);
      if IsAsciiLetter(s[0]) {
        assert Filter(u, IsAsciiLetter) == [u[0]] + Upper(rest);
        assert Filter(s, IsAsciiLetter) == [s[0]] + rest;
        UpperAppend([s[0]], rest);
      } else {
        assert Filter(u, IsAsciiLetter) == Upper(rest);
      }
    }
  }

  lemma {:induction false} FilterLower(s: string)
    ensures Filter(Lower(s), IsAsciiLetter) == Lower(Filter(s, IsAsciiLetter))
    decreases |s|
  {
    if s != [] {
      var l := Lower(s);
      assert l[0] == LowerChar(s[0]);
      assert l[1..] == Lower(s[1..]);
      FilterLower(s[1..]);
      var rest := Filter(s[1..], IsAsciiLetter);
      if IsAsciiLetter(s[0]) {
        assert Filter(l, IsAsciiLetter) == [l[0]] + Lower(rest);
        assert Filter(s, IsAsciiLetter) == [s[0]] + rest;
        LowerAppend([s[0]], rest);
      } else {
        assert Filter(l, IsAsciiLetter) == Lower(rest);
      }
    }
  }

  /** Names that differ only in the case of their letters get the same
      customer id. */
  lemma CustomerIdIgnoresCase(name: string)
    ensures GenerateCustomerId(Upper(name)) == GenerateCustomerId(name)
    ensures GenerateCustomerId(Lower(name)) == GenerateCustomerId(name)
  {
    var letters := Filter(name, IsAsciiLetter);
    FilterUpper(name);
    UpperIdempotent(letters);
    FilterLower(name);
    UpperOfLower(letters);
  }

  /** Inserting a character that is not an ASCII letter does not change
      the customer id. */
  lemma CustomerIdIgnoresNonLetters(a: string, c: char, b: string)
    requires !IsAsciiLetter(c)
    ensures GenerateCustomerId(a + [c] + b) == GenerateCustomerId(a + b)
  {
    FilterAppend(a + [c], b, IsAsciiLetter);
    FilterAppend(a, [c], IsAsciiLetter);
    FilterAppend(a, b, IsAsciiLetter);
    assert Filter([c], IsAsciiLetter) == [];
    assert Filter(a, IsAsciiLetter) + [] == Filter(a, IsAsciiLetter);
  }

  /** A name without ASCII letters gets `CUST-0`. */
  lemma CustomerIdWithoutLetters(name: string)
    requires forall i :: 0 <= i < |name| ==> !IsAsciiLetter(name[i])
    ensures GenerateCustomerId(name) == "CUST-0"
  {
    FilterNone(name, IsAsciiLetter);
    assert Cleaned(name) == [];
  }

  // ---------------------------------------------------------------------
  // generateOrderId
  // ---------------------------------------------------------------------

  const OrderPrefix: string := "ORD-2025-"

  /** `ORD-2025-` and the last six digits of the timestamp `Date.now()`. */
  function GenerateOrderId(timestamp: nat): (id: string)
    ensures |id| == 9 + Min(6, |Decimal(timestamp)|)
    ensures id[..9] == OrderPrefix
  {
    var digits := Decimal(timestamp);
    OrderPrefix + digits[|digits| - Min(6, |digits|)..]
  }

  lemma Pow10Six()
    ensures Pow10(6) == 1000000
  {
  }

  /** The last `min(6, length)` digits of a number spell it modulo 10^6. */
  lemma LastSixDigits(t: nat)
    ensures var d := Decimal(t); var k := Min(6, |d|);
      ParseDecimal(d[|d| - k..]) == t % 1000000
  {
    var d := Decimal(t);
    var k := Min(6, |d|);
    DecimalSuffix(t, k);
    Pow10Six();
    if |d| < 6 {
      DecimalLength(t, k);
      DecimalLength(t, 6);
      ModUnique(t, Pow10(k), 0, t);
      ModUnique(t, 1000000, 0, t);
    }
  }

  /** An order id is `ORD-2025-` followed by the last six digits of the
      timestamp (all of them when it has fewer), which spell the timestamp
      modulo 10^6. */
  lemma OrderIdShape(timestamp: nat)
    ensures var id := GenerateOrderId(timestamp);
      var digits := Decimal(timestamp);
      && id[..9] == OrderPrefix
      && |id| == 9 + Min(6, |digits|)
      && 10 <= |id| <= 15
      && id[9..] == digits[|digits| - (|id| - 9)..]
      && AllDigits(id[9..])
      && ParseDecimal(id[9..]) == timestamp % 1000000
  {
    var digits := Decimal(timestamp);
    var id := GenerateOrderId(timestamp);
    assert id[9..] == digits[|digits| - Min(6, |digits|)..];
    LastSixDigits(timestamp);
  }

  // ---------------------------------------------------------------------
  // calculateTotal
  // ---------------------------------------------------------------------

  datatype Product = Product(id: string, price: nat)

  datatype CurrencyOption = CurrencyOption(code: string, rate: real)

  /** `PRODUCTS`: the catalogue with prices in ISK. */
  const Products: seq<Product> := [
    Product("snaefell-parka", 89990),
    Product("vatnajokull-jacket", 79990),
    Product("tindur-jacket", 119990),
    Product("esja-jacket", 49990),
    Product("hengill-jacket", 59990),
    Product("vik-sweater", 29990),
    Product("kaldi-gloves", 12990),
    Product("vikur-beanie", 8990)
  ]

  /** `CURRENCIES`: units of each currency per ISK. */
  const Currencies: seq<CurrencyOption> := [
    CurrencyOption("ISK", 1.0),
    CurrencyOption("USD", 0.0072),
    CurrencyOption("EUR", 0.0065),
    CurrencyOption("GBP", 0.0055)
  ]

  /** `PRODUCTS.find(p => p.id === id)`. */
  function FindProduct(ps: seq<Product>, id: string): (r: Option<Product>)
    ensures r.Some? ==> r.value in ps && r.value.id == id
    ensures r.None? <==> forall i :: 0 <= i < |ps| ==> ps[i].id != id
  {
    if ps == [] then None
    else if ps[0].id == id then Some(ps[0])
    else FindProduct(ps[1..], id)
  }

  /** `CURRENCIES.find(c => c.code === code)?.rate || 1`. */
  function RateOf(cs: seq<CurrencyOption>, code: string): (r: real)
    ensures (forall i :: 0 <= i < |cs| ==> cs[i].code != code) ==> r == 1.0
    ensures |cs| > 0 && cs[0].code == code ==> r == if cs[0].rate != 0.0 then cs[0].rate else 1.0
  {
    if cs == [] then 1.0
    else if cs[0].code == code then (if cs[0].rate != 0.0 then cs[0].rate else 1.0)
    else RateOf(cs[1..], code)
  }

  /** `Math.round`: the nearest integer, halves rounded up. */
  function Round(x: real): (n: int)
    ensures x - 0.5 < n as real <= x + 0.5
  {
    (x + 0.5).Floor
  }

  lemma RoundInteger(n: int)
    ensures Round(n as real) == n
  {
  }

  /** `calculateTotal` over a catalogue and a currency list (the page uses
      `Products` and `Currencies`): 0 for a product that is not in the
      catalogue, otherwise price times quantity converted at the currency's
      rate and rounded to the nearest integer. */
  function CalculateTotal(products: seq<Product>, currencies: seq<CurrencyOption>,
                          selectedProduct: string, quantity: int, currency: string): (total: int)
    ensures (forall i :: 0 <= i < |products| ==> products[i].id != selectedProduct) ==> total == 0
    ensures FindProduct(products, selectedProduct).Some? ==>
      var exact := (FindProduct(products, selectedProduct).value.price * quantity) as real * RateOf(currencies, currency);
      exact - 0.5 < total as real <= exact + 0.5
  {
    match FindProduct(products, selectedProduct)
    case None => 0
    case Some(product) =>
      var totalIsk := product.price * quantity;
      Round(totalIsk as real * RateOf(currencies, currency))
  }

  /** On the page's own lists: a product outside the catalogue costs 0,
      and in ISK, or in a currency the form does not list, the total is
      the catalogue price times the quantity, exactly. */
  lemma CalculateTotalIsk(selectedProduct: string, quantity: int, currency: string)
    requires currency == "ISK" || forall i :: 0 <= i < |Currencies| ==> Currencies[i].code != currency
    ensures FindProduct(Products, selectedProduct).None? ==>
      CalculateTotal(Products, Currencies, selectedProduct, quantity, currency) == 0
    ensures FindProduct(Products, selectedProduct).Some? ==>
      CalculateTotal(Products, Currencies, selectedProduct, quantity, currency)
        == FindProduct(Products, selectedProduct).value.price * quantity
  {
    assert RateOf(Currencies, currency) == 1.0;
    if FindProduct(Products, selectedProduct).Some? {
      RoundInteger(FindProduct(Products, selectedProduct).value.price * quantity);
    }
  }
}
