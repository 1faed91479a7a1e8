/**
 * Numeric and currency normalisation of the purchase-order importer:
 * `parse_decimal`, `clean_currency_value`, `parse_eur_price`, the MagicFX
 * European-locale rewrite and the qty x price tolerance check.
 * A Python `Decimal`, and a `float` taken exactly, is modelled as a `real`.
 */
module Numeric {
  import opened Wrappers
  import opened Text
  import opened Digits

  /** The value of a digit string read as a fractional part `.b`. */
  function FracValue(b: string): (v: real)
    requires AllDigits(b)
    ensures 0.0 <= v < 1.0
  {
    if b == [] then 0.0 else (DigitVal(b[0]) as real + FracValue(b[1..])) / 10.0
  }

  /** The value of the numeral `w.c`. */
  function PointValue(w: string, c: string): real
    requires AllDigits(w) && AllDigits(c)
  {
    NatOf(w) as real + FracValue(c)
  }

  /** `Decimal(t)` for an unsigned numeral: `d`, `d.`, `d.d` or `.d` (d a digit run). */
  function UnsignedDecimal(t: string): Option<real> {
    var k := DigitRun(t);
    if k == |t| then
      if k > 0 then Some(NatOf(t[..k]) as real) else None
    else if t[k] != '.' || !AllDigits(t[k + 1..]) || (k == 0 && k + 1 == |t|) then None
    else Some(NatOf(t[..k]) as real + FracValue(t[k + 1..]))
  }

  /** Python's `Decimal(s)`: surrounding whitespace, an optional sign, an unsigned numeral. */
  function DecimalOf(s: string): Option<real> {
    var t := Strip(s);
    if t != [] && (t[0] == '-' || t[0] == '+') then
      match UnsignedDecimal(t[1..])
      case Some(v) => Some(if t[0] == '-' then -v else v)
      case None => None
    else UnsignedDecimal(t)
  }

  /** The characters `parse_decimal` deletes before handing the text to `Decimal`. */
  const DecimalNoise: set<char> := {'€', '$', '£', ','}

  /** `parse_decimal`: None for the empty string or text `Decimal` rejects. */
  function ParseDecimal(value: string): Option<real> {
    if value == [] then None else DecimalOf(Without(value, DecimalNoise))
  }

  /** A full match of `\d+\.?\d*`. */
  predicate IsNumeral(m: string) {
    var k := DigitRun(m);
    k > 0 && (k == |m| || (m[k] == '.' && AllDigits(m[k + 1..])))
  }

  /** The number a numeral denotes (what both `float` and `Decimal` make of it). */
  function NumeralValue(m: string): real
    requires IsNumeral(m)
  {
    var k := DigitRun(m);
    NatOf(m[..k]) as real + (if k == |m| then 0.0 else FracValue(m[k + 1..]))
  }

  /** The longest match of `\d+\.?\d*` at the start of `t`. */
  function NumeralAt(t: string): (m: string)
    requires t != [] && IsDigit(t[0])
    ensures IsNumeral(m) && StartsWith(t, m)
    ensures |m| < |t| ==> !IsDigit(t[|m|]) && (t[|m|] == '.' ==> '.' in m)
  {
    var k := DigitRun(t);
    if k < |t| && t[k] == '.' then
      var j := DigitRun(t[k + 1..]);
      var m := t[..k + 1 + j];
      assert m == t[..k] + t[k..k + 1 + j];
      DigitRunAppend(t[..k], t[k..k + 1 + j]);
      assert m[k + 1..] == t[k + 1..][..j];
      assert m[k] == '.';
      m
    else
      t[..k]
  }

  /** The position of the leftmost digit of `s`. */
  function FirstDigit(s: string): (r: Option<nat>)
    ensures r.None? <==> NoDigit(s)
    ensures r.Some? ==> r.value < |s| && IsDigit(s[r.value]) && NoDigit(s[..r.value])
  {
    if s == [] then None
    else if IsDigit(s[0]) then Some(0)
    else
      match FirstDigit(s[1..])
      case None => None
      case Some(k) =>
        assert s[..k + 1] == [s[0]] + s[1..][..k];
        NoDigitAppend([s[0]], s[1..][..k]);
        Some(k + 1)
  }

  /** `re.search(r'\d+\.?\d*', s)`: the leftmost, longest numeral in `s`. */
  function FirstNumeral(s: string): (r: Option<string>)
    ensures r.None? <==> NoDigit(s)
    ensures r.Some? ==> IsNumeral(r.value)
  {
    match FirstDigit(s)
    case None => None
    case Some(k) => Some(NumeralAt(s[k..]))
  }

  /** A numeral followed by text that cannot extend it is what `FirstNumeral` finds. */
  lemma {:induction false} FirstNumeralLocate(a: string, m: string, b: string)
    requires NoDigit(a) && IsNumeral(m)
    requires b != [] ==> !IsDigit(b[0]) && (b[0] == '.' ==> '.' in m)
    ensures FirstNumeral(a + m + b) == Some(m)
    decreases |a|
  {
    if a == [] {
      assert a + m + b == m + b;
      NumeralAtLocate(m, b);
    } else {
      assert !IsDigit(a[0]);
      assert (a + m + b)[1..] == a[1..] + m + b;
      FirstNumeralLocate(a[1..], m, b);
      assert FirstDigit(a + m + b) == Some(FirstDigit(a[1..] + m + b).value + 1);
      assert (a + m + b)[FirstDigit(a + m + b).value..] ==
        (a[1..] + m + b)[FirstDigit(a[1..] + m + b).value..];
    }
  }

  lemma NumeralAtLocate(m: string, b: string)
    requires IsNumeral(m)
    requires b != [] ==> !IsDigit(b[0]) && (b[0] == '.' ==> '.' in m)
    ensures FirstDigit(m + b) == Some(0) && NumeralAt(m + b) == m
  {
    var k := DigitRun(m);
    assert (m + b)[0] == m[0];
    if k == |m| {
      assert m[..k] == m;
      assert forall i :: 0 <= i < |m| ==> m[i] != '.';
      NumeralAtDigits(m, b);
    } else {
      var p, f := m[..k], m[k + 1..];
      assert m == p + "." + f;
      NumeralAtPoint(p, f, b);
    }
  }

  lemma NumeralAtDigits(m: string, b: string)
    requires IsDigitString(m)
    requires b != [] ==> !IsDigit(b[0]) && b[0] != '.'
    ensures NumeralAt(m + b) == m
  {
    DigitRunAppend(m, b);
    assert (m + b)[..|m|] == m;
  }

  lemma NumeralAtPoint(p: string, f: string, b: string)
    requires IsDigitString(p) && AllDigits(f)
    requires b != [] ==> !IsDigit(b[0])
    ensures NumeralAt(p + "." + f + b) == p + "." + f
  {
    var t := p + "." + f + b;
    assert t == p + ("." + f + b);
    DigitRunAppend(p, "." + f + b);
    assert t[|p|] == '.';
    assert t[|p| + 1..] == f + b;
    DigitRunAppend(f, b);
    assert t[..|p| + 1 + |f|] == p + "." + f;
  }

  /** An unsigned numeral is read by `Decimal` as its value. */
  lemma UnsignedNumeral(m: string)
    requires IsNumeral(m)
    ensures UnsignedDecimal(m) == Some(NumeralValue(m))
  {
  }

  /** A numeral behind currency marks and thousands separators parses to its value. */
  lemma ParseDecimalNumeral(a: string, m: string)
    requires IsNumeral(m) && forall i :: 0 <= i < |a| ==> a[i] in DecimalNoise
    ensures ParseDecimal(a + m) == Some(NumeralValue(m))
  {
    WithoutAppend(a, m, DecimalNoise);
    WithoutAllDropped(a, DecimalNoise);
    NumeralNoNoise(m);
    assert Without(a + m, DecimalNoise) == m;
    DecimalOfNumeral(m);
  }

  lemma NumeralNoNoise(m: string)
    requires IsNumeral(m)
    ensures Without(m, DecimalNoise) == m
  {
    NumeralChars(m);
    WithoutNothingToDrop(m, DecimalNoise);
  }

  /** `Decimal` reads a numeral as its value. */
  lemma DecimalOfNumeral(m: string)
    requires IsNumeral(m)
    ensures DecimalOf(m) == Some(NumeralValue(m))
  {
    NumeralChars(m);
    assert !IsSpace(m[|m| - 1]);
    StripNoSpace(m);
    UnsignedNumeral(m);
  }

  lemma WithoutAllDropped(s: string, cs: set<char>)
    requires forall i :: 0 <= i < |s| ==> s[i] in cs
    ensures Without(s, cs) == []
  {
  }

  /** `parse_decimal` ignores a currency mark or comma anywhere in its input. */
  lemma ParseDecimalIgnoresNoise(a: string, c: char, b: string)
    requires c in DecimalNoise && a + b != []
    ensures ParseDecimal(a + [c] + b) == ParseDecimal(a + b)
  {
    WithoutAppend(a + [c], b, DecimalNoise);
    WithoutAppend(a, [c], DecimalNoise);
    WithoutAppend(a, b, DecimalNoise);
    assert Without([c], DecimalNoise) == [] by { WithoutAllDropped([c], DecimalNoise); }
    assert Without(a + [c] + b, DecimalNoise) == Without(a + b, DecimalNoise);
  }

  lemma ParseDecimalDropLeading(c: char, s: string)
    requires c in DecimalNoise && s != []
    ensures ParseDecimal([c] + s) == ParseDecimal(s)
  {
    WithoutConsDropped(c, s, DecimalNoise);
  }

  lemma NoDigitSlice(s: string, i: nat, j: nat)
    requires i <= j <= |s| && NoDigit(s)
    ensures NoDigit(s[i..j])
  {
    assert forall k :: 0 <= k < j - i ==> s[i..j][k] == s[i + k];
  }

  /** Text without a digit is never a decimal. */
  lemma NoDigitNoDecimal(s: string)
    requires NoDigit(s)
    ensures DecimalOf(s) == None
  {
    NoDigitLStrip(s);
    NoDigitRStrip(LStrip(s));
    var t := Strip(s);
    NoNumeralWithoutDigit(t);
    if t != [] {
      NoDigitSlice(t, 1, |t|);
      NoNumeralWithoutDigit(t[1..]);
    }
  }

  /** `parse_decimal` of text without a digit is None. */
  lemma NoDigitNoParse(s: string)
    requires NoDigit(s)
    ensures ParseDecimal(s) == None
  {
    if s != [] {
      WithoutKeepsDigits(s, DecimalNoise);
      NoDigitNoDecimal(Without(s, DecimalNoise));
    }
  }

  lemma NoNumeralWithoutDigit(t: string)
    requires NoDigit(t)
    ensures UnsignedDecimal(t) == None
  {
    if |t| >= 2 {
      assert !IsDigit(t[1..][0]);
    }
  }

  /** `clean_currency_value`: the currency symbol of `value` and its first number. */
  function CurrencySymbol(value: string): (sym: string)
    ensures sym in {"€", "$", "£", ""}
  {
    // The source tests for "EUR" a second time after '$' and '£'; that test can never succeed.
    if '€' in value || Contains(value, "EUR") then "€"
    else if '$' in value then "$"
    else if '£' in value then "£"
    else if Contains(value, "USD") then "$"
    else if Contains(value, "GBP") then "£"
    else ""
  }

  /**
   * `clean_currency_value`: the currency symbol followed by the first numeral of the
   * comma-free text; text without a digit comes back unchanged.
   */
  function CleanCurrencyValue(value: string): (r: string)
    ensures NoDigit(value) ==> r == value
    ensures !NoDigit(value) ==> exists k :: 0 <= k <= |r| && IsNumeral(r[k..]) && r[..k] == CurrencySymbol(value)
  {
    WithoutKeepsDigits(value, {','});
    if value == [] then value
    else
      match FirstNumeral(Without(value, {','}))
      case None => value
      case Some(m) =>
        var r := CurrencySymbol(value) + m;
        assert r[|CurrencySymbol(value)|..] == m && r[..|CurrencySymbol(value)|] == CurrencySymbol(value);
        r
  }

  /** The digits and point of a numeral are its only characters. */
  lemma NumeralChars(m: string)
    requires IsNumeral(m)
    ensures forall i :: 0 <= i < |m| ==> IsDigit(m[i]) || m[i] == '.'
  {
    var k := DigitRun(m);
    forall i | 0 <= i < |m| ensures IsDigit(m[i]) || m[i] == '.' {
      if i < k { assert m[..k][i] == m[i]; }
      else if i > k { assert m[k + 1..][i - k - 1] == m[i]; }
    }
  }

  /** A cleaned currency value parses to the value of the first number of the original. */
  lemma CleanCurrencyValueParses(value: string)
    requires !NoDigit(value)
    ensures FirstNumeral(Without(value, {','})).Some?
    ensures ParseDecimal(CleanCurrencyValue(value)) == Some(NumeralValue(FirstNumeral(Without(value, {','})).value))
  {
    WithoutKeepsDigits(value, {','});
    var m := FirstNumeral(Without(value, {','})).value;
    var sym := CurrencySymbol(value);
    assert forall i :: 0 <= i < |sym| ==> sym[i] in DecimalNoise;
    ParseDecimalNumeral(sym, m);
  }

  lemma ContainsFirstChar(s: string, p: string)
    requires p != [] && Contains(s, p)
    ensures p[0] in s
  {
    var k := ContainsWitness(s, p);
    assert s[k] == s[k..k + |p|][0];
  }

  /** Cleaning is idempotent: a cleaned value is its own clean form. */
  lemma CleanCurrencyValueIdempotent(value: string)
    ensures CleanCurrencyValue(CleanCurrencyValue(value)) == CleanCurrencyValue(value)
  {
    if !NoDigit(value) {
      WithoutKeepsDigits(value, {','});
      var m := FirstNumeral(Without(value, {','})).value;
      var sym := CurrencySymbol(value);
      assert CleanCurrencyValue(value) == sym + m;
      CleanedIsClean(sym, m);
    }
  }

  lemma CleanedIsClean(sym: string, m: string)
    requires sym in {"€", "$", "£", ""} && IsNumeral(m)
    ensures CleanCurrencyValue(sym + m) == sym + m
  {
    var r := sym + m;
    NumeralChars(m);
    assert forall i :: 0 <= i < |r| ==> r[i] != ',' by {
      forall i | 0 <= i < |r| ensures r[i] != ',' {
        if i >= |sym| { assert r[i] == m[i - |sym|]; }
      }
    }
    WithoutNothingToDrop(r, {','});
    assert r + [] == r;
    FirstNumeralLocate(sym, m, []);
    SymbolOfCleaned(sym, m);
  }

  /** The symbol of a cleaned value is the symbol it was cleaned with. */
  lemma SymbolOfCleaned(sym: string, m: string)
    requires sym in {"€", "$", "£", ""} && IsNumeral(m)
    ensures CurrencySymbol(sym + m) == sym
  {
    var r := sym + m;
    NumeralChars(m);
    assert '€' !in m && '$' !in m && '£' !in m && 'E' !in m && 'U' !in m && 'G' !in m;
    assert 'E' !in r && 'U' !in r && 'G' !in r;
    if Contains(r, "EUR") { ContainsFirstChar(r, "EUR"); }
    if Contains(r, "USD") { ContainsFirstChar(r, "USD"); }
    if Contains(r, "GBP") { ContainsFirstChar(r, "GBP"); }
  }

  /** What `parse_eur_price` returns: its input when no price is found, else unit and full price. */
  datatype EurPrice = Unpriced(text: string) | Priced(unit: real, price: real)

  /** The text `parse_eur_price` works on: newlines turned into spaces, then stripped. */
  function EurText(price: string): string {
    Strip(ReplaceChar(price, '\n', ' '))
  }

  /** The quantity of `per\s+(\d+)` (any letter case) matched at the start of `s`. */
  function PerAt(s: string): Option<nat> {
    if |s| >= 3 && Lower(s[0]) == 'p' && Lower(s[1]) == 'e' && Lower(s[2]) == 'r' then
      var w := SpaceRun(s[3..]);
      var d := DigitRun(s[3 + w..]);
      if w > 0 && d > 0 then Some(NatOf(s[3 + w..][..d])) else None
    else None
  }

  /** `re.search(r'per\s+(\d+)', s, re.IGNORECASE)`: the quantity after the leftmost match. */
  function PerQuantity(s: string): Option<nat>
    decreases |s|
  {
    if s == [] then None
    else if PerAt(s).Some? then PerAt(s)
    else PerQuantity(s[1..])
  }

  /** The price of one unit when `n` units cost `total`. */
  function UnitPrice(total: real, n: nat): real
    requires n > 0
  {
    total / n as real
  }

  /**
   * The price parsing both versions of `parse_eur_price` share, on the text `p`
   * they work on: the first number of the comma-free text divided by the "per N"
   * quantity (1 when absent). A zero quantity raises inside the source's `try` and
   * is treated like text without a number.
   */
  function EurPriceOf(p: string): (r: EurPrice)
    ensures r.Unpriced? ==> r.text == p
  {
    match FirstNumeral(Without(p, {','}))
    case None => Unpriced(p)
    case Some(m) =>
      var n := PriceQuantity(p);
      if n == 0 then Unpriced(p)
      else Priced(UnitPrice(NumeralValue(m), n), NumeralValue(m))
  }

  /** The "per N" quantity of a price text, 1 when there is none. */
  function PriceQuantity(p: string): nat {
    match PerQuantity(p)
    case Some(q) => q
    case None => 1
  }

  /** The module-level `parse_eur_price`: newlines become spaces and the text is stripped first. */
  function ParseEurPrice(price: string): (r: EurPrice)
    ensures price == [] ==> r == Unpriced("")
    ensures price != [] && r.Unpriced? ==> r.text == EurText(price)
  {
    if price == [] then Unpriced("") else EurPriceOf(EurText(price))
  }

  /** `y` rounded to a whole number, a tie going to the even neighbour. */
  function RoundHalfEven(y: real): (n: int)
    ensures Abs(n as real - y) <= 0.5
  {
    var f := y.Floor;
    if y - f as real > 0.5 || (y - f as real == 0.5 && f % 2 == 1) then f + 1 else f
  }

  /**
   * `f"{x:.kf}"` read back by `Decimal`: `x` rounded to `k` decimal places, a
   * tie going to the even neighbour. It is never more than half a unit of the
   * last place away from `x`.
   */
  function RoundPlaces(x: real, k: nat): (r: real)
    ensures Abs(r - x) * (Pow10(k) as real) <= 0.5
  {
    var p := Pow10(k) as real;
    var n := RoundHalfEven(x * p);
    ScaledNear(x, n as real, p);
    n as real / p
  }

  /** Dividing the rounded `x * p` by `p` keeps the error bound, measured in units of `1 / p`. */
  lemma ScaledNear(x: real, m: real, p: real)
    requires p >= 1.0 && Abs(m - x * p) <= 0.5
    ensures Abs(m / p - x) * p <= 0.5
  {
    assert (m / p - x) * p == m - x * p;
    assert Abs(m / p - x) * p == Abs((m / p - x) * p);
  }

  /**
   * The `parse_eur_price` local to the Wefabricate extractor: the text is used
   * as given, and the result is formatted `f"€{unit:.4f}"`, `f"€{price:.2f}"`,
   * so the unit is rounded to four places and the price to two.
   */
  function WfParseEurPrice(price: string): (r: EurPrice)
    ensures r.Unpriced? ==> r.text == price
  {
    if price == [] then Unpriced("")
    else
      match EurPriceOf(price)
      case Unpriced(text) => Unpriced(text)
      case Priced(unit, full) => Priced(RoundPlaces(unit, 4), RoundPlaces(full, 2))
  }

  /** The "per N" quantity the module-level version divides by. */
  function EurQuantity(price: string): nat {
    PriceQuantity(EurText(price))
  }

  /** A unit price that, times `n`, gives the full price. */
  predicate UnitConsistent(p: EurPrice, n: nat) {
    p.Priced? ==> p.unit * n as real == p.price
  }

  /** The unit price times the "per" quantity is the full price. */
  lemma EurPriceOfUnit(p: string)
    ensures UnitConsistent(EurPriceOf(p), PriceQuantity(p))
  {
    var r, n := EurPriceOf(p), PriceQuantity(p);
    if r.Priced? {
      var v := NumeralValue(FirstNumeral(Without(p, {','})).value);
      assert r == Priced(UnitPrice(v, n), v);
      UnitPriceConsistent(v, n);
    }
  }

  lemma UnitPriceConsistent(v: real, n: nat)
    requires n > 0
    ensures UnitConsistent(Priced(UnitPrice(v, n), v), n)
  {
    DivMul(v, n as real);
  }

  /** A price is found exactly when the text has a digit and no "per 0". */
  lemma EurPriceOfPriced(p: string)
    ensures EurPriceOf(p).Priced? <==> !NoDigit(p) && PriceQuantity(p) != 0
  {
    WithoutKeepsDigits(p, {','});
  }

  /** The full price is the first number of the text. */
  lemma EurPriceOfTotal(p: string)
    requires EurPriceOf(p).Priced?
    ensures FirstNumeral(Without(p, {','})).Some?
    ensures EurPriceOf(p).price == NumeralValue(FirstNumeral(Without(p, {','})).value)
  {
  }

  lemma ParseEurPriceUnit(price: string)
    ensures UnitConsistent(ParseEurPrice(price), EurQuantity(price))
  {
    if price != [] { EurPriceOfUnit(EurText(price)); }
  }

  lemma ParseEurPricePriced(price: string)
    ensures ParseEurPrice(price).Priced? <==> !NoDigit(price) && EurQuantity(price) != 0
  {
    EurTextDigits(price);
    EurPriceOfPriced(EurText(price));
  }

  /**
   * The local copy rounds the exact unit price to within half a unit of the
   * fourth decimal place, and the full price to within half a cent.
   */
  lemma WfParseEurPriceUnit(price: string)
    ensures WfParseEurPrice(price).Priced? ==>
      EurPriceOf(price).Priced?
      && Abs(WfParseEurPrice(price).unit - EurPriceOf(price).unit) * 20000.0 <= 1.0
      && Abs(WfParseEurPrice(price).price - EurPriceOf(price).price) * 200.0 <= 1.0
  {
    if WfParseEurPrice(price).Priced? {
      var q := EurPriceOf(price);
      assert WfParseEurPrice(price) == Priced(RoundPlaces(q.unit, 4), RoundPlaces(q.price, 2));
      RoundedNear(q.unit, 4);
      RoundedNear(q.price, 2);
    }
  }

  /** Rounding to `k` places in the bound's concrete form for four and two places. */
  lemma RoundedNear(x: real, k: nat)
    requires k == 4 || k == 2
    ensures k == 4 ==> Abs(RoundPlaces(x, k) - x) * 20000.0 <= 1.0
    ensures k == 2 ==> Abs(RoundPlaces(x, k) - x) * 200.0 <= 1.0
  {
    var r := RoundPlaces(x, k);
    assert Abs(r - x) * (Pow10(k) as real) <= 0.5;
    assert Pow10(4) == 10000 && Pow10(2) == 100;
  }

  /**
   * A unit rounded as `WfParseEurPriceUnit` promises, times the "per N"
   * quantity, is within N / 20000 of the full price it was derived from
   * (`EurPriceOfUnit` gives the exact unit times N as that price).
   */
  lemma RoundedUnitTimes(exact: EurPrice, rounded: EurPrice, n: real)
    requires exact.Priced? && rounded.Priced? && n >= 0.0 && exact.unit * n == exact.price
    requires Abs(rounded.unit - exact.unit) * 20000.0 <= 1.0
    ensures Abs(rounded.unit * n - exact.price) * 20000.0 <= n
  {
    RoundedTimes(exact.unit, rounded.unit, n, exact.price);
  }

  /** A unit off by at most 1/20000 gives a product off by at most n/20000. */
  lemma RoundedTimes(u: real, r: real, n: real, full: real)
    requires n >= 0.0 && Abs(r - u) * 20000.0 <= 1.0 && u * n == full
    ensures Abs(r * n - full) * 20000.0 <= n
  {
    var d, e := Abs(r - u), r * n - full;
    assert (r - u) * n == r * n - u * n;
    assert e == (r - u) * n;
    AbsScale(r - u, n, e);
    assert Abs(e) == d * n;
    ScaleLe(d * 20000.0, 1.0, n);
    assert Abs(e) * 20000.0 == (d * 20000.0) * n;
    assert (d * 20000.0) * n <= 1.0 * n;
  }

  lemma AbsScale(a: real, c: real, p: real)
    requires c >= 0.0 && p == a * c
    ensures Abs(p) == Abs(a) * c
  {
    if a < 0.0 { assert p == -((-a) * c); }
  }

  lemma ScaleLe(a: real, b: real, c: real)
    requires a <= b && c >= 0.0
    ensures a * c <= b * c
  {
  }

  lemma WfParseEurPricePriced(price: string)
    ensures WfParseEurPrice(price).Priced? <==> !NoDigit(price) && PriceQuantity(price) != 0
  {
    EurPriceOfPriced(price);
  }

  lemma DivMul(x: real, y: real)
    requires y != 0.0
    ensures x / y * y == x
  {
  }

  lemma NoDigitLStrip(s: string)
    ensures NoDigit(LStrip(s)) <==> NoDigit(s)
  {
    var l := LStrip(s);
    LStripSuffix(s);
    assert forall i :: 0 <= i < |l| ==> l[i] == s[|s| - |l| + i];
  }

  lemma NoDigitRStrip(s: string)
    ensures NoDigit(RStrip(s)) <==> NoDigit(s)
  {
    var r := RStrip(s);
    RStripPrefix(s);
    assert forall i :: 0 <= i < |r| ==> r[i] == s[i];
  }

  lemma NoDigitReplaceChar(s: string, x: char, y: char)
    requires !IsDigit(x) && !IsDigit(y)
    ensures NoDigit(ReplaceChar(s, x, y)) <==> NoDigit(s)
  {
    var q := ReplaceChar(s, x, y);
    assert forall i :: 0 <= i < |q| ==> (IsDigit(q[i]) <==> IsDigit(s[i]));
  }

  /** A price string has a number exactly when it has a digit. */
  lemma EurTextDigits(price: string)
    ensures NoDigit(EurText(price)) <==> NoDigit(price)
  {
    var q := ReplaceChar(price, '\n', ' ');
    NoDigitReplaceChar(price, '\n', ' ');
    NoDigitLStrip(q);
    NoDigitRStrip(LStrip(q));
  }

  lemma PerQuantitySkip(a: string, b: string)
    requires forall i :: 0 <= i < |a| ==> Lower(a[i]) != 'p'
    ensures PerQuantity(a + b) == PerQuantity(b)
  {
    if a != [] {
      assert (a + b)[0] == a[0];
      assert PerAt(a + b).None?;
      assert (a + b)[1..] == a[1..] + b;
      PerQuantitySkip(a[1..], b);
    } else {
      assert a + b == b;
    }
  }

  /** "d per N" is priced at d / N per unit, d in total. */
  lemma ParseEurPricePerN(d: string, n: nat)
    requires IsDigitString(d) && n > 0
    ensures NumeralValue(d) == NatOf(d) as real
    ensures ParseEurPrice(d + " per " + NatToString(n)) == Priced(UnitPrice(NumeralValue(d), n), NumeralValue(d))
    ensures WfParseEurPrice(d + " per " + NatToString(n))
      == Priced(RoundPlaces(UnitPrice(NumeralValue(d), n), 4), RoundPlaces(NumeralValue(d), 2))
  {
    var q := NatToString(n);
    var s := d + " per " + q;
    PerPhraseText(d, q);
    PerPhraseNoComma(d, q);
    PerPhraseNumeral(d, q);
    PerPhraseQuantity(d, n);
    ParseEurPriceOf(s, d, n);
  }

  lemma ParseEurPriceOf(s: string, d: string, n: nat)
    requires s != [] && EurText(s) == s && Without(s, {','}) == s
    requires FirstNumeral(s) == Some(d) && PerQuantity(s) == Some(n) && n > 0
    ensures ParseEurPrice(s) == Priced(UnitPrice(NumeralValue(d), n), NumeralValue(d))
    ensures WfParseEurPrice(s) == Priced(RoundPlaces(UnitPrice(NumeralValue(d), n), 4), RoundPlaces(NumeralValue(d), 2))
  {
  }

  lemma PerPhraseText(d: string, q: string)
    requires IsDigitString(d) && IsDigitString(q)
    ensures EurText(d + " per " + q) == d + " per " + q
  {
    var s := d + " per " + q;
    PerPhrasePlain(d, q);
    ReplaceCharAbsent(s, '\n', ' ');
    PlainStrip(s, d[0], q[|q| - 1]);
  }

  lemma PerPhraseNoComma(d: string, q: string)
    requires IsDigitString(d) && IsDigitString(q)
    ensures Without(d + " per " + q, {','}) == d + " per " + q
  {
    PerPhrasePlain(d, q);
    WithoutNothingToDrop(d + " per " + q, {','});
  }

  lemma PlainStrip(s: string, first: char, last: char)
    requires s != [] && s[0] == first && s[|s| - 1] == last && !IsSpace(first) && !IsSpace(last)
    ensures Strip(s) == s
  {
    StripNoSpace(s);
  }

  lemma PerPhrasePlain(d: string, q: string)
    requires IsDigitString(d) && IsDigitString(q)
    ensures forall i :: 0 <= i < |d + " per " + q| ==> (d + " per " + q)[i] != '\n'
    ensures forall i :: 0 <= i < |d + " per " + q| ==> (d + " per " + q)[i] !in {','}
    ensures (d + " per " + q)[0] == d[0] && (d + " per " + q)[|d + " per " + q| - 1] == q[|q| - 1]
  {
    var s := d + " per " + q;
    forall i | 0 <= i < |s| ensures s[i] != '\n' && s[i] != ',' {
      if i < |d| { assert s[i] == d[i]; }
      else if i >= |d| + 5 { assert s[i] == q[i - |d| - 5]; }
    }
  }

  lemma ReplaceCharAbsent(s: string, x: char, y: char)
    requires forall i :: 0 <= i < |s| ==> s[i] != x
    ensures ReplaceChar(s, x, y) == s
  {
  }

  lemma PerPhraseNumeral(d: string, q: string)
    requires IsDigitString(d)
    ensures FirstNumeral(d + " per " + q) == Some(d)
    ensures NumeralValue(d) == NatOf(d) as real
  {
    DigitRunAppend(d, []);
    assert d + [] == d && d[..|d|] == d;
    assert d + " per " + q == [] + d + (" per " + q);
    FirstNumeralLocate([], d, " per " + q);
  }

  lemma PerPhraseQuantity(d: string, n: nat)
    requires IsDigitString(d)
    ensures PerQuantity(d + " per " + NatToString(n)) == Some(n)
  {
    var q := NatToString(n);
    var a := d + " ";
    assert forall i :: 0 <= i < |a| ==> Lower(a[i]) != 'p' by {
      forall i | 0 <= i < |a| ensures Lower(a[i]) != 'p' {
        if i < |d| { assert a[i] == d[i]; }
      }
    }
    assert d + " per " + q == a + ("per " + q);
    PerQuantitySkip(a, "per " + q);
    PerAtQuantity(n);
  }

  lemma PerAtQuantity(n: nat)
    ensures PerAt("per " + NatToString(n)) == Some(n)
    ensures PerQuantity("per " + NatToString(n)) == Some(n)
  {
    var q := NatToString(n);
    var t := "per " + q;
    assert t[3..] == " " + q;
    assert (" " + q)[1..] == q;
    assert SpaceRun(t[3..]) == 1;
    assert t[4..] == q;
    DigitRunAppend(q, []);
    assert q + [] == q && q[..|q|] == q;
    NatOfNatToString(n);
  }

  /** MagicFX numbers: '.' groups thousands and ',' is the decimal point. */
  function EuToUs(s: string): string {
    ReplaceChar(Without(s, {'.'}), ',', '.')
  }

  /** A euro sign in front of a non-empty price that has no currency symbol yet. */
  function EuroPrefixed(s: string): (r: string)
    ensures ParseDecimal(r) == ParseDecimal(s)
    ensures r != [] ==> '€' in r || '$' in r || '£' in r
  {
    if s != [] && !('€' in s || '$' in s || '£' in s) then
      ParseDecimalDropLeading('€', s);
      "€" + s
    else s
  }

  /** A European numeral `x,c` whose integer part loses its grouping points reads as `w.c`. */
  lemma EuToUsOf(x: string, w: string, c: string)
    requires Without(x, {'.'}) == w && IsDigitString(w) && AllDigits(c)
    ensures ParseDecimal(EuToUs(x + "," + c)) == Some(PointValue(w, c))
  {
    EuToUsRewrite(x, w, c);
    ParseDecimalPoint(w, c);
  }

  lemma ParseDecimalPoint(w: string, c: string)
    requires IsDigitString(w) && AllDigits(c)
    ensures ParseDecimal(w + "." + c) == Some(PointValue(w, c))
  {
    PointNumeral(w, c);
    ParseDecimalOfNumeral(w + "." + c);
  }

  lemma EuToUsRewrite(x: string, w: string, c: string)
    requires Without(x, {'.'}) == w && AllDigits(w) && AllDigits(c)
    ensures EuToUs(x + "," + c) == w + "." + c
  {
    var t := "," + c;
    assert x + "," + c == x + t;
    WithoutAppend(x, t, {'.'});
    CommaTailKept(c);
    CommaToPoint(w, c);
  }

  lemma CommaTailKept(c: string)
    requires AllDigits(c)
    ensures Without("," + c, {'.'}) == "," + c
  {
    WithoutNothingToDrop("," + c, {'.'});
  }

  lemma CommaToPoint(w: string, c: string)
    requires AllDigits(w) && AllDigits(c)
    ensures ReplaceChar(w + ("," + c), ',', '.') == w + "." + c
  {
    var s, u := w + ("," + c), w + "." + c;
    forall i | 0 <= i < |s| ensures ReplaceChar(s, ',', '.')[i] == u[i] {
      if i < |w| { assert s[i] == w[i] == u[i]; }
      else if i > |w| { assert s[i] == c[i - |w| - 1] == u[i]; }
    }
  }

  lemma PointNumeral(w: string, c: string)
    requires IsDigitString(w) && AllDigits(c)
    ensures IsNumeral(w + "." + c) && NumeralValue(w + "." + c) == PointValue(w, c)
  {
    var u := w + "." + c;
    assert u == w + ("." + c);
    DigitRunAppend(w, "." + c);
    assert u[..|w|] == w && u[|w| + 1..] == c;
  }

  lemma ParseDecimalOfNumeral(m: string)
    requires IsNumeral(m)
    ensures ParseDecimal(m) == Some(NumeralValue(m))
  {
    NumeralNoNoise(m);
    DecimalOfNumeral(m);
  }

  /** A European numeral `a.b,c` (thousands group `b`) reads as the number `ab.c`. */
  lemma EuToUsGrouped(a: string, b: string, c: string)
    requires IsDigitString(a) && AllDigits(b) && AllDigits(c)
    ensures AllDigits(a + b)
    ensures ParseDecimal(EuToUs(a + "." + b + "," + c)) == Some(PointValue(a + b, c))
  {
    var ab := a + b;
    assert AllDigits(ab) by {
      assert forall i :: 0 <= i < |ab| ==> ab[i] == (if i < |a| then a[i] else b[i - |a|]);
    }
    GroupPointDropped(a, b);
    EuToUsOf(a + "." + b, ab, c);
  }

  lemma GroupPointDropped(a: string, b: string)
    requires AllDigits(a) && AllDigits(b)
    ensures Without(a + "." + b, {'.'}) == a + b
  {
    var t := ['.'] + b;
    assert a + "." + b == a + t;
    WithoutAppend(a, t, {'.'});
    WithoutConsDropped('.', b, {'.'});
    DigitsKeptWithoutPoint(a);
    DigitsKeptWithoutPoint(b);
  }

  lemma DigitsKeptWithoutPoint(s: string)
    requires AllDigits(s)
    ensures Without(s, {'.'}) == s
  {
    WithoutNothingToDrop(s, {'.'});
  }

  /** A European numeral `a,c` without grouping reads as the number `a.c`. */
  lemma EuToUsDecimalComma(a: string, c: string)
    requires IsDigitString(a) && AllDigits(c)
    ensures ParseDecimal(EuToUs(a + "," + c)) == Some(PointValue(a, c))
  {
    WithoutNothingToDrop(a, {'.'});
    EuToUsOf(a, a, c);
  }

  /** "512,60" is 512.6 after the rewrite. */
  lemma EuToUsExample(a: string, c: string)
    requires a == "512" && c == "60"
    ensures ParseDecimal(EuToUs(a + "," + c)) == Some(512.6)
  {
    EuToUsDecimalComma(a, c);
    ValueExample(a, c);
  }

  lemma ValueExample(a: string, c: string)
    requires a == "512" && c == "60"
    ensures PointValue(a, c) == 512.6
  {
    NatOf3(a);
    PointValueExample(a, c, 512.6);
  }

  /** "1.234,56" is 1234.56 after the rewrite. */
  lemma EuToUsGroupedExample(a: string, b: string, c: string)
    requires a == "1" && b == "234" && c == "56"
    ensures ParseDecimal(EuToUs(a + "." + b + "," + c)) == Some(1234.56)
  {
    EuToUsGrouped(a, b, c);
    GroupedValue(a, b);
    PointValueExample(a + b, c, 1234.56);
  }

  lemma GroupedValue(a: string, b: string)
    requires a == "1" && b == "234"
    ensures AllDigits(a + b) && NatOf(a + b) == 1234
  {
    NatOf1(a);
    NatOf3(b);
    NatOfAppend(a, b);
    assert Pow10(3) == 1000;
  }

  lemma PointValueExample(w: string, c: string, v: real)
    requires AllDigits(w) && |c| == 2 && AllDigits(c)
    requires v == NatOf(w) as real + DigitVal(c[0]) as real / 10.0 + DigitVal(c[1]) as real / 100.0
    ensures PointValue(w, c) == v
  {
    var t := c[1..];
    assert t[1..] == [] && t[0] == c[1];
    assert FracValue(t) == DigitVal(c[1]) as real / 10.0;
  }

  /** The difference the importer tolerates between qty x net_price and total_price. */
  const Tolerance: real := 0.02

  function Abs(x: real): real {
    if x < 0.0 then -x else x
  }

  /** The rejection test before an upsert: all three present and off by more than the tolerance. */
  predicate ArithmeticMismatch(qty: Option<real>, netPrice: Option<real>, total: Option<real>) {
    qty.Some? && netPrice.Some? && total.Some? && Abs(qty.value * netPrice.value - total.value) > Tolerance
  }

  /** 480 x 0.033 against 15.84 passes; 480 x 0.030 against 15.84 is rejected. */
  lemma ToleranceExample()
    ensures !ArithmeticMismatch(Some(480.0), Some(0.033), Some(15.84))
    ensures ArithmeticMismatch(Some(480.0), Some(0.030), Some(15.84))
    ensures !ArithmeticMismatch(None, Some(0.030), Some(15.84))
  {
  }

  /**
   * "100 per 3" (or any other digits worth 100, such as "0100") in the
   * Wefabricate copy: the unit is 33.3333, so 3000 units against the total
   * 100000 are off by 0.1 and fail the 0.02 tolerance.
   */
  lemma WfRoundedUnitExample(d: string, n: nat)
    requires IsDigitString(d) && NatOf(d) == 100 && n == 3
    ensures WfParseEurPrice(d + " per " + NatToString(n)) == Priced(33.3333, 100.0)
    ensures ArithmeticMismatch(Some(3000.0), Some(WfParseEurPrice(d + " per " + NatToString(n)).unit), Some(100000.0))
  {
    ParseEurPricePerN(d, n);
    RoundedThirdExample();
  }

  lemma RoundedThirdExample()
    ensures RoundPlaces(UnitPrice(100.0, 3), 4) == 33.3333
    ensures RoundPlaces(100.0, 2) == 100.0
    ensures ArithmeticMismatch(Some(3000.0), Some(33.3333), Some(100000.0))
  {
    assert Pow10(4) == 10000 && Pow10(2) == 100;
  }

  lemma WholeNumeral(a: string)
    requires IsDigitString(a)
    ensures IsNumeral(a) && NumeralValue(a) == NatOf(a) as real
  {
    DigitRunAppend(a, []);
    assert a + [] == a && a[..|a|] == a;
  }
}
