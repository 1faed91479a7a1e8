/**
 * Decimal digit strings and the naturals they denote: Python's `int(s)` on an
 * all-digit string, `str(n)` and `f"{n:02d}"` for a natural `n`.
 */
module Digits {
  import opened Text

  function Pow10(k: nat): (p: nat)
    ensures p >= 1
  {
    if k == 0 then 1 else 10 * Pow10(k - 1)
  }

  function DigitVal(c: char): (d: nat)
    requires IsDigit(c)
    ensures d < 10
  {
    (c as int - '0' as int) as nat
  }

  function DigitChar(d: nat): (c: char)
    requires d < 10
    ensures IsDigit(c) && DigitVal(c) == d
  {
    ('0' as int + d) as char
  }

  /** Python's `int(s)` for a string of ASCII digits (the empty string denotes 0 here). */
  function NatOf(s: string): nat
    requires AllDigits(s)
  {
    if s == [] then 0 else 10 * NatOf(s[..|s| - 1]) + DigitVal(s[|s| - 1])
  }

  /** Python's `str(n)` for a natural number. */
  function NatToString(n: nat): (s: string)
    ensures IsDigitString(s)
  {
    if n < 10 then [DigitChar(n)] else NatToString(n / 10) + [DigitChar(n % 10)]
  }

  /** The form `str(int(s))` gives: digits, and no leading zero unless the number is 0. */
  predicate Canonical(s: string) {
    IsDigitString(s) && (s[0] == '0' ==> |s| == 1)
  }

  lemma {:induction false} NatOfNatToString(n: nat)
    ensures NatOf(NatToString(n)) == n
  {
    var s := NatToString(n);
    if n >= 10 {
      assert s[..|s| - 1] == NatToString(n / 10);
      NatOfNatToString(n / 10);
    }
  }

  lemma {:induction false} NatToStringCanonical(n: nat)
    ensures Canonical(NatToString(n))
  {
    if n >= 10 {
      NatToStringCanonical(n / 10);
      var p := NatToString(n / 10);
      assert NatToString(n)[0] == p[0];
      NatOfNatToString(n / 10);
      assert NatOf("0") == 0 by { assert "0"[..0] == ""; }
      assert p[0] == '0' ==> p == "0";
    }
  }

  /** `str` is injective on naturals. */
  lemma NatToStringInjective(m: nat, n: nat)
    requires NatToString(m) == NatToString(n)
    ensures m == n
  {
    NatOfNatToString(m);
    NatOfNatToString(n);
  }

  lemma {:induction false} NatOfAppend(a: string, b: string)
    requires AllDigits(a) && AllDigits(b)
    ensures NatOf(a + b) == NatOf(a) * Pow10(|b|) + NatOf(b)
    decreases |b|
  {
    if b == [] {
      assert a + b == a;
    } else {
      var ab := a + b;
      assert ab[..|ab| - 1] == a + b[..|b| - 1];
      assert ab[|ab| - 1] == b[|b| - 1];
      var b', d := b[..|b| - 1], DigitVal(b[|b| - 1]);
      NatOfAppend(a, b');
      assert NatOf(ab) == 10 * (NatOf(a) * Pow10(|b'|) + NatOf(b')) + d;
      assert Pow10(|b|) == 10 * Pow10(|b'|);
      MulAssoc(NatOf(a), Pow10(|b'|));
    }
  }

  lemma MulAssoc(x: nat, y: nat)
    ensures 10 * (x * y) == x * (10 * y)
  {
  }

  lemma NatOfBound(s: string)
    requires AllDigits(s)
    ensures NatOf(s) < Pow10(|s|)
  {
    if s != [] {
      NatOfBound(s[..|s| - 1]);
    }
  }

  /** A canonical string of two or more digits denotes at least ten to the power of its length minus one. */
  lemma {:induction false} CanonicalLowerBound(s: string)
    requires Canonical(s)
    ensures NatOf(s) >= Pow10(|s| - 1) || s == "0"
  {
    if |s| == 1 {
      assert Pow10(0) == 1;
      if s[0] != '0' { assert NatOf(s) == DigitVal(s[0]) >= 1; }
      else { assert s == "0"; }
    } else {
      var p := s[..|s| - 1];
      assert p[0] == s[0] && p[0] != '0';
      CanonicalLowerBound(p);
    }
  }

  /** `str(int(s)) == s` for a canonical digit string. */
  lemma {:induction false} NatToStringNatOf(s: string)
    requires Canonical(s)
    ensures NatToString(NatOf(s)) == s
    decreases |s|
  {
    if |s| == 1 {
      assert NatOf(s) == DigitVal(s[0]);
      assert NatToString(NatOf(s)) == [s[0]];
    } else {
      var p := s[..|s| - 1];
      assert p[0] == s[0] && p[0] != '0';
      assert Canonical(p);
      CanonicalLowerBound(p);
      assert Pow10(|p| - 1) >= 1;
      var n := NatOf(s);
      assert n == 10 * NatOf(p) + DigitVal(s[|s| - 1]);
      assert n / 10 == NatOf(p) && n % 10 == DigitVal(s[|s| - 1]);
      assert n >= 10;
      NatToStringNatOf(p);
      assert DigitChar(n % 10) == s[|s| - 1];
      assert s == p + [s[|s| - 1]];
    }
  }

  /** Leading zeros do not change the value. */
  lemma LeadingZeroValue(s: string)
    requires AllDigits(s)
    ensures NatOf("0" + s) == NatOf(s)
  {
    NatOfAppend("0", s);
    assert NatOf("0") == 0 by { assert "0"[..0] == ""; }
  }

  /** Python's `f"{n:02d}"`: at least two digits, zero-padded. */
  function Pad2(n: nat): (s: string)
    ensures IsDigitString(s) && |s| >= 2
    ensures NatOf(s) == n
  {
    NatOfNatToString(n);
    if n < 10 then
      LeadingZeroValue(NatToString(n));
      "0" + NatToString(n)
    else
      NatToString(n)
  }

  lemma Pad2Injective(m: nat, n: nat)
    requires Pad2(m) == Pad2(n)
    ensures m == n
  {
  }

  lemma NatOf1(s: string)
    requires |s| == 1 && AllDigits(s)
    ensures NatOf(s) == DigitVal(s[0])
  {
    assert s[..0] == [];
  }

  lemma NatOf2(s: string)
    requires |s| == 2 && AllDigits(s)
    ensures NatOf(s) == 10 * DigitVal(s[0]) + DigitVal(s[1])
  {
    NatOf1(s[..1]);
  }

  lemma NatOf3(s: string)
    requires |s| == 3 && AllDigits(s)
    ensures NatOf(s) == 100 * DigitVal(s[0]) + 10 * DigitVal(s[1]) + DigitVal(s[2])
  {
    NatOf2(s[..2]);
  }
}
