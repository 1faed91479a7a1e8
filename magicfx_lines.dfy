/**
 * What the MagicFX patterns read from typical lines: the order number after
 * its label, the two item codes, a quantity with or without its "pc"/"pcs"
 * unit and the two prices, a whole one-line item, and the values the
 * European-locale rewrite gives the amounts. Also the quantity cell of the
 * table path, where the unit removal as written keeps the "s" of "pcs".
 */
module MagicFxLines {
  import opened Wrappers
  import opened Text
  import opened Digits
  import opened Numeric
  import opened Tables
  import opened MagicFxPatterns
  import opened MagicFx

  // ---------------------------------------------------------------------------
  // Runs over concatenations

  lemma {:induction false} SpaceRunAppend(a: string, b: string)
    requires forall i :: 0 <= i < |a| ==> IsSpace(a[i])
    requires b != [] ==> !IsSpace(b[0])
    ensures SpaceRun(a + b) == |a|
  {
    if a != [] {
      assert (a + b)[1..] == a[1..] + b;
      SpaceRunAppend(a[1..], b);
    }
  }

  lemma {:induction false} NumRunAppend(a: string, b: string)
    requires AllNumChars(a)
    requires b != [] ==> !IsNumChar(b[0])
    ensures NumRun(a + b) == |a|
  {
    if a != [] {
      assert (a + b)[1..] == a[1..] + b;
      NumRunAppend(a[1..], b);
    }
  }

  /** One space in front of a text that does not start with whitespace. */
  lemma OneSpace(b: string)
    requires b != [] ==> !IsSpace(b[0])
    ensures SpaceRun(" " + b) == 1 && (" " + b)[1..] == b
  {
    SpaceRunAppend(" ", b);
  }

  // ---------------------------------------------------------------------------
  // The order number

  /** The digits after the label, past any whitespace, are the order number. */
  lemma DigitsAfterLabel(tag: string, w: string, d: string, post: string)
    requires forall i :: 0 <= i < |w| ==> IsSpace(w[i])
    requires IsDigitString(d) && (post == [] || !IsDigit(post[0]))
    ensures DigitsAfter(tag + w + d + post, tag) == Some(d)
  {
    var s := tag + w + d + post;
    assert s[..|tag|] == tag;
    assert s[|tag|..] == w + (d + post);
    SpaceRunAppend(w, d + post);
    assert s[|tag|..][|w|..] == d + post;
    DigitRunAppend(d, post);
    assert (d + post)[..|d|] == d;
  }

  /** A page that starts "Purchase Order No. 4500123..." is order "4500123". */
  lemma OrderPoOf(tag: string, w: string, d: string, post: string)
    requires tag == "Purchase Order No."
    requires forall i :: 0 <= i < |w| ==> IsSpace(w[i])
    requires IsDigitString(d) && (post == [] || !IsDigit(post[0]))
    ensures OrderPo(tag + w + d + post) == d
  {
    DigitsAfterLabel(tag, w, d, post);
  }

  // ---------------------------------------------------------------------------
  // Item codes and amounts

  /** "VARIOUS VARIOUS ..." starts with two item codes, ending after the second. */
  lemma CodePairVarious(c: string, rest: string)
    requires c == "VARIOUS"
    ensures CodePair(c + " " + c + rest) == Some(PairEnd(|c|, 1, |c|))
  {
    var s := c + " " + c + rest;
    assert s[0] == 'V' && s[..7] == c;
    assert !StartsWith(s, "PROTO");
    assert CodeAt(s) == Some(7);
    assert s[7..] == " " + (c + rest);
    OneSpace(c + rest);
    var t := c + rest;
    assert s[7 + 1..] == t;
    assert t[0] == 'V' && t[..7] == c;
    assert !StartsWith(t, "PROTO");
    assert CodeAt(t) == Some(7);
  }

  /** Two prices separated by one space: `([\d.,]+)\s+([\d.,]+)$`. */
  lemma PricePairOf(n: string, t: string)
    requires n != [] && AllNumChars(n) && t != [] && AllNumChars(t)
    ensures PricePair(n + " " + t) == Some((n, t))
  {
    var s := n + (" " + t);
    assert n + " " + t == s;
    NumRunAppend(n, " " + t);
    assert s[|n|..] == " " + t;
    OneSpace(t);
    NumRunAppend(t, []);
    assert t + [] == t;
    assert s[..|n|] == n;
  }

  /** A single space before the prices when there is no unit. */
  lemma UnitEndSpace(p: string)
    requires p != [] && IsNumChar(p[0])
    ensures UnitEnd(" " + p) == Some(1)
  {
    OneSpace(p);
    assert !PcAt(p) && !PcsAt(p);
  }

  /** A unit "pc" between single spaces. */
  lemma UnitEndPc(unit: string, p: string)
    requires unit == "pc" && p != [] && IsNumChar(p[0])
    ensures UnitEnd(" " + unit + " " + p) == Some(1 + |unit| + 1)
  {
    var v := unit + " " + p;
    assert " " + unit + " " + p == " " + v;
    OneSpace(v);
    assert PcAt(v) && v[2..] == " " + p;
    OneSpace(p);
  }

  /** A unit "pcs" between single spaces: "pc" is tried first and fails on the "s". */
  lemma UnitEndPcs(unit: string, p: string)
    requires unit == "pcs" && p != [] && IsNumChar(p[0])
    ensures UnitEnd(" " + unit + " " + p) == Some(1 + |unit| + 1)
  {
    var v := unit + " " + p;
    assert " " + unit + " " + p == " " + v;
    OneSpace(v);
    assert PcAt(v) && v[2..][0] == 's';
    assert PcsAt(v) && v[3..] == " " + p;
    OneSpace(p);
  }

  /** The quantity's digits, then whatever the unit part leaves for the prices. */
  lemma QtyPriceSplit(q: string, u: string, e: nat, n: string, t: string)
    requires IsDigitString(q) && u != [] && !IsDigit(u[0])
    requires UnitEnd(u) == Some(e) && u[e..] == n + " " + t
    requires n != [] && AllNumChars(n) && t != [] && AllNumChars(t)
    ensures QtyPrice(q + u) == Some(Amounts(q, n, t))
  {
    DigitRunAppend(q, u);
    assert (q + u)[|q|..] == u && (q + u)[..|q|] == q;
    PricePairOf(n, t);
  }

  /** `10 512,60 5126,00`: the quantity and the two prices. */
  lemma QtyPriceOf(q: string, n: string, t: string)
    requires IsDigitString(q) && n != [] && AllNumChars(n) && t != [] && AllNumChars(t)
    ensures QtyPrice(q + " " + n + " " + t) == Some(Amounts(q, n, t))
  {
    var p := n + " " + t;
    assert q + " " + n + " " + t == q + (" " + p);
    UnitEndSpace(p);
    assert (" " + p)[1..] == p;
    QtyPriceSplit(q, " " + p, 1, n, t);
  }

  /** `10 pc 512,60 5126,00` and `10 pcs 512,60 5126,00`: the unit is passed over. */
  lemma QtyPriceWithUnit(q: string, unit: string, n: string, t: string)
    requires unit == "pc" || unit == "pcs"
    requires IsDigitString(q) && n != [] && AllNumChars(n) && t != [] && AllNumChars(t)
    ensures QtyPrice(q + " " + unit + " " + n + " " + t) == Some(Amounts(q, n, t))
  {
    var p := n + " " + t;
    var u := " " + unit + " " + p;
    assert q + " " + unit + " " + n + " " + t == q + u;
    if unit == "pc" { UnitEndPc(unit, p); } else { UnitEndPcs(unit, p); }
    assert u[1 + |unit| + 1..] == p;
    QtyPriceSplit(q, u, 1 + |unit| + 1, n, t);
  }

  // ---------------------------------------------------------------------------
  // A whole one-line item

  /** A description end inside a digit-free description is not where the date follows. */
  lemma TailInsideDescription(d: string, tail: string, k: nat)
    requires d != [] && NoDigit(d) && !IsSpace(d[|d| - 1])
    requires 1 <= k < |d|
    ensures TailAt(d + tail, k) == None
  {
    var s := d + tail;
    var w := SpaceRun(s[k..]);
    assert s[k..][|d| - 1 - k] == d[|d| - 1];
    assert w <= |d| - 1 - k;
    if w > 0 {
      var t := s[k..][w..];
      assert t[0] == d[k + w];
    }
  }

  /** The first `n` characters of `s` hold no digit, stated one character at a time. */
  ghost predicate DigitFreeUpTo(s: string, n: nat)
    requires n <= |s|
  {
    n == 0 || (!IsDigit(s[n - 1]) && DigitFreeUpTo(s, n - 1))
  }

  /** A digit-free prefix, restated one character at a time. */
  lemma {:induction false} DigitFreeUpToOf(s: string, n: nat)
    requires n <= |s| && NoDigit(s[..n])
    ensures DigitFreeUpTo(s, n)
  {
    if n > 0 {
      assert s[..n - 1] == s[..n][..n - 1];
      assert s[..n][n - 1] == s[n - 1];
      DigitFreeUpToOf(s, n - 1);
    }
  }

  /** And back: a prefix free of digits one character at a time is digit-free. */
  lemma {:induction false} NoDigitOfDigitFreeUpTo(s: string, n: nat)
    requires n <= |s| && DigitFreeUpTo(s, n)
    ensures NoDigit(s[..n])
  {
    if n > 0 {
      NoDigitOfDigitFreeUpTo(s, n - 1);
      assert s[..n] == s[..n - 1] + [s[n - 1]];
    }
  }

  /** From `k` up to the end `n` of a digit-free description the lazy search finds no tail. */
  lemma {:induction false} SingleFromSkips(s: string, n: nat, k: nat)
    requires 1 <= k <= n <= |s| && DigitFreeUpTo(s, n) && !IsSpace(s[n - 1])
    ensures SingleFrom(s, k) == SingleFrom(s, n)
    decreases n - k
  {
    if k < n {
      var m := SingleFromNext(s, n, k);
      SingleFromSkips(s, n, m);
    }
  }

  /** Inside the description no tail starts, so the search moves on to the next position `m`. */
  lemma SingleFromNext(s: string, n: nat, k: nat) returns (m: nat)
    requires 1 <= k < n <= |s| && DigitFreeUpTo(s, n) && !IsSpace(s[n - 1])
    ensures k < m <= n && SingleFrom(s, k) == SingleFrom(s, m)
  {
    m := k + 1;
    NoTailInside(s, n, k);
    SingleFromPasses(s, k, m);
  }

  /** Where no tail starts at `k`, the lazy search moves on to `m`, the next position. */
  lemma SingleFromPasses(s: string, k: nat, m: nat)
    requires 1 <= k < |s| && TailAt(s, k) == None && m == k + 1
    ensures SingleFrom(s, k) == SingleFrom(s, m)
  {
    SingleFromUnfolds(s, k);
  }

  /** One unfolding of the lazy search where no tail starts. */
  lemma SingleFromUnfolds(s: string, k: nat)
    requires 1 <= k < |s| && TailAt(s, k) == None
    ensures SingleFrom(s, k) == SingleFrom(s, k + 1)
  {
  }

  /** No tail starts at a position inside the description. */
  lemma NoTailInside(s: string, n: nat, k: nat)
    requires 1 <= k < n <= |s| && DigitFreeUpTo(s, n) && !IsSpace(s[n - 1])
    ensures TailAt(s, k) == None
  {
    NoDigitOfDigitFreeUpTo(s, n);
    var d := s[..n];
    assert d + s[n..] == s;
    assert d[|d| - 1] == s[n - 1];
    TailInsideDescription(d, s[n..], k);
  }

  /** The lazy search passes over the whole of a digit-free description. */
  lemma DescriptionSkipped(d: string, tail: string)
    requires d != [] && NoDigit(d) && !IsSpace(d[|d| - 1])
    ensures SingleFrom(d + tail, 1) == SingleFrom(d + tail, |d|)
  {
    var s, n := d + tail, |d|;
    assert s[..n] == d;
    DigitFreeUpToOf(s, n);
    SingleFromSkips(s, n, 1);
  }

  /** The amounts start with the quantity's first digit. */
  lemma QtyPriceStartsWithDigit(rest: string)
    requires QtyPrice(rest).Some?
    ensures rest != [] && IsDigit(rest[0])
  {
    assert DigitRun(rest) > 0;
    assert rest[..DigitRun(rest)][0] == rest[0];
  }

  /** A date and its amounts, each after one space. */
  lemma DateAndAmounts(date: string, rest: string)
    requires DateAt(date) && |date| == 10 && rest != [] && IsDigit(rest[0])
    ensures DateAt(date + " " + rest) && (date + " " + rest)[..10] == date
    ensures SpaceRun((date + " " + rest)[10..]) == 1 && (date + " " + rest)[10..][1..] == rest
  {
    var t := date + " " + rest;
    assert t[..10] == date && t[6..10] == date[6..10];
    assert t[10..] == " " + rest;
    OneSpace(rest);
  }

  /** The date and amounts after one space at `k`. */
  lemma TailAtOf(s: string, k: nat, date: string, rest: string, a: Amounts)
    requires DateAt(date) && |date| == 10 && QtyPrice(rest) == Some(a)
    requires k <= |s| && s[k..] == " " + (date + " " + rest)
    ensures TailAt(s, k) == Some((date, a))
  {
    OneSpace(date + " " + rest);
    QtyPriceStartsWithDigit(rest);
    DateAndAmounts(date, rest);
  }

  lemma ItemLineShape(d: string, date: string, rest: string)
    ensures d + " " + date + " " + rest == d + (" " + (date + " " + rest))
    ensures (d + (" " + (date + " " + rest)))[..|d|] == d
    ensures (d + (" " + (date + " " + rest)))[|d|..] == " " + (date + " " + rest)
  {
  }

  /**
   * `Widget Large 01-02-2024 10 pcs 512,60 5126,00`: for a description without
   * digits the lazy group stops right before the date.
   */
  lemma SingleLineOf(d: string, date: string, rest: string, a: Amounts)
    requires d != [] && NoDigit(d) && !IsSpace(d[0]) && !IsSpace(d[|d| - 1])
    requires DateAt(date) && |date| == 10 && QtyPrice(rest) == Some(a)
    ensures SingleLine(d + " " + date + " " + rest) == Some(ItemGroups(d, date, a))
  {
    var tail := " " + (date + " " + rest);
    ItemLineShape(d, date, rest);
    DescriptionSkipped(d, tail);
    TailAtOf(d + tail, |d|, date, rest, a);
    StripNoSpace(d);
  }

  // ---------------------------------------------------------------------------
  // What the European rewrite makes of the text amounts

  /** A whole quantity reads as its number. */
  lemma TextQtyValue(q: string)
    requires IsDigitString(q)
    ensures ParseDecimal(EuToUs(q)) == Some(NatOf(q) as real)
  {
    DigitsKeptWithoutPoint(q);
    ReplaceCharAbsent(q, ',', '.');
    WholeNumeral(q);
    ParseDecimalOfNumeral(q);
  }

  /** A price `a,c` with the euro sign in front reads as `a.c`. */
  lemma TextPriceValue(a: string, c: string)
    requires IsDigitString(a) && AllDigits(c)
    ensures ParseDecimal("€" + EuToUs(a + "," + c)) == Some(PointValue(a, c))
  {
    EuToUsDecimalComma(a, c);
    ParseDecimalDropLeading('€', EuToUs(a + "," + c));
  }

  /** A price `a.b,c` with thousands group `b` and the euro sign in front reads as `ab.c`. */
  lemma TextGroupedPriceValue(a: string, b: string, c: string)
    requires IsDigitString(a) && AllDigits(b) && AllDigits(c)
    ensures AllDigits(a + b)
    ensures ParseDecimal("€" + EuToUs(a + "." + b + "," + c)) == Some(PointValue(a + b, c))
  {
    EuToUsGrouped(a, b, c);
    ParseDecimalDropLeading('€', EuToUs(a + "." + b + "," + c));
  }

  /** Every record of the text path has a quantity: the item's whole number. */
  lemma TextRecordQty(ctx: Context, n: nat, g: ItemGroups)
    requires IsDigitString(g.amounts.qty)
    ensures TextRecord(ctx, n, g).qty == Some(NatOf(g.amounts.qty) as real)
  {
    TextQtyValue(g.amounts.qty);
  }

  // ---------------------------------------------------------------------------
  // The quantity cell of the table path

  /** A text starting with a digit does not start with a unit. */
  lemma DigitNotUnit(s: string)
    requires s != [] && IsDigit(s[0])
    ensures !PcAtNoCase(s) && !PcsAtNoCase(s)
  {
    assert Lower(s[0]) == s[0];
  }

  lemma {:induction false} ScrubAsWrittenDigits(d: string, u: string)
    requires AllDigits(d)
    ensures ScrubAsWritten(d + u) == d + ScrubAsWritten(u)
    decreases |d|
  {
    if d != [] {
      assert (d + u)[1..] == d[1..] + u;
      DigitNotUnit(d + u);
      ScrubAsWrittenDigits(d[1..], u);
      assert d == [d[0]] + d[1..];
    } else {
      assert d + u == u;
    }
  }

  lemma ScrubUnitDigit(c: char, u: string)
    requires IsDigit(c)
    ensures ScrubUnit([c] + u) == [c] + ScrubUnit(u)
  {
    DigitNotUnit([c] + u);
    assert ([c] + u)[1..] == u;
  }

  lemma {:induction false} ScrubUnitDigits(d: string, u: string)
    requires AllDigits(d)
    ensures ScrubUnit(d + u) == d + ScrubUnit(u)
    decreases |d|
  {
    if d != [] {
      var c, e := d[0], d[1..];
      assert d == [c] + e;
      assert d + u == [c] + (e + u);
      ScrubUnitDigit(c, e + u);
      ScrubUnitDigits(e, u);
      var x := ScrubUnit(u);
      assert [c] + (e + x) == ([c] + e) + x;
    } else {
      assert d + u == u;
    }
  }

  /** A quantity text followed by an unknown letter is not a number. */
  lemma TrailingLetterNoNumber(d: string, s: string)
    requires IsDigitString(d) && s == "s"
    ensures ParseDecimal(d + s) == None
  {
    var t := d + s;
    WithoutNothingToDrop(t, DecimalNoise);
    assert t[|t| - 1] == 's';
    StripNoSpace(t);
    DigitRunAppend(d, s);
  }

  /**
   * As written, `re.sub(r'\s*(pc|pcs)?\s*', '', "10 pcs", flags=re.IGNORECASE)`
   * removes the space and "pc" but keeps the "s": the cell reads "10s", which
   * `parse_decimal` rejects, so the row's quantity is lost.
   */
  lemma ScrubAsWrittenKeepsS(d: string, u: string)
    requires IsDigitString(d) && u == " pcs"
    ensures ScrubAsWritten(d + u) == d + "s"
    ensures ParseDecimal(ScrubAsWritten(d + u)) == None
  {
    ScrubAsWrittenDigits(d, u);
    assert u[1..] == "pcs" && "pcs"[2..] == "s";
    assert PcAtNoCase("pcs");
    assert ScrubAsWritten("s") == "s" + ScrubAsWritten("s"[1..]);
    TrailingLetterNoNumber(d, "s");
  }

  /** As written, a table row whose quantity cell reads "d pcs" gets a record without a quantity. */
  lemma PcsCellNoQuantity(ctx: Context, n: nat, row: Row, d: string)
    requires RowFieldsOf(row).Some? && IsDigitString(d) && Strip(Cell(row, 5)) == d + " pcs"
    ensures TableRecord(ctx, n, RowFieldsOf(row).value).qty == None
  {
    ScrubAsWrittenKeepsS(d, " pcs");
  }

  /** The unit suffixes the intended scrub removes entirely. */
  lemma UnitScrubbed(u: string)
    requires u == " pcs" || u == " pc" || u == " PCS" || u == ""
    ensures ScrubUnit(u) == []
  {
    if u != "" {
      var w := u[1..];
      assert w == "pcs" || w == "pc" || w == "PCS";
      assert ScrubUnit(u) == ScrubUnit(w);
      assert w != [] && !IsSpace(w[0]);
      if w == "pc" {
        assert !PcsAtNoCase(w) && PcAtNoCase(w);
        assert w[2..] == [];
        assert ScrubUnit(w) == ScrubUnit(w[2..]);
      } else {
        assert PcsAtNoCase(w);
        assert w[3..] == [];
        assert ScrubUnit(w) == ScrubUnit(w[3..]);
      }
    }
  }

  /** With the whole unit removed, "10 pcs" reads as the quantity 10. */
  lemma ScrubUnitQuantity(d: string, u: string)
    requires IsDigitString(d) && (u == " pcs" || u == " pc" || u == " PCS" || u == "")
    ensures ScrubUnit(d + u) == d
    ensures ParseDecimal(ScrubUnit(Strip(d + u))) == Some(NatOf(d) as real)
  {
    ScrubUnitDigits(d, u);
    UnitScrubbed(u);
    assert d + [] == d;
    var t := d + u;
    assert t[|t| - 1] == (if u == "" then d[|d| - 1] else u[|u| - 1]);
    StripNoSpace(t);
    WholeNumeral(d);
    ParseDecimalOfNumeral(d);
  }

  /** Where no "pcs" occurs, the unit removal as written and as intended agree. */
  lemma {:induction false} ScrubAgree(s: string)
    requires forall i :: 0 <= i <= |s| ==> !PcsAtNoCase(s[i..])
    ensures ScrubUnit(s) == ScrubAsWritten(s)
    decreases |s|
  {
    if s != [] {
      assert !PcsAtNoCase(s[0..]) && s[0..] == s;
      var k := if IsSpace(s[0]) then 1 else if PcAtNoCase(s) then 2 else 1;
      forall i | 0 <= i <= |s[k..]|
        ensures !PcsAtNoCase(s[k..][i..])
      {
        assert s[k..][i..] == s[k + i..];
      }
      ScrubAgree(s[k..]);
    }
  }
}
