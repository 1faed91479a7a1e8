/**
 * `parse_magic_fx_line`: one MagicFX item block turned into a record. The two
 * regular expressions it tries (a full one with lazy, whitespace-tolerant
 * amount groups, then a description-and-date one) are given as their match:
 * the groups of the first, the groups and the text after the second, or no
 * match. What the function does with the groups is modelled: stripping,
 * the `[\d.,]+` fallback, removing whitespace, the required fields, the
 * European rewrite and the record's keys.
 */
module MagicFxBlock {
  import opened Wrappers
  import opened Text
  import opened Digits
  import opened Numeric
  import opened Keys
  import opened Dates
  import opened Records
  import opened MagicFxPatterns
  import opened MagicFxLines

  /** What the two patterns find in a block. */
  datatype BlockMatch =
    | FullMatch(description: string, date: string, qty: string, netPrice: string, totalPrice: string)
    | DateMatch(description: string, date: string, rest: string)
    | NoMatch

  /** The raw fields of a block: description, date and the three amounts. */
  datatype BlockFields = BlockFields(description: string, date: string, qty: string, netPrice: string, totalPrice: string)

  /** The groups of the full pattern, or the description, date and first three numbers after the short one. */
  function BlockFieldsOf(m: BlockMatch): (r: Option<BlockFields>)
    ensures m.NoMatch? ==> r.None?
    ensures m.FullMatch? ==> r.Some?
    ensures m.DateMatch? ==> (r.Some? <==> |Numbers(Strip(m.rest))| >= 3)
  {
    match m
    case FullMatch(d, date, q, n, t) => Some(BlockFields(Strip(d), date, Strip(q), Strip(n), Strip(t)))
    case DateMatch(d, date, rest) =>
      var ns := Numbers(Strip(rest));
      if |ns| >= 3 then Some(BlockFields(Strip(d), date, ns[0], ns[1], ns[2])) else None
    case NoMatch => None
  }

  /** The record of block number `lineNumber`, or None when the block lacks a description, quantity or price. */
  function ParseMagicFxLine(m: BlockMatch, lineNumber: nat, po: string, poPlacedDate: Option<Date>,
                            parseDate: DateParser): (r: Option<OrderRecord>)
    ensures r.Some? ==> (r.value.po == po && r.value.pn == "N/A" && r.value.line == Some(lineNumber)
      && r.value.poLine == Some(MagicFxPoLine(po, lineNumber)) && r.value.description != []
      && r.value.poPlacedDate == poPlacedDate && r.value.purchaser == None)
    ensures r.Some? <==> (BlockFieldsOf(m).Some? && FieldsComplete(BlockFieldsOf(m).value))
  {
    match BlockFieldsOf(m)
    case None => None
    case Some(f) => FieldsRecord(f, lineNumber, po, poPlacedDate, parseDate)
  }

  /** `if not description or not qty_str or not net_price_str: return None`, after whitespace removal. */
  predicate FieldsComplete(f: BlockFields) {
    f.description != [] && NoSpace(f.qty) != [] && NoSpace(f.netPrice) != []
  }

  /** The record made of a block's fields. */
  function FieldsRecord(f: BlockFields, lineNumber: nat, po: string, poPlacedDate: Option<Date>,
                        parseDate: DateParser): (r: Option<OrderRecord>)
    ensures r.Some? <==> FieldsComplete(f)
  {
    var qty, netPrice, totalPrice := NoSpace(f.qty), NoSpace(f.netPrice), NoSpace(f.totalPrice);
    if f.description == [] || qty == [] || netPrice == [] then None
    else
      Some(OrderRecord(po, "N/A", Some(lineNumber), Some(MagicFxPoLine(po, lineNumber)), f.description,
        ParseDecimal(EuToUs(qty)), ParseDecimal("€" + EuToUs(netPrice)), ParseDecimal("€" + EuToUs(totalPrice)),
        parseDate(f.date), poPlacedDate, None))
  }

  /** A text without whitespace loses nothing when whitespace is removed. */
  lemma {:induction false} NoSpaceKeeps(s: string)
    requires forall i :: 0 <= i < |s| ==> !IsSpace(s[i])
    ensures NoSpace(s) == s
    decreases |s|
  {
    if s != [] {
      NoSpaceKeeps(s[1..]);
      assert s == [s[0]] + s[1..];
    }
  }

  /**
   * A full match whose amounts are whole quantity `q` and prices `a,c` and
   * `b,e` in the European style: the record carries the numbers q, a.c and b.e.
   */
  lemma ParseFullMatch(m: BlockMatch, lineNumber: nat, po: string, poPlacedDate: Option<Date>, parseDate: DateParser,
                       q: string, a: string, c: string, b: string, e: string)
    requires m.FullMatch? && Strip(m.description) != []
    requires m.qty == q && m.netPrice == a + "," + c && m.totalPrice == b + "," + e
    requires IsDigitString(q) && IsDigitString(a) && AllDigits(c) && IsDigitString(b) && AllDigits(e)
    ensures ParseMagicFxLine(m, lineNumber, po, poPlacedDate, parseDate).Some?
    ensures ParseMagicFxLine(m, lineNumber, po, poPlacedDate, parseDate).value.qty == Some(NatOf(q) as real)
    ensures ParseMagicFxLine(m, lineNumber, po, poPlacedDate, parseDate).value.netPrice == Some(PointValue(a, c))
    ensures ParseMagicFxLine(m, lineNumber, po, poPlacedDate, parseDate).value.totalPrice == Some(PointValue(b, e))
  {
    CommaNumeral(a, c);
    CommaNumeral(b, e);
    assert AllNumChars(q) by { assert forall i :: 0 <= i < |q| ==> IsNumChar(q[i]); }
    BareNumeral(q);
    BareNumeral(a + "," + c);
    BareNumeral(b + "," + e);
    var f := BlockFields(Strip(m.description), m.date, q, a + "," + c, b + "," + e);
    assert BlockFieldsOf(m) == Some(f);
    FieldsValues(f, lineNumber, po, poPlacedDate, parseDate, q, a, c, b, e);
  }

  /** Fields that are bare numerals give their values. */
  lemma FieldsValues(f: BlockFields, lineNumber: nat, po: string, poPlacedDate: Option<Date>, parseDate: DateParser,
                     q: string, a: string, c: string, b: string, e: string)
    requires f.description != [] && f.qty == q && f.netPrice == a + "," + c && f.totalPrice == b + "," + e
    requires NoSpace(q) == q && NoSpace(a + "," + c) == a + "," + c && NoSpace(b + "," + e) == b + "," + e
    requires IsDigitString(q) && IsDigitString(a) && AllDigits(c) && IsDigitString(b) && AllDigits(e)
    ensures FieldsRecord(f, lineNumber, po, poPlacedDate, parseDate).Some?
    ensures FieldsRecord(f, lineNumber, po, poPlacedDate, parseDate).value.qty == Some(NatOf(q) as real)
    ensures FieldsRecord(f, lineNumber, po, poPlacedDate, parseDate).value.netPrice == Some(PointValue(a, c))
    ensures FieldsRecord(f, lineNumber, po, poPlacedDate, parseDate).value.totalPrice == Some(PointValue(b, e))
  {
    TextQtyValue(q);
    TextPriceValue(a, c);
    TextPriceValue(b, e);
  }

  /** A numeral without surrounding whitespace is kept whole by `strip()` and whitespace removal. */
  lemma BareNumeral(x: string)
    requires x != [] && AllNumChars(x)
    ensures Strip(x) == x && NoSpace(x) == x
  {
    assert forall i :: 0 <= i < |x| ==> !IsSpace(x[i]) by {
      forall i | 0 <= i < |x| ensures !IsSpace(x[i]) { assert IsNumChar(x[i]); }
    }
    StripNoSpace(x);
    NoSpaceKeeps(x);
  }

  /** `a,c` is made of `[\d.,]` characters. */
  lemma CommaNumeral(a: string, c: string)
    requires AllDigits(a) && AllDigits(c)
    ensures a + "," + c != [] && AllNumChars(a + "," + c)
  {
    var s := a + "," + c;
    forall i | 0 <= i < |s| ensures IsNumChar(s[i]) {
      if i < |a| { assert s[i] == a[i]; } else if i > |a| { assert s[i] == c[i - |a| - 1]; }
    }
  }

  /** When the short pattern matches, the first three numbers after the date are the amounts, in order. */
  lemma ParseDateMatch(m: BlockMatch, lineNumber: nat, po: string, poPlacedDate: Option<Date>, parseDate: DateParser)
    requires m.DateMatch? && Strip(m.description) != [] && |Numbers(Strip(m.rest))| >= 3
    ensures ParseMagicFxLine(m, lineNumber, po, poPlacedDate, parseDate).Some?
    ensures ParseMagicFxLine(m, lineNumber, po, poPlacedDate, parseDate).value.qty
      == ParseDecimal(EuToUs(Numbers(Strip(m.rest))[0]))
    ensures ParseMagicFxLine(m, lineNumber, po, poPlacedDate, parseDate).value.netPrice
      == ParseDecimal("€" + EuToUs(Numbers(Strip(m.rest))[1]))
  {
    var ns := Numbers(Strip(m.rest));
    forall k | 0 <= k < 3 ensures NoSpace(ns[k]) == ns[k] && ns[k] != [] {
      assert forall i :: 0 <= i < |ns[k]| ==> IsNumChar(ns[k][i]);
      NoSpaceKeeps(ns[k]);
    }
  }
}
