/**
 * The record keys the three extractors build: the leading-zero stripping of
 * item numbers, the `po_line` key the open tables are unique on, the integer
 * `line` and the synthetic MagicFX part number.
 */
module Keys {
  import opened Wrappers
  import opened Text
  import opened Digits

  /** `remove_leading_zeros`: an all-digit string in the form `str(int(value))`, anything else unchanged. */
  function RemoveLeadingZeros(value: string): (r: string)
    ensures IsDigitString(value) ==> Canonical(r) && NatOf(r) == NatOf(value)
    ensures !IsDigitString(value) ==> r == value
  {
    if value == [] then value
    else if IsDigitString(value) then
      NatToStringCanonical(NatOf(value));
      NatOfNatToString(NatOf(value));
      NatToString(NatOf(value))
    else value
  }

  /** Stripping twice strips no more than once. */
  lemma RemoveLeadingZerosIdempotent(value: string)
    ensures RemoveLeadingZeros(RemoveLeadingZeros(value)) == RemoveLeadingZeros(value)
  {
    if IsDigitString(value) {
      NatToStringNatOf(RemoveLeadingZeros(value));
    }
  }

  /** A canonical number is left as it is. */
  lemma RemoveLeadingZerosCanonical(value: string)
    requires Canonical(value)
    ensures RemoveLeadingZeros(value) == value
  {
    NatToStringNatOf(value);
  }

  /** Two item numbers get the same stripped form exactly when they denote the same number. */
  lemma RemoveLeadingZerosSame(a: string, b: string)
    requires IsDigitString(a) && IsDigitString(b)
    ensures RemoveLeadingZeros(a) == RemoveLeadingZeros(b) <==> NatOf(a) == NatOf(b)
  {
  }

  /** "00030" becomes "30". */
  lemma RemoveLeadingZerosExample(value: string, stripped: string)
    requires value == "00030" && stripped == "30"
    ensures RemoveLeadingZeros(value) == stripped
  {
    var t := value[3..];
    assert value == "0" + ("0" + ("0" + t));
    LeadingZeroValue("0" + ("0" + t));
    LeadingZeroValue("0" + t);
    LeadingZeroValue(t);
    NatOf2(t);
    assert NatToString(30) == NatToString(3) + [DigitChar(0)];
  }

  /** Two keys `p + x` and `p + y` with the same prefix are equal only when `x == y`. */
  lemma PrefixCancel(p: string, x: string, y: string)
    requires p + x == p + y
    ensures x == y
  {
    assert x == (p + x)[|p|..];
    assert y == (p + y)[|p|..];
  }

  /** A key `p + [c] + x` splits on `c` back into `p` and `x` when neither part holds a `c`. */
  lemma SplitKey(p: string, c: char, x: string)
    ensures c !in p && c !in x ==> SplitOn(p + [c] + x, c) == [p, x]
  {
    if c !in p && c !in x {
      var s := p + [c] + x;
      assert s[..|p|] == p && s[|p|] == c && s[|p| + 1..] == x;
    }
  }

  /** A digit string holds no separator. */
  lemma DigitsHoldNo(s: string, c: char)
    requires AllDigits(s) && !IsDigit(c)
    ensures c !in s
  {
  }

  /**
   * The Wefabricate `po_line`: "{po}/{item}" when both are present, else the
   * item or the ID. A slash-free order number and item can be read back from
   * the key, and the key has a slash only in that case.
   */
  function WfPoLine(po: string, itemNoZero: string, idPart: string): (r: string)
    ensures '/' !in po && '/' !in itemNoZero && '/' !in idPart ==>
      ('/' in r <==> po != [] && itemNoZero != [])
    ensures po != [] && itemNoZero != [] && '/' !in po && '/' !in itemNoZero ==>
      SplitOn(r, '/') == [po, itemNoZero]
  {
    SplitKey(po, '/', itemNoZero);
    if itemNoZero != [] && po != [] then
      assert (po + "/" + itemNoZero)[|po|] == '/';
      po + "/" + itemNoZero
    else if itemNoZero != [] then itemNoZero
    else idPart
  }

  /**
   * `int(s) if s.isdigit() else None`, the Wefabricate and Centurion `line`:
   * defined on digit strings, where it prints back as the string without its
   * leading zeros.
   */
  function LineOf(s: string): (r: Option<nat>)
    ensures r.Some? <==> IsDigitString(s)
    ensures r.Some? ==> NatToString(r.value) == RemoveLeadingZeros(s)
  {
    if IsDigitString(s) then Some(NatOf(s)) else None
  }

  /** The `line` of a stripped item number prints back as that item number. */
  lemma LineOfStripped(item: string)
    requires IsDigitString(item)
    ensures LineOf(RemoveLeadingZeros(item)).Some?
    ensures NatToString(LineOf(RemoveLeadingZeros(item)).value) == RemoveLeadingZeros(item)
  {
    NatToStringNatOf(RemoveLeadingZeros(item));
  }

  /** On one order, two rows whose item numbers differ as numbers get different `po_line` keys. */
  lemma WfPoLineInjective(po: string, a: string, b: string, idA: string, idB: string)
    requires po != [] && IsDigitString(a) && IsDigitString(b) && NatOf(a) != NatOf(b)
    ensures WfPoLine(po, RemoveLeadingZeros(a), idA) != WfPoLine(po, RemoveLeadingZeros(b), idB)
  {
    var x, y := RemoveLeadingZeros(a), RemoveLeadingZeros(b);
    if WfPoLine(po, x, idA) == WfPoLine(po, y, idB) {
      assert po + "/" + x == (po + "/") + x && po + "/" + y == (po + "/") + y;
      PrefixCancel(po + "/", x, y);
    }
  }

  /**
   * The Centurion `po_line`: "{po}/{line}" when both are present, else None.
   * A present key splits back into the order number and the line number.
   */
  function CenturionPoLine(po: string, lineNumber: string): (r: Option<string>)
    ensures r.Some? <==> po != [] && lineNumber != []
    ensures r.Some? && '/' !in po && '/' !in lineNumber ==> SplitOn(r.value, '/') == [po, lineNumber]
  {
    SplitKey(po, '/', lineNumber);
    if po != [] && lineNumber != [] then Some(po + "/" + lineNumber) else None
  }

  /**
   * The MagicFX `po_line`: "{po}/{line}", or `str(line)` without a PO number.
   * Either way the line number can be read back from the key.
   */
  function MagicFxPoLine(po: string, line: nat): (r: string)
    ensures po != [] && '/' !in po ==> SplitOn(r, '/') == [po, NatToString(line)]
    ensures po == [] ==> Canonical(r) && NatOf(r) == line
  {
    SplitKey(po, '/', NatToString(line));
    DigitsHoldNo(NatToString(line), '/');
    NatToStringCanonical(line);
    NatOfNatToString(line);
    if po != [] then po + "/" + NatToString(line) else NatToString(line)
  }

  /**
   * The synthetic MagicFX part number: "{po}-{line:02d}", or "MFX-{line:02d}".
   * It splits on "-" into the prefix and a digit string that reads as the line.
   */
  function MagicFxPn(po: string, line: nat): (r: string)
    ensures '-' !in po ==>
      var parts := SplitOn(r, '-');
      |parts| == 2 && parts[0] == (if po != [] then po else "MFX")
      && IsDigitString(parts[1]) && NatOf(parts[1]) == line
  {
    var p := if po != [] then po else "MFX";
    SplitKey(p, '-', Pad2(line));
    DigitsHoldNo(Pad2(line), '-');
    assert "MFX-" + Pad2(line) == "MFX" + ['-'] + Pad2(line);
    if po != [] then po + "-" + Pad2(line) else "MFX-" + Pad2(line)
  }

  /** On one order, different line numbers give different `po_line` keys. */
  lemma MagicFxPoLineInjective(po: string, m: nat, n: nat)
    requires m != n
    ensures MagicFxPoLine(po, m) != MagicFxPoLine(po, n)
  {
    var x, y := NatToString(m), NatToString(n);
    if MagicFxPoLine(po, m) == MagicFxPoLine(po, n) {
      if po != [] {
        assert po + "/" + x == (po + "/") + x && po + "/" + y == (po + "/") + y;
        PrefixCancel(po + "/", x, y);
      }
      NatToStringInjective(m, n);
    }
  }

  /** On one order, different line numbers give different part numbers. */
  lemma MagicFxPnInjective(po: string, m: nat, n: nat)
    requires m != n
    ensures MagicFxPn(po, m) != MagicFxPn(po, n)
  {
    var x, y := Pad2(m), Pad2(n);
    if MagicFxPn(po, m) == MagicFxPn(po, n) {
      var p := if po != [] then po + "-" else "MFX-";
      assert MagicFxPn(po, m) == p + x && MagicFxPn(po, n) == p + y;
      PrefixCancel(p, x, y);
      Pad2Injective(m, n);
    }
  }
}
