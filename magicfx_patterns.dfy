/**
 * The regular expressions of the MagicFX extractor, written out as the
 * matches Python's `re` finds on them. Each is deterministic once its
 * backtracking is resolved: a greedy run followed by a character it cannot
 * take is as long as it can be, and a lazy group is the shortest prefix after
 * which the rest matches.
 */
module MagicFxPatterns {
  import opened Wrappers
  import opened Text

  // ---------------------------------------------------------------------------
  // Document fields

  /** `re.search(tag + r'\s*([\d]+)', text)`: the digits after the leftmost `tag` that has some. */
  function DigitsAfter(s: string, tag: string): (r: Option<string>)
    ensures r.Some? ==> IsDigitString(r.value)
    decreases |s|
  {
    if s == [] then None
    else if StartsWith(s, tag) && DigitRun(s[|tag|..][SpaceRun(s[|tag|..])..]) > 0 then
      var t := s[|tag|..][SpaceRun(s[|tag|..])..];
      Some(t[..DigitRun(t)])
    else DigitsAfter(s[1..], tag)
  }

  /** A date `\d{2}-\d{2}-\d{4}` at the start of `s`. */
  predicate DateAt(s: string) {
    |s| >= 10 && IsDigit(s[0]) && IsDigit(s[1]) && s[2] == '-' && IsDigit(s[3]) && IsDigit(s[4])
    && s[5] == '-' && AllDigits(s[6..10])
  }

  /** `re.search(tag + r'\s+([\d]{2}-[\d]{2}-[\d]{4})', text)`: the date after the leftmost `tag` followed by one. */
  function DateAfter(s: string, tag: string): (r: Option<string>)
    ensures r.Some? ==> |r.value| == 10 && DateAt(r.value)
    decreases |s|
  {
    if s == [] then None
    else if StartsWith(s, tag) && SpaceRun(s[|tag|..]) > 0 && DateAt(s[|tag|..][SpaceRun(s[|tag|..])..]) then
      DateAtPrefix(s[|tag|..][SpaceRun(s[|tag|..])..]);
      Some(s[|tag|..][SpaceRun(s[|tag|..])..][..10])
    else DateAfter(s[1..], tag)
  }

  // ---------------------------------------------------------------------------
  // Item codes

  function ProtoEnd(w: nat, q: nat): nat {
    5 + w + q + 2
  }

  /** `PROTO\s*\([^)]*\)|VARIOUS` at the start of `s`: the length of the code, or None. */
  function CodeAt(s: string): (r: Option<nat>)
    ensures r.Some? ==> 0 < r.value <= |s|
  {
    if StartsWith(s, "PROTO") then
      var t := s[5 + SpaceRun(s[5..])..];
      if t != [] && t[0] == '(' then
        match IndexOfChar(t[1..], ')')
        case Some(q) => Some(ProtoEnd(SpaceRun(s[5..]), q))
        case None => None
      else None
    else if StartsWith(s, "VARIOUS") then Some(7)
    else None
  }

  function PairEnd(a: nat, w: nat, b: nat): nat {
    a + w + b
  }

  /** `re.match(r'(CODE)\s+(CODE)', line)`: the end of the two codes at the start of a line, or None. */
  function CodePair(s: string): (r: Option<nat>)
    ensures r.Some? ==> 0 < r.value <= |s|
  {
    match CodeAt(s)
    case None => None
    case Some(a) =>
      var w := SpaceRun(s[a..]);
      if w == 0 then None
      else
        match CodeAt(s[a + w..])
        case None => None
        case Some(b) => Some(PairEnd(a, w, b))
  }

  // ---------------------------------------------------------------------------
  // Amounts

  /** A character of `[\d.,]`. */
  predicate IsNumChar(c: char) { IsDigit(c) || c == '.' || c == ',' }

  predicate AllNumChars(s: string) { forall i :: 0 <= i < |s| ==> IsNumChar(s[i]) }

  /** The length of the longest `[\d.,]` prefix of `s`. */
  function NumRun(s: string): (k: nat)
    ensures k <= |s| && AllNumChars(s[..k])
    ensures k < |s| ==> !IsNumChar(s[k])
  {
    if s != [] && IsNumChar(s[0]) then 1 + NumRun(s[1..]) else 0
  }

  /** The groups of a quantity and its two prices. */
  datatype Amounts = Amounts(qty: string, netPrice: string, totalPrice: string)

  /** `([\d.,]+)\s+([\d.,]+)$` on the whole of `s`. */
  function PricePair(s: string): (r: Option<(string, string)>) {
    var n := NumRun(s);
    var t := s[n..];
    var w := SpaceRun(t);
    if n == 0 || w == 0 || t[w..] == [] || NumRun(t[w..]) != |t[w..]| then None
    else Some((s[..n], t[w..]))
  }

  /** The unit "pc" at the start of `s`. */
  predicate PcAt(s: string) { |s| >= 2 && s[0] == 'p' && s[1] == 'c' }

  /** The unit "pcs" at the start of `s`. */
  predicate PcsAt(s: string) { PcAt(s) && |s| >= 3 && s[2] == 's' }

  /** Where the prices start after the quantity's `\s*(?:pc|pcs)?\s+`, or None. */
  function UnitEnd(u: string): (r: Option<nat>)
    ensures r.Some? ==> r.value <= |u|
  {
    var w1 := SpaceRun(u);
    var v := u[w1..];
    if PcAt(v) && SpaceRun(v[2..]) > 0 then Some(w1 + 2 + SpaceRun(v[2..]))
    else if PcsAt(v) && SpaceRun(v[3..]) > 0 then Some(w1 + 3 + SpaceRun(v[3..]))
    else if w1 > 0 then Some(w1)
    else None
  }

  /** `re.match(r'^(\d+)\s*(?:pc|pcs)?\s+([\d.,]+)\s+([\d.,]+)$', s)`: its three groups, or None. */
  function QtyPrice(s: string): (r: Option<Amounts>)
    ensures r.Some? ==> IsDigitString(r.value.qty)
  {
    var d := DigitRun(s);
    if d == 0 then None
    else
      match UnitEnd(s[d..])
      case None => None
      case Some(e) =>
        match PricePair(s[d..][e..])
        case None => None
        case Some(p) => Some(Amounts(s[..d], p.0, p.1))
  }

  /** The groups of a whole item line: description, delivery date and amounts. */
  datatype ItemGroups = ItemGroups(description: string, date: string, amounts: Amounts)

  /** The date and amounts after a description ending at `k`: `\s+(DATE)\s+(QTY...)$`. */
  function TailAt(s: string, k: nat): (r: Option<(string, Amounts)>)
    requires k <= |s|
    ensures r.Some? ==> DateAt(r.value.0) && |r.value.0| == 10
  {
    var w := SpaceRun(s[k..]);
    var t := s[k..][w..];
    if w == 0 || !DateAt(t) || SpaceRun(t[10..]) == 0 then None
    else
      match QtyPrice(t[10..][SpaceRun(t[10..])..])
      case None => None
      case Some(a) =>
        DateAtPrefix(t);
        Some((t[..10], a))
  }

  /** The lazy `(.+?)`: the first description end `k` from `k` on where the rest of the line matches. */
  function SingleFrom(s: string, k: nat): (r: Option<ItemGroups>)
    requires 1 <= k
    ensures r.Some? ==> DateAt(r.value.date) && IsDigitString(r.value.amounts.qty)
    decreases |s| - k
  {
    if k >= |s| then None
    else
      match TailAt(s, k)
      case Some(g) => Some(ItemGroups(Strip(s[..k]), g.0, g.1))
      case None => SingleFrom(s, k + 1)
  }

  /** `re.match(r'^(.+?)\s+(DATE)\s+(\d+)\s*(?:pc|pcs)?\s+([\d.,]+)\s+([\d.,]+)$', s)`, description stripped. */
  function SingleLine(s: string): (r: Option<ItemGroups>)
    ensures r.Some? ==> DateAt(r.value.date) && IsDigitString(r.value.amounts.qty)
  {
    SingleFrom(s, 1)
  }

  /** The first ten characters of a text that starts with a date are that date. */
  lemma DateAtPrefix(s: string)
    requires DateAt(s)
    ensures DateAt(s[..10]) && |s[..10]| == 10
  {
    assert s[..10][6..10] == s[6..10];
  }

  /** `re.match(r'^(DATE)\s+', s)` and the stripped text after it: the delivery date line of an item. */
  function DateLine(s: string): (r: Option<(string, string)>)
    ensures r.Some? ==> DateAt(r.value.0) && |r.value.0| == 10
  {
    if DateAt(s) && SpaceRun(s[10..]) > 0 then
      DateAtPrefix(s);
      Some((s[..10], Strip(s[10..])))
    else None
  }

  // ---------------------------------------------------------------------------
  // Text clean-up

  /** `re.sub(r'\s+', ' ', s)`: every whitespace run becomes one space. */
  function Collapse(s: string): (r: string)
    ensures forall i :: 0 <= i < |r| && IsSpace(r[i]) ==> r[i] == ' '
    ensures r != [] <==> s != []
    ensures r != [] ==> (IsSpace(r[0]) <==> IsSpace(s[0]))
    ensures forall i :: 0 <= i < |r| - 1 ==> !(IsSpace(r[i]) && IsSpace(r[i + 1]))
    decreases |s|
  {
    if s == [] then []
    else if IsSpace(s[0]) then
      var k := SpaceRun(s);
      " " + Collapse(s[k..])
    else [s[0]] + Collapse(s[1..])
  }

  /** `re.sub(r'\s+', '', s)`: the text without its whitespace. */
  function NoSpace(s: string): (r: string)
    ensures forall i :: 0 <= i < |r| ==> !IsSpace(r[i])
    ensures |r| <= |s|
  {
    if s == [] then []
    else if IsSpace(s[0]) then NoSpace(s[1..])
    else [s[0]] + NoSpace(s[1..])
  }

  /** `re.findall(r'[\d.,]+', s)`: the maximal runs of digits, points and commas, in order. */
  function Numbers(s: string): (ns: seq<string>)
    ensures forall i :: 0 <= i < |ns| ==> ns[i] != [] && AllNumChars(ns[i])
    decreases |s|
  {
    if s == [] then []
    else if IsNumChar(s[0]) then [s[..NumRun(s)]] + Numbers(s[NumRun(s)..])
    else Numbers(s[1..])
  }

  // ---------------------------------------------------------------------------
  // The quantity cell of the table path

  /** "pc" at the start of `s`, letters compared without case (`re.IGNORECASE`). */
  predicate PcAtNoCase(s: string) { |s| >= 2 && Lower(s[0]) == 'p' && Lower(s[1]) == 'c' }

  /** "pcs" at the start of `s`, without case. */
  predicate PcsAtNoCase(s: string) { PcAtNoCase(s) && |s| >= 3 && Lower(s[2]) == 's' }

  /**
   * `re.sub(r'\s*(pc|pcs)?\s*', '', s, flags=re.IGNORECASE)` as written: at
   * each position the pattern removes whitespace and a "pc" (tried before
   * "pcs"), so a "pc" anywhere goes and the "s" of "pcs" stays.
   */
  function ScrubAsWritten(s: string): (r: string)
    decreases |s|
  {
    if s == [] then []
    else if IsSpace(s[0]) then ScrubAsWritten(s[1..])
    else if PcAtNoCase(s) then ScrubAsWritten(s[2..])
    else [s[0]] + ScrubAsWritten(s[1..])
  }

  /** The unit removal as intended: whitespace and a whole "pcs" or "pc" go, any case. */
  function ScrubUnit(s: string): (r: string)
    decreases |s|
  {
    if s == [] then []
    else if IsSpace(s[0]) then ScrubUnit(s[1..])
    else if PcsAtNoCase(s) then ScrubUnit(s[3..])
    else if PcAtNoCase(s) then ScrubUnit(s[2..])
    else [s[0]] + ScrubUnit(s[1..])
  }
}
