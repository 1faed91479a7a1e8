/**
 * What the MagicFX extractor promises about the records it makes: they are
 * numbered 1, 2, ... in order, each has its own `po_line` key (and, on the
 * text path, its own part number), no more records than rows or lines, and
 * none before a header.
 */
module MagicFxProps {
  import opened Wrappers
  import opened Text
  import opened Keys
  import opened Records
  import opened Tables
  import opened Sequences
  import opened MagicFxPatterns
  import opened MagicFx

  // ---------------------------------------------------------------------------
  // Numbering and keys on the table path

  lemma {:induction false} TableRecordsAt(ctx: Context, fs: seq<RowFields>, k: nat)
    requires k < |fs|
    ensures TableRecords(ctx, fs)[k] == TableRecord(ctx, k + 1, fs[k])
    decreases |fs|
  {
    if k < |fs| - 1 {
      TableRecordsAt(ctx, fs[..|fs| - 1], k);
    }
  }

  /** Table record `k` is line `k + 1` of the order, keyed `po/k+1`, with the row's description. */
  lemma TableRecordNumbered(ctx: Context, fs: seq<RowFields>, k: nat)
    requires k < |fs|
    ensures TableRecords(ctx, fs)[k].po == ctx.po
    ensures TableRecords(ctx, fs)[k].line == Some(k + 1)
    ensures TableRecords(ctx, fs)[k].poLine == Some(MagicFxPoLine(ctx.po, k + 1))
    ensures TableRecords(ctx, fs)[k].description == fs[k].description
    ensures TableRecords(ctx, fs)[k].poPlacedDate == ctx.poDate
    ensures TableRecords(ctx, fs)[k].purchaser == None
  {
    TableRecordsAt(ctx, fs, k);
  }

  /** No two records of one table share a `po_line` key. */
  lemma TableKeysDistinct(ctx: Context, fs: seq<RowFields>, j: nat, k: nat)
    requires j < k < |fs|
    ensures TableRecords(ctx, fs)[j].poLine != TableRecords(ctx, fs)[k].poLine
  {
    TableRecordNumbered(ctx, fs, j);
    TableRecordNumbered(ctx, fs, k);
    MagicFxPoLineInjective(ctx.po, j + 1, k + 1);
  }

  /** The table path makes at most one record per row after the header. */
  lemma TableDataBound(ctx: Context, table: Table)
    ensures HeaderFrom(table, 0).None? ==> TableData(ctx, table) == []
    ensures HeaderFrom(table, 0).Some? ==> |TableData(ctx, table)| <= |table| - HeaderFrom(table, 0).value - 1
  {
  }

  // ---------------------------------------------------------------------------
  // Numbering and keys on the text path

  lemma {:induction false} TextRecordsAt(ctx: Context, gs: seq<ItemGroups>, k: nat)
    requires k < |gs|
    ensures TextRecords(ctx, gs)[k] == TextRecord(ctx, k + 1, gs[k])
    decreases |gs|
  {
    assert TextRecords(ctx, gs) == TextRecordsLast(ctx, gs);
    if k < |gs| - 1 {
      TextRecordsAt(ctx, gs[..|gs| - 1], k);
    }
  }

  /** Text record `k` is line `k + 1`, keyed `po/k+1`, with part number `po-0k+1`. */
  lemma TextRecordNumbered(ctx: Context, gs: seq<ItemGroups>, k: nat)
    requires k < |gs|
    ensures TextRecords(ctx, gs)[k].po == ctx.po
    ensures TextRecords(ctx, gs)[k].pn == MagicFxPn(ctx.po, k + 1)
    ensures TextRecords(ctx, gs)[k].line == Some(k + 1)
    ensures TextRecords(ctx, gs)[k].poLine == Some(MagicFxPoLine(ctx.po, k + 1))
    ensures TextRecords(ctx, gs)[k].description == gs[k].description
    ensures TextRecords(ctx, gs)[k].reqDate == ctx.parseDate(gs[k].date)
    ensures TextRecords(ctx, gs)[k].poPlacedDate == ctx.poDate
    ensures TextRecords(ctx, gs)[k].purchaser == None
  {
    TextRecordsAt(ctx, gs, k);
  }

  /** The two keys of text record `k`. */
  lemma TextRecordKeys(ctx: Context, gs: seq<ItemGroups>, k: nat)
    requires k < |gs|
    ensures TextRecords(ctx, gs)[k].pn == MagicFxPn(ctx.po, k + 1)
    ensures TextRecords(ctx, gs)[k].poLine == Some(MagicFxPoLine(ctx.po, k + 1))
  {
    TextRecordsAt(ctx, gs, k);
  }

  /** No two records of the text path share a `po_line` key. */
  lemma TextKeysDistinct(ctx: Context, gs: seq<ItemGroups>, j: nat, k: nat)
    requires j < k < |gs|
    ensures TextRecords(ctx, gs)[j].poLine != TextRecords(ctx, gs)[k].poLine
  {
    var lj, lk := TextRecords(ctx, gs)[j].poLine, TextRecords(ctx, gs)[k].poLine;
    TextRecordKeys(ctx, gs, j);
    TextRecordKeys(ctx, gs, k);
    assert lj == Some(MagicFxPoLine(ctx.po, j + 1)) && lk == Some(MagicFxPoLine(ctx.po, k + 1));
    MagicFxPoLineInjective(ctx.po, j + 1, k + 1);
  }

  /** No two records of the text path share a part number. */
  lemma TextPartNumbersDistinct(ctx: Context, gs: seq<ItemGroups>, j: nat, k: nat)
    requires j < k < |gs|
    ensures TextRecords(ctx, gs)[j].pn != TextRecords(ctx, gs)[k].pn
  {
    var pj, pk := TextRecords(ctx, gs)[j].pn, TextRecords(ctx, gs)[k].pn;
    TextRecordKeys(ctx, gs, j);
    TextRecordKeys(ctx, gs, k);
    assert pj == MagicFxPn(ctx.po, j + 1) && pk == MagicFxPn(ctx.po, k + 1);
    MagicFxPnInjective(ctx.po, j + 1, k + 1);
  }

  // ---------------------------------------------------------------------------
  // The text walk

  /** The walk takes at most one item per line it visits. */
  lemma {:induction false} TextWalkBound(steps: seq<TextStep>, i: nat, started: bool)
    requires i <= |steps|
    ensures |TextWalk(steps, i, started)| <= |steps| - i
    decreases |steps| - i
  {
    if i < |steps| {
      match steps[i]
      case HeaderLine => TextWalkBound(steps, i + 1, true);
      case StopLine => if !started { TextWalkBound(steps, i + 1, false); }
      case OtherLine => TextWalkBound(steps, i + 1, started);
      case ItemLine(g, extra) =>
        if started {
          if i + 1 + extra <= |steps| {
            TextWalkBound(steps, i + 1 + extra, true);
          } else {
            assert TextWalk(steps, i + 1 + extra, true) == [];
          }
        } else {
          TextWalkBound(steps, i + 1, false);
        }
    }
  }

  /** The text path makes at most one record per line of the page. */
  lemma TextDataBound(ctx: Context, text: string)
    ensures |TextData(ctx, text)| <= |SplitOn(text, '\n')|
  {
    TextWalkBound(StepsOf(SplitOn(text, '\n')), 0, false);
  }

  /** Before the header line is seen nothing is taken. */
  lemma {:induction false} TextWalkNoHeader(steps: seq<TextStep>, i: nat)
    requires forall k :: i <= k < |steps| ==> !steps[k].HeaderLine?
    ensures TextWalk(steps, i, false) == []
    decreases |steps| - i
  {
    if i < |steps| {
      TextWalkNoHeader(steps, i + 1);
    }
  }

  /** A page whose text has no "Code"/"Description" header line gives no records. */
  lemma TextItemsNoHeader(lines: seq<string>)
    requires forall k :: 0 <= k < |lines| ==> !IsHeaderLine(lines[k])
    ensures TextItems(lines) == []
  {
    var steps := StepsOf(lines);
    forall k | 0 <= k < |steps|
      ensures !steps[k].HeaderLine?
    {
      TabulateAt(StepFn(lines), |lines|, k);
    }
    TextWalkNoHeader(steps, 0);
  }

  /** Every item the walk takes comes from an item line at or after `i`, after a header line unless already started. */
  lemma {:induction false} TextWalkSource(steps: seq<TextStep>, i: nat, started: bool, g: ItemGroups) returns (k: nat, h: nat)
    requires g in TextWalk(steps, i, started)
    ensures i <= k < |steps| && steps[k].ItemLine? && steps[k].groups == g
    ensures !started ==> i <= h < k && steps[h].HeaderLine?
    decreases |steps| - i
  {
    match steps[i]
    case HeaderLine =>
      k, h := TextWalkSource(steps, i + 1, true, g);
      h := i;
    case StopLine =>
      k, h := TextWalkSource(steps, i + 1, false, g);
    case OtherLine =>
      k, h := TextWalkSource(steps, i + 1, started, g);
    case ItemLine(g', extra) =>
      if started {
        if g == g' {
          k, h := i, i;
        } else {
          k, h := TextWalkSource(steps, i + 1 + extra, true, g);
        }
      } else {
        k, h := TextWalkSource(steps, i + 1, false, g);
      }
  }

  /** An item of the text path starts at a line with two item codes, below a header line, and has a date and a whole quantity. */
  lemma TextItemSource(lines: seq<string>, g: ItemGroups) returns (k: nat, h: nat)
    requires g in TextItems(lines)
    ensures h < k < |lines|
    ensures IsHeaderLine(lines[h])
    ensures CodePair(Strip(lines[k])).Some?
    ensures DateAt(g.date) && IsDigitString(g.amounts.qty)
  {
    k, h := TextWalkSource(StepsOf(lines), 0, false, g);
    TabulateAt(StepFn(lines), |lines|, k);
    TabulateAt(StepFn(lines), |lines|, h);
  }
}
