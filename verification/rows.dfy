/**
 The per-step serialiser of sampleOut: one text row per walker, each field
 followed by a tab and each row by a newline, together with the reader that
 takes such a block back apart.
 */
module Rows {
  import opened Wrappers
  import opened Text

  /** One item yielded by the ensemble sampler: the walkers' positions (step[0]),
      their log-probabilities (step[1]) and their blobs (step[3]). The random
      state at step[2] is never read. `F` is the sampler's floating-point type,
      left opaque; `B` is one blob entry. */
  datatype Step<F, B> = Step(positions: seq<seq<F>>, lnprob: seq<F>, blobs: seq<seq<B>>)

  /** The text conversions the serialiser applies, left abstract:
      '{:e}' for a log-probability, '{:f}' for a parameter, '{}' for a blob entry. */
  datatype Formats<!F, !B> = Formats(sci: F -> string, fixed: F -> string, show: B -> string)

  /** The sampler's documented obligation to its caller: what the serialiser
      indexes exists, a log-probability for every walker and, when blobs are
      written, a blob list for every walker. */
  predicate HasEntries<F, B>(s: Step<F, B>, withBlobs: bool)
  {
    && |s.lnprob| >= |s.positions|
    && (withBlobs ==> |s.blobs| >= |s.positions|)
  }

  /** The positions form an (nwalkers, ndim) array. */
  predicate Rectangular<F, B>(s: Step<F, B>, ndim: nat)
  {
    forall k :: 0 <= k < |s.positions| ==> |s.positions[k]| == ndim
  }

  /** One row of the output file, each entry as text. */
  datatype TextRow = TextRow(index: nat, lnprob: string, params: seq<string>, blobs: seq<string>)

  /** The fields of a row in the order they are written. */
  function RowFields(row: TextRow): seq<string>
  {
    [Decimal(row.index), row.lnprob] + row.params + row.blobs
  }

  /** A row: every field followed by a tab. The closing newline is added by the block. */
  function RowLine(row: TextRow): string
  {
    Terminated(RowFields(row), Tab)
  }

  /** '{:f}' of each parameter, in order. */
  function ParamTexts<F, B>(params: seq<F>, fmt: Formats<F, B>): seq<string>
  {
    seq(|params|, j requires 0 <= j < |params| => fmt.fixed(params[j]))
  }

  /** '{}' of each blob entry, in order. */
  function BlobTexts<F, B>(blobs: seq<B>, fmt: Formats<F, B>): seq<string>
  {
    seq(|blobs|, j requires 0 <= j < |blobs| => fmt.show(blobs[j]))
  }

  /** Walker `k`'s row: its index, its log-probability, all of its parameters in
      order, and its blobs only when they are asked for. */
  function Render<F, B>(s: Step<F, B>, k: nat, withBlobs: bool, fmt: Formats<F, B>): TextRow
    requires HasEntries(s, withBlobs) && k < |s.positions|
  {
    TextRow(
      k,
      fmt.sci(s.lnprob[k]),
      ParamTexts(s.positions[k], fmt),
      if withBlobs then BlobTexts(s.blobs[k], fmt) else [])
  }

  /** The rows of a step, walker 0 first. */
  function Rendered<F, B>(s: Step<F, B>, withBlobs: bool, fmt: Formats<F, B>): seq<TextRow>
    requires HasEntries(s, withBlobs)
  {
    seq(|s.positions|, k requires 0 <= k < |s.positions| => Render(s, k, withBlobs, fmt))
  }

  /** The rows of a step as text, walker 0 first, each without its newline. */
  function Lines<F, B>(s: Step<F, B>, withBlobs: bool, fmt: Formats<F, B>): seq<string>
    requires HasEntries(s, withBlobs)
  {
    seq(|s.positions|, k requires 0 <= k < |s.positions| => RowLine(Render(s, k, withBlobs, fmt)))
  }

  /** The text block one step contributes to the file. */
  function Block<F, B>(s: Step<F, B>, withBlobs: bool, fmt: Formats<F, B>): string
    requires HasEntries(s, withBlobs)
  {
    Terminated(Lines(s, withBlobs, fmt), Newline)
  }

  /** The serialiser as giamc.py writes it: a string grown field by field,
      walker by walker, and returned for a single write. */
  method SerialiseStep<F, B>(s: Step<F, B>, withBlobs: bool, fmt: Formats<F, B>) returns (output: string)
    requires HasEntries(s, withBlobs)
    ensures output == Block(s, withBlobs, fmt)
  {
    ghost var lines := Lines(s, withBlobs, fmt);
    output := "";
    var k := 0;
    while k < |s.positions|
      invariant 0 <= k <= |s.positions|
      invariant output == Terminated(lines[..k], Newline)
    {
      output := AppendRow(output, s, k, withBlobs, fmt);
      assert lines[..k + 1] == lines[..k] + [lines[k]];
      TerminatedSnoc(lines[..k], lines[k], Newline);
      k := k + 1;
    }
    assert lines[..k] == lines;
  }

  /** The body of the walker loop: appends walker `k`'s fields and the newline. */
  method AppendRow<F, B>(start: string, s: Step<F, B>, k: nat, withBlobs: bool, fmt: Formats<F, B>) returns (output: string)
    requires HasEntries(s, withBlobs) && k < |s.positions|
    ensures output == start + RowLine(Render(s, k, withBlobs, fmt)) + [Newline]
  {
    ghost var row := Render(s, k, withBlobs, fmt);
    output := start + Decimal(k) + [Tab];
    output := output + fmt.sci(s.lnprob[k]) + [Tab];
    output := AppendParams(output, s.positions[k], fmt);
    if withBlobs {
      output := AppendBlobs(output, s.blobs[k], fmt);
    } else {
      assert Terminated(row.blobs, Tab) == [];
    }
    RowLineParts(row);
    assert output == start + (Decimal(k) + [Tab] + row.lnprob + [Tab] + Terminated(row.params, Tab) + Terminated(row.blobs, Tab));
    output := output + [Newline];
  }

  /** A row line is the index and the log-probability, each with its tab, then the parameters and the blobs, each with theirs. */
  lemma RowLineParts(row: TextRow)
    ensures RowLine(row)
         == Decimal(row.index) + [Tab] + row.lnprob + [Tab] + Terminated(row.params, Tab) + Terminated(row.blobs, Tab)
  {
    var head := [Decimal(row.index), row.lnprob];
    assert head[1..] == [row.lnprob];
    assert Terminated([row.lnprob], Tab) == row.lnprob + [Tab] + Terminated([], Tab);
    assert Terminated(head, Tab) == Decimal(row.index) + [Tab] + Terminated([row.lnprob], Tab);
    TerminatedAppend(head, row.params, Tab);
    TerminatedAppend(head + row.params, row.blobs, Tab);
    assert RowFields(row) == head + row.params + row.blobs;
  }

  /** The parameter loop: each parameter as '{:f}' followed by a tab. */
  method AppendParams<F, B>(start: string, params: seq<F>, fmt: Formats<F, B>) returns (output: string)
    ensures output == start + Terminated(ParamTexts(params, fmt), Tab)
  {
    ghost var texts := ParamTexts(params, fmt);
    output := start;
    var j := 0;
    while j < |params|
      invariant 0 <= j <= |params|
      invariant output == start + Terminated(texts[..j], Tab)
    {
      output := output + fmt.fixed(params[j]) + [Tab];
      assert texts[..j + 1] == texts[..j] + [texts[j]];
      TerminatedSnoc(texts[..j], texts[j], Tab);
      j := j + 1;
    }
    assert texts[..j] == texts;
  }

  /** The blob loop: each blob entry as '{}' followed by a tab. */
  method AppendBlobs<F, B>(start: string, blobs: seq<B>, fmt: Formats<F, B>) returns (output: string)
    ensures output == start + Terminated(BlobTexts(blobs, fmt), Tab)
  {
    ghost var texts := BlobTexts(blobs, fmt);
    output := start;
    var j := 0;
    while j < |blobs|
      invariant 0 <= j <= |blobs|
      invariant output == start + Terminated(texts[..j], Tab)
    {
      output := output + fmt.show(blobs[j]) + [Tab];
      assert texts[..j + 1] == texts[..j] + [texts[j]];
      TerminatedSnoc(texts[..j], texts[j], Tab);
      j := j + 1;
    }
    assert texts[..j] == texts;
  }

  /** Reads one row back, given the number of parameters per walker: the index,
      the log-probability, `ndim` parameters, and whatever fields remain as blobs. */
  function ReadRow(line: string, ndim: nat): Option<TextRow>
  {
    match SplitTerminated(line, Tab)
    case None => None
    case Some(fields) =>
      if |fields| < 2 + ndim then None
      else match ParseDecimal(fields[0])
        case None => None
        case Some(index) => Some(TextRow(index, fields[1], fields[2..2 + ndim], fields[2 + ndim..]))
  }

  /** Reads each line as a row; None when any line is not a row. */
  function ReadRows(lines: seq<string>, ndim: nat): Option<seq<TextRow>>
  {
    if lines == [] then Some([])
    else match ReadRow(lines[0], ndim)
      case None => None
      case Some(row) =>
        match ReadRows(lines[1..], ndim)
        case None => None
        case Some(rows) => Some([row] + rows)
  }

  /** Reads a block of newline-terminated rows. */
  function ReadBlock(text: string, ndim: nat): Option<seq<TextRow>>
  {
    match SplitTerminated(text, Newline)
    case None => None
    case Some(lines) => ReadRows(lines, ndim)
  }

  lemma {:induction false} ReadRowsEach(lines: seq<string>, rows: seq<TextRow>, ndim: nat)
    requires |lines| == |rows|
    requires forall i :: 0 <= i < |lines| ==> ReadRow(lines[i], ndim) == Some(rows[i])
    ensures ReadRows(lines, ndim) == Some(rows)
  {
    if lines != [] {
      ReadRowsEach(lines[1..], rows[1..], ndim);
      assert [rows[0]] + rows[1..] == rows;
    }
  }

  lemma {:induction false} ReadRowsAppend(la: seq<string>, lb: seq<string>, ndim: nat)
    requires ReadRows(la, ndim).Some? && ReadRows(lb, ndim).Some?
    ensures ReadRows(la + lb, ndim) == Some(ReadRows(la, ndim).value + ReadRows(lb, ndim).value)
  {
    if la == [] {
      var rb := ReadRows(lb, ndim).value;
      assert la + lb == lb;
      assert ReadRows(la, ndim) == Some([]);
      assert [] + rb == rb;
    } else {
      assert (la + lb)[0] == la[0];
      assert (la + lb)[1..] == la[1..] + lb;
      ReadRowsAppend(la[1..], lb, ndim);
      var row := ReadRow(la[0], ndim).value;
      var ra := ReadRows(la[1..], ndim).value;
      var rb := ReadRows(lb, ndim).value;
      assert [row] + (ra + rb) == ([row] + ra) + rb;
    }
  }

  /** No text entry of the row contains a tab or a newline. */
  predicate CleanRow(row: TextRow)
  {
    && AllFree([row.lnprob] + row.params + row.blobs, Tab)
    && AllFree([row.lnprob] + row.params + row.blobs, Newline)
  }

  /** Every row of the step is free of the two separators, so the block can be read back. */
  predicate Unambiguous<F, B>(s: Step<F, B>, withBlobs: bool, fmt: Formats<F, B>)
    requires HasEntries(s, withBlobs)
  {
    forall k :: 0 <= k < |s.positions| ==> CleanRow(Render(s, k, withBlobs, fmt))
  }

  lemma CleanFields(row: TextRow, c: char)
    requires CleanRow(row) && (c == Tab || c == Newline)
    ensures AllFree(RowFields(row), c)
  {
    var rest := [row.lnprob] + row.params + row.blobs;
    assert RowFields(row) == [Decimal(row.index)] + rest;
    forall i | 0 <= i < |RowFields(row)|
      ensures c !in RowFields(row)[i]
    {
      if i > 0 { assert RowFields(row)[i] == rest[i - 1]; }
    }
  }

  /** A clean row, read with its own number of parameters, comes back exactly as it was written. */
  lemma ReadRowRoundTrip(row: TextRow)
    requires CleanRow(row)
    ensures ReadRow(RowLine(row), |row.params|) == Some(row)
  {
    CleanFields(row, Tab);
    SplitTerminatedRoundTrip(RowFields(row), Tab);
    ParseDecimalRoundTrip(row.index);
    var fields := RowFields(row);
    assert fields[2..2 + |row.params|] == row.params;
    assert fields[2 + |row.params|..] == row.blobs;
  }

  /** The serialiser's partner: reading a written step back yields exactly one row
      per walker, in walker order, each carrying its own index, log-probability,
      parameters in order and, only when asked for, blobs. */
  lemma ReadBlockRoundTrip<F, B>(s: Step<F, B>, withBlobs: bool, fmt: Formats<F, B>, ndim: nat)
    requires HasEntries(s, withBlobs) && Rectangular(s, ndim) && Unambiguous(s, withBlobs, fmt)
    ensures ReadBlock(Block(s, withBlobs, fmt), ndim) == Some(Rendered(s, withBlobs, fmt))
  {
    var lines := Lines(s, withBlobs, fmt);
    var rows := Rendered(s, withBlobs, fmt);
    forall k | 0 <= k < |lines|
      ensures Newline !in lines[k]
      ensures ReadRow(lines[k], ndim) == Some(rows[k])
    {
      var row := Render(s, k, withBlobs, fmt);
      CleanFields(row, Newline);
      TerminatedFree(RowFields(row), Tab, Newline);
      ReadRowRoundTrip(row);
    }
    SplitTerminatedRoundTrip(lines, Newline);
    ReadRowsEach(lines, rows, ndim);
  }

  /** Reading is compositional: two readable blocks written one after the
      other read as the first block's rows followed by the second's. */
  lemma ReadBlockAppend(a: string, b: string, ndim: nat)
    requires ReadBlock(a, ndim).Some? && ReadBlock(b, ndim).Some?
    ensures ReadBlock(a + b, ndim) == Some(ReadBlock(a, ndim).value + ReadBlock(b, ndim).value)
  {
    var la := SplitTerminated(a, Newline).value;
    var lb := SplitTerminated(b, Newline).value;
    SplitTerminatedAppend(a, b, Newline);
    ReadRowsAppend(la, lb, ndim);
  }

  /** With blobs switched off the blob data is never read: two steps that differ
      only in their blobs write the same block, and every row has 2 + ndim fields. */
  lemma BlobsIgnoredWhenOff<F, B>(s: Step<F, B>, otherBlobs: seq<seq<B>>, fmt: Formats<F, B>, ndim: nat)
    requires HasEntries(s, false) && Rectangular(s, ndim)
    ensures Block(s, false, fmt) == Block(Step(s.positions, s.lnprob, otherBlobs), false, fmt)
    ensures forall k :: 0 <= k < |s.positions| ==> |RowFields(Render(s, k, false, fmt))| == 2 + ndim
  {
    var s' := Step(s.positions, s.lnprob, otherBlobs);
    assert Lines(s, false, fmt) == Lines(s', false, fmt);
  }
}
