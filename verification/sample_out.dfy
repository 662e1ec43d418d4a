/**
 The file discipline of sampleOut: the output file is kept when it can be read
 and otherwise created or emptied, and each sampler step appends its block, so
 that earlier content is never changed. Either open can raise and end the run.
 */
module SampleOut {
  import opened Wrappers
  import opened Text
  import opened Rows

  /** The output file before the run: missing, in a place where it can or
      cannot be created, or present with its contents and its permissions. */
  datatype FileState =
    | Absent(creatable: bool)
    | Present(contents: string, readable: bool, writable: bool)

  /** The two opens that can raise and end the run. */
  datatype FileError = CannotCreate | CannotAppend

  /** What the file holds before the run, whether or not the run gets anywhere. */
  function Before(file: FileState): string
  {
    match file
    case Absent(_) => []
    case Present(contents, _, _) => contents
  }

  /** The opening probe. A file that opens for reading is kept as it is. Any
      failure to open it for reading, a missing file included, leads to opening
      it for writing, which leaves it empty; that second open is not guarded
      and raises when the file cannot be created or written. */
  function Probe(file: FileState): (r: Result<string, FileError>)
    ensures r.Success? && file.Present? && file.readable ==> r.value == file.contents
    ensures r.Success? && !(file.Present? && file.readable) ==> r.value == []
    ensures r.Failure? <==> (file.Present? && !file.readable && !file.writable) || (file.Absent? && !file.creatable)
    ensures r.Failure? ==> r.error == CannotCreate
  {
    match file
    case Present(contents, readable, writable) =>
      if readable then Success(contents)
      else if writable then Success([])
      else Failure(CannotCreate)
    case Absent(creatable) =>
      if creatable then Success([]) else Failure(CannotCreate)
  }

  /** Whether the per-step open for appending succeeds once the probe has run.
      A file the probe created can be written; an existing one keeps its
      permissions for the whole run. */
  predicate AppendAllowed(file: FileState)
  {
    match file
    case Absent(_) => true
    case Present(_, _, writable) => writable
  }

  predicate AllHaveEntries<F, B>(steps: seq<Step<F, B>>, withBlobs: bool)
  {
    forall i :: 0 <= i < |steps| ==> HasEntries(steps[i], withBlobs)
  }

  /** What each step writes: its serialised block, in step order. */
  function StepBlocks<F, B>(steps: seq<Step<F, B>>, withBlobs: bool, fmt: Formats<F, B>): seq<string>
    requires AllHaveEntries(steps, withBlobs)
  {
    seq(|steps|, i requires 0 <= i < |steps| => Block(steps[i], withBlobs, fmt))
  }

  /** The sampling loop with the sampler's steps given as input. `contents` is
      the file at the end, `failure` the open that raised, if any, and
      `blocks[i]` what step `i` wrote. A run that gets going ends with the
      file as the probe left it followed by the blocks in step order. */
  method SampleOut<F, B>(file: FileState, steps: seq<Step<F, B>>, withBlobs: bool, fmt: Formats<F, B>)
    returns (contents: string, failure: Option<FileError>, blocks: seq<string>)
    requires AllHaveEntries(steps, withBlobs)
    ensures failure == Some(CannotCreate) <==> Probe(file).Failure?
    ensures failure == Some(CannotCreate) ==> contents == Before(file) && blocks == []
    ensures failure == Some(CannotAppend) <==> Probe(file).Success? && |steps| > 0 && !AppendAllowed(file)
    ensures failure == Some(CannotAppend) ==> contents == Probe(file).value && blocks == []
    ensures failure == None ==> blocks == StepBlocks(steps, withBlobs, fmt)
    ensures failure == None ==> contents == Probe(file).value + Concat(blocks)
    ensures file.Present? && file.readable ==> file.contents <= contents
    ensures failure == None && !(file.Present? && file.readable) ==> contents == Concat(blocks)
  {
    var probe := Probe(file);
    if probe.Failure? {
      contents, failure, blocks := Before(file), Some(probe.error), [];
      return;
    }
    var appended;
    contents, appended, blocks := AppendSteps(probe.value, AppendAllowed(file), steps, withBlobs, fmt);
    failure := if appended then None else Some(CannotAppend);
    EmptyAppend(Concat(blocks));
  }

  /** The step loop after the probe, starting from the file's contents `start`.
      Each step is serialised and then appended through a fresh open, which
      raises at once when the file cannot be written; permissions do not change
      during the run, so that happens at the first step or never. */
  method AppendSteps<F, B>(start: string, allowed: bool, steps: seq<Step<F, B>>, withBlobs: bool, fmt: Formats<F, B>)
    returns (contents: string, appended: bool, blocks: seq<string>)
    requires AllHaveEntries(steps, withBlobs)
    ensures appended <==> allowed || |steps| == 0
    ensures appended ==> blocks == StepBlocks(steps, withBlobs, fmt) && contents == start + Concat(blocks)
    ensures !appended ==> blocks == [] && contents == start
  {
    ghost var all := StepBlocks(steps, withBlobs, fmt);
    contents, appended, blocks := start, true, [];
    var i := 0;
    while i < |steps|
      invariant 0 <= i <= |steps| && |blocks| == i
      invariant i > 0 ==> allowed
      invariant blocks == all[..i]
      invariant contents == Snapshot(start, all, i)
    {
      var output := SerialiseStep(steps[i], withBlobs, fmt);
      if !allowed {
        appended := false;
        return;
      }
      assert contents + output == start + Concat(blocks + [output]) by {
        ConcatSnoc(blocks, output);
        AppendAssociative(start, Concat(blocks), output);
      }
      assert all[..i + 1] == blocks + [output];
      contents := contents + output;
      blocks := blocks + [output];
      i := i + 1;
    }
    assert all[..i] == all;
  }

  /** The file after the first `j` writes of a run that started from `start`:
      the states `AppendSteps` passes through. */
  function Snapshot(start: string, blocks: seq<string>, j: nat): string
    requires j <= |blocks|
  {
    start + Concat(blocks[..j])
  }

  /** Once written, content stays: the file after `i` writes is a prefix of the
      file after any later number of writes, and what follows it is exactly the
      blocks written in between. */
  lemma EarlierContentKept(start: string, blocks: seq<string>, i: nat, j: nat)
    requires i <= j <= |blocks|
    ensures Snapshot(start, blocks, j) == Snapshot(start, blocks, i) + Concat(blocks[i..j])
    ensures Snapshot(start, blocks, i) <= Snapshot(start, blocks, j)
  {
    assert blocks[..j] == blocks[..i] + blocks[i..j];
    ConcatAppend(blocks[..i], blocks[i..j]);
  }

  /** The rows of the steps, in step order and walker order within a step. */
  function AllRendered<F, B>(steps: seq<Step<F, B>>, withBlobs: bool, fmt: Formats<F, B>): seq<TextRow>
    requires AllHaveEntries(steps, withBlobs)
  {
    Concat(seq(|steps|, i requires 0 <= i < |steps| => Rendered(steps[i], withBlobs, fmt)))
  }

  /** Every step has its entries, is rectangular, and reads back unchanged. */
  predicate AllRoundTrip<F, B>(steps: seq<Step<F, B>>, withBlobs: bool, fmt: Formats<F, B>, ndim: nat)
  {
    forall i :: 0 <= i < |steps| ==>
      HasEntries(steps[i], withBlobs) && Rectangular(steps[i], ndim) && Unambiguous(steps[i], withBlobs, fmt)
  }

  /** Appending readable blocks to a readable file adds their rows, block by block. */
  lemma {:induction false} ReadConcat(prior: string, before: seq<TextRow>, blocks: seq<string>, rowLists: seq<seq<TextRow>>, ndim: nat)
    requires |blocks| == |rowLists|
    requires forall i :: 0 <= i < |blocks| ==> ReadBlock(blocks[i], ndim) == Some(rowLists[i])
    requires ReadBlock(prior, ndim) == Some(before)
    ensures ReadBlock(prior + Concat(blocks), ndim) == Some(before + Concat(rowLists))
  {
    if blocks == [] {
      assert prior + [] == prior;
      assert before + [] == before;
    } else {
      var n := |blocks|;
      var text := prior + Concat(blocks[..n - 1]);
      var rows := before + Concat(rowLists[..n - 1]);
      ReadConcat(prior, before, blocks[..n - 1], rowLists[..n - 1], ndim);
      ReadBlockAppend(text, blocks[n - 1], ndim);
      AppendAssociative(prior, Concat(blocks[..n - 1]), blocks[n - 1]);
      AppendAssociative(before, Concat(rowLists[..n - 1]), rowLists[n - 1]);
    }
  }

  /** One append: adding a step's block to a readable file adds exactly that
      step's rows after the ones already there. */
  lemma ReadAfterAppend<F, B>(prior: string, before: seq<TextRow>, s: Step<F, B>, withBlobs: bool, fmt: Formats<F, B>, ndim: nat)
    requires HasEntries(s, withBlobs) && Rectangular(s, ndim) && Unambiguous(s, withBlobs, fmt)
    requires ReadBlock(prior, ndim) == Some(before)
    ensures ReadBlock(prior + Block(s, withBlobs, fmt), ndim) == Some(before + Rendered(s, withBlobs, fmt))
  {
    ReadBlockRoundTrip(s, withBlobs, fmt, ndim);
    ReadBlockAppend(prior, Block(s, withBlobs, fmt), ndim);
  }

  /** Everything a run writes can be read back: when the file already held readable
      rows, it afterwards holds those rows followed by every walker's row of every
      step, in step order. */
  lemma ReadAfterRun<F, B>(prior: string, before: seq<TextRow>, steps: seq<Step<F, B>>, blocks: seq<string>, withBlobs: bool, fmt: Formats<F, B>, ndim: nat)
    requires AllRoundTrip(steps, withBlobs, fmt, ndim)
    requires |blocks| == |steps|
    requires forall i :: 0 <= i < |steps| ==> blocks[i] == Block(steps[i], withBlobs, fmt)
    requires ReadBlock(prior, ndim) == Some(before)
    ensures ReadBlock(prior + Concat(blocks), ndim) == Some(before + AllRendered(steps, withBlobs, fmt))
  {
    var rowLists := seq(|steps|, i requires 0 <= i < |steps| => Rendered(steps[i], withBlobs, fmt));
    forall i | 0 <= i < |blocks|
      ensures ReadBlock(blocks[i], ndim) == Some(rowLists[i])
    {
      ReadBlockRoundTrip(steps[i], withBlobs, fmt, ndim);
    }
    ReadConcat(prior, before, blocks, rowLists, ndim);
  }

  /** A run into a file the probe created or emptied, which `SampleOut` leaves
      holding just the blocks, reads back as exactly the steps' rows. */
  lemma NewFileHoldsRowsOnly<F, B>(steps: seq<Step<F, B>>, blocks: seq<string>, withBlobs: bool, fmt: Formats<F, B>, ndim: nat)
    requires AllRoundTrip(steps, withBlobs, fmt, ndim)
    requires |blocks| == |steps|
    requires forall i :: 0 <= i < |steps| ==> blocks[i] == Block(steps[i], withBlobs, fmt)
    ensures ReadBlock(Concat(blocks), ndim) == Some(AllRendered(steps, withBlobs, fmt))
  {
    assert ReadBlock([], ndim) == Some([]) by {
      assert SplitTerminated([], Newline) == Some([]);
      assert ReadRows([], ndim) == Some([]);
    }
    ReadAfterRun([], [], steps, blocks, withBlobs, fmt, ndim);
    EmptyAppend(Concat(blocks));
    EmptyAppend(AllRendered(steps, withBlobs, fmt));
  }
}
