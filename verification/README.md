# giamc: sampler-output writer and uniform prior, in Dafny

This project models the small, non-plotting core of `giapy/giamc.py`, a helper
module for running an ensemble MCMC sampler in a glacial-isostatic-adjustment
workflow. It covers three parts:

- **`uniform_lnprior`**: a boxcar log-prior. It rejects parameters and bounds
  whose shapes differ. Otherwise it returns `0.0` when every parameter lies
  strictly inside its bounds and `-inf` when any does not. The model is in
  module `Prior` (`prior.dfy`). Arrays are a shape together with row-major
  data, and a bare float has the empty shape. The two results are the
  datatype `LnPrior = Zero | NegInf`. The shape assertion becomes
  `Failure(IncompatibleShapes)`.
- **The per-step serialiser inside `sampleOut`**: for every walker, in walker
  order, one line holds the walker index, its log-probability, its
  parameters and, only when `blobs` is set, its blobs. Every field is
  followed by a tab, and every line ends with a newline. The model is in
  module `Rows` (`rows.dfy`). The float renderings `{:e}`, `{:f}` and `{}` are
  function-valued fields of `Formats`, so they stay abstract. The
  sampler's float type is a type parameter. The index rendering `{:d}` is
  modelled concretely (`Text.Decimal`). The partner of the writer is a reader
  (`ReadBlock`). The round-trip lemma states the line and field layout
  exactly.
- **The file discipline of `sampleOut`**: a probe opens the file for
  reading. If that works, the file is kept. If it raises `IOError`, the
  file is opened for writing, which creates or empties it. Each step's block
  is then appended through a fresh open. The model is in module `SampleOut`
  (`sample_out.dfy`). The file is a string together with whether it exists
  and whether it can be read, written or created. The sampler's steps are an
  input sequence.

The elapsed-time unit choice (hours above 3600 s, minutes above 60 s,
otherwise seconds) is in module `Elapsed` (`elapsed.dfy`). `text.dfy` holds the
terminator/split layer and the decimal index. `wrappers.dfy` holds
`Option`/`Result`.

Notes on following the code:

- The opening probe catches any `IOError` from `open(fname, 'r')`, not only
  "file missing". An existing file that can be written but not read is
  therefore reopened with `'w'`, which empties it. The docstring's "if the
  output file exists, the results are appended" holds only for readable
  files.
- Neither the `'w'` open of the probe nor the `'a'` open of each step is
  guarded. A file that can be neither read nor written, or a missing file
  that cannot be created, ends the run at the probe (`CannotCreate`). A file
  that can be read but not written ends it at the first append
  (`CannotAppend`), with nothing written. `SampleOut.SampleOut` returns the
  file's contents together with the open that raised, if any.
- The serialiser indexes `step[1][k]` and, when `blobs` is set, `step[3][k]`
  for every walker `k`. `Rows.HasEntries` states that these entries exist.
  This is the docstring's obligation on the caller-supplied sampler, taken
  as a precondition. The random state `step[2]` is never read.

## Model

| member | source | states |
|---|---|---|
| Prior.UniformLnPrior | giapy/giamc.py:13-30 | Differing shapes of params, upper and lower give the shape error and nothing else. With equal shapes the result is Zero exactly when every element satisfies lower < param < upper, and NegInf exactly when some element does not. |
| Prior.AllInside | giapy/giamc.py:28 | The element-by-element scan of `all(logical_and(lower < params, params < upper))` is true exactly when every element lies strictly inside its bounds. |
| Prior.BoundsAreStrict | giapy/giamc.py:28-30 | A parameter equal to its lower or its upper bound makes the prior -inf. |
| Prior.ScalarPrior | giapy/giamc.py:13-30 | For bare floats the prior is 0 on the open interval (lower, upper) and -inf elsewhere. |
| Prior.NoBroadcasting | giapy/giamc.py:25-26 | An array checked against scalar bounds is rejected by the shape check and never broadcast. |
| Rows.SerialiseStep | giapy/giamc.py:73-90 | The string grown by the walker loop is exactly the block: each walker's line, in walker order, each line ending in a newline. |
| Rows.AppendRow | giapy/giamc.py:81-90 | One walker-loop iteration appends that walker's fields, each followed by a tab, and then the newline. |
| Rows.AppendParams | giapy/giamc.py:83-84 | The parameter loop appends every parameter's `{:f}` text followed by a tab, in order. |
| Rows.AppendBlobs | giapy/giamc.py:86-88 | The blob loop appends every blob entry's `{}` text followed by a tab, in order. |
| Rows.RowLineParts | giapy/giamc.py:81-90 | A line is the index and a tab, the log-probability and a tab, then each parameter and each blob with its tab. |
| Rows.ReadRowRoundTrip | giapy/giamc.py:81-90 | A row whose texts contain no tab or newline is read back unchanged from its line, index included. |
| Rows.ReadBlockRoundTrip | giapy/giamc.py:73-90 | Reading a written step back gives exactly the rendered rows: one per walker, in walker order, each with its own index, log-probability, parameters in order and, only when requested, blobs. |
| Rows.ReadBlockAppend | giapy/giamc.py:92-93 | Two readable blocks written one after the other read back as the first block's rows followed by the second's. |
| Rows.BlobsIgnoredWhenOff | giapy/giamc.py:86-88 | With blobs off, the blob data does not affect the block, and every line has exactly 2 + ndim fields. |
| Text.Decimal | giapy/giamc.py:81 | The `{:d}` rendering of a walker index is a non-empty run of digits, so it holds no tab or newline. It has no leading zero: the only rendering that starts with `0` is `"0"`, the rendering of 0. |
| Text.ParseDecimalRoundTrip | giapy/giamc.py:81 | The index written at the head of a line reads back as the same number. |
| Text.SplitTerminatedRoundTrip | giapy/giamc.py:81-90 | Pieces written with a terminator after each piece can be split back into the same pieces, provided no piece contains the terminator. |
| Text.SplitTerminatedInverse | giapy/giamc.py:81-90 | Every successful split re-joins to the original text, and the pieces it finds never contain the terminator. |
| Text.SplitTerminatedSucceeds | giapy/giamc.py:89-90 | A text splits into terminated pieces exactly when it is empty or ends with the terminator, as every written block does. |
| SampleOut.SampleOut | giapy/giamc.py:53-93 | The run stops with CannotCreate exactly when the probe cannot open the file for reading and cannot open it for writing either; the file is then untouched. It stops with CannotAppend exactly when the probe succeeded, there is at least one step and the file cannot be appended to; the file is then as the probe left it and nothing is written. Otherwise block i is step i's serialisation, and the file ends as the kept contents (readable file) or the empty file (anything else) followed by the blocks in step order. A readable file's old contents are always a prefix of the final file. |
| SampleOut.Probe | giapy/giamc.py:53-60 | The probe fails, with the create error, exactly when the file cannot be opened for reading and the unguarded open for writing fails too: present but neither readable nor writable, or missing and not creatable. A successful probe keeps the contents exactly when the file is present and readable, and empties it otherwise. |
| SampleOut.AppendSteps | giapy/giamc.py:67-93 | The step loop appends each step's block in step order, so the file is its starting contents followed by all blocks. When appending is not allowed and there is a step, it stops at the first append with the file unchanged. |
| SampleOut.EarlierContentKept | giapy/giamc.py:92-93 | Of the file states the step loop passes through (`Snapshot`, which `AppendSteps` keeps as its loop invariant), the one after i writes is a prefix of the one after any later j writes, and what follows is exactly the blocks of steps i to j-1. |
| SampleOut.ReadAfterAppend | giapy/giamc.py:92-93 | Appending one step's block to a readable file adds exactly that step's rows after the existing ones. |
| SampleOut.ReadAfterRun | giapy/giamc.py:53-93 | After a run, a file that held readable rows holds those rows, then every walker's row of every step, in step order. |
| SampleOut.NewFileHoldsRowsOnly | giapy/giamc.py:53-93 | The blocks of a run, alone, read back as exactly the steps' rows in step order. With `SampleOut.SampleOut`, which leaves a file the probe created or emptied holding just the blocks, a run into such a file leaves only the steps' rows in it. |
| Elapsed.InUnits | giapy/giamc.py:96-104 | The unit is hours when time > 3600, minutes when 60 < time <= 3600, and seconds otherwise. The scaled amount times the unit's length is the elapsed time, and the amount exceeds 1 whenever minutes or hours are used. |
| Elapsed.UnitMonotone | giapy/giamc.py:97-104 | A longer run is never reported in a smaller unit. |

## Left out

- The ensemble sampler (`sampler.sample`, its arguments `pos`, `lnprob0`, `blobs0`, `nsteps`, `storechain`): it is an external library. Its steps are an input sequence of `Rows.Step` values.
- The exact text of `{:e}`, `{:f}` and `{}`: this is floating-point formatting. It stays abstract as the functions of `Rows.Formats`. The reader's round trip assumes their output contains no tab or newline (`Rows.Unambiguous`).
- Filesystem effects (`open`, `close`, `write`, flushing): the file is a string with three permission flags in `SampleOut.FileState`, and an open that raises is a `SampleOut.FileError`.
- SampleOut.SampleOut: assumes the file's permissions stay the same for the whole run, so an append fails at the first step or never. A write that fails after the open (a full disk, say), an exception raised by the sampler itself and an interrupt part-way through a run are not modelled.
- Rows.SerialiseStep: requires `Rows.HasEntries`. With `blobs` set, a sampler that yields no `step[3]`, or too few entries in it, raises `IndexError` at line 87. A walker's blob `step[3][k]` that is not iterable raises `TypeError`. Both error paths are left out, as are too few log-probabilities in `step[1]`.
- Verbose progress output and the closing message (`sys.stdout`, terminal escape codes, `time.time()`): these are I/O and clock reads. Only the unit choice is modelled, with the elapsed seconds as a parameter. The step counter in the progress message starts at 2 (`enumerate(..., start=2)`) and is not modelled.
- The acceptance-rate average (`np.mean(sampler.naccepted)/nsteps`): it is float arithmetic over sampler state.
- Elapsed.InUnits: computes in exact reals. The source's float divisions by 60 and 3600 round.
- Prior.UniformLnPrior: models numpy arrays and bare floats over exact reals. NaN, which compares false and so yields -inf, is not represented. Neither are infinite bounds such as `upper = np.inf`, which the source accepts as "unbounded on that side". Plain Python lists, which `<` compares lexicographically rather than element by element, are not modelled either. The shape check is a Python `assert`, which `python -O` removes. The model always performs it.
- Arrays are single-type (`real`): the mixed-dtype cases of numpy comparisons are not modelled.
- All of `giapy/plot_tools/dataPlot.py`: it consists of plotting and map-drawing calls and floating-point scale computations.
