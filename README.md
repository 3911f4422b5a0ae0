# Benchmark sweep of the multi-latent attention comparison

`run_benchmarks` in `multi-latent-absorb/benchmark_run.py` runs a sweep over a fixed grid.

- **Grid.** The grid has three attention models (`SimpleAttention`, `SimpleCompressedAttention`, `SimpleAbsorbedAttention`) times eight log-spaced kv-lengths, at batch size 32.
- **One point.** For every grid point the driver starts the benchmark child once. A blank stdout is skipped. Otherwise the child's `Key: Value` report is parsed into a dictionary, and a fixed-schema row is built from the five keys `Cache_Size`, `Mean`, `Median`, `P25` and `P75`. The row is appended to the model's results.
- **One table per model.** When a model's lengths are done, its rows are stored in `results/bsz-32/benchmark_results_<model lower-cased>.csv`.

The model is five modules:

- `Wrappers` holds `Option` and `Result`.
- `Text` holds the Python string operations the driver uses:
  - `strip()` over the full `str.isspace` set;
  - `split` with a one-character separator;
  - ASCII `lower()`;
  - `str(int)`;
  - a simplified `int(str)`.
- `Report` is the report parser.
  - The functions `ReportLines`, `ParseLine`, `Gather`, `Collect` and `ParseText` specify it.
  - The method `ParseReport` is the key-by-key dictionary loop of the source, proved equal to `ParseText`.
- `Record` builds the row.
  - This includes the order in which the row literal raises: `KeyError` for a missing key, `ValueError` from `int()`/`float()`.
- `Sweep` holds the grid, the child's argument vector, the output paths and the per-point outcome.
  - The functions `Pass`/`Combine` are the driver's nested loops as folds.
  - The methods `RunLengths` and `RunBenchmarks` are the imperative loops, each proved equal to its fold.
  - The method `RunPoint` is the straight-line code of one grid point, proved equal to the function `PointOutcome`.
  - Lemmas state what a whole sweep does: the order it visits the grid, its skip behaviour, the tables it writes and where a failure stops it.

Two environment pieces are parameters:

- The child process is a function `invoke` from its argument vector to its stdout text.
- `float()` is a caller-supplied partial conversion `toFloat`.

Two behaviours of the code shape the model:

- **An exception stops the whole sweep.** A malformed report line, or a missing or non-numeric required key, raises an exception that nothing catches. That ends the whole sweep, not just the one grid point:
  - the model in progress writes no table;
  - models already finished keep their tables;
  - later models never run.

  The model has this abort behaviour (`Abort`, `SweepStops`) rather than isolating a failure to its grid point.
- **Lengths are truncated.** The kv-lengths are `int()` of the log-spaced floats, which truncates toward zero (`Truncate`) rather than rounding to the nearest integer.

## Model

| member | source | states |
|---|---|---|
| Text.Strip | multi-latent-absorb/benchmark_run.py:53 | `strip()` is empty exactly for an all-whitespace stdout; otherwise it neither starts nor ends with whitespace |
| Text.StripSlice | multi-latent-absorb/benchmark_run.py:55 | the stripped text is a contiguous slice of the input, and everything cut off at either end is whitespace |
| Text.StripIdempotent | multi-latent-absorb/benchmark_run.py:55 | stripping an already stripped text changes nothing |
| Text.Split | multi-latent-absorb/benchmark_run.py:55 | `split(sep)` yields one piece more than there are separators, and no piece contains the separator |
| Text.JoinSplit | multi-latent-absorb/benchmark_run.py:55 | joining the pieces of a split with the separator gives back the original text |
| Text.SplitJoin | multi-latent-absorb/benchmark_run.py:58 | splitting separator-free pieces joined by the separator gives back exactly those pieces |
| Text.Lower | multi-latent-absorb/benchmark_run.py:35 | lower-casing keeps the length, turns each capital `A`-`Z` into the letter 32 code points above it (its small letter), and leaves every other character alone |
| Sweep.ModelNames | multi-latent-absorb/benchmark_run.py:27-35 | the three model names lower-case to `simpleattention`, `simplecompressedattention` and `simpleabsorbedattention`, the names in the three file names |
| Text.ParseInt | multi-latent-absorb/benchmark_run.py:65 | `int()` accepts exactly an optional sign followed by decimal digits, and the sign decides the sign of the result |
| Text.ParseIntForms | multi-latent-absorb/benchmark_run.py:65 | `int()` of a digit string is its decimal value; a leading `+` or a leading zero leaves the value unchanged, and a leading `-` negates it |
| Text.IntToString | multi-latent-absorb/benchmark_run.py:45 | `str(i)` is non-empty, starts with `-` exactly for a negative `i`, is digits after any sign, has no leading zero, and is `0` for zero; with `ParseIntRoundTrip` this fixes the canonical text |
| Text.ParseIntRoundTrip | multi-latent-absorb/benchmark_run.py:45 | the decimal text `str(i)` put on the command line reads back as `i` |
| Text.IntToStringInjective | multi-latent-absorb/benchmark_run.py:45 | different lengths are rendered as different `--kv_len` arguments |
| Report.ReportLines | multi-latent-absorb/benchmark_run.py:55 | the trimmed report splits into at least one line, none holding a newline |
| Report.Pieces | multi-latent-absorb/benchmark_run.py:58 | a line splits on `:` into one piece more than it has colons |
| Report.ParseLine | multi-latent-absorb/benchmark_run.py:58 | specification function of one line's unpacking: succeeds exactly when the line holds one colon, and otherwise fails with a piece count other than two; the pieces it yields are stated by `ParseLineMeaning` |
| Report.ParseLineMeaning | multi-latent-absorb/benchmark_run.py:58 | the unpacking succeeds exactly when the line holds exactly one colon, giving the trimmed text before and after it; otherwise the error is the piece count |
| Report.Gather | multi-latent-absorb/benchmark_run.py:57-58 | the lines' entries succeed exactly when every line parsed; on success the entries are those of the lines in order; on failure they stop at the first bad line with its piece count |
| Report.FailureSticks | multi-latent-absorb/benchmark_run.py:57-58 | once a line has raised, the lines after it make no difference to the outcome |
| Report.Collect | multi-latent-absorb/benchmark_run.py:56-59 | specification function of the dictionary the loop fills: no more keys than lines, and the last line's value stays under its key; its keys and values are stated by `CollectKeys` and `CollectLastWins` |
| Report.CollectKeys | multi-latent-absorb/benchmark_run.py:59 | the dictionary's keys are exactly the keys of the parsed lines |
| Report.CollectLastWins | multi-latent-absorb/benchmark_run.py:59 | a repeated key holds the value of its last occurrence |
| Report.ParseText | multi-latent-absorb/benchmark_run.py:55-59 | specification function of the parse: a dictionary of no more keys than the report has lines, or an error naming one of its lines whose piece count is not two; its meaning is stated by `ParseTextSucceedsIff`, `ParseTextFirstError` and `RenderRoundTrip` |
| Report.ParseReport | multi-latent-absorb/benchmark_run.py:55-59 | the key-by-key loop leaves exactly the dictionary or the exception that the specification function `ParseText` describes |
| Report.ParseTextSucceedsIff | multi-latent-absorb/benchmark_run.py:55-58 | a report parses if and only if every line of the trimmed text holds exactly one colon |
| Report.ParseTextFirstError | multi-latent-absorb/benchmark_run.py:57-58 | a failing report fails at its first line without exactly one colon, all earlier lines being well formed, and the error holds that line's piece count |
| Report.RenderRoundTrip | multi-latent-absorb/benchmark_run.py:55-59 | a report printed as `Key: Value` lines, keys and values being trimmed and colon-free, parses back into the dictionary of its entries, later repeats winning |
| Report.PaddedRoundTrip | multi-latent-absorb/benchmark_run.py:53-59 | whitespace around a `Key: Value` report, such as the final newline of `print`, is stripped away before parsing, and the report still parses back into the dictionary of its entries |
| Record.FloatField | multi-latent-absorb/benchmark_run.py:66-69 | a float field succeeds exactly when the key is present and converts, with the converted value; a missing key is reported as `KeyError` |
| Record.IntField | multi-latent-absorb/benchmark_run.py:65 | the `Cache_Size` field succeeds exactly when the key is present and is an integer, with its value; a missing key is reported as `KeyError` |
| Record.BuildRecord | multi-latent-absorb/benchmark_run.py:62-64 | a row carries the sweep's batch size and kv-length |
| Record.BuildRecordSucceeds | multi-latent-absorb/benchmark_run.py:62-70 | a row is built if and only if all five required keys are present and convert, and its five fields are exactly the converted values stored under them |
| Record.BuildRecordFails | multi-latent-absorb/benchmark_run.py:62-70 | a failure names the first required key, in the literal's order, that is missing or does not convert; every earlier key is fine, and the error is `KeyError` exactly when the key is missing |
| Record.ExtraKeysIgnored | multi-latent-absorb/benchmark_run.py:62-70 | two dictionaries that agree on the five required keys give the same row or the same error, whatever else they hold |
| Sweep.Truncate | multi-latent-absorb/benchmark_run.py:23 | `int(x)` is the integer part of `x`, truncated toward zero |
| Sweep.KvLengths | multi-latent-absorb/benchmark_run.py:23 | one kv-length per sample; each is the sample's truncation, as stated by `Truncate` and `KvLengthsOrdered` |
| Sweep.KvLengthsOrdered | multi-latent-absorb/benchmark_run.py:23 | ascending samples give ascending lengths, and lengths stay within the integer bounds of the samples |
| Sweep.CsvPath | multi-latent-absorb/benchmark_run.py:29-30 | the output path is a `.csv` file whose length is the model name's plus 37; its exact shape is stated by `CsvPathShape`. It is built from the helpers `ResultsDir` (`results/bsz-32`, line 30) and `PathJoin` (line 77), which have no contracts of their own and are covered by this row and `CsvPathShape` |
| Sweep.CsvPathShape | multi-latent-absorb/benchmark_run.py:77 | each model's table goes to `results/bsz-32/benchmark_results_<model lower-cased>.csv` |
| Sweep.CsvPathInjective | multi-latent-absorb/benchmark_run.py:35 | two models sharing a path have the same lower-cased name |
| Sweep.CsvPathsDistinct | multi-latent-absorb/benchmark_run.py:27 | the three models write three distinct files |
| Sweep.Command | multi-latent-absorb/benchmark_run.py:41-49 | the child's argument vector has nine entries and names the model as the `--bench` argument |
| Sweep.CommandInjective | multi-latent-absorb/benchmark_run.py:41-49 | distinct grid points start children with distinct argument vectors |
| Sweep.ModelPoints | multi-latent-absorb/benchmark_run.py:39 | one model's points are its kv-lengths, in order |
| Sweep.Grid | multi-latent-absorb/benchmark_run.py:34-39 | the grid has one point per model and length |
| Sweep.GridAt | multi-latent-absorb/benchmark_run.py:34-39 | point `j` of model `i` is the `i * len(kv_lengths) + j`-th point visited |
| Sweep.SweepGrid | multi-latent-absorb/benchmark_run.py:23-39 | eight lengths give 3 × 8 = 24 children, started model by model and length by length with those models' and lengths' argument vectors |
| Sweep.PointOutcome | multi-latent-absorb/benchmark_run.py:52-71 | a point is skipped exactly when its stdout is blank; any row it yields has batch size 32 and the point's kv-length |
| Sweep.RunPoint | multi-latent-absorb/benchmark_run.py:41-71 | starting the child, checking for blank output, parsing and building the row come to the point's specified outcome |
| Sweep.RowsOf | multi-latent-absorb/benchmark_run.py:36-71 | a model keeps at most one row per length |
| Sweep.Pass | multi-latent-absorb/benchmark_run.py:36-73 | specification fold of one model's inner loop: it keeps no more rows than points visited and visits no more points than lengths; it visits every length unless it aborted, and an abort names the last point visited. What it computes in full is stated by `PassComplete` and `PassAborts` |
| Sweep.RunModel | multi-latent-absorb/benchmark_run.py:36-73 | one model's pass over the lengths keeps at most one row per length, so at most eight |
| Sweep.RunLengths | multi-latent-absorb/benchmark_run.py:36-73 | the inner loop, with `results` starting empty and growing by one row per report, ends in the state of the specification fold `RunModel` |
| Sweep.Combine | multi-latent-absorb/benchmark_run.py:34-79 | specification fold of the outer loop: at most one table per model, and exactly one per model when nothing aborted; stated in full by `CombineComplete` and `CombineAborts` |
| Sweep.RunSweep | multi-latent-absorb/benchmark_run.py:21-79 | the whole sweep writes at most one table per model, and one for every model when nothing aborted; stated in full by `SweepCompletes` and `SweepStops` |
| Sweep.RunBenchmarks | multi-latent-absorb/benchmark_run.py:21-79 | the whole nested loop ends in the state of the specification fold `RunSweep` over the three models and the truncated lengths: the points visited, the tables written and the abort |
| Sweep.PassComplete | multi-latent-absorb/benchmark_run.py:39-73 | a pass with no failing point visits every length in order and keeps the rows of exactly the points that were not skipped, in order |
| Sweep.PassAborts | multi-latent-absorb/benchmark_run.py:39-71 | a pass whose first failing point is `j` has visited lengths up to `j`, keeps the rows before `j`, and aborts with point `j`'s error |
| Sweep.CombineComplete | multi-latent-absorb/benchmark_run.py:34-79 | when no pass aborts, the sweep visits the whole grid and writes one table per model, in model order |
| Sweep.CombineAborts | multi-latent-absorb/benchmark_run.py:34-79 | when model `i`'s pass is the first to abort, only the earlier models' tables are written |
| Sweep.SweepCompletes | multi-latent-absorb/benchmark_run.py:34-79 | when no point raises, every grid point is visited in grid order, and table `i` goes to model `i`'s path holding only model `i`'s rows |
| Sweep.SweepStops | multi-latent-absorb/benchmark_run.py:34-79 | when point `j` of model `i` raises first, the sweep has visited the grid up to that point, written exactly the earlier models' tables and reports that point and its error |
| Sweep.TableRows | multi-latent-absorb/benchmark_run.py:53-71 | with no failure, a model's table has one row per length whose stdout was not blank, with those lengths in order as its `kv_length` column and batch size 32 throughout |
| Sweep.ReportBecomesRow | multi-latent-absorb/benchmark_run.py:52-71 | a child printing a `Key: Value` report, with any whitespace around it (such as the final newline of `print`) and all five keys convertible, yields the row of those values (last occurrence winning) at the point's coordinates |

## Left out

- Device selection and random seeding (lines 1-19) are global runtime setup with no logic.
- The `__main__` block (lines 81-84) and all `print` progress output are left out; they produce console output only.
- The child process (line 52) is the deterministic function `invoke` from the argument vector to `result.stdout`: the child's output after `text=True` has decoded it and translated `\r\n` and a lone `\r` into `\n`. The model's text therefore holds no `\r` from the child's line ends. The child's stderr, exit status and running time are not modelled, because the driver ignores the first two. The benchmark program `mla/benchmark.py` is not part of this model.
- `subprocess.run` (line 52) can itself raise, before any report is parsed. It raises `OSError` when `python3` cannot be started, and `UnicodeDecodeError` when the child's stdout does not decode in the locale's encoding. Either exception is uncaught and ends the whole sweep. `Invoker` is a total function, so the model has no abort at line 52; only a bad report or a bad row aborts it.
- Record.FloatParser: values are `real`, which has no `nan`, `inf` or `-inf`. Python's `float()` accepts those texts (lines 66-69), so a report such as `Mean: nan` yields a row in Python, while in the model `toFloat` can only reject it or map it to some real number.
- `np.logspace(2, 4.8, num=8)` (line 23) is floating-point numerics. The samples are a parameter, and only their truncation to kv-lengths is modelled. The eight concrete lengths are not stated.
- The `float()` coercions (lines 66-69) are the caller-supplied partial function `toFloat`.
- Text.ParseInt: Python's `int()` also accepts surrounding whitespace, underscores between digits and non-ASCII digits. The model accepts only an optional sign and ASCII digits.
- Text.ParseInt: since Python 3.11, `int()` raises `ValueError` on a decimal string of more than 4300 digits (the default integer string conversion limit). The model has no such limit, so on such text it gives a value where Python raises.
- Text.Lower: only ASCII letters are lower-cased. The three model names are ASCII.
- `os.makedirs` (line 31) is filesystem I/O, left out.
- pandas `DataFrame(results).to_csv` (lines 76-78) is modelled as a `Table` pairing the output path with its rows. The CSV bytes are not modelled, including the header-less file an empty table produces.
- Sweep.PathJoin: `os.path.join` is modelled as concatenation with `/`. That is what it does on POSIX for the relative, slash-free parts used here; on Windows it joins with `\` instead.
