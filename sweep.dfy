/**
 * The sweep of `run_benchmarks` (benchmark_run.py, lines 21-79): for each of
 * three models in order, for each kv-length in order, run the benchmark
 * child once, skip a blank report, parse the rest into a row, and when the
 * model's lengths are done store its rows in one file per model.
 *
 * The child process is the function `invoke`, from its argument vector to
 * the text it prints on stdout. An exception raised while parsing a report
 * or building a row is not caught anywhere, so it ends the whole sweep: the
 * model in progress writes no table, and the models after it never run.
 */
module Sweep {
  import opened Wrappers
  import opened Text
  import opened Report
  import opened Record

  const BatchSize: int := 32

  /** The models benchmarked, in the order the sweep visits them. */
  const Models: seq<string> := ["SimpleAttention", "SimpleCompressedAttention", "SimpleAbsorbedAttention"]

  const BaseResultsDir: string := "results"

  /** `int(x)` for a float: the integer part, truncating toward zero. */
  function Truncate(x: real): (r: int)
    ensures x >= 0.0 ==> 0 <= r && r as real <= x < r as real + 1.0
    ensures x < 0.0 ==> r <= 0 && r as real - 1.0 < x <= r as real
  {
    if x >= 0.0 then x.Floor else -((-x).Floor)
  }

  /** `[int(x) for x in samples]`, the kv-lengths made from the log-spaced samples (line 23). */
  function KvLengths(samples: seq<real>): (ls: seq<int>)
    ensures |ls| == |samples|
  {
    seq(|samples|, i requires 0 <= i < |samples| => Truncate(samples[i]))
  }

  /**
   * Truncation keeps the order of ascending samples (neighbouring samples
   * may collapse onto one length) and keeps lengths within integer bounds
   * of the samples.
   */
  lemma {:induction false} KvLengthsOrdered(samples: seq<real>, lo: nat, hi: real)
    requires forall i, j :: 0 <= i <= j < |samples| ==> samples[i] <= samples[j]
    requires forall i :: 0 <= i < |samples| ==> lo as real <= samples[i] <= hi
    ensures forall i, j :: 0 <= i <= j < |samples| ==> KvLengths(samples)[i] <= KvLengths(samples)[j]
    ensures forall i :: 0 <= i < |samples| ==> lo <= KvLengths(samples)[i] && KvLengths(samples)[i] as real <= hi
  {
    var ls := KvLengths(samples);
    forall i, j | 0 <= i <= j < |samples|
      ensures ls[i] <= ls[j]
    {
      assert ls[i] == Truncate(samples[i]) && ls[j] == Truncate(samples[j]);
      assert ls[i] as real <= samples[j];
    }
    forall i | 0 <= i < |samples|
      ensures lo <= ls[i] && ls[i] as real <= hi
    {
      assert ls[i] == Truncate(samples[i]);
    }
  }

  /** `os.path.join(dir, name)` for a relative directory and a plain file name. */
  function PathJoin(dir: string, name: string): string {
    dir + "/" + name
  }

  /** `results/bsz-<batch size>` (line 30). */
  function ResultsDir(): string {
    PathJoin(BaseResultsDir, "bsz-" + IntToString(BatchSize))
  }

  /**
   * Where the table of `model` is written (lines 35 and 77): a `.csv` file
   * whose name grows with the model's name.
   */
  function CsvPath(model: string): (p: string)
    ensures |p| == 37 + |model|
    ensures p[|p| - 4..] == ".csv"
  {
    PathJoin(ResultsDir(), "benchmark_results_" + Lower(model) + ".csv")
  }

  lemma {:induction false} BatchSizeText()
    ensures IntToString(BatchSize) == "32"
  {
  }

  /** Every table goes to `results/bsz-32`, under the lower-cased model name. */
  lemma {:induction false} CsvPathShape(model: string)
    ensures CsvPath(model) == "results/bsz-32/benchmark_results_" + Lower(model) + ".csv"
  {
    BatchSizeText();
  }

  /** Model names that differ other than by letter case get different files. */
  lemma {:induction false} CsvPathInjective(m1: string, m2: string)
    requires CsvPath(m1) == CsvPath(m2)
    ensures Lower(m1) == Lower(m2)
  {
    CsvPathShape(m1);
    CsvPathShape(m2);
    var prefix := "results/bsz-32/benchmark_results_";
    assert CsvPath(m1)[|prefix|..|prefix| + |m1|] == Lower(m1);
    assert |CsvPath(m1)| == |CsvPath(m2)|;
    assert CsvPath(m2)[|prefix|..|prefix| + |m2|] == Lower(m2);
  }

  /**
   * The lower-cased model names (line 35); with `CsvPathShape` they name the
   * files `benchmark_results_simpleattention.csv`,
   * `benchmark_results_simplecompressedattention.csv` and
   * `benchmark_results_simpleabsorbedattention.csv`.
   */
  lemma {:induction false} ModelNames()
    ensures Lower(Models[0]) == "simpleattention"
    ensures Lower(Models[1]) == "simplecompressedattention"
    ensures Lower(Models[2]) == "simpleabsorbedattention"
  {
    LowerSimpleAttention();
    LowerSimpleCompressedAttention();
    LowerSimpleAbsorbedAttention();
  }

  lemma {:induction false} LowerSimpleAttention()
    ensures Lower("SimpleAttention") == "simpleattention"
  {
    LowerName("SimpleAttention", "simpleattention");
  }

  lemma {:induction false} LowerSimpleCompressedAttention()
    ensures Lower("SimpleCompressedAttention") == "simplecompressedattention"
  {
    LowerName("SimpleCompressedAttention", "simplecompressedattention");
  }

  lemma {:induction false} LowerSimpleAbsorbedAttention()
    ensures Lower("SimpleAbsorbedAttention") == "simpleabsorbedattention"
  {
    LowerName("SimpleAbsorbedAttention", "simpleabsorbedattention");
  }

  /** `Lower(m) == n` checked character by character. */
  lemma {:induction false} LowerName(m: string, n: string)
    requires |m| == |n| && forall i :: 0 <= i < |m| ==> LowerChar(m[i]) == n[i]
    ensures Lower(m) == n
  {
  }

  /** The three models write three distinct files: their paths differ in length. */
  lemma {:induction false} CsvPathsDistinct()
    ensures forall i, j :: 0 <= i < j < |Models| ==> CsvPath(Models[i]) != CsvPath(Models[j])
  {
    forall i | 0 <= i < |Models|
      ensures |CsvPath(Models[i])| == 37 + |Models[i]|
    {
      CsvPathShape(Models[i]);
    }
    assert |Models[0]| == 15 && |Models[1]| == 25 && |Models[2]| == 23;
  }

  /** The argument vector of the child for one grid point (lines 41-49). */
  function Command(model: string, kvLength: int): (argv: seq<string>)
    ensures |argv| == 9 && argv[3] == model
  {
    ["python3", "mla/benchmark.py",
     "--bench", model,
     "--kv_len", IntToString(kvLength),
     "--bsz=" + IntToString(BatchSize),
     "--config=mla/config.json",
     "--min_run_time=2.0"]
  }

  /** Distinct grid points start distinct children: the argument vector names both coordinates. */
  lemma {:induction false} CommandInjective(m1: string, l1: int, m2: string, l2: int)
    requires Command(m1, l1) == Command(m2, l2)
    ensures m1 == m2 && l1 == l2
  {
    assert Command(m1, l1)[5] == Command(m2, l2)[5];
    IntToStringInjective(l1, l2);
  }

  /**
   * The child process: its `result.stdout` for an argument vector, that is
   * its output once decoded and with line ends translated to `\n`.
   */
  type Invoker = seq<string> -> string

  /** One grid point: a model and a kv-length, at the fixed batch size. */
  datatype Point = Point(model: string, kvLength: int)

  /** One model's row of the grid, in the order of the lengths. */
  function ModelPoints(model: string, ls: seq<int>): (ps: seq<Point>)
    ensures |ps| == |ls|
    ensures forall j :: 0 <= j < |ls| ==> ps[j] == Point(model, ls[j])
  {
    seq(|ls|, j requires 0 <= j < |ls| => Point(model, ls[j]))
  }

  /** The grid in sweep order: every length of the first model, then every length of the next. */
  function Grid(models: seq<string>, ls: seq<int>): (g: seq<Point>)
    ensures |g| == |models| * |ls|
  {
    if models == [] then []
    else
      var n := |models| - 1;
      Grid(models[..n], ls) + ModelPoints(models[n], ls)
  }

  /** Point `j` of model `i` is the `i * |ls| + j`-th point of the grid. */
  lemma {:induction false} GridAt(models: seq<string>, ls: seq<int>, i: nat, j: nat)
    requires i < |models| && j < |ls|
    ensures i * |ls| + j < |Grid(models, ls)|
    ensures Grid(models, ls)[i * |ls| + j] == Point(models[i], ls[j])
  {
    var n := |models| - 1;
    var prefix := Grid(models[..n], ls);
    assert Grid(models, ls) == prefix + ModelPoints(models[n], ls);
    if i < n {
      GridAt(models[..n], ls, i, j);
      assert models[..n][i] == models[i];
    } else {
      assert i * |ls| == |prefix|;
    }
  }

  /** The argument vectors of a run of grid points, in order. */
  function Invocations(points: seq<Point>): (argvs: seq<seq<string>>)
    ensures |argvs| == |points|
  {
    seq(|points|, k requires 0 <= k < |points| => Command(points[k].model, points[k].kvLength))
  }

  /** The sweep's eight lengths give 24 children, model by model and length by length. */
  lemma {:induction false} SweepGrid(ls: seq<int>)
    requires |ls| == 8
    ensures |Grid(Models, ls)| == 24
    ensures forall i, j :: 0 <= i < 3 && 0 <= j < 8 ==>
              Invocations(Grid(Models, ls))[8 * i + j] == Command(Models[i], ls[j])
  {
    forall i, j | 0 <= i < 3 && 0 <= j < 8
      ensures Invocations(Grid(Models, ls))[8 * i + j] == Command(Models[i], ls[j])
    {
      GridAt(Models, ls, i, j);
    }
  }

  datatype PointError = BadReport(parse: ParseError) | BadRecord(record: RecordError)

  /** What one grid point comes to: no output, a row, or an exception. */
  datatype PointResult = Skipped | Recorded(row: Row) | Failed(error: PointError)

  /** Lines 52-71 for one grid point. */
  function PointOutcome(model: string, kvLength: int, invoke: Invoker, toFloat: FloatParser): (r: PointResult)
    ensures r.Skipped? <==> AllSpace(invoke(Command(model, kvLength)))
    ensures r.Recorded? ==> r.row.bsz == BatchSize && r.row.kvLength == kvLength
  {
    var stdout := invoke(Command(model, kvLength));
    if Strip(stdout) == [] then Skipped
    else match ParseText(stdout)
      case Failure(e) => Failed(BadReport(e))
      case Success(parsed) =>
        match BuildRecord(BatchSize, kvLength, parsed, toFloat)
        case Failure(e) => Failed(BadRecord(e))
        case Success(row) => Recorded(row)
  }

  /** The outcome of every length of one model. */
  function PointOutcomes(model: string, ls: seq<int>, invoke: Invoker, toFloat: FloatParser): (os: seq<PointResult>)
    ensures |os| == |ls|
  {
    seq(|ls|, j requires 0 <= j < |ls| => PointOutcome(model, ls[j], invoke, toFloat))
  }

  /** The exception that ended a sweep, and the grid point that raised it. */
  datatype Abort = Abort(point: Point, error: PointError)

  /** One model's pass over the lengths: the points run, the rows kept, and an abort if one happened. */
  datatype ModelRun = ModelRun(visited: seq<Point>, rows: seq<Row>, abort: Option<Abort>)

  /** One more point of a pass that has not aborted. */
  function Advance(run: ModelRun, p: Point, o: PointResult): ModelRun {
    var visited := run.visited + [p];
    match o
    case Skipped => ModelRun(visited, run.rows, None)
    case Recorded(row) => ModelRun(visited, run.rows + [row], None)
    case Failed(e) => ModelRun(visited, run.rows, Some(Abort(p, e)))
  }

  /** A pass over the lengths `ls` whose points come out as `os`, stopping at the first failure. */
  function Pass(model: string, ls: seq<int>, os: seq<PointResult>): (r: ModelRun)
    requires |os| == |ls|
    ensures |r.rows| <= |r.visited| <= |ls|
    ensures r.abort.None? ==> |r.visited| == |ls|
    ensures r.abort.Some? ==> r.visited != [] && r.abort.value.point == r.visited[|r.visited| - 1]
  {
    if ls == [] then ModelRun([], [], None)
    else
      var n := |ls| - 1;
      var prev := Pass(model, ls[..n], os[..n]);
      if prev.abort.Some? then prev else Advance(prev, Point(model, ls[n]), os[n])
  }

  /** The inner loop (lines 36-73) over the lengths `ls` for one model. */
  function RunModel(model: string, ls: seq<int>, invoke: Invoker, toFloat: FloatParser): (r: ModelRun)
    ensures |r.rows| <= |ls|
  {
    Pass(model, ls, PointOutcomes(model, ls, invoke, toFloat))
  }

  /** The rows of the points that printed a report, in order. */
  function RowsOf(os: seq<PointResult>): (rows: seq<Row>)
    ensures |rows| <= |os|
  {
    if os == [] then []
    else
      var n := |os| - 1;
      match os[n]
      case Recorded(row) => RowsOf(os[..n]) + [row]
      case _ => RowsOf(os[..n])
  }

  /** A written table: the file it goes to and the rows it holds. */
  datatype Table = Table(path: string, rows: seq<Row>)

  /** The whole sweep: the points run, the tables written, and an abort if one happened. */
  datatype SweepRun = SweepRun(visited: seq<Point>, written: seq<Table>, abort: Option<Abort>)

  /** The end of one model's pass: its table is written unless the pass aborted. */
  function Close(s: SweepRun, model: string, run: ModelRun): SweepRun {
    var visited := s.visited + run.visited;
    if run.abort.Some? then SweepRun(visited, s.written, run.abort)
    else SweepRun(visited, s.written + [Table(CsvPath(model), run.rows)], None)
  }

  /** A sweep over `models` whose passes come out as `runs`, stopping at the first abort. */
  function Combine(models: seq<string>, runs: seq<ModelRun>): (r: SweepRun)
    requires |runs| == |models|
    ensures |r.written| <= |models|
    ensures r.abort.None? ==> |r.written| == |models|
  {
    if models == [] then SweepRun([], [], None)
    else
      var n := |models| - 1;
      var prev := Combine(models[..n], runs[..n]);
      if prev.abort.Some? then prev else Close(prev, models[n], runs[n])
  }

  function ModelRuns(models: seq<string>, ls: seq<int>, invoke: Invoker, toFloat: FloatParser): (runs: seq<ModelRun>)
    ensures |runs| == |models|
  {
    seq(|models|, i requires 0 <= i < |models| => RunModel(models[i], ls, invoke, toFloat))
  }

  /** The outer loop (lines 34-79) over `models`. */
  function RunSweep(models: seq<string>, ls: seq<int>, invoke: Invoker, toFloat: FloatParser): (r: SweepRun)
    ensures |r.written| <= |models|
    ensures r.abort.None? ==> |r.written| == |models|
  {
    Combine(models, ModelRuns(models, ls, invoke, toFloat))
  }

  /**
   * `run_benchmarks`: the loop over the models, each pass with its own
   * `results`, and its table written when the pass did not abort.
   */
  method RunBenchmarks(samples: seq<real>, invoke: Invoker, toFloat: FloatParser)
    returns (visited: seq<Point>, written: seq<Table>, abort: Option<Abort>)
    ensures SweepRun(visited, written, abort) == RunSweep(Models, KvLengths(samples), invoke, toFloat)
  {
    var kvLengths := KvLengths(samples);
    var resultsDir := ResultsDir();
    ghost var runs := ModelRuns(Models, kvLengths, invoke, toFloat);
    visited, written, abort := [], [], None;
    var i := 0;
    while i < |Models|
      invariant 0 <= i <= |Models|
      invariant Combine(Models[..i], runs[..i]) == SweepRun(visited, written, None)
    {
      var model := Models[i];
      var modelName := Lower(model);
      var points, results, failure := RunLengths(model, kvLengths, invoke, toFloat);
      assert runs[i] == ModelRun(points, results, failure);
      CombineStep(Models, runs, i);
      visited := visited + points;
      if failure.Some? {
        abort := failure;
        CombineAbortSticks(Models, runs, i + 1);
        return;
      }
      written := written + [Table(PathJoin(resultsDir, "benchmark_results_" + modelName + ".csv"), results)];
      i := i + 1;
    }
    assert Models[..i] == Models && runs[..i] == runs;
  }

  /**
   * The loop over the lengths for one model (lines 36-73): one child per
   * length, one row per report, and the first exception ending the pass.
   */
  method RunLengths(model: string, kvLengths: seq<int>, invoke: Invoker, toFloat: FloatParser)
    returns (points: seq<Point>, results: seq<Row>, abort: Option<Abort>)
    ensures ModelRun(points, results, abort) == RunModel(model, kvLengths, invoke, toFloat)
  {
    ghost var os := PointOutcomes(model, kvLengths, invoke, toFloat);
    points, results, abort := [], [], None;
    var j := 0;
    while j < |kvLengths|
      invariant 0 <= j <= |kvLengths|
      invariant Pass(model, kvLengths[..j], os[..j]) == ModelRun(points, results, None)
    {
      var length := kvLengths[j];
      var outcome := RunPoint(model, length, invoke, toFloat);
      assert os[j] == outcome;
      PassStep(model, kvLengths, os, j);
      points := points + [Point(model, length)];
      if outcome.Failed? {
        abort := Some(Abort(Point(model, length), outcome.error));
        PassAbortSticks(model, kvLengths, os, j + 1);
        return;
      }
      if outcome.Recorded? {
        results := results + [outcome.row];
      }
      j := j + 1;
    }
    assert kvLengths[..j] == kvLengths && os[..j] == os;
  }

  /**
   * One grid point (lines 41-71): start the child, and unless it printed
   * only whitespace, parse its report and build the row.
   */
  method RunPoint(model: string, length: int, invoke: Invoker, toFloat: FloatParser) returns (outcome: PointResult)
    ensures outcome == PointOutcome(model, length, invoke, toFloat)
  {
    var cmd := Command(model, length);
    var stdout := invoke(cmd);
    if Strip(stdout) == [] {
      return Skipped;
    }
    var parsed := ParseReport(stdout);
    if parsed.Failure? {
      return Failed(BadReport(parsed.error));
    }
    var row := BuildRecord(BatchSize, length, parsed.value, toFloat);
    if row.Failure? {
      return Failed(BadRecord(row.error));
    }
    return Recorded(row.value);
  }

  /** A pass over one more length advances the pass over the shorter prefix. */
  lemma {:induction false} PassStep(model: string, ls: seq<int>, os: seq<PointResult>, n: nat)
    requires |os| == |ls| && n < |ls|
    ensures var prev := Pass(model, ls[..n], os[..n]);
            Pass(model, ls[..n + 1], os[..n + 1]) ==
              if prev.abort.Some? then prev else Advance(prev, Point(model, ls[n]), os[n])
  {
    assert ls[..n + 1][..n] == ls[..n];
    assert os[..n + 1][..n] == os[..n];
  }

  /** A sweep over one more model closes that model's pass after the shorter prefix. */
  lemma {:induction false} CombineStep(models: seq<string>, runs: seq<ModelRun>, n: nat)
    requires |runs| == |models| && n < |models|
    ensures var prev := Combine(models[..n], runs[..n]);
            Combine(models[..n + 1], runs[..n + 1]) ==
              if prev.abort.Some? then prev else Close(prev, models[n], runs[n])
  {
    assert models[..n + 1][..n] == models[..n];
    assert runs[..n + 1][..n] == runs[..n];
  }

  /** Once a prefix of the lengths aborts, the model's pass is that prefix's pass. */
  lemma {:induction false} PassAbortSticks(model: string, ls: seq<int>, os: seq<PointResult>, n: nat)
    requires |os| == |ls| && n <= |ls| && Pass(model, ls[..n], os[..n]).abort.Some?
    ensures Pass(model, ls, os) == Pass(model, ls[..n], os[..n])
    decreases |ls| - n
  {
    if n < |ls| {
      var m := |ls| - 1;
      assert ls[..m][..n] == ls[..n] && os[..m][..n] == os[..n];
      PassAbortSticks(model, ls[..m], os[..m], n);
    } else {
      assert ls[..n] == ls && os[..n] == os;
    }
  }

  /** Once a prefix of the models aborts, the sweep is that prefix's sweep. */
  lemma {:induction false} CombineAbortSticks(models: seq<string>, runs: seq<ModelRun>, n: nat)
    requires |runs| == |models| && n <= |models| && Combine(models[..n], runs[..n]).abort.Some?
    ensures Combine(models, runs) == Combine(models[..n], runs[..n])
    decreases |models| - n
  {
    if n < |models| {
      var m := |models| - 1;
      assert models[..m][..n] == models[..n] && runs[..m][..n] == runs[..n];
      CombineAbortSticks(models[..m], runs[..m], n);
    } else {
      assert models[..n] == models && runs[..n] == runs;
    }
  }

  /** A pass in which no point fails runs every length and keeps the rows of the points that printed a report. */
  lemma {:induction false} PassComplete(model: string, ls: seq<int>, os: seq<PointResult>)
    requires |os| == |ls|
    requires forall j :: 0 <= j < |os| ==> !os[j].Failed?
    ensures Pass(model, ls, os) == ModelRun(ModelPoints(model, ls), RowsOf(os), None)
  {
    if ls != [] {
      var n := |ls| - 1;
      assert forall j :: 0 <= j < n ==> os[..n][j] == os[j];
      PassComplete(model, ls[..n], os[..n]);
      assert ModelPoints(model, ls[..n]) + [Point(model, ls[n])] == ModelPoints(model, ls);
    }
  }

  /**
   * A pass whose first failing point is `j` stops there: it has run the
   * lengths up to and including `j`, and the abort names point `j` and its error.
   */
  lemma {:induction false} PassAborts(model: string, ls: seq<int>, os: seq<PointResult>, j: nat)
    requires |os| == |ls| && j < |ls| && os[j].Failed?
    requires forall k :: 0 <= k < j ==> !os[k].Failed?
    ensures Pass(model, ls, os) ==
              ModelRun(ModelPoints(model, ls[..j + 1]), RowsOf(os[..j]), Some(Abort(Point(model, ls[j]), os[j].error)))
  {
    PassComplete(model, ls[..j], os[..j]);
    PassStep(model, ls, os, j);
    PassAbortSticks(model, ls, os, j + 1);
    assert ModelPoints(model, ls[..j]) + [Point(model, ls[j])] == ModelPoints(model, ls[..j + 1]);
  }

  /** The tables of passes that all completed, one per model and in model order. */
  function Tables(models: seq<string>, runs: seq<ModelRun>): (ts: seq<Table>)
    requires |runs| == |models|
    ensures |ts| == |models|
  {
    seq(|models|, i requires 0 <= i < |models| => Table(CsvPath(models[i]), runs[i].rows))
  }

  /** A sweep in which every pass completes runs the whole grid and writes one table per model. */
  lemma {:induction false} CombineComplete(models: seq<string>, ls: seq<int>, runs: seq<ModelRun>)
    requires |runs| == |models|
    requires forall i :: 0 <= i < |runs| ==> runs[i].abort.None? && runs[i].visited == ModelPoints(models[i], ls)
    ensures Combine(models, runs) == SweepRun(Grid(models, ls), Tables(models, runs), None)
  {
    if models != [] {
      var n := |models| - 1;
      assert forall i :: 0 <= i < n ==> runs[..n][i] == runs[i] && models[..n][i] == models[i];
      CombineComplete(models[..n], ls, runs[..n]);
      assert Tables(models[..n], runs[..n]) + [Table(CsvPath(models[n]), runs[n].rows)] == Tables(models, runs);
    }
  }

  /**
   * A sweep whose first aborting pass is that of model `i` has written the
   * tables of the models before it, and no other.
   */
  lemma {:induction false} CombineAborts(models: seq<string>, ls: seq<int>, runs: seq<ModelRun>, i: nat)
    requires |runs| == |models| && i < |models| && runs[i].abort.Some?
    requires forall k :: 0 <= k < i ==> runs[k].abort.None? && runs[k].visited == ModelPoints(models[k], ls)
    ensures Combine(models, runs) ==
              SweepRun(Grid(models[..i], ls) + runs[i].visited, Tables(models[..i], runs[..i]), runs[i].abort)
  {
    CombineComplete(models[..i], ls, runs[..i]);
    CombineStep(models, runs, i);
    CombineAbortSticks(models, runs, i + 1);
  }

  /** No point of `model` over the lengths `ls` raises. */
  predicate NoFailure(model: string, ls: seq<int>, invoke: Invoker, toFloat: FloatParser) {
    forall j :: 0 <= j < |ls| ==> !PointOutcome(model, ls[j], invoke, toFloat).Failed?
  }

  /**
   * When no grid point raises, the sweep starts the child of every grid point
   * in grid order and writes each model's table, holding the rows of that
   * model's points only, to that model's file.
   */
  lemma {:induction false} SweepCompletes(models: seq<string>, ls: seq<int>, invoke: Invoker, toFloat: FloatParser)
    requires forall i :: 0 <= i < |models| ==> NoFailure(models[i], ls, invoke, toFloat)
    ensures var s := RunSweep(models, ls, invoke, toFloat);
            && s.abort == None
            && s.visited == Grid(models, ls)
            && |s.written| == |models|
            && forall i :: 0 <= i < |models| ==>
                 s.written[i] == Table(CsvPath(models[i]), RowsOf(PointOutcomes(models[i], ls, invoke, toFloat)))
  {
    var runs := ModelRuns(models, ls, invoke, toFloat);
    forall i | 0 <= i < |models|
      ensures runs[i] == ModelRun(ModelPoints(models[i], ls), RowsOf(PointOutcomes(models[i], ls, invoke, toFloat)), None)
    {
      PassComplete(models[i], ls, PointOutcomes(models[i], ls, invoke, toFloat));
    }
    CombineComplete(models, ls, runs);
  }

  /**
   * When point `j` of model `i` is the first grid point that raises, the
   * sweep ends there: it has started the children of the grid up to that
   * point, written the tables of the earlier models and no other, and
   * reports that point's error.
   */
  lemma {:induction false} SweepStops(models: seq<string>, ls: seq<int>, invoke: Invoker, toFloat: FloatParser, i: nat, j: nat)
    requires i < |models| && j < |ls|
    requires forall k :: 0 <= k < i ==> NoFailure(models[k], ls, invoke, toFloat)
    requires NoFailure(models[i], ls[..j], invoke, toFloat)
    requires PointOutcome(models[i], ls[j], invoke, toFloat).Failed?
    ensures var s := RunSweep(models, ls, invoke, toFloat);
            && s.visited == Grid(models[..i], ls) + ModelPoints(models[i], ls[..j + 1])
            && |s.written| == i
            && (forall k :: 0 <= k < i ==>
                  s.written[k] == Table(CsvPath(models[k]), RowsOf(PointOutcomes(models[k], ls, invoke, toFloat))))
            && s.abort == Some(Abort(Point(models[i], ls[j]), PointOutcome(models[i], ls[j], invoke, toFloat).error))
  {
    var runs := ModelRuns(models, ls, invoke, toFloat);
    forall k | 0 <= k < i
      ensures runs[k] == ModelRun(ModelPoints(models[k], ls), RowsOf(PointOutcomes(models[k], ls, invoke, toFloat)), None)
    {
      PassComplete(models[k], ls, PointOutcomes(models[k], ls, invoke, toFloat));
    }
    var os := PointOutcomes(models[i], ls, invoke, toFloat);
    assert forall k :: 0 <= k < j ==> ls[..j][k] == ls[k];
    PassAborts(models[i], ls, os, j);
    CombineAborts(models, ls, runs, i);
  }

  /** What the child of each length of `model` prints. */
  function Stdouts(model: string, ls: seq<int>, invoke: Invoker): (outs: seq<string>)
    ensures |outs| == |ls|
  {
    seq(|ls|, j requires 0 <= j < |ls| => invoke(Command(model, ls[j])))
  }

  /** The lengths of `ls`, in order, whose child printed something other than whitespace. */
  function ReportedLengths(ls: seq<int>, outs: seq<string>): seq<int>
    requires |outs| == |ls|
  {
    if ls == [] then []
    else
      var n := |ls| - 1;
      var rest := ReportedLengths(ls[..n], outs[..n]);
      if AllSpace(outs[n]) then rest else rest + [ls[n]]
  }

  /** The `kv_length` column of a table. */
  function KvColumn(rows: seq<Row>): (col: seq<int>)
    ensures |col| == |rows|
  {
    seq(|rows|, k requires 0 <= k < |rows| => rows[k].kvLength)
  }

  /**
   * For outcomes that skip exactly the blank outputs and record rows at
   * their own length, the rows kept are one per non-blank output, in order.
   */
  lemma {:induction false} RowsOfReported(ls: seq<int>, outs: seq<string>, os: seq<PointResult>)
    requires |outs| == |ls| && |os| == |ls|
    requires forall j :: 0 <= j < |os| ==>
               && !os[j].Failed?
               && (os[j].Skipped? <==> AllSpace(outs[j]))
               && (os[j].Recorded? ==> os[j].row.kvLength == ls[j] && os[j].row.bsz == BatchSize)
    ensures KvColumn(RowsOf(os)) == ReportedLengths(ls, outs)
    ensures forall k :: 0 <= k < |RowsOf(os)| ==> RowsOf(os)[k].bsz == BatchSize
  {
    if ls != [] {
      var n := |ls| - 1;
      assert forall j :: 0 <= j < n ==> os[..n][j] == os[j] && outs[..n][j] == outs[j] && ls[..n][j] == ls[j];
      RowsOfReported(ls[..n], outs[..n], os[..n]);
      if os[n].Recorded? {
        var prev := RowsOf(os[..n]);
        assert KvColumn(prev + [os[n].row]) == KvColumn(prev) + [ls[n]];
      }
    }
  }

  /**
   * When no point of `model` raises, its table has one row per length that
   * printed a report, in the order of the lengths, each with batch size 32.
   */
  lemma {:induction false} TableRows(model: string, ls: seq<int>, invoke: Invoker, toFloat: FloatParser)
    requires NoFailure(model, ls, invoke, toFloat)
    ensures var rows := RowsOf(PointOutcomes(model, ls, invoke, toFloat));
            && KvColumn(rows) == ReportedLengths(ls, Stdouts(model, ls, invoke))
            && forall k :: 0 <= k < |rows| ==> rows[k].bsz == BatchSize
  {
    RowsOfReported(ls, Stdouts(model, ls, invoke), PointOutcomes(model, ls, invoke, toFloat));
  }

  /**
   * A report printed in the benchmark's layout, with any whitespace around
   * it (such as the final newline of `print`), holding all five required
   * keys with convertible values (the last occurrence of a key counting),
   * becomes the row of those values at the grid point's coordinates.
   */
  lemma {:induction false} ReportBecomesRow(model: string, kvLength: int, invoke: Invoker, toFloat: FloatParser,
                                            w1: string, es: seq<Entry>, w2: string)
    requires AllSpace(w1) && AllSpace(w2)
    requires |es| >= 1 && forall i :: 0 <= i < |es| ==> Token(es[i].key) && Token(es[i].value)
    requires invoke(Command(model, kvLength)) == w1 + Render(es) + w2
    requires var parsed := Collect(es);
             && FieldOk(parsed, "Cache_Size", toFloat) && FieldOk(parsed, "Mean", toFloat)
             && FieldOk(parsed, "Median", toFloat) && FieldOk(parsed, "P25", toFloat) && FieldOk(parsed, "P75", toFloat)
    ensures var parsed := Collect(es);
            PointOutcome(model, kvLength, invoke, toFloat) ==
              Recorded(Row(BatchSize, kvLength,
                           ParseInt(parsed["Cache_Size"]).value,
                           toFloat(parsed["Mean"]).value,
                           toFloat(parsed["Median"]).value,
                           toFloat(parsed["P25"]).value,
                           toFloat(parsed["P75"]).value))
  {
    PaddedRoundTrip(w1, es, w2);
    RenderTrimmed(es);
    BuildRecordSucceeds(BatchSize, kvLength, Collect(es), toFloat);
  }
}
