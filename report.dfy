/**
 * The `key: value` report the benchmark child prints on stdout, and the loop
 * that turns it into a dictionary (benchmark_run.py, lines 53-59).
 */
module Report {
  import opened Wrappers
  import opened Text

  /** One parsed line: its trimmed key and trimmed value. */
  datatype Entry = Entry(key: string, value: string)

  /**
   * The `ValueError` that `key, value = [...]` raises: the line with index
   * `line` split into `pieces` pieces instead of two.
   */
  datatype ParseError = Unpack(line: nat, pieces: nat)

  /** The lines of a report: the trimmed text split on newlines. */
  function ReportLines(stdout: string): (lines: seq<string>)
    ensures |lines| >= 1
    ensures forall i :: 0 <= i < |lines| ==> '\n' !in lines[i]
  {
    Split(Strip(stdout), '\n')
  }

  /** `[x.strip() for x in line.split(':')]`. */
  function Pieces(line: string): (ps: seq<string>)
    ensures |ps| == Count(line, ':') + 1
  {
    var raw := Split(line, ':');
    seq(|raw|, i requires 0 <= i < |raw| => Strip(raw[i]))
  }

  /** One line, `key, value = [x.strip() for x in line.split(':')]` (line 58). */
  function ParseLine(line: string): (r: Result<Entry, nat>)
    ensures r.Success? <==> Count(line, ':') == 1
    ensures r.Failure? ==> r.error == Count(line, ':') + 1 && r.error != 2
  {
    var ps := Pieces(line);
    if |ps| == 2 then Success(Entry(ps[0], ps[1])) else Failure(|ps|)
  }

  /**
   * A line parses exactly when it holds exactly one colon, into the trimmed
   * text before the colon and the trimmed text after it; otherwise the error
   * is the number of pieces the colons cut it into.
   */
  lemma {:induction false} ParseLineMeaning(line: string)
    ensures ParseLine(line).Success? <==> Count(line, ':') == 1
    ensures ParseLine(line).Failure? ==> ParseLine(line).error == Count(line, ':') + 1
    ensures ParseLine(line).Success? ==>
              exists i :: 0 <= i < |line| && line[i] == ':' &&
                          ':' !in line[..i] && ':' !in line[i + 1..] &&
                          ParseLine(line).value == Entry(Strip(line[..i]), Strip(line[i + 1..]))
  {
    var raw := Split(line, ':');
    if |raw| == 2 {
      JoinSplit(line, ':');
      assert line == raw[0] + [':'] + raw[1];
      assert line[..|raw[0]|] == raw[0] && line[|raw[0]| + 1..] == raw[1];
    }
  }

  /** The outcome of every line, in order. */
  function Outcomes(lines: seq<string>): (outs: seq<Result<Entry, nat>>)
    ensures |outs| == |lines|
  {
    seq(|lines|, i requires 0 <= i < |lines| => ParseLine(lines[i]))
  }

  /**
   * The entries of a run of line outcomes taken in order: all of them when
   * every line parsed, and otherwise the error of the first line that did not.
   */
  function Gather(outs: seq<Result<Entry, nat>>): (r: Result<seq<Entry>, ParseError>)
    ensures r.Success? <==> forall i :: 0 <= i < |outs| ==> outs[i].Success?
    ensures r.Success? ==> |r.value| == |outs| &&
                           forall i :: 0 <= i < |outs| ==> r.value[i] == outs[i].value
    ensures r.Failure? ==> r.error.line < |outs| && outs[r.error.line] == Failure(r.error.pieces) &&
                           forall i :: 0 <= i < r.error.line ==> outs[i].Success?
  {
    if outs == [] then Success([])
    else
      var n := |outs| - 1;
      assert forall i :: 0 <= i < n ==> outs[..n][i] == outs[i];
      match Gather(outs[..n])
      case Failure(e) => Failure(e)
      case Success(es) =>
        match outs[n]
        case Failure(k) => Failure(Unpack(n, k))
        case Success(e) => Success(es + [e])
  }

  /** Once a prefix of the outcomes holds a failure, the whole run fails with the same error. */
  lemma {:induction false} FailureSticks(outs: seq<Result<Entry, nat>>, n: nat)
    requires n <= |outs| && Gather(outs[..n]).Failure?
    ensures Gather(outs) == Gather(outs[..n])
  {
    var e := Gather(outs[..n]).error;
    assert forall i :: 0 <= i < n ==> outs[..n][i] == outs[i];
    assert outs[e.line].Failure?;
    var f := Gather(outs).error;
    assert forall i :: 0 <= i < e.line ==> outs[i].Success?;
    assert f.line == e.line;
  }

  /** No later entry repeats the key of entry `i`. */
  predicate LastWithKey(es: seq<Entry>, i: nat)
    requires i < |es|
  {
    forall j :: i < j < |es| ==> es[j].key != es[i].key
  }

  /**
   * The dictionary the entries build when stored one after the other: it has
   * no more keys than there are entries, and the last entry's value stays.
   */
  function Collect(es: seq<Entry>): (m: map<string, string>)
    ensures |m| <= |es|
    ensures es != [] ==> es[|es| - 1].key in m && m[es[|es| - 1].key] == es[|es| - 1].value
  {
    if es == [] then map[] else Collect(es[..|es| - 1])[es[|es| - 1].key := es[|es| - 1].value]
  }

  /** The keys of the dictionary are exactly the entries' keys. */
  lemma {:induction false} CollectKeys(es: seq<Entry>)
    ensures forall k :: k in Collect(es) <==> exists i :: 0 <= i < |es| && es[i].key == k
  {
    if es != [] {
      var n := |es| - 1;
      var prefix := es[..n];
      CollectKeys(prefix);
      assert Collect(es) == Collect(prefix)[es[n].key := es[n].value];
      forall k
        ensures k in Collect(es) <==> exists i :: 0 <= i < |es| && es[i].key == k
      {
        if k != es[n].key {
          if k in Collect(es) {
            var i :| 0 <= i < n && prefix[i].key == k;
            assert es[i].key == k;
          }
          if exists i :: 0 <= i < |es| && es[i].key == k {
            var i :| 0 <= i < |es| && es[i].key == k;
            assert prefix[i].key == k;
          }
        }
      }
    }
  }

  /** A key that repeats holds the value of its last occurrence. */
  lemma {:induction false} CollectLastWins(es: seq<Entry>, i: nat)
    requires i < |es| && LastWithKey(es, i)
    ensures es[i].key in Collect(es) && Collect(es)[es[i].key] == es[i].value
  {
    var n := |es| - 1;
    if i < n {
      var prefix := es[..n];
      assert prefix[i] == es[i];
      assert LastWithKey(prefix, i);
      CollectLastWins(prefix, i);
    }
  }

  /** What lines 55-59 leave behind for a non-blank stdout: the dictionary, or the error raised. */
  function ParseText(stdout: string): (r: Result<map<string, string>, ParseError>)
    ensures r.Success? ==> |r.value| <= |ReportLines(stdout)|
    ensures r.Failure? ==> r.error.line < |ReportLines(stdout)| && r.error.pieces != 2
  {
    match Gather(Outcomes(ReportLines(stdout)))
    case Failure(e) => Failure(e)
    case Success(es) => Success(Collect(es))
  }

  /** The parsing loop of lines 55-59, storing one key after the other. */
  method ParseReport(stdout: string) returns (r: Result<map<string, string>, ParseError>)
    ensures r == ParseText(stdout)
  {
    var outputLines := Strip(stdout);
    var lines := Split(outputLines, '\n');
    var parsed: map<string, string> := map[];
    ghost var es: seq<Entry> := [];
    ghost var outs := Outcomes(lines);
    var i := 0;
    while i < |lines|
      invariant 0 <= i <= |lines|
      invariant Gather(outs[..i]) == Success(es)
      invariant parsed == Collect(es)
    {
      var pieces := Pieces(lines[i]);
      assert outs[i] == ParseLine(lines[i]);
      if |pieces| != 2 {
        GatherStops(outs, i);
        return Failure(Unpack(i, |pieces|));
      }
      var entry := Entry(pieces[0], pieces[1]);
      parsed := parsed[entry.key := entry.value];
      GatherExtends(outs, i, entry);
      CollectExtends(es, entry);
      es := es + [entry];
      i := i + 1;
    }
    assert outs[..i] == outs;
    return Success(parsed);
  }

  /** One more parsed line adds its entry to the ones gathered so far. */
  lemma {:induction false} GatherExtends(outs: seq<Result<Entry, nat>>, n: nat, e: Entry)
    requires n < |outs| && Gather(outs[..n]).Success? && outs[n] == Success(e)
    ensures Gather(outs[..n + 1]) == Success(Gather(outs[..n]).value + [e])
  {
    assert outs[..n + 1][..n] == outs[..n];
  }

  /** The first line that does not parse decides the outcome of the whole run. */
  lemma {:induction false} GatherStops(outs: seq<Result<Entry, nat>>, n: nat)
    requires n < |outs| && Gather(outs[..n]).Success? && outs[n].Failure?
    ensures Gather(outs) == Failure(Unpack(n, outs[n].error))
  {
    assert outs[..n + 1][..n] == outs[..n];
    FailureSticks(outs, n + 1);
  }

  lemma {:induction false} CollectExtends(es: seq<Entry>, e: Entry)
    ensures Collect(es + [e]) == Collect(es)[e.key := e.value]
  {
    assert (es + [e])[..|es|] == es;
  }

  /** A report parses exactly when each of its lines holds exactly one colon. */
  lemma {:induction false} ParseTextSucceedsIff(stdout: string)
    ensures ParseText(stdout).Success? <==>
            forall i :: 0 <= i < |ReportLines(stdout)| ==> Count(ReportLines(stdout)[i], ':') == 1
  {
    var lines := ReportLines(stdout);
    var outs := Outcomes(lines);
    forall i | 0 <= i < |lines|
      ensures outs[i].Success? <==> Count(lines[i], ':') == 1
    {
      ParseLineMeaning(lines[i]);
    }
  }

  /**
   * A report that does not parse fails at its first line without exactly one
   * colon, and the error counts the pieces that line splits into.
   */
  lemma {:induction false} ParseTextFirstError(stdout: string)
    requires ParseText(stdout).Failure?
    ensures var e := ParseText(stdout).error;
            var lines := ReportLines(stdout);
            && e.line < |lines|
            && Count(lines[e.line], ':') != 1
            && e.pieces == Count(lines[e.line], ':') + 1
            && forall i :: 0 <= i < e.line ==> Count(lines[i], ':') == 1
  {
    var lines := ReportLines(stdout);
    var outs := Outcomes(lines);
    var e := ParseText(stdout).error;
    assert Gather(outs).error == e;
    ParseLineMeaning(lines[e.line]);
    forall i | 0 <= i < e.line
      ensures Count(lines[i], ':') == 1
    {
      assert outs[i] == ParseLine(lines[i]) && outs[i].Success?;
      ParseLineMeaning(lines[i]);
    }
  }

  /** A key or value as the benchmark prints it: non-empty, trimmed, with no colon and no newline. */
  predicate Token(s: string) {
    s != [] && !IsSpace(s[0]) && !IsSpace(s[|s| - 1]) && ':' !in s && '\n' !in s
  }

  function RenderLine(e: Entry): string {
    e.key + ": " + e.value
  }

  /** The lines of a report printed in the benchmark's layout. */
  function RenderedLines(es: seq<Entry>): (lines: seq<string>)
    ensures |lines| == |es|
  {
    seq(|es|, i requires 0 <= i < |es| => RenderLine(es[i]))
  }

  /** A report in the benchmark's own `Key: Value` layout, one entry per line. */
  function Render(es: seq<Entry>): string {
    Join(RenderedLines(es), '\n')
  }

  lemma {:induction false} SplitRenderedLine(e: Entry)
    requires Token(e.key) && Token(e.value)
    ensures Split(RenderLine(e), ':') == [e.key, " " + e.value]
  {
    assert RenderLine(e) == e.key + [':'] + (" " + e.value);
    SplitAfterPiece(e.key, " " + e.value, ':');
    SplitWithoutSep(" " + e.value, ':');
  }

  lemma {:induction false} ParseRenderedLine(e: Entry)
    requires Token(e.key) && Token(e.value)
    ensures ParseLine(RenderLine(e)) == Success(e)
  {
    SplitRenderedLine(e);
    StripUnchanged(e.key);
    StripPadded(" ", e.value, []);
    assert " " + e.value + [] == " " + e.value;
    assert Pieces(RenderLine(e)) == [e.key, e.value];
  }

  /** A report printed in the benchmark's layout is non-empty and has nothing to strip at either end. */
  lemma {:induction false} RenderTrimmed(es: seq<Entry>)
    requires |es| >= 1
    requires forall i :: 0 <= i < |es| ==> Token(es[i].key) && Token(es[i].value)
    ensures var text := Render(es);
            text != [] && !IsSpace(text[0]) && !IsSpace(text[|text| - 1])
  {
    var lines := RenderedLines(es);
    JoinFirst(lines, '\n');
    JoinLast(lines, '\n');
    var last := lines[|lines| - 1];
    assert last[|last| - 1] == es[|es| - 1].value[|es[|es| - 1].value| - 1];
  }

  /** A report printed in the benchmark's layout splits back into its lines. */
  lemma {:induction false} ReportLinesOfRender(es: seq<Entry>)
    requires |es| >= 1
    requires forall i :: 0 <= i < |es| ==> Token(es[i].key) && Token(es[i].value)
    ensures ReportLines(Render(es)) == RenderedLines(es)
  {
    var lines := RenderedLines(es);
    var text := Render(es);
    assert forall i :: 0 <= i < |lines| ==> '\n' !in lines[i];
    RenderTrimmed(es);
    StripUnchanged(text);
    SplitJoin(lines, '\n');
  }

  /**
   * Round trip: a report printed in the benchmark's layout parses back into
   * the dictionary its entries build, later repeats of a key winning.
   */
  lemma {:induction false} RenderRoundTrip(es: seq<Entry>)
    requires |es| >= 1
    requires forall i :: 0 <= i < |es| ==> Token(es[i].key) && Token(es[i].value)
    ensures ParseText(Render(es)) == Success(Collect(es))
  {
    ReportLinesOfRender(es);
    var lines := RenderedLines(es);
    var outs := Outcomes(lines);
    forall i | 0 <= i < |es|
      ensures outs[i] == Success(es[i])
    {
      assert lines[i] == RenderLine(es[i]);
      ParseRenderedLine(es[i]);
    }
    GatherAllParsed(outs, es);
  }

  /**
   * The round trip survives whitespace around the report, such as the
   * newline `print` ends the child's last line with.
   */
  lemma {:induction false} PaddedRoundTrip(w1: string, es: seq<Entry>, w2: string)
    requires AllSpace(w1) && AllSpace(w2)
    requires |es| >= 1
    requires forall i :: 0 <= i < |es| ==> Token(es[i].key) && Token(es[i].value)
    ensures Strip(w1 + Render(es) + w2) == Render(es)
    ensures ParseText(w1 + Render(es) + w2) == Success(Collect(es))
  {
    RenderTrimmed(es);
    StripPadded(w1, Render(es), w2);
    StripUnchanged(Render(es));
    assert ReportLines(w1 + Render(es) + w2) == ReportLines(Render(es));
    RenderRoundTrip(es);
  }

  lemma {:induction false} GatherAllParsed(outs: seq<Result<Entry, nat>>, es: seq<Entry>)
    requires |outs| == |es|
    requires forall i :: 0 <= i < |es| ==> outs[i] == Success(es[i])
    ensures Gather(outs) == Success(es)
  {
    assert Gather(outs).Success?;
    assert Gather(outs).value == es;
  }
}
