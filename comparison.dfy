/** The whole script: copy the header of the first report into the output
    file, then append one summary line per report, in input order. */
module Comparison {
  import opened Faults
  import opened Schema
  import opened Report
  import opened Accumulation
  import opened OutputFormat

  /** One input of the run: its path and its lines. */
  datatype InputFile = InputFile(name: string, lines: seq<Line>)

  /** The output file, created or truncated once and then appended to. */
  class OutputFile {
    var lines: seq<string>

    constructor (initial: seq<string>)
      ensures lines == initial
    {
      lines := initial;
    }

    /** open(fname_out, "w") */
    method Truncate()
      modifies this
      ensures lines == []
    {
      lines := [];
    }

    /** f_out.write(line) on a file opened for writing or appending. */
    method Append(line: string)
      modifies this
      ensures lines == old(lines) + [line]
    {
      lines := lines + [line];
    }
  }

  /** The outcome of summarising each report on its own. */
  function Results(files: seq<InputFile>): (results: seq<Result<seq<real>>>)
    ensures |results| == |files|
  {
    seq(|files|, j requires 0 <= j < |files| => Summary(files[j].lines))
  }

  /** The summary lines written, given each report's outcome: one per report
      up to the first that fails. */
  function Emitted(files: seq<InputFile>, results: seq<Result<seq<real>>>, show: (int, real) -> string)
    : seq<string>
    requires |results| == |files|
  {
    if |files| == 0 then []
    else match results[0]
      case Err(_) => []
      case Ok(values) =>
        [RenderRow(files[0].name, values, show)] + Emitted(files[1..], results[1..], show)
  }

  /** The fault of the first report that fails, if any. */
  function FirstFault(results: seq<Result<seq<real>>>): Option<Fault> {
    if |results| == 0 then None
    else match results[0]
      case Err(e) => Some(e)
      case Ok(_) => FirstFault(results[1..])
  }

  /** The output file after a run over at least one input. */
  function RunOutput(files: seq<InputFile>, show: (int, real) -> string): seq<string>
    requires |files| > 0
  {
    HeaderLines(files[0].lines) + Emitted(files, Results(files), show)
  }

  function RunFault(files: seq<InputFile>): Option<Fault> {
    FirstFault(Results(files))
  }

  /** One report of the run, unfolded. */
  lemma EmittedStep(files: seq<InputFile>, results: seq<Result<seq<real>>>, k: int,
                    show: (int, real) -> string)
    requires |results| == |files| && 0 <= k < |files|
    ensures results[k].Err? ==>
              Emitted(files[k..], results[k..], show) == [] &&
              FirstFault(results[k..]) == Some(results[k].fault)
    ensures results[k].Ok? ==>
              Emitted(files[k..], results[k..], show)
                == [RenderRow(files[k].name, results[k].value, show)]
                   + Emitted(files[k + 1..], results[k + 1..], show) &&
              FirstFault(results[k..]) == FirstFault(results[k + 1..])
  {
    assert files[k..][0] == files[k] && files[k..][1..] == files[k + 1..];
    assert results[k..][0] == results[k] && results[k..][1..] == results[k + 1..];
  }

  lemma AppendThenRest(a: seq<string>, line: string, rest: seq<string>)
    ensures (a + [line]) + rest == a + ([line] + rest)
  {
  }

  lemma HeaderLinesStep(lines: seq<Line>, k: int)
    requires 0 <= k < |lines|
    ensures HeaderLines(lines[k..])
              == (if IsHeader(lines[k]) then [lines[k].text] else []) + HeaderLines(lines[k + 1..])
  {
    assert lines[k..][0] == lines[k] && lines[k..][1..] == lines[k + 1..];
  }

  /** The header step: truncate the output, then copy every header line of
      the first report. */
  method CopyHeader(out: OutputFile, lines: seq<Line>)
    modifies out
    ensures out.lines == HeaderLines(lines)
  {
    out.Truncate();
    var k := 0;
    while k < |lines|
      invariant 0 <= k <= |lines|
      invariant out.lines + HeaderLines(lines[k..]) == HeaderLines(lines)
    {
      HeaderLinesStep(lines, k);
      if IsHeader(lines[k]) {
        ghost var before := out.lines;
        out.Append(lines[k].text);
        AppendThenRest(before, lines[k].text, HeaderLines(lines[k + 1..]));
      }
      k := k + 1;
    }
    assert lines[k..] == [];
  }

  /** One iteration of the script's loop: summarise report k and append its
      line, or stop with its fault. */
  method SummarizeInto(out: OutputFile, files: seq<InputFile>, k: int, show: (int, real) -> string)
    returns (fault: Option<Fault>)
    requires 0 <= k < |files|
    modifies out
    ensures var results := Results(files);
            fault.Some? ==>
              out.lines == old(out.lines) && Emitted(files[k..], results[k..], show) == [] &&
              FirstFault(results[k..]) == fault
    ensures var results := Results(files);
            fault.None? ==>
              out.lines + Emitted(files[k + 1..], results[k + 1..], show)
                == old(out.lines) + Emitted(files[k..], results[k..], show) &&
              FirstFault(results[k + 1..]) == FirstFault(results[k..])
    ensures fault == (if Summary(files[k].lines).Err? then Some(Summary(files[k].lines).fault) else None)
    ensures fault.None? ==>
              out.lines == old(out.lines) + [RenderRow(files[k].name, Summary(files[k].lines).value, show)]
  {
    ghost var results := Results(files);
    var summary := SummarizeReport(files[k].lines);
    assert summary == results[k];
    if summary.Err? {
      assert Emitted(files[k..], results[k..], show) == [] &&
             FirstFault(results[k..]) == Some(summary.fault) by {
        EmittedStep(files, results, k, show);
      }
      return Some(summary.fault);
    }
    var line := RenderRow(files[k].name, summary.value, show);
    ghost var rest := Emitted(files[k + 1..], results[k + 1..], show);
    assert Emitted(files[k..], results[k..], show) == [line] + rest &&
           FirstFault(results[k + 1..]) == FirstFault(results[k..]) by {
      EmittedStep(files, results, k, show);
    }
    out.Append(line);
    AppendThenRest(old(out.lines), line, rest);
    return None;
  }

  /** The script. An empty input list fails before the output is opened; a
      report that fails stops the run with the lines written so far. */
  method Run(out: OutputFile, files: seq<InputFile>, show: (int, real) -> string)
    returns (fault: Option<Fault>)
    modifies out
    ensures |files| == 0 ==> fault == Some(NoInputFiles) && out.lines == old(out.lines)
    ensures |files| > 0 ==> fault == RunFault(files) && out.lines == RunOutput(files, show)
  {
    if |files| == 0 {
      return Some(NoInputFiles);
    }
    CopyHeader(out, files[0].lines);
    ghost var results := Results(files);
    var k := 0;
    while k < |files|
      invariant 0 <= k <= |files|
      invariant out.lines + Emitted(files[k..], results[k..], show) == RunOutput(files, show)
      invariant FirstFault(results[k..]) == RunFault(files)
    {
      fault := SummarizeInto(out, files, k, show);
      if fault.Some? {
        return;
      }
      k := k + 1;
    }
    assert files[k..] == [] && results[k..] == [];
    return None;
  }

  /** Given each report's outcome, the summary lines are one per report, in
      input order, each for its own path, up to the first report that fails;
      the run fails exactly when some report does, with that report's fault. */
  lemma {:induction false} EmittedRows(files: seq<InputFile>, results: seq<Result<seq<real>>>,
                                       show: (int, real) -> string)
    requires |results| == |files|
    ensures |Emitted(files, results, show)| <= |files|
    ensures forall j :: 0 <= j < |Emitted(files, results, show)| ==>
              results[j].Ok? &&
              Emitted(files, results, show)[j] == RenderRow(files[j].name, results[j].value, show)
    ensures FirstFault(results).None? <==> |Emitted(files, results, show)| == |files|
    ensures FirstFault(results).Some? ==>
              results[|Emitted(files, results, show)|] == Err(FirstFault(results).value)
  {
    if |files| > 0 && results[0].Ok? {
      var emitted := Emitted(files, results, show);
      var rest := Emitted(files[1..], results[1..], show);
      EmittedRows(files[1..], results[1..], show);
      forall j | 1 <= j < |emitted|
        ensures results[j].Ok? && emitted[j] == RenderRow(files[j].name, results[j].value, show)
      {
        assert emitted[j] == rest[j - 1];
        assert files[1..][j - 1] == files[j] && results[1..][j - 1] == results[j];
      }
    }
  }

  /** The output of a run is the header lines of the first report followed
      by at most one line per report. */
  lemma RunOutputShape(files: seq<InputFile>, show: (int, real) -> string)
    requires |files| > 0
    ensures var out, h := RunOutput(files, show), |HeaderLines(files[0].lines)|;
            out[..h] == HeaderLines(files[0].lines) && h <= |out| <= h + |files| &&
            (RunFault(files).None? <==> |out| == h + |files|)
  {
    EmittedRows(files, Results(files), show);
  }

  /** After the header, line h + j of the output is the summary of report j
      under its own path, in input order. */
  lemma RunOutputRow(files: seq<InputFile>, show: (int, real) -> string, j: int)
    requires |files| > 0
    requires 0 <= j < |files| && |HeaderLines(files[0].lines)| + j < |RunOutput(files, show)|
    ensures Summary(files[j].lines).Ok?
    ensures RunOutput(files, show)[|HeaderLines(files[0].lines)| + j]
              == RenderRow(files[j].name, Summary(files[j].lines).value, show)
  {
    var results := Results(files);
    EmittedRows(files, results, show);
    assert results[j] == Summary(files[j].lines);
  }

  /** When the run fails, the report after the last summary line is the one
      that failed, and it failed with the run's fault. */
  lemma RunFaultReport(files: seq<InputFile>, show: (int, real) -> string)
    requires |files| > 0 && RunFault(files).Some?
    ensures var n := |RunOutput(files, show)| - |HeaderLines(files[0].lines)|;
            0 <= n < |files| && Summary(files[n].lines) == Err(RunFault(files).value)
  {
    var results := Results(files);
    var n := |Emitted(files, results, show)|;
    assert 0 <= n < |files| && results[n] == Err(RunFault(files).value) by {
      EmittedRows(files, results, show);
    }
    assert |RunOutput(files, show)| - |HeaderLines(files[0].lines)| == n;
    assert results[n] == Summary(files[n].lines);
  }

  /** Every summary line, stripped of its newline, splits into the report's
      path and exactly 67 values. */
  lemma SummaryLineFields(name: string, values: seq<real>, show: (int, real) -> string)
    requires |values| == Slots && NoTab(name) && forall k, x :: NoTab(show(k, x))
    ensures var line := RenderRow(name, values, show);
            |line| >= 1 && line[|line| - 1] == '\n' &&
            Split(line[..|line| - 1]) == [name] + Shown(values, show) &&
            |Split(line[..|line| - 1])| == 1 + Slots
  {
    forall k | 0 <= k < |values|
      ensures NoTab(show(k, values[k]))
    {
      var x := values[k];
      assert NoTab(show(k, x));
    }
    RenderRowFields(name, values, show);
  }
}
