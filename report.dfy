/** One assembly's per-scaffold report as the script reads it: a header line,
    recognised by the sentinel "filename" at its start, and data rows. */
module Report {
  import opened Faults
  import opened Numbers

  /** One line of a report. `text` is the raw line; `nums` is the float
      parse of its tab-separated fields after the identifier (s[1:]). */
  datatype Line = Line(text: string, nums: seq<real>)

  const Sentinel: string := "filename"

  /** line[:8] == "filename" */
  predicate IsHeader(line: Line) {
    (if |line.text| <= 8 then line.text else line.text[..8]) == Sentinel
  }

  /** The slice test is the same as "the line starts with the sentinel". */
  lemma IsHeaderIsPrefix(line: Line)
    ensures IsHeader(line) <==> Sentinel <= line.text
  {
  }

  // ---------------------------------------------------------------------
  // Header filter

  /** The texts of the header lines, in file order. */
  function HeaderLines(lines: seq<Line>): seq<string> {
    if |lines| == 0 then []
    else (if IsHeader(lines[0]) then [lines[0].text] else []) + HeaderLines(lines[1..])
  }

  /** Filtering a concatenation filters each part, keeping their order. */
  lemma {:induction false} HeaderLinesAppend(a: seq<Line>, b: seq<Line>)
    ensures HeaderLines(a + b) == HeaderLines(a) + HeaderLines(b)
  {
    if |a| == 0 {
      assert a + b == b;
    } else {
      var first := if IsHeader(a[0]) then [a[0].text] else [];
      assert (a + b)[0] == a[0];
      assert (a + b)[1..] == a[1..] + b;
      assert HeaderLines(a + b) == first + HeaderLines(a[1..] + b);
      HeaderLinesAppend(a[1..], b);
      assert first + (HeaderLines(a[1..]) + HeaderLines(b))
          == (first + HeaderLines(a[1..])) + HeaderLines(b);
    }
  }

  /** A text is copied exactly when some header line carries it. */
  lemma {:induction false} HeaderLinesMembers(lines: seq<Line>, t: string)
    ensures t in HeaderLines(lines) <==>
              exists j :: 0 <= j < |lines| && IsHeader(lines[j]) && lines[j].text == t
  {
    if |lines| > 0 {
      HeaderLinesMembers(lines[1..], t);
      if exists j :: 0 <= j < |lines| && IsHeader(lines[j]) && lines[j].text == t {
        var j :| 0 <= j < |lines| && IsHeader(lines[j]) && lines[j].text == t;
        if j > 0 {
          assert lines[1..][j - 1] == lines[j];
        }
      }
    }
  }

  /** Every header line is copied, not only the first: two header lines at
      positions j < k reappear in the output, in that order. */
  lemma HeaderLinesKeepsAll(lines: seq<Line>, j: int, k: int)
    requires 0 <= j < k < |lines|
    requires IsHeader(lines[j]) && IsHeader(lines[k])
    ensures exists a, b :: 0 <= a < b < |HeaderLines(lines)| &&
              HeaderLines(lines)[a] == lines[j].text && HeaderLines(lines)[b] == lines[k].text
  {
    var front, back := lines[..k], lines[k..];
    assert lines == front + back;
    HeaderLinesAppend(front, back);
    HeaderLinesMembers(front, lines[j].text);
    assert front[j] == lines[j];
    var a :| 0 <= a < |HeaderLines(front)| && HeaderLines(front)[a] == lines[j].text;
    assert back[0] == lines[k];
    assert HeaderLines(back) == [lines[k].text] + HeaderLines(back[1..]);
    var b := |HeaderLines(front)|;
    assert HeaderLines(lines)[a] == lines[j].text;
    assert HeaderLines(lines)[b] == lines[k].text;
  }

  // ---------------------------------------------------------------------
  // Length pass

  /** int(s[1]) is defined on this data row. */
  predicate HasLength(line: Line) {
    |line.nums| >= 1 && IsIntegral(line.nums[0])
  }

  function RowLength(line: Line): int
    requires HasLength(line)
  {
    line.nums[0].Floor
  }

  predicate AllLengthed(lines: seq<Line>) {
    forall j :: 0 <= j < |lines| && !IsHeader(lines[j]) ==> HasLength(lines[j])
  }

  /** The assembly length: the sum of field 1 over the data rows. */
  function SumLengths(lines: seq<Line>): int
    requires AllLengthed(lines)
  {
    if |lines| == 0 then 0
    else (if IsHeader(lines[0]) then 0 else RowLength(lines[0])) + SumLengths(lines[1..])
  }

  function AddTo(acc: int, r: Result<int>): Result<int> {
    match r
    case Ok(t) => Ok(acc + t)
    case Err(e) => Err(e)
  }

  /** The length pass as the script runs it: data rows in order, stopping at
      the first row whose field 1 is missing or not an integer. */
  function LengthPass(lines: seq<Line>): Result<int> {
    if |lines| == 0 then Ok(0)
    else if IsHeader(lines[0]) then LengthPass(lines[1..])
    else if |lines[0].nums| == 0 then Err(MissingField)
    else if !IsIntegral(lines[0].nums[0]) then Err(LengthNotInteger)
    else AddTo(lines[0].nums[0].Floor, LengthPass(lines[1..]))
  }

  /** The length pass succeeds exactly when every data row has an integer
      length, and then yields the sum of the lengths of the data rows. */
  lemma {:induction false} LengthPassSums(lines: seq<Line>)
    ensures LengthPass(lines).Ok? <==> AllLengthed(lines)
    ensures LengthPass(lines).Ok? ==> LengthPass(lines).value == SumLengths(lines)
  {
    if |lines| > 0 {
      LengthPassSums(lines[1..]);
      assert AllLengthed(lines) <==>
               (!IsHeader(lines[0]) ==> HasLength(lines[0])) && AllLengthed(lines[1..]) by {
        if AllLengthed(lines[1..]) && (!IsHeader(lines[0]) ==> HasLength(lines[0])) {
          forall j | 0 <= j < |lines| && !IsHeader(lines[j]) ensures HasLength(lines[j]) {
            if j > 0 { assert lines[j] == lines[1..][j - 1]; }
          }
        }
      }
    }
  }

  /** The first pass over a report: assembly_len. */
  method AssemblyLength(lines: seq<Line>) returns (r: Result<int>)
    ensures r == LengthPass(lines)
  {
    var assemblyLen := 0;
    var k := 0;
    while k < |lines|
      invariant 0 <= k <= |lines|
      invariant AddTo(assemblyLen, LengthPass(lines[k..])) == LengthPass(lines)
    {
      var line := lines[k];
      assert lines[k..][0] == line && lines[k..][1..] == lines[k + 1..];
      if IsHeader(line) {
        k := k + 1;
        continue;
      }
      if |line.nums| == 0 {
        return Err(MissingField);
      }
      if !IsIntegral(line.nums[0]) {
        return Err(LengthNotInteger);
      }
      assemblyLen := assemblyLen + line.nums[0].Floor;
      k := k + 1;
    }
    assert lines[k..] == [];
    r := Ok(assemblyLen);
  }
}
