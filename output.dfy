/** The text of one summary line: the input path and the 67 values, joined
    by tabs and ended by a newline. How a number is written (Python's str)
    is a parameter `show`, given the slot as well as the value: the script's
    count slots hold ints and its percentage slots floats, which str writes
    differently (`0` and `0.0`). */
module OutputFormat {

  predicate NoTab(s: string) {
    '\t' !in s
  }

  /** "\t".join(fields) */
  function Join(fields: seq<string>): string {
    if |fields| == 0 then ""
    else if |fields| == 1 then fields[0]
    else fields[0] + "\t" + Join(fields[1..])
  }

  /** s.split("\t") */
  function Split(s: string): (fields: seq<string>)
    ensures |fields| >= 1
  {
    if |s| == 0 then [""]
    else
      var rest := Split(s[1..]);
      if s[0] == '\t' then [""] + rest else [[s[0]] + rest[0]] + rest[1..]
  }

  /** Splitting text that starts with a tab-free prefix puts the prefix at the
      front of the first field. */
  lemma {:induction false} SplitPrefix(a: string, s: string)
    requires NoTab(a)
    ensures Split(a + s) == [a + Split(s)[0]] + Split(s)[1..]
  {
    if |a| > 0 {
      assert (a + s)[0] == a[0] && (a + s)[1..] == a[1..] + s;
      SplitPrefix(a[1..], s);
      assert [a[0]] + (a[1..] + Split(s)[0]) == a + Split(s)[0];
    } else {
      var fs := Split(s);
      assert a + s == s && a + fs[0] == fs[0];
      assert fs == [fs[0]] + fs[1..];
    }
  }

  /** Splitting undoes joining when no field contains a tab. */
  lemma {:induction false} SplitJoin(fields: seq<string>)
    requires |fields| >= 1
    requires forall k :: 0 <= k < |fields| ==> NoTab(fields[k])
    ensures Split(Join(fields)) == fields
  {
    if |fields| == 1 {
      SplitPrefix(fields[0], "");
      assert fields[0] + "" == fields[0];
    } else {
      var rest := Join(fields[1..]);
      SplitJoin(fields[1..]);
      assert fields[0] + "\t" + rest == fields[0] + ("\t" + rest);
      SplitPrefix(fields[0], "\t" + rest);
      assert ("\t" + rest)[0] == '\t' && ("\t" + rest)[1..] == rest;
      assert fields[0] + "" == fields[0];
    }
  }

  function Shown(values: seq<real>, show: (int, real) -> string): (fields: seq<string>)
    ensures |fields| == |values|
  {
    seq(|values|, k requires 0 <= k < |values| => show(k, values[k]))
  }

  /** filename + "\t" + "\t".join([str(x) for x in sums]) + "\n" */
  function RenderRow(filename: string, values: seq<real>, show: (int, real) -> string): string {
    filename + "\t" + Join(Shown(values, show)) + "\n"
  }

  /** A summary line is newline-terminated, and with the newline stripped it
      splits back into the path followed by one field per value. */
  lemma RenderRowFields(filename: string, values: seq<real>, show: (int, real) -> string)
    requires |values| >= 1 && NoTab(filename)
    requires forall k :: 0 <= k < |values| ==> NoTab(show(k, values[k]))
    ensures |RenderRow(filename, values, show)| >= 1
    ensures RenderRow(filename, values, show)[|RenderRow(filename, values, show)| - 1] == '\n'
    ensures Split(RenderRow(filename, values, show)[..|RenderRow(filename, values, show)| - 1])
              == [filename] + Shown(values, show)
  {
    var fields := [filename] + Shown(values, show);
    var line := RenderRow(filename, values, show);
    assert Join(fields) == filename + "\t" + Join(Shown(values, show)) by {
      assert fields[1..] == Shown(values, show);
    }
    assert line[..|line| - 1] == Join(fields);
    SplitJoin(fields);
  }
}
