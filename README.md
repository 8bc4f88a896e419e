# RepeatMasker comparison table, modelled in Dafny

`scripts/repeatmasker_comparison.py` builds one comparison table from the
per-scaffold RepeatMasker summaries of several genome assemblies. The first
report's header line(s) are copied into the output file. Then each report is
condensed into one summary line: the report's path and 67 tab-separated values.

For each report the script works in three stages:

- **Length pass.** It adds up the scaffold lengths (field 1 of every data row)
  into the assembly length.
- **Accumulation pass.** It folds every data row into 67 accumulators. A count
  column adds the truncated field. A percentage column adds the absolute count
  that precedes it. After each row, the percentage accumulators are rounded to
  two decimals.
- **Finalisation.** Every percentage accumulator from column 5 on is turned
  back into a percentage of the assembly length. Column 3, the GC content, is
  left as it is.

The model has the same shape as the script:

| file | module | what it holds |
|---|---|---|
| `faults.dfy` | `Faults` | The ways the script stops that the model covers (see the table below), plus `Option` and `Result`. |
| `numbers.dfy` | `Numbers` | `int()` on a float as truncation toward zero. `round(x, 2)` as exact round-half-to-even to hundredths. |
| `schema.dfy` | `Schema` | The 67 slots and the `perc_col` list. The closed form of "slot i is a percentage slot". |
| `report.dfy` | `Report` | A report's lines and the header test. The header filter. The length pass, both as a loop (`AssemblyLength`) and as its specification (`LengthPass`). |
| `accumulation.dfy` | `Accumulation` | The 67 accumulators as an `array<real>`, updated in place by the per-row loops `AddRow` and `RoundPercentSlots`. The finalisation loop `Finalise`. `SummarizeReport`, which runs both passes over one report. `ProcessRow`, `Finalise` and `SummarizeReport` are proved equal to `RowStep`, `Finalised` and `Summary`; `AddRow` and `RoundPercentSlots` give every slot's new value in closed form. |
| `properties.dfy` | `SummaryProperties` | What a summary means, slot by slot, and exactly when a report has none. |
| `output.dfy` | `OutputFormat` | `"\t".join`, `split("\t")`, and the text of one summary line. |
| `comparison.dfy` | `Comparison` | The output file as an object that is truncated once and then appended to. `Run`: the whole script, proved against `RunOutput` and `RunFault`. |

Every crash the model covers is a value of `Faults.Fault`, and no
precondition excludes any of them. The crashes it does not cover (malformed
numbers, NaN and infinity, failures to open a file) are listed under
"## Left out".

| fault | Python exception | cause |
|---|---|---|
| `NoInputFiles` | `IndexError` | `fnames_in[0]` on an empty input list. |
| `MissingField` | `IndexError` | A data row too short for `s[1]` or for `nums[i]`. |
| `LengthNotInteger` | `ValueError` | `int(s[1])` on a length that is not a whole number. |
| `PercentOutOfRange` | `AssertionError` | The range assertion on a percentage column. |
| `ZeroAssemblyLength` | `ZeroDivisionError` | A zero assembly length, for example a report with no data rows. |

A run stops at the first report that faults. The lines written before that
point stay in the output.

Three points of the script's behaviour are easy to misread:

- **Header copying.** The script copies every line of the first report that
  starts with `filename`, not only the first one, and writes no header when
  there is none (`Report.HeaderLinesKeepsAll`).
- **Percentage columns.** The comments at lines 10-11 and 43-45 of the script
  say that a percentage column is recomputed from the number it refers to.
  The code adds the preceding field `nums[i-1]` and divides the total by the
  assembly length. `SummaryProperties.SummaryIsLengthWeightedMean` proves that
  the result is the length-weighted mean of the rows' percentages when each
  row's percentage agrees with that preceding field and those fields have at
  most two decimals.
- **GC column.** Slot 2 (the GC column) is never divided by the assembly
  length. Like every percentage slot, it accumulates the field before it
  (`nums[1]`), so it ends up as that field's per-row rounded sum over the data
  rows, not as a percentage (`SummaryProperties.SummaryGcSlot`).

## Model

| member | source | states |
|---|---|---|
| Schema.PercentSlots | scripts/repeatmasker_comparison.py:13 | slot i is a percentage slot (i ∈ {2, 4} or 6 ≤ i ≤ 66 with 3 divides i) exactly when i+1 is in perc_col; every percentage slot is one of the 67 slots and at least 2 |
| Numbers.Trunc | scripts/repeatmasker_comparison.py:53 | int() truncates toward zero: for x ≥ 0 the result is the largest integer ≤ x, for x < 0 the smallest integer ≥ x |
| Numbers.Round2 | scripts/repeatmasker_comparison.py:57 | round(x, 2) has at most two decimals and lies within 0.005 of x |
| Numbers.Round2Nearest | scripts/repeatmasker_comparison.py:57 | round(x, 2) is at least as close to x as any other value with two decimals |
| Numbers.Round2TieIsEven | scripts/repeatmasker_comparison.py:57 | a value exactly halfway between two hundredths rounds to the even one |
| Numbers.Round2OfCent | scripts/repeatmasker_comparison.py:57 | rounding a value that already has two decimals leaves it unchanged |
| Numbers.CentSum | scripts/repeatmasker_comparison.py:51 | adding two values with two decimals gives a value with two decimals |
| Report.IsHeaderIsPrefix | scripts/repeatmasker_comparison.py:18 | line[:8] == "filename" holds exactly when the line starts with "filename", short lines included |
| Report.HeaderLinesAppend | scripts/repeatmasker_comparison.py:17-19 | filtering two blocks of lines one after the other gives the two filtered blocks in the same order |
| Report.HeaderLinesMembers | scripts/repeatmasker_comparison.py:17-19 | a text is written to the header exactly when some header line of the first report carries it |
| Report.HeaderLinesKeepsAll | scripts/repeatmasker_comparison.py:17-19 | every header line is copied, not only the first: two header lines appear in the output in their file order |
| Report.LengthPassSums | scripts/repeatmasker_comparison.py:29-33 | the length pass succeeds exactly when every data row has an integer field 1, and then yields the sum of those fields over the data rows; header lines add nothing |
| Report.AssemblyLength | scripts/repeatmasker_comparison.py:24-33 | the accumulating loop returns the length pass's result, including the fault of the first row whose length is missing or not an integer |
| Accumulation.FaultSlotFrom | scripts/repeatmasker_comparison.py:46-53 | the result is the first slot at or after i whose field is missing or whose percentage is out of range, or 67 when there is none |
| Accumulation.RowFaultIffNotOk | scripts/repeatmasker_comparison.py:46-53 | a row passes the slot loop exactly when it has at least 67 fields and every percentage field lies in [0, 100.01] |
| Accumulation.AddRow | scripts/repeatmasker_comparison.py:46-53 | the slot loop reports the row's first fault. Every slot before that point gains its addend: the truncated field for a count slot, the preceding field for a percentage slot. Every slot from that point on is unchanged |
| Accumulation.RoundPercentSlots | scripts/repeatmasker_comparison.py:55-57 | the rounding loop rounds exactly the percentage slots to two decimals and leaves the count slots unchanged |
| Accumulation.RowStepInTwoLoops | scripts/repeatmasker_comparison.py:46-57 | adding every slot and then rounding the percentage slots gives `RowStep` |
| Accumulation.ProcessRow | scripts/repeatmasker_comparison.py:40-57 | one data row either faults with the row's first fault, or is well formed and turns the accumulators into `RowStep` of them |
| Accumulation.Finalise | scripts/repeatmasker_comparison.py:59-63 | the finalisation loop turns the accumulators into their finalised values |
| Accumulation.SummarizeReport | scripts/repeatmasker_comparison.py:22-63 | the length pass, the accumulation pass over a fresh zeroed array, and finalisation together return the report's summary or its first fault |
| SummaryProperties.AccumulateOkIff | scripts/repeatmasker_comparison.py:36-57 | the accumulation pass completes exactly when every data row has at least 67 fields and all its percentages in range |
| SummaryProperties.AccumulateCountSlot | scripts/repeatmasker_comparison.py:46-57 | a count slot ends as its start value plus the sum of the truncated field over the data rows; the per-row rounding never touches it |
| SummaryProperties.AccumulatePercentSlotCents | scripts/repeatmasker_comparison.py:47-51 | a percentage slot adds the preceding field of every data row; when those fields have two decimals, the per-row rounding changes nothing |
| SummaryProperties.AccumulatePercentSlotDrift | scripts/repeatmasker_comparison.py:51-57 | for any fields, a percentage slot stays within 0.005 per data row of the exact sum of the preceding fields |
| SummaryProperties.FinalisedSlots | scripts/repeatmasker_comparison.py:61-63 | finalisation changes only the percentage slots from slot 4 on, each to a two-decimal value within 0.005 of 100 × slot / assembly length; slot 2 and all count slots keep their value |
| SummaryProperties.SummaryParts | scripts/repeatmasker_comparison.py:22-63 | a summary exists only when both passes succeed with a non-zero length, and it is the finalised accumulators |
| SummaryProperties.SummaryOkIff | scripts/repeatmasker_comparison.py:24-63 | a report has a summary exactly when every data row has an integer length, at least 67 fields and its percentages in range, and the lengths do not sum to zero |
| SummaryProperties.EmptyReportFaults | scripts/repeatmasker_comparison.py:63 | a report with no data rows has no guard and stops at the division by a zero assembly length |
| SummaryProperties.OnlyHeadersSumToZero | scripts/repeatmasker_comparison.py:29-33 | a report made only of header lines passes both checks and has assembly length 0 |
| SummaryProperties.PercentOutOfRangeFaults | scripts/repeatmasker_comparison.py:50 | a percentage outside [0, 100.01] in any data row means the report has no summary |
| SummaryProperties.SummaryCountSlot | scripts/repeatmasker_comparison.py:46-63 | a count slot of the summary is the sum of the truncated field over the data rows; finalisation leaves it alone |
| SummaryProperties.SummaryGcSlot | scripts/repeatmasker_comparison.py:51-63 | slot 2 is not divided by the assembly length: it is within 0.005 per data row of the sum of nums[1] over the data rows, and equal to that sum when those fields have two decimals |
| SummaryProperties.SummaryRecomputedSlot | scripts/repeatmasker_comparison.py:51-63 | for any fields, a recomputed percentage slot is round(100 × the slot's per-row rounded accumulated total / assembly length, 2), where the assembly length is the sum of the row lengths and is non-zero |
| SummaryProperties.SummaryPercentSlot | scripts/repeatmasker_comparison.py:51-63 | when the preceding field has at most two decimals in every data row, a recomputed percentage slot is round(100 × the exact total of the preceding field / assembly length, 2), where the assembly length is the sum of the row lengths and is non-zero |
| SummaryProperties.BasesWeightPercentages | scripts/repeatmasker_comparison.py:43-51 | when each row's percentage is 100 × base / length, 100 × the sum of the bases equals the length-weighted sum of the percentages |
| SummaryProperties.LengthsAreFieldOne | scripts/repeatmasker_comparison.py:33-42 | the assembly length of the length pass equals the sum of field 1 that the accumulation pass reads |
| SummaryProperties.SummaryIsLengthWeightedMean | scripts/repeatmasker_comparison.py:51-63 | when the preceding field has at most two decimals in every data row and the percentages are consistent with their bases, a recomputed percentage slot is the length-weighted mean of the rows' percentages, rounded to two decimals |
| OutputFormat.Split | scripts/repeatmasker_comparison.py:64 | split("\t"), used only to read a summary line back into its fields, always returns at least one field |
| OutputFormat.SplitJoin | scripts/repeatmasker_comparison.py:64 | splitting a tab-join of tab-free fields gives the fields back |
| OutputFormat.RenderRowFields | scripts/repeatmasker_comparison.py:64 | a summary line ends in a newline and, without it, splits back into the path followed by one field per value |
| Comparison.OutputFile.constructor | scripts/repeatmasker_comparison.py:16 | a new output file holds the given lines |
| Comparison.OutputFile.Truncate | scripts/repeatmasker_comparison.py:16 | opening the output for writing leaves it empty |
| Comparison.OutputFile.Append | scripts/repeatmasker_comparison.py:64 | a write in append mode adds exactly one line at the end |
| Comparison.CopyHeader | scripts/repeatmasker_comparison.py:16-19 | after the header step, the output holds exactly the header lines of the first report, in order |
| Comparison.SummarizeInto | scripts/repeatmasker_comparison.py:22-64 | one iteration of the loop over the reports: when report k has a summary, it returns no fault and appends exactly that summary's line under report k's path; otherwise it returns report k's own fault and leaves the output as it was |
| Comparison.Run | scripts/repeatmasker_comparison.py:7-64 | with no input, the script fails before touching the output. Otherwise it fails with the first failing report's fault, or with none, and the output is the first report's header lines followed by one summary line per report up to that point |
| Comparison.EmittedStep | scripts/repeatmasker_comparison.py:22-64 | a report that faults ends the output; a report with a summary contributes its line ahead of those of the later reports |
| Comparison.EmittedRows | scripts/repeatmasker_comparison.py:22-64 | the summary lines are one per report in input order, each for its own path, up to the first report that fails; the run fails exactly when some report does, with that report's fault |
| Comparison.RunOutputShape | scripts/repeatmasker_comparison.py:16-64 | the output is the header lines followed by at most one line per report, and exactly one per report when no report fails |
| Comparison.RunOutputRow | scripts/repeatmasker_comparison.py:22-64 | write h + j to the output, where h is the number of header lines copied, is report j's summary line under report j's own path |
| Comparison.RunFaultReport | scripts/repeatmasker_comparison.py:22-64 | when the run fails, the report after the last summary line is the one that failed, with the run's fault |
| Comparison.SummaryLineFields | scripts/repeatmasker_comparison.py:64 | every summary line is the report's path followed by exactly 67 tab-separated values and a newline |

## Left out

- SummaryPercentSlot: the exact total of the preceding field is stated only when that field has at most two decimals in every data row. For other fields the per-row rounding can change the total. SummaryRecomputedSlot gives the exact value in terms of the rounded total, and AccumulatePercentSlotDrift bounds that total's distance from the exact one.
- SummaryIsLengthWeightedMean: like SummaryPercentSlot, it is stated only when the preceding field has at most two decimals in every data row.
- The `snakemake.input` and `snakemake.output` globals are left out. Opening, reading and closing files is left out too, and so are the errors `open()` can raise. An input is a path with its lines. The output is an object holding its lines.
- Splitting an input line on tabs and `float()` parsing are left out. A line is its raw text, for the header test and the header copy, together with its fields already parsed to numbers. A malformed number (`ValueError` from `float()`) is therefore not modelled.
- `int(s[1])` is modelled as succeeding exactly when field 1 is a whole number. Python also rejects a written form such as `"12.0"`, which the model accepts.
- Floating point is not modelled. Values are exact reals, and `round(x, 2)` is exact decimal rounding with ties to even. Python's binary floats can round a value that is written as a tie either way.
- NaN and infinity fields are not modelled, nor the `ValueError` or `OverflowError` that `int()` raises on them.
- `str(x)` is the parameter `show`, which is given each value's slot as well as the value. In Python the count slots stay integers and are written without a decimal point (`0`), while the percentage slots are floats (`0.0`). The model holds every slot as a real, and a `show` that looks at the slot can write the two kinds differently. The formatting itself is not modelled.
- The output is modelled as a sequence of writes, one element per `write` call. It is one element per line of the file only when each copied header text ends in a newline. If the first report's last header line has no trailing newline, the script puts that header and the first summary line on one line of the file. The model still counts the summary as the next element.
- The dead assignment `header = line` in the accumulation pass is left out: nothing reads it.
- The dead assignment `scaff_len = nums[0]` is left out: nothing reads it. Its `IndexError` cannot happen, because the length pass has already stopped on `s[1]` for a row that short.
- The comment about scaffolds without repeats being absent from the input describes the upstream data, not the script's behaviour.
- The initial `nums` list is left out: it is overwritten before it is read.
