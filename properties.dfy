/** What the summary of one report means, slot by slot, and when there is none. */
module SummaryProperties {
  import opened Faults
  import opened Numbers
  import opened Schema
  import opened Report
  import opened Accumulation

  /** Every data row passes the per-row checks of the accumulation pass. */
  predicate AllRowsOk(lines: seq<Line>) {
    forall j :: 0 <= j < |lines| && !IsHeader(lines[j]) ==> RowOk(lines[j].nums)
  }

  lemma AllRowsOkCons(lines: seq<Line>)
    requires |lines| > 0
    ensures AllRowsOk(lines) <==>
              (!IsHeader(lines[0]) ==> RowOk(lines[0].nums)) && AllRowsOk(lines[1..])
  {
    if (!IsHeader(lines[0]) ==> RowOk(lines[0].nums)) && AllRowsOk(lines[1..]) {
      forall j | 0 <= j < |lines| && !IsHeader(lines[j]) ensures RowOk(lines[j].nums) {
        if j > 0 { assert lines[j] == lines[1..][j - 1]; }
      }
    }
  }

  /** Field f of every data row has at most two decimals. */
  predicate FieldCents(lines: seq<Line>, f: int) {
    forall j :: 0 <= j < |lines| && !IsHeader(lines[j]) && 0 <= f < |lines[j].nums| ==>
      IsCent(lines[j].nums[f])
  }

  function DataRows(lines: seq<Line>): nat {
    if |lines| == 0 then 0 else (if IsHeader(lines[0]) then 0 else 1) + DataRows(lines[1..])
  }

  /** The sum over the data rows of int() of field f. */
  function CountSum(lines: seq<Line>, f: int): int
    requires 0 <= f < Slots && AllRowsOk(lines)
  {
    if |lines| == 0 then 0
    else (if IsHeader(lines[0]) then 0 else Trunc(lines[0].nums[f])) + CountSum(lines[1..], f)
  }

  /** The exact sum over the data rows of field f. */
  function FieldSum(lines: seq<Line>, f: int): real
    requires 0 <= f < Slots && AllRowsOk(lines)
  {
    if |lines| == 0 then 0.0
    else (if IsHeader(lines[0]) then 0.0 else lines[0].nums[f]) + FieldSum(lines[1..], f)
  }

  /** The sum over the data rows of percentage field i times the row's length. */
  function WeightedSum(lines: seq<Line>, i: int): real
    requires 0 <= i < Slots && AllRowsOk(lines)
  {
    if |lines| == 0 then 0.0
    else (if IsHeader(lines[0]) then 0.0 else lines[0].nums[i] * lines[0].nums[0])
         + WeightedSum(lines[1..], i)
  }

  // ---------------------------------------------------------------------
  // The accumulation pass

  /** One accepted data row, unfolded. */
  lemma AccumulateDataRow(lines: seq<Line>, sums: seq<real>)
    requires |lines| > 0 && |sums| == Slots
    requires !IsHeader(lines[0]) && RowOk(lines[0].nums)
    ensures Accumulate(lines, sums) == Accumulate(lines[1..], RowStep(sums, lines[0].nums))
  {
    RowFaultIffNotOk(lines[0].nums);
  }

  /** What one row does to a percentage slot. */
  lemma RowStepPercentSlot(sums: seq<real>, nums: seq<real>, i: int)
    requires |sums| == Slots && RowOk(nums) && 0 <= i < Slots && IsPercentSlot(i)
    ensures 1 <= i && RowStep(sums, nums)[i] == Round2(sums[i] + nums[i - 1])
  {
  }

  /** The accumulation pass completes exactly when every data row has 67
      fields and all its percentages in range. */
  lemma {:induction false} AccumulateOkIff(lines: seq<Line>, sums: seq<real>)
    requires |sums| == Slots
    ensures Accumulate(lines, sums).Ok? <==> AllRowsOk(lines)
  {
    if |lines| > 0 {
      AllRowsOkCons(lines);
      if IsHeader(lines[0]) {
        AccumulateOkIff(lines[1..], sums);
      } else {
        RowFaultIffNotOk(lines[0].nums);
        if RowOk(lines[0].nums) {
          AccumulateOkIff(lines[1..], RowStep(sums, lines[0].nums));
        }
      }
    }
  }

  /** A count slot ends up holding its start value plus the sum of the
      truncated fields; the per-row rounding never touches it. */
  lemma {:induction false} AccumulateCountSlot(lines: seq<Line>, sums: seq<real>, i: int)
    requires |sums| == Slots && 0 <= i < Slots && !IsPercentSlot(i)
    requires Accumulate(lines, sums).Ok?
    ensures AllRowsOk(lines)
    ensures Accumulate(lines, sums).value[i] == sums[i] + CountSum(lines, i) as real
  {
    AccumulateOkIff(lines, sums);
    if |lines| > 0 {
      AllRowsOkCons(lines);
      if IsHeader(lines[0]) {
        AccumulateCountSlot(lines[1..], sums, i);
      } else {
        RowFaultIffNotOk(lines[0].nums);
        AccumulateCountSlot(lines[1..], RowStep(sums, lines[0].nums), i);
      }
    }
  }

  /** A percentage slot adds the preceding field of every row; when those
      fields have at most two decimals, the per-row rounding changes nothing. */
  lemma {:induction false} AccumulatePercentSlotCents(lines: seq<Line>, sums: seq<real>, i: int)
    requires |sums| == Slots && 0 <= i < Slots && IsPercentSlot(i)
    requires Accumulate(lines, sums).Ok?
    requires IsCent(sums[i]) && FieldCents(lines, i - 1)
    ensures AllRowsOk(lines) && 1 <= i
    ensures Accumulate(lines, sums).value[i] == sums[i] + FieldSum(lines, i - 1)
  {
    assert AllRowsOk(lines) && 1 <= i by {
      AccumulateOkIff(lines, sums);
    }
    if |lines| > 0 {
      var tail := lines[1..];
      assert AllRowsOk(tail) && FieldCents(tail, i - 1) by {
        AllRowsOkCons(lines);
        FieldCentsTail(lines, i - 1);
      }
      if IsHeader(lines[0]) {
        AccumulatePercentSlotCents(tail, sums, i);
      } else {
        var nums := lines[0].nums;
        assert RowOk(nums) && IsCent(nums[i - 1]) by {
          AllRowsOkCons(lines);
        }
        var next := RowStep(sums, nums);
        assert IsCent(next[i]) && next[i] == sums[i] + nums[i - 1] by {
          RowStepPercentSlot(sums, nums, i);
          CentSum(sums[i], nums[i - 1]);
          Round2OfCent(sums[i] + nums[i - 1]);
        }
        assert Accumulate(lines, sums) == Accumulate(tail, next) by {
          AccumulateDataRow(lines, sums);
        }
        AccumulatePercentSlotCents(tail, next, i);
      }
    }
  }

  lemma FieldCentsTail(lines: seq<Line>, f: int)
    requires |lines| > 0 && FieldCents(lines, f)
    ensures FieldCents(lines[1..], f)
  {
    forall j | 0 <= j < |lines[1..]| && !IsHeader(lines[1..][j]) && 0 <= f < |lines[1..][j].nums|
      ensures IsCent(lines[1..][j].nums[f])
    {
      assert lines[1..][j] == lines[j + 1];
    }
  }

  /** Whatever the fields, a percentage slot stays within half a hundredth
      per data row of the exact sum of the preceding fields: the per-row
      rounding error compounds at most linearly. */
  lemma {:induction false} AccumulatePercentSlotDrift(lines: seq<Line>, sums: seq<real>, i: int)
    requires |sums| == Slots && 0 <= i < Slots && IsPercentSlot(i)
    requires Accumulate(lines, sums).Ok?
    ensures AllRowsOk(lines) && 1 <= i
    ensures Near(Accumulate(lines, sums).value[i], sums[i] + FieldSum(lines, i - 1),
                 DataRows(lines) as real * 0.005)
  {
    assert AllRowsOk(lines) && 1 <= i by {
      AccumulateOkIff(lines, sums);
    }
    if |lines| > 0 {
      var tail := lines[1..];
      assert AllRowsOk(tail) by {
        AllRowsOkCons(lines);
      }
      if IsHeader(lines[0]) {
        AccumulatePercentSlotDrift(tail, sums, i);
      } else {
        var nums := lines[0].nums;
        assert RowOk(nums) by {
          AllRowsOkCons(lines);
        }
        var next := RowStep(sums, nums);
        assert Near(next[i], sums[i] + nums[i - 1], 0.005) by {
          RowStepPercentSlot(sums, nums, i);
        }
        assert Accumulate(lines, sums) == Accumulate(tail, next) by {
          AccumulateDataRow(lines, sums);
        }
        AccumulatePercentSlotDrift(tail, next, i);
      }
    }
  }

  // ---------------------------------------------------------------------
  // The summary of one report

  /** Finalisation changes only the percentage slots from slot 4 on, each to
      a value with two decimals within half a hundredth of the exact
      percentage; slot 2 and every count slot keep their accumulated value. */
  lemma FinalisedSlots(sums: seq<real>, assemblyLen: int, i: int)
    requires |sums| == Slots && assemblyLen != 0 && 0 <= i < Slots
    ensures !(FirstRecomputedSlot <= i && IsPercentSlot(i)) ==>
              Finalised(sums, assemblyLen)[i] == sums[i]
    ensures FirstRecomputedSlot <= i && IsPercentSlot(i) ==>
              IsCent(Finalised(sums, assemblyLen)[i]) &&
              Near(Finalised(sums, assemblyLen)[i], 100.0 * sums[i] / assemblyLen as real, 0.005)
  {
  }

  /** A summary is the finalised result of the two passes. */
  lemma SummaryParts(lines: seq<Line>)
    requires Summary(lines).Ok?
    ensures LengthPass(lines).Ok? && LengthPass(lines).value != 0
    ensures Accumulate(lines, Zeros()).Ok?
    ensures Summary(lines).value
              == Finalised(Accumulate(lines, Zeros()).value, LengthPass(lines).value)
  {
  }

  /** A report has a summary exactly when every data row has an integer
      length, 67 fields and its percentages in range, and the lengths do not
      sum to zero. Otherwise the script stops. */
  lemma SummaryOkIff(lines: seq<Line>)
    ensures Summary(lines).Ok? <==> AllLengthed(lines) && AllRowsOk(lines) && SumLengths(lines) != 0
  {
    LengthPassSums(lines);
    AccumulateOkIff(lines, Zeros());
  }

  /** A report without data rows stops the script at the final division. */
  lemma {:induction false} EmptyReportFaults(lines: seq<Line>)
    requires forall j :: 0 <= j < |lines| ==> IsHeader(lines[j])
    ensures Summary(lines) == Err(ZeroAssemblyLength)
  {
    LengthPassSums(lines);
    AccumulateOkIff(lines, Zeros());
    OnlyHeadersSumToZero(lines);
  }

  lemma {:induction false} OnlyHeadersSumToZero(lines: seq<Line>)
    requires forall j :: 0 <= j < |lines| ==> IsHeader(lines[j])
    ensures AllLengthed(lines) && AllRowsOk(lines) && SumLengths(lines) == 0
  {
    if |lines| > 0 {
      OnlyHeadersSumToZero(lines[1..]);
    }
  }

  /** A percentage outside [0, 100.01] in any data row stops the script. */
  lemma PercentOutOfRangeFaults(lines: seq<Line>, j: int, i: int)
    requires 0 <= j < |lines| && !IsHeader(lines[j])
    requires 0 <= i < Slots && IsPercentSlot(i) && i < |lines[j].nums|
    requires !(0.0 <= lines[j].nums[i] <= MaxPercent)
    ensures Summary(lines).Err?
  {
    SummaryOkIff(lines);
  }

  /** A count slot of the summary is the sum over the data rows of the
      truncated field; finalisation leaves it alone. */
  lemma SummaryCountSlot(lines: seq<Line>, i: int)
    requires 0 <= i < Slots && !IsPercentSlot(i)
    requires Summary(lines).Ok?
    ensures AllRowsOk(lines)
    ensures Summary(lines).value[i] == CountSum(lines, i) as real
  {
    SummaryParts(lines);
    LengthPassSums(lines);
    AccumulateCountSlot(lines, Zeros(), i);
  }

  /** Slot 2 (column 3, GC content) is not divided by the assembly length:
      it stays the per-row rounded sum of the preceding field, equal to the
      exact sum when those fields have at most two decimals. */
  lemma SummaryGcSlot(lines: seq<Line>)
    requires Summary(lines).Ok?
    ensures AllRowsOk(lines)
    ensures Near(Summary(lines).value[2], FieldSum(lines, 1), DataRows(lines) as real * 0.005)
    ensures FieldCents(lines, 1) ==> Summary(lines).value[2] == FieldSum(lines, 1)
  {
    SummaryParts(lines);
    LengthPassSums(lines);
    AccumulatePercentSlotDrift(lines, Zeros(), 2);
    if FieldCents(lines, 1) {
      IntegralIsCent(0.0);
      AccumulatePercentSlotCents(lines, Zeros(), 2);
    }
  }

  /** For any fields, a recomputed percentage slot (slot 4 and on) is the
      slot's accumulated, per-row rounded total as a percentage of the
      assembly length, rounded to two decimals. AccumulatePercentSlotDrift
      bounds how far that total is from the exact total of the preceding
      field. */
  lemma SummaryRecomputedSlot(lines: seq<Line>, i: int)
    requires FirstRecomputedSlot <= i < Slots && IsPercentSlot(i)
    requires Summary(lines).Ok?
    ensures AllLengthed(lines) && SumLengths(lines) != 0 && Accumulate(lines, Zeros()).Ok?
    ensures Summary(lines).value[i]
              == Round2(100.0 * Accumulate(lines, Zeros()).value[i] / SumLengths(lines) as real)
  {
    SummaryOkIff(lines);
    SummaryParts(lines);
    LengthPassSums(lines);
  }

  /** A recomputed percentage slot (slot 4 and on) is the preceding field's
      total as a percentage of the assembly length, rounded to two decimals,
      when that field has at most two decimals in every data row. */
  lemma SummaryPercentSlot(lines: seq<Line>, i: int)
    requires FirstRecomputedSlot <= i < Slots && IsPercentSlot(i)
    requires Summary(lines).Ok? && FieldCents(lines, i - 1)
    ensures AllLengthed(lines) && AllRowsOk(lines) && SumLengths(lines) != 0
    ensures Summary(lines).value[i]
              == Round2(100.0 * FieldSum(lines, i - 1) / SumLengths(lines) as real)
  {
    assert AllLengthed(lines) && AllRowsOk(lines) && SumLengths(lines) != 0 by {
      SummaryOkIff(lines);
    }
    var assemblyLen := SumLengths(lines);
    var sums := Accumulate(lines, Zeros()).value;
    assert Summary(lines).value == Finalised(sums, assemblyLen) by {
      SummaryParts(lines);
      LengthPassSums(lines);
    }
    assert sums[i] == FieldSum(lines, i - 1) by {
      IntegralIsCent(0.0);
      AccumulatePercentSlotCents(lines, Zeros(), i);
    }
  }

  /** When a row's percentage is exactly 100 * base / length, summing the
      bases weights each row's percentage by the row's length. */
  lemma {:induction false} BasesWeightPercentages(lines: seq<Line>, i: int)
    requires 1 <= i < Slots && AllRowsOk(lines)
    requires forall j :: 0 <= j < |lines| && !IsHeader(lines[j]) ==>
               lines[j].nums[i] * lines[j].nums[0] == 100.0 * lines[j].nums[i - 1]
    ensures 100.0 * FieldSum(lines, i - 1) == WeightedSum(lines, i)
  {
    if |lines| > 0 {
      AllRowsOkCons(lines);
      BasesWeightPercentages(lines[1..], i);
    }
  }

  /** Lengths that pass the length pass are field 1 of each data row. */
  lemma {:induction false} LengthsAreFieldOne(lines: seq<Line>)
    requires AllLengthed(lines) && AllRowsOk(lines)
    ensures SumLengths(lines) as real == FieldSum(lines, 0)
  {
    if |lines| > 0 {
      AllRowsOkCons(lines);
      assert AllLengthed(lines[1..]) by {
        forall j | 0 <= j < |lines[1..]| && !IsHeader(lines[1..][j]) ensures HasLength(lines[1..][j]) {
          assert lines[1..][j] == lines[j + 1];
        }
      }
      LengthsAreFieldOne(lines[1..]);
    }
  }

  /** With percentages consistent with their bases, a recomputed percentage
      slot is the length-weighted mean of the rows' percentages, not their
      plain average. */
  lemma SummaryIsLengthWeightedMean(lines: seq<Line>, i: int)
    requires FirstRecomputedSlot <= i < Slots && IsPercentSlot(i)
    requires Summary(lines).Ok? && FieldCents(lines, i - 1)
    requires forall j :: 0 <= j < |lines| && !IsHeader(lines[j]) && Slots <= |lines[j].nums| ==>
               lines[j].nums[i] * lines[j].nums[0] == 100.0 * lines[j].nums[i - 1]
    ensures AllRowsOk(lines) && FieldSum(lines, 0) != 0.0
    ensures Summary(lines).value[i] == Round2(WeightedSum(lines, i) / FieldSum(lines, 0))
  {
    SummaryPercentSlot(lines, i);
    LengthsAreFieldOne(lines);
    BasesWeightPercentages(lines, i);
  }
}
