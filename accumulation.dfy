/** The second pass over one report: the 67 accumulators `sums`, updated in
    place row by row, then finalised into the assembly's summary values. */
module Accumulation {
  import opened Faults
  import opened Numbers
  import opened Schema
  import opened Report

  /** The largest percentage the range assertion lets through. */
  const MaxPercent: real := 100.01

  // ---------------------------------------------------------------------
  // One row

  /** What goes wrong at slot i of a row, if anything: the field is missing,
      or it is a percentage outside [0, MaxPercent]. */
  function SlotFault(nums: seq<real>, i: int): Option<Fault> {
    if i >= |nums| then Some(MissingField)
    else if IsPercentSlot(i) && !(0.0 <= nums[i] <= MaxPercent) then Some(PercentOutOfRange)
    else None
  }

  /** The first slot at or after i that faults, or Slots when none does. */
  function FaultSlotFrom(nums: seq<real>, i: nat): (k: nat)
    requires i <= Slots
    ensures i <= k <= Slots
    ensures forall j :: i <= j < k ==> SlotFault(nums, j).None?
    ensures k < Slots ==> SlotFault(nums, k).Some?
    decreases Slots - i
  {
    if i == Slots || SlotFault(nums, i).Some? then i else FaultSlotFrom(nums, i + 1)
  }

  /** The fault a row raises, the one of its first faulting slot. */
  function RowFault(nums: seq<real>): Option<Fault> {
    var k := FaultSlotFrom(nums, 0);
    if k < Slots then SlotFault(nums, k) else None
  }

  /** A row the script accepts: 67 fields and every percentage in range. */
  predicate RowOk(nums: seq<real>) {
    |nums| >= Slots &&
    forall i :: 0 <= i < Slots && IsPercentSlot(i) ==> 0.0 <= nums[i] <= MaxPercent
  }

  lemma RowFaultIffNotOk(nums: seq<real>)
    ensures RowFault(nums).None? <==> RowOk(nums)
  {
    var k := FaultSlotFrom(nums, 0);
    if RowOk(nums) {
      forall j | 0 <= j < Slots ensures SlotFault(nums, j).None? {
      }
    } else if k == Slots {
      assert SlotFault(nums, Slots - 1).None?;
      forall i | 0 <= i < Slots && IsPercentSlot(i) ensures 0.0 <= nums[i] <= MaxPercent {
        assert SlotFault(nums, i).None?;
      }
    }
  }

  /** What a row adds to slot i: the truncated field for a count slot, the
      preceding field (the count the percentage was computed over) for a
      percentage slot. */
  function Addend(nums: seq<real>, i: int): real
    requires 0 <= i < |nums|
  {
    if IsPercentSlot(i) then nums[i - 1] else Trunc(nums[i]) as real
  }

  /** The accumulators after one accepted row: add, then round the
      percentage slots to two decimals. */
  function RowStep(sums: seq<real>, nums: seq<real>): (r: seq<real>)
    requires |sums| == Slots && RowOk(nums)
    ensures |r| == Slots
  {
    seq(Slots, i requires 0 <= i < Slots =>
      if IsPercentSlot(i) then Round2(sums[i] + Addend(nums, i)) else sums[i] + Addend(nums, i))
  }

  /** The inner loop over the slots of one row. It stops at the first slot
      that faults, leaving the slots before it updated and the rest as they
      were. */
  method AddRow(sums: array<real>, nums: seq<real>) returns (fault: Option<Fault>)
    requires sums.Length == Slots
    modifies sums
    ensures fault == RowFault(nums)
    ensures forall j :: 0 <= j < FaultSlotFrom(nums, 0) ==>
              SlotFault(nums, j).None? && sums[j] == old(sums[j]) + Addend(nums, j)
    ensures forall j :: FaultSlotFrom(nums, 0) <= j < Slots ==> sums[j] == old(sums[j])
  {
    var i := 0;
    while i < Slots
      invariant 0 <= i <= Slots
      invariant FaultSlotFrom(nums, i) == FaultSlotFrom(nums, 0)
      invariant forall j :: 0 <= j < i ==>
                  SlotFault(nums, j).None? && sums[j] == old(sums[j]) + Addend(nums, j)
      invariant forall j :: i <= j < Slots ==> sums[j] == old(sums[j])
    {
      if IsPercentSlot(i) {
        if i >= |nums| {
          return Some(MissingField);
        }
        if !(0.0 <= nums[i] <= MaxPercent) {
          return Some(PercentOutOfRange);
        }
        sums[i] := sums[i] + nums[i - 1];
      } else {
        if i >= |nums| {
          return Some(MissingField);
        }
        sums[i] := sums[i] + Trunc(nums[i]) as real;
      }
      i := i + 1;
    }
    return None;
  }

  /** The rounding loop after each row. */
  method RoundPercentSlots(sums: array<real>)
    requires sums.Length == Slots
    modifies sums
    ensures forall j :: 0 <= j < Slots ==>
              sums[j] == if IsPercentSlot(j) then Round2(old(sums[j])) else old(sums[j])
  {
    for i := 0 to Slots
      invariant forall j :: 0 <= j < i ==>
                  sums[j] == if IsPercentSlot(j) then Round2(old(sums[j])) else old(sums[j])
      invariant forall j :: i <= j < Slots ==> sums[j] == old(sums[j])
    {
      if IsPercentSlot(i) {
        sums[i] := Round2(sums[i]);
      }
    }
  }

  /** Adding every slot and then rounding the percentage slots is RowStep. */
  lemma RowStepInTwoLoops(before: seq<real>, added: seq<real>, after: seq<real>, nums: seq<real>)
    requires |before| == |added| == |after| == Slots && RowOk(nums)
    requires forall j :: 0 <= j < Slots ==> added[j] == before[j] + Addend(nums, j)
    requires forall j :: 0 <= j < Slots ==>
               after[j] == if IsPercentSlot(j) then Round2(added[j]) else added[j]
    ensures after == RowStep(before, nums)
  {
  }

  /** One data row of the accumulation pass. */
  method ProcessRow(sums: array<real>, nums: seq<real>) returns (fault: Option<Fault>)
    requires sums.Length == Slots
    modifies sums
    ensures fault == RowFault(nums)
    ensures fault.None? ==> RowOk(nums) && sums[..] == RowStep(old(sums[..]), nums)
  {
    ghost var before := sums[..];
    fault := AddRow(sums, nums);
    if fault.None? {
      RowFaultIffNotOk(nums);
      ghost var added := sums[..];
      RoundPercentSlots(sums);
      RowStepInTwoLoops(before, added, sums[..], nums);
    }
  }

  // ---------------------------------------------------------------------
  // The whole pass

  function Zeros(): (z: seq<real>)
    ensures |z| == Slots && forall i :: 0 <= i < Slots ==> z[i] == 0.0
  {
    seq(Slots, _ => 0.0)
  }

  /** The accumulation pass from accumulators `sums` over the remaining lines. */
  function Accumulate(lines: seq<Line>, sums: seq<real>): (r: Result<seq<real>>)
    requires |sums| == Slots
    ensures r.Ok? ==> |r.value| == Slots
  {
    if |lines| == 0 then Ok(sums)
    else if IsHeader(lines[0]) then Accumulate(lines[1..], sums)
    else match RowFault(lines[0].nums)
      case Some(e) => Err(e)
      case None =>
        RowFaultIffNotOk(lines[0].nums);
        Accumulate(lines[1..], RowStep(sums, lines[0].nums))
  }

  /** Finalisation: percentage slots from FirstRecomputedSlot on become the
      percentage their accumulated count is of the assembly length. */
  function Finalised(sums: seq<real>, assemblyLen: int): (r: seq<real>)
    requires |sums| == Slots && assemblyLen != 0
    ensures |r| == Slots
  {
    seq(Slots, i requires 0 <= i < Slots =>
      if FirstRecomputedSlot <= i && IsPercentSlot(i)
      then Round2(100.0 * sums[i] / assemblyLen as real)
      else sums[i])
  }

  method Finalise(sums: array<real>, assemblyLen: int)
    requires sums.Length == Slots && assemblyLen != 0
    modifies sums
    ensures sums[..] == Finalised(old(sums[..]), assemblyLen)
  {
    ghost var before := sums[..];
    for i := FirstRecomputedSlot to Slots
      invariant forall j :: 0 <= j < i ==> sums[j] == Finalised(before, assemblyLen)[j]
      invariant forall j :: i <= j < Slots ==> sums[j] == before[j]
    {
      if IsPercentSlot(i) {
        sums[i] := Round2(100.0 * sums[i] / assemblyLen as real);
      }
    }
  }

  /** The summary of one report: the length pass, the accumulation pass,
      then finalisation, which divides by the assembly length. */
  function Summary(lines: seq<Line>): (r: Result<seq<real>>)
    ensures r.Ok? ==> |r.value| == Slots
  {
    match LengthPass(lines)
    case Err(e) => Err(e)
    case Ok(assemblyLen) =>
      match Accumulate(lines, Zeros())
      case Err(e) => Err(e)
      case Ok(sums) =>
        if assemblyLen == 0 then Err(ZeroAssemblyLength) else Ok(Finalised(sums, assemblyLen))
  }

  /** Both passes over one report, with `sums` as a fresh array updated in place. */
  method SummarizeReport(lines: seq<Line>) returns (r: Result<seq<real>>)
    ensures r == Summary(lines)
  {
    var length := AssemblyLength(lines);
    if length.Err? {
      return Err(length.fault);
    }
    var assemblyLen := length.value;
    var sums := new real[Slots](_ => 0.0);
    assert sums[..] == Zeros();
    var k := 0;
    while k < |lines|
      invariant 0 <= k <= |lines|
      invariant Accumulate(lines[k..], sums[..]) == Accumulate(lines, Zeros())
    {
      var line := lines[k];
      assert lines[k..][0] == line && lines[k..][1..] == lines[k + 1..];
      if IsHeader(line) {
        k := k + 1;
        continue;
      }
      var fault := ProcessRow(sums, line.nums);
      if fault.Some? {
        return Err(fault.value);
      }
      k := k + 1;
    }
    assert lines[k..] == [];
    if assemblyLen == 0 {
      return Err(ZeroAssemblyLength);
    }
    Finalise(sums, assemblyLen);
    r := Ok(sums[..]);
  }
}
