/** The fixed column layout of a per-scaffold RepeatMasker summary row.

    A row is `identifier \t f1 \t f2 ... \t f67`. Column numbers count the
    identifier as column 0, so the 67 numeric fields are columns 1..67; the
    script keeps one accumulator ("slot") per numeric field, slot i holding
    column i + 1. */
module Schema {

  /** Number of accumulator slots, len(sums). */
  const Slots: nat := 67

  /** The columns (identifier = column 0) that hold percentages. */
  const PercentColumns: seq<int> :=
    [3, 5, 7, 10, 13, 16, 19, 22, 25, 28, 31, 34, 37, 40, 43, 46, 49, 52, 55, 58, 61, 64, 67]

  /** The percentage slots in closed form: 2, 4 and the multiples of 3 from
      6 to 66. */
  predicate IsPercentSlot(i: int) {
    i == 2 || i == 4 || (6 <= i <= 66 && i % 3 == 0)
  }

  /** Slot i is a percentage slot exactly when its column, i + 1, is listed
      in PercentColumns; so every percentage slot has a preceding slot. */
  lemma PercentSlots(i: int)
    ensures IsPercentSlot(i) <==> i + 1 in PercentColumns
    ensures IsPercentSlot(i) ==> 2 <= i < Slots
  {
    assert |PercentColumns| == 23;
    assert PercentColumns[0] == 3 && PercentColumns[1] == 5;
    assert forall k :: 2 <= k < 23 ==> PercentColumns[k] == 3 * k + 1;
    if IsPercentSlot(i) && i != 2 && i != 4 {
      assert PercentColumns[i / 3] == i + 1;
    }
  }

  /** The first slot that finalisation recomputes; slot 2 (column 3, GC
      content) lies below it and keeps its accumulated value. */
  const FirstRecomputedSlot: nat := 4
}
