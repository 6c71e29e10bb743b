/** Concrete insertion sequences: the 3x3 example the program checks, what
    out-of-order insertion does, and what a repeated cell does. */
module Scenarios {
  import opened Outcomes
  import opened Vectors
  import opened SparseMatrix
  import opened CsrBuilder

  /** The 3x3 matrix [[1,0,2],[0,3,0],[4,0,5]] inserted row by row. */
  const example: seq<Entry> :=
    [Entry(0, 0, 1.0), Entry(0, 2, 2.0), Entry(1, 1, 3.0), Entry(2, 0, 4.0), Entry(2, 2, 5.0)]

  /** The CSR arrays those five insertions produce. */
  lemma ExampleBuild()
    ensures Build(3, 3, 5, example)
         == Success(Csr(3, 3, [1.0, 2.0, 3.0, 4.0, 5.0], [0, 2, 1, 0, 2], [0, 2, 3, 5]))
  {
    var es := example;
    assert InBounds(es, 3, 3);
    BuildContents(3, 3, 5, es);
    ExampleProjections();
    ExampleCounts();
    var m := Build(3, 3, 5, es).value;
    assert m.rowOffsets == [0, 2, 3, 5];
  }

  /** The values and column indices in insertion order. */
  lemma ExampleProjections()
    ensures ValuesOf(example) == [1.0, 2.0, 3.0, 4.0, 5.0]
    ensures ColsOf(example) == [0, 2, 1, 0, 2]
  {
  }

  /** Rows before 0, 1, 2 and 3 received 0, 2, 3 and 5 insertions. */
  lemma ExampleCounts()
    ensures forall i: nat :: i <= 3 ==> CountBelow(example, i) == [0, 2, 3, 5][i]
  {
    var es := example;
    assert es[..4][..3][..2][..1] == [es[0]];
    assert es[..4][..3][..2] == [es[0], es[1]];
    assert es[..4][..3] == [es[0], es[1], es[2]];
    assert es[..4] == [es[0], es[1], es[2], es[3]];
    forall i: nat | i <= 3
      ensures CountBelow(es, i) == [0, 2, 3, 5][i]
    {
      assert CountBelow(es[..4][..3][..2], i) == [0, 2, 2, 2][i];
      assert CountBelow(es[..4][..3], i) == [0, 2, 3, 3][i];
      assert CountBelow(es[..4], i) == [0, 2, 3, 4][i];
    }
  }

  /** The example matrix times [1,2,3] is [7,6,19]. */
  lemma ThreeByThreeExample()
    ensures Build(3, 3, 5, example).Success?
    ensures Product(Build(3, 3, 5, example).value, [1.0, 2.0, 3.0]) == [7.0, 6.0, 19.0]
  {
    ExampleBuild();
  }

  /** Row 1's entry inserted before row 0's, into a 2x1 matrix. */
  const outOfOrder: seq<Entry> := [Entry(1, 0, 1.0), Entry(0, 0, 2.0)]

  /** The matrix those two insertions leave behind: both offsets bumped, so
      row 0 owns position 0, which holds the value meant for row 1. */
  lemma OutOfOrderBuild()
    ensures Build(2, 1, 0, outOfOrder) == Success(Csr(2, 1, [1.0, 2.0], [0, 0], [0, 1, 2]))
  {
    var es := outOfOrder;
    assert es[..1] == [es[0]];
    assert InBounds(es, 2, 1);
    BuildContents(2, 1, 0, es);
    var m := Build(2, 1, 0, es).value;
    assert m.values == [1.0, 2.0];
    assert m.colIndices == [0, 0];
    assert m.rowOffsets == [0, 1, 2];
  }

  /** Row 0 received the second insertion and row 1 the first. */
  lemma OutOfOrderRows()
    ensures RowEntries(outOfOrder, 0) == [Entry(0, 0, 2.0)]
    ensures RowEntries(outOfOrder, 1) == [Entry(1, 0, 1.0)]
  {
    assert outOfOrder[..1] == [Entry(1, 0, 1.0)];
  }

  /** Read from the insertions, `A [1]` is `[2, 1]`. */
  lemma OutOfOrderReference()
    ensures ReferenceProduct(2, 1, outOfOrder, [1.0]) == [2.0, 1.0]
  {
    OutOfOrderRows();
    assert [Entry(0, 0, 2.0)][..0] == [];
    assert [Entry(1, 0, 1.0)][..0] == [];
  }

  /** Inserting row 1 before row 0 misfiles both entries: row 0's segment
      holds the value meant for row 1, and the product comes out with its
      rows swapped against the reference product of the same insertions. */
  lemma OutOfOrderMisfiles()
    ensures Build(2, 1, 0, outOfOrder).Success?
    ensures Build(2, 1, 0, outOfOrder).value.values[0..1] == [1.0]
    ensures ValuesOf(RowEntries(outOfOrder, 0)) == [2.0]
    ensures Product(Build(2, 1, 0, outOfOrder).value, [1.0]) == [1.0, 2.0]
    ensures ReferenceProduct(2, 1, outOfOrder, [1.0]) == [2.0, 1.0]
  {
    OutOfOrderBuild();
    OutOfOrderRows();
    OutOfOrderReference();
  }

  /** Setting the same cell twice stores it twice; the product adds both. */
  lemma RepeatedCellAccumulates(t: real)
    ensures var es := [Entry(0, 0, 2.0), Entry(0, 0, 3.0)];
      && Build(1, 1, 2, es).Success?
      && Build(1, 1, 2, es).value.values == [2.0, 3.0]
      && Product(Build(1, 1, 2, es).value, [t]) == [5.0 * t]
  {
  }
}
