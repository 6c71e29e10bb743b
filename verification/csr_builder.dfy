/** Building a CSR matrix by a sequence of `setValue` calls, and what the
    row-major insertion order the builder assumes buys: each row's segment
    holds exactly that row's insertions, in insertion order. */
module CsrBuilder {
  import opened Outcomes
  import opened Vectors
  import opened SparseMatrix

  /** One `setValue(row, col, value)` call. */
  datatype Entry = Entry(row: nat, col: nat, value: real)

  /** A fresh matrix followed by the given insertions, stopping at the first
      one that throws. */
  function Build(rows: nat, cols: nat, capacity: nat, es: seq<Entry>): (r: Result<Csr>)
    ensures r.Success? ==> Valid(r.value) && r.value.rows == rows && r.value.cols == cols
    decreases |es|
  {
    if |es| == 0 then Success(New(rows, cols, capacity))
    else
      match Build(rows, cols, capacity, es[..|es| - 1])
      case Failure(e) => Failure(e)
      case Success(m) =>
        var e := es[|es| - 1];
        SetValue(m, e.row, e.col, e.value)
  }

  /** Every insertion names a cell inside the matrix. */
  predicate InBounds(es: seq<Entry>, rows: nat, cols: nat)
  {
    forall e :: e in es ==> e.row < rows && e.col < cols
  }

  /** Rows never go back: the order the builder assumes. */
  predicate RowMajor(es: seq<Entry>)
  {
    forall j, k :: 0 <= j < k < |es| ==> es[j].row <= es[k].row
  }

  function ValuesOf(es: seq<Entry>): (vs: seq<real>)
    ensures |vs| == |es|
    ensures forall k :: 0 <= k < |es| ==> vs[k] == es[k].value
  {
    seq(|es|, k requires 0 <= k < |es| => es[k].value)
  }

  function ColsOf(es: seq<Entry>): (cs: seq<nat>)
    ensures |cs| == |es|
    ensures forall k :: 0 <= k < |es| ==> cs[k] == es[k].col
  {
    seq(|es|, k requires 0 <= k < |es| => es[k].col)
  }

  /** How many insertions name a row before row `i`. */
  function CountBelow(es: seq<Entry>, i: nat): (n: nat)
    ensures n <= |es|
    decreases |es|
  {
    if |es| == 0 then 0
    else CountBelow(es[..|es| - 1], i) + (if es[|es| - 1].row < i then 1 else 0)
  }

  /** The insertions into row `i`, in the order they were made. */
  function RowEntries(es: seq<Entry>, i: nat): (r: seq<Entry>)
    ensures forall k :: 0 <= k < |r| ==> r[k] in es && r[k].row == i
    decreases |es|
  {
    if |es| == 0 then []
    else RowEntries(es[..|es| - 1], i) + (if es[|es| - 1].row == i then [es[|es| - 1]] else [])
  }

  /** Whatever the insertion order: the build fails exactly when some
      insertion is out of range; otherwise values and columns are stored in
      insertion order and `rowOffsets[i]` counts the insertions into rows
      before `i`. */
  lemma {:induction false} BuildContents(rows: nat, cols: nat, capacity: nat, es: seq<Entry>)
    ensures Build(rows, cols, capacity, es).Success? <==> InBounds(es, rows, cols)
    ensures Build(rows, cols, capacity, es).Failure? ==> Build(rows, cols, capacity, es).error == OutOfRange
    ensures Build(rows, cols, capacity, es).Success? ==>
      var m := Build(rows, cols, capacity, es).value;
      && m.values == ValuesOf(es)
      && m.colIndices == ColsOf(es)
      && forall i :: 0 <= i <= rows ==> m.rowOffsets[i] == CountBelow(es, i)
    decreases |es|
  {
    if |es| > 0 {
      var init := es[..|es| - 1];
      BuildContents(rows, cols, capacity, init);
      ProjectionsAppend(es);
    }
  }

  /** Splitting off the last insertion. */
  lemma ProjectionsAppend(es: seq<Entry>)
    requires |es| > 0
    ensures var init, e := es[..|es| - 1], es[|es| - 1];
      && ValuesOf(es) == ValuesOf(init) + [e.value]
      && ColsOf(es) == ColsOf(init) + [e.col]
      && (forall rows: nat, cols: nat :: InBounds(es, rows, cols) <==>
            InBounds(init, rows, cols) && e.row < rows && e.col < cols)
  {
    var init, e := es[..|es| - 1], es[|es| - 1];
    assert es == init + [e];
  }

  /** Projections commute with slicing. */
  lemma ProjectionsSlice(es: seq<Entry>, lo: nat, hi: nat)
    requires lo <= hi <= |es|
    ensures ValuesOf(es)[lo..hi] == ValuesOf(es[lo..hi])
    ensures ColsOf(es)[lo..hi] == ColsOf(es[lo..hi])
  {
  }

  /** With every row before `i`, all insertions count as below `i`. */
  lemma {:induction false} CountBelowAll(es: seq<Entry>, i: nat)
    requires forall e :: e in es ==> e.row < i
    ensures CountBelow(es, i) == |es|
    decreases |es|
  {
    if |es| > 0 {
      assert es[|es| - 1] in es;
      CountBelowAll(es[..|es| - 1], i);
    }
  }

  /** With no insertion into row `i`, row `i` has no entries. */
  lemma {:induction false} RowEntriesNone(es: seq<Entry>, i: nat)
    requires forall e :: e in es ==> e.row != i
    ensures RowEntries(es, i) == []
    decreases |es|
  {
    if |es| > 0 {
      assert es[|es| - 1] in es;
      RowEntriesNone(es[..|es| - 1], i);
    }
  }

  /** Under row-major order, every earlier insertion names a row no later
      than the last one. */
  lemma RowMajorLast(es: seq<Entry>)
    requires RowMajor(es) && |es| > 0
    ensures RowMajor(es[..|es| - 1])
    ensures forall f :: f in es[..|es| - 1] ==> f.row <= es[|es| - 1].row
  {
    forall f | f in es[..|es| - 1] ensures f.row <= es[|es| - 1].row {
      var k :| 0 <= k < |es| - 1 && es[..|es| - 1][k] == f;
    }
  }

  /** Under row-major order, the insertions between `CountBelow(es, i)` and
      `CountBelow(es, i + 1)` are exactly row `i`'s, in order. */
  lemma {:induction false} RowMajorSegment(es: seq<Entry>, i: nat)
    requires RowMajor(es)
    ensures CountBelow(es, i) <= CountBelow(es, i + 1)
    ensures es[CountBelow(es, i)..CountBelow(es, i + 1)] == RowEntries(es, i)
    decreases |es|
  {
    if |es| > 0 {
      var n := |es| - 1;
      var init := es[..n];
      var e := es[n];
      RowMajorLast(es);
      RowMajorSegment(init, i);
      if e.row > i {
        LaterRowCase(es, i);
      } else if e.row == i {
        SameRowCase(es, i);
      } else {
        EarlierRowCase(es, i);
      }
    }
  }

  /** The last insertion is into row `i`, and every earlier one is into row
      `i` or before. */
  lemma SameRowCase(es: seq<Entry>, i: nat)
    requires |es| > 0 && es[|es| - 1].row == i
    requires forall f :: f in es[..|es| - 1] ==> f.row <= i
    requires CountBelow(es[..|es| - 1], i) <= CountBelow(es[..|es| - 1], i + 1)
    requires es[..|es| - 1][CountBelow(es[..|es| - 1], i)..CountBelow(es[..|es| - 1], i + 1)]
      == RowEntries(es[..|es| - 1], i)
    ensures CountBelow(es, i) <= CountBelow(es, i + 1)
    ensures es[CountBelow(es, i)..CountBelow(es, i + 1)] == RowEntries(es, i)
  {
    var init := es[..|es| - 1];
    CountBelowAll(init, i + 1);
    SameRowSegment(es, CountBelow(init, i), CountBelow(init, i + 1));
  }

  /** The last insertion is into a row before `i`, and so is every earlier
      one. */
  lemma EarlierRowCase(es: seq<Entry>, i: nat)
    requires |es| > 0 && es[|es| - 1].row < i
    requires forall f :: f in es[..|es| - 1] ==> f.row <= es[|es| - 1].row
    ensures CountBelow(es, i) <= CountBelow(es, i + 1)
    ensures es[CountBelow(es, i)..CountBelow(es, i + 1)] == RowEntries(es, i)
  {
    var init := es[..|es| - 1];
    CountBelowAll(init, i);
    CountBelowAll(init, i + 1);
    RowEntriesNone(init, i);
  }

  /** The last insertion is into a row after `i`: row `i`'s segment is the
      one it had before. */
  lemma LaterRowCase(es: seq<Entry>, i: nat)
    requires |es| > 0 && es[|es| - 1].row > i
    requires CountBelow(es[..|es| - 1], i) <= CountBelow(es[..|es| - 1], i + 1)
    requires es[..|es| - 1][CountBelow(es[..|es| - 1], i)..CountBelow(es[..|es| - 1], i + 1)]
      == RowEntries(es[..|es| - 1], i)
    ensures CountBelow(es, i) <= CountBelow(es, i + 1)
    ensures es[CountBelow(es, i)..CountBelow(es, i + 1)] == RowEntries(es, i)
  {
    var init := es[..|es| - 1];
    var lo, hi := CountBelow(init, i), CountBelow(init, i + 1);
    assert es[lo..hi] == init[lo..hi];
  }

  lemma SameRowSegment(es: seq<Entry>, lo: nat, hi: nat)
    requires |es| > 0 && lo <= hi == |es| - 1
    ensures es[lo..hi + 1] == es[..|es| - 1][lo..hi] + [es[|es| - 1]]
  {
  }

  /** Row-major insertion into range succeeds, and then each row's segment
      of `values` and `colIndices` holds exactly the values and columns
      inserted into that row, in insertion order; a repeated `(row, col)` is
      kept twice. */
  lemma RowMajorBuild(rows: nat, cols: nat, capacity: nat, es: seq<Entry>)
    requires InBounds(es, rows, cols) && RowMajor(es)
    ensures Build(rows, cols, capacity, es).Success?
    ensures var m := Build(rows, cols, capacity, es).value;
      forall i {:trigger RowEntries(es, i)} :: 0 <= i < rows ==>
        && m.rowOffsets[i] <= m.rowOffsets[i + 1] <= |m.values|
        && m.values[m.rowOffsets[i]..m.rowOffsets[i + 1]] == ValuesOf(RowEntries(es, i))
        && m.colIndices[m.rowOffsets[i]..m.rowOffsets[i + 1]] == ColsOf(RowEntries(es, i))
  {
    BuildContents(rows, cols, capacity, es);
    var m := Build(rows, cols, capacity, es).value;
    forall i {:trigger RowEntries(es, i)} | 0 <= i < rows
      ensures m.rowOffsets[i] <= m.rowOffsets[i + 1] <= |m.values|
      ensures m.values[m.rowOffsets[i]..m.rowOffsets[i + 1]] == ValuesOf(RowEntries(es, i))
      ensures m.colIndices[m.rowOffsets[i]..m.rowOffsets[i + 1]] == ColsOf(RowEntries(es, i))
    {
      RowMajorSegment(es, i);
      ProjectionsSlice(es, CountBelow(es, i), CountBelow(es, i + 1));
    }
  }

  /** Every insertion names a column below `n`. */
  predicate ColumnsBelow(es: seq<Entry>, n: nat)
  {
    forall k :: 0 <= k < |es| ==> es[k].col < n
  }

  /** The row-`i` insertions summed left to right: `value * x[col]`. */
  function EntrySum(es: seq<Entry>, x: Vec): real
    requires ColumnsBelow(es, |x|)
    decreases |es|
  {
    if |es| == 0 then 0.0
    else
      var e := es[|es| - 1];
      EntrySum(es[..|es| - 1], x) + e.value * x[e.col]
  }

  /** An independent reading of `A * x` straight from the insertions: row
      `i` is the sum of the products of row `i`'s insertions, duplicates
      included. */
  function ReferenceProduct(rows: nat, cols: nat, es: seq<Entry>, x: Vec): (y: Vec)
    requires InBounds(es, rows, cols) && |x| == cols
    ensures |y| == rows
  {
    seq(rows, i requires 0 <= i < rows => EntrySum(RowEntries(es, i), x))
  }

  /** A segment sum over stored entries equals the sum over the insertions
      that produced them. */
  lemma {:induction false} SegmentSumEntries(m: Csr, es: seq<Entry>, x: Vec, lo: nat, hi: nat)
    requires Valid(m) && |x| == m.cols
    requires m.values == ValuesOf(es) && m.colIndices == ColsOf(es)
    requires lo <= hi <= |es|
    ensures ColumnsBelow(es[lo..hi], |x|)
    ensures SegmentSum(m, x, lo, hi) == EntrySum(es[lo..hi], x)
    decreases hi - lo
  {
    assert ColumnsBelow(es, |x|);
    if hi > lo {
      SegmentSumEntries(m, es, x, lo, hi - 1);
      assert es[lo..hi][..hi - lo - 1] == es[lo..hi - 1];
    }
  }

  /** Building a matrix by row-major insertion and multiplying it by `x`
      gives the reference product of the insertions. */
  lemma BuildMultiplyMatchesReference(rows: nat, cols: nat, capacity: nat, es: seq<Entry>, x: Vec)
    requires InBounds(es, rows, cols) && RowMajor(es) && |x| == cols
    ensures Build(rows, cols, capacity, es).Success?
    ensures Product(Build(rows, cols, capacity, es).value, x) == ReferenceProduct(rows, cols, es, x)
  {
    BuildContents(rows, cols, capacity, es);
    var m := Build(rows, cols, capacity, es).value;
    forall i | 0 <= i < rows
      ensures Product(m, x)[i] == ReferenceProduct(rows, cols, es, x)[i]
    {
      RowMajorSegment(es, i);
      SegmentSumEntries(m, es, x, m.rowOffsets[i], m.rowOffsets[i + 1]);
    }
  }
}
