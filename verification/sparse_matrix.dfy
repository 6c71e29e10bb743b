/** The CSR (compressed sparse row) matrix: its field layout, the incremental
    builder step `setValue`, and the matrix-vector product `operator*`. */
module SparseMatrix {
  import opened Outcomes
  import opened Vectors

  /** `values` holds the stored entries, `colIndices` the column of each
      (a parallel array), and `rowOffsets[i]` the position in `values`
      where row `i` starts; row `i` owns `[rowOffsets[i], rowOffsets[i+1])`. */
  datatype Csr = Csr(
    rows: nat,
    cols: nat,
    values: seq<real>,
    colIndices: seq<nat>,
    rowOffsets: seq<nat>)

  /** One offset per row plus the end marker. */
  predicate WellShaped(m: Csr)
  {
    |m.rowOffsets| == m.rows + 1
  }

  /** The CSR invariant: offsets start at 0, never decrease and end at the
      number of stored entries; the column array runs parallel to the value
      array and every stored column is inside the matrix. */
  predicate Valid(m: Csr)
  {
    && WellShaped(m)
    && m.rowOffsets[0] == 0
    && (forall i, j :: 0 <= i <= j <= m.rows ==> m.rowOffsets[i] <= m.rowOffsets[j])
    && m.rowOffsets[m.rows] == |m.values|
    && |m.colIndices| == |m.values|
    && (forall k :: 0 <= k < |m.colIndices| ==> m.colIndices[k] < m.cols)
  }

  /** The constructor: no entries and `rows + 1` zero offsets. The capacity
      is only a reservation hint and leaves no trace in the value. */
  function New(rows: nat, cols: nat, capacity: nat): (m: Csr)
    ensures Valid(m)
    ensures m.rows == rows && m.cols == cols
    ensures m.values == [] && m.colIndices == []
    ensures |m.rowOffsets| == rows + 1
    ensures forall i :: 0 <= i <= rows ==> m.rowOffsets[i] == 0
  {
    Csr(rows, cols, [], [], seq(rows + 1, _ => 0))
  }

  /** The capacity hint has no observable effect. */
  lemma NewIgnoresCapacity(rows: nat, cols: nat, c1: nat, c2: nat)
    ensures New(rows, cols, c1) == New(rows, cols, c2)
  {
  }

  /** Adds one to every offset from position `from` on. */
  function BumpFrom(offsets: seq<nat>, from: nat): seq<nat>
  {
    seq(|offsets|, i requires 0 <= i < |offsets| =>
      if from <= i then offsets[i] + 1 else offsets[i])
  }

  /** `setValue(row, col, value)`: out of range when `row >= rows` or
      `col >= cols` (the matrix is then left as it was); otherwise one value
      and one column are appended and the offsets of all rows after `row`
      move up by one. Dimensions never change, and the CSR invariant is
      kept. */
  function SetValue(m: Csr, row: nat, col: nat, value: real): (r: Result<Csr>)
    requires WellShaped(m)
    ensures r.Failure? <==> row >= m.rows || col >= m.cols
    ensures r.Failure? ==> r.error == OutOfRange
    ensures r.Success? ==>
      && r.value.rows == m.rows
      && r.value.cols == m.cols
      && r.value.values == m.values + [value]
      && r.value.colIndices == m.colIndices + [col]
      && WellShaped(r.value)
      && (forall i :: 0 <= i <= row ==> r.value.rowOffsets[i] == m.rowOffsets[i])
      && (forall i :: row < i <= m.rows ==> r.value.rowOffsets[i] == m.rowOffsets[i] + 1)
    ensures r.Success? && Valid(m) ==> Valid(r.value)
  {
    if row >= m.rows || col >= m.cols then
      Failure(OutOfRange)
    else
      Success(m.(values := m.values + [value],
                 colIndices := m.colIndices + [col],
                 rowOffsets := BumpFrom(m.rowOffsets, row + 1)))
  }

  /** The accumulating inner loop over positions `[lo, hi)`: adds
      `values[k] * x[colIndices[k]]` left to right, starting from `0.0`. */
  function SegmentSum(m: Csr, x: Vec, lo: nat, hi: nat): real
    requires Valid(m) && |x| == m.cols
    requires lo <= hi <= |m.values|
    decreases hi - lo
  {
    if hi == lo then 0.0
    else SegmentSum(m, x, lo, hi - 1) + m.values[hi - 1] * x[m.colIndices[hi - 1]]
  }

  /** Row `i`'s segment lies inside the stored entries. */
  lemma RowSegmentBounds(m: Csr, i: nat)
    requires Valid(m) && i < m.rows
    ensures m.rowOffsets[i] <= m.rowOffsets[i + 1] <= |m.values|
  {
  }

  /** `(A * x)[i]`: the sum over row `i`'s segment. */
  function RowSum(m: Csr, x: Vec, i: nat): real
    requires Valid(m) && |x| == m.cols && i < m.rows
  {
    RowSegmentBounds(m, i);
    SegmentSum(m, x, m.rowOffsets[i], m.rowOffsets[i + 1])
  }

  /** The product `A * x` for a vector of the right size: one row sum per
      row, and 0 for a row with no stored entries. */
  function Product(m: Csr, x: Vec): (y: Vec)
    requires Valid(m) && |x| == m.cols
    ensures |y| == m.rows
    ensures forall i :: 0 <= i < m.rows ==> y[i] == RowSum(m, x, i)
    ensures forall i :: 0 <= i < m.rows && m.rowOffsets[i] == m.rowOffsets[i + 1] ==> y[i] == 0.0
  {
    seq(m.rows, i requires 0 <= i < m.rows => RowSum(m, x, i))
  }

  /** `operator*`: throws `length_error` when `x` does not have `cols`
      elements; otherwise runs the row loop with its inner segment loop. The
      matrix is a value and is not changed. */
  method Multiply(m: Csr, x: Vec) returns (r: Result<Vec>)
    requires Valid(m)
    ensures r.Failure? <==> |x| != m.cols
    ensures r.Failure? ==> r.error == LengthError
    ensures r.Success? ==> |r.value| == m.rows
    ensures r.Success? ==> forall i :: 0 <= i < m.rows ==>
      r.value[i] == SegmentSum(m, x, m.rowOffsets[i], m.rowOffsets[i + 1])
    ensures r.Success? ==> r.value == Product(m, x)
  {
    if m.cols != |x| {
      return Failure(LengthError);
    }
    var result := Zeros(m.rows);
    var i := 0;
    while i < m.rows
      invariant 0 <= i <= m.rows
      invariant |result| == m.rows
      invariant forall j :: 0 <= j < i ==>
        result[j] == SegmentSum(m, x, m.rowOffsets[j], m.rowOffsets[j + 1])
    {
      var sum := 0.0;
      var start := m.rowOffsets[i];
      var end := m.rowOffsets[i + 1];
      var k := start;
      while k < end
        invariant start <= k <= end <= |m.values|
        invariant sum == SegmentSum(m, x, start, k)
      {
        sum := sum + m.values[k] * x[m.colIndices[k]];
        k := k + 1;
      }
      result := result[i := sum];
      i := i + 1;
    }
    return Success(result);
  }

  /** Segment sums are additive in the vector. */
  lemma {:induction false} SegmentSumAdd(m: Csr, x: Vec, z: Vec, lo: nat, hi: nat)
    requires Valid(m) && |x| == m.cols && |z| == m.cols
    requires lo <= hi <= |m.values|
    ensures SegmentSum(m, Add(x, z), lo, hi) == SegmentSum(m, x, lo, hi) + SegmentSum(m, z, lo, hi)
    decreases hi - lo
  {
    if hi > lo {
      SegmentSumAdd(m, x, z, lo, hi - 1);
      var c := m.colIndices[hi - 1];
      var v := m.values[hi - 1];
      assert v * Add(x, z)[c] == v * x[c] + v * z[c];
    }
  }

  /** Segment sums are homogeneous in the vector. */
  lemma {:induction false} SegmentSumScale(m: Csr, x: Vec, s: real, lo: nat, hi: nat)
    requires Valid(m) && |x| == m.cols
    requires lo <= hi <= |m.values|
    ensures SegmentSum(m, Scale(x, s), lo, hi) == s * SegmentSum(m, x, lo, hi)
    decreases hi - lo
  {
    if hi > lo {
      SegmentSumScale(m, x, s, lo, hi - 1);
      var c := m.colIndices[hi - 1];
      var v := m.values[hi - 1];
      assert v * Scale(x, s)[c] == s * (v * x[c]);
    }
  }

  /** The product is linear: it maps sums to sums. */
  lemma ProductAdd(m: Csr, x: Vec, z: Vec)
    requires Valid(m) && |x| == m.cols && |z| == m.cols
    ensures Product(m, Add(x, z)) == Add(Product(m, x), Product(m, z))
  {
    forall i | 0 <= i < m.rows
      ensures Product(m, Add(x, z))[i] == Add(Product(m, x), Product(m, z))[i]
    {
      RowSegmentBounds(m, i);
      SegmentSumAdd(m, x, z, m.rowOffsets[i], m.rowOffsets[i + 1]);
    }
  }

  /** The product is linear: it commutes with scaling. */
  lemma ProductScale(m: Csr, x: Vec, s: real)
    requires Valid(m) && |x| == m.cols
    ensures Product(m, Scale(x, s)) == Scale(Product(m, x), s)
  {
    forall i | 0 <= i < m.rows
      ensures Product(m, Scale(x, s))[i] == Scale(Product(m, x), s)[i]
    {
      ProductScaleAt(m, x, s, i);
    }
  }

  lemma ProductScaleAt(m: Csr, x: Vec, s: real, i: nat)
    requires Valid(m) && |x| == m.cols && i < m.rows
    ensures Product(m, Scale(x, s))[i] == Product(m, x)[i] * s
  {
    RowSegmentBounds(m, i);
    var lo, hi := m.rowOffsets[i], m.rowOffsets[i + 1];
    SegmentSumScale(m, x, s, lo, hi);
    var t := SegmentSum(m, x, lo, hi);
    assert Product(m, x)[i] == t;
    assert Product(m, Scale(x, s))[i] == s * t;
  }

  /** The zero vector is mapped to the zero vector. */
  lemma ProductZero(m: Csr, x: Vec)
    requires Valid(m) && |x| == m.cols && IsZero(x)
    ensures IsZero(Product(m, x))
  {
    AddZerosIdentity(x);
    assert x == Scale(x, 0.0);
    ProductScale(m, x, 0.0);
  }
}
