/** Two-dimensional numeric arrays with an explicit shape (so that a matrix
    with no rows still has a column count, as a numpy array does), the three
    array operations `simulate_data` uses, and the labelled table it wraps
    each array in. */
module Matrices {
  import opened Outcomes
  import opened Text

  datatype Matrix = Matrix(rows: nat, cols: nat, cells: seq<seq<real>>) {

    predicate Valid() {
      |cells| == rows && forall i :: 0 <= i < rows ==> |cells[i]| == cols
    }
  }

  /** The `rows` x `cols` array whose cell (i, j) is `cell(i, j)`: a block of
      values taken from the random generator. */
  function Fill(rows: nat, cols: nat, cell: (nat, nat) -> real): (m: Matrix)
    ensures m.Valid() && m.rows == rows && m.cols == cols
    ensures forall i, j :: 0 <= i < rows && 0 <= j < cols ==> m.cells[i][j] == cell(i, j)
  {
    Matrix(rows, cols, seq(rows, (i: int) requires 0 <= i < rows => seq(cols, (j: int) requires 0 <= j < cols => cell(i, j))))
  }

  /** `np.concatenate([a, b], axis=1)`: the columns of `a`, then those of `b`. */
  function ConcatColumns(a: Matrix, b: Matrix): (m: Matrix)
    requires a.Valid() && b.Valid() && a.rows == b.rows
    ensures m.Valid() && m.rows == a.rows && m.cols == a.cols + b.cols
    ensures forall i, j :: 0 <= i < m.rows && 0 <= j < a.cols ==> m.cells[i][j] == a.cells[i][j]
    ensures forall i, j :: 0 <= i < m.rows && a.cols <= j < m.cols ==> m.cells[i][j] == b.cells[i][j - a.cols]
  {
    Matrix(a.rows, a.cols + b.cols, seq(a.rows, (i: int) requires 0 <= i < a.rows => a.cells[i] + b.cells[i]))
  }

  /** Where Python's slice `start:` begins in a sequence of length `len`: a
      negative start counts from the end, and both ends are clamped. */
  function SliceStart(start: int, len: nat): (s: nat)
    ensures s <= len
    ensures 0 <= start <= len ==> s == start
    ensures start < 0 ==> s == Max(len + start, 0)
    ensures start > len ==> s == len
  {
    if start < 0 then Max(len + start, 0) else if start > len then len else start
  }

  /** `m[:, start:] += delta`: every cell in a column at or after the slice
      start gets `delta` added, every other cell is left as it was. */
  function ShiftColumnsFrom(m: Matrix, start: int, delta: real): (r: Matrix)
    requires m.Valid()
    ensures r.Valid() && r.rows == m.rows && r.cols == m.cols
    ensures forall i, j :: 0 <= i < m.rows && SliceStart(start, m.cols) <= j < m.cols ==> r.cells[i][j] == m.cells[i][j] + delta
    ensures forall i, j :: 0 <= i < m.rows && 0 <= j < SliceStart(start, m.cols) ==> r.cells[i][j] == m.cells[i][j]
  {
    var s := SliceStart(start, m.cols);
    Matrix(m.rows, m.cols,
      seq(m.rows, (i: int) requires 0 <= i < m.rows =>
        seq(m.cols, (j: int) requires 0 <= j < m.cols => if j >= s then m.cells[i][j] + delta else m.cells[i][j])))
  }

  /** A labelled table: row labels, column labels and the values. */
  datatype Frame = Frame(index: seq<string>, columns: seq<string>, values: Matrix)

  /** `pd.DataFrame(values, index=index, columns=columns)`: accepted only when
      the labels match the array's shape. */
  function Label(values: Matrix, index: seq<string>, columns: seq<string>): (r: Result<Frame>)
    ensures r.Success? <==> values.rows == |index| && values.cols == |columns|
    ensures r.Success? ==> r.value.index == index && r.value.columns == columns && r.value.values == values
    ensures r.Failure? ==> r.error == ShapeMismatch
  {
    if values.rows == |index| && values.cols == |columns| then Success(Frame(index, columns, values))
    else Failure(ShapeMismatch)
  }
}
