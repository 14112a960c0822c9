/** Values standing for the two-dimensional numpy arrays of the waveform code
    (samples along the first axis, channels along the second), with Python's
    slicing rules and numpy's integer-array indexing. */
module Arrays {
  import opened Outcomes

  /** A list of rows, each meant to hold `cols` entries. */
  datatype Grid = Grid(rows: seq<seq<real>>, cols: nat) {
    predicate Rectangular() {
      forall i | 0 <= i < |rows| :: |rows[i]| == cols
    }
  }

  /** A numpy array of shape (|rows|, cols). */
  type Matrix = m: Grid | m.Rectangular() witness Grid([], 0)

  function ZeroRow(cols: nat): (z: seq<real>)
    ensures |z| == cols && forall j | 0 <= j < cols :: z[j] == 0.0
  {
    seq(cols, _ => 0.0)
  }

  /** `np.zeros((n, cols))`. */
  function Zeros(n: nat, cols: nat): (z: Matrix)
    ensures |z.rows| == n && z.cols == cols
    ensures forall i | 0 <= i < n :: z.rows[i] == ZeroRow(cols)
  {
    Grid(seq(n, _ => ZeroRow(cols)), cols)
  }

  /** `np.vstack((a, b))`. */
  function Stack(a: Matrix, b: Matrix): (r: Matrix)
    requires a.cols == b.cols
    ensures r.rows == a.rows + b.rows && r.cols == a.cols
  {
    Grid(a.rows + b.rows, a.cols)
  }

  /** Where a bound of a Python slice lands in a sequence of length n:
      a negative bound counts from the end, and bounds are clamped to [0, n]. */
  function SliceBound(i: int, n: nat): (b: nat)
    ensures b <= n
    ensures 0 <= i <= n ==> b == i
    ensures i > n ==> b == n
    ensures i < 0 ==> b == (if i + n < 0 then 0 else i + n)
  {
    if i < 0 then (if i + n < 0 then 0 else i + n) else if i > n then n else i
  }

  /** `s[start:stop]` in Python. */
  function PySlice<T>(s: seq<T>, start: int, stop: int): (r: seq<T>)
    ensures var a, b := SliceBound(start, |s|), SliceBound(stop, |s|);
      |r| == (if a < b then b - a else 0) &&
      forall k | 0 <= k < |r| :: r[k] == s[a + k]
  {
    var a, b := SliceBound(start, |s|), SliceBound(stop, |s|);
    if a < b then s[a..b] else []
  }

  /** `m[start:stop]`: a slice along the sample axis. */
  function SliceRows(m: Matrix, start: int, stop: int): (r: Matrix)
    ensures r.rows == PySlice(m.rows, start, stop) && r.cols == m.cols
  {
    Grid(PySlice(m.rows, start, stop), m.cols)
  }

  /** numpy accepts an integer index i on an axis of length n when -n <= i < n. */
  predicate InAxis(i: int, n: nat) {
    -(n as int) <= i < n
  }

  predicate AllInAxis(idx: seq<int>, n: nat) {
    forall k | 0 <= k < |idx| :: InAxis(idx[k], n)
  }

  /** The position an accepted index stands for: negative indices count from the end. */
  function Wrap(i: int, n: nat): (p: nat)
    requires InAxis(i, n)
    ensures p < n && (i >= 0 ==> p == i) && (i < 0 ==> p == i + n)
  {
    if i < 0 then i + n else i
  }

  /** `v[idx]` for a one-dimensional array v and a list of indices. */
  function TakeEntries(v: seq<real>, idx: seq<int>): (r: Result<seq<real>>)
    ensures r.Err? <==> !AllInAxis(idx, |v|)
    ensures r.Err? ==> r.error == IndexError
    ensures r.Ok? ==> (|r.value| == |idx| &&
      forall k | 0 <= k < |idx| :: r.value[k] == v[Wrap(idx[k], |v|)])
  {
    if AllInAxis(idx, |v|) then Ok(seq(|idx|, k requires 0 <= k < |idx| => v[Wrap(idx[k], |v|)]))
    else Err(IndexError)
  }

  /** `m[:, idx]`: the columns named by a list of channel indices, in that order. */
  function TakeColumns(m: Matrix, idx: seq<int>): (r: Result<Matrix>)
    ensures r.Err? <==> !AllInAxis(idx, m.cols)
    ensures r.Err? ==> r.error == IndexError
    ensures r.Ok? ==> (|r.value.rows| == |m.rows| && r.value.cols == |idx| &&
      forall i, k | 0 <= i < |m.rows| && 0 <= k < |idx| ::
        r.value.rows[i][k] == m.rows[i][Wrap(idx[k], m.cols)])
  {
    if AllInAxis(idx, m.cols) then
      Ok(Grid(seq(|m.rows|, i requires 0 <= i < |m.rows| =>
                seq(|idx|, k requires 0 <= k < |idx| => m.rows[i][Wrap(idx[k], m.cols)])),
              |idx|))
    else Err(IndexError)
  }

  /** The reference window: rows [start, end) of `data`, the rows that fall
      outside the array being zero rows. An empty window when end <= start. */
  function PaddedWindow(data: Matrix, start: int, end: int): (w: Matrix)
    ensures w.cols == data.cols && |w.rows| == (if start < end then end - start else 0)
    ensures forall k | 0 <= k < |w.rows| ::
      w.rows[k] == if 0 <= start + k < |data.rows| then data.rows[start + k] else ZeroRow(data.cols)
  {
    var n := if start < end then end - start else 0;
    var rows := seq(n, k requires 0 <= k < n =>
      if 0 <= start + k < |data.rows| then data.rows[start + k] else ZeroRow(data.cols));
    assert data.Rectangular();
    forall k | 0 <= k < n ensures |rows[k]| == data.cols {
      if 0 <= start + k < |data.rows| {
        assert rows[k] == data.rows[start + k];
        assert |data.rows[start + k]| == data.cols;
      } else {
        assert rows[k] == ZeroRow(data.cols);
      }
    }
    Grid(rows, data.cols)
  }

  /** Python's `int(x)` on a float: truncation toward zero. */
  function Trunc(x: real): (s: int)
    ensures x >= 0.0 ==> s as real <= x < s as real + 1.0
    ensures x < 0.0 ==> s as real - 1.0 < x <= s as real
  {
    if x >= 0.0 then x.Floor else -((-x).Floor)
  }
}
