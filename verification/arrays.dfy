/** The slice of Python and numpy semantics that mfcc.py relies on: results of
    operations that may raise an IndexError, Python's reading of indices and
    slices, numpy's assignment through an index range, and matrices stored
    row by row. */
module Arrays {

  /** The outcome of an operation that may raise: `None` stands for the
      exception the Python code would raise (an IndexError, unless a member
      says otherwise). */
  datatype Option<+T> = None | Some(value: T)
  {
    predicate IsFailure() {
      None?
    }

    function PropagateFailure<U>(): Option<U>
      requires None?
    {
      None
    }

    function Extract(): T
      requires Some?
    {
      value
    }
  }

  /** A numpy 2-D array, row by row. */
  type Matrix = seq<seq<real>>

  /** A strictly positive real: stands for a constant whose numeric value the
      model does not need, such as the square root of ten. */
  type PosReal = r: real | r > 0.0 witness 1.0

  /** The position index `j` names in a Python sequence of length `n`:
      negative indices count back from the end, anything else outside the
      sequence raises. */
  function Index(n: nat, j: int): (r: Option<nat>)
    ensures r.Some? <==> 0 <= n + j && j < n
    ensures r.Some? ==> r.value < n
    ensures r.Some? && 0 <= j ==> r.value == j
    ensures r.Some? && j < 0 ==> r.value == n + j
  {
    if 0 <= j < n then Some(j)
    else if 0 <= n + j && j < 0 then Some(n + j)
    else None
  }

  /** Where a slice bound `j` lands in a sequence of length `n`: a negative
      bound counts back from the end, then the bound is clamped to 0..n. */
  function SliceBound(n: nat, j: int): (r: nat)
    ensures r <= n
    ensures 0 <= j <= n ==> r == j
  {
    if j < 0 then (if n + j < 0 then 0 else n + j)
    else if j > n then n
    else j
  }

  /** Length of the Python slice `[start:stop]` of a sequence of length `n`. */
  function SliceLength(n: nat, start: int, stop: int): nat
  {
    var a, b := SliceBound(n, start), SliceBound(n, stop);
    if a < b then b - a else 0
  }

  /** Python's `s[start:stop]` (step 1). */
  function Slice<T>(s: seq<T>, start: int, stop: int): (r: seq<T>)
    ensures |r| == SliceLength(|s|, start, stop)
    ensures forall k :: 0 <= k < |r| ==> r[k] == s[SliceBound(|s|, start) + k]
  {
    var a, b := SliceBound(|s|, start), SliceBound(|s|, stop);
    if a < b then s[a..b] else []
  }

  /** `n` zeros, numpy's `np.zeros(n)`. */
  function Zeros(n: nat): (r: seq<real>)
    ensures |r| == n
    ensures forall b :: 0 <= b < n ==> r[b] == 0.0
  {
    seq(n, _ => 0.0)
  }

  /** `n` copies of `x`. */
  function Fill(n: nat, x: real): (r: seq<real>)
    ensures |r| == n
    ensures forall b :: 0 <= b < n ==> r[b] == x
  {
    seq(n, _ => x)
  }

  /** numpy's `row[np.arange(from, from + |values|)] = values`: the run of
      positions starting at `from` takes the given values, everything else
      keeps its value; an index past the end raises. */
  function Assign(row: seq<real>, from: nat, values: seq<real>): (r: Option<seq<real>>)
    ensures r.Some? <==> |values| == 0 || from + |values| <= |row|
    ensures r.Some? ==> |r.value| == |row|
    ensures r.Some? ==> forall b :: 0 <= b < |row| && from <= b < from + |values| ==> r.value[b] == values[b - from]
    ensures r.Some? ==> forall b :: 0 <= b < |row| && !(from <= b < from + |values|) ==> r.value[b] == row[b]
  {
    if |values| == 0 then Some(row)
    else if from + |values| <= |row| then Some(row[..from] + values + row[from + |values|..])
    else None
  }

  /** `m` has `rows` rows of `cols` entries each. */
  predicate IsShape(m: Matrix, rows: nat, cols: nat)
  {
    |m| == rows && forall t :: 0 <= t < |m| ==> |m[t]| == cols
  }

  /** Column `k` of `m`, numpy's `m[:, k]`. */
  function Column(m: Matrix, k: nat): (c: seq<real>)
    requires forall t :: 0 <= t < |m| ==> k < |m[t]|
    ensures |c| == |m|
    ensures forall t :: 0 <= t < |m| ==> c[t] == m[t][k]
  {
    seq(|m|, t requires 0 <= t < |m| => m[t][k])
  }

  /** numpy's `np.concatenate((a, b), axis=1)`: each row of `a` followed by
      the same row of `b`. */
  function Concat(a: Matrix, b: Matrix): (r: Matrix)
    requires |a| == |b|
    ensures |r| == |a|
    ensures forall t :: 0 <= t < |r| ==> |r[t]| == |a[t]| + |b[t]|
    ensures forall t, k :: 0 <= t < |r| && 0 <= k < |a[t]| ==> r[t][k] == a[t][k]
    ensures forall t, k :: 0 <= t < |r| && 0 <= k < |b[t]| ==> r[t][|a[t]| + k] == b[t][k]
  {
    seq(|a|, t requires 0 <= t < |a| => a[t] + b[t])
  }

  /** The scalar `a*p + b*q`. */
  function Mix(a: real, p: real, b: real, q: real): real
  {
    a * p + b * q
  }

  /** The vector `a*x + b*y`. */
  function Lin(a: real, x: seq<real>, b: real, y: seq<real>): (r: seq<real>)
    requires |x| == |y|
    ensures |r| == |x|
    ensures forall i :: 0 <= i < |x| ==> r[i] == Mix(a, x[i], b, y[i])
  {
    seq(|x|, i requires 0 <= i < |x| => Mix(a, x[i], b, y[i]))
  }

  /** The matrix `a*x + b*y`, for two matrices of one shape. */
  function Combine(a: real, x: Matrix, b: real, y: Matrix): (r: Matrix)
    requires |x| == |y| && forall t :: 0 <= t < |x| ==> |x[t]| == |y[t]|
    ensures |r| == |x|
    ensures forall t :: 0 <= t < |x| ==> r[t] == Lin(a, x[t], b, y[t])
  {
    seq(|x|, t requires 0 <= t < |x| => Lin(a, x[t], b, y[t]))
  }

  /** numpy's broadcast `m + v`: the vector `v` added to every row of `m`. */
  function AddToRows(m: Matrix, v: seq<real>): (r: Matrix)
    requires forall t :: 0 <= t < |m| ==> |m[t]| == |v|
    ensures IsShape(r, |m|, |v|)
    ensures forall t, k :: 0 <= t < |m| && 0 <= k < |v| ==> r[t][k] == m[t][k] + v[k]
  {
    seq(|m|, t requires 0 <= t < |m| => seq(|v|, k requires 0 <= k < |v| => m[t][k] + v[k]))
  }
}
