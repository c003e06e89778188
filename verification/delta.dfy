/** The delta operator of mfcc.py: a smoothed first derivative along the
    frame axis, computed column by column of a frames-by-features matrix.
    The constant `10**0.5` is the parameter `root10`. */
module Delta {
  import opened Arrays

  /** Python can read position `j` of `c` without raising. */
  predicate Readable(c: seq<real>, j: int)
  {
    Index(|c|, j).Some?
  }

  /** The value Python reads at position `j` of `c`. */
  function At(c: seq<real>, j: int): real
    requires Readable(c, j)
  {
    c[Index(|c|, j).value]
  }

  /** The smoothed derivative at frame `i` of a column of at least three
      frames: a forward difference on frames 0 and 1, a backward difference on
      the last two frames, and the five-frame regression in between. */
  function Slope(c: seq<real>, i: nat, root10: PosReal): real
    requires 3 <= |c| && i < |c|
  {
    if i < 2 then c[i + 1] - c[i]
    else if |c| - 2 <= i then c[i] - c[i - 1]
    else ((c[i + 1] - c[i - 1]) + 2.0 * (c[i + 2] - c[i - 2])) / root10
  }

  /** One pass of the inner loop of `delta`: the value for frame `i` of column
      `c`, or `None` when one of the reads it makes is out of range. Only the
      forward difference can read past the end, on a column of one or two
      frames; on three or more frames every pass is the smoothed derivative. */
  function Step(c: seq<real>, i: nat, root10: PosReal): (r: Option<real>)
    requires i < |c|
    ensures r.Some? <==> (i < 2 ==> i + 1 < |c|)
    ensures r.Some? && 3 <= |c| ==> r.value == Slope(c, i, root10)
    ensures r.Some? && |c| < 3 ==> r.value == c[1] - c[0]
  {
    if i < 2 then
      if Readable(c, i + 1) && Readable(c, i) then Some(At(c, i + 1) - At(c, i)) else None
    else if i > |c| - 3 then
      if Readable(c, i) && Readable(c, i - 1) then Some(At(c, i) - At(c, i - 1)) else None
    else if Readable(c, i + 1) && Readable(c, i - 1) && Readable(c, i + 2) && Readable(c, i - 2) then
      Some(((At(c, i + 1) - At(c, i - 1)) + 2.0 * (At(c, i + 2) - At(c, i - 2))) / root10)
    else
      None
  }

  /** The first `n` passes of the inner loop, in order; the first pass that
      raises ends the loop with `None`. */
  function DeltaPrefix(c: seq<real>, n: nat, root10: PosReal): (r: Option<seq<real>>)
    requires n <= |c|
    ensures r.Some? <==> forall i :: 0 <= i < n ==> Step(c, i, root10).Some?
    ensures r.Some? ==> |r.value| == n
    ensures r.Some? ==> forall i :: 0 <= i < n ==> Step(c, i, root10) == Some(r.value[i])
  {
    if n == 0 then Some([])
    else
      var p :- DeltaPrefix(c, n - 1, root10);
      var v :- Step(c, n - 1, root10);
      Some(p + [v])
  }

  /** `delta` on one column (the inner loop of mfcc.py's `delta`). It raises
      exactly on columns of one or two frames; a column of no frames gives an
      empty result, and on three or more frames every frame gets the smoothed
      derivative. */
  function DeltaColumn(c: seq<real>, root10: PosReal): (r: Option<seq<real>>)
    ensures r.Some? <==> |c| == 0 || 3 <= |c|
    ensures r.Some? ==> |r.value| == |c|
    ensures 3 <= |c| ==> r.Some? && forall i :: 0 <= i < |c| ==> r.value[i] == Slope(c, i, root10)
  {
    assert 1 <= |c| <= 2 ==> Step(c, |c| - 1, root10).None?;
    DeltaPrefix(c, |c|, root10)
  }

  /** mfcc.py's `delta` on a `frames x cols` matrix: the columns are handled one
      after another, each by `DeltaColumn`, and the result has the shape of
      the input. */
  function DeltaMatrix(m: Matrix, cols: nat, root10: PosReal): (r: Option<Matrix>)
    requires IsShape(m, |m|, cols)
    ensures r.Some? <==> cols == 0 || |m| == 0 || 3 <= |m|
    ensures r.Some? ==> IsShape(r.value, |m|, cols)
    ensures r.Some? ==> forall k :: 0 <= k < cols ==> DeltaColumn(Column(m, k), root10) == Some(Column(r.value, k))
  {
    var columns := seq(cols, k requires 0 <= k < cols => DeltaColumn(Column(m, k), root10));
    if forall k :: 0 <= k < cols ==> columns[k].Some? then
      var d := seq(|m|, t requires 0 <= t < |m| => seq(cols, k requires 0 <= k < cols => columns[k].value[t]));
      assert forall k :: 0 <= k < cols ==> columns[k].value == Column(d, k);
      assert 0 < cols ==> columns[0].Some?;
      Some(d)
    else
      assert columns[0].None?;
      None
  }

  /** The five-frame column 1, 2, 4, 8, 16: forward differences on frames 0
      and 1, the regression on frame 2, backward differences on frames 3
      and 4. */
  lemma DeltaExample(root10: PosReal)
    ensures DeltaColumn([1.0, 2.0, 4.0, 8.0, 16.0], root10) == Some([1.0, 2.0, 36.0 / root10, 4.0, 8.0])
  {
    var c := [1.0, 2.0, 4.0, 8.0, 16.0];
    var d := DeltaColumn(c, root10).value;
    assert d[0] == Slope(c, 0, root10) == 1.0;
    assert d[1] == Slope(c, 1, root10) == 2.0;
    assert d[2] == Slope(c, 2, root10) == 36.0 / root10;
    assert d[3] == Slope(c, 3, root10) == 4.0;
    assert d[4] == Slope(c, 4, root10) == 8.0;
    assert d == [1.0, 2.0, 36.0 / root10, 4.0, 8.0];
  }

  /** A column whose frames all hold the same value has a zero derivative. */
  lemma {:induction false} ConstantColumn(c: seq<real>, v: real, root10: PosReal)
    requires |c| == 0 || 3 <= |c|
    requires forall i :: 0 <= i < |c| ==> c[i] == v
    ensures DeltaColumn(c, root10) == Some(Zeros(|c|))
  {
    var r := DeltaColumn(c, root10).value;
    forall i | 0 <= i < |c|
      ensures r[i] == 0.0
    {
      assert r[i] == Slope(c, i, root10);
    }
    assert r == Zeros(|c|);
  }

  /** The delta operator is linear on a column:
      `delta(a*x + b*y) == a*delta(x) + b*delta(y)`. */
  lemma {:induction false} LinearColumn(a: real, x: seq<real>, b: real, y: seq<real>, root10: PosReal)
    requires |x| == |y|
    requires |x| == 0 || 3 <= |x|
    ensures DeltaColumn(Lin(a, x, b, y), root10).Some?
    ensures DeltaColumn(Lin(a, x, b, y), root10).value
         == Lin(a, DeltaColumn(x, root10).value, b, DeltaColumn(y, root10).value)
  {
    var z := Lin(a, x, b, y);
    if |x| == 0 {
      assert z == [];
    } else {
      var dz, dx, dy := DeltaColumn(z, root10).value, DeltaColumn(x, root10).value, DeltaColumn(y, root10).value;
      forall i | 0 <= i < |x|
        ensures dz[i] == Mix(a, dx[i], b, dy[i])
      {
        SlopeLinear(a, x, b, y, i, root10);
      }
      assert dz == Lin(a, dx, b, dy);
    }
  }

  lemma SlopeLinear(a: real, x: seq<real>, b: real, y: seq<real>, i: nat, root10: PosReal)
    requires |x| == |y| && 3 <= |x| && i < |x|
    ensures Slope(Lin(a, x, b, y), i, root10) == Mix(a, Slope(x, i, root10), b, Slope(y, i, root10))
  {
    if i < 2 {
      MixDifference(a, x[i + 1], x[i], b, y[i + 1], y[i]);
    } else if |x| - 2 <= i {
      MixDifference(a, x[i], x[i - 1], b, y[i], y[i - 1]);
    } else {
      MixRegression(a, x[i + 1], x[i - 1], x[i + 2], x[i - 2], b, y[i + 1], y[i - 1], y[i + 2], y[i - 2], root10);
    }
  }

  /** A difference of two mixes is the mix of the differences. */
  lemma MixDifference(a: real, p: real, p': real, b: real, q: real, q': real)
    ensures Mix(a, p, b, q) - Mix(a, p', b, q') == Mix(a, p - p', b, q - q')
  {
  }

  /** The five-frame regression of mixes is the mix of the regressions. */
  lemma MixRegression(a: real, p1: real, p2: real, p3: real, p4: real,
                      b: real, q1: real, q2: real, q3: real, q4: real, d: PosReal)
    ensures ((Mix(a, p1, b, q1) - Mix(a, p2, b, q2)) + 2.0 * (Mix(a, p3, b, q3) - Mix(a, p4, b, q4))) / d
         == Mix(a, ((p1 - p2) + 2.0 * (p3 - p4)) / d, b, ((q1 - q2) + 2.0 * (q3 - q4)) / d)
  {
    assert (Mix(a, p1, b, q1) - Mix(a, p2, b, q2)) + 2.0 * (Mix(a, p3, b, q3) - Mix(a, p4, b, q4))
        == a * ((p1 - p2) + 2.0 * (p3 - p4)) + b * ((q1 - q2) + 2.0 * (q3 - q4));
    DivideSum(a, (p1 - p2) + 2.0 * (p3 - p4), b, (q1 - q2) + 2.0 * (q3 - q4), d);
  }

  lemma DivideSum(a: real, p: real, b: real, q: real, d: PosReal)
    ensures (a * p + b * q) / d == a * (p / d) + b * (q / d)
  {
  }

  /** Adding one value to every frame of a column leaves its delta unchanged:
      the shift is a constant column, whose delta is zero. */
  lemma {:induction false} ShiftedColumn(c: seq<real>, v: real, root10: PosReal)
    ensures DeltaColumn(Lin(1.0, c, 1.0, Fill(|c|, v)), root10) == DeltaColumn(c, root10)
  {
    var s := Lin(1.0, c, 1.0, Fill(|c|, v));
    if |c| == 0 || 3 <= |c| {
      LinearColumn(1.0, c, 1.0, Fill(|c|, v), root10);
      ConstantColumn(Fill(|c|, v), v, root10);
      var dc := DeltaColumn(c, root10).value;
      assert DeltaColumn(s, root10).value == Lin(1.0, dc, 1.0, Zeros(|c|));
      assert Lin(1.0, dc, 1.0, Zeros(|c|)) == dc;
    } else {
      assert DeltaColumn(s, root10).None? && DeltaColumn(c, root10).None?;
    }
  }

  /** The delta operator is linear on whole matrices:
      `delta(a*X + b*Y) == a*delta(X) + b*delta(Y)`. */
  lemma {:induction false} LinearMatrix(a: real, x: Matrix, b: real, y: Matrix, cols: nat, root10: PosReal)
    requires IsShape(x, |x|, cols) && IsShape(y, |x|, cols)
    requires cols == 0 || |x| == 0 || 3 <= |x|
    ensures DeltaMatrix(Combine(a, x, b, y), cols, root10)
         == Some(Combine(a, DeltaMatrix(x, cols, root10).value, b, DeltaMatrix(y, cols, root10).value))
  {
    var z := Combine(a, x, b, y);
    var dx, dy := DeltaMatrix(x, cols, root10).value, DeltaMatrix(y, cols, root10).value;
    var dz := DeltaMatrix(z, cols, root10).value;
    var want := Combine(a, dx, b, dy);
    forall k | 0 <= k < cols
      ensures Column(dz, k) == Lin(a, Column(dx, k), b, Column(dy, k))
    {
      assert Column(z, k) == Lin(a, Column(x, k), b, Column(y, k));
      LinearColumn(a, Column(x, k), b, Column(y, k), root10);
    }
    forall t | 0 <= t < |x|
      ensures dz[t] == want[t]
    {
      forall k | 0 <= k < cols
        ensures dz[t][k] == want[t][k]
      {
        assert dz[t][k] == Column(dz, k)[t];
      }
    }
    assert dz == want;
  }

  /** Adding one vector to every frame of a matrix (a per-feature offset)
      leaves its delta unchanged, and so also its delta of delta. */
  lemma {:induction false} ShiftedMatrix(m: Matrix, v: seq<real>, root10: PosReal)
    requires IsShape(m, |m|, |v|)
    ensures DeltaMatrix(AddToRows(m, v), |v|, root10) == DeltaMatrix(m, |v|, root10)
  {
    var s := AddToRows(m, v);
    var cols := |v|;
    if cols == 0 || |m| == 0 || 3 <= |m| {
      var ds, dm := DeltaMatrix(s, cols, root10).value, DeltaMatrix(m, cols, root10).value;
      forall k | 0 <= k < cols
        ensures Column(ds, k) == Column(dm, k)
      {
        assert Column(s, k) == Lin(1.0, Column(m, k), 1.0, Fill(|m|, v[k]));
        ShiftedColumn(Column(m, k), v[k], root10);
      }
      forall t | 0 <= t < |m|
        ensures ds[t] == dm[t]
      {
        forall k | 0 <= k < cols
          ensures ds[t][k] == dm[t][k]
        {
          assert ds[t][k] == Column(ds, k)[t];
        }
      }
      assert ds == dm;
    }
  }

  /** A matrix whose frames are all identical has an all-zero delta. */
  lemma {:induction false} ConstantMatrix(m: Matrix, cols: nat, root10: PosReal)
    requires IsShape(m, |m|, cols)
    requires cols == 0 || |m| == 0 || 3 <= |m|
    requires forall t :: 0 <= t < |m| ==> m[t] == m[0]
    ensures DeltaMatrix(m, cols, root10) == Some(seq(|m|, _ => Zeros(cols)))
  {
    var d := DeltaMatrix(m, cols, root10).value;
    forall k | 0 <= k < cols
      ensures Column(d, k) == Zeros(|m|)
    {
      if 0 < |m| {
        ConstantColumn(Column(m, k), m[0][k], root10);
      } else {
        ConstantColumn(Column(m, k), 0.0, root10);
      }
    }
    forall t | 0 <= t < |m|
      ensures d[t] == Zeros(cols)
    {
      forall k | 0 <= k < cols
        ensures d[t][k] == 0.0
      {
        assert d[t][k] == Column(d, k)[t];
      }
    }
    assert d == seq(|m|, _ => Zeros(cols));
  }
}
