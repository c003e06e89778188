/** The triangular filterbank of mfcc.py's `trfbank`, over exact reals: the
    grid of boundary frequencies (linear, then geometric), the heights of the
    triangles, the FFT bins each filter writes, and the values written. */
module Filterbank {
  import opened Arrays

  /** `x` raised to the power `k`. */
  function Pow(x: real, k: nat): real
  {
    if k == 0 then 1.0 else x * Pow(x, k - 1)
  }

  lemma {:induction false} PowAtLeastOne(x: real, k: nat)
    requires 1.0 <= x
    ensures 1.0 <= Pow(x, k)
  {
    if k > 0 {
      PowAtLeastOne(x, k - 1);
      assert x * Pow(x, k - 1) >= 1.0 * Pow(x, k - 1);
    }
  }

  /** Powers of a ratio above one grow strictly. */
  lemma PowGrows(x: real, k: nat)
    requires 1.0 < x
    ensures Pow(x, k) < Pow(x, k + 1)
  {
    PowAtLeastOne(x, k);
    assert Pow(x, k + 1) == x * Pow(x, k);
  }

  /** A non-negative seed scaled by growing powers of a ratio above one never
      shrinks, and grows strictly when the seed is positive. */
  lemma ScaledPowers(seed: real, x: real, k: nat)
    requires 0.0 <= seed && 1.0 < x
    ensures seed <= seed * Pow(x, k + 1) <= seed * Pow(x, k + 2)
    ensures 0.0 < seed ==> seed < seed * Pow(x, k + 1) < seed * Pow(x, k + 2)
  {
    PowAtLeastOne(x, k);
    PowGrows(x, k);
    PowGrows(x, k + 1);
    var p, q := Pow(x, k + 1), Pow(x, k + 2);
    assert 1.0 < p < q;
    assert seed * 1.0 <= seed * p;
    assert seed * p <= seed * q;
    if 0.0 < seed {
      assert seed * 1.0 < seed * p;
      assert seed * p < seed * q;
    }
  }

  lemma LinearStep(lowfreq: real, linsc: real, i: nat)
    requires 0.0 <= lowfreq && 0.0 < linsc
    ensures 0.0 <= lowfreq + i as real * linsc < lowfreq + (i + 1) as real * linsc
  {
    assert (i + 1) as real * linsc == i as real * linsc + linsc;
    assert 0.0 <= i as real * linsc;
  }

  /** `lowfreq + arange(n) * linsc`. */
  function LinearGrid(lowfreq: real, linsc: real, n: nat): (r: seq<real>)
    ensures |r| == n
    ensures forall i :: 0 <= i < n ==> r[i] == lowfreq + i as real * linsc
  {
    seq(n, i requires 0 <= i < n => lowfreq + i as real * linsc)
  }

  /** Neighbouring points of the linear grid are `linsc` apart. */
  lemma LinearSpacing(lowfreq: real, linsc: real, n: nat, i: nat)
    requires i + 1 < n
    ensures LinearGrid(lowfreq, linsc, n)[i + 1] - LinearGrid(lowfreq, linsc, n)[i] == linsc
  {
    assert (i + 1) as real * linsc == i as real * linsc + linsc;
  }

  /** `seed * x ** arange(1, m + 1)`. */
  function GeometricGrid(seed: real, x: real, m: nat): (r: seq<real>)
    ensures |r| == m
    ensures forall j :: 0 <= j < m ==> r[j] == seed * Pow(x, j + 1)
    ensures seed == 0.0 ==> r == Zeros(m)
  {
    seq(m, j requires 0 <= j < m => seed * Pow(x, j + 1))
  }

  /** Each point of the geometric grid is `x` times the one before it. */
  lemma GeometricRatio(seed: real, x: real, m: nat, j: nat)
    requires j + 1 < m
    ensures GeometricGrid(seed, x, m)[j + 1] == GeometricGrid(seed, x, m)[j] * x
  {
    var p := Pow(x, j + 1);
    assert Pow(x, j + 2) == x * p;
    assert seed * (x * p) == (seed * p) * x;
  }

  /** The `nlinfilt + nlogfilt + 2` boundary frequencies of the filters, built
      as mfcc.py builds them: an array of zeros whose first `nlinfilt` entries
      are overwritten with the linear grid, after which the rest are the
      entry at Python index `nlinfilt - 1` times successive powers of `logsc`.
      With no linear filters that index is -1, which names the last entry,
      still zero. */
  function Freqs(lowfreq: real, linsc: real, logsc: real, nlinfilt: nat, nlogfilt: nat): (f: seq<real>)
    ensures |f| == nlinfilt + nlogfilt + 2
    ensures forall i :: 0 <= i < nlinfilt ==> f[i] == lowfreq + i as real * linsc
    ensures 1 <= nlinfilt ==>
      forall k :: nlinfilt <= k < |f| ==> f[k] == f[nlinfilt - 1] * Pow(logsc, k - nlinfilt + 1)
    ensures nlinfilt == 0 ==> f == Zeros(|f|)
  {
    var n := nlinfilt + nlogfilt + 2;
    var linear := LinearGrid(lowfreq, linsc, nlinfilt) + Zeros(n)[nlinfilt..];
    var seed := linear[Index(n, nlinfilt - 1).value];
    linear[..nlinfilt] + GeometricGrid(seed, logsc, nlogfilt + 2)
  }

  /** No entry is above a later one. */
  predicate Nondecreasing(s: seq<real>)
  {
    forall i, j :: 0 <= i <= j < |s| ==> s[i] <= s[j]
  }

  /** Every entry is below every later one. */
  predicate Increasing(s: seq<real>)
  {
    forall i, j :: 0 <= i < j < |s| ==> s[i] < s[j]
  }

  /** A sequence none of whose steps goes down is non-decreasing. */
  lemma {:induction false} NondecreasingSteps(s: seq<real>)
    requires forall i :: 0 <= i < |s| - 1 ==> s[i] <= s[i + 1]
    ensures Nondecreasing(s)
  {
    if 1 < |s| {
      var p := s[..|s| - 1];
      assert forall i :: 0 <= i < |p| - 1 ==> p[i] <= p[i + 1] by {
        forall i | 0 <= i < |p| - 1
          ensures p[i] <= p[i + 1]
        {
          assert p[i] == s[i] && p[i + 1] == s[i + 1];
        }
      }
      NondecreasingSteps(p);
      forall i, j | 0 <= i <= j < |s|
        ensures s[i] <= s[j]
      {
        if j == |s| - 1 && i < j {
          assert s[i] == p[i] && s[j - 1] == p[j - 1];
        } else if i < j {
          assert s[i] == p[i] && s[j] == p[j];
        }
      }
    }
  }

  /** A sequence each of whose steps goes up is increasing. */
  lemma {:induction false} IncreasingSteps(s: seq<real>)
    requires forall i :: 0 <= i < |s| - 1 ==> s[i] < s[i + 1]
    ensures Increasing(s)
  {
    if 1 < |s| {
      var p := s[..|s| - 1];
      assert forall i :: 0 <= i < |p| - 1 ==> p[i] < p[i + 1] by {
        forall i | 0 <= i < |p| - 1
          ensures p[i] < p[i + 1]
        {
          assert p[i] == s[i] && p[i + 1] == s[i + 1];
        }
      }
      IncreasingSteps(p);
      forall i, j | 0 <= i < j < |s|
        ensures s[i] < s[j]
      {
        if j == |s| - 1 && i < j - 1 {
          assert s[i] == p[i] && s[j - 1] == p[j - 1];
        } else if j < |s| - 1 {
          assert s[i] == p[i] && s[j] == p[j];
        }
      }
    }
  }

  /** Two consecutive points `a`, `b` of a geometric run from a non-negative
      seed: neither is below the seed, and the run never falls. */
  lemma GeometricPair(a: real, b: real, seed: real, x: real, k: nat)
    requires 0.0 <= seed && 1.0 < x
    requires a == seed * Pow(x, k + 1) && b == seed * Pow(x, k + 2)
    ensures seed <= a <= b && (0.0 < seed ==> a < b)
  {
    ScaledPowers(seed, x, k);
  }

  /** The geometric part of the grid: from `f[nlinfilt - 1]` on, each point is
      the previous one times `logsc`, which with a non-negative seed never
      falls and with a positive seed rises. */
  lemma GeometricStep(lowfreq: real, linsc: real, logsc: real, nlinfilt: nat, nlogfilt: nat, i: nat)
    requires 0.0 <= lowfreq && 0.0 < linsc && 1.0 < logsc && 1 <= nlinfilt
    requires nlinfilt <= i + 1 < nlinfilt + nlogfilt + 2
    ensures var f := Freqs(lowfreq, linsc, logsc, nlinfilt, nlogfilt);
      f[nlinfilt - 1] <= f[i] <= f[i + 1] && (0.0 < f[nlinfilt - 1] ==> f[i] < f[i + 1])
  {
    var f := Freqs(lowfreq, linsc, logsc, nlinfilt, nlogfilt);
    LinearStep(lowfreq, linsc, nlinfilt - 1);
    if i + 1 == nlinfilt {
      GeometricPair(f[i + 1], f[i + 2], f[i], logsc, 0);
    } else {
      GeometricPair(f[i], f[i + 1], f[nlinfilt - 1], logsc, i - nlinfilt);
    }
  }

  /** Consecutive grid points, when there is at least one linear filter: the
      grid never falls, and rises strictly once its seed (the last linear
      frequency) is positive. */
  lemma FreqStep(lowfreq: real, linsc: real, logsc: real, nlinfilt: nat, nlogfilt: nat, i: nat)
    requires 0.0 <= lowfreq && 0.0 < linsc && 1.0 < logsc && 1 <= nlinfilt
    requires i + 1 < nlinfilt + nlogfilt + 2
    ensures var f := Freqs(lowfreq, linsc, logsc, nlinfilt, nlogfilt);
      0.0 <= f[i] <= f[i + 1] && (0.0 < f[nlinfilt - 1] ==> f[i] < f[i + 1])
  {
    LinearStep(lowfreq, linsc, nlinfilt - 1);
    if i + 1 < nlinfilt {
      LinearStep(lowfreq, linsc, i);
    } else {
      GeometricStep(lowfreq, linsc, logsc, nlinfilt, nlogfilt, i);
    }
  }

  /** The ranges mfcc.py's callers use (`lowfreq >= 0`, `linsc > 0`,
      `logsc > 1`) make the grid non-negative and non-decreasing, whatever the
      filter counts. */
  lemma {:induction false} FreqsOrdered(lowfreq: real, linsc: real, logsc: real, nlinfilt: nat, nlogfilt: nat)
    requires 0.0 <= lowfreq && 0.0 < linsc && 1.0 < logsc
    ensures var f := Freqs(lowfreq, linsc, logsc, nlinfilt, nlogfilt);
      (forall i :: 0 <= i < |f| ==> 0.0 <= f[i]) && Nondecreasing(f)
  {
    var f := Freqs(lowfreq, linsc, logsc, nlinfilt, nlogfilt);
    if nlinfilt == 0 {
      assert forall i :: 0 <= i < |f| ==> f[i] == 0.0;
    } else {
      forall i | 0 <= i < |f| - 1
        ensures 0.0 <= f[i] <= f[i + 1]
      {
        FreqStep(lowfreq, linsc, logsc, nlinfilt, nlogfilt, i);
      }
      FreqStep(lowfreq, linsc, logsc, nlinfilt, nlogfilt, |f| - 2);
      NondecreasingSteps(f);
    }
  }

  /** With at least one linear filter whose last linear frequency is
      positive, the grid is strictly increasing: the filter centres are
      distinct and every triangle has positive width. */
  lemma {:induction false} FreqsIncreasing(lowfreq: real, linsc: real, logsc: real, nlinfilt: nat, nlogfilt: nat)
    requires 0.0 <= lowfreq && 0.0 < linsc && 1.0 < logsc
    requires 1 <= nlinfilt && (0.0 < lowfreq || 2 <= nlinfilt)
    ensures Increasing(Freqs(lowfreq, linsc, logsc, nlinfilt, nlogfilt))
  {
    var f := Freqs(lowfreq, linsc, logsc, nlinfilt, nlogfilt);
    if nlinfilt >= 2 {
      LinearStep(lowfreq, linsc, nlinfilt - 2);
      assert (nlinfilt - 2 + 1) as real == (nlinfilt - 1) as real;
    }
    assert 0.0 < f[nlinfilt - 1];
    forall i | 0 <= i < |f| - 1
      ensures f[i] < f[i + 1]
    {
      FreqStep(lowfreq, linsc, logsc, nlinfilt, nlogfilt, i);
    }
    IncreasingSteps(f);
  }

  /** The height `2/(hi - low)` of a triangle spanning `low..hi`, which gives it
      unit area. */
  function Height(low: real, hi: real): (h: real)
    requires low < hi
    ensures 0.0 < h
  {
    2.0 / (hi - low)
  }

  /** The triangle of base `hi - low` and height `Height(low, hi)` has area 1. */
  lemma UnitArea(low: real, hi: real)
    requires low < hi
    ensures Height(low, hi) * (hi - low) / 2.0 == 1.0
  {
    RampTop(2.0, hi - low);
  }

  /** The frequency in Hz of FFT bin `b` (mfcc.py's `nfreqs[b]`): the bins
      run from 0 Hz at bin 0 up to `fs` at bin `nfft`, one bin width apart. */
  function BinFreq(b: int, fs: real, nfft: nat): (x: real)
    requires 0 < nfft
    ensures b == 0 ==> x == 0.0
    ensures b == nfft ==> x == fs
    ensures 0.0 < fs ==> x == b as real * BinWidth(fs, nfft)
  {
    b as real / nfft as real * fs
  }

  /** `f * nfft / fs`: frequency `f` measured in bins. */
  function InBins(f: real, fs: real, nfft: nat): real
    requires 0.0 < fs
  {
    f * (nfft as real) / fs
  }

  /** `floor(f * nfft / fs) + 1`, the first bin index of a range of mfcc.py:
      the least integer strictly above `f` measured in bins. */
  function FirstBin(f: real, fs: real, nfft: nat): (b: int)
    requires 0.0 < fs
    ensures InBins(f, fs, nfft) < b as real <= InBins(f, fs, nfft) + 1.0
  {
    InBins(f, fs, nfft).Floor + 1
  }

  /** `floor(y) + 1 <= b` says exactly that `y` lies below the integer `b`. */
  lemma FloorBelow(y: real, b: int)
    ensures y.Floor + 1 <= b <==> y < b as real
  {
  }

  /** Multiplying by a positive factor keeps a strict order. */
  lemma ScaleLess(p: real, q: real, c: real)
    requires 0.0 < c
    ensures p < q <==> p * c < q * c
  {
    if p < q {
      assert (q - p) * c > 0.0;
    } else {
      assert (p - q) * c >= 0.0;
    }
  }

  /** The width of one FFT bin in Hz, `fs / nfft`. */
  function BinWidth(fs: real, nfft: nat): (w: real)
    requires 0.0 < fs && 0 < nfft
    ensures 0.0 < w
  {
    fs / nfft as real
  }

  /** Measuring `f` in bins and scaling back by the bin width gives `f`; bin
      `b` sits at `b` bin widths. */
  lemma BinScale(f: real, fs: real, nfft: nat, b: int)
    requires 0.0 < fs && 0 < nfft
    ensures InBins(f, fs, nfft) * BinWidth(fs, nfft) == f
    ensures BinFreq(b, fs, nfft) == b as real * BinWidth(fs, nfft)
    ensures 0.0 <= f ==> 0.0 <= InBins(f, fs, nfft)
  {
    if 0.0 <= f {
      assert 0.0 <= f * (nfft as real);
    }
  }

  /** The floor convention: bin `b` is at or past `FirstBin(f)` exactly when its
      frequency lies strictly above `f`; a non-negative frequency's first bin
      is never below 1. */
  lemma FirstBinBelow(f: real, fs: real, nfft: nat, b: int)
    requires 0.0 < fs && 0 < nfft
    ensures FirstBin(f, fs, nfft) <= b <==> f < BinFreq(b, fs, nfft)
    ensures 0.0 <= f ==> 1 <= FirstBin(f, fs, nfft)
  {
    BinScale(f, fs, nfft, b);
    FloorBelow(InBins(f, fs, nfft), b);
    ScaleLess(InBins(f, fs, nfft), b as real, BinWidth(fs, nfft));
  }

  /** The half-open bin range `[FirstBin(lo), FirstBin(hi))` holds exactly the
      bins whose frequency lies in `(lo, hi]`. */
  lemma BinRange(lo: real, hi: real, fs: real, nfft: nat)
    requires 0.0 < fs && 0 < nfft
    ensures forall b: int :: FirstBin(lo, fs, nfft) <= b < FirstBin(hi, fs, nfft) <==> lo < BinFreq(b, fs, nfft) <= hi
  {
    forall b: int
      ensures FirstBin(lo, fs, nfft) <= b < FirstBin(hi, fs, nfft) <==> lo < BinFreq(b, fs, nfft) <= hi
    {
      FirstBinBelow(lo, fs, nfft, b);
      FirstBinBelow(hi, fs, nfft, b);
    }
  }

  /** Higher frequencies start no earlier. */
  lemma FirstBinMonotone(lo: real, hi: real, fs: real, nfft: nat)
    requires 0.0 < fs && 0 < nfft && lo <= hi
    ensures FirstBin(lo, fs, nfft) <= FirstBin(hi, fs, nfft)
  {
    assert lo * (nfft as real) <= hi * (nfft as real);
    assert InBins(lo, fs, nfft) <= InBins(hi, fs, nfft);
  }

  /** `h / d * p`: a slope `h / d` applied to a distance `p`, the form of
      the values `trfbank` writes (`lslope * (nfreqs[lid] - low)`). */
  function Ramp(h: real, d: real, p: real): real
    requires d != 0.0
  {
    h / d * p
  }

  /** A part of a positive whole is a fraction in `[0, 1]`. */
  lemma FractionBounds(p: real, d: real)
    requires 0.0 <= p <= d && 0.0 < d
    ensures 0.0 <= p / d <= 1.0
    ensures 0.0 < p ==> 0.0 < p / d
    ensures p < d ==> p / d < 1.0
  {
    var q := p / d;
    assert q * d == p;
  }

  /** A ramp of height `h` over `d`, sampled at `0 <= p <= d`, lies in
      `[0, h]`, and is positive once `p` is. */
  lemma RampBounds(h: real, d: real, p: real)
    requires 0.0 < h && 0.0 < d && 0.0 <= p <= d
    ensures 0.0 <= Ramp(h, d, p) <= h
    ensures 0.0 < p ==> 0.0 < Ramp(h, d, p)
    ensures p < d ==> Ramp(h, d, p) < h
  {
    FractionBounds(p, d);
    assert Ramp(h, d, p) == h * (p / d);
    assert h * (p / d) <= h * 1.0;
    if p < d {
      assert h * (p / d) < h * 1.0;
    }
  }

  /** At the full distance a ramp reaches its height. */
  lemma RampTop(h: real, d: real)
    requires d != 0.0
    ensures Ramp(h, d, d) == h
  {
  }

  /** The triangular response of the filter on `low..cen..hi` over the
      half-open base `(low, hi]`: rising linearly from 0 at `low` to the peak
      `Height(low, hi)` at `cen`, falling back to 0 at `hi`, and 0 elsewhere. A
      frequency on a boundary belongs to the slope below it. */
  function Triangle(low: real, cen: real, hi: real, x: real): real
    requires low <= cen <= hi
  {
    if low < x <= cen then Ramp(Height(low, hi), cen - low, x - low)
    else if cen < x <= hi then Ramp(Height(low, hi), hi - cen, hi - x)
    else 0.0
  }

  /** A triangle's response never leaves `[0, height]` and is non-zero only for
      frequencies in `(low, hi]`. */
  lemma TriangleBounds(low: real, cen: real, hi: real, x: real)
    requires low <= cen <= hi && low < hi
    ensures 0.0 <= Triangle(low, cen, hi, x) <= Height(low, hi)
    ensures Triangle(low, cen, hi, x) != 0.0 ==> low < x <= hi
  {
    if low < x <= cen {
      RampBounds(Height(low, hi), cen - low, x - low);
    } else if cen < x <= hi {
      RampBounds(Height(low, hi), hi - cen, hi - x);
    }
  }

  /** The triangle peaks at its centre with the full height, and is positive
      everywhere strictly inside its base. */
  lemma TrianglePeak(low: real, cen: real, hi: real, x: real)
    requires low < cen <= hi
    ensures Triangle(low, cen, hi, cen) == Height(low, hi)
    ensures low < x < hi ==> 0.0 < Triangle(low, cen, hi, x)
  {
    RampTop(Height(low, hi), cen - low);
    if low < x <= cen {
      RampBounds(Height(low, hi), cen - low, x - low);
    } else if cen < x < hi {
      RampBounds(Height(low, hi), hi - cen, hi - x);
    }
  }

  /** The value `lslope * (nfreqs[b] - low)` written at bin `b` of `lid`. */
  function LeftValue(low: real, cen: real, hi: real, fs: real, nfft: nat, b: int): real
    requires 0 < nfft && low < cen <= hi
  {
    Ramp(Height(low, hi), cen - low, BinFreq(b, fs, nfft) - low)
  }

  /** The value `rslope * (hi - nfreqs[b])` written at bin `b` of `rid`. */
  function RightValue(low: real, cen: real, hi: real, fs: real, nfft: nat, b: int): real
    requires 0 < nfft && low <= cen < hi
  {
    Ramp(Height(low, hi), hi - cen, hi - BinFreq(b, fs, nfft))
  }

  /** On the bins of `lid`, whose frequencies lie in `(low, cen]`, the value
      `lslope * (nfreqs[lid] - low)` is the rising side of the triangle:
      positive, at most the height. */
  lemma LeftValues(low: real, cen: real, hi: real, fs: real, nfft: nat)
    requires 0.0 < fs && 0 < nfft && low < cen <= hi
    ensures forall b: int :: FirstBin(low, fs, nfft) <= b < FirstBin(cen, fs, nfft) ==>
      && 0.0 < LeftValue(low, cen, hi, fs, nfft, b) <= Height(low, hi)
      && LeftValue(low, cen, hi, fs, nfft, b) == Triangle(low, cen, hi, BinFreq(b, fs, nfft))
  {
    forall b: int | FirstBin(low, fs, nfft) <= b < FirstBin(cen, fs, nfft)
      ensures 0.0 < LeftValue(low, cen, hi, fs, nfft, b) <= Height(low, hi)
      ensures LeftValue(low, cen, hi, fs, nfft, b) == Triangle(low, cen, hi, BinFreq(b, fs, nfft))
    {
      FirstBinBelow(low, fs, nfft, b);
      FirstBinBelow(cen, fs, nfft, b);
      RampBounds(Height(low, hi), cen - low, BinFreq(b, fs, nfft) - low);
    }
  }

  /** On the bins of `rid`, whose frequencies lie in `(cen, hi]`, the value
      `rslope * (hi - nfreqs[rid])` is the falling side of the triangle:
      non-negative, below the height. */
  lemma RightValues(low: real, cen: real, hi: real, fs: real, nfft: nat)
    requires 0.0 < fs && 0 < nfft && low <= cen < hi
    ensures forall b: int :: FirstBin(cen, fs, nfft) <= b < FirstBin(hi, fs, nfft) ==>
      && 0.0 <= RightValue(low, cen, hi, fs, nfft, b) < Height(low, hi)
      && RightValue(low, cen, hi, fs, nfft, b) == Triangle(low, cen, hi, BinFreq(b, fs, nfft))
  {
    forall b: int | FirstBin(cen, fs, nfft) <= b < FirstBin(hi, fs, nfft)
      ensures 0.0 <= RightValue(low, cen, hi, fs, nfft, b) < Height(low, hi)
      ensures RightValue(low, cen, hi, fs, nfft, b) == Triangle(low, cen, hi, BinFreq(b, fs, nfft))
    {
      FirstBinBelow(cen, fs, nfft, b);
      FirstBinBelow(hi, fs, nfft, b);
      RampBounds(Height(low, hi), hi - cen, hi - BinFreq(b, fs, nfft));
    }
  }

  /** `lslope * (nfreqs[lid] - low)`, the values written over
      `lid = arange(FirstBin(low), FirstBin(cen))`, one per bin: the triangle's rising side
      sampled at those bins, each value positive and at most the height. */
  function LeftSlope(low: real, cen: real, hi: real, fs: real, nfft: nat): (r: seq<real>)
    requires 0.0 < fs && 0 < nfft && low <= cen <= hi
    ensures var lo, mid := FirstBin(low, fs, nfft), FirstBin(cen, fs, nfft);
      |r| == if lo < mid then mid - lo else 0
    ensures forall k :: 0 <= k < |r| ==>
      && low < cen
      && 0.0 < r[k] <= Height(low, hi)
      && r[k] == Triangle(low, cen, hi, BinFreq(FirstBin(low, fs, nfft) + k, fs, nfft))
  {
    var lo, mid := FirstBin(low, fs, nfft), FirstBin(cen, fs, nfft);
    if lo < mid then
      LeftValues(low, cen, hi, fs, nfft);
      seq(mid - lo, k requires 0 <= k < mid - lo => LeftValue(low, cen, hi, fs, nfft, lo + k))
    else []
  }

  /** `rslope * (hi - nfreqs[rid])`, the values written over
      `rid = arange(FirstBin(cen), FirstBin(hi))`, one per bin: the triangle's falling side
      sampled at those bins, each value non-negative and below the height. */
  function RightSlope(low: real, cen: real, hi: real, fs: real, nfft: nat): (r: seq<real>)
    requires 0.0 < fs && 0 < nfft && low <= cen <= hi
    ensures var mid, top := FirstBin(cen, fs, nfft), FirstBin(hi, fs, nfft);
      |r| == if mid < top then top - mid else 0
    ensures forall k :: 0 <= k < |r| ==>
      && cen < hi
      && 0.0 <= r[k] < Height(low, hi)
      && r[k] == Triangle(low, cen, hi, BinFreq(FirstBin(cen, fs, nfft) + k, fs, nfft))
  {
    var mid, top := FirstBin(cen, fs, nfft), FirstBin(hi, fs, nfft);
    if mid < top then
      RightValues(low, cen, hi, fs, nfft);
      seq(top - mid, k requires 0 <= k < top - mid => RightValue(low, cen, hi, fs, nfft, mid + k))
    else []
  }

  /** The filter on `low..cen..hi` writes no bin at or past `nfft`: it covers
      no bin at all, or `floor(hi * nfft / fs) < nfft`. */
  predicate FitsSpectrum(low: real, hi: real, fs: real, nfft: nat)
    requires 0.0 < fs
  {
    FirstBin(low, fs, nfft) == FirstBin(hi, fs, nfft) || FirstBin(hi, fs, nfft) <= nfft
  }

  /** The triangle on `low..cen..hi` sampled at every FFT bin. */
  function TriangleRow(low: real, cen: real, hi: real, fs: real, nfft: nat): (r: seq<real>)
    requires 0 < nfft && low <= cen <= hi
    ensures |r| == nfft
  {
    seq(nfft, b requires 0 <= b < nfft => Triangle(low, cen, hi, BinFreq(b, fs, nfft)))
  }

  /** `row` is the sampled triangle on an ordered `low..cen..hi`. */
  predicate IsTriangleRow(low: real, cen: real, hi: real, fs: real, nfft: nat, row: seq<real>)
    requires 0 < nfft
  {
    low <= cen <= hi && row == TriangleRow(low, cen, hi, fs, nfft)
  }

  /** One pass of the loop of `trfbank`: a row of zeros, the left slope
      written over the bins `lid`, then the right slope over the bins `rid`.
      The two ranges meet without overlapping, so the second write keeps the
      first, and the row is the sampled triangle. The pass raises exactly when
      the filter reaches a bin at or past `nfft`: in mfcc.py the read
      `nfreqs[lid]` (or `nfreqs[rid]`) on the right-hand side raises first, on
      the same bins on which the write would. */
  function FilterRow(low: real, cen: real, hi: real, fs: real, nfft: nat): (r: Option<seq<real>>)
    requires 0.0 < fs && 0 < nfft && 0.0 <= low <= cen <= hi
    ensures r.Some? <==> FitsSpectrum(low, hi, fs, nfft)
    ensures r.Some? ==> IsTriangleRow(low, cen, hi, fs, nfft, r.value)
  {
    var lo, mid, top := FirstBin(low, fs, nfft), FirstBin(cen, fs, nfft), FirstBin(hi, fs, nfft);
    FirstBinBelow(low, fs, nfft, 0);
    FirstBinMonotone(low, cen, fs, nfft);
    FirstBinMonotone(cen, hi, fs, nfft);
    var lid := LeftSlope(low, cen, hi, fs, nfft);
    var rid := RightSlope(low, cen, hi, fs, nfft);
    var row :- Assign(Zeros(nfft), lo, lid);
    var r := Assign(row, mid, rid);
    RowIsTriangle(low, cen, hi, fs, nfft, row, r);
    r
  }

  /** Bin `b` of the row after both writes is the triangle at the bin's
      frequency. */
  lemma BinIsTriangle(low: real, cen: real, hi: real, fs: real, nfft: nat, row: seq<real>, r: seq<real>, b: nat)
    requires 0.0 < fs && 0 < nfft && 0.0 <= low <= cen <= hi && b < nfft
    requires var lo, mid := FirstBin(low, fs, nfft), FirstBin(cen, fs, nfft);
      lo <= mid && Assign(Zeros(nfft), lo, LeftSlope(low, cen, hi, fs, nfft)) == Some(row)
    requires var mid, top := FirstBin(cen, fs, nfft), FirstBin(hi, fs, nfft);
      mid <= top && Assign(row, mid, RightSlope(low, cen, hi, fs, nfft)) == Some(r)
    ensures r[b] == Triangle(low, cen, hi, BinFreq(b, fs, nfft))
  {
    var lo, mid, top := FirstBin(low, fs, nfft), FirstBin(cen, fs, nfft), FirstBin(hi, fs, nfft);
    var x := BinFreq(b, fs, nfft);
    FirstBinBelow(low, fs, nfft, b);
    FirstBinBelow(cen, fs, nfft, b);
    FirstBinBelow(hi, fs, nfft, b);
    if lo <= b < mid {
      var lid := LeftSlope(low, cen, hi, fs, nfft);
      assert r[b] == row[b] == lid[b - lo];
      assert lo + (b - lo) == b;
    } else if mid <= b < top {
      var rid := RightSlope(low, cen, hi, fs, nfft);
      assert r[b] == rid[b - mid];
      assert mid + (b - mid) == b;
    } else {
      assert r[b] == row[b] == 0.0;
    }
  }

  lemma RowIsTriangle(low: real, cen: real, hi: real, fs: real, nfft: nat, row: seq<real>, r: Option<seq<real>>)
    requires 0.0 < fs && 0 < nfft && 0.0 <= low <= cen <= hi
    requires var lo, mid := FirstBin(low, fs, nfft), FirstBin(cen, fs, nfft);
      lo <= mid && Assign(Zeros(nfft), lo, LeftSlope(low, cen, hi, fs, nfft)) == Some(row)
    requires var mid, top := FirstBin(cen, fs, nfft), FirstBin(hi, fs, nfft);
      mid <= top && r == Assign(row, mid, RightSlope(low, cen, hi, fs, nfft))
    ensures r.Some? <==> FitsSpectrum(low, hi, fs, nfft)
    ensures r.Some? ==> IsTriangleRow(low, cen, hi, fs, nfft, r.value)
  {
    if r.Some? {
      forall b | 0 <= b < nfft
        ensures r.value[b] == Triangle(low, cen, hi, BinFreq(b, fs, nfft))
      {
        BinIsTriangle(low, cen, hi, fs, nfft, row, r.value, b);
      }
      assert r.value == TriangleRow(low, cen, hi, fs, nfft);
    }
  }

  /** Filter `i` of the grid `f` (on `f[i]`, `f[i+1]`, `f[i+2]`) writes no bin
      past the spectrum. */
  predicate FilterFits(f: seq<real>, i: nat, fs: real, nfft: nat)
    requires 0.0 < fs && i + 2 < |f|
  {
    FitsSpectrum(f[i], f[i + 2], fs, nfft)
  }

  /** `row` is the triangle of filter `i` of the grid `f`. */
  predicate IsFilterRow(f: seq<real>, i: nat, fs: real, nfft: nat, row: seq<real>)
    requires 0 < nfft && i + 2 < |f|
  {
    IsTriangleRow(f[i], f[i + 1], f[i + 2], fs, nfft, row)
  }

  /** The first `n` passes of the loop of `trfbank` over the grid `f`, which
      stop at the first filter that raises. */
  function Rows(f: seq<real>, fs: real, nfft: nat, n: nat): (r: Option<Matrix>)
    requires 0.0 < fs && 0 < nfft && n + 2 <= |f|
    requires (forall i :: 0 <= i < |f| ==> 0.0 <= f[i]) && Nondecreasing(f)
    ensures r.Some? <==> forall i :: 0 <= i < n ==> FilterFits(f, i, fs, nfft)
    ensures r.Some? ==> IsShape(r.value, n, nfft)
  {
    if n == 0 then Some([])
    else
      var done :- Rows(f, fs, nfft, n - 1);
      assert FilterRow(f[n - 1], f[n], f[n + 1], fs, nfft).None? ==> !FilterFits(f, n - 1, fs, nfft);
      var row :- FilterRow(f[n - 1], f[n], f[n + 1], fs, nfft);
      Some(done + [row])
  }

  /** Each row the loop produced is the triangle on its three grid points. */
  lemma {:induction false} RowsAreTriangles(f: seq<real>, fs: real, nfft: nat, n: nat)
    requires 0.0 < fs && 0 < nfft && n + 2 <= |f|
    requires (forall i :: 0 <= i < |f| ==> 0.0 <= f[i]) && Nondecreasing(f)
    requires Rows(f, fs, nfft, n).Some?
    ensures forall i :: 0 <= i < n ==> IsFilterRow(f, i, fs, nfft, Rows(f, fs, nfft, n).value[i])
  {
    if n > 0 {
      RowsAreTriangles(f, fs, nfft, n - 1);
      var done := Rows(f, fs, nfft, n - 1).value;
      var row := FilterRow(f[n - 1], f[n], f[n + 1], fs, nfft).value;
      assert Rows(f, fs, nfft, n).value == done + [row];
      assert forall i :: 0 <= i < n - 1 ==> (done + [row])[i] == done[i];
    }
  }

  /** The loop of `trfbank` run over a whole ordered, non-negative grid `f`:
      one row per filter. It raises exactly when some filter reaches a bin at
      or past `nfft`; otherwise row `i` is the triangle on `f[i], f[i+1],
      f[i+2]`. */
  function Bank(f: seq<real>, fs: real, nfft: nat): (r: Option<Matrix>)
    requires 0.0 < fs && 0 < nfft && 2 <= |f|
    requires (forall i :: 0 <= i < |f| ==> 0.0 <= f[i]) && Nondecreasing(f)
    ensures r.Some? <==> forall i :: 0 <= i < |f| - 2 ==> FilterFits(f, i, fs, nfft)
    ensures r.Some? ==> IsShape(r.value, |f| - 2, nfft)
    ensures r.Some? ==> forall i :: 0 <= i < |f| - 2 ==> IsFilterRow(f, i, fs, nfft, r.value[i])
  {
    var r := Rows(f, fs, nfft, |f| - 2);
    if r.Some? then RowsAreTriangles(f, fs, nfft, |f| - 2); r else r
  }

  /** mfcc.py's `trfbank`: the loop over the grid `Freqs`. */
  function Trfbank(fs: real, nfft: nat, lowfreq: real, linsc: real, logsc: real, nlinfilt: nat, nlogfilt: nat): (r: Option<Matrix>)
    requires 0.0 < fs && 0 < nfft && 0.0 <= lowfreq && 0.0 < linsc && 1.0 < logsc
    ensures var f := Freqs(lowfreq, linsc, logsc, nlinfilt, nlogfilt);
      r.Some? <==> forall i :: 0 <= i < nlinfilt + nlogfilt ==> FilterFits(f, i, fs, nfft)
    ensures r.Some? ==> IsShape(r.value, nlinfilt + nlogfilt, nfft)
    ensures var f := Freqs(lowfreq, linsc, logsc, nlinfilt, nlogfilt);
      r.Some? ==> forall i :: 0 <= i < nlinfilt + nlogfilt ==> IsFilterRow(f, i, fs, nfft, r.value[i])
  {
    FreqsOrdered(lowfreq, linsc, logsc, nlinfilt, nlogfilt);
    Bank(Freqs(lowfreq, linsc, logsc, nlinfilt, nlogfilt), fs, nfft)
  }

  /** Every value the filterbank holds lies between 0 and its filter's height,
      and a row is zero outside the bins `FirstBin(low) .. FirstBin(hi) - 1`
      (frequencies strictly between `low` and `hi`). */
  lemma {:induction false} TrfbankValues(fs: real, nfft: nat, lowfreq: real, linsc: real, logsc: real,
                                        nlinfilt: nat, nlogfilt: nat, i: nat, b: nat)
    requires 0.0 < fs && 0 < nfft && 0.0 <= lowfreq && 0.0 < linsc && 1.0 < logsc
    requires Trfbank(fs, nfft, lowfreq, linsc, logsc, nlinfilt, nlogfilt).Some?
    requires i < nlinfilt + nlogfilt && b < nfft
    ensures var f := Freqs(lowfreq, linsc, logsc, nlinfilt, nlogfilt);
      var v := Trfbank(fs, nfft, lowfreq, linsc, logsc, nlinfilt, nlogfilt).value[i][b];
      && 0.0 <= v
      && (f[i] < f[i + 2] ==> v <= Height(f[i], f[i + 2]))
      && (v != 0.0 ==> FirstBin(f[i], fs, nfft) <= b < FirstBin(f[i + 2], fs, nfft))
  {
    var f := Freqs(lowfreq, linsc, logsc, nlinfilt, nlogfilt);
    var v := Trfbank(fs, nfft, lowfreq, linsc, logsc, nlinfilt, nlogfilt).value[i][b];
    FreqsOrdered(lowfreq, linsc, logsc, nlinfilt, nlogfilt);
    assert f[i] <= f[i + 1] <= f[i + 2];
    var x := BinFreq(b, fs, nfft);
    assert v == Triangle(f[i], f[i + 1], f[i + 2], x);
    if f[i] < f[i + 2] {
      TriangleBounds(f[i], f[i + 1], f[i + 2], x);
    }
    BinRange(f[i], f[i + 2], fs, nfft);
  }

  /** If the last boundary frequency stays below the first bin past the
      spectrum (`floor(freqs[-1] * nfft / fs) < nfft`, roughly
      `freqs[-1] < fs`), no filter writes out of range and `trfbank` returns. */
  lemma {:induction false} TrfbankInBounds(fs: real, nfft: nat, lowfreq: real, linsc: real, logsc: real,
                                          nlinfilt: nat, nlogfilt: nat)
    requires 0.0 < fs && 0 < nfft && 0.0 <= lowfreq && 0.0 < linsc && 1.0 < logsc
    requires var f := Freqs(lowfreq, linsc, logsc, nlinfilt, nlogfilt);
      FirstBin(f[|f| - 1], fs, nfft) <= nfft
    ensures Trfbank(fs, nfft, lowfreq, linsc, logsc, nlinfilt, nlogfilt).Some?
  {
    var f := Freqs(lowfreq, linsc, logsc, nlinfilt, nlogfilt);
    FreqsOrdered(lowfreq, linsc, logsc, nlinfilt, nlogfilt);
    forall i | 0 <= i < nlinfilt + nlogfilt
      ensures FilterFits(f, i, fs, nfft)
    {
      FirstBinMonotone(f[i + 2], f[|f| - 1], fs, nfft);
    }
  }
}
