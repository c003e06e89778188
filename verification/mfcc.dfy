/** mfcc.py's `mfcc`: a fixed 40-filter bank, the per-frame cepstrum, the
    slice that keeps coefficients 1 .. nceps-1, and the static, delta and
    delta-delta blocks laid side by side. The spectrum, logarithm and DCT are
    one abstract per-frame function; what is modelled is how their results
    are sliced, differenced and concatenated. */
module Mfcc {
  import opened Arrays
  import opened Delta
  import opened Filterbank

  /** The bank's parameters, fixed by mfcc.py. */
  const LowFreq: real := 133.33
  const LinSpacing: real := 200.0 / 3.0
  const LogSpacing: real := 1.0711703
  const LinFilters: nat := 13
  const LogFilters: nat := 27
  const NumFilters: nat := LinFilters + LogFilters

  /** The spectrum, filterbank energies, log10 and orthonormal DCT of one
      frame: given a frame and the filterbank it yields one coefficient per
      filter. */
  type Cepstrum = (seq<real>, Matrix) -> seq<real>

  /** `trfbank(fs, nfft, 133.33, 200/3, 1.0711703, 13, 27)`. */
  function StandardBank(fs: real, nfft: nat): (r: Option<Matrix>)
    requires 0.0 < fs && 0 < nfft
    ensures r.Some? ==> IsShape(r.value, NumFilters, nfft)
  {
    Trfbank(fs, nfft, LowFreq, LinSpacing, LogSpacing, LinFilters, LogFilters)
  }

  /** `LogSpacing ** 27` and `LogSpacing ** 29`, bracketed one step at a
      time: the factors from the last linear frequency to the lower and the
      upper edge of the last filter. */
  lemma LogSpacingPowers()
    ensures 6.39958 <= Pow(LogSpacing, 27) <= 6.40045
    ensures 7.34291 <= Pow(LogSpacing, 29) <= 7.34393
  {
    var x := LogSpacing;
    assert Pow(x, 1) == x * Pow(x, 0);
    assert 1.07117 <= Pow(x, 1) <= 1.07118;
    assert Pow(x, 2) == x * Pow(x, 1);
    assert 1.14740 <= Pow(x, 2) <= 1.14742;
    assert Pow(x, 3) == x * Pow(x, 2);
    assert 1.22906 <= Pow(x, 3) <= 1.22909;
    assert Pow(x, 4) == x * Pow(x, 3);
    assert 1.31653 <= Pow(x, 4) <= 1.31657;
    assert Pow(x, 5) == x * Pow(x, 4);
    assert 1.41022 <= Pow(x, 5) <= 1.41028;
    assert Pow(x, 6) == x * Pow(x, 5);
    assert 1.51058 <= Pow(x, 6) <= 1.51066;
    assert Pow(x, 7) == x * Pow(x, 6);
    assert 1.61808 <= Pow(x, 7) <= 1.61818;
    assert Pow(x, 8) == x * Pow(x, 7);
    assert 1.73323 <= Pow(x, 8) <= 1.73335;
    assert Pow(x, 9) == x * Pow(x, 8);
    assert 1.85658 <= Pow(x, 9) <= 1.85672;
    assert Pow(x, 10) == x * Pow(x, 9);
    assert 1.98871 <= Pow(x, 10) <= 1.98887;
    assert Pow(x, 11) == x * Pow(x, 10);
    assert 2.13024 <= Pow(x, 11) <= 2.13042;
    assert Pow(x, 12) == x * Pow(x, 11);
    assert 2.28184 <= Pow(x, 12) <= 2.28205;
    assert Pow(x, 13) == x * Pow(x, 12);
    assert 2.44423 <= Pow(x, 13) <= 2.44447;
    assert Pow(x, 14) == x * Pow(x, 13);
    assert 2.61818 <= Pow(x, 14) <= 2.61845;
    assert Pow(x, 15) == x * Pow(x, 14);
    assert 2.80451 <= Pow(x, 15) <= 2.80481;
    assert Pow(x, 16) == x * Pow(x, 15);
    assert 3.00410 <= Pow(x, 16) <= 3.00443;
    assert Pow(x, 17) == x * Pow(x, 16);
    assert 3.21790 <= Pow(x, 17) <= 3.21826;
    assert Pow(x, 18) == x * Pow(x, 17);
    assert 3.44691 <= Pow(x, 18) <= 3.44731;
    assert Pow(x, 19) == x * Pow(x, 18);
    assert 3.69222 <= Pow(x, 19) <= 3.69266;
    assert Pow(x, 20) == x * Pow(x, 19);
    assert 3.95499 <= Pow(x, 20) <= 3.95547;
    assert Pow(x, 21) == x * Pow(x, 20);
    assert 4.23646 <= Pow(x, 21) <= 4.23699;
    assert Pow(x, 22) == x * Pow(x, 21);
    assert 4.53797 <= Pow(x, 22) <= 4.53854;
    assert Pow(x, 23) == x * Pow(x, 22);
    assert 4.86093 <= Pow(x, 23) <= 4.86155;
    assert Pow(x, 24) == x * Pow(x, 23);
    assert 5.20688 <= Pow(x, 24) <= 5.20755;
    assert Pow(x, 25) == x * Pow(x, 24);
    assert 5.57745 <= Pow(x, 25) <= 5.57818;
    assert Pow(x, 26) == x * Pow(x, 25);
    assert 5.97439 <= Pow(x, 26) <= 5.97519;
    assert Pow(x, 27) == x * Pow(x, 26);
    assert 6.39958 <= Pow(x, 27) <= 6.40045;
    assert Pow(x, 28) == x * Pow(x, 27);
    assert 6.85504 <= Pow(x, 28) <= 6.85598;
    assert Pow(x, 29) == x * Pow(x, 28);
    assert 7.34291 <= Pow(x, 29) <= 7.34393;
  }

  /** The last linear boundary frequency, `133.33 + 12 * 200 / 3`, seeds the
      geometric part of the fixed grid. */
  lemma LastLinearFrequency()
    ensures Freqs(LowFreq, LinSpacing, LogSpacing, LinFilters, LogFilters)[LinFilters - 1] == 933.33
  {
    var f := Freqs(LowFreq, LinSpacing, LogSpacing, LinFilters, LogFilters);
    assert f[12] == LowFreq + 12 as real * LinSpacing;
  }

  /** The boundary frequencies of the fixed bank end just below 6855 Hz;
      the last filter starts below 5975 Hz. */
  lemma TopFrequencies()
    ensures var f := Freqs(LowFreq, LinSpacing, LogSpacing, LinFilters, LogFilters);
      && |f| == NumFilters + 2
      && 6853.0 < f[NumFilters + 1] < 6855.0
      && 0.0 <= f[NumFilters - 1] < 5975.0
  {
    var f := Freqs(LowFreq, LinSpacing, LogSpacing, LinFilters, LogFilters);
    LogSpacingPowers();
    LastLinearFrequency();
    assert f[NumFilters + 1] == f[12] * Pow(LogSpacing, 29);
    assert f[NumFilters - 1] == f[12] * Pow(LogSpacing, 27);
  }

  /** From a sample rate of 6855 Hz up (every common rate from 8 kHz on) the
      fixed bank fits the spectrum for every FFT size, and `mfcc.py` gets its
      40 filters. */
  lemma StandardBankFits(fs: real, nfft: nat)
    requires 6855.0 <= fs && 0 < nfft
    ensures StandardBank(fs, nfft).Some?
    ensures IsShape(StandardBank(fs, nfft).value, NumFilters, nfft)
  {
    var f := Freqs(LowFreq, LinSpacing, LogSpacing, LinFilters, LogFilters);
    TopFrequencies();
    FirstBinBelow(f[|f| - 1], fs, nfft, nfft);
    TrfbankInBounds(fs, nfft, LowFreq, LinSpacing, LogSpacing, LinFilters, LogFilters);
  }

  /** Below 6853 Hz, with at least 8 FFT bins, the last filter's upper edge is
      at or past the sample rate while its range still holds a bin: the read
      past `nfft` raises and the fixed bank is not built. */
  lemma StandardBankRaises(fs: real, nfft: nat)
    requires 0.0 < fs <= 6853.0 && 8 <= nfft
    ensures StandardBank(fs, nfft).None?
  {
    var f := Freqs(LowFreq, LinSpacing, LogSpacing, LinFilters, LogFilters);
    TopFrequencies();
    var low, hi := f[NumFilters - 1], f[NumFilters + 1];
    var w := BinWidth(fs, nfft);
    assert w * (nfft as real) == fs;
    assert w * 8.0 <= w * (nfft as real);
    var b := FirstBin(low, fs, nfft);
    BinScale(low, fs, nfft, b);
    assert b as real * w <= (InBins(low, fs, nfft) + 1.0) * w;
    FirstBinBelow(hi, fs, nfft, b);
    FirstBinBelow(hi, fs, nfft, nfft);
    assert !FilterFits(f, NumFilters - 1, fs, nfft);
  }

  /** The concrete case of 16 kHz audio with 512-point FFTs: a 40 x 512 bank. */
  lemma StandardBankExample()
    ensures StandardBank(16000.0, 512).Some?
    ensures IsShape(StandardBank(16000.0, 512).value, 40, 512)
  {
    StandardBankFits(16000.0, 512);
  }

  /** At a sample rate of 6855 Hz or more, `mfcc` succeeds on any three or
      more frames of one positive length. */
  lemma MfccSucceeds(frames: seq<seq<real>>, fs: real, frameLength: nat, root10: PosReal, cepstrum: Cepstrum, nceps: int)
    requires 6855.0 <= fs && 0 < frameLength
    requires forall x, fb :: |cepstrum(x, fb)| == |fb|
    requires 3 <= |frames| && Rectangular(frames)
    ensures Mfcc(frames, fs, frameLength, root10, cepstrum, nceps).Some?
  {
    StandardBankFits(fs, 2 * frameLength);
  }

  /** How many coefficients the slice `[:, 1:nceps]` keeps out of the 40. */
  function Kept(nceps: int): (w: nat)
    ensures 1 <= nceps ==> w == (if nceps < NumFilters then nceps else NumFilters) - 1
    ensures nceps == 0 ==> w == 0
    ensures nceps < 0 ==> w == (if nceps <= 1 - NumFilters then 0 else NumFilters - 1 + nceps)
  {
    SliceLength(NumFilters, 1, nceps)
  }

  /** numpy can stack the frames into a 2-D array: all have one length. */
  predicate Rectangular(frames: seq<seq<real>>)
  {
    forall t :: 0 <= t < |frames| ==> |frames[t]| == |frames[0]|
  }

  /** The static cepstra: row `t` is the frame's cepstrum sliced to `[1:nceps]`. */
  function Static(frames: seq<seq<real>>, bank: Matrix, nceps: int, cepstrum: Cepstrum): (s: Matrix)
    requires forall x, fb :: |cepstrum(x, fb)| == |fb|
    requires |bank| == NumFilters
    ensures IsShape(s, |frames|, Kept(nceps))
    ensures forall t, k :: 0 <= t < |frames| && 0 <= k < Kept(nceps) ==> s[t][k] == cepstrum(frames[t], bank)[k + 1]
  {
    assert forall t :: 0 <= t < |frames| ==> |cepstrum(frames[t], bank)| == NumFilters;
    seq(|frames|, t requires 0 <= t < |frames| => Slice(cepstrum(frames[t], bank), 1, nceps))
  }

  /** mfcc.py's `mfcc` on the frames' samples, `nceps` defaulting to 13.
      `nfft` is twice the frame length. It fails when the sample rate is zero
      (the bank's bin ranges become infinite and `arange` raises), when the
      frame length is zero (`fft` refuses zero points), when the bank raises,
      when there are no frames (the slice `[:, 1:nceps]` then meets a 1-D
      array), when the frames cannot be stacked, and when `delta` raises
      (fewer than three frames with at least one kept coefficient).
      Otherwise every frame yields a row of three blocks of `Kept(nceps)`
      values. */
  function Mfcc(frames: seq<seq<real>>, fs: real, frameLength: nat, root10: PosReal, cepstrum: Cepstrum,
                nceps: int := 13): (r: Option<Matrix>)
    requires 0.0 <= fs
    requires forall x, fb :: |cepstrum(x, fb)| == |fb|
    ensures r.Some? <==>
      && 0.0 < fs && 0 < frameLength
      && StandardBank(fs, 2 * frameLength).Some?
      && 0 < |frames| && Rectangular(frames)
      && (Kept(nceps) == 0 || 3 <= |frames|)
    ensures r.Some? ==> IsShape(r.value, |frames|, 3 * Kept(nceps))
  {
    if fs == 0.0 || frameLength == 0 then None
    else
      var bank :- StandardBank(fs, 2 * frameLength);
      if |frames| == 0 || !Rectangular(frames) then None
      else
        var w := Kept(nceps);
        var s := Static(frames, bank, nceps, cepstrum);
        var d :- DeltaMatrix(s, w, root10);
        // `d` has the shape of `s`, so the second `delta` cannot raise.
        var dd := DeltaMatrix(d, w, root10).value;
        Some(Concat(Concat(s, d), dd))
  }

  /** Block `j` of a matrix of three blocks of `w` columns: the columns
      `j * w .. j * w + w - 1`. */
  function Block(r: Matrix, w: nat, j: nat): (b: Matrix)
    requires IsShape(r, |r|, 3 * w) && j < 3
    ensures IsShape(b, |r|, w)
    ensures forall t, k :: 0 <= t < |r| && 0 <= k < w ==> b[t][k] == r[t][j * w + k]
  {
    seq(|r|, t requires 0 <= t < |r| => r[t][j * w .. j * w + w])
  }

  /** `[a | b | c]` splits back into `a`, `b` and `c`. */
  lemma ConcatBlocks(a: Matrix, b: Matrix, c: Matrix, w: nat)
    requires IsShape(a, |a|, w) && IsShape(b, |a|, w) && IsShape(c, |a|, w)
    ensures IsShape(Concat(Concat(a, b), c), |a|, 3 * w)
    ensures Block(Concat(Concat(a, b), c), w, 0) == a
    ensures Block(Concat(Concat(a, b), c), w, 1) == b
    ensures Block(Concat(Concat(a, b), c), w, 2) == c
  {
    var r := Concat(Concat(a, b), c);
    forall t | 0 <= t < |a|
      ensures Block(r, w, 0)[t] == a[t] && Block(r, w, 1)[t] == b[t] && Block(r, w, 2)[t] == c[t]
    {
      assert r[t] == a[t] + b[t] + c[t];
    }
  }

  /** The layout of a result: its first block holds, per frame, the cepstral
      coefficients 1 .. Kept(nceps) in order; the second block is `delta` of
      the first, and the third is `delta` of the second. */
  lemma {:induction false} MfccLayout(frames: seq<seq<real>>, fs: real, frameLength: nat, nceps: int, root10: PosReal, cepstrum: Cepstrum)
    requires 0.0 <= fs
    requires forall x, fb :: |cepstrum(x, fb)| == |fb|
    requires Mfcc(frames, fs, frameLength, root10, cepstrum, nceps).Some?
    ensures var r, w := Mfcc(frames, fs, frameLength, root10, cepstrum, nceps).value, Kept(nceps);
      var bank := StandardBank(fs, 2 * frameLength).value;
      && Block(r, w, 0) == Static(frames, bank, nceps, cepstrum)
      && DeltaMatrix(Block(r, w, 0), w, root10) == Some(Block(r, w, 1))
      && DeltaMatrix(Block(r, w, 1), w, root10) == Some(Block(r, w, 2))
  {
    var w := Kept(nceps);
    var bank := StandardBank(fs, 2 * frameLength).value;
    var s := Static(frames, bank, nceps, cepstrum);
    var d := DeltaMatrix(s, w, root10).value;
    var dd := DeltaMatrix(d, w, root10).value;
    ConcatBlocks(s, d, dd, w);
  }

  /** An offset on every cepstrum moves the static cepstra by its kept part. */
  lemma StaticOffset(frames: seq<seq<real>>, bank: Matrix, nceps: int, cepstrum: Cepstrum, shifted: Cepstrum, v: seq<real>)
    requires forall x, fb :: |cepstrum(x, fb)| == |fb|
    requires forall x, fb :: |shifted(x, fb)| == |fb|
    requires |bank| == NumFilters && |v| == NumFilters
    requires forall x, fb, j :: |fb| == NumFilters && 0 <= j < NumFilters ==> shifted(x, fb)[j] == cepstrum(x, fb)[j] + v[j]
    ensures Static(frames, bank, nceps, shifted) == AddToRows(Static(frames, bank, nceps, cepstrum), v[1..Kept(nceps) + 1])
  {
    var w := Kept(nceps);
    var s, moved := Static(frames, bank, nceps, cepstrum), Static(frames, bank, nceps, shifted);
    var u := v[1..w + 1];
    var want := AddToRows(s, u);
    forall t | 0 <= t < |frames|
      ensures moved[t] == want[t]
    {
      forall k | 0 <= k < w
        ensures moved[t][k] == want[t][k]
      {
        assert moved[t][k] == shifted(frames[t], bank)[k + 1];
        assert s[t][k] == cepstrum(frames[t], bank)[k + 1];
      }
    }
  }

  /** Adding a fixed offset `v` to every frame's cepstrum (a constant channel
      gain, in the log domain) moves the static block by the kept part of `v`
      and leaves the delta and delta-delta blocks as they were. */
  lemma {:induction false} MfccOffset(frames: seq<seq<real>>, fs: real, frameLength: nat, nceps: int, root10: PosReal,
                                      cepstrum: Cepstrum, shifted: Cepstrum, v: seq<real>)
    requires 0.0 <= fs
    requires forall x, fb :: |cepstrum(x, fb)| == |fb|
    requires forall x, fb :: |shifted(x, fb)| == |fb|
    requires |v| == NumFilters
    requires forall x, fb, j :: |fb| == NumFilters && 0 <= j < NumFilters ==> shifted(x, fb)[j] == cepstrum(x, fb)[j] + v[j]
    ensures var a, b := Mfcc(frames, fs, frameLength, root10, cepstrum, nceps), Mfcc(frames, fs, frameLength, root10, shifted, nceps);
      var w := Kept(nceps);
      && (a.Some? <==> b.Some?)
      && (a.Some? ==>
            && Block(b.value, w, 0) == AddToRows(Block(a.value, w, 0), v[1..w + 1])
            && Block(b.value, w, 1) == Block(a.value, w, 1)
            && Block(b.value, w, 2) == Block(a.value, w, 2))
  {
    var w := Kept(nceps);
    if Mfcc(frames, fs, frameLength, root10, cepstrum, nceps).Some? {
      var bank := StandardBank(fs, 2 * frameLength).value;
      var s := Static(frames, bank, nceps, cepstrum);
      var u := v[1..w + 1];
      var moved := Static(frames, bank, nceps, shifted);
      StaticOffset(frames, bank, nceps, cepstrum, shifted, v);
      ShiftedMatrix(s, u, root10);
      var d := DeltaMatrix(s, w, root10).value;
      var dd := DeltaMatrix(d, w, root10).value;
      ConcatBlocks(s, d, dd, w);
      ConcatBlocks(moved, d, dd, w);
    }
  }
}
