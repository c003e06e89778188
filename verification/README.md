# MFCC feature layout, filterbank and delta, modelled in Dafny

`mfcc.py` turns a sequence of audio frames into MFCC feature vectors. It does this in four steps:

1. `trfbank` builds a bank of 40 triangular filters over the FFT bins.
2. Each frame's spectrum is passed through the bank, the log is taken, and a DCT is applied.
3. The slice `[:, 1:nceps]` keeps the cepstral coefficients `1 .. nceps-1`.
4. `delta` appends first- and second-order time derivatives.

This project models the exact, non-floating-point part of that pipeline over Dafny's unbounded reals and integers:

- **`delta`** (`delta.dfy`, module `Delta`) is modelled in full. The model covers:
  - the per-column loop;
  - the three branches: forward difference, backward difference, and the five-frame regression;
  - Python's index reads, including negative indices and the `IndexError` raised by short columns.
- **`trfbank`** (`filterbank.dfy`, module `Filterbank`) covers:
  - the boundary-frequency grid: linear, then geometric, including the `freqs[-1]` read when there are no linear filters;
  - the heights;
  - the `floor(x) + 1` bin ranges `lid` and `rid`;
  - the slope values written into each row;
  - numpy's fancy-index assignment, which raises when a bin index reaches `nfft`.
- **`mfcc`** (`mfcc.dfy`, module `Mfcc`) covers:
  - the fixed bank parameters;
  - the Python slice `[:, 1:nceps]` (negative and large `nceps` included);
  - the two `delta` calls;
  - the concatenation of the static, delta and delta-delta blocks.
- **Python and numpy building blocks** (`arrays.dfy`, module `Arrays`):
  - index and slice semantics;
  - `np.zeros`;
  - fancy-index assignment;
  - column extraction;
  - `np.concatenate(axis=1)`.

Raising operations return `Option`, where `None` stands for the `IndexError` or `ValueError` the code would raise. The constant `10**0.5` is a parameter `root10` of type `PosReal`: any positive real.

At its edges the code behaves as follows, and the model follows it exactly:

- **Short columns in `delta`.**
  - A column of one or two frames raises `IndexError`: the forward difference reads one past the end.
  - A column of no frames gives an empty result, because the loop never runs.
  - A matrix with no columns never raises.

  `Step`, `DeltaColumn` and `DeltaMatrix` state exactly this.
- **Filters past the spectrum.** A pass of the `trfbank` loop raises `IndexError` as soon as a bin of `lid` or `rid` reaches `nfft`. The read `nfreqs[lid]` on the right-hand side of mfcc.py:43 (or `nfreqs[rid]` on mfcc.py:44) raises before the write is attempted; the write would fail on the same bins. `FilterRow` and `Trfbank` state when this happens.
- **Half-open triangles.** The bin ranges are half-open in frequency: a filter covers the bins whose frequency lies in `(low, hi]`. A bin exactly at `low` gets 0, and a bin exactly at `cen` belongs to the rising slope and gets the full height. `Triangle` is defined over the same half-open base.

## Model

| member | source | states |
|---|---|---|
| Arrays.Index | mfcc.py:25 | Python indexing: an index names an element exactly when `-n <= j < n`; a negative index counts from the end |
| Arrays.Slice | mfcc.py:90 | Python's `s[start:stop]`: its length is the clamped bound difference and element `k` is `s[start' + k]` |
| Arrays.Assign | mfcc.py:43-44 | numpy's `row[arange(from, from+len)] = values` raises exactly when a non-empty run passes the end; positions in the run take the values, all others keep theirs |
| Arrays.Concat | mfcc.py:95 | `np.concatenate(axis=1)`: each row is the row of `a` followed by the row of `b` |
| Delta.Step | mfcc.py:55-60 | pass `i` raises exactly when it is a forward difference (`i < 2`) whose read `c[i+1]` is past the end; on three or more frames it is the smoothed derivative `Slope`: forward difference for `i < 2`, backward difference for the last two frames, and the regression `((c[i+1]-c[i-1]) + 2(c[i+2]-c[i-2]))/sqrt(10)` in between; on two frames frame 0 gets `c[1] - c[0]` |
| Delta.DeltaPrefix | mfcc.py:54-60 | the inner loop up to frame `n` succeeds iff every pass succeeds, and then holds each pass's value |
| Delta.DeltaColumn | mfcc.py:52-60 | raises iff the column has one or two frames; otherwise same length, and for three or more frames frame `i` is the forward, backward or regression slope |
| Delta.DeltaMatrix | mfcc.py:47-64 | raises iff some column raises (rows 1 or 2 with at least one column); the result has the input's shape and each column is `DeltaColumn` of the same input column alone |
| Delta.DeltaExample | mfcc.py:54-60 | the column 1, 2, 4, 8, 16 gives 1, 2, 36/sqrt(10), 4, 8 |
| Delta.ConstantColumn | mfcc.py:55-60 | a constant column (any length that does not raise) has an all-zero delta |
| Delta.LinearColumn | mfcc.py:55-60 | linearity: on every column length that does not raise, delta of `a*x + b*y` is `a*delta(x) + b*delta(y)` |
| Delta.SlopeLinear | mfcc.py:55-60 | each of the three slope formulas is linear in the column |
| Delta.ShiftedColumn | mfcc.py:55-60 | adding a constant to every frame of a column leaves its delta unchanged |
| Delta.LinearMatrix | mfcc.py:47-64 | linearity of the whole matrix operator |
| Delta.ShiftedMatrix | mfcc.py:47-64 | adding one vector to every row leaves the matrix delta unchanged |
| Delta.ConstantMatrix | mfcc.py:47-64 | a matrix of identical rows has an all-zero delta |
| Filterbank.Freqs | mfcc.py:23-25 | the grid has `nfilt + 2` entries: `lowfreq + i*linsc` below `nlinfilt`, then `freqs[nlinfilt-1] * logsc^(k-nlinfilt+1)`; with no linear filters every entry is 0 |
| Filterbank.LinearSpacing | mfcc.py:24 | neighbouring points of the linear grid are exactly `linsc` apart |
| Filterbank.GeometricGrid | mfcc.py:25 | `seed * x ** arange(1, m + 1)`: `m` points, entry `j` at `seed * x^(j+1)`; a zero seed gives all zeros |
| Filterbank.GeometricRatio | mfcc.py:25 | each point of the geometric grid is `x` times the one before it |
| Filterbank.FreqStep | mfcc.py:24-25 | consecutive grid points never fall, and rise strictly once the last linear frequency is positive |
| Filterbank.FreqsOrdered | mfcc.py:23-25 | for `lowfreq >= 0`, `linsc > 0`, `logsc > 1` the grid is non-negative and non-decreasing |
| Filterbank.FreqsIncreasing | mfcc.py:23-25 | with a linear filter and a positive last linear frequency the grid is strictly increasing |
| Filterbank.Height | mfcc.py:26 | the height `2/(hi - low)` of a filter of positive width is positive |
| Filterbank.UnitArea | mfcc.py:26 | each triangle with that height has area 1 |
| Filterbank.BinFreq | mfcc.py:31 | `nfreqs`: bin 0 is at 0 Hz, bin `nfft` would be at `fs`, and bins are evenly spaced one bin width `fs/nfft` apart |
| Filterbank.FirstBin | mfcc.py:37-41 | `floor(f*nfft/fs) + 1` is the least integer strictly above `f` measured in bins |
| Filterbank.FirstBinBelow | mfcc.py:31 | bin `b` is at or past `floor(f*nfft/fs)+1` iff its frequency `b*fs/nfft` is above `f`; for `f >= 0` that first bin is at least 1 |
| Filterbank.BinRange | mfcc.py:37-41 | bin `b` lies in `lid` iff `low < b*fs/nfft <= cen`, and in `rid` iff `cen < b*fs/nfft <= hi` |
| Filterbank.FirstBinMonotone | mfcc.py:37-41 | range starts never decrease along the grid, so `lid` ends where `rid` starts and the ranges are disjoint |
| Filterbank.RampBounds | mfcc.py:39-44 | a slope `h/d` applied to a distance in `[0, d]` lies in `[0, h]`, is positive for positive distances, and stays below `h` for distances below `d` |
| Filterbank.TriangleBounds | mfcc.py:37-44 | a triangle's response lies in `[0, height]` and is non-zero only for frequencies in `(low, hi]` |
| Filterbank.TrianglePeak | mfcc.py:39-43 | the response reaches the full height at the centre and is positive strictly inside the base |
| Filterbank.LeftValues | mfcc.py:37-39 | at every bin of `lid`, `lslope * (nfreqs[b] - low)` is the triangle's value at that bin, positive and at most `heights[i]` |
| Filterbank.RightValues | mfcc.py:40-42 | at every bin of `rid`, `rslope * (hi - nfreqs[b])` is the triangle's value at that bin, non-negative and below `heights[i]` |
| Filterbank.LeftSlope | mfcc.py:37-43 | the right-hand side of the first write has one value per bin of `lid`, and the `k`-th is the rising side of the triangle at bin `lid[k]`, in `(0, heights[i]]` |
| Filterbank.RightSlope | mfcc.py:40-44 | the right-hand side of the second write has one value per bin of `rid`, and the `k`-th is the falling side of the triangle at bin `rid[k]`, in `[0, heights[i])` |
| Filterbank.FilterRow | mfcc.py:33-44 | one loop pass raises iff the filter covers a bin at or past `nfft`; otherwise the row is the triangle sampled at every bin, so the second write never disturbs the first |
| Filterbank.BinIsTriangle | mfcc.py:43-44 | after both writes, bin `b` holds the triangle's value at its frequency |
| Filterbank.RowIsTriangle | mfcc.py:43-44 | the row after both writes raises iff the filter does not fit, and is otherwise the sampled triangle |
| Filterbank.Rows | mfcc.py:32-44 | the loop over the first `n` filters raises iff one of them does not fit; otherwise it gives `n` rows of `nfft` values |
| Filterbank.RowsAreTriangles | mfcc.py:32-44 | every row the loop produced is its filter's sampled triangle |
| Filterbank.Bank | mfcc.py:29-45 | over an ordered non-negative grid: raises iff some filter does not fit; otherwise `nfilt x nfft`, and row `i` is the triangle on grid points `i, i+1, i+2` |
| Filterbank.Trfbank | mfcc.py:16-45 | the same three statements for `trfbank` on its own grid |
| Filterbank.TrfbankValues | mfcc.py:37-44 | every value lies in `[0, heights[i]]`, and is zero outside bins `floor(low*nfft/fs)+1 .. floor(hi*nfft/fs)` |
| Filterbank.TrfbankInBounds | mfcc.py:37-44 | if `floor(freqs[-1]*nfft/fs) < nfft`, no write is out of range and `trfbank` returns |
| Mfcc.StandardBank | mfcc.py:68-79 | the fixed bank has 40 rows of `nfft` bins |
| Mfcc.LogSpacingPowers | mfcc.py:72 | `1.0711703 ** 27` lies in `[6.39958, 6.40045]` and `1.0711703 ** 29` in `[7.34291, 7.34393]` |
| Mfcc.LastLinearFrequency | mfcc.py:24 | the thirteenth grid point is `133.33 + 12 * 200/3 = 933.33` Hz |
| Mfcc.TopFrequencies | mfcc.py:23-25 | the fixed grid has 42 points; the last lies strictly between 6853 and 6855 Hz, and the lower edge of the last filter is below 5975 Hz |
| Mfcc.StandardBankFits | mfcc.py:37-44 | for `fs >= 6855` and any `nfft > 0`, the fixed bank does not raise and is `40 x nfft` |
| Mfcc.StandardBankRaises | mfcc.py:40-44 | for `0 < fs <= 6853` and `nfft >= 8`, the last filter reaches bin `nfft` while still covering a bin, so `trfbank` raises |
| Mfcc.StandardBankExample | mfcc.py:68-79 | at 16 kHz with 512-point FFTs the bank is `40 x 512` |
| Mfcc.MfccSucceeds | mfcc.py:67-100 | for `fs >= 6855`, a positive frame length and three or more frames of one length, `mfcc` returns |
| Mfcc.Kept | mfcc.py:90 | `[:, 1:nceps]` on 40 columns keeps `min(nceps, 40) - 1` for `nceps >= 1`, none for `nceps = 0`, and `max(0, 39 + nceps)` for negative `nceps` |
| Mfcc.Static | mfcc.py:90 | the static block has one row per frame of `Kept(nceps)` values, and value `k` is DCT coefficient `k + 1` |
| Mfcc.Mfcc | mfcc.py:67-100 | fails iff the sample rate or the frame length is zero, the bank raises, there are no frames, the frames differ in length, or `delta` raises (fewer than three frames with a kept coefficient); otherwise one row per frame of `3 * Kept(nceps)` values |
| Mfcc.ConcatBlocks | mfcc.py:94-99 | `[a, b, c]` splits back into its three blocks |
| Mfcc.MfccLayout | mfcc.py:90-99 | the blocks are in the order static, then delta of the static block, then delta of the delta block |
| Mfcc.StaticOffset | mfcc.py:90 | an offset on every cepstrum moves the static block by the kept part of the offset |
| Mfcc.MfccOffset | mfcc.py:90-99 | a fixed cepstral offset moves only the static block; the delta and delta-delta blocks and the success condition are unchanged |

## Left out

- **`fft`, `np.abs`, `np.dot` with the bank, `np.log10` and `dct` (mfcc.py:82-84, 90).** These are floating-point and transcendental library code. `mfcc` applies them row by row: row `t` of the DCT output depends only on frame `t` and the bank. The model therefore takes them as one abstract function `cepstrum(frame, bank)` that returns one coefficient per filter. The log of a zero energy is not modelled.
- **IEEE rounding.** Grid points, heights, slopes and the `floor` of `f*nfft/fs` are computed over exact reals. Where numpy's rounding lands on the other side of an integer, its bin ranges can differ from the model's.
- **The value of `10**0.5`.** It is the positive parameter `root10`.
- **`frame.data` (mfcc.py:80).** Frames are given directly as sample sequences.
- **Dead code.** The commented-out epsilon clamp (mfcc.py:86-88) and `highfreq` (mfcc.py:70) are not live code.
- **`dtype=np.int` (mfcc.py:38, 41).** Recent numpy versions removed this alias. The model assumes a numpy that accepts it, and reads the ranges as integer `arange`s.
- **Frames that cannot be stacked (mfcc.py:80).** `Mfcc` fails on them. The model does not distinguish an object array from numpy's `ValueError`.
- Trfbank: requires `fs > 0`, `nfft > 0`, `lowfreq >= 0`, `linsc > 0` and `logsc > 1`. The constants `mfcc` passes meet the last three. Outside these ranges the code does the following, none of which the model represents:
  - `lowfreq < 0`: `lid` can start at a negative index, numpy wraps it to the top of the row, and finite values are written there.
  - `fs < 0` on a non-negative, non-decreasing grid (the one `mfcc`'s constants give): `low*nfft/fs >= cen*nfft/fs >= hi*nfft/fs`, so every `arange` of mfcc.py:37-41 is empty, nothing is written, and `trfbank` returns an all-zero bank.
  - `nfft = 0`: `trfbank` returns an `nfilt x 0` array without error.
  - `fs = 0` with at least one filter: the bin bounds `f * nfft / fs` are infinite or NaN, and `np.arange` raises. With no filters the loop never runs and `trfbank` returns a `0 x nfft` array.
  - `linsc <= 0` or `logsc <= 1`: the grid can be unordered (for example `linsc < 0` with two or more linear filters, or `logsc < 1`), so heights can be negative; equal neighbours give an infinite `heights[i]`.
- Mfcc: requires only `fs >= 0`. It fails for `fs = 0`, where `trfbank` raises as above, and for `frameLength = 0`, where `fft(data, 0)` raises `ValueError`. A negative `fs` is not modelled: it gives the all-zero bank above, so every filterbank energy is zero and `np.log10` (mfcc.py:84) takes the log of zero, which is left out with the cepstrum itself.
- **`heights` (mfcc.py:26).** The loop reads only `heights[i]`. `Height(freqs[i], freqs[i+2])` is evaluated only at bins that are actually written, and those bins exist only when the triangle has positive width. A degenerate filter, such as one on the all-zero grid, therefore has a zero row, as in numpy, and no infinity has to be represented.
- **The fixed bank between 6853 Hz and 6855 Hz, and with fewer than 8 FFT bins.** The last grid point is `933.33 * 1.0711703 ** 29`, which `TopFrequencies` brackets in `(6853, 6855)` rather than computing exactly. `StandardBankFits` and `StandardBankRaises` therefore leave sample rates inside that interval open, and `StandardBankRaises` also leaves out `nfft < 8`, where one bin can be wider than the last filter.
