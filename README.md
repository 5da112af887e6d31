# Detector-based importance sampling for counting (DISCount), in Dafny

This project models the counting core of `roost_discount_sampling` and proves
properties of it. The core has two parts.

- `discount.dfy`, module `Discount`, models the estimator class `kDISCount`
  (`src/discount.py`) as the class `Discount.Estimator`. Its fields are `g`
  (detector counts), `q` (the proposal distribution), `samples` and `f` (the
  per-unit table of screened counts). The methods match the source's methods:
  - the constructor adds the zero floor and computes `q = g / sum(g)`;
  - `Sample` stores the drawn units;
  - `Load` fills the table, last write wins;
  - `EstimateRegion` and `Estimate` give, for every region, the importance-weighted
    estimate `G(R) * mean(f[s] / g[s])` and the square of its 95% half-width (the
    model does not take the square root).

  Loops stay loops, and each is proved against a function:
  - the table loop of `Load` against `LoadTable`;
  - the `w_bar` loop (`SumWeights`) against `WeightTotal`;
  - the `w_ci` loop (`SumDeviations`) against `DeviationTotal`;
  - the region loop of `Estimate` against `EstimateAll`.
- `data_carp.dfy`, module `DataCarp`, models the integer index logic of the track
  summaries in `src/data_carp.py`:
  - `select_detections` is the window `[dist - idxRange, dist + idxRange)` clipped
    to `[0, length)` and tagged with the track id;
  - the `det_idx` loop of `create_det_idx` is the method `CreateDetIdx` over the
    track lengths in sorted track order.

Python floats are `Value = Num(real) | NaN`. NaN propagates through arithmetic.

Python attributes that do not exist yet (`self.samples` before `sample`,
`self.f` before `load`) are `Option` fields. Reading a missing one is the source's
`AttributeError`, modelled as `Err(NotSampled)` or `Err(NotLoaded)`. The other
exceptions the code raises are errors too:
- `IndexOutOfRange`: a region index outside `[-|g|, |g|)`;
- `ScreenedTooShort`: a screened list shorter than the sample.

Python's negative indices into `g` count from the end, as in the source.

The model follows the code as written, including where it behaves differently from what one might expect of such an estimator:
- The code has no "missing verified count" error. A unit that was never screened
  holds NaN, and NaN propagates into the estimate (`UnscreenedSampleGivesNaN`).
- A new `sample` does not clear a table loaded for the old sample.
- `load` is not atomic. It replaces the table with NaNs and then fails part way when
  the screened list is short, keeping the prefix it wrote.
- Region indices are not checked against `[0, N)`. Negative indices wrap.

## Model

| member | source | states |
|---|---|---|
| Discount.FloorOffset | src/discount.py:14 | the floor offset `max(max(g)*eps, 1)` is at least 1 and at least `max(g)*eps` |
| Discount.Adjusted | src/discount.py:13-16 | the counts the estimator stores, one per unit of `g`; `AdjustedEntries` and `AdjustedPositive` state the floor rule and its effect |
| Discount.AdjustedEntries | src/discount.py:13-16 | when `min(g) == 0` every stored count is the original plus the floor offset and at least 1; otherwise `g` is stored unchanged; either way `g[i] < g[j]` exactly when the stored `g[i] <` stored `g[j]` |
| Discount.AdjustedPositive | src/discount.py:13-14 | for non-negative counts every stored count is positive, so their sum is positive |
| Discount.Proposal | src/discount.py:17 | `q = g / sum(g)` has one entry per unit; `ProposalIsDistribution` and `ProposalPositive` state that it is a distribution |
| Discount.ProposalIsDistribution | src/discount.py:17 | `q = g / sum(g)` sums to 1, and is positive everywhere when every `g[i]` is positive |
| Discount.ProposalPositive | src/discount.py:17 | when `sum(g) > 0`, `q[i] > 0` exactly when `g[i] > 0`, entry by entry |
| Discount.ZeroFloorExample | src/discount.py:13-17 | `g = [0, 5]`, `eps = 0.04` stores `[1, 6]` and `q = [1/7, 6/7]` |
| Discount.NoFloorExample | src/discount.py:13-17 | `g = [1, 2, 3, 4]` is stored as given and `q = [0.1, 0.2, 0.3, 0.4]` |
| Discount.Estimator.constructor | src/discount.py:5-17 | `eps` defaults to 0.04; stores the adjusted counts and `q = Proposal(g)`, with no sample and no table yet; the estimator invariant holds |
| Discount.Estimator.Sample | src/discount.py:23-24 | returns exactly the `n` drawn units, each an index of `g`, and stores that same list as the sample; `g`, `q` and `f` are unchanged |
| Discount.LoadTable | src/discount.py:30-32 | the table has one slot per unit of `g` |
| Discount.LoadTableAt | src/discount.py:30-32 | a sampled unit holds the screened value of the last sample position that drew it; a unit never drawn holds NaN |
| Discount.Estimator.Load | src/discount.py:30-32 | the new table is `LoadTable` over the sample positions that have a screened value; the result is `NotSampled` without a sample, `ScreenedTooShort` when the screened list is shorter than the sample, and success otherwise; `g`, `q` and `samples` are unchanged |
| Discount.InRegion | src/discount.py:50 | `S` has at most one entry per sample position, and each entry is a sampled unit listed in the region |
| Discount.InRegionCounts | src/discount.py:50 | `S` holds unit `u` exactly as often as it was drawn when `u` is in the region, and never otherwise (duplicates kept) |
| Discount.InRegionEmpty | src/discount.py:50-52 | `S` is empty exactly when no sampled unit is listed in the region |
| Discount.RegionTotal | src/discount.py:51 | `G(R)` exists exactly when every index of the region lies in `[-len(g), len(g))`; otherwise the error names the first index outside that range |
| Discount.RegionTotalIsSum | src/discount.py:51 | for a region of indices inside `g`, `G(R)` succeeds and is the sum of `g` over the region's listed entries |
| Discount.WeightTotal | src/discount.py:58-60 | `w_bar`, the sum of `f[s] / g[s]` over `S`, is a number whenever every entry of `S` holds a number; `WeightTotalNaN`, `WeightTotalNonNegative` and `WeightTotalProportional` state its value |
| Discount.DeviationTotal | src/discount.py:64-70 | `w_ci`, the sum of `(G_S * f[s] / g[s] - F_hat)^2` over `S_ci`, is a number whenever `F_hat` and every entry of `S_ci` are; `DeviationTotalNonNegative` and `DeviationTotalProportional` state its value |
| Discount.PointEstimate | src/discount.py:61 | `F_hat = G_S * w_bar / len(S)` is a number whenever every entry of `S` holds a number; `ProportionalPointEstimate` and `PointEstimateNonNegative` state its value |
| Discount.SquaredHalfWidth | src/discount.py:71-72 | `1.96^2 * (w_ci / len(S_ci)) / len(S_ci)` is a number whenever `F_hat` and every entry of `S_ci` are; `SquaredHalfWidthSign` and `ProportionalHalfWidth` state its value |
| Discount.RegionEstimate | src/discount.py:50-75 | one region's pair: the call fails with `NotSampled` exactly when there is no sample; `RegionEstimateErrors`, `EmptyRegionIsZero` and `ProportionalCounts` state the rest |
| Discount.RegionEstimateErrors | src/discount.py:50-60 | the errors of one region, in the order the code meets them: no sample; else an index outside `g`, since `G_S` is computed before the emptiness test; else no table, and only when some sample falls in the region; no other error |
| Discount.EstimateAll | src/discount.py:48-76 | on success both lists have one entry per region; with no sample yet, any non-empty list of regions fails with `NotSampled` |
| Discount.SumWeights | src/discount.py:58-60 | the loop's `w_bar` is `WeightTotal`, the sum of `f[s] / g[s]` over `S` |
| Discount.SumDeviations | src/discount.py:64-70 | the loop's `w_ci` is `DeviationTotal`, the sum of `(G_S * f[s] / g[s] - F_hat)^2` over `S_ci` |
| Discount.Estimator.EstimateRegion | src/discount.py:50-75 | one iteration of the region loop computes `RegionEstimate`; the method changes nothing |
| Discount.Estimator.Estimate | src/discount.py:34-76 | `ciAllSamples` defaults to false; the result is `EstimateAll` of the current state; the method has no `modifies` clause, so `g`, `q`, `samples` and `f` are unchanged |
| Discount.EstimateAllOk | src/discount.py:48-76 | `estimate` succeeds exactly when every region's computation succeeds |
| Discount.EstimateAllValues | src/discount.py:48-76 | on success both lists have one entry per region, and entry `k` is region `k`'s estimate and squared half-width |
| Discount.EstimateAllFirstError | src/discount.py:49-70 | on failure the error is that of the first region that fails, and every earlier region succeeds |
| Discount.EmptyRegionIsZero | src/discount.py:50-55 | a region with valid indices that no sampled unit falls in gets estimate 0 and half-width 0, whether or not a table was loaded |
| Discount.WeightTotalProportional | src/discount.py:58-60 | if `f[s] = c * g[s]` on every entry of `S` then `w_bar = len(S) * c` |
| Discount.DeviationTotalProportional | src/discount.py:69-70 | if `f[s] = c * g[s]` on every entry of `S_ci` then `w_ci = 0` at `F_hat = c * G_S` |
| Discount.ProportionalPointEstimate | src/discount.py:58-61 | if `f[s] = c * g[s]` on `S` then `F_hat = c * G_S` |
| Discount.ProportionalHalfWidth | src/discount.py:64-72 | if `f[s] = c * g[s]` on `S_ci` then the squared half-width at `F_hat = c * G_S` is 0 |
| Discount.ProportionalParts | src/discount.py:58-72 | for counts proportional to the detector on the samples used, the point estimate is `c * G_S` and the squared half-width is 0, for both choices of `S_ci` |
| Discount.ProportionalCounts | src/discount.py:50-72 | a detector that is exact up to a factor `c` on `S_ci` gives the region estimate `(c * G_S, 0)` |
| Discount.PerfectDetectorExample | src/discount.py:48-76 | `g = [1, 1, 1, 1]`, samples `[0, 1, 2, 3]`, counts `[1, 1, 1, 1]`, region `[0, 1, 2, 3]` gives `(4, 0)` for both settings of `ci_all_samples` |
| Discount.PerfectDetectorTotal | src/discount.py:51 | `G` of the region `[0, 1, 2, 3]` over `g = [1, 1, 1, 1]` is 4 |
| Discount.DeviationTotalNonNegative | src/discount.py:69-70 | `w_ci` is never negative |
| Discount.SquaredHalfWidthSign | src/discount.py:71-72 | `1.96^2 * (w_ci / len(S_ci)) / len(S_ci)` is never negative |
| Discount.SquaredHalfWidthNonNegative | src/discount.py:64-72 | the variance, and so the squared half-width that `estimate` reports for a region, is never negative |
| Discount.RegionTotalNonNegative | src/discount.py:51 | with positive detector counts `G(R)` is never negative |
| Discount.WeightTotalNonNegative | src/discount.py:58-60 | with non-negative screened counts `w_bar` is never negative |
| Discount.PointEstimateNonNegative | src/discount.py:61 | with `G_S >= 0` and non-negative screened counts `F_hat` is never negative |
| Discount.EstimateNonNegative | src/discount.py:50-61 | with non-negative screened counts every region estimate is non-negative |
| Discount.WeightTotalNaN | src/discount.py:58-60 | `w_bar` is NaN exactly when some entry of `S` holds NaN in the table |
| Discount.UnscreenedSampleGivesNaN | src/discount.py:30-61 | after a load, a region's estimate is NaN exactly when some sampled unit in the region holds NaN, such as a unit whose screened value is missing |
| Discount.ExpectedWeightIs | src/discount.py:17-61 | for `q = g / t`, summing `q[s] * (G * f[s] / g[s])` over the region's listed entries gives `G / t` times their total of `f` |
| Discount.RegionProbability | src/discount.py:17 | the sum of `q` over the region's listed entries is `G(R) / sum(g)`; for a region that lists no index twice this is the probability that one draw lands in it |
| Discount.RegionWeightUnbiased | src/discount.py:17-61 | one draw's importance weight `G(R) * f[s] / g[s]`, summed with weights `q[s]` over the region's listed entries, equals the region's `q`-sum times its total of `f`: the weight is unbiased for a region without repeated indices |
| Discount.EstimatorWeightUnbiased | src/discount.py:17-61 | the same identity for the `G_S` that `estimate` computes, for a region of indices inside `g` |
| DataCarp.Range | src/data_carp.py:9 | `arange(lo, hi, 1)` has `hi - lo` entries (none when `hi <= lo`), and entry `k` is `lo + k` |
| DataCarp.Clip | src/data_carp.py:10 | the mask keeps no more entries than it is given, each in `[0, length)` |
| DataCarp.ClipSound | src/data_carp.py:10 | every kept entry was in the input and lies in `[0, length)` |
| DataCarp.ClipComplete | src/data_carp.py:10 | every input entry in `[0, length)` is kept |
| DataCarp.ClipKeepsIncreasing | src/data_carp.py:10 | the mask keeps an increasing sequence increasing |
| DataCarp.Kept | src/data_carp.py:9-10 | at most `2 * idxRange` indices are kept (none when `idxRange <= 0`), each in `[0, length)`; `KeptExactly` states which |
| DataCarp.KeptExactly | src/data_carp.py:9-10 | an index is kept exactly when `dist - idxRange <= k < dist + idxRange` and `0 <= k < length` |
| DataCarp.Tag | src/data_carp.py:11 | one output per kept index, in the same order, pairing it with the row's track id |
| DataCarp.SelectDetections | src/data_carp.py:4-13 | at most `2 * idxRange` detections (none when `idxRange <= 0`), each of the row's track and with its index in `[0, length)`; `SelectedExactly` and `SelectionIncreasing` state which and in what order |
| DataCarp.SelectedExactly | src/data_carp.py:9-11 | a detection is selected exactly when it carries the row's track id and its index is in the window and inside the track |
| DataCarp.RangeIncreasing | src/data_carp.py:9 | the window is strictly increasing |
| DataCarp.KeptIncreasing | src/data_carp.py:9-10 | the kept indices are strictly increasing |
| DataCarp.TagIncreasing | src/data_carp.py:11 | tagging keeps the detection indices in increasing order |
| DataCarp.SelectionIncreasing | src/data_carp.py:9-11 | the selected detections have strictly increasing indices, so there are no duplicates |
| DataCarp.MedianIsSelected | src/data_carp.py:9-11 | when `0 <= dist < length` (as for the argmin position at the call site) and `idxRange >= 1`, the median detection itself is selected |
| DataCarp.DetIdx | src/data_carp.py:38-40 | the concatenation over the tracks of `0, 1, ..., len_t - 1`; no entry is negative; `DetIdxLength`, `DetIdxBlock` and `DetIdxCountsWithinTrack` state the rest |
| DataCarp.CreateDetIdx | src/data_carp.py:38-40 | the loop builds `DetIdx`, the concatenation over the tracks of `0, 1, ..., len_t - 1` |
| DataCarp.DetIdxLength | src/data_carp.py:35-42 | `det_idx` has as many entries as the track lengths add up to, one per row of the data frame |
| DataCarp.DetIdxBlock | src/data_carp.py:39-40 | in the block of track `t`, after the rows of the earlier tracks, `det_idx` runs `0, 1, 2, ...` |
| DataCarp.Rows | src/data_carp.py:33-36 | the sorted data frame, each track's id repeated once per detection, has as many rows as the track lengths add up to |
| DataCarp.DetIdxCountsWithinTrack | src/data_carp.py:16-42 | with distinct track ids, each row's `det_idx` is the number of earlier rows of its own track, so it counts the detections within each track from 0 |

## Left out

- Discount.Estimator.Sample: takes `n` as a `nat`. The `ValueError` that `np.random.choice` raises for a negative `n` is not modelled.
- `np.random.choice` in `sample` is not modelled. `Discount.Estimator.Sample` takes the drawn units as a parameter. Only their number and their range are assumed; their distribution is never used.
- Discount.Estimator.Estimate: the second list holds the squared half-width `(1.96 * sqrt(var / |S_ci|))^2 = 1.96^2 * var / |S_ci|`, not the half-width, because the square root is not modelled. Its sign and its zero case carry over.
- IEEE 754 rounding and infinities are not modelled. Reals are exact. NaN is a value that propagates through `+`, `-`, `*` and `/`.
- Discount.Estimator.constructor: requires non-empty counts, because `min` of an empty list raises and that exception is not modelled. It also requires non-negative counts, which keep `q` a distribution (a zero sum would divide by zero).
- Types are not modelled: `g` as a list or a numpy array, and integer versus float values. The `TypeError` of a non-integer region index is not modelled either.
- Discount.RegionWeightUnbiased: covers only regions of non-negative indices (`seq<nat>`). The estimator itself also accepts negative indices. The sums run over the region's listed entries, so a repeated index counts twice. The reading of the `q`-sum as a probability therefore holds only for regions without repeated indices, which the lemma does not require.
- Discount.EstimatorWeightUnbiased: has the same scope as `RegionWeightUnbiased`.
- Pandas in `create_det_idx` is abstracted away. The `value_counts`/`sort_index` step becomes the sequence of track lengths in sorted track order. `sort_values` becomes the rows grouped by track (`DataCarp.Rows`). Assigning the column becomes the length equality `DataCarp.DetIdxLength`.
- The key `str(k) + track_id` of `select_detections` is the pair `Detection(k, trackId)`. Collisions between different pairs that give the same string are therefore not modelled.
- `summarize_sweeps` and the rest of `summarize_tracks` (`src/data_carp.py`) are pandas group-by, quantile and merge plumbing, and are not part of this model.
- `main.py` (argument parsing, file reading and writing) is I/O around the estimator and is not part of this model.
