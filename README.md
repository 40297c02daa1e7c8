# CiSSA decomposition and diagnostics, modelled in Dafny

This project models the core of a Chilean labour-force time-series toolkit:

- Circulant Singular Spectrum Analysis (CiSSA) as `CiSSA/pycissa.py` implements it:
  - diagonal averaging;
  - series extension;
  - the decomposition `cissa`;
  - frequency grouping (`group`, `build_groupings`);
  - the iterative outlier corrector `cissa_outlier`.
- The duplicate implementation in `models/cissa.py`.
- The driver script `CiSSA/CiSSA.py` (`date_to_index`, `get_cissa`).
- The X13 sliding-spans and revision-history diagnostics in `diagnostics/x13_diags.py`.
- The survey preprocessing in `utils/preprocess.py`:
  - stratified levels;
  - the moving quarter;
  - unemployment rates;
  - the download schedule for new monthly files.

## How the model is built

- Arithmetic is over `real`.
- Matrices are sequences of columns, because the code works column by column.
- Python exceptions become `Err(kind)` values of `Common.Result`.
- Each module follows one source file:
  - `DiagonalAverager`, `SeriesExtender`, `Decomposer`, `Completeness`, `Sorting`, `Grouper`, `Groupings` and `OutlierCorrector` model `CiSSA/pycissa.py`;
  - `ModelsCissa` models `models/cissa.py`;
  - `CissaScript` models `CiSSA/CiSSA.py`;
  - `X13Diags` models `diagnostics/x13_diags.py`;
  - `Preprocess` models `utils/preprocess.py`.

Numerical library routines and outside services become function parameters (oracles):

- the real DFT basis `U`;
- the autoregressive extension (`aryule`/`lfilter`);
- `np.percentile`, `np.median`, `median_abs_deviation` and `np.log`;
- the X13 seasonal adjustment;
- `pd.to_datetime` parsing;
- the file-system check and the HTTP download.

Each state-changing loop of the source is a `method` proved equal to a specification function. The properties the source promises are lemmas about those functions.

The code is what the model follows. Where the code differs from what its own messages or documentation say, the model follows the code:

- **Window check in `pycissa.cissa` (pycissa.py:662):** the code raises only when `L > T-L+1`, so `L = T-L+1` is accepted. `models/cissa.py:190` raises on `L >= T-L+1`.
- **Window check in `get_cissa` (CiSSA.py:113):** the message speaks of `T/2`, but the test compares `L >= T`.
- **`min_k` start value:** `build_groupings` starts `min_k` at 10^9 in pycissa.py:26 and at `L` in models/cissa.py:30.
- **Never-raised exception:** the `X13Error` built at x13_diags.py:69 is never raised, so a failed span fit is simply skipped.

## Model

| member | source | states |
|---|---|---|
| DiagonalAverager.Oriented | CiSSA/pycissa.py:171-173 | the matrix is realigned so that it has min(rows, cols) rows and max(rows, cols) columns |
| DiagonalAverager.WorkerBoundsExact | CiSSA/pycissa.py:216-225 | for 0 ≤ t < T the bounds are (max(1, t+2-N), min(L, t+1)); they span min(t+1, L, T-t) terms, the length of anti-diagonal t |
| DiagonalAverager.AntiDiagonalTermAt | CiSSA/pycissa.py:226-233 | term m of anti-diagonal t is Y[m-1][t-m] divided by the number of terms on that diagonal |
| DiagonalAverager.DiagaverAt | CiSSA/pycissa.py:171-190 | entry t of the pooled result is the worker's average over anti-diagonal t of the realigned matrix |
| DiagonalAverager.AccumulateAntiDiagonal | CiSSA/pycissa.py:126-128 | adds the averaged anti-diagonal terms to y[t-1] and leaves every other entry of the array unchanged |
| DiagonalAverager.DiagaverSingleThread | CiSSA/pycissa.py:55-130 | the single-threaded nested loop returns exactly the pooled diagonal average, so the two implementations agree |
| SeriesExtender.ExtendErrors | CiSSA/pycissa.py:278-283 | extension fails iff H is not an int (TypeError) or x is not a single column (ValueError) |
| SeriesExtender.ExtendNoneAndMirror | CiSSA/pycissa.py:297-301 | H = 0 returns x unchanged; H = T returns reversed x, x, reversed x (length 3T) |
| SeriesExtender.ExtendKeepsSeries | CiSSA/pycissa.py:237-328 | for every H ≥ 0 extension succeeds, has length T+2H and keeps x at positions H..H+T-1 |
| Decomposer.AsColumn | CiSSA/pycissa.py:657-658 | a one-row input becomes a column holding the same values; any other input is unchanged |
| Decomposer.FrequencyCount | CiSSA/pycissa.py:677-684 | nft = L/2+1 and nf2 = (L-1)/2, and the zero frequency, the nf2 pairs and (for even L) the Nyquist frequency count each of the L frequencies once |
| Decomposer.Trajectory | CiSSA/pycissa.py:696-698 | the Hankel trajectory matrix is L × (T-L+1) with X[i][j] = xe[i+j] |
| Decomposer.TrajectoryRoundTrip | CiSSA/pycissa.py:696-698 | diagonal averaging of the trajectory matrix gives back the extended series |
| Decomposer.Gam | CiSSA/pycissa.py:710-712 | gam has L entries, entry k being the lag-k sample autocovariance |
| Decomposer.VarianceNonNegative | CiSSA/pycissa.py:710-712 | the lag-0 autocovariance is never negative |
| Decomposer.PearlSymmetric | CiSSA/pycissa.py:725 | the Pearl circulant entry for lag k equals the one for lag L-k |
| Decomposer.CirculantMatrix | CiSSA/pycissa.py:718-726 | C is symmetric, has gam[0] on its diagonal and the Pearl entry elsewhere |
| Decomposer.CirculantRotation | CiSSA/pycissa.py:718-726 | C is circulant: C[i][j] depends only on (j-i) mod L |
| Decomposer.CovarianceMatrices | CiSSA/pycissa.py:718-726 | the double loop fills S with gam[abs(i-j)] (Toeplitz) and C with the circulant entries, on fresh L × L arrays |
| Decomposer.Psd | CiSSA/pycissa.py:756 | psd[k] is the absolute value of u_kᵀ C u_k, hence non-negative |
| Decomposer.PrincipalComponents | CiSSA/pycissa.py:759 | W = Uᵀ X entry by entry |
| Decomposer.Outer | CiSSA/pycissa.py:772 | the elementary matrix is the outer product u_k w_k |
| Decomposer.ElementaryReconstructions | CiSSA/pycissa.py:769-774 | R has one column per basis vector, each the diagonal average of its elementary matrix, of length T+2H |
| Decomposer.ElementarySeries | CiSSA/pycissa.py:769-774 | the loop returns the same columns whether the pooled or the single-threaded averager is chosen |
| Decomposer.Paired | CiSSA/pycissa.py:782-788 | Z has L/2+1 columns, each the sum of the two columns of a frequency pair (one column for frequency 0 and the Nyquist frequency) |
| Decomposer.PairByFrequency | CiSSA/pycissa.py:782-788 | the pairing loop computes exactly Paired(R) |
| Decomposer.PairingRowSums | CiSSA/pycissa.py:782-788 | pairing preserves each row sum: Σ row t of Z = Σ row t of R |
| Decomposer.Trimmed | CiSSA/pycissa.py:790-791 | removes H rows at both ends: Zt[f][t] = Z[f][t+H] |
| Decomposer.Extended | CiSSA/pycissa.py:693 | the extended series has length T+2h and contains x at positions h..h+T-1 |
| Decomposer.Spectrum | CiSSA/pycissa.py:756 | the spectrum has L non-negative entries |
| Decomposer.CissaOf | CiSSA/pycissa.py:660-797 | ValueError iff L > T-L+1; success iff 1 ≤ L and 2L ≤ T+1; on success Z is (L/2+1) × T and psd has L non-negative entries |
| Decomposer.Cissa | CiSSA/pycissa.py:578-797 | TypeError when H or L is not a Python int; otherwise error iff the window is too long, x is not a column, or L < 1, with the matching kind; on success the result is the trimmed paired components and the spectrum of the column |
| Completeness.ProjectBack | CiSSA/pycissa.py:759 | for an orthonormal basis, projecting the principal components back recovers X |
| Completeness.ReconstructionsAddUp | CiSSA/pycissa.py:769-774 | the elementary reconstructions sum to the extended series at every time |
| Completeness.ExtendedComponentsAddUp | CiSSA/pycissa.py:782-788 | the paired components before trimming sum to xe[t+h] |
| Completeness.TrimmedRow | CiSSA/pycissa.py:790-791 | row t of the trimmed components is row t+h of the untrimmed ones |
| Completeness.ComponentsAddUp | CiSSA/pycissa.py:578-797 | for an orthonormal basis U, the frequency components returned by cissa add up to the original series at every time |
| Sorting.ArgSortDescending | CiSSA/pycissa.py:527 | the result is a permutation of 0..n-1 that lists positions in non-increasing order of their values |
| Sorting.DescendingAtGathered | CiSSA/pycissa.py:526-527 | the values read through a descending argsort are non-increasing |
| Sorting.SortedValues | CiSSA/pycissa.py:526 | np.sort(p)[::-1] is non-increasing and a permutation of p |
| Sorting.GatherPermutation | CiSSA/pycissa.py:526-527 | reading p through a permutation of 0..n-1 gives a permutation of p[..n] |
| Grouper.ClassifyCases | CiSSA/pycissa.py:430-443 | dict gives explicit groups; a positive whole number gives cadence; 0 < I < 1 gives cumulative share; -1 < I < 0 gives percentile; any other value or type gives ValueError |
| Grouper.FloatModZero | CiSSA/pycissa.py:449 | np.mod(L, I) is zero iff L/I is a whole number |
| Grouper.CheckDisjoint | CiSSA/pycissa.py:459-465 | the double loop accepts iff every two groups are disjoint |
| Grouper.Validate | CiSSA/pycissa.py:446-465 | accepts iff L is proportional to I (cadence) or the groups are no more than F and pairwise disjoint (explicit) |
| Grouper.PzzOfSpectrum | CiSSA/pycissa.py:474-480 | pzz has F entries: psd[0], doubled psd[k] for the pairs, and psd[F-1] undoubled for even L |
| Grouper.PzzTotal | CiSSA/pycissa.py:474-480 | for a symmetric psd, Σ pzz = Σ psd |
| Grouper.PairedSingletons | CiSSA/pycissa.py:474-480 | pzz is the frequency pairing of the decomposition applied to a symmetric psd |
| Grouper.Missing | CiSSA/pycissa.py:512 | exactly the k in 0..n-1 not yet used, in increasing order |
| Grouper.CollectIndices | CiSSA/pycissa.py:509-511 | the loop collects the truncated members of every group, in order |
| Grouper.FlattenMembers | CiSSA/pycissa.py:509-511 | k is collected iff it is the truncation of a member of some group |
| Grouper.Seasonality | CiSSA/pycissa.py:500 | floor(s/2) harmonics, each with (season_length·s)·v[j] = L·(j+1) |
| Grouper.CadenceNamed | CiSSA/pycissa.py:498-513 | groups named seasonality, long term cycle, trend and (with noise) noise, in that order; noise is every unused k < L/2 |
| Grouper.BuildCadence | CiSSA/pycissa.py:489-513 | the method builds exactly CadenceGroups |
| Grouper.CadenceSeasonality | CiSSA/pycissa.py:489-500 | on success the names come in the source's order and the seasonal harmonics are L·(j+1)/(season_length·s) |
| Grouper.CadenceCycleTrend | CiSSA/pycissa.py:503-505 | the cycle is a non-empty run of consecutive frequencies inside 0..F-2; the trend is every frequency below it |
| Grouper.CadenceNoise | CiSSA/pycissa.py:508-513 | noise holds exactly the k < L/2 in no other group |
| Grouper.CumSum | CiSSA/pycissa.py:529 | entry i is the sum of the first i+1 values |
| Grouper.CumSumMonotone | CiSSA/pycissa.py:529 | running totals of non-negative values never decrease |
| Grouper.ShareGroupPrefix | CiSSA/pycissa.py:526-531 | share mode succeeds iff some running total reaches p·Σpsd; the group is the shortest prefix of the descending order whose total reaches it |
| Grouper.LastRunningTotal | CiSSA/pycissa.py:529 | the last running total is Σ pzz |
| Grouper.ShareGroupExists | CiSSA/pycissa.py:526-531 | with non-negative values, 0 < S ≤ Σ pzz and p < 1, a group is always found |
| Grouper.ShareModeNeverFails | CiSSA/pycissa.py:474-531 | for a non-negative symmetric spectrum with positive total, share mode never runs off the end |
| Grouper.Above | CiSSA/pycissa.py:541 | exactly the positions below n whose value exceeds the threshold, in increasing order |
| Grouper.PercentileGroup | CiSSA/pycissa.py:538-541 | IndexError iff pzz does not have F entries; otherwise the members are exactly the k < F with pzz[k] above the percentile |
| Grouper.BuildGroups | CiSSA/pycissa.py:486-546 | the method builds exactly the groups of the selected mode |
| Grouper.Resolve | CiSSA/pycissa.py:560 | numpy integer indexing: defined iff every index is in [-n, n), negatives wrap around |
| Grouper.ResolveValid | CiSSA/pycissa.py:560 | indexing by the truncated members succeeds iff each member is a valid index |
| Grouper.OutputStepMeaning | CiSSA/pycissa.py:558-564 | one step appends the group's component and its share, or raises IndexError for an out-of-range member |
| Grouper.OutputsDefined | CiSSA/pycissa.py:556-564 | the outputs exist iff every group's members index both Z and pzz |
| Grouper.OutputsContents | CiSSA/pycissa.py:556-564 | rc[g] is the sum of Z's columns listed in group g and sh[g] is its share of pzz |
| Grouper.Outputs | CiSSA/pycissa.py:556-564 | the output loop computes exactly OutputsOf |
| Grouper.Group | CiSSA/pycissa.py:336-567 | the method computes exactly GroupSpec |
| Grouper.GroupValueErrors | CiSSA/pycissa.py:413-465 | ValueError iff psd is not one column, I has an invalid type or value, or the mode's checks fail |
| Grouper.GroupOutputs | CiSSA/pycissa.py:556-567 | on success there is one component and one share per group, with the values above |
| Grouper.GroupTotalsSum | CiSSA/pycissa.py:564 | the group totals add up to the sum of pzz over all listed positions |
| Grouper.PartitionTotal | CiSSA/pycissa.py:564 | when the groups use every position exactly once, the group totals add up to Σ pzz |
| Grouper.ComponentsPartition | CiSSA/pycissa.py:561 | when the groups partition the frequencies, the group components add up to row t of Z |
| Grouper.ShareValue | CiSSA/pycissa.py:564 | a share is 100 · Σ pzz[group] / Σ pzz, non-finite when Σ pzz = 0 |
| Grouper.SharesAt | CiSSA/pycissa.py:564 | each computed share equals the finite percentage of its group |
| Grouper.PercentagesAddUp | CiSSA/pycissa.py:564 | percentages of totals that sum to S add up to 100 |
| Grouper.SharesPartition | CiSSA/pycissa.py:556-564 | when the groups partition pzz, the shares add up to 100 |
| Groupings.Update | CiSSA/pycissa.py:31 | dict update: a new key is appended; an existing key keeps its place and gets the new value |
| Groupings.BandOf | CiSSA/pycissa.py:29-36 | equal bounds give the harmonics, unequal bounds give a non-empty cycle range; errors are ValueError or ZeroDivisionError only |
| Groupings.MinOf | CiSSA/pycissa.py:32 | the minimum is one of the values and no value is smaller |
| Groupings.BuildGroupings | CiSSA/pycissa.py:4-50 | the method builds exactly BuildSpec |
| Groupings.ScanBands | CiSSA/pycissa.py:27-36 | after the loop each range key holds the band of its bounds, in the order of the ranges |
| Groupings.ScanLowest | CiSSA/pycissa.py:26-36 | min_k ends as the smallest value held by any range, or its start value |
| Groupings.ScanOk | CiSSA/pycissa.py:27-36 | the loop succeeds when every range's band succeeds |
| Groupings.ScanFails | CiSSA/pycissa.py:27-36 | one failing range makes the loop fail |
| Groupings.ScanStops | CiSSA/pycissa.py:27-36 | after the first error the remaining ranges change nothing |
| Groupings.BuildRejectsDisproportion | CiSSA/pycissa.py:13-14 | L not proportional to s gives ValueError |
| Groupings.BuildSucceeds | CiSSA/pycissa.py:4-50 | success iff L is proportional to s (or s = 0) and every range gives a finite band |
| Groupings.BuildPrefix | CiSSA/pycissa.py:27-48 | the result is the bands, then trend, then (with noise) noise built from every held index |
| Groupings.BuildRanges | CiSSA/pycissa.py:27-36 | entry i of the result is range i's key with its band values |
| Groupings.BuildTrend | CiSSA/pycissa.py:39 | trend is 0..int(min_k)-1, where min_k is the least value held by a range |
| Groupings.BuildNoise | CiSSA/pycissa.py:42-48 | noise holds exactly the k < L/2 that no earlier group holds |
| OutlierCorrector.ParseRule | CiSSA/pycissa.py:941-953 | 'k', '<', '>' and '<>' with a pair select the matching rule; any other label gives ValueError |
| OutlierCorrector.ParseTolerance | CiSSA/pycissa.py:956-1009 | a length-2 list is needed; 'value', 'min' and 'med' select the tolerance; any other label leaves it unset |
| OutlierCorrector.ThresholdMask | CiSSA/pycissa.py:989-996 | flags exactly the values below l_t, above g_t, or outside [l_t, g_t] |
| OutlierCorrector.Theta | CiSSA/pycissa.py:962 | the filter is (1-B)(1-B^s): ones at both ends, -1 next to them (-2 when s = 1), zeros between |
| OutlierCorrector.SpikeMask | CiSSA/pycissa.py:977-988 | the 'k' rule fails iff the series is shorter than s+1; otherwise it gives one flag per value |
| OutlierCorrector.SpikeSparesHead | CiSSA/pycissa.py:987-988 | the first s+1 values are never flagged by the 'k' rule |
| OutlierCorrector.Mask | CiSSA/pycissa.py:977-996 | the threshold rules give ThresholdMask; all rules give one flag per value |
| OutlierCorrector.Kept | CiSSA/pycissa.py:1000 | exactly the unflagged values, empty iff every value is flagged |
| OutlierCorrector.Seed | CiSSA/pycissa.py:1012 | flagged values become the median, the rest are kept |
| OutlierCorrector.UpdateMasked | CiSSA/pycissa.py:1029 | flagged values take the reconstruction, the rest are kept |
| OutlierCorrector.MaxAbsDiff | CiSSA/pycissa.py:1017 | the largest absolute difference, attained at some position |
| OutlierCorrector.ToleranceValue | CiSSA/pycissa.py:1006-1009 | an unset tolerance is an error; a fixed one is its value |
| OutlierCorrector.Accumulate | CiSSA/pycissa.py:1021-1023 | summing the components succeeds iff every component has T values |
| OutlierCorrector.Inner | CiSSA/pycissa.py:1017-1029 | on success the last update moved no value by more than the tolerance |
| OutlierCorrector.InnerLoop | CiSSA/pycissa.py:1017-1029 | the while loop computes exactly Inner |
| OutlierCorrector.InnerKeepsUnflagged | CiSSA/pycissa.py:1017-1029 | the inner loop never changes an unflagged value |
| OutlierCorrector.PassStep | CiSSA/pycissa.py:976-1029 | one outer pass computes exactly Pass |
| OutlierCorrector.PassKeepsUnflagged | CiSSA/pycissa.py:976-1029 | a pass changes only values its mask flags |
| OutlierCorrector.OuterLoop | CiSSA/pycissa.py:972-1044 | the outer while loop computes exactly Outer from x |
| OutlierCorrector.OuterKeepsInliers | CiSSA/pycissa.py:972-1044 | under a threshold rule, a value the rule does not flag is never changed |
| OutlierCorrector.OuterPasses | CiSSA/pycissa.py:1033-1044 | from the first call (iter_i = 1): at most max(max_iter, 1) passes; when it gives up with max_iter ≥ 0 it has run exactly that many; it can only settle when max_iter ≥ 0 |
| OutlierCorrector.Lookup | CiSSA/pycissa.py:1052 | finds the component stored under the key, if any |
| OutlierCorrector.Subtract | CiSSA/pycissa.py:1052 | subtracts the component entry by entry; KeyError for a missing key, ValueError for a length mismatch |
| OutlierCorrector.RemoveMeaning | CiSSA/pycissa.py:1051-1052 | removal succeeds iff every key is present with T values; value i is x[i] minus the sum of the removed components at i |
| OutlierCorrector.RemoveStops | CiSSA/pycissa.py:1051-1052 | after the first failing key the remaining keys change nothing |
| OutlierCorrector.SubtractInPlace | CiSSA/pycissa.py:1052 | a[i] becomes old a[i] - v[i] for every i |
| OutlierCorrector.RemoveInPlace | CiSSA/pycissa.py:1051-1052 | the in-place loop fails exactly when Remove fails, and otherwise leaves Remove's result in the array |
| OutlierCorrector.Configure | CiSSA/pycissa.py:928-963 | a configuration exists only for s ≥ 1 and holds the parsed rule and tolerance |
| OutlierCorrector.CissaOutlier | CiSSA/pycissa.py:802-1054 | the method fails exactly as the specification does; on success x_ca and x_casa are the same fresh array holding the values of CissaOutlierSpec |
| OutlierCorrector.AsWrittenAliases | CiSSA/pycissa.py:1050-1052 | the code as written returns x_casa in place of x_ca, compared with the copying version |
| OutlierCorrector.AliasingExample | CiSSA/pycissa.py:1050-1052 | on x = [1, 2] with seasonality [1, 1] removed, the code returns x_ca = [0, 1] where [1, 2] is meant |
| OutlierCorrector.IntendedKeepsInliers | CiSSA/pycissa.py:802-1054 | with the copy, the corrected series keeps every value the threshold rule does not flag |
| OutlierCorrector.ExampleRun | CiSSA/pycissa.py:966-1054 | a two-point series with no outliers converges in one pass and has the seasonality removed |
| ModelsCissa.ExtendAsWritten | models/cissa.py:90-121 | LibraryError iff H is neither 0 nor T; otherwise the series is kept at positions H..H+T-1 |
| ModelsCissa.ExtendAgrees | models/cissa.py:101-105 | for H = 0 and H = T the copy agrees with pycissa's extend |
| ModelsCissa.CissaAsWritten | models/cissa.py:175-250 | ValueError iff L ≥ T-L+1; success iff 1 ≤ L, 2L ≤ T and H is 1 or 2 |
| ModelsCissa.DefaultModeFails | models/cissa.py:193-198 | with the default H = 0 the decomposition always fails |
| ModelsCissa.CissaIntended | models/cissa.py:175-250 | with a working extension: ValueError iff the window check fails, a failure inside numpy (as in CissaAsWritten) iff the extension length is negative, success iff 1 ≤ L and 2L ≤ T, with the shapes of pycissa |
| ModelsCissa.CissaAgrees | models/cissa.py:175-250 | whenever the code as written succeeds, it agrees with the intended version |
| ModelsCissa.CissaComponentsAddUp | models/cissa.py:200-250 | for an orthonormal basis the components add up to x |
| ModelsCissa.Cissa | models/cissa.py:175-250 | the method computes exactly CissaAsWritten; its diagonal averaging is DiagonalAverager.DiagaverSingleThread, because the copy of `diagaver_single_thread` at models/cissa.py:56-88 runs the same loop as pycissa.py:55-130 |
| ModelsCissa.CadenceArg | models/cissa.py:143-144 | only a positive int (or True) selects cadence mode |
| ModelsCissa.SeasonalIndices | models/cissa.py:146 | floor(s/2) seasonal indices |
| ModelsCissa.CadenceGroupsModels | models/cissa.py:143-157 | ZeroDivisionError for a zero period product, IndexError for an empty cycle, else success |
| ModelsCissa.CadenceAgrees | models/cissa.py:143-157 | the copy's cadence groups agree with pycissa's after truncation to int |
| ModelsCissa.PzzAgrees | models/cissa.py:161-164 | the sliced pzz equals pycissa's |
| ModelsCissa.GroupModels | models/cissa.py:123-173 | ValueError iff I is not a positive integer |
| ModelsCissa.Group | models/cissa.py:166-171 | the method, with its output loop, computes exactly GroupModels |
| ModelsCissa.GroupModelsContents | models/cissa.py:143-173 | the groups are seasonality, long term cycle, trend and noise with their index sets, and rc/sh are the group sums and shares |
| ModelsCissa.GetCissaAsWritten | models/cissa.py:268-274 | a rejected window gives ValueError |
| ModelsCissa.GetCissaAlwaysFails | models/cissa.py:252-281 | get_cissa as written never succeeds; with use_max_L and T ≥ 26 it fails in the extension |
| ModelsCissa.GetCissaIntended | models/cissa.py:268-274 | a rejected window gives ValueError |
| ModelsCissa.DefaultGroupsValid | models/cissa.py:278-279 | grouping with 12 data per year always succeeds on a spectrum of a multiple of 12 |
| ModelsCissa.GetCissaIntendedSucceeds | models/cissa.py:252-281 | with a working extension, get_cissa succeeds for every series of 26 or more points |
| ModelsCissa.BuildSpecModels | models/cissa.py:23-54 | s = 0 gives ZeroDivisionError; L not proportional to s gives ValueError |
| ModelsCissa.BuildGroupingsModels | models/cissa.py:9-54 | the method builds exactly BuildSpecModels |
| ModelsCissa.BuildModelsSucceeds | models/cissa.py:23-54 | success iff s ≠ 0, L is proportional to s and every range gives a band |
| ModelsCissa.ScanStart | models/cissa.py:30-45 | starting min_k at a instead of b only changes the final min_k, to min(a, the other result) |
| ModelsCissa.BuildModelsContents | models/cissa.py:33-52 | ranges keep their bands, trend is 0..min_k-1 and noise is every unused k < L/2 |
| ModelsCissa.BuildModelsNoise | models/cissa.py:49-52 | noise holds exactly the k < L/2 not held by an earlier group |
| ModelsCissa.BuildModelsAgrees | models/cissa.py:9-54 | the copy agrees with pycissa's build_groupings after truncation, except that trend stops at min(L, min_k) |
| CissaScript.MaxWindow | CiSSA/CiSSA.py:108-109 | the maximal window is a multiple of 12 with 2L ≤ T-2, and at least 12 when T ≥ 26 |
| CissaScript.GetWindow | CiSSA/CiSSA.py:108-114 | ValueError iff use_max_L is off and L is not a multiple of 12 or L ≥ T |
| CissaScript.GetCissa | CiSSA/CiSSA.py:100-121 | a rejected window gives ValueError |
| CissaScript.GetCissaIgnoresL | CiSSA/CiSSA.py:108-109 | with use_max_L the L argument has no effect |
| CissaScript.MaxWindowPassesCheck | CiSSA/CiSSA.py:108-117 | the maximal window never triggers cissa's window check, and cissa succeeds iff T ≥ 26 |
| CissaScript.DefaultCycleBounds | CiSSA/CiSSA.py:119 | with 12 data per year the long-term cycle is a non-empty range below L/2 |
| CissaScript.HarmonicIndex | CiSSA/CiSSA.py:119 | the j-th seasonal harmonic is the frequency (j+1)·L/s |
| CissaScript.CadenceTwelveGroups | CiSSA/CiSSA.py:119 | the cadence groups for s = 12 all index valid frequencies |
| CissaScript.GroupTwelve | CiSSA/CiSSA.py:119 | grouping with 12 data per year succeeds with the four named groups |
| CissaScript.GetCissaSucceeds | CiSSA/CiSSA.py:100-121 | with use_max_L, get_cissa succeeds iff T ≥ 26 and then returns four named groups; shorter series fail inside cissa |
| CissaScript.MonthNumber | CiSSA/CiSSA.py:90 | the i-th label maps to a month in 1..12 |
| CissaScript.MonthsDistinct | CiSSA/CiSSA.py:90 | the twelve labels get twelve different months, the first being June, the sixth January, the seventh December, the last July |
| CissaScript.MonthCodeDigits | CiSSA/CiSSA.py:90-91 | the string replacements turn 1001..1012 into the two-digit month |
| CissaScript.Unique | CiSSA/CiSSA.py:90 | the distinct labels, each once |
| CissaScript.Labelled | CiSSA/CiSSA.py:92-93 | KeyError iff a label beyond the twelfth is used; otherwise each row gets its year-month-01 date string |
| CissaScript.Parsed | CiSSA/CiSSA.py:94 | ValueError iff some date string does not parse |
| CissaScript.SortByDateCorrect | CiSSA/CiSSA.py:97 | sort_index gives rows sorted by date and a permutation of the input |
| CissaScript.DateToIndexKeyError | CiSSA/CiSSA.py:84-98 | KeyError iff there are more than 12 distinct quarter labels |
| CissaScript.DateToIndexResult | CiSSA/CiSSA.py:84-98 | on success the rows are sorted by date and are exactly the input rows, each under its parsed date |
| CissaScript.DateToIndexRows | CiSSA/CiSSA.py:84-98 | on success every label is one of at most 12, every built date string parses, and the result is the dated rows sorted by date (rows with equal dates in input order, see Left out) |
| X13Diags.FirstParse | diagnostics/x13_diags.py:25-31 | ValueError iff no format parses; otherwise the result comes from a format that parses |
| X13Diags.FirstParseWins | diagnostics/x13_diags.py:25-27 | the first format that parses decides the date |
| X13Diags.CheckFormat | diagnostics/x13_diags.py:20-31 | a timestamp is returned unchanged; text fails iff none of the three formats parses |
| X13Diags.CheckFormatOrder | diagnostics/x13_diags.py:23 | the formats are tried in the order %Y-%m-%d, %Y%m%d, %Y/%m/%d |
| X13Diags.PyRange | diagnostics/x13_diags.py:48 | Python range: ValueError iff step = 0; otherwise start, start+step, … strictly before stop |
| X13Diags.Spans | diagnostics/x13_diags.py:47-52 | ValueError iff sliding_len = 0; every span lies inside the series |
| X13Diags.SpanMissesEnd | diagnostics/x13_diags.py:47-52 | with sliding_len > 0 no forward span covers the last date and no inverse span the first |
| X13Diags.ColumnsMissEnd | diagnostics/x13_diags.py:44-72 | with sliding_len > 0 every column of the fitted frame is NA at the last date (forward) or the first (inverse) |
| X13Diags.SlidingFrameUncovered | diagnostics/x13_diags.py:44-81 | with sliding_len > 0 every column of the fitted frame holds NA (so it is a column of objects) and one whole row is NA, whose minimum is NA |
| X13Diags.ForwardSpans | diagnostics/x13_diags.py:48-49 | span k is [k·s, k·s+span_len) for every start k·s < n-span_len, and no start is missed |
| X13Diags.InverseSpans | diagnostics/x13_diags.py:51-52 | span k is [n-k·s-span_len, n-k·s) for every end n-k·s > span_len, and no end is missed |
| X13Diags.Fitted | diagnostics/x13_diags.py:56-69 | exactly the spans whose fit succeeds, in order |
| X13Diags.SpanColumnsFitted | diagnostics/x13_diags.py:56-69 | one column per successful fit, aligned on the series index; failed fits are skipped |
| X13Diags.FitSpans | diagnostics/x13_diags.py:44-73 | ValueError for sliding_len = 0, X13Error otherwise; on success the frame is indexed by the series and has at least 2 columns |
| X13Diags.FitSpansColumns | diagnostics/x13_diags.py:56-72 | success iff the series is non-empty and at least two spans fit; the columns are the aligned fits |
| X13Diags.SeriesMax | diagnostics/x13_diags.py:79-81 | NA iff at most one value is present; otherwise the largest present value |
| X13Diags.SeriesMin | diagnostics/x13_diags.py:75-77 | NA iff at most one value is present; otherwise the smallest present value |
| X13Diags.Table | diagnostics/x13_diags.py:89-90 | one row per present metric in index order, success meaning metric < threshold |
| X13Diags.RelativeSpread | diagnostics/x13_diags.py:88 | (max - min) / min, NA when fewer than two values |
| X13Diags.Spread | diagnostics/x13_diags.py:103 | max - min ≥ 0, NA when fewer than two values |
| X13Diags.ATable | diagnostics/x13_diags.py:83-94 | ZeroDivisionError iff some row's minimum is 0 |
| X13Diags.ATableRows | diagnostics/x13_diags.py:86-90 | rows are the dates with two or more values, metric the relative spread, success metric < threshold |
| X13Diags.RatioCell | diagnostics/x13_diags.py:99 | present iff both neighbours are present; ratio · previous = current |
| X13Diags.ShiftRatio | diagnostics/x13_diags.py:99 | ZeroDivisionError iff a divisor is 0; otherwise same shape |
| X13Diags.MMTable | diagnostics/x13_diags.py:96-109 | ZeroDivisionError iff some period-on-period divisor is 0 |
| X13Diags.MMTableRows | diagnostics/x13_diags.py:99-105 | rows are the dates with two or more ratios, metric the ratio spread, success metric < threshold |
| X13Diags.Fraction | diagnostics/x13_diags.py:112-113 | finite iff there are rows; then in [0, 1] and equal to successes / rows |
| X13Diags.AllSucceed | diagnostics/x13_diags.py:112 | the count of successes equals the row count iff every row succeeds |
| X13Diags.SlidingSpans.constructor | diagnostics/x13_diags.py:36-42 | stores the model and lengths; every table is unset |
| X13Diags.SlidingSpans.Fit | diagnostics/x13_diags.py:44-73 | stores A exactly when FitSpans succeeds, with the same error otherwise and A unchanged |
| X13Diags.SlidingSpans.ARatio | diagnostics/x13_diags.py:83-94 | Exception before a fit or on an empty frame; otherwise ATable, stored on success |
| X13Diags.SlidingSpans.MMRatio | diagnostics/x13_diags.py:96-109 | Exception before a fit or on an empty frame; otherwise MMTable, stored on success |
| X13Diags.SlidingSpans.Predict | diagnostics/x13_diags.py:111-114 | TypeError while a table is missing; otherwise both success fractions, stored |
| X13Diags.RevisionsFitted | diagnostics/x13_diags.py:126-140 | the fitted prefixes are exactly those of length ≥ 4 whose fit succeeds |
| X13Diags.RevisionColumnsFitted | diagnostics/x13_diags.py:126-140 | one column per fitted prefix, dated by its last date |
| X13Diags.RevisionFrame | diagnostics/x13_diags.py:141-143 | X13Error unless the series is non-empty and at least two prefixes fit |
| X13Diags.RevisionColumnComplete | diagnostics/x13_diags.py:126-143 | a revision column has no NA iff it is the whole-series adjustment and that adjustment covers every date |
| X13Diags.FloatDivide | diagnostics/x13_diags.py:144 | float64 division: a number iff the divisor is not 0, and then quotient · divisor = dividend; NaN iff 0/0; otherwise an infinity of the dividend's sign |
| X13Diags.FloatSubtract | diagnostics/x13_diags.py:164 | float subtraction: a number iff both are, and then b + (a - b) = a; NaN iff a NaN or two infinities of the same sign meet; otherwise the infinity that dominates |
| X13Diags.ChangeCell | diagnostics/x13_diags.py:144 | present iff both neighbours are and not both 0; finite iff the previous value is not 0, and then previous · (1 + change) = current; otherwise an infinity of the sign of current (float64 column) |
| X13Diags.KeptRows | diagnostics/x13_diags.py:144 | exactly the rows with at least one change, in order |
| X13Diags.Changes | diagnostics/x13_diags.py:144 | ZeroDivisionError iff a column holding NA has a 0 divisor under a present value; otherwise the change table (NaN turned into NA) without all-NA rows |
| X13Diags.FindDate | diagnostics/x13_diags.py:152 | the position of the date among the columns, if any |
| X13Diags.Lookup | diagnostics/x13_diags.py:149-157 | ValueError for an unparsable date or a day other than 1, TypeError before a fit, KeyError for a missing column; otherwise that column |
| X13Diags.RelativeChange | diagnostics/x13_diags.py:161 | ZeroDivisionError iff a column holds NA and some initial value is 0 where the final value is present; otherwise present iff both are, finite iff the initial value is not 0, NaN iff both are 0 |
| X13Diags.RelativeChangeInverse | diagnostics/x13_diags.py:161 | init · (1 + change) = final wherever the change is a number |
| X13Diags.RelativeChangeGrows | diagnostics/x13_diags.py:161 | a defined relative change grows every initial value into the final one, cell by cell |
| X13Diags.Difference | diagnostics/x13_diags.py:164 | present iff both are; a number iff both are numbers, and then init + difference = final |
| X13Diags.RevisionHistory.constructor | diagnostics/x13_diags.py:117-121 | stores the model; A, C and T are unset |
| X13Diags.RevisionHistory.Fit | diagnostics/x13_diags.py:123-147 | X13Error leaves everything unchanged; otherwise A is stored first, so a ZeroDivisionError in C (a zero divisor in a column holding NA) leaves the new A beside the old C and T; on success C and T are set |
| X13Diags.RevisionHistory.AChange | diagnostics/x13_diags.py:159-161 | the initial column is looked up first and its error wins; ZeroDivisionError exactly as RelativeChange; on success final = init · (1 + change) wherever the change is a number |
| X13Diags.RevisionHistory.CChange | diagnostics/x13_diags.py:163-164 | the final column is looked up first; the difference is a number iff both changes are, and then init + difference = final |
| X13Diags.RevisionHistory.RValue | diagnostics/x13_diags.py:166-167 | the last entry of A_change(T, t); IndexError when it is empty |
| X13Diags.RValueRevision | diagnostics/x13_diags.py:166-167 | the R value is the relative revision from the estimate at t to the final estimate at the last date |
| X13Diags.RValueSelf | diagnostics/x13_diags.py:159-167 | R_value(T) on a complete last column never raises: it is 0, or NaN when the last adjustment is 0 |
| Preprocess.ParseEstado | utils/preprocess.py:82-84 | only 'desocupado' and 'ocupado' are accepted; anything else is ValueError |
| Preprocess.StrataPartition | utils/preprocess.py:85-88 | each respondent falls in exactly one of the four age-sex strata |
| Preprocess.StratumSums | utils/preprocess.py:91-94 | the periods summed are exactly those with a respondent in the stratum |
| Preprocess.StratumSumsTotal | utils/preprocess.py:91-94 | the sum stored for a period is the weighted total of its respondents in the stratum |
| Preprocess.NivelEstratificado | utils/preprocess.py:78-95 | ValueError iff estado is not one of the two; otherwise four named stratum totals |
| Preprocess.NivelNames | utils/preprocess.py:91-94 | the series are named by the first letter of estado followed by h15, m15, h25, m25 |
| Preprocess.FilePeriods | utils/preprocess.py:40-44 | strictly increasing, exactly the periods of counted respondents |
| Preprocess.FileLevelsPeriods | utils/preprocess.py:40-44 | one row per counted period, in increasing order |
| Preprocess.FileLevelsCell | utils/preprocess.py:40-44 | a cell is present iff the stratum has a respondent that period, and then holds its total |
| Preprocess.SortRows | utils/preprocess.py:47 | sort_index gives sorted rows that are a permutation of the input |
| Preprocess.MeanCell | utils/preprocess.py:49 | the mean over the present values of a period, NaN when none |
| Preprocess.CollapsePeriods | utils/preprocess.py:48-49 | groupby(...).mean() gives one row per period, in increasing order |
| Preprocess.CollapseKeepsDistinct | utils/preprocess.py:49 | a period with a single row keeps its values |
| Preprocess.DaysInMonth | utils/preprocess.py:98 | monthrange's day count, 28..31, February 29 exactly in leap years |
| Preprocess.YearLength | utils/preprocess.py:98 | the months add up to 365 or 366 days |
| Preprocess.MonthDays | utils/preprocess.py:98 | ValueError iff the month is outside 1..12 |
| Preprocess.DaysColumn | utils/preprocess.py:98 | the dias_mes column; ValueError iff some month is invalid |
| Preprocess.Smoothed | utils/preprocess.py:99-103 | the day-weighted mean of periods t-1, t and t+1, present iff all three are |
| Preprocess.KeptRows | utils/preprocess.py:105 | exactly the rows that are not all NaN, in order |
| Preprocess.MovingAverage | utils/preprocess.py:97-105 | ValueError iff some month is invalid |
| Preprocess.MovingAverageRows | utils/preprocess.py:97-105 | the result is the smoothed rows that are not all NaN, in order, at interior positions |
| Preprocess.LevelFrame.constructor | utils/preprocess.py:97 | a level frame without a dias_mes column |
| Preprocess.TrimestreMovil | utils/preprocess.py:97-105 | returns MovingAverage and, on success, leaves the dias_mes column in the frame |
| Preprocess.Rate | utils/preprocess.py:65-67 | finite iff the divisor is non-zero, and then rate · b = 100 · a |
| Preprocess.TotalsConsistent | utils/preprocess.py:51-62 | d = dh + dm, o = oh + om, fh = dh + oh, fm = dm + om, ft = fh + fm = d + o |
| Preprocess.RateIsPercentage | utils/preprocess.py:65-67 | for 0 ≤ a ≤ b, the rate lies in [0, 100] |
| Preprocess.TotalRateBetween | utils/preprocess.py:65-67 | the total unemployment rate lies between the men's and the women's rates |
| Preprocess.GroupbyCaeTable | utils/preprocess.py:21-67 | ValueError for a tipo other than anual or mensual; no files give no table |
| Preprocess.GroupbyCae | utils/preprocess.py:21-67 | the method computes exactly GroupbyCaeTable |
| Preprocess.ConcatenatedSound | utils/preprocess.py:34-45 | every concatenated row's period has a counted respondent in some file |
| Preprocess.ConcatenatedComplete | utils/preprocess.py:34-45 | every counted respondent's period appears in the concatenation |
| Preprocess.LevelTablePeriods | utils/preprocess.py:47-49 | sorting and averaging keep exactly the periods of the concatenation |
| Preprocess.GroupbyCaeFails | utils/preprocess.py:21-67 | fails iff some survey month is outside 1..12; otherwise a table is produced |
| Preprocess.MovingAverageOrder | utils/preprocess.py:97-105 | the moving quarter keeps the row order |
| Preprocess.GroupbyCaeChronological | utils/preprocess.py:47-67 | the rate table is in chronological order, strictly so for monthly files |
| Preprocess.AddMonths | utils/preprocess.py:120 | adding i months moves the month index by exactly i |
| Preprocess.MonthIndexInjective | utils/preprocess.py:120 | different months have different indices |
| Preprocess.StartMonth | utils/preprocess.py:108-114 | January 2010 without an output file; otherwise the last stored month, ValueError outside the Timestamp range |
| Preprocess.TrimMovilCodes | utils/preprocess.py:115 | each month's code is the initials of the previous, the same and the next month |
| Preprocess.FileName | utils/preprocess.py:122 | the file name is ene-…-….csv |
| Preprocess.FileNameInjective | utils/preprocess.py:122 | different months get different file names |
| Preprocess.Url | utils/preprocess.py:125 | the download URL ends with the file name |
| Preprocess.ScheduleStop | utils/preprocess.py:117-138 | the loop stops at the first missing month whose download fails |
| Preprocess.ScheduleWritten | utils/preprocess.py:117-138 | every written month was missing, downloaded successfully and precedes the stop, in increasing order |
| Preprocess.ScheduleComplete | utils/preprocess.py:117-138 | every missing month between the start and the stop is written |
| Preprocess.NuevosDatos | utils/preprocess.py:107-138 | fails iff the start month fails; otherwise it runs the schedule from the month after the start |

## Left out

- The AR extension (`aryule`/`lfilter`) is a parameter `ar`. `SeriesExtender.ArExtensionShape` only requires it to keep x in the middle at the right length.
- The DFT basis `U` is a parameter.
  - Only the shapes are required of it.
  - Orthonormality is assumed only where completeness is proved (the `Completeness` module).
  - The complex arithmetic that builds it (pycissa.py:732-750) is not modelled.
- `np.percentile`, `np.median`, `median_abs_deviation`, `np.log` and the X13 and STL fits are oracles.
- Floating-point rounding and `round(3)` are not modelled. NaN and inf are modelled only where a zero divisor can produce them: the `Float` values of a RevisionHistory change table.
- X13Diags.ATable, X13Diags.ShiftRatio and X13Diags.MMTable use the arithmetic of columns of objects, where a zero divisor raises. For sliding_len > 0 every column holds NA, so this is what the code does (X13Diags.SlidingFrameUncovered). With a negative sliding_len one span can cover the whole series; its float64 column would give inf instead of raising, and that case is not modelled.
- The multiprocessing pool of `diagaver` (pycissa.py:134-190) is modelled by the function it computes, not by its processes.
- `print`, `logging` and warnings are left out.
- CSV reading and writing, `os.makedirs` and the HTTP requests are left out. File presence and responses are function parameters.
- The merge of a monthly run with the previous output file (preprocess.py:70-76) is left out: it reads a file whose content is outside the model.
- `groupby_cae` reads only the listed columns, so `fact_cal` is never among them and every respondent weighs 1. `Preprocess.Weight` covers both cases.
- The `ENE` constructor's directory set-up (preprocess.py:13-19) is left out.
- `plot_cissa`, `diagnostics/outlier.py`, `utils/diagnose.py`, the STL and X13 model wrappers and the plotting scripts are not part of this model.
- OutlierCorrector.Inner: the inner `while` of `cissa_outlier` has no bound in the source. It runs on a `fuel` argument, and running out is reported as `OutOfFuel`, which the source cannot produce.
- OutlierCorrector.ParseRule requires numeric thresholds (`NumericArgs`). A non-numeric threshold, which Python would reject only when comparing, is not modelled.
- OutlierCorrector.ParseTolerance requires `NumericArgs` for the same reason.
- OutlierCorrector.Configure requires `NumericArgs` for the same reason.
- OutlierCorrector.CissaOutlier requires `NumericArgs` for the same reason.
- OutlierCorrector.CissaOutlier does not model the type checks on H and L or the reshape of x (pycissa.py:915-926). The series is already a column of reals.
- OutlierCorrector.Accumulate does not model numpy's broadcasting of a length-1 component.
- Groupings.BuildSpec does not model the `include_noise = False` case with an infinite band array: the source returns the array of infinities, and the model reports OverflowError instead.
- Groupings.BuildSucceeds and the lemmas about trend and noise assume that no range is itself named `trend` or `noise`.
- Sorting.ArgSortDescending fixes one order for equal values: ties are ordered by increasing position. `np.argsort` makes no promise about ties, so when the cumulative-share threshold falls inside a run of equal values, the model's group is one of the groups the code may return, not necessarily the one it returns.
- CissaScript.SortByDate keeps rows with equal dates in their input order. `sort_index` uses quicksort, which is not stable, so when two rows share a date the model's order is one of the orders the code may return, not necessarily the one it returns.
- ModelsCissa.GetCissaIntended and CissaScript.GetCissa give the series to `cissa` as a plain column and do not model the pandas-to-numpy conversion.

## Findings

| source | as written | input that shows it | evidently intended | confidence | as-written member | corrected member |
|---|---|---|---|---|---|---|
| CiSSA/pycissa.py:1050-1052 | `x_casa = x_ca` binds the same array, so `x_casa -= rc[k]` also changes the returned `x_ca` | x = [1, 2], rule '<' 0, tolerance 1, s = 1, removing a seasonality of [1, 1]: `x_ca` comes back as [0, 1] instead of [1, 2] | `x_casa = x_ca.copy()`, so `x_ca` is the corrected series and `x_casa` the same series with the components removed | not executed | OutlierCorrector.AliasingExample | OutlierCorrector.IntendedKeepsInliers |
| models/cissa.py:114 | `np.concatenate([0], np.cumsum(dy))` passes the cumulative sum as the `axis` argument, which numpy rejects (also line 119) | any series with the default H = 0, which selects the AR extension with H = L; e.g. `get_cissa` on a 26-point series | `np.concatenate([[0], np.cumsum(dy)])`, as in pycissa.py | not executed | ModelsCissa.GetCissaAlwaysFails | ModelsCissa.GetCissaIntendedSucceeds |
