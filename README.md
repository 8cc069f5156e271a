# libownaura signal-processing core, modelled in Dafny

libownaura turns loudspeaker-array room simulations into calibrated
listening filters. This project models the exact, non-numerical skeleton of
that processing on exact reals, with the numerical library results (FFTs,
filter design, transcendental functions) as parameters or given inputs:

- **Calibration applier** (`ApplyCalibration`). Every channel of a filter
  bank is convolved with the calibration impulse response. Each channel is
  then cut by `n` leading samples, or delayed by `-n` leading zeros. The
  model also covers the percentage of energy cut.
- **Selection helpers** (`Utils`):
  - `find_nearest`: the first closest element and its index.
  - `time_align`: the lag that maximises the full cross-correlation
    (earliest on ties, restricted to a time range), then a delay of the
    lagging signal and zero padding of the other.
- **Compensation filter skeleton** (`CompensationFilter`):
  - the causal weight and mask of the constrained Wiener filter;
  - the corner frequencies of `generate_bands_for_firls`;
  - the 64-channel sum of loudspeaker-response convolutions;
  - the `numpy.split` of the calibration gain at the bins nearest to the
    band edges;
  - the rewrite of the band-centre end points for `firwin2`;
  - the padding block before the delay estimate;
  - the odd length of the target FIR filter.
- **Sound pressure** (`SoundPressure`):
  - the single-sided amplitude spectrum: normalisation by the sample count,
    then doubling of every bin except DC and, for an even count, Nyquist;
  - the conversion of a headset recording: a calibrator gain applied in
    place, then the headset-to-microphone FIR filter.
- **Measurement** (`Measurement`):
  - the bin-by-bin guards of `transfer_function`: zero reference bins
    become eps, measured bins whose gain exceeds 1e9 are zeroed with a
    warning, the `reg_lim_dB` floor, and the regularised division, which
    can be non-finite as in numpy;
  - the sample layout of `exponential_sweep`: sample count, default band,
    asserts, Hann fades written over both ends, and trailing silence.

`Signals` holds the shared vocabulary: `Result` for a raised error, Python's
half-to-even rounding, truncation toward zero, `numpy.convolve`,
`lfilter(b, 1, x)`, and first-occurrence argmin/argmax. `ComplexArith`
holds exact complex numbers and numpy's IEEE-style division.

Some details of the code are easy to misread, and the model keeps them
as written:
- the sweep is faded whenever `tfade` is non-zero, negative values
  included, because the test is `if tfade:`
  (measure_avil_impulse_responses.py:190). A negative fade raises in the
  window constructor;
- the band checks are `assert` statements
  (measure_avil_impulse_responses.py:174-175), so they raise
  `AssertionError`;
- the target filter length truncates `target_delay * fs` with `int()`
  instead of rounding it (compute_calibration_filter.py:122);
- the gain guard zeroes the measured bin `Y[k]` before the division
  (measure_avil_impulse_responses.py:73), instead of zeroing the gain
  afterwards.

## Model

| member | source | states |
|---|---|---|
| Signals.RoundHalfEven | libownaura/libownaura/measure_avil_impulse_responses.py:167 | the rounded value lies within 1/2 of x, and a tie goes to the even integer |
| Signals.TruncateTowardZero | libownaura/libownaura/compute_calibration_filter.py:122 | `int()` of a float: the largest integer not above x for x >= 0, the smallest not below x for x < 0 |
| Signals.ZeroPadTo | libownaura/libownaura/utils.py:34 | the padded signal keeps the samples, has the longer of the two lengths, and is zero past the original |
| Signals.Conv | libownaura/libownaura/apply_calibration.py:24 | a full convolution has len(a) + len(b) - 1 samples |
| Signals.ConvWithUnitImpulse | libownaura/libownaura/apply_calibration.py:24 | convolving with [1] returns the signal |
| Signals.Fir | libownaura/libownaura/recordings_to_sound_pressure.py:119 | `lfilter(b, 1, x)`: the causal FIR response, as long as x, whose sample k sums b[j]·x[k - j] over j <= min(k, len(b) - 1); FirIsTruncatedConv ties it to the full convolution |
| Signals.FirIsTruncatedConv | libownaura/libownaura/recordings_to_sound_pressure.py:119 | `lfilter(b, 1, x)` equals the first len(x) samples of the full convolution |
| Signals.FirCommutesWithGain | libownaura/libownaura/recordings_to_sound_pressure.py:118-119 | a gain applied before the FIR filter equals the same gain applied after it |
| Signals.PrefixEnergyBounded | libownaura/libownaura/apply_calibration.py:28-29 | cutting samples off a channel never adds energy |
| Signals.ArgMin | libownaura/libownaura/utils.py:78 | the index holds a minimum and every earlier index is strictly larger |
| Signals.ArgMax | libownaura/libownaura/utils.py:29 | the index holds a maximum and every earlier index is strictly smaller |
| ApplyCalibration.Calibrated | libownaura/libownaura/apply_calibration.py:13-36 | the value apply_calibration returns: the numpy empty-operand error, or every channel convolved with h and then shifted by n; CalibratedShape, ChannelsDoNotMix and UnitCalibrationIsIdentity state its properties |
| ApplyCalibration.ApplyCalibration | libownaura/libownaura/apply_calibration.py:13-36 | the result is the per-channel convolution then shift, or the error numpy raises for empty inputs |
| ApplyCalibration.FillConvolved | libownaura/libownaura/apply_calibration.py:22-24 | the fresh buffer of width len(h) + nsample - 1 holds the convolution of every row with h |
| ApplyCalibration.ShiftColumns | libownaura/libownaura/apply_calibration.py:27-32 | every channel is cut by n samples, padded by -n zeros, or kept, as the sign of n says |
| ApplyCalibration.PadColumns | libownaura/libownaura/apply_calibration.py:31-32 | np.pad puts m zero columns in front of every channel |
| ApplyCalibration.CalibratedShape | libownaura/libownaura/apply_calibration.py:22-32 | the call succeeds exactly when numpy does not raise, and then gives one row per channel of length len(h) + nsample - 1 - n (at least 0) |
| ApplyCalibration.ShiftCutsOrPads | libownaura/libownaura/apply_calibration.py:27-32 | a positive shift drops the first n samples (all of them when n is too large); a negative one prepends -n zeros before the untouched row |
| ApplyCalibration.ChannelsDoNotMix | libownaura/libownaura/apply_calibration.py:23-24 | output channel i depends only on input channel i and on h |
| ApplyCalibration.UnitCalibrationIsIdentity | libownaura/libownaura/apply_calibration.py:13-36 | the unit impulse with shift 0 returns the filter bank unchanged |
| ApplyCalibration.PadThenCutRestores | libownaura/libownaura/apply_calibration.py:27-32 | padding by m and then cutting m samples restores a channel |
| ApplyCalibration.LeadingEnergyBounded | libownaura/libownaura/apply_calibration.py:28-29 | the first n columns hold no more energy than the whole filter bank |
| ApplyCalibration.CutEnergyPercent | libownaura/libownaura/apply_calibration.py:29 | the reported share of energy cut lies between 0 and 100 % |
| Utils.FindNearest | libownaura/libownaura/utils.py:76-79 | returns the first index whose element is closest to the value, and that element; raises on an empty array |
| Utils.FindNearestExactHit | libownaura/libownaura/utils.py:76-79 | a value present in the array is found at its first occurrence |
| Utils.Lags | libownaura/libownaura/utils.py:21 | the lag axis is the 2n - 1 integers 1 - n .. n - 1 in order |
| Utils.KeepInRange | libownaura/libownaura/utils.py:23-26 | the mask keeps exactly the lags whose time lies in the search range |
| Utils.KeepInRangeIncreasing | libownaura/libownaura/utils.py:23-26 | masking keeps the lags in increasing order |
| Utils.Candidates | libownaura/libownaura/utils.py:21-26 | the candidate lags are increasing |
| Utils.CandidateLags | libownaura/libownaura/utils.py:21-26 | a lag is a candidate if and only if it lies in 1 - n .. n - 1 and its time lies in the range |
| Utils.Corr | libownaura/libownaura/utils.py:18 | `correlate(y, x, "full")` at one lag: the sum of y[m + lag]·x[m] over the m where both samples exist; ChosenLagIsFirstMaximum states the lag time_align picks by it |
| Utils.ChosenLag | libownaura/libownaura/utils.py:29 | the chosen lag is a candidate with maximal correlation, and every earlier candidate correlates strictly less |
| Utils.ChosenLagIsFirstMaximum | libownaura/libownaura/utils.py:18-29 | no admissible lag correlates more than the chosen one, and an earlier lag correlates strictly less |
| Utils.CorrSwap | libownaura/libownaura/utils.py:18 | swapping the two signals of the correlation mirrors the lag axis: the correlation of (y, x) at lag equals that of (x, y) at -lag |
| Utils.ChosenLagAntisymmetric | libownaura/libownaura/utils.py:18-29 | when the correlation has a single maximum over the lag axis, aligning (y, x) picks the negated lag of aligning (x, y), so the reported delay changes sign |
| Utils.TiedMaximumBreaksSymmetry | libownaura/libownaura/utils.py:18-29 | with a tied maximum the first-occurrence argmax is not symmetric: for x = [1, 0], y = [1, 1] the lags picked are 0 and -1, not 0 and 0 |
| Utils.TimeAlign | libownaura/libownaura/utils.py:9-39 | succeeds exactly when the lengths agree and a candidate lag exists; both aligned signals then have one length |
| Utils.TimeAlignDelaysTheLaggingSignal | libownaura/libownaura/utils.py:29-39 | dt is the chosen lag over fs; for dt >= 0 x is delayed and y keeps its samples followed by zeros, otherwise the roles swap |
| Utils.DelaySignFollowsLag | libownaura/libownaura/utils.py:29-32 | dt >= 0 exactly when the lag is non-negative |
| CompensationFilter.CausalWeightAsWritten | libownaura/libownaura/compute_calibration_filter.py:76-81 | the weight has one entry per quefrency |
| CompensationFilter.CausalWeight | libownaura/libownaura/compute_calibration_filter.py:76-81 | the in-place construction yields the weight as written, and raises for n = 0 |
| CompensationFilter.CausalWeightRegions | libownaura/libownaura/compute_calibration_filter.py:76-81 | 1/2 at 0, 1 below n // 2, 1/2 at n // 2 for even n, 0 beyond (and at n // 2 for odd n) |
| CompensationFilter.CausalWeightFolded | libownaura/libownaura/compute_calibration_filter.py:76-81 | the intended weight gives every quefrency and its mirror weights summing to 1 |
| CompensationFilter.CausalWeightEvenIsFolded | libownaura/libownaura/compute_calibration_filter.py:76-81 | for even n the weight as written is the intended one and splits the cepstrum |
| CompensationFilter.CausalWeightOddLosesQuefrency | libownaura/libownaura/compute_calibration_filter.py:76-84 | for odd n > 1, quefrency n // 2 and its mirror both weigh 0, so the cepstrum is not split |
| CompensationFilter.CausalMaskSpec | libownaura/libownaura/compute_calibration_filter.py:86-87 | the mask has one entry per filter tap |
| CompensationFilter.CausalMask | libownaura/libownaura/compute_calibration_filter.py:86-87 | the in-place construction gives ones before n // 2 and zeros from there on |
| CompensationFilter.MasksAgreeAwayFromHalfPoints | libownaura/libownaura/compute_calibration_filter.py:76-87 | weight and mask differ only at 0 and n // 2, and the mask is idempotent |
| CompensationFilter.PairMeans | libownaura/libownaura/compute_calibration_filter.py:92-95 | one value per adjacent pair of centres, the mean of that pair |
| CompensationFilter.RepeatTwice | libownaura/libownaura/compute_calibration_filter.py:96 | np.repeat(s, 2) doubles the length |
| CompensationFilter.BandCorners | libownaura/libownaura/compute_calibration_filter.py:96 | two corners per pair value plus the two end points |
| CompensationFilter.CornerAt | libownaura/libownaura/compute_calibration_filter.py:96 | corner p is 0, fs/2, or the pair value (p - 1) / 2 |
| CompensationFilter.BandCornersLayout | libownaura/libownaura/compute_calibration_filter.py:91-98 | 2·len(bands) corners from 0 to fs/2, with the mean of pair i at positions 2i + 1 and 2i + 2 |
| CompensationFilter.BandCornersNonDecreasing | libownaura/libownaura/compute_calibration_filter.py:91-98 | with centres in (0, fs/2] and each mean between its pair, the corners are non-decreasing, as firls requires |
| CompensationFilter.SumOfChannelConvolutions | libownaura/libownaura/compute_calibration_filter.py:215-223 | asserts 64 channels, and sample k of the result is the sum over the channels of the convolution at k |
| CompensationFilter.ChannelSumWithUnitFilters | libownaura/libownaura/compute_calibration_filter.py:221-223 | with unit reference filters the sum is the plain sum of the loudspeaker responses |
| CompensationFilter.SplitAt | libownaura/libownaura/compute_calibration_filter.py:243-249 | numpy.split gives one piece more than there are indices |
| CompensationFilter.SplitPiece | libownaura/libownaura/compute_calibration_filter.py:243-249 | each piece is the slice between consecutive split indices |
| CompensationFilter.SplitPartitions | libownaura/libownaura/compute_calibration_filter.py:243-249 | for sorted in-range indices, concatenating the pieces gives back the gain curve |
| CompensationFilter.BandLevels | libownaura/libownaura/compute_calibration_filter.py:240-251 | one level per piece; raises when there are edges but no bin frequencies |
| CompensationFilter.OneLevelPerBandCenter | libownaura/libownaura/compute_calibration_filter.py:233-251 | the ten centres give nine edges and ten band levels |
| CompensationFilter.RewriteEndpoints | libownaura/libownaura/compute_calibration_filter.py:254-255 | the first entry becomes 0 and the last fs/2, nothing else changes |
| CompensationFilter.RewrittenCentersForFirwin2 | libownaura/libownaura/compute_calibration_filter.py:253-255 | after the rewrite the centres run strictly increasing from 0 to fs/2, with the inner ones untouched |
| CompensationFilter.Exceeds | libownaura/libownaura/compute_calibration_filter.py:303 | the comparison has one boolean per sample of h_current |
| CompensationFilter.PadBeforeDelayAsWritten | libownaura/libownaura/compute_calibration_filter.py:303-306 | the padding block as written: the branch tests the length of an elementwise comparison; PadConditionIgnoresLengths and PadBeforeDelayRejectsLongerTarget state what it does |
| CompensationFilter.PadConditionIgnoresLengths | libownaura/libownaura/compute_calibration_filter.py:303-306 | the branch is taken exactly when h_current is non-empty; it pads h_target, or raises when h_target is longer |
| CompensationFilter.PadBeforeDelayRejectsLongerTarget | libownaura/libownaura/compute_calibration_filter.py:303-306 | h_current = [1], h_target = [1, 0.5] raises, where the intended padding gives ([1, 0], [1, 0.5]) |
| CompensationFilter.PadToCommonLength | libownaura/libownaura/compute_calibration_filter.py:302-306 | both responses keep their samples and end with zeros up to the longer length |
| CompensationFilter.PadAsWrittenAgreesWhenItSucceeds | libownaura/libownaura/compute_calibration_filter.py:302-306 | where the block as written succeeds, it equals the intended padding |
| CompensationFilter.TargetFilterLength | libownaura/libownaura/compute_calibration_filter.py:122 | the firls length is odd and within two samples below twice the delay in samples |
| ComplexArith.MulConjIsNorm2 | libownaura/libownaura/measure_avil_impulse_responses.py:86 | R·conj(R) is the real number abs(R)**2 |
| ComplexArith.Divide | libownaura/libownaura/measure_avil_impulse_responses.py:86 | the quotient is finite exactly when the denominator is non-zero |
| ComplexArith.DivisionByReferenceUndone | libownaura/libownaura/measure_avil_impulse_responses.py:86 | Y·conj(R)/abs(R)**2 times R gives Y back |
| SoundPressure.OneSided | libownaura/libownaura/recordings_to_sound_pressure.py:49-69 | the single-sided spectrum, one weight per rfft bin and as many bins as the rfft; SinusoidAmplitudeConserved states that it conserves sinusoid amplitudes |
| SoundPressure.AmplitudeSpectrum | libownaura/libownaura/recordings_to_sound_pressure.py:49-69 | raises for an empty signal; otherwise bin k is the rfft bin times 1/n (when normalising) times 2 for every bin but DC and an even count's Nyquist bin |
| SoundPressure.DoubledBinsHaveDistinctTwin | libownaura/libownaura/recordings_to_sound_pressure.py:58-64 | a bin is doubled exactly when its negative-frequency twin n - k is a different bin |
| SoundPressure.SinusoidAmplitudeConserved | libownaura/libownaura/recordings_to_sound_pressure.py:31-33 | with normalisation, a sinusoid (rfft bin c·n/2) and a DC or Nyquist component (rfft bin c·n) both come out with amplitude c |
| SoundPressure.HeadsetToSoundPressure | libownaura/libownaura/recordings_to_sound_pressure.py:116-120 | the caller's array is scaled by the gain in place; the result is its FIR filtering by the impulse response, or an error for an empty operand |
| SoundPressure.SoundPressureSample | libownaura/libownaura/recordings_to_sound_pressure.py:116-120 | output sample k is gain · Σ ir[j]·x[k - j] over j <= min(k, len(ir) - 1) |
| Measurement.ReplaceZeroBins | libownaura/libownaura/measure_avil_impulse_responses.py:64 | no reference bin is zero afterwards, and non-zero bins are unchanged |
| Measurement.MaxPower | libownaura/libownaura/measure_avil_impulse_responses.py:77 | the scan returns the peak power of the reference |
| Measurement.TransferSpectrum | libownaura/libownaura/measure_avil_impulse_responses.py:61-86 | the spectrum transfer_function returns, one bin per reference bin, each Y·conj(R) / (abs(R)² + reg) after the eps replacement and the gain guard; FiniteWhenRegularised, UnregularisedIsQuotient and ZeroReferenceBin state its values |
| Measurement.TransferFunction | libownaura/libownaura/measure_avil_impulse_responses.py:61-86 | the masked in-place steps give the transfer spectrum, and the warning is issued exactly when some bin's gain exceeds 1e9 |
| Measurement.ReplaceZeroBinsInPlace | libownaura/libownaura/measure_avil_impulse_responses.py:64 | `R[R == 0] = eps` on the array |
| Measurement.GuardGains | libownaura/libownaura/measure_avil_impulse_responses.py:67-73 | Y with every too-large bin set to 0, as long as Y; GuardIsIdempotent states that no bin is too large afterwards |
| Measurement.GuardGainsInPlace | libownaura/libownaura/measure_avil_impulse_responses.py:67-73 | warns exactly when a bin is too large, and zeroes exactly those bins of Y |
| Measurement.Regularisation | libownaura/libownaura/measure_avil_impulse_responses.py:75-84 | one regularisation term per bin: the scalar reg, or the reg_lim_dB terms; RegularisationLiftsToFloor states that they lift each bin to the floor |
| Measurement.RegularisationOf | libownaura/libownaura/measure_avil_impulse_responses.py:75-84 | the per-bin regularisation: the scalar reg, or the floor minus abs(R)**2 clipped at 0 |
| Measurement.LiftToFloor | libownaura/libownaura/measure_avil_impulse_responses.py:83-84 | the array `floor - abs(R)**2` with its negative entries set to 0 is, bin by bin, what lifts abs(R[k])**2 to the floor peak·ratio and 0 for a bin already above it |
| Measurement.GuardIsIdempotent | libownaura/libownaura/measure_avil_impulse_responses.py:67-73 | after the guard no bin's gain exceeds 1e9, and guarding again changes nothing and does not warn |
| Measurement.RegularisationLiftsToFloor | libownaura/libownaura/measure_avil_impulse_responses.py:75-84 | with reg_lim_dB, reg[k] >= 0 and abs(R[k])**2 + reg[k] = max(abs(R[k])**2, floor), whatever reg was passed |
| Measurement.FiniteWhenRegularised | libownaura/libownaura/measure_avil_impulse_responses.py:75-86 | every bin of H is finite for a positive reg or a positive reg_lim_dB floor |
| Measurement.UnregularisedIsQuotient | libownaura/libownaura/measure_avil_impulse_responses.py:64-86 | with reg = 0, a bin that passes the guard and has a non-zero denominator satisfies H[k]·R[k] = Y[k] |
| Measurement.ZeroReferenceBin | libownaura/libownaura/measure_avil_impulse_responses.py:64-86 | a zero reference bin yields the finite value Y[k]/eps, or 0 when the guard removed Y[k] |
| Measurement.SweepBand | libownaura/libownaura/measure_avil_impulse_responses.py:169-176 | the band satisfies f_start < f_end <= fs/2 and keeps the caller's edges; the defaults and the ZeroDivisionError are as in the source |
| Measurement.RawSweep | libownaura/libownaura/measure_avil_impulse_responses.py:182-189 | the unfaded sweep has n_tap samples |
| Measurement.FadeIn | libownaura/libownaura/measure_avil_impulse_responses.py:194 | the fade-in keeps the length |
| Measurement.FadeOut | libownaura/libownaura/measure_avil_impulse_responses.py:195 | the fade-out keeps the length |
| Measurement.FadeEnds | libownaura/libownaura/measure_avil_impulse_responses.py:191-195 | the two slice assignments, in order, on the sweep buffer |
| Measurement.ExponentialSweepSpec | libownaura/libownaura/measure_avil_impulse_responses.py:138-201 | the sweep exponential_sweep returns or the first error it raises, in the source's order; SweepLength, FadeShape and NegativeDurationRaisesBeforeDivision state its properties |
| Measurement.ExponentialSweep | libownaura/libownaura/measure_avil_impulse_responses.py:138-201 | the buffer-based construction returns the specified sweep or the error the source raises |
| Measurement.NegativeDurationRaisesBeforeDivision | libownaura/libownaura/measure_avil_impulse_responses.py:166-186 | with T = -1 s at 48 kHz and f_start = 0, np.linspace at line 182 raises for n_tap = -48000 before w_end / w_start divides by zero |
| Measurement.SweepLength | libownaura/libownaura/measure_avil_impulse_responses.py:167-199 | a returned sweep has round(T·fs) samples plus round(post_silence·fs) zeros when post_silence > 0 |
| Measurement.FadeShape | libownaura/libownaura/measure_avil_impulse_responses.py:191-195 | the middle is untouched, the head gets the rising half, the tail the falling half, and a sample in both gets both |
| Measurement.NoFadeKeepsChirp | libownaura/libownaura/measure_avil_impulse_responses.py:181-191 | with tfade = 0 the sweep starts with the unfaded chirp samples |
| Measurement.DefaultBand | libownaura/libownaura/measure_avil_impulse_responses.py:167-176 | with both edges defaulted and fs > 0, the asserts pass exactly when n_tap > 2, with band [fs / n_tap, fs / 2] |
| Measurement.Faded | libownaura/libownaura/measure_avil_impulse_responses.py:190-194 | a fade that does not raise keeps the sweep's length |
| Measurement.Silence | libownaura/libownaura/measure_avil_impulse_responses.py:196-198 | the appended silence is round(post_silence·fs) zeros when post_silence > 0 and nothing otherwise |
| Measurement.FadedIntended | libownaura/libownaura/measure_avil_impulse_responses.py:191-195 | a fade of zero samples leaves the sweep unchanged; otherwise it is the block as written |
| Measurement.TinyFadeRaises | libownaura/libownaura/measure_avil_impulse_responses.py:191-195 | tfade = 10 µs at 48 kHz gives n_fade = 0 and a two-sample sweep raises, where the intended fade keeps it |

## Left out

- FFTs (`rfft`, `irfft`, `fft`, `ifft`) are outside the model. Spectra are inputs, and `transfer_function`'s `ret_time` inverse transform is not modelled.
- Welch and cross spectral densities are outside the model. So is the spectral factorisation of `wiener_filter` (exp/log of spectra) and its unconstrained branch; only its masks are modelled.
- The filter design calls (`firls`, `firwin2`, `minimum_phase`) are outside the model. So is the `np.interp` of `gains_corners` in `generate_bands_for_firls`; only the corner frequencies are modelled.
- Transcendental functions are parameters: the geometric mean `sqrt(b0·b1)`, the dB band level, the sweep's sine of an exponential phase, the Hann window, and 10^(-reg_lim_dB/10).
- The `response` package is not part of this model. Its `Response.delay`, `freq_vector`, `align` and `delay_between` are left out, and the delay is a parameter that never shortens a signal. Its `zeropad_to_length` is modelled by Signals.ZeroPadTo as padding with zeros at the end up to the target length. That is an assumption about the package, which Utils.TimeAlignDelaysTheLaggingSignal relies on.
- Floating point is modelled with exact reals. There is no rounding error, overflow, NaN propagation or inf arithmetic, apart from the finite/non-finite outcome of the division in `transfer_function`.
- Multichannel arrays, `axis` and `moveaxis` are not modelled. Spectra and signals are one-dimensional.
- Utils.ChosenLagAntisymmetric: the sign symmetry of the delay holds only when the correlation has a single maximum over the lag axis. `argmax` takes the first maximum, so a tie breaks the symmetry, as Utils.TiedMaximumBreaksSymmetry shows for x = [1, 0], y = [1, 1].
- Measurement.TransferFunction: requires the two spectra to have one common non-zero length. numpy broadcasting of a one-bin spectrum against a longer one is not modelled.
- Measurement.TooLarge: compares squared moduli (abs(Y)² > 1e18·abs(R)²) instead of abs(Y/R) > 1e9. The two agree exactly once R has no zero bin, which the eps replacement guarantees.
- Measurement.FiniteWhenRegularised: does not cover the default reg = 0. There every bin's denominator is abs(R[k])² after eps has replaced the zero bins, and the step that a non-zero bin has abs(R[k])² > 0 is nonlinear real arithmetic the solver does not close. Finiteness is proved for a positive reg and a positive reg_lim_dB floor. For a bin that was exactly zero, Measurement.ZeroReferenceBin proves it. For any bin with abs(R[k])² != 0, Measurement.UnregularisedIsQuotient proves it.
- Measurement.TransferSpectrum: keeps numpy's non-finite outcome for a zero denominator as NonFinite instead of inf or nan values.
- Measurement.ExponentialSweep: the chirp function stands in for `np.sin` of the exponential phase, so NaN samples for a negative `w_end / w_start` are not distinguished. The warning text and the error messages are abbreviated.
- The audio I/O, measurement loops, sound-card calls, plotting, printing, argument parsing and file loading (`main`, `compute_H_direct_avil`'s file reading, `load_H_avil`, `load_W_ref`, the Odeon CSV parsing of `compute_H_R_H_D`) are not modelled.
- `coherence_csd` and `time_window_type` in utils.py are wrappers around library calls and a regular expression, and are not modelled.
- The `print` of the energy cut in `apply_calibration` is modelled as the percentage it prints, not as output.

## Findings

| source | as written | input that shows it | evidently intended | confidence | as-written member | corrected member |
|---|---|---|---|---|---|---|
| libownaura/libownaura/compute_calibration_filter.py:303-306 | `len(h_current > len(h_target))` is the length of an elementwise comparison, so h_target is always padded and the `elif` is never taken | h_current = [1.0], h_target = [1.0, 0.5]: np.pad gets width -1 and raises | pad the shorter of the two responses to the longer length | high; not executed | CompensationFilter.PadBeforeDelayRejectsLongerTarget | CompensationFilter.PadToCommonLength |
| libownaura/libownaura/compute_calibration_filter.py:76-81 | `c[n // 2:] = 0` for odd n also zeroes the positive quefrency n // 2; the mask `h` at lines 86-87 makes the same cut, zeroing index n // 2 for odd n (CompensationFilter.CausalMask models it) | n = 3 gives c = [0.5, 0, 0], so c[1] + c[2] = 0 instead of 1 | ones up to (n + 1) / 2, halves at 0 and (n even) at n / 2 | medium (the scripts use even lengths); not executed | CompensationFilter.CausalWeightOddLosesQuefrency | CompensationFilter.CausalWeightFolded |
| libownaura/libownaura/measure_avil_impulse_responses.py:191-195 | a non-zero tfade that rounds to n_fade = 0 makes `sweep[-0:]` the whole sweep, multiplied by an empty window | tfade = 0.00001, fs = 48000, a two-sample sweep: broadcasting (2,) with (0,) raises | a fade of zero samples leaves the sweep unchanged | high; not executed | Measurement.TinyFadeRaises | Measurement.FadedIntended |
