/** The exact skeleton of libownaura/compute_calibration_filter.py: the causal
    masks of the Wiener filter, the band corners handed to the least-squares
    FIR design, the 64-channel sum of convolutions, the band split of the
    calibration gain, the end-point rewrite of the band centres, the padding
    block before the delay estimate, and the length of the target filter. */
module CompensationFilter {
  import opened Signals
  import Utils

  /** The module-level sample rate `fs`. */
  const SampleRate: real := 48000.0

  /** N, the number of loudspeaker channels of the rig. */
  const Channels: nat := 64

  // ---------------------------------------------------------------------
  // wiener_filter: the causal masks

  /** The weight vector `c` of the spectral factorisation, as written:
      ones, zero from n // 2 on, one half at 0 and (n even) at n // 2. */
  function CausalWeightAsWritten(n: nat): (c: seq<real>)
    ensures |c| == n
  {
    seq(n, k requires 0 <= k < n =>
      if k == 0 then 0.5
      else if k < n / 2 then 1.0
      else if k == n / 2 && n % 2 == 0 then 0.5
      else 0.0)
  }

  /** Builds `c` in place: np.ones(n), c[n // 2:] = 0, c[0] = 0.5 and, for
      even n, c[n // 2] = 0.5. With n == 0 the write to c[0] raises. */
  method CausalWeight(n: nat) returns (r: Result<seq<real>>)
    ensures r.Ok? <==> n > 0
    ensures r.Ok? ==> r.value == CausalWeightAsWritten(n)
  {
    var c := new real[n](_ => 1.0);
    forall k | n / 2 <= k < n {
      c[k] := 0.0;
    }
    if n == 0 {
      return Err("IndexError: index 0 is out of bounds for axis 0 with size 0");
    }
    c[0] := 0.5;
    if n % 2 == 0 {
      c[n / 2] := 0.5;
    }
    r := Ok(c[..]);
  }

  /** The weight as the mask lines describe it: 1/2 at 0, 1 up to n // 2,
      1/2 at n // 2 for even n, and 0 from there on. */
  lemma CausalWeightRegions(n: nat)
    requires n > 0
    ensures var c := CausalWeightAsWritten(n);
      && c[0] == 0.5
      && (forall k :: 0 < k < n / 2 ==> c[k] == 1.0)
      && (n % 2 == 0 ==> c[n / 2] == 0.5)
      && (forall k :: n / 2 < k < n ==> c[k] == 0.0)
      && (n % 2 == 1 && n > 1 ==> c[n / 2] == 0.0)
  {
  }

  /** The folding property the factorisation needs: a real log spectrum has
      an even cepstrum, and F·conj(F) gives Sxx back exactly when every
      cepstral coefficient k and its mirror n - k carry weights summing to 1
      (and c[0] is 1/2). */
  ghost predicate SplitsCepstrum(c: seq<real>)
  {
    |c| > 0 && c[0] + c[0] == 1.0 && forall k :: 0 < k < |c| ==> c[k] + c[|c| - k] == 1.0
  }

  /** The weight with the evident intent: positive quefrencies are
      1 .. (n - 1) / 2 for odd n, so the ones run up to (n + 1) / 2. */
  function CausalWeightFolded(n: nat): (c: seq<real>)
    requires n > 0
    ensures |c| == n
    ensures SplitsCepstrum(c)
  {
    seq(n, k requires 0 <= k < n =>
      if k == 0 then 0.5
      else if k < (n + 1) / 2 then 1.0
      else if k + k == n then 0.5
      else 0.0)
  }

  /** For even n, the lengths the scripts use (512, 1024), the weight as
      written is the folded one. */
  lemma CausalWeightEvenIsFolded(n: nat)
    requires n > 0 && n % 2 == 0
    ensures CausalWeightAsWritten(n) == CausalWeightFolded(n)
    ensures SplitsCepstrum(CausalWeightAsWritten(n))
  {
    assert forall k :: 0 <= k < n ==> CausalWeightAsWritten(n)[k] == CausalWeightFolded(n)[k];
  }

  /** For odd n the weight as written zeroes the positive quefrency n // 2,
      so the factorisation loses it: with n == 3, c == [1/2, 0, 0]. */
  lemma CausalWeightOddLosesQuefrency(n: nat)
    requires n > 1 && n % 2 == 1
    ensures var c := CausalWeightAsWritten(n);
      c[n / 2] + c[n - n / 2] == 0.0 && !SplitsCepstrum(c)
  {
  }

  /** The mask `h` on the filter: ones before n // 2, zeros from n // 2 on. */
  function CausalMaskSpec(n: nat): (h: seq<real>)
    ensures |h| == n
  {
    seq(n, k requires 0 <= k < n => if k < n / 2 then 1.0 else 0.0)
  }

  /** Builds `h` in place: np.ones(n), then h[n // 2:] = 0. */
  method CausalMask(n: nat) returns (h: seq<real>)
    ensures h == CausalMaskSpec(n)
  {
    var a := new real[n](_ => 1.0);
    forall k | n / 2 <= k < n {
      a[k] := 0.0;
    }
    h := a[..];
  }

  /** The two masks agree everywhere but at the half-weight points 0 and
      n // 2; `h` is a 0/1 mask, so applying it twice is applying it once. */
  lemma MasksAgreeAwayFromHalfPoints(n: nat)
    ensures forall k :: 0 < k < n && k != n / 2 ==> CausalWeightAsWritten(n)[k] == CausalMaskSpec(n)[k]
    ensures forall k :: 0 <= k < n ==> CausalMaskSpec(n)[k] * CausalMaskSpec(n)[k] == CausalMaskSpec(n)[k]
  {
  }

  // ---------------------------------------------------------------------
  // generate_bands_for_firls: the corner frequencies

  /** One value per adjacent pair of the list (`bands[i : i + 2]` of length
      2), here the geometric mean sqrt(b0·b1), which is passed in. */
  function PairMeans(bands: seq<real>, geoMean: (real, real) -> real): (m: seq<real>)
    ensures |m| == Max(|bands| - 1, 0)
    ensures forall i :: 0 <= i < |m| ==> m[i] == geoMean(bands[i], bands[i + 1])
  {
    seq(Max(|bands| - 1, 0), i requires 0 <= i < Max(|bands| - 1, 0) => geoMean(bands[i], bands[i + 1]))
  }

  /** np.repeat(s, 2) */
  function RepeatTwice(s: seq<real>): (r: seq<real>)
    ensures |r| == 2 * |s|
  {
    seq(2 * |s|, i requires 0 <= i < 2 * |s| => s[i / 2])
  }

  /** bands_corners: 0, every pair mean twice, fs/2. */
  function BandCorners(means: seq<real>): (corners: seq<real>)
    ensures |corners| == 2 * |means| + 2
  {
    [0.0] + RepeatTwice(means) + [SampleRate / 2.0]
  }

  /** Corner p: 0 first, fs/2 last, the mean of pair (p - 1) / 2 between. */
  lemma CornerAt(means: seq<real>, p: nat)
    requires p < 2 * |means| + 2
    ensures BandCorners(means)[p] ==
      if p == 0 then 0.0
      else if p == 2 * |means| + 1 then SampleRate / 2.0
      else means[(p - 1) / 2]
  {
    if 0 < p < 2 * |means| + 1 {
      assert BandCorners(means)[p] == RepeatTwice(means)[p - 1];
    }
  }

  /** The corner layout of generate_bands_for_firls: 2·len(bands) corners
      (2 for an empty list), 0 first, fs/2 last, and the geometric mean of
      pair i at positions 2i + 1 and 2i + 2. */
  lemma BandCornersLayout(bands: seq<real>, geoMean: (real, real) -> real)
    ensures var corners := BandCorners(PairMeans(bands, geoMean));
      && |corners| == (if |bands| == 0 then 2 else 2 * |bands|)
      && corners[0] == 0.0
      && corners[|corners| - 1] == SampleRate / 2.0
      && forall i :: 0 <= i < |bands| - 1 ==>
           corners[2 * i + 1] == geoMean(bands[i], bands[i + 1])
           && corners[2 * i + 2] == geoMean(bands[i], bands[i + 1])
  {
    var means := PairMeans(bands, geoMean);
    var corners := BandCorners(means);
    assert |means| == if |bands| == 0 then 0 else |bands| - 1;
    CornerAt(means, 0);
    CornerAt(means, |corners| - 1);
    forall i | 0 <= i < |bands| - 1
      ensures corners[2 * i + 1] == geoMean(bands[i], bands[i + 1])
      ensures corners[2 * i + 2] == geoMean(bands[i], bands[i + 1])
    {
      assert means[i] == geoMean(bands[i], bands[i + 1]);
      CornersOfPair(means, i);
    }
  }

  /** Pair value i fills corners 2i + 1 and 2i + 2. */
  lemma CornersOfPair(means: seq<real>, i: nat)
    requires i < |means|
    ensures BandCorners(means)[2 * i + 1] == means[i]
    ensures BandCorners(means)[2 * i + 2] == means[i]
  {
    var r := RepeatTwice(means);
    assert (2 * i) / 2 == i && (2 * i + 1) / 2 == i;
    assert r[2 * i] == means[i] && r[2 * i + 1] == means[i];
    assert BandCorners(means)[2 * i + 1] == r[2 * i];
    assert BandCorners(means)[2 * i + 2] == r[2 * i + 1];
  }

  predicate NonDecreasing(s: seq<real>)
  {
    forall i, j :: 0 <= i < j < |s| ==> s[i] <= s[j]
  }

  /** Each pair value lies between the two centres it comes from, as the
      geometric mean of two positive numbers does. */
  predicate BetweenPairs(bands: seq<real>, means: seq<real>)
  {
    |bands| > 0 && |means| == |bands| - 1
    && forall i :: 0 <= i < |means| ==> bands[i] <= means[i] <= bands[i + 1]
  }

  /** firls needs non-decreasing corners: they are, when the band centres
      run from above 0 to at most fs/2 and each pair value lies between its
      pair. */
  lemma BandCornersNonDecreasing(bands: seq<real>, means: seq<real>)
    requires BetweenPairs(bands, means)
    requires 0.0 < bands[0] && bands[|bands| - 1] <= SampleRate / 2.0
    ensures NonDecreasing(BandCorners(means))
  {
    var corners := BandCorners(means);
    forall p | 0 <= p < |corners| - 1
      ensures corners[p] <= corners[p + 1]
    {
      BandCornerStep(bands, means, p);
    }
    ConsecutiveOrderSuffices(corners);
  }

  lemma BandCornerStep(bands: seq<real>, means: seq<real>, p: nat)
    requires BetweenPairs(bands, means)
    requires 0.0 < bands[0] && bands[|bands| - 1] <= SampleRate / 2.0
    requires p + 1 < 2 * |means| + 2
    ensures BandCorners(means)[p] <= BandCorners(means)[p + 1]
  {
    var last := 2 * |means| + 1;
    CornerAt(means, p);
    CornerAt(means, p + 1);
    if p == 0 {
      if 1 < last {
        assert means[0] >= bands[0];
      }
    } else {
      var q := (p - 1) / 2;
      assert p == 2 * q + 1 || p == 2 * q + 2;
      if p + 1 == last {
        assert means[q] <= bands[q + 1];
      } else if p == 2 * q + 2 {
        assert means[q] <= bands[q + 1] <= means[q + 1];
      }
    }
  }

  lemma ConsecutiveOrderSuffices(s: seq<real>)
    requires forall p :: 0 <= p < |s| - 1 ==> s[p] <= s[p + 1]
    ensures NonDecreasing(s)
  {
    forall i, j | 0 <= i < j < |s|
      ensures s[i] <= s[j]
    {
      ConsecutiveChain(s, i, j);
    }
  }

  lemma {:induction false} ConsecutiveChain(s: seq<real>, i: nat, j: nat)
    requires forall p :: 0 <= p < |s| - 1 ==> s[p] <= s[p + 1]
    requires i <= j < |s|
    ensures s[i] <= s[j]
    decreases j - i
  {
    if i < j {
      ConsecutiveChain(s, i + 1, j);
    }
  }

  // ---------------------------------------------------------------------
  // compute_compensation_filter: what comes out of the rig

  /** Σ_{i < m} (h_avil[i] * w_ref[i])[k], the sum of the first m channel
      convolutions at sample k. */
  function ChannelSumAt(hAvil: seq<seq<real>>, wRef: seq<seq<real>>, m: nat, k: int): real
    requires m <= |hAvil| && m <= |wRef|
  {
    if m == 0 then 0.0 else ChannelSumAt(hAvil, wRef, m - 1, k) + ConvAt(hAvil[m - 1], wRef[m - 1], k)
  }

  /** `h_current`: asserts 64 channels in both banks, preallocates zeros of
      length h_avil.shape[1] + w_ref.shape[1] - 1 and adds the convolution of
      every loudspeaker response with its reference filter. */
  method SumOfChannelConvolutions(hAvil: array2<real>, wRef: array2<real>) returns (r: Result<seq<real>>)
    ensures r.Ok? <==> hAvil.Length0 == Channels && wRef.Length0 == Channels
                       && hAvil.Length1 > 0 && wRef.Length1 > 0
    ensures r.Ok? ==> |r.value| == hAvil.Length1 + wRef.Length1 - 1
    ensures r.Ok? ==> forall k :: 0 <= k < |r.value| ==>
      r.value[k] == ChannelSumAt(Rows(hAvil), Rows(wRef), Channels, k)
  {
    if !(hAvil.Length0 == Channels && wRef.Length0 == Channels) {
      return Err("AssertionError: need 64 channels in avil");
    }
    if hAvil.Length1 == 0 || wRef.Length1 == 0 {
      return Err("numpy.convolve: empty operand");
    }
    var len := hAvil.Length1 + wRef.Length1 - 1;
    var hCurrent := new real[len](_ => 0.0);
    for i := 0 to Channels
      invariant forall k :: 0 <= k < len ==> hCurrent[k] == ChannelSumAt(Rows(hAvil), Rows(wRef), i, k)
    {
      var c := Conv(Rows(hAvil)[i], Rows(wRef)[i]);
      forall k | 0 <= k < len {
        hCurrent[k] := hCurrent[k] + c[k];
      }
    }
    r := Ok(hCurrent[..]);
  }

  /** Σ_{i < m} a[i][k] (0 where row i is too short). */
  function ColumnSum(a: seq<seq<real>>, m: nat, k: int): real
    requires m <= |a|
  {
    if m == 0 then 0.0 else ColumnSum(a, m - 1, k) + (if 0 <= k < |a[m - 1]| then a[m - 1][k] else 0.0)
  }

  /** With unit-impulse reference filters the rig output is the plain sum of
      the loudspeaker responses. */
  lemma {:induction false} ChannelSumWithUnitFilters(hAvil: seq<seq<real>>, wRef: seq<seq<real>>, m: nat, k: int)
    requires m <= |hAvil| && m <= |wRef|
    requires forall i :: 0 <= i < m ==> |hAvil[i]| > 0 && wRef[i] == [1.0]
    ensures ChannelSumAt(hAvil, wRef, m, k) == ColumnSum(hAvil, m, k)
  {
    if m > 0 {
      ChannelSumWithUnitFilters(hAvil, wRef, m - 1, k);
      ConvPartialWithUnit(hAvil[m - 1], k, |hAvil[m - 1]|);
    }
  }

  // ---------------------------------------------------------------------
  // Averaging the calibration gain over bands

  /** band_center_freqs: 32 and 16000 are there only to bound 63 .. 8000. */
  const BandCenters: seq<real> := [32.0, 63.0, 125.0, 250.0, 500.0, 1000.0, 2000.0, 4000.0, 8000.0, 16000.0]

  /** Python slicing s[lo:hi] for non-negative bounds. */
  function Slice(s: seq<real>, lo: nat, hi: nat): (r: seq<real>)
  {
    var a, b := Min(lo, |s|), Min(hi, |s|);
    if a <= b then s[a..b] else []
  }

  /** Where piece i of numpy.split(s, idx) starts and ends. */
  function PieceStart(idx: seq<nat>, i: nat): nat
    requires i <= |idx|
  {
    if i == 0 then 0 else idx[i - 1]
  }

  function PieceEnd(s: seq<real>, idx: seq<nat>, i: nat): nat
    requires i <= |idx|
  {
    if i == |idx| then |s| else idx[i]
  }

  /** numpy.split(s, idx): the |idx| + 1 pieces s[:idx[0]], s[idx[0]:idx[1]],
      ..., s[idx[-1]:]. */
  function SplitAt(s: seq<real>, idx: seq<nat>): (pieces: seq<seq<real>>)
    ensures |pieces| == |idx| + 1
  {
    seq(|idx| + 1, i requires 0 <= i <= |idx| => Slice(s, PieceStart(idx, i), PieceEnd(s, idx, i)))
  }

  function Concat(pieces: seq<seq<real>>): seq<real>
  {
    if pieces == [] then [] else Concat(pieces[..|pieces| - 1]) + pieces[|pieces| - 1]
  }

  /** The split indices of the gain curve: in range and non-decreasing. */
  predicate SortedSplitPoints(s: seq<real>, idx: seq<nat>)
  {
    (forall i :: 0 <= i < |idx| ==> idx[i] <= |s|)
    && (forall i :: 0 < i < |idx| ==> idx[i - 1] <= idx[i])
  }

  /** With sorted in-range split indices the pieces partition the gain curve:
      concatenated again they give it back, and no sample is dropped. */
  lemma SplitPartitions(s: seq<real>, idx: seq<nat>)
    requires SortedSplitPoints(s, idx)
    ensures Concat(SplitAt(s, idx)) == s
  {
    var pieces := SplitAt(s, idx);
    SplitPrefix(s, idx, |idx|);
    assert pieces[..|idx| + 1] == pieces;
  }

  lemma SplitPointsBetween(s: seq<real>, idx: seq<nat>, j: nat)
    requires SortedSplitPoints(s, idx) && j <= |idx|
    ensures PieceStart(idx, j) <= PieceEnd(s, idx, j) <= |s|
  {
    if 0 < j < |idx| {
      assert idx[j - 1] <= idx[j];
    }
  }

  lemma SplitPiece(s: seq<real>, idx: seq<nat>, j: nat)
    requires SortedSplitPoints(s, idx) && j <= |idx|
    ensures PieceStart(idx, j) <= PieceEnd(s, idx, j) <= |s|
    ensures SplitAt(s, idx)[j] == s[PieceStart(idx, j)..PieceEnd(s, idx, j)]
  {
    SplitPointsBetween(s, idx, j);
  }

  lemma {:induction false} SplitPrefix(s: seq<real>, idx: seq<nat>, j: nat)
    requires SortedSplitPoints(s, idx) && j <= |idx|
    ensures PieceEnd(s, idx, j) <= |s|
    ensures Concat(SplitAt(s, idx)[..j + 1]) == s[..PieceEnd(s, idx, j)]
  {
    var pieces := SplitAt(s, idx);
    SplitPiece(s, idx, j);
    var prefix := pieces[..j + 1];
    assert prefix[|prefix| - 1] == pieces[j];
    if j == 0 {
      assert prefix[..0] == [];
      assert Concat(prefix) == Concat(prefix[..0]) + pieces[0];
    } else {
      SplitPrefix(s, idx, j - 1);
      assert prefix[..j] == pieces[..j];
      var lo, hi := PieceStart(idx, j), PieceEnd(s, idx, j);
      assert PieceEnd(s, idx, j - 1) == lo;
      assert s[..hi] == s[..lo] + s[lo..hi];
    }
  }

  /** mean_of_calibration_gain_over_bands: the gain curve is split at the
      frequency bins nearest to the band edges (find_nearest on the bin
      frequencies) and each piece is reduced to one level (`level` stands for
      10**(mean(10·log10(g))/10)). */
  function BandLevels(gain: seq<real>, binFreqs: seq<real>, edges: seq<real>,
                      level: seq<real> -> real): (r: Result<seq<real>>)
    ensures r.Ok? <==> |binFreqs| > 0 || |edges| == 0
    ensures r.Ok? ==> |r.value| == |edges| + 1
  {
    if |edges| > 0 && |binFreqs| == 0 then Err("attempt to get argmin of an empty sequence")
    else
      var idx := seq(|edges|, i requires 0 <= i < |edges| => Utils.FindNearest(binFreqs, edges[i]).value.index);
      var pieces := SplitAt(gain, idx);
      Ok(seq(|pieces|, i requires 0 <= i < |pieces| => level(pieces[i])))
  }

  /** The ten band centres give nine edges and so ten band levels, one per
      centre, for any non-empty bin-frequency vector. */
  lemma OneLevelPerBandCenter(gain: seq<real>, binFreqs: seq<real>,
                              geoMean: (real, real) -> real, level: seq<real> -> real)
    requires |binFreqs| > 0
    ensures |PairMeans(BandCenters, geoMean)| == 9
    ensures var r := BandLevels(gain, binFreqs, PairMeans(BandCenters, geoMean), level);
      r.Ok? && |r.value| == |BandCenters|
  {
  }

  /** The end-point rewrite for firwin2: band_center_freqs[0] = 0 and
      band_center_freqs[-1] = fs / 2, in place. */
  method RewriteEndpoints(freqs: array<real>)
    requires freqs.Length > 0
    modifies freqs
    ensures freqs[..] == old(freqs[..])[0 := 0.0][freqs.Length - 1 := SampleRate / 2.0]
  {
    freqs[0] := 0.0;
    freqs[freqs.Length - 1] := SampleRate / 2.0;
  }

  /** After the rewrite, only the first and last centres have changed, and
      the list runs increasing from 0 to fs/2 as firwin2 requires. */
  lemma RewrittenCentersForFirwin2()
    ensures var f := BandCenters[0 := 0.0][|BandCenters| - 1 := SampleRate / 2.0];
      && |f| == |BandCenters|
      && f[0] == 0.0 && f[|f| - 1] == SampleRate / 2.0
      && (forall k :: 0 < k < |f| - 1 ==> f[k] == BandCenters[k])
      && (forall i, j :: 0 <= i < j < |f| ==> f[i] < f[j])
  {
  }

  // ---------------------------------------------------------------------
  // Padding h_target and h_current to one length before the delay estimate

  /** `h_current > len(h_target)`: an elementwise comparison, one boolean
      per sample of h_current. */
  function Exceeds(a: seq<real>, bound: int): (b: seq<bool>)
    ensures |b| == |a|
  {
    seq(|a|, i requires 0 <= i < |a| => a[i] > bound as real)
  }

  /** The block as written: `if len(h_current > len(h_target))` takes the
      length of the comparison array, which is truthy exactly when h_current
      is non-empty, so h_target is always padded to len(h_current) (np.pad
      raises on the negative width when h_target is longer). The `elif`
      tests `len(h_current < len(h_target))`, the same length, so it is never
      taken. */
  function PadBeforeDelayAsWritten(hCurrent: seq<real>, hTarget: seq<real>): (r: Result<(seq<real>, seq<real>)>)
  {
    if |Exceeds(hCurrent, |hTarget|)| != 0 then
      if |hCurrent| - |hTarget| < 0 then Err("ValueError: index can't contain negative values")
      else Ok((hCurrent, hTarget + Zeros(|hCurrent| - |hTarget|)))
    else
      Ok((hCurrent, hTarget))
  }

  /** The branch taken does not depend on the samples or on h_target at all. */
  lemma PadConditionIgnoresLengths(hCurrent: seq<real>, hTarget: seq<real>)
    ensures (|Exceeds(hCurrent, |hTarget|)| != 0) <==> |hCurrent| > 0
    ensures |hCurrent| > 0 && |hTarget| <= |hCurrent| ==>
      PadBeforeDelayAsWritten(hCurrent, hTarget) == Ok((hCurrent, hTarget + Zeros(|hCurrent| - |hTarget|)))
    ensures 0 < |hCurrent| < |hTarget| ==> PadBeforeDelayAsWritten(hCurrent, hTarget).Err?
  {
  }

  /** A concrete input: h_current of one sample and h_target of two raise
      instead of padding h_current. */
  lemma PadBeforeDelayRejectsLongerTarget()
    ensures PadBeforeDelayAsWritten([1.0], [1.0, 0.5]).Err?
    ensures PadToCommonLength([1.0], [1.0, 0.5]) == ([1.0, 0.0], [1.0, 0.5])
  {
    var padded := ZeroPadTo([1.0], 2);
    assert padded[..1] == [1.0] && padded[1] == 0.0;
    assert padded == [1.0, 0.0];
  }

  /** The evident intent: pad whichever response is shorter with trailing
      zeros so that both have the length of the longer one. */
  function PadToCommonLength(hCurrent: seq<real>, hTarget: seq<real>): (r: (seq<real>, seq<real>))
    ensures |r.0| == |r.1| == Max(|hCurrent|, |hTarget|)
    ensures r.0[..|hCurrent|] == hCurrent && r.1[..|hTarget|] == hTarget
    ensures forall k :: |hCurrent| <= k < |r.0| ==> r.0[k] == 0.0
    ensures forall k :: |hTarget| <= k < |r.1| ==> r.1[k] == 0.0
  {
    var n := Max(|hCurrent|, |hTarget|);
    (ZeroPadTo(hCurrent, n), ZeroPadTo(hTarget, n))
  }

  /** Where the block as written succeeds, it agrees with the intended one. */
  lemma PadAsWrittenAgreesWhenItSucceeds(hCurrent: seq<real>, hTarget: seq<real>)
    requires |hCurrent| > 0
    requires PadBeforeDelayAsWritten(hCurrent, hTarget).Ok?
    ensures PadBeforeDelayAsWritten(hCurrent, hTarget).value == PadToCommonLength(hCurrent, hTarget)
  {
    var t := hTarget + Zeros(|hCurrent| - |hTarget|);
    assert t == ZeroPadTo(hTarget, |hCurrent|);
  }

  // ---------------------------------------------------------------------
  // compute_H_R_H_D: the length of the linear-phase target filter

  /** number_samples = int(target_delay * fs) * 2 - 1: always odd, and about
      twice the delay in samples, so the filter's centre tap sits one sample
      before the truncated delay. */
  function TargetFilterLength(targetDelay: real): (n: int)
    ensures n % 2 == 1
    ensures targetDelay >= 0.0 ==>
      2.0 * (targetDelay * SampleRate) - 3.0 < n as real <= 2.0 * (targetDelay * SampleRate) - 1.0
  {
    TruncateTowardZero(targetDelay * SampleRate) * 2 - 1
  }
}
