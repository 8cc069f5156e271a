/** The exact parts of libownaura/measure_avil_impulse_responses.py: the
    bin-by-bin guards of `transfer_function` (zero reference bins, too large
    gains, the reg_lim_dB floor, the regularised division) and the sample
    layout of `exponential_sweep` (length, default band, asserts, Hann fades
    written over both ends, trailing silence). */
module Measurement {
  import opened Signals
  import opened ComplexArith

  // ---------------------------------------------------------------------
  // transfer_function

  /** np.finfo(complex).eps, 2^-52. */
  const Eps: real := 1.0 / 4503599627370496.0

  /** TOO_LARGE_GAIN, a gain of 180 dB. */
  const TooLargeGain: real := 1000000000.0

  /** `R[R == 0] = eps`: reference bins that are exactly zero become eps. */
  function ReplaceZeroBins(R: seq<Complex>): (r: seq<Complex>)
    ensures |r| == |R|
    ensures forall k :: 0 <= k < |r| ==> r[k] != Zero
    ensures forall k :: 0 <= k < |r| && R[k] != Zero ==> r[k] == R[k]
  {
    seq(|R|, k requires 0 <= k < |R| => if R[k] == Zero then Complex(Eps, 0.0) else R[k])
  }

  /** |y / r| > TOO_LARGE_GAIN for a non-zero r, compared on squared moduli:
      |y|² > TOO_LARGE_GAIN² · |r|². */
  predicate TooLarge(y: Complex, r: Complex)
  {
    Norm2(y) > TooLargeGain * TooLargeGain * Norm2(r)
  }

  /** `np.any(too_large)`: the condition of the warning. */
  predicate Warned(Y: seq<Complex>, R: seq<Complex>)
    requires |Y| == |R|
  {
    exists k :: 0 <= k < |Y| && TooLarge(Y[k], R[k])
  }

  /** `Y[too_large] = 0`. */
  function GuardGains(Y: seq<Complex>, R: seq<Complex>): (g: seq<Complex>)
    requires |Y| == |R|
    ensures |g| == |Y|
  {
    seq(|Y|, k requires 0 <= k < |Y| => if TooLarge(Y[k], R[k]) then Zero else Y[k])
  }

  /** The squared moduli |R[k]|². */
  function Powers(R: seq<Complex>): (p: seq<real>)
    ensures |p| == |R|
  {
    seq(|R|, k requires 0 <= k < |R| => Norm2(R[k]))
  }

  /** The largest |R[k]|²; its dB value 10·log10 is `maxRdB`, since the
      logarithm is increasing. */
  function PeakPower(R: seq<Complex>): real
    requires |R| > 0
  {
    Powers(R)[ArgMax(Powers(R))]
  }

  /** The regularisation added to |R[k]|² in the denominator. Without
      reg_lim_dB it is the scalar `reg`. With it, `floorRatio` is
      10^(-reg_lim_dB / 10), the floor 10^(minRdB / 10) is the peak power
      times that ratio, and reg[k] = floor - |R[k]|², negative values set to
      0; the caller's `reg` is overwritten. */
  function Regularisation(R: seq<Complex>, reg: real, floorRatio: Option<real>): (rg: seq<real>)
    requires |R| > 0
    ensures |rg| == |R|
  {
    match floorRatio
    case None => seq(|R|, _ => reg)
    case Some(ratio) => LiftedTo(R, PeakPower(R), ratio)
  }

  /** Per bin, what lifts |R[k]|² to the floor peak · ratio, and nothing
      for a bin already above it. */
  function LiftedTo(R: seq<Complex>, peak: real, ratio: real): (rg: seq<real>)
    ensures |rg| == |R|
  {
    var floor := peak * ratio;
    seq(|R|, k requires 0 <= k < |R| => if floor - Norm2(R[k]) < 0.0 then 0.0 else floor - Norm2(R[k]))
  }

  /** The spectrum transfer_function returns with ret_time=False, computed
      from the rfft of ref (R) and of meas (Y). */
  function TransferSpectrum(R: seq<Complex>, Y: seq<Complex>, reg: real, floorRatio: Option<real>): (H: seq<Ratio>)
    requires |R| == |Y| && |R| > 0
    ensures |H| == |R|
  {
    var r := ReplaceZeroBins(R);
    var y := GuardGains(Y, r);
    var rg := Regularisation(r, reg, floorRatio);
    seq(|R|, k requires 0 <= k < |R| => Divide(Mul(y[k], Conj(r[k])), Norm2(r[k]) + rg[k]))
  }

  /** `np.max` over the bins, as a scan over the reference array. */
  method MaxPower(r: array<Complex>) returns (p: real)
    requires r.Length > 0
    ensures p == PeakPower(r[..])
  {
    var best := 0;
    for k := 1 to r.Length
      invariant 0 <= best < k
      invariant forall j :: 0 <= j < k ==> Norm2(r[j]) <= Norm2(r[best])
    {
      if Norm2(r[k]) > Norm2(r[best]) {
        best := k;
      }
    }
    p := Norm2(r[best]);
    ghost var peak := ArgMax(Powers(r[..]));
    assert Powers(r[..])[best] <= Powers(r[..])[peak];
  }

  /** transfer_function(ref, meas, ret_time=False, reg, reg_lim_dB) on the
      two spectra: the masked assignments work in place on copies of R and
      Y, and the result says whether the too-large-gain warning was issued. */
  method TransferFunction(R: seq<Complex>, Y: seq<Complex>, reg: real, floorRatio: Option<real>)
    returns (H: seq<Ratio>, warned: bool)
    requires |R| == |Y| && |R| > 0
    ensures H == TransferSpectrum(R, Y, reg, floorRatio)
    ensures warned <==> Warned(Y, ReplaceZeroBins(R))
  {
    var n := |R|;
    var r := new Complex[n](k requires 0 <= k < n => R[k]);
    assert r[..] == R;
    ReplaceZeroBinsInPlace(r);
    var y := new Complex[n](k requires 0 <= k < n => Y[k]);
    assert y[..] == Y;
    warned := GuardGainsInPlace(y, r);
    var rg := RegularisationOf(r, reg, floorRatio);
    var rs, ys, rgs := r[..], y[..], rg[..];
    H := seq(n, k requires 0 <= k < n => Divide(Mul(ys[k], Conj(rs[k])), Norm2(rs[k]) + rgs[k]));
  }

  /** `R[R == 0] = eps` on the reference spectrum. */
  method ReplaceZeroBinsInPlace(r: array<Complex>)
    modifies r
    ensures r[..] == ReplaceZeroBins(old(r[..]))
  {
    forall k | 0 <= k < r.Length && r[k] == Zero {
      r[k] := Complex(Eps, 0.0);
    }
  }

  /** The too_large mask, the warning condition, and `Y[too_large] = 0`
      on the measured spectrum when the mask has a set bin. */
  method GuardGainsInPlace(y: array<Complex>, r: array<Complex>) returns (warned: bool)
    requires y.Length == r.Length && y != r
    modifies y
    ensures warned <==> Warned(old(y[..]), r[..])
    ensures y[..] == GuardGains(old(y[..]), r[..])
  {
    var n := y.Length;
    var tooLarge := new bool[n];
    forall k | 0 <= k < n {
      tooLarge[k] := TooLarge(y[k], r[k]);
    }
    assert forall j :: 0 <= j < n ==> tooLarge[j] == TooLarge(old(y[..])[j], r[..][j]);
    warned := false;
    for k := 0 to n
      invariant warned <==> exists j :: 0 <= j < k && tooLarge[j]
    {
      if tooLarge[k] {
        warned := true;
      }
    }
    if warned {
      forall k | 0 <= k < n && tooLarge[k] {
        y[k] := Zero;
      }
    }
    forall k | 0 <= k < n
      ensures y[k] == GuardGains(old(y[..]), r[..])[k]
    {
      if !warned {
        assert !tooLarge[k];
      }
    }
  }

  /** The per-bin regularisation: the scalar reg broadcast over the bins,
      or, with reg_lim_dB, `10 ** (minRdB / 10) - |R|**2` with its
      negative entries set to 0. */
  method RegularisationOf(r: array<Complex>, reg: real, floorRatio: Option<real>) returns (rg: array<real>)
    requires r.Length > 0
    ensures fresh(rg)
    ensures rg[..] == Regularisation(r[..], reg, floorRatio)
  {
    match floorRatio
    case Some(ratio) =>
      var peak := MaxPower(r);
      rg := LiftToFloor(r, peak, ratio);
    case None =>
      rg := new real[r.Length](_ => reg);
      assert forall k :: 0 <= k < r.Length ==> rg[..][k] == Regularisation(r[..], reg, floorRatio)[k];
  }

  /** `reg = floor - abs(R)**2; reg[reg < 0] = 0`: the per-bin term that
      lifts each bin's power to the floor. */
  method LiftToFloor(r: array<Complex>, peak: real, ratio: real) returns (rg: array<real>)
    ensures fresh(rg)
    ensures rg[..] == LiftedTo(r[..], peak, ratio)
  {
    var floor := peak * ratio;
    rg := new real[r.Length];
    forall k | 0 <= k < r.Length {
      rg[k] := floor - Norm2(r[k]);
    }
    forall k | 0 <= k < r.Length && rg[k] < 0.0 {
      rg[k] := 0.0;
    }
    assert forall k :: 0 <= k < r.Length ==> rg[..][k] == LiftedTo(r[..], peak, ratio)[k];
  }

  /** After the guard no bin has a gain above TOO_LARGE_GAIN, so applying
      the guard again changes nothing and would not warn. */
  lemma GuardIsIdempotent(Y: seq<Complex>, R: seq<Complex>)
    requires |Y| == |R|
    ensures forall k :: 0 <= k < |Y| ==> !TooLarge(GuardGains(Y, R)[k], R[k])
    ensures !Warned(GuardGains(Y, R), R)
    ensures GuardGains(GuardGains(Y, R), R) == GuardGains(Y, R)
  {
    var g := GuardGains(Y, R);
    forall k | 0 <= k < |Y|
      ensures !TooLarge(g[k], R[k])
    {
      if TooLarge(Y[k], R[k]) {
        assert Norm2(g[k]) == 0.0;
      }
    }
  }

  /** With reg_lim_dB every regularisation term is non-negative and lifts
      the power of each bin exactly to the floor when it is below it:
      |R[k]|² + reg[k] = max(|R[k]|², floor). The caller's reg plays no
      part. */
  lemma RegularisationLiftsToFloor(R: seq<Complex>, reg: real, ratio: real, k: nat)
    requires |R| > 0 && k < |R|
    ensures var rg := Regularisation(R, reg, Some(ratio));
      var floor := PeakPower(R) * ratio;
      && rg[k] >= 0.0
      && Norm2(R[k]) + rg[k] == (if Norm2(R[k]) >= floor then Norm2(R[k]) else floor)
    ensures forall other: real :: Regularisation(R, other, Some(ratio)) == Regularisation(R, reg, Some(ratio))
  {
  }

  /** The denominator of every bin is non-zero, so every bin of H is
      finite, when a positive scalar reg is used or when the reg_lim_dB
      floor is positive. */
  lemma FiniteWhenRegularised(R: seq<Complex>, Y: seq<Complex>, reg: real, floorRatio: Option<real>)
    requires |R| == |Y| && |R| > 0
    requires floorRatio.None? ==> reg > 0.0
    requires floorRatio.Some? ==> PeakPower(ReplaceZeroBins(R)) * floorRatio.value > 0.0
    ensures forall k :: 0 <= k < |R| ==> TransferSpectrum(R, Y, reg, floorRatio)[k].Finite?
  {
    var r := ReplaceZeroBins(R);
    forall k | 0 <= k < |R|
      ensures Norm2(r[k]) + Regularisation(r, reg, floorRatio)[k] > 0.0
    {
      match floorRatio
      case None => ScalarDenominatorPositive(r, reg, k);
      case Some(ratio) => FloorDenominatorPositive(r, reg, ratio, k);
    }
  }

  /** A positive scalar reg makes every denominator positive. */
  lemma ScalarDenominatorPositive(R: seq<Complex>, reg: real, k: nat)
    requires |R| > 0 && k < |R| && reg > 0.0
    ensures Norm2(R[k]) + Regularisation(R, reg, None)[k] > 0.0
  {
    assert Regularisation(R, reg, None)[k] == reg;
  }

  /** A positive reg_lim_dB floor makes every denominator at least the
      floor. */
  lemma FloorDenominatorPositive(R: seq<Complex>, reg: real, ratio: real, k: nat)
    requires |R| > 0 && k < |R| && PeakPower(R) * ratio > 0.0
    ensures Norm2(R[k]) + Regularisation(R, reg, Some(ratio))[k] > 0.0
  {
    RegularisationLiftsToFloor(R, reg, ratio, k);
  }

  /** Without regularisation, every bin whose denominator is non-zero and
      whose gain passed the guard is the quotient Y[k] / R[k]: multiplied
      back by the (eps-replaced) reference bin it gives the measured bin. */
  lemma UnregularisedIsQuotient(R: seq<Complex>, Y: seq<Complex>, k: nat)
    requires |R| == |Y| && k < |R|
    requires Norm2(ReplaceZeroBins(R)[k]) != 0.0
    requires !TooLarge(Y[k], ReplaceZeroBins(R)[k])
    ensures TransferSpectrum(R, Y, 0.0, None)[k].Finite?
    ensures Mul(TransferSpectrum(R, Y, 0.0, None)[k].value, ReplaceZeroBins(R)[k]) == Y[k]
  {
    var r := ReplaceZeroBins(R);
    var y := GuardGains(Y, r);
    assert y[k] == Y[k];
    var rg := Regularisation(r, 0.0, None);
    assert rg[k] == 0.0;
    assert TransferSpectrum(R, Y, 0.0, None)[k] == Divide(Mul(Y[k], Conj(r[k])), Norm2(r[k]));
    DivisionByReferenceUndone(Y[k], r[k]);
  }

  /** A reference bin that was exactly zero is divided by eps alone: its
      bin of H is finite and equals Y[k] / eps, or 0 when the gain guard
      removed Y[k]. */
  lemma ZeroReferenceBin(R: seq<Complex>, Y: seq<Complex>, k: nat)
    requires |R| == |Y| && k < |R| && R[k] == Zero
    ensures TransferSpectrum(R, Y, 0.0, None)[k]
         == Finite(if TooLarge(Y[k], Complex(Eps, 0.0)) then Zero else Times(Y[k], 1.0 / Eps))
  {
    var r := ReplaceZeroBins(R);
    var e := Complex(Eps, 0.0);
    assert r[k] == e;
    var y := GuardGains(Y, r)[k];
    assert y == if TooLarge(Y[k], e) then Zero else Y[k];
    assert Regularisation(r, 0.0, None)[k] == 0.0;
    DividedByEps(y);
    if TooLarge(Y[k], e) {
      assert Times(Zero, 1.0 / Eps) == Zero;
    }
  }

  /** Dividing by the eps that replaced a zero bin, with no regularisation. */
  lemma DividedByEps(y: Complex)
    ensures Divide(Mul(y, Conj(Complex(Eps, 0.0))), Norm2(Complex(Eps, 0.0)) + 0.0) == Finite(Times(y, 1.0 / Eps))
  {
    var e := Complex(Eps, 0.0);
    assert Norm2(e) + 0.0 == Eps * Eps;
    assert Mul(y, Conj(e)) == Times(y, Eps);
    TimesTimes(y, Eps, 1.0 / (Eps * Eps));
    assert Eps * (1.0 / (Eps * Eps)) == 1.0 / Eps;
  }

  // ---------------------------------------------------------------------
  // exponential_sweep

  /** n_tap = int(np.round(T * fs)). */
  function SweepTaps(T: real, fs: real): int
  {
    RoundHalfEven(T * fs)
  }

  /** The start and end frequencies: f_start defaults to fs / n_tap (a
      ZeroDivisionError when n_tap is 0), f_end to fs / 2, and then
      `assert f_start < f_end` and `assert f_end <= fs / 2`. */
  function SweepBand(fs: real, nTap: int, fStart: Option<real>, fEnd: Option<real>): (b: Result<(real, real)>)
    ensures b.Ok? ==> b.value.0 < b.value.1 <= fs / 2.0
    ensures b.Ok? && fStart.Some? ==> b.value.0 == fStart.value
    ensures b.Ok? && fEnd.Some? ==> b.value.1 == fEnd.value
  {
    if fStart.None? && nTap == 0 then Err("ZeroDivisionError: division by zero")
    else
      var f0 := if fStart.Some? then fStart.value else fs / nTap as real;
      var fe := if fEnd.Some? then fEnd.value else fs / 2.0;
      if !(f0 < fe) then Err("AssertionError: f_start < f_end")
      else if !(fe <= fs / 2.0) then Err("AssertionError: f_end <= fs / 2")
      else Ok((f0, fe))
  }

  /** `sweep * maxamp` before fading: sample i is the chirp at
      t = i · T / n_tap (np.linspace without the end point). `chirp(f0, fe,
      T, t)` stands for the sine of Farina's exponential phase. */
  function RawSweep(nTap: nat, T: real, f0: real, fe: real, maxamp: real,
                    chirp: (real, real, real, real) -> real): (s: seq<real>)
    ensures |s| == nTap
  {
    seq(nTap, i requires 0 <= i < nTap => chirp(f0, fe, T, i as real * (T / nTap as real)) * maxamp)
  }

  /** `sweep[:nf] = sweep[:nf] * w[:nf]` for the window w = hann(2 nf);
      `hann(m, i)` is sample i of scipy's symmetric Hann window of length m. */
  function FadeIn(s: seq<real>, nf: nat, hann: (nat, nat) -> real): (r: seq<real>)
    ensures |r| == |s|
  {
    seq(|s|, i requires 0 <= i < |s| => if i < nf then s[i] * hann(2 * nf, i) else s[i])
  }

  /** `sweep[-nf:] = sweep[-nf:] * w[-nf:]`: the last nf samples times the
      falling half of the window. */
  function FadeOut(s: seq<real>, nf: nat, hann: (nat, nat) -> real): (r: seq<real>)
    requires nf <= |s|
    ensures |r| == |s|
  {
    seq(|s|, i requires 0 <= i < |s| =>
      if i >= |s| - nf then s[i] * hann(2 * nf, i - (|s| - nf) + nf) else s[i])
  }

  /** The `if tfade:` block. n_fade = round(tfade · fs); hann raises on a
      negative length; a zero n_fade makes `sweep[-0:]` the whole sweep, whose
      product with an empty window only broadcasts for an empty sweep; an
      n_fade beyond the sweep only broadcasts for an empty sweep and
      n_fade = 1. */
  function Faded(s: seq<real>, tfade: real, fs: real, hann: (nat, nat) -> real): (r: Result<seq<real>>)
    ensures r.Ok? ==> |r.value| == |s|
  {
    if tfade == 0.0 then Ok(s)
    else
      var nf := RoundHalfEven(tfade * fs);
      if nf < 0 then Err("ValueError: Window length M must be a non-negative integer")
      else if nf == 0 || nf > |s| then
        (if |s| == 0 && nf <= 1 then Ok(s) else Err("ValueError: could not broadcast"))
      else Ok(FadeOut(FadeIn(s, nf, hann), nf, hann))
  }

  /** The fade with the evident intent for n_fade = 0: a fade of zero
      samples leaves the sweep as it is, whatever its length; every other
      case is the block as written. */
  function FadedIntended(s: seq<real>, tfade: real, fs: real, hann: (nat, nat) -> real): (r: Result<seq<real>>)
    ensures tfade != 0.0 && RoundHalfEven(tfade * fs) == 0 ==> r == Ok(s)
    ensures r.Ok? ==> |r.value| == |s|
    ensures RoundHalfEven(tfade * fs) != 0 ==> r == Faded(s, tfade, fs, hann)
  {
    if tfade != 0.0 && RoundHalfEven(tfade * fs) == 0 then Ok(s) else Faded(s, tfade, fs, hann)
  }

  /** A fade time below half a sample: tfade = 10 µs at 48 kHz rounds to
      n_fade = 0, `sweep[-0:]` is then the whole sweep, and its product with
      the empty window raises for a two-sample sweep, where the intended
      fade leaves it unchanged. */
  lemma TinyFadeRaises(hann: (nat, nat) -> real)
    ensures RoundHalfEven(0.00001 * 48000.0) == 0
    ensures Faded([1.0, 1.0], 0.00001, 48000.0, hann).Err?
    ensures FadedIntended([1.0, 1.0], 0.00001, 48000.0, hann) == Ok([1.0, 1.0])
  {
    assert 0.00001 * 48000.0 == 0.48;
    assert (0.48).Floor == 0;
  }

  /** The `if post_silence > 0:` block: int(round(post_silence · fs)) zeros,
      numpy.zeros raising on a negative count. */
  function Silence(postSilence: real, fs: real): (r: Result<seq<real>>)
    ensures r.Ok? ==> |r.value| == (if postSilence > 0.0 then RoundHalfEven(postSilence * fs) else 0)
    ensures r.Ok? ==> forall i :: 0 <= i < |r.value| ==> r.value[i] == 0.0
  {
    if postSilence > 0.0 then
      var ns := RoundHalfEven(postSilence * fs);
      if ns < 0 then Err("ValueError: negative dimensions are not allowed") else Ok(Zeros(ns))
    else Ok([])
  }

  /** exponential_sweep(T, fs, tfade, f_start, f_end, maxamp, post_silence),
      in the order the function raises: the default f_start, the asserts,
      np.linspace (negative n_tap), w_end / w_start inside the chirp's
      argument (a ZeroDivisionError for f_start = 0), the fades, the
      silence. */
  function ExponentialSweepSpec(T: real, fs: real, tfade: real, fStart: Option<real>, fEnd: Option<real>,
                                maxamp: real, postSilence: real,
                                chirp: (real, real, real, real) -> real, hann: (nat, nat) -> real): Result<seq<real>>
  {
    var nTap := SweepTaps(T, fs);
    var band := SweepBand(fs, nTap, fStart, fEnd);
    if band.Err? then Err(band.error)
    else if nTap < 0 then Err("ValueError: Number of samples must be non-negative")
    else if band.value.0 == 0.0 then Err("ZeroDivisionError: float division by zero")
    else
      var faded := Faded(RawSweep(nTap, T, band.value.0, band.value.1, maxamp, chirp), tfade, fs, hann);
      var silence := Silence(postSilence, fs);
      if faded.Err? then Err(faded.error)
      else if silence.Err? then Err(silence.error)
      else Ok(faded.value + silence.value)
  }

  /** A negative duration with a zero start frequency: np.linspace rejects
      n_tap = -48000 before w_end / w_start would divide by zero. */
  lemma NegativeDurationRaisesBeforeDivision(maxamp: real, postSilence: real,
                                             chirp: (real, real, real, real) -> real, hann: (nat, nat) -> real)
    ensures ExponentialSweepSpec(-1.0, 48000.0, 0.0, Some(0.0), Some(1000.0), maxamp, postSilence, chirp, hann)
         == Err("ValueError: Number of samples must be non-negative")
  {
    assert SweepTaps(-1.0, 48000.0) == -48000 by {
      assert -1.0 * 48000.0 == -48000.0;
      assert (-48000.0).Floor == -48000;
    }
  }

  /** exponential_sweep: the sweep is a buffer whose two ends are faded in
      place before the silence is appended. */
  method ExponentialSweep(T: real, fs: real, tfade: real, fStart: Option<real>, fEnd: Option<real>,
                          maxamp: real, postSilence: real,
                          chirp: (real, real, real, real) -> real, hann: (nat, nat) -> real)
    returns (r: Result<seq<real>>)
    ensures r == ExponentialSweepSpec(T, fs, tfade, fStart, fEnd, maxamp, postSilence, chirp, hann)
  {
    var nTap := SweepTaps(T, fs);
    var band := SweepBand(fs, nTap, fStart, fEnd);
    if band.Err? {
      return Err(band.error);
    }
    var (f0, fe) := band.value;
    if nTap < 0 {
      return Err("ValueError: Number of samples must be non-negative");
    }
    if f0 == 0.0 {
      return Err("ZeroDivisionError: float division by zero");
    }
    ghost var raw := RawSweep(nTap, T, f0, fe, maxamp, chirp);
    var sweep := new real[nTap](i requires 0 <= i < nTap => chirp(f0, fe, T, i as real * (T / nTap as real)) * maxamp);
    assert sweep[..] == raw;
    if tfade != 0.0 {
      var nf := RoundHalfEven(tfade * fs);
      if nf < 0 {
        return Err("ValueError: Window length M must be a non-negative integer");
      }
      if nf == 0 || nf > sweep.Length {
        if !(sweep.Length == 0 && nf <= 1) {
          return Err("ValueError: could not broadcast");
        }
      } else {
        FadeEnds(sweep, nf, hann);
      }
    }
    assert Faded(raw, tfade, fs, hann) == Ok(sweep[..]);
    var silence: seq<real> := [];
    if postSilence > 0.0 {
      var ns := RoundHalfEven(postSilence * fs);
      if ns < 0 {
        return Err("ValueError: negative dimensions are not allowed");
      }
      silence := Zeros(ns);
    }
    assert Silence(postSilence, fs) == Ok(silence);
    r := Ok(sweep[..] + silence);
  }

  /** The two slice assignments of the fade, in order, on the sweep buffer. */
  method FadeEnds(sweep: array<real>, nf: nat, hann: (nat, nat) -> real)
    requires 0 < nf <= sweep.Length
    modifies sweep
    ensures sweep[..] == FadeOut(FadeIn(old(sweep[..]), nf, hann), nf, hann)
  {
    var n := sweep.Length;
    forall i | 0 <= i < nf {
      sweep[i] := sweep[i] * hann(2 * nf, i);
    }
    ghost var faded := FadeIn(old(sweep[..]), nf, hann);
    assert forall i :: 0 <= i < n ==> sweep[i] == faded[i];
    forall i | n - nf <= i < n {
      sweep[i] := sweep[i] * hann(2 * nf, i - (n - nf) + nf);
    }
    assert forall i :: 0 <= i < n ==> sweep[i] == FadeOut(faded, nf, hann)[i];
  }

  /** The sweep is n_tap samples long followed by round(post_silence · fs)
      zeros when post_silence > 0. */
  lemma SweepLength(T: real, fs: real, tfade: real, fStart: Option<real>, fEnd: Option<real>,
                    maxamp: real, postSilence: real,
                    chirp: (real, real, real, real) -> real, hann: (nat, nat) -> real)
    ensures var r := ExponentialSweepSpec(T, fs, tfade, fStart, fEnd, maxamp, postSilence, chirp, hann);
      var nTap := SweepTaps(T, fs);
      r.Ok? ==>
        && nTap >= 0
        && |r.value| == nTap + (if postSilence > 0.0 then RoundHalfEven(postSilence * fs) else 0)
        && forall i :: nTap <= i < |r.value| ==> r.value[i] == 0.0
  {
    var r := ExponentialSweepSpec(T, fs, tfade, fStart, fEnd, maxamp, postSilence, chirp, hann);
    var nTap := SweepTaps(T, fs);
    if r.Ok? {
      var band := SweepBand(fs, nTap, fStart, fEnd);
      var faded := Faded(RawSweep(nTap, T, band.value.0, band.value.1, maxamp, chirp), tfade, fs, hann);
      var silence := Silence(postSilence, fs);
      assert r.value == faded.value + silence.value;
      assert |faded.value| == nTap;
      forall i | nTap <= i < |r.value|
        ensures r.value[i] == 0.0
      {
        assert r.value[i] == silence.value[i - nTap];
      }
    }
  }

  /** The fades only touch the first and last n_fade samples: the middle of
      the sweep is the raw chirp, the head is multiplied by the rising half
      of the Hann window, the tail by the falling half, and a sample in both
      (a sweep shorter than 2 n_fade) is multiplied by both. */
  lemma FadeShape(s: seq<real>, nf: nat, hann: (nat, nat) -> real, i: nat)
    requires 0 < nf <= |s| && i < |s|
    ensures var f := FadeOut(FadeIn(s, nf, hann), nf, hann);
      && (nf <= i < |s| - nf ==> f[i] == s[i])
      && (i < nf && i < |s| - nf ==> f[i] == s[i] * hann(2 * nf, i))
      && (i >= |s| - nf && i >= nf ==> f[i] == s[i] * hann(2 * nf, i + 2 * nf - |s|))
      && (i < nf && i >= |s| - nf ==> f[i] == s[i] * hann(2 * nf, i) * hann(2 * nf, i + 2 * nf - |s|))
  {
  }

  /** With tfade = 0 the sweep starts with the unfaded chirp. */
  lemma NoFadeKeepsChirp(T: real, fs: real, fStart: Option<real>, fEnd: Option<real>,
                         maxamp: real, postSilence: real,
                         chirp: (real, real, real, real) -> real, hann: (nat, nat) -> real)
    ensures var r := ExponentialSweepSpec(T, fs, 0.0, fStart, fEnd, maxamp, postSilence, chirp, hann);
      var nTap := SweepTaps(T, fs);
      r.Ok? ==> nTap >= 0 && r.value[..nTap] == RawSweep(nTap, T, SweepBand(fs, nTap, fStart, fEnd).value.0,
                                                         SweepBand(fs, nTap, fStart, fEnd).value.1, maxamp, chirp)
  {
  }

  /** With both band edges left to their defaults and a positive sampling
      rate, the asserts hold exactly when the sweep has more than two
      samples, and the band is [fs / n_tap, fs / 2]. */
  lemma DefaultBand(fs: real, nTap: int)
    requires fs > 0.0 && nTap > 0
    ensures SweepBand(fs, nTap, None, None).Ok? <==> nTap > 2
    ensures SweepBand(fs, nTap, None, None).Ok? ==>
      SweepBand(fs, nTap, None, None).value == (fs / nTap as real, fs / 2.0)
  {
    var n := nTap as real;
    var a, h := fs / n, fs / 2.0;
    assert a * n == fs;
    assert h * n - fs == h * (n - 2.0);
    if nTap > 2 {
      if a >= h {
        ScaleMonotone(a, h, n);
        ProductPositive(h, n - 2.0);
        assert false;
      }
    } else if a < h {
      ScaleMonotone(h, a, n);
      assert false;
    }
  }
}
