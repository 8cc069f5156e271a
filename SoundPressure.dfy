/** The exact part of libownaura/recordings_to_sound_pressure.py: the
    single-sided amplitude spectrum built from an rfft (normalisation by the
    sample count, then the parity-dependent doubling), and the conversion of
    a headset recording to sound pressure (an in-place calibrator gain, then
    the causal FIR filter of the headset-to-microphone impulse response). */
module SoundPressure {
  import opened Signals
  import opened ComplexArith

  // ---------------------------------------------------------------------
  // amplitude_spectrum

  /** Whether bin k of the rfft of an n-sample signal is doubled: every bin
      except DC and, for even n, the Nyquist bin n / 2, which is the last. */
  predicate Doubled(n: nat, k: nat)
  {
    k > 0 && !(n % 2 == 0 && k == n / 2)
  }

  /** The factor amplitude_spectrum applies to bin k: 1/n when normalising,
      times 2 for a doubled bin. */
  function BinWeight(n: nat, k: nat, norm: bool): real
    requires n > 0
  {
    (if norm then 1.0 / n as real else 1.0) * (if Doubled(n, k) then 2.0 else 1.0)
  }

  /** The single-sided spectrum: every rfft bin scaled by its weight. */
  function OneSided(n: nat, X: seq<Complex>, norm: bool): (A: seq<Complex>)
    requires n > 0
    ensures |A| == |X|
  {
    seq(|X|, k requires 0 <= k < |X| => Times(X[k], BinWeight(n, k, norm)))
  }

  /** amplitude_spectrum(x, norm) for a signal of n samples whose rfft is X
      (n // 2 + 1 bins): numpy's rfft raises on an empty signal; otherwise
      the bins are divided by n in place when `norm`, and then `X[1:-1]`
      (even n) or `X[1:]` (odd n) is doubled in place. */
  method AmplitudeSpectrum(n: nat, X: seq<Complex>, norm: bool) returns (r: Result<seq<Complex>>)
    requires n > 0 ==> |X| == n / 2 + 1
    ensures r.Ok? <==> n > 0
    ensures r.Ok? ==> r.value == OneSided(n, X, norm)
  {
    if n == 0 {
      return Err("ValueError: Invalid number of FFT data points (0) specified.");
    }
    var A := new Complex[|X|](k requires 0 <= k < |X| => X[k]);
    var scale := if norm then 1.0 / n as real else 1.0;
    if norm {
      forall k | 0 <= k < A.Length {
        A[k] := Times(A[k], scale);
      }
    }
    assert forall k :: 0 <= k < A.Length ==> A[k] == Times(X[k], scale);
    if n % 2 == 0 {
      forall k | 1 <= k < A.Length - 1 {
        A[k] := Times(A[k], 2.0);
      }
    } else {
      forall k | 1 <= k < A.Length {
        A[k] := Times(A[k], 2.0);
      }
    }
    forall k | 0 <= k < A.Length
      ensures A[k] == OneSided(n, X, norm)[k]
    {
      if Doubled(n, k) {
        TimesTimes(X[k], scale, 2.0);
      } else {
        TimesTimes(X[k], scale, 1.0);
      }
    }
    r := Ok(A[..]);
  }

  /** The doubled bins are exactly the bins whose negative-frequency twin
      n - k is a different bin of the two-sided spectrum, so the doubling
      folds the discarded half of the spectrum onto the kept half. */
  lemma DoubledBinsHaveDistinctTwin(n: nat, k: nat)
    requires n > 0 && k <= n / 2
    ensures Doubled(n, k) <==> 0 < k && n - k != k
  {
  }

  /** With normalisation, a sinusoid of complex amplitude c on a doubled
      bin (its rfft bin is c·n/2) and a DC or Nyquist component of
      amplitude c (its rfft bin is c·n) both come out with amplitude c: the
      amplitude of sinusoids is conserved. */
  lemma SinusoidAmplitudeConserved(n: nat, X: seq<Complex>, k: nat, c: Complex)
    requires n > 0 && |X| == n / 2 + 1 && k < |X|
    ensures Doubled(n, k) && X[k] == Times(c, n as real / 2.0) ==> OneSided(n, X, true)[k] == c
    ensures !Doubled(n, k) && X[k] == Times(c, n as real) ==> OneSided(n, X, true)[k] == c
  {
    var m := n as real;
    if Doubled(n, k) && X[k] == Times(c, m / 2.0) {
      TimesTimes(c, m / 2.0, BinWeight(n, k, true));
      assert m / 2.0 * (1.0 / m * 2.0) == 1.0;
    }
    if !Doubled(n, k) && X[k] == Times(c, m) {
      TimesTimes(c, m, BinWeight(n, k, true));
      assert m * (1.0 / m * 1.0) == 1.0;
    }
  }

  // ---------------------------------------------------------------------
  // headset_to_sound_pressure

  /** headset_to_sound_pressure(x, gain, ir): `x *= gain` scales the
      caller's array in place, then `lfilter(ir, 1, x)` returns the causal
      FIR response, which scipy computes as the first len(x) samples of
      numpy.convolve(ir, x) (that convolution raises on an empty operand). */
  method HeadsetToSoundPressure(x: array<real>, gain: real, ir: seq<real>) returns (r: Result<seq<real>>)
    modifies x
    ensures x[..] == Scale(old(x[..]), gain)
    ensures r.Ok? <==> |ir| > 0 && x.Length > 0
    ensures r.Ok? ==> r.value == Fir(ir, x[..])
  {
    forall i | 0 <= i < x.Length {
      x[i] := gain * x[i];
    }
    assert forall i :: 0 <= i < x.Length ==> x[..][i] == Scale(old(x[..]), gain)[i];
    if |ir| == 0 || x.Length == 0 {
      return Err("ValueError: v cannot be empty");
    }
    var full := Conv(ir, x[..]);
    FirIsTruncatedConv(ir, x[..]);
    r := Ok(full[..x.Length]);
  }

  /** The sound pressure estimate, sample by sample:
      out[k] = Σ_{j <= min(k, len(ir) - 1)} ir[j]·gain·x[k - j], i.e. the
      filtered recording times the gain, as long as the recording. */
  lemma SoundPressureSample(ir: seq<real>, x: seq<real>, gain: real, k: nat)
    requires k < |x|
    ensures |Fir(ir, Scale(x, gain))| == |x|
    ensures Fir(ir, Scale(x, gain))[k] == gain * FirPartial(ir, x, k, Min(k + 1, |ir|))
  {
    FirCommutesWithGain(ir, x, gain);
  }
}
