/** Exact vocabulary shared by the signal-processing modules: error results,
    zero padding, Python/numpy rounding, sums of squares, numpy's full
    convolution, scipy's FIR filter with a unit denominator, and numpy's
    first-occurrence argmin/argmax. Samples are exact reals. */
module Signals {

  /** A computation that either yields a value or raises (an assert or a
      numpy/scipy ValueError in the original scripts). */
  datatype Result<T> = Ok(value: T) | Err(error: string)

  datatype Option<T> = None | Some(value: T)

  function Min(a: int, b: int): int { if a <= b then a else b }

  function Max(a: int, b: int): int { if a >= b then a else b }

  /** numpy.zeros(n) */
  function Zeros(n: nat): (z: seq<real>)
    ensures |z| == n
  {
    seq(n, _ => 0.0)
  }

  /** Elementwise product of a signal with a scalar (numpy `x * g`). */
  function Scale(s: seq<real>, g: real): (r: seq<real>)
    ensures |r| == |s|
  {
    seq(|s|, i requires 0 <= i < |s| => g * s[i])
  }

  /** `s` extended at the end with zeros up to length `n`; a signal that is
      already long enough is left as it is. */
  function ZeroPadTo(s: seq<real>, n: nat): (r: seq<real>)
    ensures |r| == Max(|s|, n)
    ensures r[..|s|] == s
    ensures forall i :: |s| <= i < |r| ==> r[i] == 0.0
  {
    if |s| >= n then s else s + Zeros(n - |s|)
  }

  /** Python's round() and numpy.round: nearest integer, ties to even. */
  function RoundHalfEven(x: real): (r: int)
    ensures x - 0.5 <= r as real <= x + 0.5
    ensures (r as real - x == 0.5 || x - r as real == 0.5) ==> r % 2 == 0
  {
    var f := x.Floor;
    var frac := x - f as real;
    if frac < 0.5 then f
    else if frac > 0.5 then f + 1
    else if f % 2 == 0 then f
    else f + 1
  }

  /** Python's int() on a float: truncation toward zero. */
  function TruncateTowardZero(x: real): (r: int)
    ensures 0.0 <= x ==> r as real <= x < r as real + 1.0
    ensures x < 0.0 ==> r as real - 1.0 < x <= r as real
  {
    if x >= 0.0 then x.Floor else -((-x).Floor)
  }

  /** Sum of squares of the samples, `np.sum(s**2)`. */
  function Energy(s: seq<real>): (e: real)
    ensures e >= 0.0
  {
    if s == [] then 0.0 else Energy(s[..|s| - 1]) + s[|s| - 1] * s[|s| - 1]
  }

  /** Cutting samples off the end never adds energy. */
  lemma {:induction false} PrefixEnergyBounded(s: seq<real>, m: nat)
    requires m <= |s|
    ensures Energy(s[..m]) <= Energy(s)
  {
    if m < |s| {
      PrefixEnergyBounded(s[..|s| - 1], m);
      assert s[..|s| - 1][..m] == s[..m];
    } else {
      assert s[..m] == s;
    }
  }

  // ---------------------------------------------------------------------
  // 2-D arrays

  /** The rows (channels) of a 2-D numpy array of shape (nch, nsample). */
  function Rows(w: array2<real>): (rows: seq<seq<real>>)
    reads w
    ensures |rows| == w.Length0
    ensures forall i :: 0 <= i < |rows| ==> |rows[i]| == w.Length1
  {
    seq(w.Length0, i requires 0 <= i < w.Length0 reads w =>
      seq(w.Length1, k requires 0 <= k < w.Length1 reads w => w[i, k]))
  }

  /** Every row has `cols` samples: a 2-D array, not a ragged list. */
  predicate IsMatrix(w: seq<seq<real>>, cols: nat)
  {
    forall i :: 0 <= i < |w| ==> |w[i]| == cols
  }

  // ---------------------------------------------------------------------
  // Full convolution, numpy.convolve(a, b) (mode "full")

  /** The j-th term of output sample k: a[j]·b[k-j], or 0 when k-j is
      outside b. */
  function ConvTerm(a: seq<real>, b: seq<real>, k: int, j: nat): real
    requires j < |a|
  {
    if 0 <= k - j < |b| then a[j] * b[k - j] else 0.0
  }

  /** Σ_{j < m} a[j]·b[k-j] */
  function ConvPartial(a: seq<real>, b: seq<real>, k: int, m: nat): real
    requires m <= |a|
  {
    if m == 0 then 0.0 else ConvPartial(a, b, k, m - 1) + ConvTerm(a, b, k, m - 1)
  }

  /** Output sample k of the full convolution. */
  function ConvAt(a: seq<real>, b: seq<real>, k: int): real
  {
    ConvPartial(a, b, k, |a|)
  }

  /** numpy.convolve(a, b): defined for non-empty inputs only (numpy raises
      a ValueError on an empty one). */
  function Conv(a: seq<real>, b: seq<real>): (c: seq<real>)
    requires |a| > 0 && |b| > 0
    ensures |c| == |a| + |b| - 1
  {
    seq(|a| + |b| - 1, k => ConvAt(a, b, k))
  }

  lemma {:induction false} ConvPartialWithUnit(a: seq<real>, k: int, m: nat)
    requires m <= |a|
    ensures ConvPartial(a, [1.0], k, m) == if 0 <= k < m then a[k] else 0.0
  {
    if m > 0 {
      ConvPartialWithUnit(a, k, m - 1);
    }
  }

  /** Convolving with the unit impulse [1] gives the signal back. */
  lemma ConvWithUnitImpulse(a: seq<real>)
    requires |a| > 0
    ensures Conv(a, [1.0]) == a
  {
    forall k | 0 <= k < |a|
      ensures Conv(a, [1.0])[k] == a[k]
    {
      ConvPartialWithUnit(a, k, |a|);
    }
  }

  // ---------------------------------------------------------------------
  // FIR filtering, scipy.signal.lfilter(b, 1, x)

  /** Σ_{j < m} b[j]·x[k-j], for m <= k + 1 so that every index is in x. */
  function FirPartial(b: seq<real>, x: seq<real>, k: nat, m: nat): real
    requires m <= |b| && m <= k + 1 && k < |x|
  {
    if m == 0 then 0.0 else FirPartial(b, x, k, m - 1) + b[m - 1] * x[k - (m - 1)]
  }

  /** lfilter(b, 1, x): the causal FIR response
      y[k] = Σ_{j <= min(k, |b|-1)} b[j]·x[k-j], as long as x. */
  function Fir(b: seq<real>, x: seq<real>): (y: seq<real>)
    ensures |y| == |x|
  {
    seq(|x|, k requires 0 <= k < |x| => FirPartial(b, x, k, Min(k + 1, |b|)))
  }

  lemma {:induction false} ConvPartialIsFirPartial(b: seq<real>, x: seq<real>, k: nat, m: nat)
    requires m <= |b| && k < |x|
    ensures ConvPartial(b, x, k, m) == FirPartial(b, x, k, Min(m, k + 1))
  {
    if m > 0 {
      ConvPartialIsFirPartial(b, x, k, m - 1);
    }
  }

  /** The FIR output is the first |x| samples of the full convolution. */
  lemma FirIsTruncatedConv(b: seq<real>, x: seq<real>)
    requires |b| > 0 && |x| > 0
    ensures Fir(b, x) == Conv(b, x)[..|x|]
  {
    forall k | 0 <= k < |x|
      ensures Fir(b, x)[k] == Conv(b, x)[k]
    {
      ConvPartialIsFirPartial(b, x, k, |b|);
      assert Min(|b|, k + 1) == Min(k + 1, |b|);
    }
  }

  lemma {:induction false} FirPartialScales(b: seq<real>, x: seq<real>, g: real, k: nat, m: nat)
    requires m <= |b| && m <= k + 1 && k < |x|
    ensures FirPartial(b, Scale(x, g), k, m) == g * FirPartial(b, x, k, m)
  {
    if m > 0 {
      FirPartialScales(b, x, g, k, m - 1);
      var t := b[m - 1] * x[k - (m - 1)];
      assert b[m - 1] * Scale(x, g)[k - (m - 1)] == g * t;
    }
  }

  /** A gain applied before the filter equals the same gain applied after it. */
  lemma FirCommutesWithGain(b: seq<real>, x: seq<real>, g: real)
    ensures Fir(b, Scale(x, g)) == Scale(Fir(b, x), g)
  {
    forall k | 0 <= k < |x|
      ensures Fir(b, Scale(x, g))[k] == Scale(Fir(b, x), g)[k]
    {
      FirPartialScales(b, x, g, k, Min(k + 1, |b|));
    }
  }

  // ---------------------------------------------------------------------
  // numpy argmin / argmax: the first index of an extreme value

  function ArgMin(s: seq<real>): (i: nat)
    requires |s| > 0
    ensures i < |s|
    ensures forall j :: 0 <= j < |s| ==> s[i] <= s[j]
    ensures forall j :: 0 <= j < i ==> s[i] < s[j]
  {
    if |s| == 1 then 0
    else
      var p := ArgMin(s[..|s| - 1]);
      if s[|s| - 1] < s[p] then |s| - 1 else p
  }

  function ArgMax(s: seq<real>): (i: nat)
    requires |s| > 0
    ensures i < |s|
    ensures forall j :: 0 <= j < |s| ==> s[j] <= s[i]
    ensures forall j :: 0 <= j < i ==> s[j] < s[i]
  {
    if |s| == 1 then 0
    else
      var p := ArgMax(s[..|s| - 1]);
      if s[|s| - 1] > s[p] then |s| - 1 else p
  }

  // Real arithmetic steps the solver does not take on its own.

  /** A product of two positive reals is positive. */
  lemma ProductPositive(x: real, y: real)
    requires x > 0.0 && y > 0.0
    ensures x * y > 0.0
  {
  }

  /** Scaling by a positive factor keeps the order of two reals. */
  lemma ScaleMonotone(x: real, y: real, n: real)
    requires x >= y && n > 0.0
    ensures x * n >= y * n
  {
  }
}
