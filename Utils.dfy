/** Selection helpers of libownaura/utils.py: the nearest-value lookup and
    the cross-correlation time alignment of two equal-length signals. */
module Utils {
  import opened Signals

  function Abs(x: real): real { if x < 0.0 then -x else x }

  // ---------------------------------------------------------------------
  // find_nearest

  /** The pair find_nearest returns: the element and its index. */
  datatype Nearest = Nearest(value: real, index: nat)

  /** |array - value|, elementwise. */
  function Distances(a: seq<real>, v: real): (d: seq<real>)
    ensures |d| == |a|
  {
    seq(|a|, i requires 0 <= i < |a| => Abs(a[i] - v))
  }

  /** find_nearest(array, value): the first index whose element is closest
      to `value`, and that element. numpy's argmin raises on an empty array. */
  function FindNearest(a: seq<real>, v: real): (r: Result<Nearest>)
    ensures r.Ok? <==> |a| > 0
    ensures r.Ok? ==> r.value.index < |a| && r.value.value == a[r.value.index]
    ensures r.Ok? ==> forall j :: 0 <= j < |a| ==> Abs(r.value.value - v) <= Abs(a[j] - v)
    ensures r.Ok? ==> forall j :: 0 <= j < r.value.index ==> Abs(r.value.value - v) < Abs(a[j] - v)
  {
    if |a| == 0 then Err("attempt to get argmin of an empty sequence")
    else
      var d := Distances(a, v);
      var i := ArgMin(d);
      assert forall j :: 0 <= j < |a| ==> d[j] == Abs(a[j] - v);
      Ok(Nearest(a[i], i))
  }

  /** When the value occurs in the array, find_nearest returns its first
      occurrence. */
  lemma FindNearestExactHit(a: seq<real>, v: real, j: nat)
    requires j < |a| && a[j] == v
    requires forall i :: 0 <= i < j ==> a[i] != v
    ensures FindNearest(a, v) == Ok(Nearest(v, j))
  {
    var r := FindNearest(a, v).value;
    assert Abs(r.value - v) <= Abs(a[j] - v) == 0.0;
  }

  // ---------------------------------------------------------------------
  // time_align

  /** Σ_{m < k} y[m + lag]·x[m], over the m for which y[m + lag] exists. */
  function CorrPartial(y: seq<real>, x: seq<real>, lag: int, k: nat): real
    requires k <= |x|
  {
    if k == 0 then 0.0
    else
      var m := k - 1;
      CorrPartial(y, x, lag, m) + (if 0 <= m + lag < |y| then y[m + lag] * x[m] else 0.0)
  }

  /** scipy.signal.correlate(y, x, mode="full") at a lag: Σ_m y[m + lag]·x[m]. */
  function Corr(y: seq<real>, x: seq<real>, lag: int): real
  {
    CorrPartial(y, x, lag, |x|)
  }

  /** Appending a sample to x changes no partial sum that stops before it. */
  lemma {:induction false} CorrPartialExtendX(y: seq<real>, x: seq<real>, a: real, lag: int, k: nat)
    requires k <= |x|
    ensures CorrPartial(y, x + [a], lag, k) == CorrPartial(y, x, lag, k)
  {
    if k > 0 {
      CorrPartialExtendX(y, x, a, lag, k - 1);
      assert (x + [a])[k - 1] == x[k - 1];
    }
  }

  /** Appending a sample a to the shifted signal adds the one product it
      takes part in: a·y[|x| + lag], when that sample of y is summed. */
  lemma {:induction false} CorrPartialExtendShifted(x: seq<real>, a: real, y: seq<real>, lag: int, k: nat)
    requires k <= |y|
    ensures CorrPartial(x + [a], y, -lag, k)
         == CorrPartial(x, y, -lag, k) + (if 0 <= |x| + lag < k then y[|x| + lag] * a else 0.0)
  {
    if k > 0 {
      CorrPartialExtendShifted(x, a, y, lag, k - 1);
      var m := k - 1;
      if 0 <= m - lag < |x| {
        assert (x + [a])[m - lag] == x[m - lag];
      } else if m - lag == |x| {
        assert (x + [a])[m - lag] * y[m] == y[|x| + lag] * a;
      }
    }
  }

  /** Correlating against an empty signal sums nothing. */
  lemma {:induction false} CorrPartialOfEmpty(y: seq<real>, lag: int, k: nat)
    requires k <= |y|
    ensures CorrPartial([], y, lag, k) == 0.0
  {
    if k > 0 {
      CorrPartialOfEmpty(y, lag, k - 1);
    }
  }

  /** Swapping the two signals mirrors the lag axis:
      Σ_m y[m + lag]·x[m] = Σ_m x[m - lag]·y[m]. */
  lemma {:induction false} CorrSwap(x: seq<real>, y: seq<real>, lag: int)
    ensures Corr(y, x, lag) == Corr(x, y, -lag)
  {
    if x == [] {
      CorrPartialOfEmpty(y, -lag, |y|);
    } else {
      var x0, a := x[..|x| - 1], x[|x| - 1];
      assert x == x0 + [a];
      CorrSwap(x0, y, lag);
      CorrPartialExtendX(y, x0, a, lag, |x0|);
      CorrPartialExtendShifted(x0, a, y, lag, |y|);
    }
  }

  /** The search range `trange`, in seconds, both ends included. */
  datatype TimeRange = TimeRange(lo: real, hi: real)

  /** Whether the time lag/fs of a lag survives the trange mask. */
  predicate InRange(lag: int, fs: real, trange: Option<TimeRange>)
    requires fs > 0.0
  {
    trange.None? || (trange.value.lo <= lag as real / fs && lag as real / fs <= trange.value.hi)
  }

  predicate Increasing(s: seq<int>)
  {
    forall i, j :: 0 <= i < j < |s| ==> s[i] < s[j]
  }

  /** The lag axis of the full cross-correlation, np.arange(1 - n, n). */
  function Lags(n: nat): (lags: seq<int>)
    ensures |lags| == if n == 0 then 0 else 2 * n - 1
    ensures forall i :: 0 <= i < |lags| ==> lags[i] == i - (n - 1)
  {
    if n == 0 then [] else seq(2 * n - 1, i requires 0 <= i < 2 * n - 1 => i - (n - 1))
  }

  /** `t[idx]` for the boolean mask idx: keeps the lags inside trange, in order. */
  function KeepInRange(lags: seq<int>, fs: real, trange: Option<TimeRange>): (kept: seq<int>)
    requires fs > 0.0
    ensures forall i :: 0 <= i < |kept| ==> kept[i] in lags && InRange(kept[i], fs, trange)
    ensures forall i :: 0 <= i < |lags| && InRange(lags[i], fs, trange) ==> lags[i] in kept
  {
    if lags == [] then []
    else
      var rest := KeepInRange(lags[1..], fs, trange);
      if InRange(lags[0], fs, trange) then [lags[0]] + rest else rest
  }

  lemma {:induction false} KeepInRangeIncreasing(lags: seq<int>, fs: real, trange: Option<TimeRange>)
    requires fs > 0.0 && Increasing(lags)
    ensures Increasing(KeepInRange(lags, fs, trange))
  {
    if lags != [] {
      KeepInRangeIncreasing(lags[1..], fs, trange);
      KeepInRangeBounded(lags[1..], fs, trange, lags[0]);
      var rest := KeepInRange(lags[1..], fs, trange);
      if InRange(lags[0], fs, trange) {
        var kept := [lags[0]] + rest;
        forall i, j | 0 <= i < j < |kept| ensures kept[i] < kept[j] {
          if i > 0 {
            assert kept[i] == rest[i - 1];
          }
        }
      }
    }
  }

  lemma {:induction false} KeepInRangeBounded(lags: seq<int>, fs: real, trange: Option<TimeRange>, v: int)
    requires fs > 0.0
    requires forall j :: 0 <= j < |lags| ==> v < lags[j]
    ensures forall i :: 0 <= i < |KeepInRange(lags, fs, trange)| ==> v < KeepInRange(lags, fs, trange)[i]
  {
    if lags != [] {
      KeepInRangeBounded(lags[1..], fs, trange, v);
    }
  }

  /** The candidate lags, in increasing order. */
  function Candidates(n: nat, fs: real, trange: Option<TimeRange>): (c: seq<int>)
    requires fs > 0.0
    ensures Increasing(c)
  {
    var lags := Lags(n);
    KeepInRangeIncreasing(lags, fs, trange);
    KeepInRange(lags, fs, trange)
  }

  /** The candidate lags are exactly the integers 1 - n .. n - 1 (the 2n - 1
      lags of the full correlation) whose time lag/fs lies in trange. */
  lemma CandidateLags(n: nat, fs: real, trange: Option<TimeRange>, l: int)
    requires fs > 0.0
    ensures l in Candidates(n, fs, trange) <==> 1 - n <= l <= n - 1 && InRange(l, fs, trange)
  {
    var lags := Lags(n);
    if 1 - n <= l <= n - 1 {
      assert lags[l + n - 1] == l;
    }
  }

  lemma FirstArgMaxOverIncreasing(c: seq<int>, corr: seq<real>, i: nat)
    requires Increasing(c) && |corr| == |c| && i < |c|
    requires forall j :: 0 <= j < i ==> corr[j] < corr[i]
    ensures forall j :: 0 <= j < |c| && c[j] < c[i] ==> corr[j] < corr[i]
  {
  }

  /** The lag of `xcorr.argmax()` among the candidates. */
  function ChosenLag(x: seq<real>, y: seq<real>, fs: real, trange: Option<TimeRange>): (lag: int)
    requires fs > 0.0
    requires |Candidates(|x|, fs, trange)| > 0
    ensures lag in Candidates(|x|, fs, trange)
    ensures forall j :: 0 <= j < |Candidates(|x|, fs, trange)| ==>
      Corr(y, x, Candidates(|x|, fs, trange)[j]) <= Corr(y, x, lag)
    ensures forall j :: 0 <= j < |Candidates(|x|, fs, trange)| && Candidates(|x|, fs, trange)[j] < lag ==>
      Corr(y, x, Candidates(|x|, fs, trange)[j]) < Corr(y, x, lag)
  {
    var c := Candidates(|x|, fs, trange);
    var corr := seq(|c|, j requires 0 <= j < |c| => Corr(y, x, c[j]));
    var i := ArgMax(corr);
    FirstArgMaxOverIncreasing(c, corr, i);
    c[i]
  }

  /** The estimated delay maximises the cross-correlation Σ_m y[m + lag]·x[m]
      over every lag of the (restricted) lag axis, and every earlier lag
      correlates strictly less: ties go to the earliest lag. */
  lemma ChosenLagIsFirstMaximum(x: seq<real>, y: seq<real>, fs: real, trange: Option<TimeRange>, l: int)
    requires fs > 0.0
    requires |Candidates(|x|, fs, trange)| > 0
    requires 1 - |x| <= l <= |x| - 1 && InRange(l, fs, trange)
    ensures var lag := ChosenLag(x, y, fs, trange);
      && 1 - |x| <= lag <= |x| - 1 && InRange(lag, fs, trange)
      && Corr(y, x, l) <= Corr(y, x, lag)
      && (l < lag ==> Corr(y, x, l) < Corr(y, x, lag))
  {
    var c := Candidates(|x|, fs, trange);
    var lag := ChosenLag(x, y, fs, trange);
    CandidateLags(|x|, fs, trange, l);
    CandidateLags(|x|, fs, trange, lag);
    var j :| 0 <= j < |c| && c[j] == l;
  }

  /** Swapping x and y negates the estimated delay when the correlation
      has a single maximum over the lag axis: time_align(y, x) reports -dt
      where time_align(x, y) reports dt. */
  lemma ChosenLagAntisymmetric(x: seq<real>, y: seq<real>, fs: real)
    requires fs > 0.0 && |x| == |y| && |Candidates(|x|, fs, None)| > 0
    requires forall l :: 1 - |x| <= l <= |x| - 1 && l != ChosenLag(x, y, fs, None) ==>
      Corr(y, x, l) < Corr(y, x, ChosenLag(x, y, fs, None))
    ensures |Candidates(|y|, fs, None)| > 0
    ensures ChosenLag(y, x, fs, None) == -ChosenLag(x, y, fs, None)
  {
    var lag := ChosenLag(x, y, fs, None);
    CandidateLags(|x|, fs, None, lag);
    CandidateLags(|x|, fs, None, -lag);
    var back := ChosenLag(y, x, fs, None);
    ChosenLagIsFirstMaximum(y, x, fs, None, -lag);
    MaximumMirrors(x, y, lag, back);
  }

  /** The mirror step of ChosenLagAntisymmetric: a lag back of the swapped
      pair that scores at least as well as -lag can only be -lag itself
      when lag is the unique maximum of the original pair. */
  lemma MaximumMirrors(x: seq<real>, y: seq<real>, lag: int, back: int)
    requires 1 - |x| <= -back <= |x| - 1
    requires Corr(x, y, -lag) <= Corr(x, y, back)
    requires forall l :: 1 - |x| <= l <= |x| - 1 && l != lag ==> Corr(y, x, l) < Corr(y, x, lag)
    ensures back == -lag
  {
    CorrSwap(x, y, lag);
    CorrSwap(x, y, -back);
    assert -back != lag ==> Corr(y, x, -back) < Corr(y, x, lag);
  }

  /** With a tie for the maximum the first-occurrence argmax breaks the
      symmetry: for x = [1, 0] and y = [1, 1] the correlation is maximal at
      lags 0 and 1, so time_align(x, y) picks 0, while time_align(y, x)
      sees the mirrored tie at -1 and 0 and picks -1. */
  lemma TiedMaximumBreaksSymmetry()
    ensures |Candidates(2, 1.0, None)| > 0
    ensures ChosenLag([1.0, 0.0], [1.0, 1.0], 1.0, None) == 0
    ensures ChosenLag([1.0, 1.0], [1.0, 0.0], 1.0, None) == -1
  {
    var x, y := [1.0, 0.0], [1.0, 1.0];
    CandidateLags(2, 1.0, None, 0);
    TiedCorrelations();
    ChosenLagIsFirstMaximum(x, y, 1.0, None, 0);
    ChosenLagIsFirstMaximum(y, x, 1.0, None, -1);
  }

  /** The correlations of the tie example, lag by lag. */
  lemma TiedCorrelations()
    ensures Corr([1.0, 1.0], [1.0, 0.0], -1) == 0.0
    ensures Corr([1.0, 1.0], [1.0, 0.0], 0) == 1.0
    ensures Corr([1.0, 1.0], [1.0, 0.0], 1) == 1.0
    ensures Corr([1.0, 0.0], [1.0, 1.0], -1) == 1.0
    ensures Corr([1.0, 0.0], [1.0, 1.0], 0) == 1.0
    ensures Corr([1.0, 0.0], [1.0, 1.0], 1) == 0.0
  {
    var x, y := [1.0, 0.0], [1.0, 1.0];
    assert CorrPartial(y, x, -1, 1) == 0.0 && CorrPartial(y, x, 0, 1) == 1.0 && CorrPartial(y, x, 1, 1) == 1.0;
    assert CorrPartial(x, y, -1, 1) == 0.0 && CorrPartial(x, y, 0, 1) == 1.0 && CorrPartial(x, y, 1, 1) == 0.0;
    assert CorrPartial(y, x, -1, 2) == 0.0 && CorrPartial(y, x, 0, 2) == 1.0 && CorrPartial(y, x, 1, 2) == 1.0;
    assert CorrPartial(x, y, -1, 2) == 1.0 && CorrPartial(x, y, 0, 2) == 1.0 && CorrPartial(x, y, 1, 2) == 0.0;
  }

  /** The aligned signals and the estimated delay dt, in seconds. */
  datatype Aligned = Aligned(x: seq<real>, y: seq<real>, dt: real)

  /** A delay in the sense of Response.delay(dt, keep_length=False): the
      result is at least as long as the signal. */
  ghost predicate Lengthens(delay: (seq<real>, real) -> seq<real>)
  {
    forall s, dt :: dt >= 0.0 ==> |delay(s, dt)| >= |s|
  }

  /** time_align(x, y, fs, trange): asserts equal lengths, picks the first
      maximising lag among the candidates, then delays the lagging signal
      (`delay` stands for Response.delay) and zero-pads the other one. */
  function TimeAlign(x: seq<real>, y: seq<real>, fs: real, trange: Option<TimeRange>,
                     delay: (seq<real>, real) -> seq<real>): (r: Result<Aligned>)
    requires fs > 0.0
    requires Lengthens(delay)
    ensures r.Ok? <==> |x| == |y| && |Candidates(|x|, fs, trange)| > 0
    ensures r.Ok? ==> |r.value.x| == |r.value.y|
  {
    if |x| != |y| then Err("AssertionError: len(x) == len(y)")
    else if |Candidates(|x|, fs, trange)| == 0 then Err("attempt to get argmax of an empty sequence")
    else
      var dt := ChosenLag(x, y, fs, trange) as real / fs;
      if dt >= 0.0 then
        var xd := delay(x, dt);
        Ok(Aligned(xd, ZeroPadTo(y, |xd|), dt))
      else
        var yd := delay(y, -dt);
        Ok(Aligned(ZeroPadTo(x, |yd|), yd, dt))
  }

  /** What time_align returns: dt is the chosen lag in seconds; when dt >= 0
      (dt == 0 included) x is delayed and y keeps its samples followed by
      zeros, otherwise y is delayed and x is padded. */
  lemma TimeAlignDelaysTheLaggingSignal(x: seq<real>, y: seq<real>, fs: real,
                                         trange: Option<TimeRange>, delay: (seq<real>, real) -> seq<real>)
    requires fs > 0.0 && Lengthens(delay)
    requires TimeAlign(x, y, fs, trange, delay).Ok?
    ensures var a := TimeAlign(x, y, fs, trange, delay).value;
      && a.dt == ChosenLag(x, y, fs, trange) as real / fs
      && (a.dt >= 0.0 ==>
            a.x == delay(x, a.dt) && a.y[..|y|] == y
            && forall k :: |y| <= k < |a.y| ==> a.y[k] == 0.0)
      && (a.dt < 0.0 ==>
            a.y == delay(y, -a.dt) && a.x[..|x|] == x
            && forall k :: |x| <= k < |a.x| ==> a.x[k] == 0.0)
  {
  }

  /** The sign of dt is the sign of the chosen lag. */
  lemma DelaySignFollowsLag(lag: int, fs: real)
    requires fs > 0.0
    ensures lag as real / fs >= 0.0 <==> lag >= 0
  {
    if lag < 0 {
      assert lag as real / fs * fs == lag as real;
    }
  }
}
