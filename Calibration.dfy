/** The calibration applier (libownaura/apply_calibration.py): every channel
    of a multichannel filter bank is convolved with the calibration impulse
    response, and then every channel is either cut by `n` leading samples
    (n > 0) or delayed by `-n` leading zeros (n < 0). */
module ApplyCalibration {
  import opened Signals

  /** The rows of `w[:, start:]`: Python slicing leaves empty rows when
      `start` is past the last column. */
  function ColumnsFrom(w: array2<real>, start: nat): (rows: seq<seq<real>>)
    reads w
    ensures |rows| == w.Length0
  {
    var m := Max(w.Length1 - start, 0);
    seq(w.Length0, i requires 0 <= i < w.Length0 reads w =>
      seq(m, k requires 0 <= k < m reads w => w[i, start + k]))
  }

  /** apply_calibration raises when numpy.zeros gets a negative width
      (h and the rows both empty) or numpy.convolve gets an empty operand
      (there is at least one row and h or the rows are empty). */
  predicate Raises(rows: nat, cols: nat, hLen: nat)
  {
    (hLen == 0 && cols == 0) || (rows > 0 && (hLen == 0 || cols == 0))
  }

  /** The time shift applied to one convolved channel. */
  function Shift(row: seq<real>, n: int): seq<real>
  {
    if n > 0 then (if n <= |row| then row[n..] else [])
    else if n < 0 then Zeros(-n) + row
    else row
  }

  /** The result of apply_calibration(w, h, n), channel by channel. */
  function Calibrated(w: seq<seq<real>>, cols: nat, h: seq<real>, n: int): Result<seq<seq<real>>>
    requires IsMatrix(w, cols)
  {
    if Raises(|w|, cols, |h|) then Err("numpy.convolve: empty operand")
    else Ok(ShiftAll(ConvolveRows(w, cols, h), n))
  }

  /** The same time shift applied to every channel. */
  function ShiftAll(rows: seq<seq<real>>, n: int): (out: seq<seq<real>>)
    ensures |out| == |rows|
  {
    seq(|rows|, i requires 0 <= i < |rows| => Shift(rows[i], n))
  }

  /** The convolved channels before the time shift, `w_cal` in the source. */
  function ConvolveRows(w: seq<seq<real>>, cols: nat, h: seq<real>): (c: seq<seq<real>>)
    requires IsMatrix(w, cols) && !Raises(|w|, cols, |h|)
    ensures |c| == |w|
  {
    seq(|w|, i requires 0 <= i < |w| => Conv(w[i], h))
  }

  /** apply_calibration: convolves every channel into a fresh buffer, then
      cuts or pads its columns. */
  method ApplyCalibration(w: array2<real>, h: seq<real>, n: int) returns (r: Result<seq<seq<real>>>)
    ensures r == Calibrated(Rows(w), w.Length1, h, n)
  {
    if Raises(w.Length0, w.Length1, |h|) {
      return Err("numpy.convolve: empty operand");
    }
    var wcal := FillConvolved(w, h);
    var shifted := ShiftColumns(wcal, n);
    r := Ok(shifted);
  }

  /** The preallocated buffer of zeros filled row by row with numpy.convolve. */
  method FillConvolved(w: array2<real>, h: seq<real>) returns (wcal: array2<real>)
    requires !Raises(w.Length0, w.Length1, |h|)
    ensures fresh(wcal)
    ensures wcal.Length0 == w.Length0 && wcal.Length1 == |h| + w.Length1 - 1
    ensures Rows(wcal) == ConvolveRows(Rows(w), w.Length1, h)
  {
    var rows, len := w.Length0, |h| + w.Length1 - 1;
    wcal := new real[rows, len]((_, _) => 0.0);
    for i := 0 to rows
      invariant forall p, k :: 0 <= p < i && 0 <= k < len ==> wcal[p, k] == Conv(Rows(w)[p], h)[k]
    {
      var c := Conv(Rows(w)[i], h);
      forall k | 0 <= k < len {
        wcal[i, k] := c[k];
      }
    }
    ghost var expected := ConvolveRows(Rows(w), w.Length1, h);
    forall i | 0 <= i < rows
      ensures Rows(wcal)[i] == expected[i]
    {
      assert forall k :: 0 <= k < len ==> Rows(wcal)[i][k] == expected[i][k];
    }
  }

  /** `w_cal[:, n:]` when n > 0, `np.pad(w_cal, ((0, 0), (-n, 0)))` when
      n < 0, and the buffer itself when n == 0. */
  method ShiftColumns(wcal: array2<real>, n: int) returns (out: seq<seq<real>>)
    ensures out == ShiftAll(Rows(wcal), n)
  {
    if n > 0 {
      out := ColumnsFrom(wcal, n);
      ghost var channels := Rows(wcal);
      forall i | 0 <= i < wcal.Length0
        ensures out[i] == Shift(channels[i], n)
      {
      }
    } else if n < 0 {
      out := PadColumns(wcal, -n);
    } else {
      out := Rows(wcal);
    }
  }

  /** `np.pad(w_cal, ((0, 0), (m, 0)))`: a fresh buffer, m columns wider,
      holding w_cal after m zero columns. */
  method PadColumns(wcal: array2<real>, m: nat) returns (out: seq<seq<real>>)
    requires m > 0
    ensures out == ShiftAll(Rows(wcal), -(m as int))
  {
    var rows, len := wcal.Length0, wcal.Length1;
    var padded := new real[rows, len + m]((_, _) => 0.0);
    forall i, k | 0 <= i < rows && 0 <= k < len {
      padded[i, k + m] := wcal[i, k];
    }
    assert forall i, k :: 0 <= i < rows && 0 <= k < len + m ==>
      padded[i, k] == if k < m then 0.0 else wcal[i, k - m];
    PaddedRows(padded, wcal, m);
    out := Rows(padded);
  }

  /** A buffer holding m zero columns and then `wcal` has as rows the rows
      of `wcal` delayed by m. */
  lemma PaddedRows(padded: array2<real>, wcal: array2<real>, m: nat)
    requires m > 0 && padded.Length0 == wcal.Length0 && padded.Length1 == wcal.Length1 + m
    requires forall i, k :: 0 <= i < padded.Length0 && 0 <= k < padded.Length1 ==>
      padded[i, k] == if k < m then 0.0 else wcal[i, k - m]
    ensures Rows(padded) == ShiftAll(Rows(wcal), -(m as int))
  {
    var channels, out := Rows(wcal), Rows(padded);
    forall i | 0 <= i < padded.Length0
      ensures out[i] == Shift(channels[i], -(m as int))
    {
      var row := Zeros(m) + channels[i];
      assert forall k :: 0 <= k < padded.Length1 ==> out[i][k] == row[k];
    }
  }

  /** The result has exactly one row per channel of `w`, and before the shift
      every row is the full convolution, of length len(h) + nsample - 1. */
  lemma CalibratedShape(w: seq<seq<real>>, cols: nat, h: seq<real>, n: int)
    requires IsMatrix(w, cols)
    ensures Calibrated(w, cols, h, n).Ok? <==> !Raises(|w|, cols, |h|)
    ensures Calibrated(w, cols, h, n).Ok? ==>
      var out := Calibrated(w, cols, h, n).value;
      && |out| == |w|
      && forall i :: 0 <= i < |w| ==>
           |out[i]| == if n >= 0 then Max(|h| + cols - 1 - n, 0) else |h| + cols - 1 - n
  {
  }

  /** A positive shift cuts the first n samples of each convolved row; a
      negative one prepends -n zeros and keeps the row unchanged after them. */
  lemma ShiftCutsOrPads(row: seq<real>, n: int)
    ensures n > 0 && n <= |row| ==> Shift(row, n) == row[n..]
    ensures n > |row| ==> Shift(row, n) == []
    ensures n < 0 ==> |Shift(row, n)| == |row| - n
                      && (forall k :: 0 <= k < -n ==> Shift(row, n)[k] == 0.0)
                      && Shift(row, n)[-n..] == row
    ensures n == 0 ==> Shift(row, n) == row
  {
  }

  /** Channel i of the result depends only on channel i of `w` and on `h`. */
  lemma ChannelsDoNotMix(w1: seq<seq<real>>, w2: seq<seq<real>>, cols: nat, h: seq<real>, n: int, i: nat)
    requires IsMatrix(w1, cols) && IsMatrix(w2, cols) && |w1| == |w2|
    requires i < |w1| && w1[i] == w2[i]
    ensures Calibrated(w1, cols, h, n).Ok? && Calibrated(w2, cols, h, n).Ok? ==>
      Calibrated(w1, cols, h, n).value[i] == Calibrated(w2, cols, h, n).value[i]
  {
  }

  /** Calibrating with the unit impulse and no shift returns the filter bank
      unchanged. */
  lemma UnitCalibrationIsIdentity(w: seq<seq<real>>, cols: nat)
    requires IsMatrix(w, cols) && cols > 0
    ensures Calibrated(w, cols, [1.0], 0) == Ok(w)
  {
    forall i | 0 <= i < |w|
      ensures Conv(w[i], [1.0]) == w[i]
    {
      ConvWithUnitImpulse(w[i]);
    }
    assert ShiftAll(ConvolveRows(w, cols, [1.0]), 0) == w;
  }

  /** Padding by m zeros and then cutting m samples restores the row. */
  lemma PadThenCutRestores(row: seq<real>, m: int)
    requires m > 0
    ensures Shift(Shift(row, -m), m) == row
  {
  }

  // ---------------------------------------------------------------------
  // The diagnostic "Cutting x% of energy in filter."

  /** np.sum(w**2) over all channels. */
  function TotalEnergy(w: seq<seq<real>>): (e: real)
    ensures e >= 0.0
  {
    if w == [] then 0.0 else TotalEnergy(w[..|w| - 1]) + Energy(w[|w| - 1])
  }

  /** The first `n` columns of every channel, `w[:, :n]`. */
  function LeadingColumns(w: seq<seq<real>>, n: nat): (cut: seq<seq<real>>)
    ensures |cut| == |w|
  {
    seq(|w|, i requires 0 <= i < |w| => w[i][..Min(n, |w[i]|)])
  }

  lemma {:induction false} LeadingEnergyBounded(w: seq<seq<real>>, n: nat)
    ensures TotalEnergy(LeadingColumns(w, n)) <= TotalEnergy(w)
  {
    if w != [] {
      var last := |w| - 1;
      LeadingEnergyBounded(w[..last], n);
      assert LeadingColumns(w, n)[..last] == LeadingColumns(w[..last], n);
      PrefixEnergyBounded(w[last], Min(n, |w[last]|));
    }
  }

  /** The percentage printed before the cut: the share of the energy held by
      the first n columns, always between 0 and 100 % when there is energy. */
  function CutEnergyPercent(wcal: seq<seq<real>>, n: nat): (p: real)
    requires TotalEnergy(wcal) > 0.0
    ensures 0.0 <= p <= 100.0
  {
    var cut, total := TotalEnergy(LeadingColumns(wcal, n)), TotalEnergy(wcal);
    LeadingEnergyBounded(wcal, n);
    ShareAtMostOne(cut, total);
    cut / total * 100.0
  }

  lemma ShareAtMostOne(part: real, whole: real)
    requires 0.0 <= part <= whole && whole > 0.0
    ensures 0.0 <= part / whole <= 1.0
  {
    var q := part / whole;
    assert q * whole == part;
    if q > 1.0 {
      assert false;
    }
    if q < 0.0 {
      ProductPositive(-q, whole);
      assert false;
    }
  }
}
