/** The tail of pan_tompkins (systolic.py:47-92) from the derivative of the
    band-passed lead II onwards: square, smooth with mean_downscaler over
    0.15 s windows, count beats in the smoothed signal and turn the count
    into beats per minute. */
module HeartRate {
  import opened MathTools

  /** The condition at line 84 for slot i of the smoothed signal: it is
      positive, not below its successor, and above 0.002. */
  predicate IsBeat(f: seq<real>, i: nat)
    requires i + 1 < |f|
  {
    f[i] > 0.0 && f[i + 1] <= f[i] && f[i] > 0.002
  }

  /** Beats counted among the first k slots; a slot with no successor is
      where the loop breaks (lines 82-83) and counts nothing. */
  function Beats(f: seq<real>, k: nat): nat
    decreases k
  {
    if k == 0 then 0
    else Beats(f, k - 1) + (if k < |f| && IsBeat(f, k - 1) then 1 else 0)
  }

  function BeatsIn(f: seq<real>): nat
  {
    Beats(f, |f|)
  }

  /** The slots that count, as a set. */
  function BeatSet(f: seq<real>, k: nat): set<nat>
  {
    set i: nat | i < k && i + 1 < |f| && IsBeat(f, i)
  }

  /** The loop of lines 81-89.  refractory records the last beat, and the
      test on it ends the body with a continue, so it suppresses nothing. */
  method CountBeats(f: seq<real>) returns (beats: nat)
    ensures beats == BeatsIn(f)
  {
    beats := 0;
    var refractory := 0;
    for i := 0 to |f|
      invariant beats == Beats(f, i)
    {
      if i + 1 >= |f| {
        assert Beats(f, |f|) == Beats(f, i);
        break;
      }
      if f[i] > 0.0 && f[i + 1] <= f[i] && f[i] > 0.002 {
        beats := beats + 1;
        refractory := i;
      }
      if i == refractory + 1 {
        continue;
      }
    }
  }

  /** The count is the number of slots i with a successor where the beat
      condition holds. */
  lemma {:induction false} BeatsCountSet(f: seq<real>, k: nat)
    ensures Beats(f, k) == |BeatSet(f, k)|
  {
    if k == 0 {
      assert BeatSet(f, 0) == {};
    } else {
      BeatsCountSet(f, k - 1);
      if k < |f| && IsBeat(f, k - 1) {
        assert BeatSet(f, k) == BeatSet(f, k - 1) + {k - 1};
      } else {
        assert BeatSet(f, k) == BeatSet(f, k - 1);
      }
    }
  }

  lemma {:induction false} BeatsAtMost(f: seq<real>, k: nat)
    ensures Beats(f, k) <= k
  {
    if k > 0 {
      BeatsAtMost(f, k - 1);
    }
  }

  /** At most one beat per slot that has a successor: beats <= len - 1. */
  lemma BeatsBound(f: seq<real>)
    requires |f| > 0
    ensures BeatsIn(f) <= |f| - 1
  {
    BeatsAtMost(f, |f| - 1);
  }

  /** The smallest case: three equal samples above the threshold give two
      beats, in slots 0 and 1. */
  lemma AdjacentBeatsBothCount()
    ensures BeatsIn([0.01, 0.01, 0.01]) == 2
  {
    var f := [0.01, 0.01, 0.01];
    assert IsBeat(f, 0) && IsBeat(f, 1);
    assert Beats(f, 1) == 1;
    assert Beats(f, 2) == 2;
  }

  /** Two beats in adjacent slots i and i + 1 both count: the refractory
      test does not hold back the second one. */
  lemma AdjacentBeats(f: seq<real>, i: nat)
    requires i + 2 < |f| && IsBeat(f, i) && IsBeat(f, i + 1)
    ensures Beats(f, i + 2) == Beats(f, i) + 2
  {
  }

  /** A strictly rising signal has no beat. */
  lemma {:induction false} RisingHasNoBeats(f: seq<real>, k: nat)
    requires forall i :: 0 <= i < |f| - 1 ==> f[i] < f[i + 1]
    ensures Beats(f, k) == 0
  {
    if k > 0 {
      RisingHasNoBeats(f, k - 1);
      if k < |f| {
        assert f[k - 1] < f[k];
      }
    }
  }

  // ---------------------------------------------------------------------
  // Python's int() and round()

  /** int(x) for a float: truncation toward zero. */
  function Truncate(x: real): int
  {
    if x >= 0.0 then x.Floor else -((-x).Floor)
  }

  /** int(x) keeps the sign of x, drops less than 1 and never grows. */
  lemma TruncateTowardZero(x: real)
    ensures var t := Truncate(x) as real;
      (x >= 0.0 ==> 0.0 <= t <= x && x - t < 1.0) &&
      (x < 0.0 ==> x <= t <= 0.0 && t - x < 1.0)
  {
  }

  /** round(x) for a float: the nearest integer, ties to the even one. */
  function RoundHalfEven(x: real): int
  {
    var fl := x.Floor;
    var frac := x - fl as real;
    if frac < 0.5 then fl
    else if frac > 0.5 then fl + 1
    else if fl % 2 == 0 then fl else fl + 1
  }

  /** round(x) is within 1/2 of x, and even when exactly 1/2 away. */
  lemma RoundNearest(x: real)
    ensures var r := RoundHalfEven(x);
      -0.5 <= x - r as real <= 0.5 &&
      (x - r as real == 0.5 || x - r as real == -0.5 ==> r % 2 == 0)
  {
  }

  /** An integer nearer than 1/2 is what round returns. */
  lemma RoundUnique(x: real, k: int)
    requires -0.5 < x - k as real < 0.5
    ensures RoundHalfEven(x) == k
  {
    RoundNearest(x);
  }

  lemma RoundTies()
    ensures RoundHalfEven(2.5) == 2 && RoundHalfEven(3.5) == 4 && RoundHalfEven(-0.5) == 0
  {
    assert (2.5).Floor == 2 && (3.5).Floor == 3 && (-0.5).Floor == -1;
  }

  // ---------------------------------------------------------------------
  // The rate

  /** waveformFilt ** 2, slot by slot. */
  function Square(g: seq<real>): (r: seq<real>)
    ensures |r| == |g|
  {
    seq(|g|, i requires 0 <= i < |g| => g[i] * g[i])
  }

  /** sampleAmount = int(averageWindow * fs) with a 0.15 s window. */
  function SampleAmount(fs: real): int
  {
    Truncate(0.15 * fs)
  }

  /** What pan_tompkins returns for a derivative g of the N = |g| samples of
      lead II taken at fs Hz: the beats per minute beats * fs * 60 / N,
      rounded.  fs == 0 fails at line 61, a window of 0 samples inside
      mean_downscaler, and N == 0 at line 90. */
  function HeartRateOf(g: seq<real>, fs: real): Result<int>
  {
    if fs == 0.0 then Failure(ZeroDivisionError)
    else match Downscale(Square(g), SampleAmount(fs))
      case Failure(e) => Failure(e)
      case Ok(f) =>
        if |g| == 0 then Failure(ZeroDivisionError)
        else Ok(RoundHalfEven(Bpm(BeatsIn(f), fs, |g|)))
  }

  /** beats * fs * 60 / N: beats over the N / fs seconds recorded, per
      minute. */
  function Bpm(beats: nat, fs: real, n: nat): real
    requires n > 0
  {
    (beats as real) * fs * 60.0 / (n as real)
  }

  /** beats / sampleTime * 60 with sampleTime = N / fs is Bpm. */
  lemma BpmOfSampleTime(beats: nat, fs: real, n: nat)
    requires n > 0 && fs != 0.0
    ensures (beats as real) / ((n as real) / fs) * 60.0 == Bpm(beats, fs, n)
  {
    var b, m := beats as real, n as real;
    assert b / (m / fs) == b * fs / m;
  }

  lemma SampleTimeZero(n: nat, fs: real)
    requires fs != 0.0
    ensures (n as real) / fs == 0.0 <==> n == 0
  {
    if n > 0 {
      assert (n as real) / fs * fs == n as real;
    }
  }

  /** More beats never lower the rate, which is non-negative for fs > 0. */
  lemma BpmMonotone(a: nat, b: nat, fs: real, n: nat)
    requires a <= b && fs > 0.0 && n > 0
    ensures 0.0 <= Bpm(a, fs, n) <= Bpm(b, fs, n)
  {
    var k := fs * 60.0 / (n as real);
    assert k > 0.0;
    assert Bpm(a, fs, n) == (a as real) * k;
    assert Bpm(b, fs, n) == (b as real) * k;
  }

  /** pan_tompkins(waveform, fs) from the derivative of the filtered lead
      II; the band-pass filter and np.gradient are not part of this model. */
  method PanTompkins(g: seq<real>, fs: real) returns (r: Result<int>)
    ensures r == HeartRateOf(g, fs)
  {
    if fs == 0.0 {
      return Failure(ZeroDivisionError);
    }
    var sampleTime := (|g| as real) / fs;
    SampleTimeZero(|g|, fs);
    var squared := Square(g);
    var sampleAmount := Truncate(0.15 * fs);
    var smoothed := MeanDownscaler(squared, sampleAmount);
    if smoothed.Failure? {
      return Failure(smoothed.error);
    }
    var beats := CountBeats(smoothed.value);
    if sampleTime == 0.0 {
      return Failure(ZeroDivisionError);
    }
    var rate := (beats as real) / sampleTime * 60.0;
    BpmOfSampleTime(beats, fs, |g|);
    return Ok(RoundHalfEven(rate));
  }

  /** With fs strictly between -20/3 and 20/3 Hz the window holds no sample
      and pan_tompkins fails with ZeroDivisionError. */
  lemma SlowRateFails(g: seq<real>, fs: real)
    requires fs != 0.0 && -20.0 / 3.0 < fs < 20.0 / 3.0
    ensures HeartRateOf(g, fs) == Failure(ZeroDivisionError)
  {
    TruncateTowardZero(0.15 * fs);
  }

  /** The squared derivative is non-negative, so is its smoothing. */
  lemma SmoothedNonNegative(g: seq<real>, n: int)
    ensures var r := Downscale(Square(g), n);
      r.Ok? ==> forall j :: 0 <= j < |r.value| ==> 0.0 <= r.value[j]
  {
    var sq := Square(g);
    forall i | 0 <= i < |sq| ensures 0.0 <= sq[i] {
      assert sq[i] == g[i] * g[i];
    }
    DownscaleNonNegative(sq, n);
  }

  /** With a positive rate the heart rate is never negative, and at most
      the rate that a beat in every smoothed slot but the last would give. */
  lemma HeartRateBounds(g: seq<real>, fs: real)
    requires fs > 0.0
    ensures var r := HeartRateOf(g, fs);
      r.Ok? ==> (var f := Downscale(Square(g), SampleAmount(fs)).value;
        |f| > 0 && |g| > 0 && 0 <= r.value <= RoundHalfEven(Bpm(|f| - 1, fs, |g|)))
  {
    var r := HeartRateOf(g, fs);
    if r.Ok? {
      TruncateTowardZero(0.15 * fs);
      DownscaleShape(Square(g), SampleAmount(fs));
      var f := Downscale(Square(g), SampleAmount(fs)).value;
      BeatsBound(f);
      BpmMonotone(BeatsIn(f), |f| - 1, fs, |g|);
      RoundNearest(Bpm(BeatsIn(f), fs, |g|));
      RoundMonotone(Bpm(BeatsIn(f), fs, |g|), Bpm(|f| - 1, fs, |g|));
    }
  }

  lemma RoundMonotone(x: real, y: real)
    requires x <= y
    ensures RoundHalfEven(x) <= RoundHalfEven(y)
  {
    RoundNearest(x);
    RoundNearest(y);
  }
}
