/** The telemetry both frame loops display: a moving average of CPU usage over a bounded
    window, an interval-gated CPU sampler, and the frame rate since start-up. The clock and
    the operating system's CPU reading are parameters. */
module Metrics {
  import opened Common

  /** The window after one call of `smooth_cpu_usage`: a sample, if there is one, joins at the
      back; if the window is then longer than `maxHistory`, its oldest entry leaves. Only one
      entry ever leaves, so a window already too long stays too long. */
  function Windowed(history: seq<real>, sample: Option<real>, maxHistory: int): (r: seq<real>)
    ensures sample.None? ==> r == history
    ensures sample.Some? ==>
      && |r| == (if |history| + 1 > maxHistory then |history| else |history| + 1)
      && r == (history + [sample.value])[|history| + 1 - |r|..]
  {
    match sample
    case None => history
    case Some(v) =>
      var grown := history + [v];
      if |grown| > maxHistory then grown[1..] else grown
  }

  /** A window no longer than `maxHistory` stays so, and keeps the newest sample at its back. */
  lemma WindowBounded(history: seq<real>, sample: Option<real>, maxHistory: int)
    requires |history| <= maxHistory
    ensures |Windowed(history, sample, maxHistory)| <= maxHistory
    ensures sample.Some? && maxHistory > 0 ==>
      var r := Windowed(history, sample, maxHistory);
      |r| > 0 && r[|r| - 1] == sample.value
  {
  }

  function Sum(s: seq<real>): real
  {
    if s == [] then 0.0 else Sum(s[..|s| - 1]) + s[|s| - 1]
  }

  /** The smoothed value: the mean of the window, or 0 for an empty window. */
  function Mean(s: seq<real>): (m: real)
    ensures s != [] ==> m * (|s| as real) == Sum(s)
    ensures s == [] ==> m == 0.0
  {
    if s == [] then 0.0 else Sum(s) / (|s| as real)
  }

  /** Every entry of `s` lies in `lo..hi`. */
  predicate Within(s: seq<real>, lo: real, hi: real)
  {
    forall i :: 0 <= i < |s| ==> lo <= s[i] <= hi
  }

  /** A sum of `n` entries in `lo..hi` lies in `n*lo..n*hi`. */
  lemma {:induction false} SumBounds(s: seq<real>, lo: real, hi: real)
    requires Within(s, lo, hi)
    ensures (|s| as real) * lo <= Sum(s) <= (|s| as real) * hi
  {
    if s != [] {
      var m := |s| - 1;
      assert Within(s[..m], lo, hi);
      SumBounds(s[..m], lo, hi);
    }
  }

  /** The moving average of a non-empty window lies between the least and the greatest sample
      it holds: readings in 0..100 percent smooth to a value in 0..100 percent. */
  lemma MeanBounds(s: seq<real>, lo: real, hi: real)
    requires s != [] && Within(s, lo, hi)
    ensures lo <= Mean(s) <= hi
  {
    SumBounds(s, lo, hi);
    var n := |s| as real;
    assert n * lo <= Sum(s) <= n * hi;
    DivBounds(Sum(s), n, lo, hi);
  }

  lemma DivBounds(x: real, n: real, lo: real, hi: real)
    requires n > 0.0 && n * lo <= x <= n * hi
    ensures lo <= x / n <= hi
  {
  }

  /** The deque of past CPU readings the frame loop hands to `smooth_cpu_usage`. */
  class CpuHistory {
    var samples: seq<real>

    constructor ()
      ensures samples == []
    {
      samples := [];
    }

    /** `smooth_cpu_usage`: update the window in place, then return its mean. */
    method SmoothCpuUsage(cpuUsage: Option<real>, maxHistory: int) returns (smoothed: real)
      modifies this
      ensures samples == Windowed(old(samples), cpuUsage, maxHistory)
      ensures smoothed == Mean(samples)
    {
      if cpuUsage.Some? {
        samples := samples + [cpuUsage.value];
        if |samples| > maxHistory {
          samples := samples[1..];
        }
      }
      if samples != [] {
        smoothed := Sum(samples) / (|samples| as real);
      } else {
        smoothed := 0.0;
      }
    }
  }

  /** Has at least `interval` passed since `lastTime`? */
  predicate Due(lastTime: real, interval: real, now: real)
  {
    now - lastTime >= interval
  }

  /** `monitor_cpu_usage` with the clock reading `now` and the CPU reading `sample` passed in:
      a reading is taken exactly when the interval has passed, and the time of the last reading
      moves to `now` exactly then. */
  function MonitorCpuUsage(lastTime: real, interval: real, now: real, sample: real): (r: (Option<real>, real))
    ensures r.0.Some? <==> Due(lastTime, interval, now)
    ensures r.0.Some? ==> r.0.value == sample && r.1 == now
    ensures r.0.None? ==> r.1 == lastTime
  {
    if Due(lastTime, interval, now) then (Some(sample), now) else (None, lastTime)
  }

  /** The times at which readings are taken when the loop polls at the clock readings `clock`,
      starting from a last reading at `start`. */
  function SampleTimes(start: real, interval: real, clock: seq<real>): seq<real>
  {
    if clock == [] then []
    else
      var m := |clock| - 1;
      var earlier := SampleTimes(start, interval, clock[..m]);
      var last := if earlier == [] then start else earlier[|earlier| - 1];
      var (usage, _) := MonitorCpuUsage(last, interval, clock[m], 0.0);
      earlier + (if usage.Some? then [clock[m]] else [])
  }

  /** Readings are spaced: the first comes at least `interval` after `start`, and each next one
      at least `interval` after the one before, whatever the clock does. */
  lemma {:induction false} SamplesSpaced(start: real, interval: real, clock: seq<real>)
    ensures var s := SampleTimes(start, interval, clock);
      && (s != [] ==> s[0] - start >= interval)
      && (forall j :: 0 <= j < |s| - 1 ==> s[j + 1] - s[j] >= interval)
  {
    if clock != [] {
      SamplesSpaced(start, interval, clock[..|clock| - 1]);
    }
  }

  /** `calculate_fps` with the clock reading `now` passed in: frames per second since
      `startTime`, or 0 when no time has passed (or the clock went back). */
  function CalculateFps(frameCount: nat, startTime: real, now: real): (fps: real)
    ensures now - startTime <= 0.0 ==> fps == 0.0
    ensures now - startTime > 0.0 ==> fps * (now - startTime) == frameCount as real && fps >= 0.0
  {
    var elapsed := now - startTime;
    if elapsed > 0.0 then (frameCount as real) / elapsed else 0.0
  }
}
