/** The background calibrator of the motion strategy: a candidate frame (`saved_frame`) that
    is refreshed when the scene changes, and the active reference (`comparison_frame`) that
    motion is measured against, replaced once the candidate has stood for `RESET_TIME`. */
module Calibration {
  import opened Common
  import opened Motion

  /** `saved_frame`, `comparison_frame`, `saved_time` and `last_check_time`. */
  datatype Calibrator = Calibrator(saved: Option<Frame>, active: Option<Frame>, savedTime: real, lastCheckTime: real)

  /** The constants the calibrator and the motion test read: `THRESHOLD`, `COMPARISON_VALUE`,
      `SAVE_CHECK_TIME`, `RESET_TIME` and `CONSTANT_BACKGROUND`. */
  datatype Settings = Settings(threshold: int, value: Pixel, saveCheckTime: real, resetTime: real, constantBackground: bool)

  /** Before the first frame: no frames, both clocks at 0. */
  const Initial: Calibrator := Calibrator(None, None, 0.0, 0.0)

  /** Every stored frame has `rows` rows of `cols` samples. */
  predicate FramesShaped(c: Calibrator, rows: nat, cols: nat)
  {
    (c.saved.Some? ==> Shaped(c.saved.value, rows, cols)) &&
    (c.active.Some? ==> Shaped(c.active.value, rows, cols))
  }

  /** Is the staleness check due at time `t`? */
  predicate CheckDue(c: Calibrator, t: real, s: Settings)
  {
    t >= c.lastCheckTime + s.saveCheckTime
  }

  /** Is the forced reset of the active reference due at time `t`? */
  predicate ResetDue(c: Calibrator, t: real, s: Settings)
  {
    t >= c.savedTime + s.resetTime
  }

  /** Does frame `cur` differ from the candidate by more than the threshold somewhere? */
  predicate SceneChanged(c: Calibrator, cur: Frame, s: Settings): (changed: bool)
    requires c.saved.Some? && SameShape(c.saved.value, cur)
    ensures s.value != 0 ==>
      (changed <==> exists y, x :: 0 <= y < |cur| && 0 <= x < |cur[y]| && Abs(c.saved.value[y][x] as int - cur[y][x] as int) > s.threshold)
  {
    Occurs(Compare(c.saved.value, cur, s.threshold, s.value), s.value)
  }

  /** The `CONSTANT_BACKGROUND` block for frame `cur` arriving at time `t`: the first frame
      becomes the candidate; later, a due staleness check that sees a change, or a due forced
      reset, makes `cur` the candidate, and the forced reset also makes it the active reference. */
  function Refresh(c: Calibrator, cur: Frame, t: real, s: Settings, rows: nat, cols: nat): (r: Calibrator)
    requires FramesShaped(c, rows, cols) && Shaped(cur, rows, cols)
    ensures FramesShaped(r, rows, cols)
  {
    if !s.constantBackground then c
    else if c.saved.None? then Calibrator(Some(cur), c.active, t, t)
    else
      var checkDue := CheckDue(c, t, s);
      var changed := checkDue && SceneChanged(c, cur, s);
      var resetDue := ResetDue(c, t, s);
      var save := changed || resetDue;
      Calibrator(if save then Some(cur) else c.saved,
                 if resetDue then Some(cur) else c.active,
                 if save then t else c.savedTime,
                 if checkDue then t else c.lastCheckTime)
  }

  /** The calibrator once frame `cur` has arrived at time `t`: `Refresh`, then the bootstrap of
      the active reference from the first frame. */
  function Recalibrate(c: Calibrator, cur: Frame, t: real, s: Settings, rows: nat, cols: nat): (r: Calibrator)
    requires FramesShaped(c, rows, cols) && Shaped(cur, rows, cols)
    ensures FramesShaped(r, rows, cols) && r.active.Some?
  {
    var c1 := Refresh(c, cur, t, s, rows, cols);
    if c1.active.None? then c1.(active := Some(cur)) else c1
  }

  /** The first frame is a pure calibration frame: it becomes the active reference and, with
      `CONSTANT_BACKGROUND`, also the candidate, with both clocks set to its time. */
  lemma FirstFrame(cur: Frame, t: real, s: Settings, rows: nat, cols: nat)
    requires Shaped(cur, rows, cols)
    ensures var r := Recalibrate(Initial, cur, t, s, rows, cols);
      r.active == Some(cur) &&
      (s.constantBackground ==> r == Calibrator(Some(cur), Some(cur), t, t)) &&
      (!s.constantBackground ==> r == Initial.(active := Some(cur)))
  {
  }

  /** Once set, the active reference changes only by the forced reset, which happens exactly
      when `CONSTANT_BACKGROUND` is on, a candidate exists and `RESET_TIME` has passed since it
      was saved. */
  lemma ActiveReference(c: Calibrator, cur: Frame, t: real, s: Settings, rows: nat, cols: nat)
    requires FramesShaped(c, rows, cols) && Shaped(cur, rows, cols) && c.active.Some?
    ensures var r := Recalibrate(c, cur, t, s, rows, cols);
      var reset := s.constantBackground && c.saved.Some? && ResetDue(c, t, s);
      (reset ==> r.active == Some(cur)) && (!reset ==> r.active == c.active)
  {
  }

  /** The staleness check runs when `SAVE_CHECK_TIME` has passed since the last one and always
      moves the check clock to `t`; a change it sees makes `cur` the candidate. Without a due
      check the check clock stays; without a seen change or a due reset the candidate and
      `saved_time` stay. */
  lemma StalenessCheck(c: Calibrator, cur: Frame, t: real, s: Settings, rows: nat, cols: nat)
    requires FramesShaped(c, rows, cols) && Shaped(cur, rows, cols)
    requires s.constantBackground && c.saved.Some?
    ensures var r := Recalibrate(c, cur, t, s, rows, cols);
      (CheckDue(c, t, s) ==> r.lastCheckTime == t) &&
      (!CheckDue(c, t, s) ==> r.lastCheckTime == c.lastCheckTime) &&
      ((CheckDue(c, t, s) && SceneChanged(c, cur, s)) || ResetDue(c, t, s) ==>
         r.saved == Some(cur) && r.savedTime == t) &&
      (!(CheckDue(c, t, s) && SceneChanged(c, cur, s)) && !ResetDue(c, t, s) ==>
         r.saved == c.saved && r.savedTime == c.savedTime)
  {
  }

  /** The calibrator after a run of frames, each with its arrival time. */
  function Run(c: Calibrator, frames: seq<Frame>, times: seq<real>, s: Settings, rows: nat, cols: nat): (r: Calibrator)
    requires |frames| == |times| && FramesShaped(c, rows, cols)
    requires forall j :: 0 <= j < |frames| ==> Shaped(frames[j], rows, cols)
    ensures FramesShaped(r, rows, cols)
  {
    if frames == [] then c
    else
      var k := |frames| - 1;
      Recalibrate(Run(c, frames[..k], times[..k], s, rows, cols), frames[k], times[k], s, rows, cols)
  }

  /** Whatever the run, the active reference is a frame the camera delivered (or the one held
      before the run); without `CONSTANT_BACKGROUND` it is the run's first frame for good. */
  lemma {:induction false} ActiveIsSeenFrame(frames: seq<Frame>, times: seq<real>, s: Settings, rows: nat, cols: nat)
    requires |frames| == |times| && |frames| > 0
    requires forall j :: 0 <= j < |frames| ==> Shaped(frames[j], rows, cols)
    ensures var r := Run(Initial, frames, times, s, rows, cols);
      r.active.Some? && r.active.value in frames &&
      (!s.constantBackground ==> r.active == Some(frames[0]))
  {
    var k := |frames| - 1;
    if k > 0 {
      ActiveIsSeenFrame(frames[..k], times[..k], s, rows, cols);
      assert frames[..k][0] == frames[0];
    }
  }
}
