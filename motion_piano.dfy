/** The motion strategy's frame loop: the piano state (label raster, calibrator, one sounding
    flag per key) and the per-frame step from a blurred key-row raster to note events. */
module MotionPiano {
  import opened Common
  import opened Partition
  import opened LabelRaster
  import opened Motion
  import opened Calibration
  import opened KeyStates

  /** Which keys a frame presses: some pixel of the key's region moved, and the key's region
      holds enough skin. `skin[i]` and `total[i]` are the skin and all pixels of key `i`'s region. */
  ghost function Pressed(keys: array2<int>, delta: Frame, value: int, skin: seq<nat>, total: seq<nat>): seq<bool>
    reads keys
    requires Shaped(delta, keys.Length0, keys.Length1) && |skin| == |total|
  {
    seq(|skin|, i requires 0 <= i < |skin| reads keys => KeyPressed(keys, delta, value, skin[i], total[i], i))
  }

  /** Key `i` is pressed: its region moved and holds enough skin. */
  ghost predicate KeyPressed(keys: array2<int>, delta: Frame, value: int, skin: nat, total: nat, i: nat)
    reads keys
    requires Shaped(delta, keys.Length0, keys.Length1)
  {
    MovedInRegion(keys, delta, value, i) && SkinDetected(skin, total)
  }

  /** A region that moved has a moved pixel somewhere in the mask. */
  lemma MovedIsOccurrence(keys: array2<int>, delta: Frame, value: int, i: nat)
    requires Shaped(delta, keys.Length0, keys.Length1)
    ensures MovedInRegion(keys, delta, value, i) ==> Occurs(delta, value)
  {
    if MovedInRegion(keys, delta, value, i) {
      var y, x :| 0 <= y < keys.Length0 && 0 <= x < keys.Length1 && keys[y, x] == i + 1 && delta[y][x] == value;
      assert delta[y][x] == value;
    }
  }

  /** Measured against the very frame that arrives, nothing moves: so the frame on which the
      forced reset makes `cur` the active reference presses no key and releases every key. */
  lemma NoKeyPressedAgainstItself(keys: array2<int>, cur: Frame, s: Settings, skin: seq<nat>, total: seq<nat>)
    requires Shaped(cur, keys.Length0, keys.Length1) && |skin| == |total|
    requires s.threshold >= 0 && s.value != 0
    ensures forall i :: 0 <= i < |skin| ==> !Pressed(keys, Compare(cur, cur, s.threshold, s.value), s.value, skin, total)[i]
  {
    var delta := Compare(cur, cur, s.threshold, s.value);
    CompareSelf(cur, s.threshold, s.value);
    forall i | 0 <= i < |skin|
      ensures !MovedInRegion(keys, delta, s.value, i)
    {
      MovedIsOccurrence(keys, delta, s.value, i);
    }
  }

  class Piano {
    /** `NUM_KEYS`. */
    const numKeys: nat
    /** The frame width, which the source also uses as the analysis and display width. */
    const width: nat
    /** `int(KEY_HEIGHT * height)`: the bottom row of every key rectangle. */
    const rowHeight: nat
    const settings: Settings
    /** The key rectangles, key `i` at index `i`. */
    const rects: seq<Rect>
    /** The label raster `keys`. */
    const keys: array2<int>
    /** `is_playing`. */
    const isPlaying: array<bool>
    /** `saved_frame`, `comparison_frame`, `saved_time` and `last_check_time`. */
    var savedFrame: Option<Frame>
    var comparisonFrame: Option<Frame>
    var savedTime: real
    var lastCheckTime: real

    ghost function State(): Calibrator
      reads this
    {
      Calibrator(savedFrame, comparisonFrame, savedTime, lastCheckTime)
    }

    /** The piano between frames: its geometry, its label raster, and a calibrator whose
        candidate never exists without an active reference. */
    ghost predicate Valid()
      reads this, keys
    {
      Layout() && FramesShaped(State(), rowHeight, width - 1) && (savedFrame.Some? ==> comparisonFrame.Some?)
    }

    /** The constants, the key rectangles and the label raster painted from them. */
    ghost predicate Layout()
      reads this, keys
    {
      && 1 <= numKeys && 1 <= width
      && numKeys <= settings.value && settings.value + numKeys <= 255
      && |rects| == numKeys
      && (forall i :: 0 <= i < numKeys ==> rects[i] == StripRect(width, rowHeight, numKeys, i))
      && keys.Length0 == rowHeight && keys.Length1 == width - 1
      && (forall y, x :: 0 <= y < keys.Length0 && 0 <= x < keys.Length1 ==>
            keys[y, x] == PaintedLabel(rects, numKeys, 0, 0, x, y))
      && isPlaying.Length == numKeys
    }

    /** What the per-key loop reads of the layout: the raster's size, and labels in `0..numKeys`
        kept apart from the mask value in the `uint8` sum. */
    ghost predicate Labels()
      reads this, keys
    {
      && keys.Length0 == rowHeight && keys.Length1 == width - 1 && isPlaying.Length == numKeys
      && numKeys <= settings.value && settings.value + numKeys <= 255
      && forall y, x :: 0 <= y < keys.Length0 && 0 <= x < keys.Length1 ==> 0 <= keys[y, x] <= numKeys
    }

    lemma ValidLabels()
      requires Valid()
      ensures Labels()
    {
    }

    /** Start-up: the key rectangles, the label raster painted into a raster of zeros as large
        as their bounding box, every key silent and the calibrator empty. `n` is at least 1
        (the bounding box takes `min` over the rectangles). The frame loop converts the key row
        and each key's display region, one column narrower than its strip, with `cvtColor`, which
        raises on an empty image: so the key row is at least one pixel high and every strip at
        least two columns wide, which holds exactly when the width is at least `2 * n`.
        `n <= COMPARISON_VALUE` and `COMPARISON_VALUE + n <= 255` keep labels and mask values
        apart in the composite sum. */
    constructor (n: nat, frameWidth: nat, keyRowHeight: nat, s: Settings)
      requires 1 <= n && 2 * n <= frameWidth && 1 <= keyRowHeight
      requires n <= s.value && s.value + n <= 255
      ensures Valid()
      ensures numKeys == n && width == frameWidth && rowHeight == keyRowHeight && settings == s
      ensures State() == Initial
      ensures forall i :: 0 <= i < n ==> !isPlaying[i]
      ensures fresh(keys) && fresh(isPlaying)
    {
      var rs := KeyRects(frameWidth, keyRowHeight, n);
      PartitionBoundingBox(frameWidth, keyRowHeight, n, rs);
      var box := BoundingBox(rs);
      var raster := new int[box.y1 - box.y0, box.x1 - box.x0]((y, x) => 0);
      FillLabels(raster, rs, box.x0, box.y0);
      numKeys, width, rowHeight, settings := n, frameWidth, keyRowHeight, s;
      rects := rs;
      keys := raster;
      isPlaying := new bool[n](i => false);
      savedFrame, comparisonFrame, savedTime, lastCheckTime := None, None, 0.0, 0.0;
    }

    /** One pass of the frame loop for the blurred key-row raster `cur` arriving at time `t`.
        The calibrator moves on as `Recalibrate` says. On the bootstrap frame no key is looked
        at. Otherwise each key sounds exactly when its region moved against the active reference
        and holds enough skin, and the events are the flags' edges in ascending key order. */
    method Step(cur: Frame, t: real, skin: seq<nat>, total: seq<nat>) returns (events: seq<NoteEvent>)
      requires Valid()
      requires Shaped(cur, rowHeight, width - 1)
      requires |skin| == numKeys && |total| == numKeys
      modifies this, isPlaying
      ensures Valid()
      ensures State() == Recalibrate(old(State()), cur, t, settings, rowHeight, width - 1)
      ensures old(comparisonFrame).None? ==> events == [] && isPlaying[..] == old(isPlaying[..])
      ensures old(comparisonFrame).Some? ==>
        var pressed := Pressed(keys, Compare(comparisonFrame.value, cur, settings.threshold, settings.value),
                               settings.value, skin, total);
        isPlaying[..] == pressed && events == Transitions(old(isPlaying[..]), pressed)
    {
      Calibrate(cur, t);
      if comparisonFrame.None? {
        comparisonFrame := Some(cur);
        return [];
      }
      var delta := Compare(comparisonFrame.value, cur, settings.threshold, settings.value);
      ValidLabels();
      events := PlayKeys(delta, skin, total, Pressed(keys, delta, settings.value, skin, total));
    }

    /** The `CONSTANT_BACKGROUND` block: the staleness check, the forced reset and the refresh
        of the candidate. */
    method Calibrate(cur: Frame, t: real)
      requires Valid()
      requires Shaped(cur, rowHeight, width - 1)
      modifies this
      ensures Layout()
      ensures State() == Refresh(old(State()), cur, t, settings, rowHeight, width - 1)
    {
      if settings.constantBackground {
        var save := false;
        if savedFrame.None? {
          save := true;
          lastCheckTime := t;
        } else {
          if t >= lastCheckTime + settings.saveCheckTime {
            if Occurs(Compare(savedFrame.value, cur, settings.threshold, settings.value), settings.value) {
              save := true;
            }
            lastCheckTime := t;
          }
          if t >= savedTime + settings.resetTime {
            comparisonFrame := Some(cur);
            save := true;
          }
        }
        if save {
          savedFrame := Some(cur);
          savedTime := t;
        }
      }
    }

    /** The per-key loop: key `i` is pressed when `1 + i + COMPARISON_VALUE` occurs in the
        composite sum and its region holds enough skin; a pressed key that is silent gets a
        note-on, an unpressed key that sounds gets a note-off. */
    method PlayKeys(delta: Frame, skin: seq<nat>, total: seq<nat>, ghost pressed: seq<bool>) returns (events: seq<NoteEvent>)
      requires Labels()
      requires Shaped(delta, rowHeight, width - 1)
      requires forall y, x :: 0 <= y < rowHeight && 0 <= x < width - 1 ==> delta[y][x] == 0 || delta[y][x] == settings.value
      requires |skin| == numKeys && |total| == numKeys
      requires |pressed| == numKeys
      requires forall j :: 0 <= j < numKeys ==> pressed[j] == KeyPressed(keys, delta, settings.value, skin[j], total[j], j)
      modifies isPlaying
      ensures isPlaying[..] == pressed
      ensures events == Transitions(old(isPlaying[..]), pressed)
    {
      ghost var was := isPlaying[..];
      events := [];
      for i := 0 to numKeys
        modifies isPlaying
        invariant Labels()
        invariant forall j :: 0 <= j < i ==> isPlaying[j] == pressed[j]
        invariant forall j :: i <= j < numKeys ==> isPlaying[j] == was[j]
        invariant events == Transitions(was[..i], pressed[..i])
      {
        events := PlayNext(i, delta, skin, total, was, pressed, events);
      }
      assert was[..numKeys] == was && pressed[..numKeys] == pressed;
      assert isPlaying[..] == pressed;
    }

    /** Key `i`'s turn of the per-key loop, appending its edge to the events of the keys before it. */
    method PlayNext(i: nat, delta: Frame, skin: seq<nat>, total: seq<nat>, ghost was: seq<bool>, ghost pressed: seq<bool>,
                    events: seq<NoteEvent>) returns (extended: seq<NoteEvent>)
      requires Labels() && i < numKeys
      requires Shaped(delta, rowHeight, width - 1)
      requires forall y, x :: 0 <= y < rowHeight && 0 <= x < width - 1 ==> delta[y][x] == 0 || delta[y][x] == settings.value
      requires |skin| == numKeys && |total| == numKeys && |was| == numKeys && |pressed| == numKeys
      requires pressed[i] == KeyPressed(keys, delta, settings.value, skin[i], total[i], i)
      requires isPlaying[i] == was[i] && events == Transitions(was[..i], pressed[..i])
      modifies isPlaying
      ensures isPlaying[i] == pressed[i]
      ensures forall j :: 0 <= j < numKeys && j != i ==> isPlaying[j] == old(isPlaying[j])
      ensures extended == Transitions(was[..i + 1], pressed[..i + 1])
    {
      var e := PlayKey(i, delta, skin[i], total[i], pressed[i]);
      TransitionsNext(was, pressed, i, events, e);
      extended := events + e;
    }

    /** One turn of the per-key loop, for key `i`. */
    method PlayKey(i: nat, delta: Frame, skin: nat, total: nat, ghost pressed: bool) returns (e: seq<NoteEvent>)
      requires Labels() && i < numKeys
      requires Shaped(delta, rowHeight, width - 1)
      requires forall y, x :: 0 <= y < rowHeight && 0 <= x < width - 1 ==> delta[y][x] == 0 || delta[y][x] == settings.value
      requires pressed == KeyPressed(keys, delta, settings.value, skin, total, i)
      modifies isPlaying
      ensures isPlaying[i] == pressed
      ensures forall j :: 0 <= j < numKeys && j != i ==> isPlaying[j] == old(isPlaying[j])
      ensures e == Edge(i, old(isPlaying[i]), isPlaying[i])
    {
      var motionDetected := SumContains(keys, delta, 1 + i + settings.value);
      var skinDetected := SkinDetected(skin, total);
      CompositeSumMotion(keys, delta, settings.value, numKeys, i);
      e := [];
      if motionDetected && skinDetected {
        if !isPlaying[i] {
          e := [NoteOn(i)];
          isPlaying[i] := true;
        }
      } else {
        if isPlaying[i] {
          e := [NoteOff(i)];
          isPlaying[i] := false;
        }
      }
    }
  }
}
