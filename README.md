# Virtual piano: detection core in Dafny

This project models the frame-to-event core of a camera-driven virtual piano. The piano
turns each camera frame into "key pressed" and "key released" events. It has two independent
strategies that feed the same kind of per-key state machine.

- **Motion strategy** (`virtual_piano_basic.py`)
  - The sensing row is split into `NUM_KEYS` strips.
  - A label raster marks every pixel of strip `i` with the value `i+1`.
  - A background calibrator keeps a candidate frame (`saved_frame`) and an active reference
    (`comparison_frame`) on two timers.
  - Each frame is compared with the active reference. The comparison mask is added to the
    label raster, as `uint8`, so that one membership test per key tells whether the key's
    strip moved.
  - A key sounds when its strip moved and holds more than 2 % skin-coloured pixels.
- **Landmark strategy** (`virtual_piano_mp.py`, `hand_detection.py`)
  - Each detected hand's bent fingers become key indices: a left hand plays 0–4 and any other
    hand plays 5–9.
  - Two loops then start the newly bent keys and stop the keys no finger bends onto.
- **Telemetry** (`metrics.py`)
  - A bounded moving average of CPU readings.
  - An interval-gated CPU sampler.
  - A guarded frames-per-second quotient.

## Files and modules

| file | module | content |
|---|---|---|
| `common.dfy` | `Common` | `Option`, and `NoteEvent` (`NoteOn(key)` / `NoteOff(key)`) |
| `arith.dfy` | `DivArith` | facts about floor division used by the partition |
| `partition.dfy` | `Partition` | the key strips, and the loop that builds them |
| `label_raster.dfy` | `LabelRaster` | the bounding box, and the in-place painting of the label raster |
| `motion.dfy` | `Motion` | `compare`, the composite-sum lookup, the skin threshold |
| `calibration.dfy` | `Calibration` | the background calibrator as a function on its state |
| `key_states.dfy` | `KeyStates` | flag edges as events, and replaying events on flags |
| `motion_piano.dfy` | `MotionPiano` | the motion strategy's `Piano` class and its per-frame step |
| `hand_detection.dfy` | `HandDetection` | `is_finger_bent`, the key table, `get_bent_fingers` |
| `landmark_piano.dfy` | `LandmarkPiano` | gathering `bent_fingers`, and the `Keyboard` class with its two loops |
| `metrics.dfy` | `Metrics` | CPU window and average, CPU sampler, FPS |

## How each part is modelled

**Mutable state is imperative Dafny.**
- `MotionPiano.Piano` holds:
  - the label raster as an `array2<int>`, painted rectangle by rectangle;
  - `is_playing` as an `array<bool>`;
  - the four calibrator variables as fields.
- `LandmarkPiano.Keyboard` holds `is_playing`. Each of the source's two key loops is a method
  with a loop.
- `Metrics.CpuHistory` holds the deque, which `smooth_cpu_usage` mutates in place.

**Each method is proved against a specification function.**
- The motion step is proved against:
  - `Calibration.Recalibrate` for the calibrator;
  - `MotionPiano.Pressed` for the flags;
  - `KeyStates.Transitions` for the events.
- The landmark update is proved against `Sounding`, `Presses` and `Releases`.
- Properties of those functions are proved as lemmas.

**Integers and reals.**
- Integers are unbounded. The one place where width matters is the `uint8` sum
  `keys + delta`, and it is written out as `% 256`.
- Clock readings, CPU readings and landmark coordinates are `real`. The model does not
  reproduce floating-point rounding.

## Model

| member | source | states |
|---|---|---|
| Partition.KeyRects | virtual_piano_basic.py:51-55 | the loop builds exactly `NUM_KEYS` rectangles; rectangle `i` spans `W*i div N` to `W*(i+1) div N - 1`, from row 0 to `int(KEY_HEIGHT*height)` |
| Partition.StripsTile | virtual_piano_basic.py:52-53 | the strips start at column 0, end at column W-1, and each starts one column after the previous one ends |
| Partition.StripWidth | virtual_piano_basic.py:52-53 | every strip is `W div N` or `W div N + 1` columns wide |
| Partition.StripBounds | virtual_piano_basic.py:52-53 | every strip's start lies in 0..W and its end in -1..W-1 |
| Partition.StripsOrdered | virtual_piano_basic.py:52-53 | an earlier strip ends strictly before a later strip starts, so strips never overlap |
| Partition.StripOf | virtual_piano_basic.py:52-53 | every column 0..W-1 lies in some strip |
| Partition.StripUnique | virtual_piano_basic.py:52-53 | no column lies in two strips |
| LabelRaster.MinOf | virtual_piano_basic.py:67 | `min` returns an element that is at most every element |
| LabelRaster.MaxOf | virtual_piano_basic.py:68 | `max` returns an element that is at least every element |
| LabelRaster.BoundingBox | virtual_piano_basic.py:67-70 | the box contains every rectangle, and each of its four edges is some rectangle's edge, so it is the smallest such box |
| LabelRaster.PartitionBoundingBox | virtual_piano_basic.py:67-70 | the key rectangles' bounding box runs from (0,0) to (W-1, row height), so the raster is W-1 wide and row-height tall |
| LabelRaster.PaintedLabel | virtual_piano_basic.py:74-77 | after painting, a pixel holds 0 when no rectangle covers it; otherwise it holds 1 + the index of the last rectangle that covers it |
| LabelRaster.PaintRect | virtual_piano_basic.py:76-77 | a filled `cv.rectangle` sets exactly the raster pixels between its two corners, in either corner order and clipped to the raster, and leaves the others unchanged |
| LabelRaster.FillLabels | virtual_piano_basic.py:72-77 | starting from zeros, the painting loop leaves every raster pixel equal to `PaintedLabel` |
| LabelRaster.LabelOfColumn | virtual_piano_basic.py:67-77 | when N ≤ W, every pixel in column c holds `i+1` exactly for the strip `i` that contains c |
| LabelRaster.LabelInRange | virtual_piano_basic.py:67-77 | every raster label lies in 1..N |
| Motion.Compare | virtual_piano_basic.py:27-28 | `compare` has its operands' shape; a pixel holds `COMPARISON_VALUE` exactly when the absolute difference exceeds `THRESHOLD`, and 0 otherwise |
| Motion.SumAt | virtual_piano_basic.py:129 | a sample of the `uint8` sum `keys + delta` lies in 0..255; it is the plain sum below 256, and the sum less 256 from 256 to 511 |
| Motion.SumContains | virtual_piano_basic.py:135 | a value found in the sum lies in 0..255; when no sample overflows, a value is found exactly when some pixel's label plus its delta equals it |
| Motion.CompareSelf | virtual_piano_basic.py:27-28 | a frame compared with itself holds no `COMPARISON_VALUE` pixel |
| Motion.CompositeSumMotion | virtual_piano_basic.py:128-135 | given labels in 0..N, N ≤ `COMPARISON_VALUE` and `COMPARISON_VALUE` + N ≤ 255: `1+i+COMPARISON_VALUE in (keys + delta)` holds exactly when some pixel labelled `i+1` has delta `COMPARISON_VALUE` |
| Motion.SkinDetected | virtual_piano_basic.py:142 | a region with no skin pixel never passes; more than one skin pixel in fifty always passes; a region of fewer than 50 pixels passes exactly when it holds a skin pixel |
| Motion.SkinThreshold | virtual_piano_basic.py:142 | `50*skin > total` agrees with `skin > 0.02*total` over exact reals; exactly 2 % and an empty region are both rejected |
| Calibration.SceneChanged | virtual_piano_basic.py:114 | for a non-zero `COMPARISON_VALUE`, the staleness test fires exactly when some pixel of the candidate and `cur` differ by more than `THRESHOLD` |
| Calibration.Refresh | virtual_piano_basic.py:106-122 | the `CONSTANT_BACKGROUND` block keeps every stored frame the shape of the key row |
| Calibration.Recalibrate | virtual_piano_basic.py:106-126 | after calibration and the bootstrap, an active reference of the key row's shape always exists |
| Calibration.FirstFrame | virtual_piano_basic.py:109-126 | the first frame becomes the active reference; with `CONSTANT_BACKGROUND` it also becomes the candidate, and both clocks are set to its time |
| Calibration.ActiveReference | virtual_piano_basic.py:117-125 | once set, the active reference changes only when `CONSTANT_BACKGROUND` is on, a candidate exists and `RESET_TIME` has passed since the candidate was saved; it then becomes the current frame |
| Calibration.StalenessCheck | virtual_piano_basic.py:113-122 | when due, the check moves `last_check_time` to `t`; `cur` replaces the candidate exactly when a due check sees a change or a reset is due; otherwise the candidate and `saved_time` stay, and `last_check_time` stays unless a check was due |
| Calibration.Run | virtual_piano_basic.py:106-126 | over any run of frames, the stored frames keep the key row's shape |
| Calibration.ActiveIsSeenFrame | virtual_piano_basic.py:106-126 | after any run, the active reference is one of the frames delivered; without `CONSTANT_BACKGROUND` it is always the first frame |
| KeyStates.Transitions | virtual_piano_basic.py:144-156 | the per-key loop emits at most N events, each for a key below N |
| KeyStates.TransitionsExact | virtual_piano_basic.py:144-156 | key k gets a note-on exactly when it was silent and is now pressed, and a note-off exactly when it was sounding and is now released |
| KeyStates.TransitionsAscending | virtual_piano_basic.py:133-156 | at most one event per key, in ascending key order |
| KeyStates.TransitionsQuiet | virtual_piano_basic.py:144-156 | unchanged flags produce no events |
| KeyStates.ApplyTransitions | virtual_piano_basic.py:144-156 | a note sink that replays the events on the old flags ends with exactly the new flags |
| MotionPiano.NoKeyPressedAgainstItself | virtual_piano_basic.py:117-128 | compared with itself, a frame presses no key; so on the frame where a reset makes `cur` the active reference, every key is released |
| MotionPiano.Piano.constructor | virtual_piano_basic.py:31-82 | at start-up: the rectangles and the label raster as described above, every key silent, an empty calibrator, and a raster and flag array that are newly allocated, so the frame loop may update them |
| MotionPiano.Piano.Step | virtual_piano_basic.py:106-156 | one frame: the calibrator follows `Recalibrate`; the bootstrap frame emits nothing and changes no flag; otherwise each key sounds exactly when it moved and holds skin, and the events are the flag edges |
| MotionPiano.Piano.Calibrate | virtual_piano_basic.py:106-122 | the `CONSTANT_BACKGROUND` block updates the four calibrator fields as `Refresh` does |
| MotionPiano.Piano.PlayKeys | virtual_piano_basic.py:133-156 | the per-key loop leaves `is_playing` equal to the pressed keys and emits `Transitions` of the old and new flags |
| MotionPiano.Piano.PlayNext | virtual_piano_basic.py:135-156 | key i's turn within the loop: its flag becomes pressed or not as the frame says, no other flag changes, and the events of keys `0..i` are `Transitions` of the first i + 1 old and new flags |
| MotionPiano.Piano.PlayKey | virtual_piano_basic.py:135-156 | one turn for key i: the flag becomes "moved and skin", no other flag changes, and the event is that flag's edge |
| HandDetection.Joints | hand_detection.py:34-52 | every finger's three landmark indices are valid; the thumb test never reads `THUMB_MCP` |
| HandDetection.IsFingerBent | hand_detection.py:14-27 | a non-thumb finger is bent iff tip.y > pip.y, and its base joint is ignored; a thumb whose base and middle joints are not level is bent iff the tip is strictly on the far side of the base from the middle joint; with level joints it is bent iff tip.x > base.x; a tip level with the base is never bent |
| HandDetection.KeyOf | hand_detection.py:37-53 | a "Left" hand's fingers play keys 0–4, and any other label's fingers play 5–9 |
| HandDetection.KeyMirror | hand_detection.py:37-53 | each finger's left key + its right key = 9 |
| HandDetection.KeyInjective | hand_detection.py:37-53 | within one hand, different fingers play different keys |
| HandDetection.KeysAmong | hand_detection.py:33-53 | the keys appended for the first r fingers are at most r; they fall strictly within 5-r..4 for a left hand and rise strictly within 5..4+r otherwise |
| HandDetection.KeysAmongMembers | hand_detection.py:33-53 | among the first r fingers, a finger's key is appended exactly when that finger is bent |
| HandDetection.GetBentFingers | hand_detection.py:29-54 | at most 5 keys; for "Left" they lie in 0..4 and fall strictly, otherwise they lie in 5..9 and rise strictly, so there are no duplicates |
| HandDetection.BentFingersMembers | hand_detection.py:29-54 | a finger's key is in the result exactly when that finger is bent |
| HandDetection.PinkyAlone | hand_detection.py:50-53 | with only the pinky bent, a left hand gives [0] and a right hand gives [9] |
| HandDetection.MirrorKeepsBent | hand_detection.py:21-27 | flipping the image horizontally keeps every finger's classification, unless the thumb's base and middle joints are level |
| HandDetection.MirrorTieBreak | hand_detection.py:24 | with level thumb joints and the tip off to one side, flipping the image flips the thumb's classification |
| LandmarkPiano.HandKeys | virtual_piano_mp.py:58-60 | there is one key list per detected hand |
| LandmarkPiano.FlattenMembers | virtual_piano_mp.py:56-60 | a key is in the joined lists exactly when some list holds it |
| LandmarkPiano.AllBentFingers | virtual_piano_mp.py:56-60 | `bent_fingers` holds a key exactly when some detected hand's `get_bent_fingers` lists it; with no hands it is empty |
| LandmarkPiano.AllBentFingersBelowTen | virtual_piano_mp.py:56-60 | every entry of `bent_fingers` is below 10 |
| LandmarkPiano.LeftAndRightDistinct | virtual_piano_mp.py:56-60 | one "Left" hand and one other hand never produce the same key twice |
| LandmarkPiano.CollectBentFingers | virtual_piano_mp.py:56-60 | the loop over hands concatenates each hand's keys in detection order, keeping duplicates |
| LandmarkPiano.FirstIndex | virtual_piano_mp.py:65-69 | gives the position where a key first occurs in `bent_fingers` |
| LandmarkPiano.Presses | virtual_piano_mp.py:65-68 | the first loop emits at most one event per finger, and each is a note-on for a bent key |
| LandmarkPiano.Releases | virtual_piano_mp.py:71-74 | the second loop, over keys below m, emits at most m events, and each is a note-off for a key below m |
| LandmarkPiano.FrameEvents | virtual_piano_mp.py:64-74 | a frame emits at most one event per finger and one per key: first the note-ons for bent keys, then note-offs for keys below `NUM_KEYS` |
| LandmarkPiano.PressesExact | virtual_piano_mp.py:65-68 | the first loop emits only note-ons: exactly for the bent keys that were silent, and at most one per key even when the key repeats |
| LandmarkPiano.PressesInBentOrder | virtual_piano_mp.py:65-68 | the note-ons follow the order in which their keys first occur in `bent_fingers` |
| LandmarkPiano.ReleasesExact | virtual_piano_mp.py:71-74 | the second loop emits only note-offs: exactly for the keys that sound and that no finger bends onto, in strictly ascending order |
| LandmarkPiano.FrameEventsExact | virtual_piano_mp.py:64-74 | the frame's note-ons go to exactly the newly bent keys and its note-offs to exactly the sounding keys no longer bent; no note-off comes before a note-on |
| LandmarkPiano.FrameReplay | virtual_piano_mp.py:64-74 | replaying the frame's events on the old flags gives exactly the keys in `bent_fingers` |
| LandmarkPiano.Keyboard.constructor | virtual_piano_mp.py:30 | `is_playing` starts all false |
| LandmarkPiano.Keyboard.Update | virtual_piano_mp.py:64-74 | `active_keys` equals `bent_fingers`; afterwards `is_playing[k]` holds iff k is in `bent_fingers`; the events are the note-ons followed by the note-offs |
| LandmarkPiano.Keyboard.PressBent | virtual_piano_mp.py:64-69 | the first loop marks every bent key as sounding and emits the `Presses` note-ons |
| LandmarkPiano.Keyboard.ReleaseUnbent | virtual_piano_mp.py:71-74 | the second loop clears every key not in `active_keys` and emits the `Releases` note-offs |
| LandmarkPiano.Keyboard.Step | virtual_piano_mp.py:55-74 | one frame: collect the detected hands' keys, then update as `Update` does |
| Metrics.Windowed | metrics.py:27-30 | with no sample the window is unchanged; with a sample the window is the newest entries of history + [sample], and it grows by one exactly when it then fits `max_history` |
| Metrics.WindowBounded | metrics.py:28-30 | a window within `max_history` stays within it and keeps the newest sample at its back |
| Metrics.Mean | metrics.py:33 | the smoothed value of an empty window is 0; otherwise it times the window length is the window's sum |
| Metrics.SumBounds | metrics.py:33 | a sum of n entries in lo..hi lies in n·lo..n·hi |
| Metrics.MeanBounds | metrics.py:33 | the average of a non-empty window lies between its smallest and largest possible reading |
| Metrics.CpuHistory.SmoothCpuUsage | metrics.py:19-34 | updates the deque in place as `Windowed` says, and returns its mean, or 0 when it is empty |
| Metrics.MonitorCpuUsage | metrics.py:5-16 | a reading is taken exactly when `now - last_time >= interval`, and the returned time then becomes `now`; otherwise it returns (None, `last_time`) |
| Metrics.SamplesSpaced | metrics.py:12-16 | when polled at any clock readings, the first reading comes at least `interval` after the start, and each later one at least `interval` after the one before |
| Metrics.CalculateFps | metrics.py:36-38 | 0 when no time has passed or the clock went back; otherwise fps × elapsed = `frame_count`, and fps ≥ 0 |

## Left out

- **Camera and display.**
  - Not modelled: video capture, `cv.flip`, the window, `draw_piano_keys`, and every drawing call (overlays, outlines, text).
  - Also not modelled: `cv.waitKey`, and the loop's end on a failed read or Escape.
- **Image kernels.** Not modelled: the crop to the key row, grey conversion, `GaussianBlur`, and `detect_skin`'s HSV range test.
  - The step takes the blurred key row as a frame of 0..255 values.
  - It takes each key's skin-pixel and total-pixel counts as numbers.
  - So the exact pixel window of `detected_region` is not modelled: rows `0..rowHeight-1`, columns `x0..x1-1`.
  - The skin counts are not tied to a single frame. In the source, the per-key loop draws into `frame` (a blue overlay for a sounding key, the key outline, and the note name from x0+20) before the next key's `detected_region` is cut from that same frame (virtual_piano_basic.py:136, 146-148, 158-159). The note name can reach into the next strip and change its skin count. The model treats every key's counts as independent inputs and does not capture this.
- **Hand-pose estimation.** MediaPipe is not modelled. Hands arrive as 21 landmarks with a handedness label; the `z` coordinate is never read.
- **Audio.** `audio_handler.py` is not part of this model. An event carries the key index rather than `NOTES[i]`.
- **Clock and OS.** `time.time()` and `psutil.cpu_percent` become parameters.
- **Telemetry wiring.** The FPS and CPU calls inside both frame loops are not wired into the `Step` methods; they are modelled on their own in `Metrics`.
- **Unused values.**
  - Not modelled, because nothing reads them:
    - `frame_rects`;
    - `valid_frame`, which is written but never read;
    - the `scaled_width != frame_width` resize branches, since all three widths equal the frame width.
  - Because the widths are equal, one rectangle list stands for the scaled, frame and display lists.
- **Shutdown.** The `finally` block only closes the MIDI port, the camera and the windows.
- **Floating point.** Clock, CPU and coordinate values are exact reals.
  - `Motion.SkinDetected` uses the exact comparison `50*skin > total`.
  - The source's double `0.02*total` can round differently near the boundary.
- **Motion step preconditions.** `MotionPiano.Piano.constructor` requires N ≥ 1, a frame width W ≥ 2N and a key-row height of at least one pixel. The source raises outside these bounds, and the model does not model that failure.
  - `min()` of an empty list raises when N = 0.
  - `cv.cvtColor` raises on an empty image. The key-row crop converted at virtual_piano_basic.py:99-102 is W − 1 columns by the row height, so it is empty when W = 1 or the height is 0.
  - Each key's display region, converted through `detect_skin` at virtual_piano_basic.py:137-138 and :20, is one column narrower than its strip. It is empty when a strip is one column wide. By `Partition.StripWidth` that happens exactly when W < 2N.
  - It also requires N ≤ `COMPARISON_VALUE` and `COMPARISON_VALUE + N ≤ 255`. These keep labels and mask values apart in the `uint8` sum, as the separate label values 1..N and mask value `COMPARISON_VALUE` are meant to stay apart. The constants file is not part of this model, so these bounds are an assumption on its values; settings that break them would wrap and mix keys.
- **Landmark update precondition.** `LandmarkPiano.Keyboard.Update` requires every bent-finger key to be below `NUM_KEYS`. Otherwise `is_playing[finger]` raises in the source, so `NUM_KEYS` must be at least 10.
- **Narrow strips.** `LabelRaster.LabelOfColumn` requires N ≤ W. With more keys than columns some strips are empty, and the unique-strip statement is then stated only through `Partition.StripOf` and `Partition.StripUnique`. A piano built by `MotionPiano.Piano.constructor` has W ≥ 2N, so N ≤ W holds for it.

## Where the code and its intended behaviour differ

The model follows the code in each case below.

- **No shutdown sweep.** The intended behaviour includes a note-off for every sounding key on shutdown. The code emits none: keys sounding at exit are never released.
- **Strip widths.** The strips are meant to be equal-width. With floor division, widths differ by up to one column (`Partition.StripWidth`).
- **Active-reference reset.** The active reference is meant to be reset every `RESET_TIME` seconds.
  - In the code, the reset happens `RESET_TIME` after the candidate was last saved.
  - A staleness check that sees a change also re-saves the candidate, so it postpones the reset (`Calibration.ActiveReference`).
- **Event order in the landmark strategy.** The intended behaviour is one transition rule per key.
  - The code emits all note-ons first, in `bent_fingers` order.
  - It then emits the note-offs in ascending key order (`LandmarkPiano.FrameEventsExact`, `LandmarkPiano.PressesInBentOrder`).
- **Duplicate keys.** The bent-finger keys are meant to form a set without duplicates. The code keeps a list, not a set.
  - Two hands with the same label (for example two "Right" hands) can list the same key twice.
  - Distinctness holds for one left hand and one other hand (`LandmarkPiano.LeftAndRightDistinct`).
  - The key state machine still emits at most one note-on per key (`LandmarkPiano.PressesExact`).
- **Raster width.** The label raster and the analysed crop are W-1 columns wide: the bounding box subtracts corners without adding one. So the frame's last column never takes part in motion detection (`LabelRaster.PartitionBoundingBox`).
- **Thumb mirror symmetry.** The thumb test is mirror-symmetric except when its base and middle joints are exactly level (`HandDetection.MirrorTieBreak`).
