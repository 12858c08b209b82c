/** The landmark strategy's frame loop: the bent fingers of every detected hand become the keys
    that sound, and the keys' flags change with a note-on or note-off for each change. */
module LandmarkPiano {
  import opened Common
  import opened HandDetection
  import opened KeyStates

  /** One hand MediaPipe found in the frame: its landmarks and its handedness label. */
  datatype DetectedHand = DetectedHand(landmarks: Landmarks, side: string)

  /** `get_bent_fingers(hand_landmarks, hand_label)` for one detected hand. */
  function KeysOfHand(hand: DetectedHand): seq<nat>
  {
    GetBentFingers(hand.landmarks, hand.side)
  }

  /** Each hand's bent-finger keys, in the order the hands were detected. */
  function HandKeys(hands: seq<DetectedHand>): (lists: seq<seq<nat>>)
    ensures |lists| == |hands|
  {
    seq(|hands|, j requires 0 <= j < |hands| => KeysOfHand(hands[j]))
  }

  /** The lists joined one after the other, duplicates kept. */
  function Flatten(lists: seq<seq<nat>>): seq<nat>
  {
    if lists == [] then []
    else Flatten(lists[..|lists| - 1]) + lists[|lists| - 1]
  }

  /** Joining one more list appends it. */
  lemma FlattenSnoc(lists: seq<seq<nat>>, j: nat)
    requires j < |lists|
    ensures Flatten(lists[..j + 1]) == Flatten(lists[..j]) + lists[j]
  {
    assert lists[..j + 1][..j] == lists[..j];
  }

  /** A key is in the joined lists exactly when some list holds it. */
  lemma {:induction false} FlattenMembers(lists: seq<seq<nat>>, k: nat)
    ensures k in Flatten(lists) <==> exists j :: 0 <= j < |lists| && k in lists[j]
  {
    if lists != [] {
      var m := |lists| - 1;
      var front := lists[..m];
      FlattenMembers(front, k);
      assert Flatten(lists) == Flatten(front) + lists[m];
      if k in Flatten(front) {
        var j :| 0 <= j < m && k in front[j];
        assert front[j] == lists[j];
      }
      if exists j :: 0 <= j < |lists| && k in lists[j] {
        var j :| 0 <= j < |lists| && k in lists[j];
        if j < m {
          assert front[j] == lists[j];
        }
      }
    }
  }

  /** `bent_fingers`: each hand's bent-finger keys, hand after hand, duplicates kept. A key is
      among them exactly when some hand lists it. */
  function AllBentFingers(hands: seq<DetectedHand>): (bent: seq<nat>)
    ensures forall k :: k in bent <==> exists j :: 0 <= j < |hands| && k in HandKeys(hands)[j]
  {
    var lists := HandKeys(hands);
    assert forall k :: k in Flatten(lists) <==> exists j :: 0 <= j < |lists| && k in lists[j] by {
      forall k {
        FlattenMembers(lists, k);
      }
    }
    Flatten(lists)
  }

  /** Every key in the joined lists lies below a bound all the lists respect. */
  lemma {:induction false} FlattenBelow(lists: seq<seq<nat>>, n: nat)
    requires forall j, i :: 0 <= j < |lists| && 0 <= i < |lists[j]| ==> lists[j][i] < n
    ensures forall i :: 0 <= i < |Flatten(lists)| ==> Flatten(lists)[i] < n
  {
    if lists != [] {
      FlattenBelow(lists[..|lists| - 1], n);
    }
  }

  /** Every bent-finger key is one of the ten keys the two hands' layouts use. */
  lemma AllBentFingersBelowTen(hands: seq<DetectedHand>)
    ensures forall i :: 0 <= i < |AllBentFingers(hands)| ==> AllBentFingers(hands)[i] < 10
  {
    FlattenBelow(HandKeys(hands), 10);
  }

  /** No key appears twice in a sequence. */
  predicate Distinct(s: seq<nat>)
  {
    forall j, l :: 0 <= j < l < |s| ==> s[j] != s[l]
  }

  /** One left hand and one other hand, in either order, never bend two fingers onto the same
      key: the left hand's keys lie in 0..4, the other's in 5..9, and each hand's are distinct. */
  lemma LeftAndRightDistinct(hands: seq<DetectedHand>)
    requires |hands| == 2
    requires (hands[0].side == "Left") != (hands[1].side == "Left")
    ensures Distinct(AllBentFingers(hands))
  {
    var lists := HandKeys(hands);
    FlattenTwo(lists);
    var a := GetBentFingers(hands[0].landmarks, hands[0].side);
    var b := GetBentFingers(hands[1].landmarks, hands[1].side);
    assert lists[0] == a && lists[1] == b;
    if hands[0].side == "Left" {
      ApartDistinct(a, b);
    } else {
      ApartDistinct(b, a);
    }
  }

  /** Two lists joined. */
  lemma FlattenTwo(lists: seq<seq<nat>>)
    requires |lists| == 2
    ensures Flatten(lists) == lists[0] + lists[1]
  {
    var none: seq<seq<nat>> := [];
    var first := lists[..1];
    assert first[..0] == none && first[0] == lists[0];
    assert Flatten(first) == Flatten(none) + lists[0];
    assert lists[..|lists| - 1] == first;
  }

  /** Two falling-or-rising key lists on opposite sides of 5 join without a repeated key. */
  lemma ApartDistinct(low: seq<nat>, high: seq<nat>)
    requires forall j :: 0 <= j < |low| ==> low[j] < 5
    requires forall j, l :: 0 <= j < l < |low| ==> low[j] > low[l]
    requires forall j :: 0 <= j < |high| ==> 5 <= high[j]
    requires forall j, l :: 0 <= j < l < |high| ==> high[j] < high[l]
    ensures Distinct(low + high) && Distinct(high + low)
  {
    var s := high + low;
    forall j, l | 0 <= j < l < |s|
      ensures s[j] != s[l]
    {
      if l < |high| {
        assert s[j] == high[j] && s[l] == high[l];
      } else if j >= |high| {
        assert s[j] == low[j - |high|] && s[l] == low[l - |high|];
      } else {
        assert s[j] == high[j] && s[l] == low[l - |high|];
      }
    }
  }

  /** `bent_fingers`, gathered by the loop over the detected hands. */
  method CollectBentFingers(hands: seq<DetectedHand>) returns (bent: seq<nat>)
    ensures bent == AllBentFingers(hands)
  {
    ghost var lists := HandKeys(hands);
    bent := [];
    for j := 0 to |hands|
      invariant bent == Flatten(lists[..j])
    {
      FlattenSnoc(lists, j);
      bent := bent + KeysOfHand(hands[j]);
    }
    assert lists[..|hands|] == lists;
  }

  /** Every entry is a key of a keyboard with `n` keys. */
  predicate InRange(bent: seq<nat>, n: nat)
  {
    forall j :: 0 <= j < |bent| ==> bent[j] < n
  }

  /** Every event is a note-on for a key among `keys`. */
  predicate StartsAmong(events: seq<NoteEvent>, keys: seq<nat>)
  {
    forall j :: 0 <= j < |events| ==> events[j].NoteOn? && events[j].key in keys
  }

  /** Every event is a note-off for a key below `m`. */
  predicate StopsBelow(events: seq<NoteEvent>, m: nat)
  {
    forall j :: 0 <= j < |events| ==> events[j].NoteOff? && events[j].key < m
  }

  /** The flags after the first loop: a key sounds if it sounded or a finger bends onto it. */
  function Marked(flags: seq<bool>, bent: seq<nat>): (r: seq<bool>)
    ensures |r| == |flags|
  {
    seq(|flags|, k requires 0 <= k < |flags| => flags[k] || k in bent)
  }

  /** The flags after the frame: exactly the keys a finger bends onto sound. */
  function Sounding(n: nat, bent: seq<nat>): (r: seq<bool>)
    ensures |r| == n
  {
    seq(n, k => k in bent)
  }

  /** The first loop's note-ons, in the order of `bent`: a finger whose key is not sounding yet,
      neither from before nor from an earlier finger, starts it. */
  function Presses(flags: seq<bool>, bent: seq<nat>): (ons: seq<NoteEvent>)
    requires InRange(bent, |flags|)
    ensures |ons| <= |bent|
    ensures StartsAmong(ons, bent)
  {
    if bent == [] then []
    else
      var m := |bent| - 1;
      Presses(flags, bent[..m]) + (if Marked(flags, bent[..m])[bent[m]] then [] else [NoteOn(bent[m])])
  }

  /** The second loop's note-offs over keys `0..m-1`, ascending: a key that sounds (as `flags`
      says) and that no finger bends onto stops. */
  function Releases(flags: seq<bool>, bent: seq<nat>, m: nat): (offs: seq<NoteEvent>)
    requires m <= |flags|
    ensures |offs| <= m
    ensures StopsBelow(offs, m)
  {
    if m == 0 then []
    else Releases(flags, bent, m - 1) + (if m - 1 !in bent && flags[m - 1] then [NoteOff(m - 1)] else [])
  }

  /** The events of one frame with bent-finger keys `bent`, starting from flags `flags`. */
  function FrameEvents(flags: seq<bool>, bent: seq<nat>): (events: seq<NoteEvent>)
    requires InRange(bent, |flags|)
    ensures |events| <= |bent| + |flags|
    ensures |Presses(flags, bent)| <= |events|
    ensures StartsAmong(events[..|Presses(flags, bent)|], bent)
    ensures StopsBelow(events[|Presses(flags, bent)|..], |flags|)
  {
    Presses(flags, bent) + Releases(Marked(flags, bent), bent, |flags|)
  }

  /** The first loop only starts notes: exactly those keys some finger bends onto that were
      silent, each at most once. */
  lemma {:induction false} PressesExact(flags: seq<bool>, bent: seq<nat>)
    requires InRange(bent, |flags|)
    ensures forall e :: e in Presses(flags, bent) ==> e.NoteOn?
    ensures forall k: nat :: NoteOn(k) in Presses(flags, bent) <==> k in bent && !flags[k]
    ensures forall x, y :: 0 <= x < y < |Presses(flags, bent)| ==> Presses(flags, bent)[x] != Presses(flags, bent)[y]
  {
    if bent != [] {
      var m := |bent| - 1;
      var prefix := bent[..m];
      assert InRange(prefix, |flags|);
      PressesExact(flags, prefix);
      assert bent == prefix + [bent[m]];
      forall k: nat
        ensures NoteOn(k) in Presses(flags, bent) <==> k in bent && !flags[k]
      {
        if k in bent && !flags[k] && k !in prefix {
          assert k == bent[m];
        }
      }
    }
  }

  /** Where key `k` first occurs in `s`. */
  function FirstIndex(s: seq<nat>, k: nat): (i: nat)
    requires k in s
    ensures i < |s| && s[i] == k && k !in s[..i]
  {
    if s[0] == k then 0
    else
      assert s == [s[0]] + s[1..];
      var i := 1 + FirstIndex(s[1..], k);
      assert s[..i] == [s[0]] + s[1..][..i - 1];
      i
  }

  /** A key occurring before position `m` first occurs there, in `s` as in its prefix. */
  lemma FirstIndexPrefix(s: seq<nat>, m: nat, k: nat)
    requires m <= |s| && k in s[..m]
    ensures FirstIndex(s, k) == FirstIndex(s[..m], k) < m
  {
    var i := FirstIndex(s[..m], k);
    var j := FirstIndex(s, k);
    assert s[..m][i] == s[i] && s[..m][..i] == s[..i];
    forall t | 0 <= t < j
      ensures s[t] in s[..j]
    {
      assert s[..j][t] == s[t];
    }
    forall t | 0 <= t < i
      ensures s[t] in s[..i]
    {
      assert s[..i][t] == s[t];
    }
  }

  /** The first loop starts notes in the order their keys first occur in `bent`. */
  lemma {:induction false} PressesInBentOrder(flags: seq<bool>, bent: seq<nat>)
    requires InRange(bent, |flags|)
    ensures forall x :: 0 <= x < |Presses(flags, bent)| ==> Presses(flags, bent)[x].key in bent
    ensures forall x, y :: 0 <= x < y < |Presses(flags, bent)| ==>
      Presses(flags, bent)[x].key in bent && Presses(flags, bent)[y].key in bent &&
      FirstIndex(bent, Presses(flags, bent)[x].key) < FirstIndex(bent, Presses(flags, bent)[y].key)
  {
    if bent != [] {
      var m := |bent| - 1;
      var prefix := bent[..m];
      assert InRange(prefix, |flags|);
      PressesInBentOrder(flags, prefix);
      var p := Presses(flags, prefix);
      var q := Presses(flags, bent);
      assert bent[..m] == prefix;
      forall x | 0 <= x < |p|
        ensures p[x].key in bent[..m] && FirstIndex(bent, p[x].key) == FirstIndex(prefix, p[x].key) < m
      {
        FirstIndexPrefix(bent, m, p[x].key);
      }
      if !Marked(flags, prefix)[bent[m]] {
        assert q == p + [NoteOn(bent[m])];
        assert bent[m] !in prefix;
        assert FirstIndex(bent, bent[m]) == m;
      } else {
        assert q == p;
      }
    }
  }

  /** The second loop only stops notes: exactly the keys that sound and that no finger bends
      onto, in strictly ascending key order. */
  lemma ReleasesExact(flags: seq<bool>, bent: seq<nat>, m: nat)
    requires m <= |flags|
    ensures forall e :: e in Releases(flags, bent, m) ==> e.NoteOff? && e.key < m
    ensures forall k: nat :: NoteOff(k) in Releases(flags, bent, m) <==> k < m && flags[k] && k !in bent
    ensures forall x, y :: 0 <= x < y < |Releases(flags, bent, m)| ==>
      Releases(flags, bent, m)[x].key < Releases(flags, bent, m)[y].key
  {
    var r := Releases(flags, bent, m);
    assert StopsBelow(r, m);
    forall e | e in r
      ensures e.NoteOff? && e.key < m
    {
      var j :| 0 <= j < |r| && r[j] == e;
    }
    forall k: nat
      ensures NoteOff(k) in r <==> k < m && flags[k] && k !in bent
    {
      ReleasesMembers(flags, bent, m, k);
    }
    ReleasesAscending(flags, bent, m);
  }

  /** Key `k` gets a note-off among the first `m` keys exactly when it sounds and no finger
      bends onto it. */
  lemma {:induction false} ReleasesMembers(flags: seq<bool>, bent: seq<nat>, m: nat, k: nat)
    requires m <= |flags|
    ensures NoteOff(k) in Releases(flags, bent, m) <==> k < m && flags[k] && k !in bent
  {
    if m > 0 {
      var prev := Releases(flags, bent, m - 1);
      var tail: seq<NoteEvent> := if m - 1 !in bent && flags[m - 1] then [NoteOff(m - 1)] else [];
      ReleasesMembers(flags, bent, m - 1, k);
      assert Releases(flags, bent, m) == prev + tail;
      assert NoteOff(k) in prev + tail <==> NoteOff(k) in prev || NoteOff(k) in tail;
    }
  }

  /** The note-offs come in strictly ascending key order. */
  lemma {:induction false} ReleasesAscending(flags: seq<bool>, bent: seq<nat>, m: nat)
    requires m <= |flags|
    ensures forall x, y :: 0 <= x < y < |Releases(flags, bent, m)| ==>
      Releases(flags, bent, m)[x].key < Releases(flags, bent, m)[y].key
  {
    if m > 0 {
      var prev := Releases(flags, bent, m - 1);
      var tail: seq<NoteEvent> := if m - 1 !in bent && flags[m - 1] then [NoteOff(m - 1)] else [];
      ReleasesAscending(flags, bent, m - 1);
      assert StopsBelow(prev, m - 1);
      assert Releases(flags, bent, m) == prev + tail;
      forall x, y | 0 <= x < y < |prev + tail|
        ensures (prev + tail)[x].key < (prev + tail)[y].key
      {
        assert (prev + tail)[x] == prev[x];
        if y < |prev| {
          assert (prev + tail)[y] == prev[y];
        } else {
          assert (prev + tail)[y] == tail[0];
        }
      }
    }
  }

  /** A frame's events: note-ons first, for exactly the newly bent keys; then note-offs, for
      exactly the keys that sounded and are no longer bent; no key gets two events. */
  lemma {:induction false} FrameEventsExact(flags: seq<bool>, bent: seq<nat>, k: nat)
    requires InRange(bent, |flags|)
    ensures NoteOn(k) in FrameEvents(flags, bent) <==> k in bent && !flags[k]
    ensures NoteOff(k) in FrameEvents(flags, bent) <==> k < |flags| && flags[k] && k !in bent
    ensures forall x, y :: 0 <= x < y < |FrameEvents(flags, bent)| && FrameEvents(flags, bent)[x].NoteOff? ==>
      FrameEvents(flags, bent)[y].NoteOff?
  {
    var p := Presses(flags, bent);
    var r := Releases(Marked(flags, bent), bent, |flags|);
    assert FrameEvents(flags, bent) == p + r;
    PressesExact(flags, bent);
    ReleasesExact(Marked(flags, bent), bent, |flags|);
    assert NoteOn(k) in p + r <==> NoteOn(k) in p;
    assert NoteOff(k) in p + r <==> NoteOff(k) in r;
    OnsBeforeOffs(p, r, bent, |flags|);
  }

  /** Note-ons followed by note-offs: once a note-off comes, only note-offs follow. */
  lemma OnsBeforeOffs(p: seq<NoteEvent>, r: seq<NoteEvent>, keys: seq<nat>, n: nat)
    requires StartsAmong(p, keys) && StopsBelow(r, n)
    ensures forall x, y :: 0 <= x < y < |p + r| && (p + r)[x].NoteOff? ==> (p + r)[y].NoteOff?
  {
    forall x, y | 0 <= x < y < |p + r|
      ensures (p + r)[x].NoteOff? ==> (p + r)[y].NoteOff?
    {
      if x < |p| {
        assert (p + r)[x] == p[x];
      } else {
        assert (p + r)[y] == r[y - |p|];
      }
    }
  }

  /** Replaying the first loop's note-ons on the old flags yields the flags after that loop. */
  lemma {:induction false} ApplyPresses(flags: seq<bool>, bent: seq<nat>)
    requires InRange(bent, |flags|)
    ensures Apply(flags, Presses(flags, bent)) == Marked(flags, bent)
  {
    if bent != [] {
      var m := |bent| - 1;
      var prefix := bent[..m];
      assert InRange(prefix, |flags|);
      ApplyPresses(flags, prefix);
      var tail := if Marked(flags, prefix)[bent[m]] then [] else [NoteOn(bent[m])];
      ApplyConcatOne(flags, Presses(flags, prefix), tail);
      MarkedStep(flags, bent);
    }
  }

  /** Bending one more finger marks its key. */
  lemma MarkedStep(flags: seq<bool>, bent: seq<nat>)
    requires bent != [] && InRange(bent, |flags|)
    ensures Marked(flags, bent) == Marked(flags, bent[..|bent| - 1])[bent[|bent| - 1] := true]
  {
    var m := |bent| - 1;
    assert bent == bent[..m] + [bent[m]];
  }

  /** Replaying the note-offs for keys `0..m-1` on the flags after the first loop clears the
      flags of those keys that no finger bends onto. */
  lemma {:induction false} ApplyReleases(flags: seq<bool>, bent: seq<nat>, m: nat)
    requires InRange(bent, |flags|) && m <= |flags|
    ensures Apply(Marked(flags, bent), Releases(Marked(flags, bent), bent, m)) ==
      Sounding(|flags|, bent)[..m] + Marked(flags, bent)[m..]
  {
    var g := Marked(flags, bent);
    if m == 0 {
      assert Sounding(|flags|, bent)[..0] + g[0..] == g;
    } else {
      ApplyReleases(flags, bent, m - 1);
      var tail := if m - 1 !in bent && g[m - 1] then [NoteOff(m - 1)] else [];
      ApplyConcatOne(g, Releases(g, bent, m - 1), tail);
      ReleaseStep(Sounding(|flags|, bent), g, bent, m);
    }
  }

  /** Settling key `m - 1`: it keeps its marked flag when a finger bends onto it or it is
      silent, and is cleared otherwise; either way it then agrees with `sounding`. */
  lemma ReleaseStep(sounding: seq<bool>, g: seq<bool>, bent: seq<nat>, m: nat)
    requires |sounding| == |g| && 0 < m <= |g|
    requires forall k :: 0 <= k < |g| ==> (sounding[k] <==> k in bent) && (k in bent ==> g[k])
    ensures m - 1 !in bent && g[m - 1] ==> (sounding[..m - 1] + g[m - 1..])[m - 1 := false] == sounding[..m] + g[m..]
    ensures !(m - 1 !in bent && g[m - 1]) ==> sounding[..m - 1] + g[m - 1..] == sounding[..m] + g[m..]
  {
    var before := sounding[..m - 1] + g[m - 1..];
    var after := sounding[..m] + g[m..];
    if m - 1 !in bent && g[m - 1] {
      assert forall k :: 0 <= k < |g| ==> before[m - 1 := false][k] == after[k];
    } else {
      assert forall k :: 0 <= k < |g| ==> before[k] == after[k];
    }
  }

  /** A note sink that tracks sounding keys from the events alone ends each frame believing
      exactly what the piano's flags say: the keys some finger bends onto. */
  lemma {:induction false} FrameReplay(flags: seq<bool>, bent: seq<nat>)
    requires InRange(bent, |flags|)
    ensures Apply(flags, FrameEvents(flags, bent)) == Sounding(|flags|, bent)
  {
    var ons, offs := Presses(flags, bent), Releases(Marked(flags, bent), bent, |flags|);
    assert FrameEvents(flags, bent) == ons + offs;
    ApplyPresses(flags, bent);
    ApplyReleases(flags, bent, |flags|);
    ApplyAppend(flags, ons, offs);
    assert Sounding(|flags|, bent)[..|flags|] + Marked(flags, bent)[|flags|..] == Sounding(|flags|, bent);
  }

  /** Replaying two batches of events is replaying the first, then the second. */
  lemma {:induction false} ApplyAppend(flags: seq<bool>, first: seq<NoteEvent>, second: seq<NoteEvent>)
    ensures Apply(flags, first + second) == Apply(Apply(flags, first), second)
  {
    if second == [] {
      assert first + second == first;
    } else {
      var m := |second| - 1;
      ApplyAppend(flags, first, second[..m]);
      assert (first + second)[..|first + second| - 1] == first + second[..m];
    }
  }

  /** The landmark strategy's piano: one sounding flag per key. */
  class Keyboard {
    /** `is_playing`. */
    const isPlaying: array<bool>

    /** `is_playing = [False] * NUM_KEYS`. */
    constructor (n: nat)
      ensures isPlaying.Length == n && fresh(isPlaying)
      ensures forall k :: 0 <= k < n ==> !isPlaying[k]
    {
      isPlaying := new bool[n](k => false);
    }

    /** The two key loops for the frame's bent-finger keys `bent`. Indexing `is_playing` with a
        key the keyboard lacks raises in the source, hence the precondition. */
    method Update(bent: seq<nat>) returns (events: seq<NoteEvent>, activeKeys: seq<nat>)
      requires InRange(bent, isPlaying.Length)
      modifies isPlaying
      ensures activeKeys == bent
      ensures isPlaying[..] == Sounding(isPlaying.Length, bent)
      ensures events == FrameEvents(old(isPlaying[..]), bent)
    {
      var presses;
      presses, activeKeys := PressBent(bent);
      var releases := ReleaseUnbent(activeKeys);
      events := presses + releases;
    }

    /** The first loop: every bent finger's key sounds, silent ones with a note-on. */
    method PressBent(bent: seq<nat>) returns (events: seq<NoteEvent>, activeKeys: seq<nat>)
      requires InRange(bent, isPlaying.Length)
      modifies isPlaying
      ensures activeKeys == bent
      ensures isPlaying[..] == Marked(old(isPlaying[..]), bent)
      ensures events == Presses(old(isPlaying[..]), bent)
    {
      ghost var was := isPlaying[..];
      events := [];
      activeKeys := [];
      for j := 0 to |bent|
        invariant InRange(bent[..j], isPlaying.Length)
        invariant isPlaying[..] == Marked(was, bent[..j])
        invariant events == Presses(was, bent[..j])
        invariant activeKeys == bent[..j]
      {
        var finger := bent[j];
        assert bent[..j + 1][..j] == bent[..j] && bent[..j + 1][j] == finger;
        MarkedStep(was, bent[..j + 1]);
        if !isPlaying[finger] {
          events := events + [NoteOn(finger)];
          isPlaying[finger] := true;
        }
        activeKeys := activeKeys + [finger];
      }
      assert bent[..|bent|] == bent;
    }

    /** The second loop: every sounding key no finger bends onto stops, with a note-off. The
        first loop has left every bent finger's key sounding. */
    method ReleaseUnbent(activeKeys: seq<nat>) returns (events: seq<NoteEvent>)
      requires forall k :: 0 <= k < isPlaying.Length && k in activeKeys ==> isPlaying[k]
      modifies isPlaying
      ensures isPlaying[..] == Sounding(isPlaying.Length, activeKeys)
      ensures events == Releases(old(isPlaying[..]), activeKeys, isPlaying.Length)
    {
      ghost var mid := isPlaying[..];
      events := [];
      for i := 0 to isPlaying.Length
        invariant forall k :: 0 <= k < i ==> isPlaying[k] == (k in activeKeys)
        invariant forall k :: i <= k < isPlaying.Length ==> isPlaying[k] == mid[k]
        invariant events == Releases(mid, activeKeys, i)
      {
        if i !in activeKeys && isPlaying[i] {
          events := events + [NoteOff(i)];
          isPlaying[i] := false;
        }
      }
      assert isPlaying[..] == Sounding(isPlaying.Length, activeKeys);
    }

    /** One frame: gather the bent-finger keys of the detected hands, then update the keys. */
    method Step(hands: seq<DetectedHand>) returns (events: seq<NoteEvent>, activeKeys: seq<nat>)
      requires InRange(AllBentFingers(hands), isPlaying.Length)
      modifies isPlaying
      ensures activeKeys == AllBentFingers(hands)
      ensures isPlaying[..] == Sounding(isPlaying.Length, activeKeys)
      ensures events == FrameEvents(old(isPlaying[..]), activeKeys)
    {
      var bent := CollectBentFingers(hands);
      events, activeKeys := Update(bent);
    }
  }
}
