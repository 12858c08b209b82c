/** The per-key state machine of the motion strategy: one "sounding" flag per key, and one
    note event per flag that flips, in ascending key order. */
module KeyStates {
  import opened Common

  /** The event for key `k` whose flag goes from `was` to `now`. */
  function Edge(k: nat, was: bool, now: bool): seq<NoteEvent>
  {
    if now && !was then [NoteOn(k)] else if !now && was then [NoteOff(k)] else []
  }

  /** Every event is for a key below `n`. */
  predicate KeysBelow(events: seq<NoteEvent>, n: nat)
  {
    forall j :: 0 <= j < |events| ==> events[j].key < n
  }

  /** The events of one frame: for keys `0, 1, ...` in turn, a note-on when the key becomes
      active and a note-off when it stops being active. */
  function Transitions(was: seq<bool>, now: seq<bool>): (events: seq<NoteEvent>)
    requires |was| == |now|
    ensures |events| <= |was|
    ensures KeysBelow(events, |was|)
  {
    if |was| == 0 then []
    else
      var k := |was| - 1;
      Transitions(was[..k], now[..k]) + Edge(k, was[k], now[k])
  }

  /** A key gets a note-on exactly when it becomes active, and a note-off exactly when it stops
      being active. */
  lemma {:induction false} TransitionsExact(was: seq<bool>, now: seq<bool>, k: nat)
    requires |was| == |now|
    ensures NoteOn(k) in Transitions(was, now) <==> k < |was| && now[k] && !was[k]
    ensures NoteOff(k) in Transitions(was, now) <==> k < |was| && !now[k] && was[k]
  {
    if |was| > 0 {
      var m := |was| - 1;
      TransitionsExact(was[..m], now[..m], k);
    }
  }

  /** Keys strictly ascending, each below `bound`. */
  ghost predicate Ascending(events: seq<NoteEvent>, bound: nat)
  {
    (forall j :: 0 <= j < |events| ==> events[j].key < bound) &&
    (forall j, l :: 0 <= j < l < |events| ==> events[j].key < events[l].key)
  }

  /** Events come in strictly ascending key order, so each key has at most one event, and
      every event names a key of the keyboard. */
  lemma {:induction false} TransitionsAscending(was: seq<bool>, now: seq<bool>)
    requires |was| == |now|
    ensures Ascending(Transitions(was, now), |was|)
  {
    if |was| > 0 {
      var m := |was| - 1;
      TransitionsAscending(was[..m], now[..m]);
      var prefix := Transitions(was[..m], now[..m]);
      var e := Transitions(was, now);
      assert e == prefix + Edge(m, was[m], now[m]);
      assert Ascending(prefix, m);
      forall j | 0 <= j < |prefix|
        ensures e[j] == prefix[j] && e[j].key < m
      {
      }
    }
  }

  /** A frame whose active keys are those already sounding emits nothing. */
  lemma {:induction false} TransitionsQuiet(flags: seq<bool>)
    ensures Transitions(flags, flags) == []
  {
    if |flags| > 0 {
      var m := |flags| - 1;
      TransitionsQuiet(flags[..m]);
    }
  }

  /** The flags after one event: a note-on sets the key's flag, a note-off clears it. */
  function Applied(flags: seq<bool>, e: NoteEvent): (r: seq<bool>)
    ensures |r| == |flags|
  {
    if e.key < |flags| then flags[e.key := e.NoteOn?] else flags
  }

  /** What a note sink that tracks sounding keys from the events alone believes. */
  function Apply(flags: seq<bool>, events: seq<NoteEvent>): (r: seq<bool>)
    ensures |r| == |flags|
  {
    if events == [] then flags
    else Applied(Apply(flags, events[..|events| - 1]), events[|events| - 1])
  }

  /** Replaying one frame's events on the old flags yields exactly the new flags: the events
      carry every change of state and no other. */
  lemma ApplyTransitions(was: seq<bool>, now: seq<bool>)
    requires |was| == |now|
    ensures Apply(was, Transitions(was, now)) == now
  {
    ApplyTransitionsPrefix(was, now, |was|);
    assert was[..|was|] == was && now[..|now|] == now;
    assert now[..|was|] + was[|was|..] == now;
  }

  lemma {:induction false} ApplyTransitionsPrefix(was: seq<bool>, now: seq<bool>, m: nat)
    requires |was| == |now| && m <= |was|
    ensures Apply(was, Transitions(was[..m], now[..m])) == now[..m] + was[m..]
  {
    if m == 0 {
      assert was[..0] == [] && now[..0] == [];
      assert now[..0] + was[0..] == was;
    } else {
      var k := m - 1;
      ApplyTransitionsPrefix(was, now, k);
      var head := Transitions(was[..k], now[..k]);
      var edge := Edge(k, was[k], now[k]);
      TransitionsStep(was, now, m);
      ApplyConcatOne(was, head, edge);
      MergeStep(was, now, k);
    }
  }

  /** Taking key `k`'s new flag into the merge of new and old flags. */
  lemma MergeStep(was: seq<bool>, now: seq<bool>, k: nat)
    requires |was| == |now| && k < |was|
    ensures (now[..k] + was[k..])[k := now[k]] == now[..k + 1] + was[k + 1..]
    ensures now[k] == was[k] ==> now[..k] + was[k..] == now[..k + 1] + was[k + 1..]
  {
    var prior := now[..k] + was[k..];
    var goal := now[..k + 1] + was[k + 1..];
    assert |prior| == |goal|;
    forall j | 0 <= j < |goal|
      ensures prior[k := now[k]][j] == goal[j]
    {
    }
    if now[k] == was[k] {
      forall j | 0 <= j < |goal|
        ensures prior[j] == goal[j]
      {
      }
    }
  }

  /** The events of the first `m` keys extend those of the first `m - 1` keys by key `m - 1`'s. */
  lemma TransitionsStep(was: seq<bool>, now: seq<bool>, m: nat)
    requires |was| == |now| && 0 < m <= |was|
    ensures Transitions(was[..m], now[..m]) ==
      Transitions(was[..m - 1], now[..m - 1]) + Edge(m - 1, was[m - 1], now[m - 1])
  {
    assert was[..m][..m - 1] == was[..m - 1] && now[..m][..m - 1] == now[..m - 1];
  }

  /** Events gathered for the first `i` keys, extended by key `i`'s edge, are those of the
      first `i + 1` keys. */
  lemma TransitionsNext(was: seq<bool>, now: seq<bool>, i: nat, events: seq<NoteEvent>, e: seq<NoteEvent>)
    requires |was| == |now| && i < |was|
    requires events == Transitions(was[..i], now[..i]) && e == Edge(i, was[i], now[i])
    ensures events + e == Transitions(was[..i + 1], now[..i + 1])
  {
    TransitionsStep(was, now, i + 1);
  }

  /** Appending at most one event applies it to the result so far. */
  lemma ApplyConcatOne(flags: seq<bool>, events: seq<NoteEvent>, tail: seq<NoteEvent>)
    requires |tail| <= 1
    ensures tail == [] ==> Apply(flags, events + tail) == Apply(flags, events)
    ensures tail != [] ==> Apply(flags, events + tail) == Applied(Apply(flags, events), tail[0])
  {
    if tail == [] {
      assert events + tail == events;
    } else {
      assert (events + tail)[..|events + tail| - 1] == events;
    }
  }
}
