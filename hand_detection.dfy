/** The landmark strategy's finger classifier: which fingers of one detected hand are bent,
    and which key each bent finger plays. */
module HandDetection {

  /** One landmark's normalised image coordinates; `x` grows to the right and `y` downwards. */
  datatype Landmark = Landmark(x: real, y: real)

  /** MediaPipe's hand landmark indices (the `HandLandmark` enumeration). */
  const THUMB_CMC: nat := 1
  const THUMB_MCP: nat := 2
  const THUMB_IP: nat := 3
  const THUMB_TIP: nat := 4
  const INDEX_FINGER_MCP: nat := 5
  const INDEX_FINGER_PIP: nat := 6
  const INDEX_FINGER_TIP: nat := 8
  const MIDDLE_FINGER_MCP: nat := 9
  const MIDDLE_FINGER_PIP: nat := 10
  const MIDDLE_FINGER_TIP: nat := 12
  const RING_FINGER_MCP: nat := 13
  const RING_FINGER_PIP: nat := 14
  const RING_FINGER_TIP: nat := 16
  const PINKY_MCP: nat := 17
  const PINKY_PIP: nat := 18
  const PINKY_TIP: nat := 20

  /** The 21 landmarks MediaPipe reports for one hand. */
  type Landmarks = s: seq<Landmark> | |s| == 21 witness seq(21, _ => Landmark(0.0, 0.0))

  datatype Finger = Thumb | IndexFinger | MiddleFinger | RingFinger | Pinky

  /** The base, middle and tip joints handed to `is_finger_bent` for finger `f`: for the thumb
      these are `THUMB_CMC`, `THUMB_IP` and `THUMB_TIP`; `THUMB_MCP` is never consulted. */
  function Joints(f: Finger): (j: (nat, nat, nat))
    ensures j.0 < 21 && j.1 < 21 && j.2 < 21
    ensures THUMB_MCP != j.0 && THUMB_MCP != j.1 && THUMB_MCP != j.2
  {
    match f
    case Thumb => (THUMB_CMC, THUMB_IP, THUMB_TIP)
    case IndexFinger => (INDEX_FINGER_MCP, INDEX_FINGER_PIP, INDEX_FINGER_TIP)
    case MiddleFinger => (MIDDLE_FINGER_MCP, MIDDLE_FINGER_PIP, MIDDLE_FINGER_TIP)
    case RingFinger => (RING_FINGER_MCP, RING_FINGER_PIP, RING_FINGER_TIP)
    case Pinky => (PINKY_MCP, PINKY_PIP, PINKY_TIP)
  }

  /** Does `tip` lie strictly on the other side of `base` from `middle`? */
  predicate OppositeSides(tip: real, base: real, middle: real)
  {
    (tip < base < middle) || (middle < base < tip)
  }

  /** `is_finger_bent`. A finger other than the thumb is bent when its tip is strictly below
      its middle joint; its base joint plays no part. The thumb is bent when its tip lies
      strictly on the far side of the base joint from the middle joint, horizontally; when base
      and middle joint are level the thumb counts as bent only with its tip to the right. A tip
      level with the joint it is tested against never counts as bent. */
  function IsFingerBent(hand: Landmarks, mcp: nat, pip: nat, tip: nat, isThumb: bool): (bent: bool)
    requires mcp < 21 && pip < 21 && tip < 21
    ensures !isThumb ==> (bent <==> hand[tip].y > hand[pip].y)
    ensures isThumb && hand[mcp].x != hand[pip].x ==>
      (bent <==> OppositeSides(hand[tip].x, hand[mcp].x, hand[pip].x))
    ensures isThumb && hand[mcp].x == hand[pip].x ==> (bent <==> hand[tip].x > hand[mcp].x)
    ensures isThumb && hand[tip].x == hand[mcp].x ==> !bent
  {
    var p := hand[pip];
    var t := hand[tip];
    if isThumb then
      var m := hand[mcp];
      if m.x < p.x then t.x < m.x else t.x > m.x
    else
      t.y > p.y
  }

  /** Is finger `f` of the hand bent? */
  predicate Bent(hand: Landmarks, f: Finger)
  {
    var (mcp, pip, tip) := Joints(f);
    IsFingerBent(hand, mcp, pip, tip, f == Thumb)
  }

  /** The key a bent finger plays: a hand labelled "Left" plays keys 4 (thumb) down to
      0 (pinky), any other hand keys 5 (thumb) up to 9 (pinky). */
  function KeyOf(side: string, f: Finger): (k: nat)
    ensures side == "Left" ==> k < 5
    ensures side != "Left" ==> 5 <= k < 10
  {
    var left := side == "Left";
    match f
    case Thumb => if left then 4 else 5
    case IndexFinger => if left then 3 else 6
    case MiddleFinger => if left then 2 else 7
    case RingFinger => if left then 1 else 8
    case Pinky => if left then 0 else 9
  }

  /** The two hands' layouts mirror each other about the middle of the keyboard. */
  lemma KeyMirror(side: string, f: Finger)
    requires side != "Left"
    ensures KeyOf("Left", f) + KeyOf(side, f) == 9
  {
  }

  /** Within one hand, different fingers play different keys. */
  lemma KeyInjective(side: string, f: Finger, g: Finger)
    requires KeyOf(side, f) == KeyOf(side, g)
    ensures f == g
  {
  }

  /** The fingers in the order `get_bent_fingers` examines them. */
  function FingerAt(r: nat): (f: Finger)
    requires r < 5
    ensures Rank(f) == r
  {
    if r == 0 then Thumb else if r == 1 then IndexFinger else if r == 2 then MiddleFinger
    else if r == 3 then RingFinger else Pinky
  }

  /** A finger's position in that order. */
  function Rank(f: Finger): (r: nat)
    ensures r < 5 && KeyOf("Left", f) == 4 - r
  {
    match f
    case Thumb => 0
    case IndexFinger => 1
    case MiddleFinger => 2
    case RingFinger => 3
    case Pinky => 4
  }

  /** The key a finger plays, by its position in thumb-to-pinky order. */
  lemma KeyRank(side: string, f: Finger)
    ensures KeyOf(side, f) == if side == "Left" then 4 - Rank(f) else 5 + Rank(f)
  {
  }

  /** Which fingers are bent, thumb first. */
  function BentFlags(hand: Landmarks): (flags: seq<bool>)
    ensures |flags| == 5
    ensures forall f :: flags[Rank(f)] == Bent(hand, f)
  {
    [Bent(hand, Thumb), Bent(hand, IndexFinger), Bent(hand, MiddleFinger), Bent(hand, RingFinger), Bent(hand, Pinky)]
  }

  /** The keys of the bent fingers among the first `r` in thumb-to-pinky order, in that order:
      on a left hand they lie in `5-r..4` and fall strictly, on any other in `5..4+r` and rise
      strictly. */
  function KeysAmong(flags: seq<bool>, side: string, r: nat): (keys: seq<nat>)
    requires r <= |flags| == 5
    ensures |keys| <= r
    ensures side == "Left" ==>
      (forall j :: 0 <= j < |keys| ==> 5 <= keys[j] + r && keys[j] < 5) &&
      (forall j, l :: 0 <= j < l < |keys| ==> keys[j] > keys[l])
    ensures side != "Left" ==>
      (forall j :: 0 <= j < |keys| ==> 5 <= keys[j] < 5 + r) &&
      (forall j, l :: 0 <= j < l < |keys| ==> keys[j] < keys[l])
    decreases r
  {
    if r == 0 then []
    else
      var prev := KeysAmong(flags, side, r - 1);
      var f := FingerAt(r - 1);
      KeyRank(side, f);
      if flags[r - 1] then
        var k := KeyOf(side, f);
        assert k == if side == "Left" then 5 - r else 4 + r;
        var keys := prev + [k];
        assert forall j :: 0 <= j < |prev| ==> keys[j] == prev[j];
        keys
      else prev
  }

  /** `get_bent_fingers`: the keys of the bent fingers, appended in the order thumb, index,
      middle, ring, pinky. A left hand's keys lie in 0..4 and fall strictly, any other hand's
      lie in 5..9 and rise strictly: in particular no key appears twice. */
  function GetBentFingers(hand: Landmarks, side: string): (keys: seq<nat>)
    ensures |keys| <= 5
    ensures side == "Left" ==>
      (forall j :: 0 <= j < |keys| ==> keys[j] < 5) &&
      (forall j, l :: 0 <= j < l < |keys| ==> keys[j] > keys[l])
    ensures side != "Left" ==>
      (forall j :: 0 <= j < |keys| ==> 5 <= keys[j] < 10) &&
      (forall j, l :: 0 <= j < l < |keys| ==> keys[j] < keys[l])
  {
    var flags := BentFlags(hand);
    KeysAmong(flags, side, |flags|)
  }

  /** Among the first `r` fingers, a finger's key is listed exactly when its flag is set. */
  lemma {:induction false} KeysAmongMembers(flags: seq<bool>, side: string, r: nat, g: Finger)
    requires r <= |flags| == 5
    ensures KeyOf(side, g) in KeysAmong(flags, side, r) <==> Rank(g) < r && flags[Rank(g)]
  {
    if r > 0 {
      KeysAmongMembers(flags, side, r - 1, g);
      var f := FingerAt(r - 1);
      if KeyOf(side, f) == KeyOf(side, g) {
        KeyInjective(side, f, g);
      }
    }
  }

  /** A finger's key is among the bent-finger keys exactly when the finger is bent. */
  lemma BentFingersMembers(hand: Landmarks, side: string, g: Finger)
    ensures KeyOf(side, g) in GetBentFingers(hand, side) <==> Bent(hand, g)
  {
    KeysAmongMembers(BentFlags(hand), side, |BentFlags(hand)|, g);
  }

  /** The keyboard ends: a pinky bent alone plays key 0 on a left hand and key 9 on a right one. */
  lemma PinkyAlone(hand: Landmarks)
    requires forall f :: Bent(hand, f) <==> f == Pinky
    ensures GetBentFingers(hand, "Left") == [0]
    ensures GetBentFingers(hand, "Right") == [9]
  {
    assert BentFlags(hand) == [false, false, false, false, true] by {
      assert forall f :: BentFlags(hand)[Rank(f)] == (f == Pinky);
    }
    PinkyOnly("Left");
    PinkyOnly("Right");
  }

  /** With only the last flag set, the pinky's key is the one key listed. */
  lemma PinkyOnly(side: string)
    ensures KeysAmong([false, false, false, false, true], side, 5) == [KeyOf(side, Pinky)]
  {
    var flags := [false, false, false, false, true];
    assert KeysAmong(flags, side, 1) == [];
    assert KeysAmong(flags, side, 2) == [];
    assert KeysAmong(flags, side, 3) == [];
    assert KeysAmong(flags, side, 4) == [];
    assert FingerAt(4) == Pinky;
  }

  /** The hand seen in a horizontally flipped image (`cv.flip(frame, 1)`). */
  function Mirror(hand: Landmarks): (m: Landmarks)
  {
    seq(21, i requires 0 <= i < 21 => Landmark(1.0 - hand[i].x, hand[i].y))
  }

  /** Flipping the image does not change which fingers are bent, except for a thumb whose base
      and middle joint are exactly level, where the rule's tie-break favours one side. */
  lemma MirrorKeepsBent(hand: Landmarks, f: Finger)
    requires f == Thumb ==> hand[THUMB_CMC].x != hand[THUMB_IP].x
    ensures Bent(Mirror(hand), f) == Bent(hand, f)
  {
  }

  /** The tie-break: with base and middle joint level and the tip off to one side, flipping the
      image flips the thumb's classification. */
  lemma MirrorTieBreak(hand: Landmarks)
    requires hand[THUMB_CMC].x == hand[THUMB_IP].x && hand[THUMB_TIP].x != hand[THUMB_CMC].x
    ensures Bent(Mirror(hand), Thumb) != Bent(hand, Thumb)
  {
  }
}
