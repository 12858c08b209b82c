/** The label raster ("keys mask") of the motion strategy: a raster as large as the bounding
    box of the key rectangles, in which key `i`'s rectangle is painted with the value `i + 1`. */
module LabelRaster {
  import opened DivArith
  import opened Partition

  /** The smallest element, as Python's `min` over a non-empty sequence. */
  function MinOf(xs: seq<int>): (m: int)
    requires |xs| > 0
    ensures (exists i :: 0 <= i < |xs| && xs[i] == m) && forall i :: 0 <= i < |xs| ==> m <= xs[i]
  {
    if |xs| == 1 then xs[0]
    else
      var rest := MinOf(xs[1..]);
      assert xs == [xs[0]] + xs[1..];
      if xs[0] <= rest then xs[0] else rest
  }

  /** The largest element, as Python's `max` over a non-empty sequence. */
  function MaxOf(xs: seq<int>): (m: int)
    requires |xs| > 0
    ensures (exists i :: 0 <= i < |xs| && xs[i] == m) && forall i :: 0 <= i < |xs| ==> xs[i] <= m
  {
    if |xs| == 1 then xs[0]
    else
      var rest := MaxOf(xs[1..]);
      assert xs == [xs[0]] + xs[1..];
      if rest <= xs[0] then xs[0] else rest
  }

  /** The box spanned by the rectangles: smallest top-left corner, largest bottom-right one. */
  function BoundingBox(rects: seq<Rect>): (box: Rect)
    requires |rects| > 0
    ensures forall i :: 0 <= i < |rects| ==>
      box.x0 <= rects[i].x0 && box.y0 <= rects[i].y0 && rects[i].x1 <= box.x1 && rects[i].y1 <= box.y1
    ensures exists i :: 0 <= i < |rects| && rects[i].x0 == box.x0
    ensures exists i :: 0 <= i < |rects| && rects[i].y0 == box.y0
    ensures exists i :: 0 <= i < |rects| && rects[i].x1 == box.x1
    ensures exists i :: 0 <= i < |rects| && rects[i].y1 == box.y1
  {
    var lefts := seq(|rects|, i requires 0 <= i < |rects| => rects[i].x0);
    var tops := seq(|rects|, i requires 0 <= i < |rects| => rects[i].y0);
    var rights := seq(|rects|, i requires 0 <= i < |rects| => rects[i].x1);
    var bottoms := seq(|rects|, i requires 0 <= i < |rects| => rects[i].y1);
    assert forall i :: 0 <= i < |rects| ==>
      lefts[i] == rects[i].x0 && tops[i] == rects[i].y0 && rights[i] == rects[i].x1 && bottoms[i] == rects[i].y1;
    Rect(MinOf(lefts), MinOf(tops), MaxOf(rights), MaxOf(bottoms))
  }

  /** The key rectangles span columns `0 .. width - 1` and rows `0 .. rowHeight`, so the raster
      built from their bounding box is `width - 1` columns wide and `rowHeight` rows tall and
      needs no offset. */
  lemma PartitionBoundingBox(width: nat, rowHeight: int, n: nat, rects: seq<Rect>)
    requires 0 < n && |rects| == n
    requires forall i :: 0 <= i < n ==> rects[i] == StripRect(width, rowHeight, n, i)
    ensures BoundingBox(rects) == Rect(0, 0, width - 1, rowHeight)
  {
    var x0s := seq(n, i requires 0 <= i < n => rects[i].x0);
    var y0s := seq(n, i requires 0 <= i < n => rects[i].y0);
    var x1s := seq(n, i requires 0 <= i < n => rects[i].x1);
    var y1s := seq(n, i requires 0 <= i < n => rects[i].y1);
    StripsTile(width, n);
    forall i | 0 <= i < n
      ensures 0 <= x0s[i] && x1s[i] <= width - 1
    {
      StripBounds(width, n, i);
    }
    assert x0s[0] == 0 && x1s[n - 1] == width - 1 && y0s[0] == 0 && y1s[0] == rowHeight;
    Extremes(x0s, 0, true);
    Extremes(x1s, width - 1, false);
    Extremes(y0s, 0, true);
    Extremes(y1s, rowHeight, false);
  }

  /** An element bounding all others from below (or above) is the minimum (or maximum). */
  lemma Extremes(xs: seq<int>, e: int, lower: bool)
    requires e in xs
    requires lower ==> forall i :: 0 <= i < |xs| ==> e <= xs[i]
    requires !lower ==> forall i :: 0 <= i < |xs| ==> xs[i] <= e
    ensures lower ==> MinOf(xs) == e
    ensures !lower ==> MaxOf(xs) == e
  {
  }

  /** Is `v` between `a` and `b`, in whichever order they come? OpenCV sorts a rectangle's
      corners before it fills it. */
  predicate InSpan(v: int, a: int, b: int)
  {
    if a <= b then a <= v <= b else b <= v <= a
  }

  /** Does the filled rectangle `r`, shifted by `(-ox, -oy)`, cover raster pixel `(x, y)`? */
  predicate Covers(r: Rect, ox: int, oy: int, x: int, y: int)
  {
    InSpan(x, r.x0 - ox, r.x1 - ox) && InSpan(y, r.y0 - oy, r.y1 - oy)
  }

  /** The value of raster pixel `(x, y)` once the first `k` rectangles are painted, rectangle
      `j` with value `j + 1`, on a raster of zeros: the last rectangle that covers the pixel wins. */
  function PaintedLabel(rects: seq<Rect>, k: nat, ox: int, oy: int, x: int, y: int): (v: nat)
    requires k <= |rects|
    ensures v <= k
    ensures v == 0 ==> forall j :: 0 <= j < k ==> !Covers(rects[j], ox, oy, x, y)
    ensures v > 0 ==> Covers(rects[v - 1], ox, oy, x, y)
    ensures v > 0 ==> forall j :: v <= j < k ==> !Covers(rects[j], ox, oy, x, y)
  {
    if k == 0 then 0
    else if Covers(rects[k - 1], ox, oy, x, y) then k
    else PaintedLabel(rects, k - 1, ox, oy, x, y)
  }

  /** `cv.rectangle(raster, (xa, ya), (xb, yb), value, cv.FILLED)`: paints the rectangle with the
      given corners, in either order, clipped to the raster; every other pixel keeps its value. */
  method PaintRect(raster: array2<int>, xa: int, ya: int, xb: int, yb: int, value: int)
    modifies raster
    ensures forall y, x :: 0 <= y < raster.Length0 && 0 <= x < raster.Length1 ==>
      raster[y, x] == if InSpan(x, xa, xb) && InSpan(y, ya, yb) then value else old(raster[y, x])
  {
    forall y, x | 0 <= y < raster.Length0 && 0 <= x < raster.Length1 && InSpan(x, xa, xb) && InSpan(y, ya, yb) {
      raster[y, x] := value;
    }
  }

  /** Paints every key rectangle, shifted by the bounding box origin `(ox, oy)`, into a raster
      of zeros, key `i` with value `i + 1`, in key order. */
  method FillLabels(raster: array2<int>, rects: seq<Rect>, ox: int, oy: int)
    requires forall y, x :: 0 <= y < raster.Length0 && 0 <= x < raster.Length1 ==> raster[y, x] == 0
    modifies raster
    ensures forall y, x :: 0 <= y < raster.Length0 && 0 <= x < raster.Length1 ==>
      raster[y, x] == PaintedLabel(rects, |rects|, ox, oy, x, y)
  {
    var i := 0;
    while i < |rects|
      invariant 0 <= i <= |rects|
      invariant forall y, x :: 0 <= y < raster.Length0 && 0 <= x < raster.Length1 ==>
        raster[y, x] == PaintedLabel(rects, i, ox, oy, x, y)
    {
      var r := rects[i];
      PaintRect(raster, r.x0 - ox, r.y0 - oy, r.x1 - ox, r.y1 - oy, i + 1);
      i := i + 1;
    }
  }

  /** The label of a column of the key row: the number of the strip that holds the column. This
      needs every strip to be at least one column wide (`n <= width`); a narrower strip has its
      corners swapped by OpenCV and paints over a neighbour's column. */
  lemma LabelOfColumn(width: nat, rowHeight: int, n: nat, rects: seq<Rect>, x: int, y: int)
    requires 0 < n <= width && |rects| == n
    requires forall i :: 0 <= i < n ==> rects[i] == StripRect(width, rowHeight, n, i)
    requires 0 <= x < width && 0 <= y <= rowHeight
    ensures forall i :: 0 <= i < n ==>
      (PaintedLabel(rects, n, 0, 0, x, y) == i + 1 <==> StripStart(width, n, i) <= x <= StripEnd(width, n, i))
  {
    var s := StripOf(width, n, x);
    assert Covers(rects[s], 0, 0, x, y);
    var v := PaintedLabel(rects, n, 0, 0, x, y);
    assert v > 0;
    DivMulCancel(1, n);
    DivMonotone(n, width, n);
    StripWidth(width, n, v - 1);
    StripUnique(width, n, x, v - 1, s);
    forall i | 0 <= i < n && StripStart(width, n, i) <= x <= StripEnd(width, n, i)
      ensures v == i + 1
    {
      StripUnique(width, n, x, i, s);
    }
  }

  /** Every pixel of the raster holds a label `1 .. n`, for any width: the strips cover every
      column, so some rectangle paints every pixel. */
  lemma LabelInRange(width: nat, rowHeight: int, n: nat, rects: seq<Rect>, x: int, y: int)
    requires 0 < n && |rects| == n
    requires forall i :: 0 <= i < n ==> rects[i] == StripRect(width, rowHeight, n, i)
    requires 0 <= x < width && 0 <= y <= rowHeight
    ensures 1 <= PaintedLabel(rects, n, 0, 0, x, y) <= n
  {
    var s := StripOf(width, n, x);
    assert Covers(rects[s], 0, 0, x, y);
  }
}
