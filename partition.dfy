/** The region partitioner of the motion strategy: the key row is cut into `n` vertical strips
    with integer division, one rectangle per key. */
module Partition {
  import opened DivArith

  /** One key's rectangle, corners inclusive as OpenCV draws them: top-left `(x0, y0)` and
      bottom-right `(x1, y1)`. */
  datatype Rect = Rect(x0: int, y0: int, x1: int, y1: int)

  /** First column of strip `i` when `width` columns are cut into `n` strips. */
  function StripStart(width: nat, n: nat, i: nat): int
    requires 0 < n
  {
    width * i / n
  }

  /** Last column of strip `i` (one less than the next strip's first column). */
  function StripEnd(width: nat, n: nat, i: nat): int
    requires 0 < n
  {
    width * (i + 1) / n - 1
  }

  /** The rectangle of key `i`: its strip, from the top row down to row `rowHeight`. */
  function StripRect(width: nat, rowHeight: int, n: nat, i: nat): Rect
    requires 0 < n
  {
    Rect(StripStart(width, n, i), 0, StripEnd(width, n, i), rowHeight)
  }

  /** Builds the key rectangles by appending one per key, in key order. */
  method KeyRects(width: nat, rowHeight: int, n: nat) returns (rects: seq<Rect>)
    ensures |rects| == n
    ensures forall i :: 0 <= i < n ==> rects[i] == StripRect(width, rowHeight, n, i)
  {
    rects := [];
    var i := 0;
    while i < n
      invariant 0 <= i <= n
      invariant |rects| == i
      invariant forall j :: 0 <= j < i ==> rects[j] == StripRect(width, rowHeight, n, j)
    {
      var x0 := width * i / n;
      var x1 := width * (i + 1) / n - 1;
      rects := rects + [Rect(x0, 0, x1, rowHeight)];
      i := i + 1;
    }
  }

  /** The strips tile the columns `0 .. width - 1`: the first starts at column 0, the last ends
      at the last column, and each strip starts right after the previous one ends. */
  lemma StripsTile(width: nat, n: nat)
    requires 0 < n
    ensures StripStart(width, n, 0) == 0
    ensures StripEnd(width, n, n - 1) == width - 1
    ensures forall i :: 0 <= i < n - 1 ==> StripEnd(width, n, i) + 1 == StripStart(width, n, i + 1)
  {
    DivMulCancel(width, n);
  }

  /** Every strip lies within the columns `0 .. width - 1`. */
  lemma StripBounds(width: nat, n: nat, i: nat)
    requires i < n
    ensures 0 <= StripStart(width, n, i) <= width
    ensures -1 <= StripEnd(width, n, i) <= width - 1
  {
    MulMonotone(i, n, width);
    MulMonotone(i + 1, n, width);
    DivMonotone(0, width * i, n);
    DivMonotone(width * i, width * n, n);
    DivMonotone(0, width * (i + 1), n);
    DivMonotone(width * (i + 1), width * n, n);
    DivMulCancel(width, n);
  }

  /** Every strip is `width / n` or `width / n + 1` columns wide, so the widths of any two keys
      differ by at most one. */
  lemma StripWidth(width: nat, n: nat, i: nat)
    requires i < n
    ensures var w := StripEnd(width, n, i) - StripStart(width, n, i) + 1;
      w == width / n || w == width / n + 1
  {
    var q, r := width / n, width % n;
    assert width * (i + 1) == (width * i + r) + q * n;
    DivAddMultiple(width * i + r, q, n);
    DivAddSmall(width * i, r, n);
  }

  /** A strip ends before any later strip starts. */
  lemma StripsOrdered(width: nat, n: nat, i: nat, j: nat)
    requires i < j < n
    ensures StripEnd(width, n, i) < StripStart(width, n, j)
  {
    MulMonotone(i + 1, j, width);
    DivMonotone(width * (i + 1), width * j, n);
  }

  /** The strip holding column `x`. */
  function StripOf(width: nat, n: nat, x: int): (i: nat)
    requires 0 < n && 0 <= x < width
    ensures i < n && StripStart(width, n, i) <= x <= StripEnd(width, n, i)
  {
    StripSearch(width, n, x, 0)
  }

  /** Finds the strip of column `x` among strips `k ..`, given that strip `k` starts at or
      before `x`. */
  function StripSearch(width: nat, n: nat, x: int, k: nat): (i: nat)
    requires k < n && StripStart(width, n, k) <= x < width
    ensures k <= i < n && StripStart(width, n, i) <= x <= StripEnd(width, n, i)
    decreases n - k
  {
    if x <= StripEnd(width, n, k) then k
    else
      assert k + 1 < n by { DivMulCancel(width, n); }
      StripSearch(width, n, x, k + 1)
  }

  /** No column lies in two strips. */
  lemma StripUnique(width: nat, n: nat, x: int, i: nat, j: nat)
    requires i < n && j < n
    requires StripStart(width, n, i) <= x <= StripEnd(width, n, i)
    requires StripStart(width, n, j) <= x <= StripEnd(width, n, j)
    ensures i == j
  {
    if i < j {
      StripsOrdered(width, n, i, j);
    } else if j < i {
      StripsOrdered(width, n, j, i);
    }
  }
}
