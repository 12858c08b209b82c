/** Motion and skin tests of the motion strategy: the thresholded frame difference, the
    composite-sum lookup over the label raster, and the skin-fraction threshold. */
module Motion {

  /** A grayscale sample, as numpy's `uint8`. */
  type Pixel = v: int | 0 <= v < 256

  /** A grayscale raster, row by row. */
  type Frame = seq<seq<Pixel>>

  /** `f` has `rows` rows of `cols` samples each. */
  predicate Shaped(f: Frame, rows: nat, cols: nat)
  {
    |f| == rows && forall y :: 0 <= y < rows ==> |f[y]| == cols
  }

  /** `a` and `b` have the same number of rows, row by row of the same length. */
  predicate SameShape(a: Frame, b: Frame)
  {
    |a| == |b| && forall y :: 0 <= y < |a| ==> |a[y]| == |b[y]|
  }

  function Abs(v: int): nat
  {
    if v < 0 then -v else v
  }

  /** `compare(a, b)`: `cv.threshold(cv.absdiff(a, b), threshold, value, cv.THRESH_BINARY)`, a
      mask holding `value` where the two frames differ by more than `threshold` and 0 elsewhere. */
  function Compare(a: Frame, b: Frame, threshold: int, value: Pixel): (d: Frame)
    requires SameShape(a, b)
    ensures SameShape(d, a)
    ensures forall y, x :: 0 <= y < |a| && 0 <= x < |a[y]| ==>
      (d[y][x] == value || d[y][x] == 0) &&
      (value != 0 ==> (d[y][x] == value <==> Abs(a[y][x] as int - b[y][x] as int) > threshold))
  {
    seq(|a|, y requires 0 <= y < |a| =>
      seq(|a[y]|, x requires 0 <= x < |a[y]| =>
        if Abs(a[y][x] as int - b[y][x] as int) > threshold then value else 0))
  }

  /** `v in f` on a numpy array: some sample of `f` equals `v`. */
  predicate Occurs(f: Frame, v: int)
  {
    exists y, x :: 0 <= y < |f| && 0 <= x < |f[y]| && f[y][x] == v
  }

  /** A frame compared with itself shows no change, for any threshold that is not negative. */
  lemma CompareSelf(f: Frame, threshold: int, value: Pixel)
    requires threshold >= 0 && value != 0
    ensures !Occurs(Compare(f, f, threshold, value), value)
  {
    var d := Compare(f, f, threshold, value);
    forall y, x | 0 <= y < |d| && 0 <= x < |d[y]|
      ensures d[y][x] != value
    {
      assert Abs(f[y][x] as int - f[y][x] as int) == 0;
    }
  }

  /** One sample of `keys + delta` on `uint8` rasters, where the sum wraps modulo 256. */
  function SumAt(keys: array2<int>, delta: Frame, y: int, x: int): (v: int)
    reads keys
    requires Shaped(delta, keys.Length0, keys.Length1)
    requires 0 <= y < keys.Length0 && 0 <= x < keys.Length1
    ensures 0 <= v < 256
    ensures 0 <= keys[y, x] + delta[y][x] < 256 ==> v == keys[y, x] + delta[y][x]
    ensures 256 <= keys[y, x] + delta[y][x] < 512 ==> v == keys[y, x] + delta[y][x] - 256
  {
    (keys[y, x] + delta[y][x]) % 256
  }

  /** `v in keys + delta`: the composite-sum lookup. */
  predicate SumContains(keys: array2<int>, delta: Frame, v: int): (found: bool)
    reads keys
    requires Shaped(delta, keys.Length0, keys.Length1)
    ensures found ==> 0 <= v < 256
    ensures (forall y, x :: 0 <= y < keys.Length0 && 0 <= x < keys.Length1 ==> 0 <= keys[y, x] + delta[y][x] < 256) ==>
      (found <==> exists y, x :: 0 <= y < keys.Length0 && 0 <= x < keys.Length1 && keys[y, x] + delta[y][x] == v)
  {
    assert forall y, x :: 0 <= y < keys.Length0 && 0 <= x < keys.Length1 ==>
      (0 <= keys[y, x] + delta[y][x] < 256 ==> SumAt(keys, delta, y, x) == keys[y, x] + delta[y][x]);
    exists y, x :: 0 <= y < keys.Length0 && 0 <= x < keys.Length1 && SumAt(keys, delta, y, x) == v
  }

  /** The per-region scan that the composite sum stands for: some pixel of key `i`'s region
      (label `i + 1`) is marked as moved. */
  ghost predicate MovedInRegion(keys: array2<int>, delta: Frame, value: int, i: nat)
    reads keys
    requires Shaped(delta, keys.Length0, keys.Length1)
  {
    exists y, x :: 0 <= y < keys.Length0 && 0 <= x < keys.Length1 && keys[y, x] == i + 1 && delta[y][x] == value
  }

  /** The composite-sum lookup is exact: with labels in `0 .. n`, mask values in `{0, value}`,
      `n <= value` and `value + n <= 255` (so no sum wraps and no label reaches `value`), the sum
      contains `1 + i + value` exactly when some pixel of key `i` moved. */
  lemma CompositeSumMotion(keys: array2<int>, delta: Frame, value: int, n: nat, i: nat)
    requires Shaped(delta, keys.Length0, keys.Length1)
    requires forall y, x :: 0 <= y < keys.Length0 && 0 <= x < keys.Length1 ==> 0 <= keys[y, x] <= n
    requires forall y, x :: 0 <= y < keys.Length0 && 0 <= x < keys.Length1 ==> delta[y][x] == 0 || delta[y][x] == value
    requires i < n && n <= value && value + n <= 255
    ensures SumContains(keys, delta, 1 + i + value) <==> MovedInRegion(keys, delta, value, i)
  {
    if SumContains(keys, delta, 1 + i + value) {
      var y, x :| 0 <= y < keys.Length0 && 0 <= x < keys.Length1 && SumAt(keys, delta, y, x) == 1 + i + value;
      assert keys[y, x] + delta[y][x] < 256;
    }
    if MovedInRegion(keys, delta, value, i) {
      var y, x :| 0 <= y < keys.Length0 && 0 <= x < keys.Length1 && keys[y, x] == i + 1 && delta[y][x] == value;
      assert SumAt(keys, delta, y, x) == 1 + i + value;
    }
  }

  /** `skin_pixels > 0.02 * total_pixels`, stated over the integers. */
  predicate SkinDetected(skin: nat, total: nat): (detected: bool)
    ensures detected ==> skin > 0
    ensures skin * 50 > total ==> detected
    ensures skin <= total && total < 50 ==> (detected <==> skin > 0)
  {
    50 * skin > total
  }

  /** The integer form agrees with the source's comparison read over exact reals; a region at
      exactly 2 % skin is rejected, and an empty region never passes. */
  lemma SkinThreshold(skin: nat, total: nat)
    ensures SkinDetected(skin, total) <==> skin as real > 0.02 * total as real
    ensures 50 * skin == total ==> !SkinDetected(skin, total)
    ensures skin <= total == 0 ==> !SkinDetected(skin, total)
  {
  }
}
