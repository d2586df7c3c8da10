/**
 * The engine-side values the map and the agents work with: Unity's integer
 * and floating-point vectors, C#'s 32-bit integer arithmetic, the ground
 * tilemap's two coordinate lookups (foreign code, given as function values)
 * and System.Random's bounded draw.
 */
module Engine {

  /** A C# `int`. */
  type Int32 = x: int | -0x8000_0000 <= x < 0x8000_0000

  const TwoTo32: int := 0x1_0000_0000

  /** Reduces a mathematical integer to the C# `int` it wraps to (unchecked context). */
  function Wrap32(v: int): (r: Int32)
    ensures (r - v) % TwoTo32 == 0
    ensures -0x8000_0000 <= v < 0x8000_0000 ==> r == v
  {
    (v + 0x8000_0000) % TwoTo32 - 0x8000_0000
  }

  /** `a + b` on C# `int`s. */
  function Add32(a: Int32, b: Int32): (r: Int32) {
    Wrap32(a + b)
  }

  /** `a - b` on C# `int`s. */
  function Sub32(a: Int32, b: Int32): (r: Int32) {
    Wrap32(a - b)
  }

  /** Subtracting an offset undoes adding it, even when the addition overflowed. */
  lemma SubUndoesAdd(a: Int32, b: Int32)
    ensures Sub32(Add32(a, b), b) == a
  {
  }

  /** Adding an offset undoes subtracting it, even when the subtraction overflowed. */
  lemma AddUndoesSub(a: Int32, b: Int32)
    ensures Add32(Sub32(a, b), b) == a
  {
  }

  /** UnityEngine.Vector2Int: a map cell. */
  datatype Vector2Int = Vector2Int(x: Int32, y: Int32)

  /** UnityEngine.Vector3Int: a tilemap cell. */
  datatype Vector3Int = Vector3Int(x: Int32, y: Int32, z: Int32)

  /** UnityEngine.Vector3: a world position; z is only the drawing depth. */
  datatype Vector3 = Vector3(x: real, y: real, z: real)

  /**
   * The parts of a UnityEngine.Tilemap the map reads: `origin`, `cellBounds.size`
   * and the two foreign conversions `WorldToCell` and `GetCellCenterWorld`.
   */
  datatype Tilemap = Tilemap(
    origin: Vector3Int,
    size: Vector3Int,
    worldToCell: Vector3 -> Vector3Int,
    cellCenterWorld: Vector3Int -> Vector3)
  {
    /**
     * What the engine is assumed to guarantee of a rectangular (XY) grid:
     * `WorldToCell` maps the centre of every cell of layer 0 back to that
     * cell's x and y, and the x and y of the cell it finds do not depend on
     * the depth of the position.
     */
    ghost predicate Consistent() {
      && (forall c: Vector3Int :: c.z == 0 ==>
            worldToCell(cellCenterWorld(c)).x == c.x && worldToCell(cellCenterWorld(c)).y == c.y)
      && (forall p: Vector3, q: Vector3 :: p.x == q.x && p.y == q.y ==>
            worldToCell(p).x == worldToCell(q).x && worldToCell(p).y == worldToCell(q).y)
    }
  }

  /** A value of System.Random.Sample(): a double in [0, 1). */
  type Sample = r: real | 0.0 <= r < 1.0

  /** The product of two non-negative reals is non-negative. */
  lemma MulNonneg(a: real, b: real)
    requires a >= 0.0 && b >= 0.0
    ensures a * b >= 0.0
  {
  }

  /** The product of two positive reals is positive. */
  lemma MulPos(a: real, b: real)
    requires a > 0.0 && b > 0.0
    ensures a * b > 0.0
  {
  }

  /** A product that is positive with a positive right factor has a positive left factor. */
  lemma PositiveFactor(a: real, b: real)
    requires b > 0.0 && a * b > 0.0
    ensures a > 0.0
  {
    if a <= 0.0 {
      MulNonneg(-a, b);
    }
  }

  /** `(int)(sample * n)`: the offset System.Random adds to the lower bound. */
  function ScaledSample(sample: Sample, n: nat): (k: nat)
    ensures n > 0 ==> k < n
    ensures n == 0 ==> k == 0
  {
    var r := n as real;
    var scaled := sample * r;
    MulNonneg(sample, r);
    assert n > 0 ==> scaled < r by {
      if n > 0 {
        MulPos(1.0 - sample, r);
        assert (1.0 - sample) * r == r - sample * r;
      }
    }
    scaled.Floor
  }

  /**
   * System.Random.Next(lo, hi): `lo + (int)(sample * (hi - lo))`. The upper
   * bound is exclusive, except that Next(lo, lo) returns lo.
   */
  function RandomNext(sample: Sample, lo: Int32, hi: Int32): (r: Int32)
    requires lo <= hi
    ensures lo < hi ==> lo <= r < hi
    ensures lo == hi ==> r == lo
  {
    lo + ScaledSample(sample, hi - lo)
  }

  /** Every value of [lo, hi) is drawn for some sample. */
  lemma RandomNextReaches(k: Int32, lo: Int32, hi: Int32) returns (sample: Sample)
    requires lo <= k < hi
    ensures RandomNext(sample, lo, hi) == k
  {
    var n := (hi - lo) as real;
    var s := (k - lo) as real / n;
    var t := 1.0 - s;
    var d := (hi - k) as real;
    // t * n == n - s * n == (hi - lo) - (k - lo) == d, which is positive
    assert s * n == (k - lo) as real;
    assert t * n == n - s * n;
    assert t * n == d && d > 0.0;
    PositiveFactor(t, n);
    sample := s;
  }
}
