/** Shared value types of the plankton tracker model: optional values,
    integer pixel positions, mask bytes and the squared distance that every
    threshold comparison of the tracker is stated on. */
module Common {

  datatype Option<+T> = None | Some(value: T) {
    /** The value, or `default` when absent (Python's `dict.get(k, default)`). */
    function GetOr(default: T): T {
      match this
      case Some(v) => v
      case None => default
    }
  }

  /** An unsigned 8-bit mask value, as in a `uint8` numpy array. */
  newtype byte = x: int | 0 <= x < 256

  /** An integer pixel position; detector centroids are `(int, int)`. */
  datatype Point = Point(x: int, y: int)

  /** The body pose decided from the bounding rectangle's aspect ratio. */
  datatype Pose = Ball | Elongated

  function Sq(n: int): (r: nat)
    ensures r == 0 <==> n == 0
  {
    if n == 0 then 0 else
      assert n * n > 0 by { if n < 0 { assert (-n) * (-n) == n * n; } }
      n * n
  }

  /** Squared Euclidean distance between two pixel positions.  Comparing
      squared distances orders them exactly as the Euclidean distances are
      ordered, so every `<`, `>=` of the source is stated on this value. */
  function Dist2(a: Point, b: Point): (d: nat)
    ensures d == 0 <==> a == b
  {
    Sq(a.x - b.x) + Sq(a.y - b.y)
  }

  /** `sqrt(d2) >= m` for a non-negative threshold `m`, stated without the
      square root: both sides are non-negative, so squaring preserves order. */
  predicate AtLeast(d2: nat, m: real)
    requires m >= 0.0
  {
    d2 as real >= Squared(m)
  }

  /** The square of a real threshold. */
  function Squared(m: real): real
  {
    m * m
  }

  /** Multiplying both sides by a positive number keeps a strict order. */
  lemma ScaleLess(x: real, e: real, d: real)
    requires d > 0.0
    ensures x < e <==> x * d < e * d
  {
    if x < e {
      assert (e - x) * d > 0.0;
    } else {
      assert (x - e) * d >= 0.0;
    }
  }

  /** Multiplying both sides by a non-negative number keeps `>=`. */
  lemma ScaleAtLeast(a: real, b: real, c: real)
    requires a >= b && c >= 0.0
    ensures a * c >= b * c
  {
    assert (a - b) * c >= 0.0;
  }

  /** A rectangular grid of bytes, as a 2-D numpy array always is. */
  ghost predicate Rectangular(g: seq<seq<byte>>)
  {
    forall y :: 0 <= y < |g| ==> |g[y]| == |g[0]|
  }

  /** The grid width, `mask.shape[1]` (0 for a grid without rows). */
  function Width(g: seq<seq<byte>>): nat
  {
    if |g| == 0 then 0 else |g[0]|
  }
}
