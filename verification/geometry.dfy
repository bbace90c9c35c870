/**
 * The geometry kernel of the detector: Euclidean distance, the 2-D bearing, the angle
 * at a vertex and the rotation of a pose about the origin. The floating-point library
 * (`math.sqrt`, `math.atan2`, `math.acos`, `math.cos`, `math.sin`) is a parameter, and
 * `Sound` lists the only facts about it that the model uses.
 */
module Geometry {
  import opened Records

  /** `math.pi`. */
  const PI: real := 3.141592653589793

  /** The library functions the kernel calls. */
  datatype MathLib = MathLib(
    sqrt: real -> real,
    atan2: (real, real) -> real,
    acos: real -> real,
    cos: real -> real,
    sin: real -> real)

  /** `a * a`. */
  function Square(a: real): real {
    a * a
  }

  /**
   * `sqrt` is non-negative, strictly increasing on the non-negative reals and undoes
   * squaring; `acos` maps [-1, 1] into [0, pi]. Nothing is assumed of `atan2`, `cos`, `sin`.
   */
  ghost predicate Sound(m: MathLib) {
    && (forall v: real :: 0.0 <= v ==> 0.0 <= m.sqrt(v))
    && (forall a: real :: 0.0 <= a ==> m.sqrt(Square(a)) == a)
    && (forall u: real, v: real :: 0.0 <= u < v ==> m.sqrt(u) < m.sqrt(v))
    && (forall c: real :: -1.0 <= c <= 1.0 ==> 0.0 <= m.acos(c) <= PI)
  }

  /** The square root of a non-negative value is zero exactly when the value is. */
  lemma SqrtZeroIffZero(m: MathLib, v: real)
    requires 0.0 <= v
    ensures Sound(m) ==> 0.0 <= m.sqrt(v) && (m.sqrt(v) == 0.0 <==> v == 0.0)
  {
    if Sound(m) {
      assert Square(0.0) == 0.0;
      assert m.sqrt(Square(0.0)) == 0.0;
      if 0.0 < v {
        assert m.sqrt(0.0) < m.sqrt(v);
      }
    }
  }

  lemma SumOfSquaresNonNegative(a: real, b: real, c: real)
    ensures 0.0 <= a * a + b * b + c * c
  {
  }

  /** `_euclidean_distance`: the 3-D distance between two landmarks. */
  function EuclideanDistance(m: MathLib, p: Landmark, q: Landmark): (d: real)
    ensures Sound(m) ==> 0.0 <= d
    ensures Sound(m) && p == q ==> d == 0.0
  {
    var dx := p.x - q.x;
    var dy := p.y - q.y;
    var dz := p.z - q.z;
    SumOfSquaresNonNegative(dx, dy, dz);
    SqrtZeroIffZero(m, dx * dx + dy * dy + dz * dz);
    m.sqrt(dx * dx + dy * dy + dz * dz)
  }

  /** `_calculate_angle_2d`: the bearing, in radians, of the vector from p to q. */
  function Bearing2D(m: MathLib, p: Landmark, q: Landmark): real {
    m.atan2(q.y - p.y, q.x - p.x)
  }

  /** `max(-1.0, min(1.0, c))`. */
  function Clamp(c: real): (r: real)
    ensures -1.0 <= r <= 1.0
    ensures -1.0 <= c <= 1.0 ==> r == c
  {
    if c > 1.0 then 1.0 else if c < -1.0 then -1.0 else c
  }

  /** `math.degrees`. */
  function Degrees(radians: real): real {
    radians * 180.0 / PI
  }

  /**
   * `_calculate_angle_three_points`: the angle at `vertex` between the 2-D vectors to
   * `p1` and `p3`, in degrees; 0 when either vector has zero length.
   */
  function AngleAtVertex(m: MathLib, p1: Landmark, vertex: Landmark, p3: Landmark): (deg: real)
    ensures Sound(m) ==> 0.0 <= deg <= 180.0
    ensures Sound(m) && ((p1.x == vertex.x && p1.y == vertex.y) || (p3.x == vertex.x && p3.y == vertex.y))
            ==> deg == 0.0
  {
    var v1x := p1.x - vertex.x;
    var v1y := p1.y - vertex.y;
    var v2x := p3.x - vertex.x;
    var v2y := p3.y - vertex.y;
    SumOfSquaresNonNegative(v1x, v1y, 0.0);
    SumOfSquaresNonNegative(v2x, v2y, 0.0);
    var dot := v1x * v2x + v1y * v2y;
    var mag1 := m.sqrt(v1x * v1x + v1y * v1y);
    var mag2 := m.sqrt(v2x * v2x + v2y * v2y);
    SqrtZeroIffZero(m, v1x * v1x + v1y * v1y);
    SqrtZeroIffZero(m, v2x * v2x + v2y * v2y);
    if mag1 == 0.0 || mag2 == 0.0 then
      0.0
    else
      var a := m.acos(Clamp(dot / (mag1 * mag2)));
      DegreesInRange(a);
      Degrees(a)
  }

  lemma DegreesInRange(a: real)
    ensures 0.0 <= a <= PI ==> 0.0 <= Degrees(a) <= 180.0
  {
  }

  /** One point rotated about the origin, given the cosine and sine of the angle. */
  function RotatePoint(p: Landmark, c: real, s: real): Landmark {
    Landmark(p.x * c - p.y * s, p.x * s + p.y * c, p.z)
  }

  /**
   * The direction the rotation step aligns to. A vector of length `r` at bearing theta
   * is `(r * cos theta, r * sin theta)`; rotating it by minus theta uses cosine `cos theta`
   * and sine `-sin theta`, and lands it on the positive x axis (bearing 0), not on the
   * y axis.
   */
  lemma RotationByMinusBearingIsHorizontal(p: Landmark, c: real, s: real, r: real)
    requires c * c + s * s == 1.0
    requires p.x == r * c && p.y == r * s
    ensures RotatePoint(p, c, -s).y == 0.0
    ensures RotatePoint(p, c, -s).x == r
  {
    calc {
      RotatePoint(p, c, -s).x;
      p.x * c + p.y * s;
      r * (c * c + s * s);
      r;
    }
  }

  /**
   * The value `_rotate_points` builds: every point's x and y rotated about the origin
   * by `angle` radians, its z copied.
   */
  function Rotated(m: MathLib, pose: Pose, angle: real): (r: Pose)
    ensures |r| == |pose|
    ensures forall i :: 0 <= i < |r| ==> r[i].z == pose[i].z
    ensures forall i :: 0 <= i < |r| && pose[i].x == 0.0 && pose[i].y == 0.0 ==>
              r[i].x == 0.0 && r[i].y == 0.0
  {
    var c := m.cos(angle);
    var s := m.sin(angle);
    seq(|pose|, i requires 0 <= i < |pose| => RotatePoint(pose[i], c, s))
  }
}
