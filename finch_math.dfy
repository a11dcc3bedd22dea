/**
 * Quaternion and vector algebra of the Finch controller service, and the
 * change of basis between two coordinate systems (FinchMath.java).
 * Java floats are modelled as reals; the library's square root and
 * trigonometric functions are left uninterpreted (see `Maths`).
 */
module FinchMath {

  /** Tolerance of `Equal`. */
  const Eps: real := 0.000001

  datatype Vector3 = Vector3(x: real, y: real, z: real)
  datatype Quaternion = Quaternion(x: real, y: real, z: real, w: real)

  /** A pose; the default one sits at the origin with no rotation. */
  datatype Transform = Transform(position: Vector3, orientation: Quaternion)

  /**
   * The runtime's Math.sqrt, acos, asin, atan2, cos and sin: total functions
   * about which the model assumes nothing unless a member says so.
   */
  datatype Maths = Maths(
    sqrt: real -> real,
    acos: real -> real,
    asin: real -> real,
    atan2: (real, real) -> real,
    cos: real -> real,
    sin: real -> real)
  {
    /**
     * `sqrt` is the exact square root on the non-negative reals, and (as
     * IEEE 754 square root is) exact at 0 and 1.  The law is used only at
     * arguments a proof names with `RootArg`, which keeps the solver from
     * applying it to every square root in sight.
     */
    predicate RootArg(a: real) {
      0.0 <= a
    }

    ghost predicate SqrtExact() {
      && (forall a: real {:trigger RootArg(a)} :: RootArg(a) ==> 0.0 <= sqrt(a) && sqrt(a) * sqrt(a) == a)
      && sqrt(0.0) == 0.0
      && sqrt(1.0) == 1.0
    }
  }

  const Identity: Quaternion := Quaternion(0.0, 0.0, 0.0, 1.0)
  const Zero: Vector3 := Vector3(0.0, 0.0, 0.0)
  const Right: Vector3 := Vector3(1.0, 0.0, 0.0)
  const Up: Vector3 := Vector3(0.0, 1.0, 0.0)
  const Forward: Vector3 := Vector3(0.0, 0.0, 1.0)
  const Backward: Vector3 := Vector3(0.0, 0.0, -1.0)
  /** Half a turn about +z. */
  const ZHalfTurn: Quaternion := Quaternion(0.0, 0.0, 1.0, 0.0)
  const DefaultTransform: Transform := Transform(Zero, Identity)

  function Abs(a: real): (r: real)
    ensures 0.0 <= r && (r == a || r == -a)
  {
    if a < 0.0 then -a else a
  }

  /** Two floats are "equal" when they differ by less than `Eps`: the absolute difference, unfolded. */
  predicate Equal(a: real, b: real) {
    -Eps < a - b < Eps
  }

  function MagnitudeSqr(q: Quaternion): real {
    q.x * q.x + q.y * q.y + q.z * q.z + q.w * q.w
  }

  function LengthSqr(v: Vector3): real {
    v.x * v.x + v.y * v.y + v.z * v.z
  }

  // Squared lengths are non-negative.  These are lemmas rather than
  // postconditions of the functions so that the solver meets the fact only
  // where a proof asks for it.

  lemma MagnitudeSqrNonNegative(q: Quaternion)
    ensures 0.0 <= MagnitudeSqr(q)
  {
    SquareNonNegative(q.x);
    SquareNonNegative(q.y);
    SquareNonNegative(q.z);
    SquareNonNegative(q.w);
  }

  lemma LengthSqrNonNegative(v: Vector3)
    ensures 0.0 <= LengthSqr(v)
  {
    SquareNonNegative(v.x);
    SquareNonNegative(v.y);
    SquareNonNegative(v.z);
  }

  function Length(m: Maths, v: Vector3): real {
    m.sqrt(LengthSqr(v))
  }

  function Dot(a: Vector3, b: Vector3): real {
    a.x * b.x + a.y * b.y + a.z * b.z
  }

  function Cross(a: Vector3, b: Vector3): Vector3 {
    Vector3(a.y * b.z - a.z * b.y, a.z * b.x - a.x * b.z, a.x * b.y - a.y * b.x)
  }

  function Minus(v: Vector3): Vector3 {
    Vector3(-v.x, -v.y, -v.z)
  }

  function Plus(a: Vector3, b: Vector3): Vector3 {
    Vector3(a.x + b.x, a.y + b.y, a.z + b.z)
  }

  function ScaleV(v: Vector3, k: real): Vector3 {
    Vector3(v.x * k, v.y * k, v.z * k)
  }

  /** Componentwise division by `s`, as the normalisation code writes it. */
  function DivQ(q: Quaternion, s: real): Quaternion
    requires s != 0.0
  {
    Quaternion(q.x / s, q.y / s, q.z / s, q.w / s)
  }

  function DivV(v: Vector3, s: real): Vector3
    requires s != 0.0
  {
    Vector3(v.x / s, v.y / s, v.z / s)
  }

  /**
   * A quaternion whose squared magnitude is already within `Eps` of 1 is
   * returned as is; one within `Eps` of 0 becomes the identity; any other is
   * divided by its length, which is then positive.
   */
  function NormalizedQ(m: Maths, q: Quaternion): (r: Quaternion)
    requires m.SqrtExact()
    ensures Equal(MagnitudeSqr(q), 1.0) ==> r == q
    ensures Equal(MagnitudeSqr(q), 0.0) ==> r == Identity
  {
    var len := MagnitudeSqr(q);
    if Equal(len, 1.0) then q
    else if !Equal(len, 0.0) then
      var s := m.sqrt(len);
      assert m.RootArg(len);
      DivQ(q, s)
    else Identity
  }

  /** The same policy for vectors, with the zero vector as the fallback. */
  function NormalizedV(m: Maths, v: Vector3): (r: Vector3)
    requires m.SqrtExact()
    ensures Equal(LengthSqr(v), 1.0) ==> r == v
    ensures Equal(LengthSqr(v), 0.0) ==> r == Zero
  {
    var len := LengthSqr(v);
    if Equal(len, 1.0) then v
    else if !Equal(len, 0.0) then
      var s := m.sqrt(len);
      assert m.RootArg(len);
      DivV(v, s)
    else Zero
  }

  /** Scaling by 1/s multiplies a sum of squares by 1/s². */
  lemma ScaledSquares(a: real, s: real)
    requires 0.0 < s && s * s == a
    ensures (1.0 / s) * (1.0 / s) * a == 1.0
  {
    var k := 1.0 / s;
    assert k * s == 1.0;
    calc {
      k * k * a;
      == k * k * (s * s);
      == (k * s) * (k * s);
    }
  }

  /** Dividing by the positive root of the squared magnitude gives a unit quaternion. */
  lemma DivQUnit(q: Quaternion, s: real)
    requires 0.0 < s && s * s == MagnitudeSqr(q)
    ensures MagnitudeSqr(DivQ(q, s)) == 1.0
  {
    var k := 1.0 / s;
    var d := DivQ(q, s);
    assert d == Quaternion(q.x * k, q.y * k, q.z * k, q.w * k);
    assert MagnitudeSqr(d) == k * k * MagnitudeSqr(q);
    ScaledSquares(MagnitudeSqr(q), s);
  }

  lemma DivVUnit(v: Vector3, s: real)
    requires 0.0 < s && s * s == LengthSqr(v)
    ensures LengthSqr(DivV(v, s)) == 1.0
  {
    var k := 1.0 / s;
    var d := DivV(v, s);
    assert d == Vector3(v.x * k, v.y * k, v.z * k);
    assert LengthSqr(d) == k * k * LengthSqr(v);
    ScaledSquares(LengthSqr(v), s);
  }

  /**
   * Normalisation yields a unit quaternion: exactly, when the input was
   * rescaled, and within `Eps`, when it was already close to unit.  Only an
   * input within `Eps` of 0 escapes, to the identity.
   */
  lemma NormalizedQUnit(m: Maths, q: Quaternion)
    requires m.SqrtExact()
    ensures !Equal(MagnitudeSqr(q), 1.0) && !Equal(MagnitudeSqr(q), 0.0) ==> MagnitudeSqr(NormalizedQ(m, q)) == 1.0
    ensures !Equal(MagnitudeSqr(q), 0.0) ==> Equal(MagnitudeSqr(NormalizedQ(m, q)), 1.0)
  {
    var len := MagnitudeSqr(q);
    if !Equal(len, 1.0) && !Equal(len, 0.0) {
      assert m.RootArg(len);
      DivQUnit(q, m.sqrt(len));
    }
  }

  lemma NormalizedVUnit(m: Maths, v: Vector3)
    requires m.SqrtExact()
    ensures !Equal(LengthSqr(v), 1.0) && !Equal(LengthSqr(v), 0.0) ==> LengthSqr(NormalizedV(m, v)) == 1.0
    ensures !Equal(LengthSqr(v), 0.0) ==> Equal(LengthSqr(NormalizedV(m, v)), 1.0)
  {
    var len := LengthSqr(v);
    if !Equal(len, 1.0) && !Equal(len, 0.0) {
      assert m.RootArg(len);
      DivVUnit(v, m.sqrt(len));
    }
  }

  function Conjugated(q: Quaternion): (r: Quaternion)
    ensures r.x == -q.x && r.y == -q.y && r.z == -q.z && r.w == q.w
    ensures MagnitudeSqr(r) == MagnitudeSqr(q)
  {
    Quaternion(-q.x, -q.y, -q.z, q.w)
  }

  lemma ConjugatedInvolution(q: Quaternion)
    ensures Conjugated(Conjugated(q)) == q
  {
  }

  // Components of the Hamilton product over plain reals.  Keeping them as
  // functions of reals lets the polynomial identities below be proved once,
  // over reals, and reused for quaternions by congruence.

  function HX(ax: real, ay: real, az: real, aw: real, bx: real, bY: real, bz: real, bw: real): real {
    aw * bx + ax * bw + ay * bz - az * bY
  }

  function HY(ax: real, ay: real, az: real, aw: real, bx: real, bY: real, bz: real, bw: real): real {
    aw * bY - ax * bz + ay * bw + az * bx
  }

  function HZ(ax: real, ay: real, az: real, aw: real, bx: real, bY: real, bz: real, bw: real): real {
    aw * bz + ax * bY - ay * bx + az * bw
  }

  function HW(ax: real, ay: real, az: real, aw: real, bx: real, bY: real, bz: real, bw: real): real {
    aw * bw - ax * bx - ay * bY - az * bz
  }

  /** Textbook Hamilton product, the reference definition for `Mult`. */
  function Hamilton(a: Quaternion, b: Quaternion): Quaternion {
    Quaternion(
      HX(a.x, a.y, a.z, a.w, b.x, b.y, b.z, b.w),
      HY(a.x, a.y, a.z, a.w, b.x, b.y, b.z, b.w),
      HZ(a.x, a.y, a.z, a.w, b.x, b.y, b.z, b.w),
      HW(a.x, a.y, a.z, a.w, b.x, b.y, b.z, b.w))
  }

  /** The product as the source computes it: eight multiplications instead of sixteen. */
  function Mult(q1: Quaternion, q2: Quaternion): Quaternion {
    var ww := (q1.z + q1.x) * (q2.x + q2.y);
    var yy := (q1.w - q1.y) * (q2.w + q2.z);
    var zz := (q1.w + q1.y) * (q2.w - q2.z);
    var xx := ww + yy + zz;
    var qq := 0.5 * (xx + (q1.z - q1.x) * (q2.x - q2.y));
    Quaternion(
      qq - xx + (q1.x + q1.w) * (q2.x + q2.w),
      qq - yy + (q1.w - q1.x) * (q2.y + q2.z),
      qq - zz + (q1.z + q1.y) * (q2.w - q2.x),
      qq - ww + (q1.z - q1.y) * (q2.y - q2.z))
  }

  lemma MultX(a: Quaternion, b: Quaternion)
    ensures Mult(a, b).x == Hamilton(a, b).x
  {
  }

  lemma MultY(a: Quaternion, b: Quaternion)
    ensures Mult(a, b).y == Hamilton(a, b).y
  {
  }

  lemma MultZ(a: Quaternion, b: Quaternion)
    ensures Mult(a, b).z == Hamilton(a, b).z
  {
  }

  lemma MultW(a: Quaternion, b: Quaternion)
    ensures Mult(a, b).w == Hamilton(a, b).w
  {
  }

  /** The shortcut product is the Hamilton product. */
  lemma MultIsHamilton(a: Quaternion, b: Quaternion)
    ensures Mult(a, b) == Hamilton(a, b)
  {
    MultX(a, b);
    MultY(a, b);
    MultZ(a, b);
    MultW(a, b);
  }

  lemma HamiltonIdentity(q: Quaternion)
    ensures Hamilton(Identity, q) == q && Hamilton(q, Identity) == q
  {
  }

  lemma HamiltonConjugate(q: Quaternion)
    ensures Hamilton(q, Conjugated(q)) == Quaternion(0.0, 0.0, 0.0, MagnitudeSqr(q))
    ensures Hamilton(Conjugated(q), q) == Quaternion(0.0, 0.0, 0.0, MagnitudeSqr(q))
  {
  }

  lemma AssocX(ax: real, ay: real, az: real, aw: real, bx: real, bY: real, bz: real, bw: real,
               cx: real, cy: real, cz: real, cw: real)
    ensures HX(HX(ax, ay, az, aw, bx, bY, bz, bw), HY(ax, ay, az, aw, bx, bY, bz, bw),
               HZ(ax, ay, az, aw, bx, bY, bz, bw), HW(ax, ay, az, aw, bx, bY, bz, bw), cx, cy, cz, cw)
         == HX(ax, ay, az, aw, HX(bx, bY, bz, bw, cx, cy, cz, cw), HY(bx, bY, bz, bw, cx, cy, cz, cw),
               HZ(bx, bY, bz, bw, cx, cy, cz, cw), HW(bx, bY, bz, bw, cx, cy, cz, cw))
  {
  }

  lemma AssocY(ax: real, ay: real, az: real, aw: real, bx: real, bY: real, bz: real, bw: real,
               cx: real, cy: real, cz: real, cw: real)
    ensures HY(HX(ax, ay, az, aw, bx, bY, bz, bw), HY(ax, ay, az, aw, bx, bY, bz, bw),
               HZ(ax, ay, az, aw, bx, bY, bz, bw), HW(ax, ay, az, aw, bx, bY, bz, bw), cx, cy, cz, cw)
         == HY(ax, ay, az, aw, HX(bx, bY, bz, bw, cx, cy, cz, cw), HY(bx, bY, bz, bw, cx, cy, cz, cw),
               HZ(bx, bY, bz, bw, cx, cy, cz, cw), HW(bx, bY, bz, bw, cx, cy, cz, cw))
  {
  }

  lemma AssocZ(ax: real, ay: real, az: real, aw: real, bx: real, bY: real, bz: real, bw: real,
               cx: real, cy: real, cz: real, cw: real)
    ensures HZ(HX(ax, ay, az, aw, bx, bY, bz, bw), HY(ax, ay, az, aw, bx, bY, bz, bw),
               HZ(ax, ay, az, aw, bx, bY, bz, bw), HW(ax, ay, az, aw, bx, bY, bz, bw), cx, cy, cz, cw)
         == HZ(ax, ay, az, aw, HX(bx, bY, bz, bw, cx, cy, cz, cw), HY(bx, bY, bz, bw, cx, cy, cz, cw),
               HZ(bx, bY, bz, bw, cx, cy, cz, cw), HW(bx, bY, bz, bw, cx, cy, cz, cw))
  {
  }

  lemma AssocW(ax: real, ay: real, az: real, aw: real, bx: real, bY: real, bz: real, bw: real,
               cx: real, cy: real, cz: real, cw: real)
    ensures HW(HX(ax, ay, az, aw, bx, bY, bz, bw), HY(ax, ay, az, aw, bx, bY, bz, bw),
               HZ(ax, ay, az, aw, bx, bY, bz, bw), HW(ax, ay, az, aw, bx, bY, bz, bw), cx, cy, cz, cw)
         == HW(ax, ay, az, aw, HX(bx, bY, bz, bw, cx, cy, cz, cw), HY(bx, bY, bz, bw, cx, cy, cz, cw),
               HZ(bx, bY, bz, bw, cx, cy, cz, cw), HW(bx, bY, bz, bw, cx, cy, cz, cw))
  {
  }

  lemma HamiltonAssociative(a: Quaternion, b: Quaternion, c: Quaternion)
    ensures Hamilton(Hamilton(a, b), c) == Hamilton(a, Hamilton(b, c))
  {
    AssocX(a.x, a.y, a.z, a.w, b.x, b.y, b.z, b.w, c.x, c.y, c.z, c.w);
    AssocY(a.x, a.y, a.z, a.w, b.x, b.y, b.z, b.w, c.x, c.y, c.z, c.w);
    AssocZ(a.x, a.y, a.z, a.w, b.x, b.y, b.z, b.w, c.x, c.y, c.z, c.w);
    AssocW(a.x, a.y, a.z, a.w, b.x, b.y, b.z, b.w, c.x, c.y, c.z, c.w);
  }

  lemma NormOfProduct(ax: real, ay: real, az: real, aw: real, bx: real, bY: real, bz: real, bw: real)
    ensures
      var hx := HX(ax, ay, az, aw, bx, bY, bz, bw);
      var hy := HY(ax, ay, az, aw, bx, bY, bz, bw);
      var hz := HZ(ax, ay, az, aw, bx, bY, bz, bw);
      var hw := HW(ax, ay, az, aw, bx, bY, bz, bw);
      hx * hx + hy * hy + hz * hz + hw * hw
        == (ax * ax + ay * ay + az * az + aw * aw) * (bx * bx + bY * bY + bz * bz + bw * bw)
  {
  }

  lemma UnitProduct(ax: real, ay: real, az: real, aw: real, bx: real, bY: real, bz: real, bw: real)
    requires ax * ax + ay * ay + az * az + aw * aw == 1.0
    requires bx * bx + bY * bY + bz * bz + bw * bw == 1.0
    ensures MagnitudeSqr(Hamilton(Quaternion(ax, ay, az, aw), Quaternion(bx, bY, bz, bw))) == 1.0
  {
    NormOfProduct(ax, ay, az, aw, bx, bY, bz, bw);
  }

  /** The product of two unit quaternions is a unit quaternion. */
  lemma MultPreservesUnit(a: Quaternion, b: Quaternion)
    requires MagnitudeSqr(a) == 1.0 && MagnitudeSqr(b) == 1.0
    ensures MagnitudeSqr(Mult(a, b)) == 1.0
  {
    MultIsHamilton(a, b);
    UnitProduct(a.x, a.y, a.z, a.w, b.x, b.y, b.z, b.w);
  }

  function Pure(v: Vector3): Quaternion {
    Quaternion(v.x, v.y, v.z, 0.0)
  }

  function VectorPart(q: Quaternion): Vector3 {
    Vector3(q.x, q.y, q.z)
  }

  /** Rotation of `v` by `q`, written with two cross products as the source does. */
  function Apply(q: Quaternion, v: Vector3): Vector3 {
    var xyz := VectorPart(q);
    var t := Plus(Cross(xyz, v), ScaleV(v, q.w));
    Plus(v, ScaleV(Cross(xyz, t), 2.0))
  }

  // The three components of `Apply` over plain reals.

  function ApplyXr(qx: real, qy: real, qz: real, qw: real, vx: real, vy: real, vz: real): real {
    var ty := (qz * vx - qx * vz) + vy * qw;
    var tz := (qx * vy - qy * vx) + vz * qw;
    vx + (qy * tz - qz * ty) * 2.0
  }

  function ApplyYr(qx: real, qy: real, qz: real, qw: real, vx: real, vy: real, vz: real): real {
    var tx := (qy * vz - qz * vy) + vx * qw;
    var tz := (qx * vy - qy * vx) + vz * qw;
    vy + (qz * tx - qx * tz) * 2.0
  }

  function ApplyZr(qx: real, qy: real, qz: real, qw: real, vx: real, vy: real, vz: real): real {
    var tx := (qy * vz - qz * vy) + vx * qw;
    var ty := (qz * vx - qx * vz) + vy * qw;
    vz + (qx * ty - qy * tx) * 2.0
  }

  lemma ApplyComponents(q: Quaternion, v: Vector3)
    ensures Apply(q, v) == Vector3(ApplyXr(q.x, q.y, q.z, q.w, v.x, v.y, v.z),
                                   ApplyYr(q.x, q.y, q.z, q.w, v.x, v.y, v.z),
                                   ApplyZr(q.x, q.y, q.z, q.w, v.x, v.y, v.z))
  {
    ApplyComponentX(q, v);
    ApplyComponentY(q, v);
    ApplyComponentZ(q, v);
  }

  lemma ApplyComponentX(q: Quaternion, v: Vector3)
    ensures Apply(q, v).x == ApplyXr(q.x, q.y, q.z, q.w, v.x, v.y, v.z)
  {
  }

  lemma ApplyComponentY(q: Quaternion, v: Vector3)
    ensures Apply(q, v).y == ApplyYr(q.x, q.y, q.z, q.w, v.x, v.y, v.z)
  {
  }

  lemma ApplyComponentZ(q: Quaternion, v: Vector3)
    ensures Apply(q, v).z == ApplyZr(q.x, q.y, q.z, q.w, v.x, v.y, v.z)
  {
  }

  // The components of q·(v, 0)·q* over plain reals, with the first product
  // (p) given by its coordinates.

  lemma SandwichCoreX(qx: real, qy: real, qz: real, qw: real, vx: real, vy: real, vz: real,
                      px: real, py: real, pz: real, pw: real, r: real)
    requires px == qw * vx + qy * vz - qz * vy && py == qw * vy - qx * vz + qz * vx
    requires pz == qw * vz + qx * vy - qy * vx && pw == - qx * vx - qy * vy - qz * vz
    requires r == pw * -qx + px * qw + py * -qz - pz * -qy
    ensures r == vx + (qy * ((qx * vy - qy * vx) + vz * qw) - qz * ((qz * vx - qx * vz) + vy * qw)) * 2.0
               + (qx * qx + qy * qy + qz * qz + qw * qw - 1.0) * vx
  {
  }

  lemma SandwichCoreY(qx: real, qy: real, qz: real, qw: real, vx: real, vy: real, vz: real,
                      px: real, py: real, pz: real, pw: real, r: real)
    requires px == qw * vx + qy * vz - qz * vy && py == qw * vy - qx * vz + qz * vx
    requires pz == qw * vz + qx * vy - qy * vx && pw == - qx * vx - qy * vy - qz * vz
    requires r == pw * -qy - px * -qz + py * qw + pz * -qx
    ensures r == vy + (qz * ((qy * vz - qz * vy) + vx * qw) - qx * ((qx * vy - qy * vx) + vz * qw)) * 2.0
               + (qx * qx + qy * qy + qz * qz + qw * qw - 1.0) * vy
  {
  }

  lemma SandwichCoreZ(qx: real, qy: real, qz: real, qw: real, vx: real, vy: real, vz: real,
                      px: real, py: real, pz: real, pw: real, r: real)
    requires px == qw * vx + qy * vz - qz * vy && py == qw * vy - qx * vz + qz * vx
    requires pz == qw * vz + qx * vy - qy * vx && pw == - qx * vx - qy * vy - qz * vz
    requires r == pw * -qz + px * -qy - py * -qx + pz * qw
    ensures r == vz + (qx * ((qz * vx - qx * vz) + vy * qw) - qy * ((qy * vz - qz * vy) + vx * qw)) * 2.0
               + (qx * qx + qy * qy + qz * qz + qw * qw - 1.0) * vz
  {
  }

  lemma SandwichCoreW(qx: real, qy: real, qz: real, qw: real, vx: real, vy: real, vz: real,
                      px: real, py: real, pz: real, pw: real, r: real)
    requires px == qw * vx + qy * vz - qz * vy && py == qw * vy - qx * vz + qz * vx
    requires pz == qw * vz + qx * vy - qy * vx && pw == - qx * vx - qy * vy - qz * vz
    requires r == pw * qw - px * -qx - py * -qy - pz * -qz
    ensures r == 0.0
  {
  }

  lemma SandwichGeneralX(qx: real, qy: real, qz: real, qw: real, vx: real, vy: real, vz: real)
    ensures HX(HX(qx, qy, qz, qw, vx, vy, vz, 0.0), HY(qx, qy, qz, qw, vx, vy, vz, 0.0),
               HZ(qx, qy, qz, qw, vx, vy, vz, 0.0), HW(qx, qy, qz, qw, vx, vy, vz, 0.0), -qx, -qy, -qz, qw)
         == ApplyXr(qx, qy, qz, qw, vx, vy, vz) + (qx * qx + qy * qy + qz * qz + qw * qw - 1.0) * vx
  {
    SandwichCoreX(qx, qy, qz, qw, vx, vy, vz,
      HX(qx, qy, qz, qw, vx, vy, vz, 0.0), HY(qx, qy, qz, qw, vx, vy, vz, 0.0),
      HZ(qx, qy, qz, qw, vx, vy, vz, 0.0), HW(qx, qy, qz, qw, vx, vy, vz, 0.0),
      HX(HX(qx, qy, qz, qw, vx, vy, vz, 0.0), HY(qx, qy, qz, qw, vx, vy, vz, 0.0),
         HZ(qx, qy, qz, qw, vx, vy, vz, 0.0), HW(qx, qy, qz, qw, vx, vy, vz, 0.0), -qx, -qy, -qz, qw));
  }

  lemma SandwichX(qx: real, qy: real, qz: real, qw: real, vx: real, vy: real, vz: real)
    requires qx * qx + qy * qy + qz * qz + qw * qw == 1.0
    ensures HX(HX(qx, qy, qz, qw, vx, vy, vz, 0.0), HY(qx, qy, qz, qw, vx, vy, vz, 0.0),
               HZ(qx, qy, qz, qw, vx, vy, vz, 0.0), HW(qx, qy, qz, qw, vx, vy, vz, 0.0), -qx, -qy, -qz, qw)
         == ApplyXr(qx, qy, qz, qw, vx, vy, vz)
  {
    SandwichGeneralX(qx, qy, qz, qw, vx, vy, vz);
  }

  lemma SandwichGeneralY(qx: real, qy: real, qz: real, qw: real, vx: real, vy: real, vz: real)
    ensures HY(HX(qx, qy, qz, qw, vx, vy, vz, 0.0), HY(qx, qy, qz, qw, vx, vy, vz, 0.0),
               HZ(qx, qy, qz, qw, vx, vy, vz, 0.0), HW(qx, qy, qz, qw, vx, vy, vz, 0.0), -qx, -qy, -qz, qw)
         == ApplyYr(qx, qy, qz, qw, vx, vy, vz) + (qx * qx + qy * qy + qz * qz + qw * qw - 1.0) * vy
  {
    SandwichCoreY(qx, qy, qz, qw, vx, vy, vz,
      HX(qx, qy, qz, qw, vx, vy, vz, 0.0), HY(qx, qy, qz, qw, vx, vy, vz, 0.0),
      HZ(qx, qy, qz, qw, vx, vy, vz, 0.0), HW(qx, qy, qz, qw, vx, vy, vz, 0.0),
      HY(HX(qx, qy, qz, qw, vx, vy, vz, 0.0), HY(qx, qy, qz, qw, vx, vy, vz, 0.0),
         HZ(qx, qy, qz, qw, vx, vy, vz, 0.0), HW(qx, qy, qz, qw, vx, vy, vz, 0.0), -qx, -qy, -qz, qw));
  }

  lemma SandwichY(qx: real, qy: real, qz: real, qw: real, vx: real, vy: real, vz: real)
    requires qx * qx + qy * qy + qz * qz + qw * qw == 1.0
    ensures HY(HX(qx, qy, qz, qw, vx, vy, vz, 0.0), HY(qx, qy, qz, qw, vx, vy, vz, 0.0),
               HZ(qx, qy, qz, qw, vx, vy, vz, 0.0), HW(qx, qy, qz, qw, vx, vy, vz, 0.0), -qx, -qy, -qz, qw)
         == ApplyYr(qx, qy, qz, qw, vx, vy, vz)
  {
    SandwichGeneralY(qx, qy, qz, qw, vx, vy, vz);
  }

  lemma SandwichGeneralZ(qx: real, qy: real, qz: real, qw: real, vx: real, vy: real, vz: real)
    ensures HZ(HX(qx, qy, qz, qw, vx, vy, vz, 0.0), HY(qx, qy, qz, qw, vx, vy, vz, 0.0),
               HZ(qx, qy, qz, qw, vx, vy, vz, 0.0), HW(qx, qy, qz, qw, vx, vy, vz, 0.0), -qx, -qy, -qz, qw)
         == ApplyZr(qx, qy, qz, qw, vx, vy, vz) + (qx * qx + qy * qy + qz * qz + qw * qw - 1.0) * vz
  {
    SandwichCoreZ(qx, qy, qz, qw, vx, vy, vz,
      HX(qx, qy, qz, qw, vx, vy, vz, 0.0), HY(qx, qy, qz, qw, vx, vy, vz, 0.0),
      HZ(qx, qy, qz, qw, vx, vy, vz, 0.0), HW(qx, qy, qz, qw, vx, vy, vz, 0.0),
      HZ(HX(qx, qy, qz, qw, vx, vy, vz, 0.0), HY(qx, qy, qz, qw, vx, vy, vz, 0.0),
         HZ(qx, qy, qz, qw, vx, vy, vz, 0.0), HW(qx, qy, qz, qw, vx, vy, vz, 0.0), -qx, -qy, -qz, qw));
  }

  lemma SandwichZ(qx: real, qy: real, qz: real, qw: real, vx: real, vy: real, vz: real)
    requires qx * qx + qy * qy + qz * qz + qw * qw == 1.0
    ensures HZ(HX(qx, qy, qz, qw, vx, vy, vz, 0.0), HY(qx, qy, qz, qw, vx, vy, vz, 0.0),
               HZ(qx, qy, qz, qw, vx, vy, vz, 0.0), HW(qx, qy, qz, qw, vx, vy, vz, 0.0), -qx, -qy, -qz, qw)
         == ApplyZr(qx, qy, qz, qw, vx, vy, vz)
  {
    SandwichGeneralZ(qx, qy, qz, qw, vx, vy, vz);
  }

  lemma SandwichW(qx: real, qy: real, qz: real, qw: real, vx: real, vy: real, vz: real)
    ensures HW(HX(qx, qy, qz, qw, vx, vy, vz, 0.0), HY(qx, qy, qz, qw, vx, vy, vz, 0.0),
               HZ(qx, qy, qz, qw, vx, vy, vz, 0.0), HW(qx, qy, qz, qw, vx, vy, vz, 0.0), -qx, -qy, -qz, qw)
         == 0.0
  {
    SandwichCoreW(qx, qy, qz, qw, vx, vy, vz,
      HX(qx, qy, qz, qw, vx, vy, vz, 0.0), HY(qx, qy, qz, qw, vx, vy, vz, 0.0),
      HZ(qx, qy, qz, qw, vx, vy, vz, 0.0), HW(qx, qy, qz, qw, vx, vy, vz, 0.0),
      HW(HX(qx, qy, qz, qw, vx, vy, vz, 0.0), HY(qx, qy, qz, qw, vx, vy, vz, 0.0),
         HZ(qx, qy, qz, qw, vx, vy, vz, 0.0), HW(qx, qy, qz, qw, vx, vy, vz, 0.0), -qx, -qy, -qz, qw));
  }

  lemma SandwichParts(q: Quaternion, v: Vector3)
    ensures var p := Hamilton(q, Pure(v));
      && p == Quaternion(HX(q.x, q.y, q.z, q.w, v.x, v.y, v.z, 0.0), HY(q.x, q.y, q.z, q.w, v.x, v.y, v.z, 0.0),
                         HZ(q.x, q.y, q.z, q.w, v.x, v.y, v.z, 0.0), HW(q.x, q.y, q.z, q.w, v.x, v.y, v.z, 0.0))
      && Hamilton(p, Conjugated(q))
         == Quaternion(HX(p.x, p.y, p.z, p.w, -q.x, -q.y, -q.z, q.w), HY(p.x, p.y, p.z, p.w, -q.x, -q.y, -q.z, q.w),
                       HZ(p.x, p.y, p.z, p.w, -q.x, -q.y, -q.z, q.w), HW(p.x, p.y, p.z, p.w, -q.x, -q.y, -q.z, q.w))
  {
  }

  /**
   * For a unit quaternion, `Apply(q, v)` is the vector part of the
   * product q·(v,0)·q⁻¹ (q⁻¹ being the conjugate), whose scalar part is 0.
   */
  lemma ApplyIsSandwich(q: Quaternion, v: Vector3)
    requires MagnitudeSqr(q) == 1.0
    ensures Pure(Apply(q, v)) == Hamilton(Hamilton(q, Pure(v)), Conjugated(q))
  {
    ApplyComponents(q, v);
    SandwichParts(q, v);
    SandwichX(q.x, q.y, q.z, q.w, v.x, v.y, v.z);
    SandwichY(q.x, q.y, q.z, q.w, v.x, v.y, v.z);
    SandwichZ(q.x, q.y, q.z, q.w, v.x, v.y, v.z);
    SandwichW(q.x, q.y, q.z, q.w, v.x, v.y, v.z);
  }

  /** Conjugating by `p` and then by its inverse gives back `x`. */
  lemma SandwichCancels(p: Quaternion, x: Quaternion)
    requires MagnitudeSqr(p) == 1.0
    ensures Hamilton(Hamilton(p, Hamilton(Hamilton(Conjugated(p), x), p)), Conjugated(p)) == x
  {
    var c := Conjugated(p);
    HamiltonConjugate(p);
    assert Hamilton(p, c) == Identity;
    HamiltonAssociative(p, Hamilton(c, x), p);
    HamiltonAssociative(p, c, x);
    HamiltonIdentity(x);
    assert Hamilton(p, Hamilton(Hamilton(c, x), p)) == Hamilton(x, p);
    HamiltonAssociative(x, p, c);
    HamiltonIdentity(x);
  }

  /** Rotating by the conjugate undoes a rotation by a unit quaternion. */
  lemma ApplyInverse(q: Quaternion, v: Vector3)
    requires MagnitudeSqr(q) == 1.0
    ensures Apply(q, Apply(Conjugated(q), v)) == v
    ensures Apply(Conjugated(q), Apply(q, v)) == v
  {
    var c := Conjugated(q);
    ConjugatedInvolution(q);
    ApplyIsSandwich(c, v);
    ApplyIsSandwich(q, Apply(c, v));
    SandwichCancels(q, Pure(v));
    ApplyIsSandwich(q, v);
    ApplyIsSandwich(c, Apply(q, v));
    SandwichCancels(c, Pure(v));
  }

  /** `cq`⁻¹·q·`cq`: `q` expressed in the frame that `cq` rotates to. */
  function ConvertQuaternion(cq: Quaternion, q: Quaternion): Quaternion {
    Mult(Mult(Conjugated(cq), q), cq)
  }

  /** The cross product divided by its length, or +z when that length is 0. */
  function RotationAxis(v: Vector3, sinT: real): (axis: Vector3)
    ensures sinT == 0.0 ==> axis == Vector3(0.0, 0.0, 1.0)
  {
    if Abs(sinT) > 0.0 then DivV(v, sinT) else Vector3(0.0, 0.0, 1.0)
  }

  /** max(0, (1 - cos)/2): the squared half-angle sine, clamped at 0. */
  function ClampedHalfVersine(c: real): (h: real)
    ensures 0.0 <= h && 0.5 - 0.5 * c <= h
    ensures h == 0.0 || h == 0.5 - 0.5 * c
  {
    if 0.5 - 0.5 * c < 0.0 then 0.0 else 0.5 - 0.5 * c
  }

  /**
   * The rotation about `axis` by the angle whose cosine is `cos`: the axis
   * scaled by the half-angle sine, and the half-angle cosine.
   */
  function HalfAngleRotation(m: Maths, axis: Vector3, cos: real): Quaternion {
    var sinp := m.sqrt(ClampedHalfVersine(cos));
    var cosp := m.sqrt(0.5 + 0.5 * cos);
    Quaternion(axis.x * sinp, axis.y * sinp, axis.z * sinp, cosp)
  }

  /**
   * The body of fromToRotation once both directions are normalised, as the
   * source writes it: when the cross product has length 0 the axis is +z,
   * whichever way the two directions point.
   */
  function RotationBetweenAsWritten(m: Maths, fromT: Vector3, toT: Vector3): Quaternion {
    var v := Cross(fromT, toT);
    HalfAngleRotation(m, RotationAxis(v, Length(m, v)), Dot(fromT, toT))
  }

  /**
   * fromToRotation as the source writes it: directions whose normalised
   * cross product has length 0 are turned about +z alone.
   */
  function FromToRotationAsWritten(m: Maths, from: Vector3, to: Vector3): (r: Quaternion)
    requires m.SqrtExact()
    ensures Length(m, Cross(NormalizedV(m, from), NormalizedV(m, to))) == 0.0 ==> r.x == 0.0 && r.y == 0.0
  {
    RotationBetweenAsWritten(m, NormalizedV(m, from), NormalizedV(m, to))
  }

  /**
   * A unit axis perpendicular to the unit vector `a`: +z with its component
   * along `a` removed, or +y when `a` lies along z.
   */
  function FallbackAxis(m: Maths, a: Vector3): Vector3 {
    var p := ZWithout(a);
    var len := Length(m, p);
    if len != 0.0 then DivV(p, len) else Up
  }

  /** +z minus its component along `a`, for a unit vector `a`. */
  function ZWithout(a: Vector3): Vector3 {
    Vector3(-a.x * a.z, -a.y * a.z, 1.0 - a.z * a.z)
  }

  lemma ZWithoutPerpendicular(a: Vector3)
    requires LengthSqr(a) == 1.0
    ensures Dot(ZWithout(a), a) == 0.0
  {
    assert Dot(ZWithout(a), a) == a.z * (1.0 - LengthSqr(a));
  }

  /**
   * The shortest-arc rotation from the normalised `fromT` to the normalised
   * `toT`, with opposite directions turned half a turn about an axis
   * perpendicular to `fromT` (which is +z whenever +z is perpendicular).
   */
  function RotationBetween(m: Maths, fromT: Vector3, toT: Vector3): Quaternion {
    var v := Cross(fromT, toT);
    var sinT := Length(m, v);
    var cos := Dot(fromT, toT);
    var axis := if Abs(sinT) == 0.0 && cos < 0.0 then FallbackAxis(m, fromT) else RotationAxis(v, sinT);
    HalfAngleRotation(m, axis, cos)
  }

  /**
   * The corrected rotation taking direction `from` to direction `to`; both
   * are normalised first.  It is the source's unless the normalised
   * directions are opposite and +z is not perpendicular to the first.
   */
  function FromToRotation(m: Maths, from: Vector3, to: Vector3): (r: Quaternion)
    requires m.SqrtExact()
    ensures var a := NormalizedV(m, from);
      var b := NormalizedV(m, to);
      Abs(Length(m, Cross(a, b))) != 0.0 || 0.0 <= Dot(a, b) || a.z == 0.0 ==> r == FromToRotationAsWritten(m, from, to)
  {
    var a := NormalizedV(m, from);
    var b := NormalizedV(m, to);
    if a.z == 0.0 then
      FallbackAxisKeepsZ(m, a);
      RotationBetween(m, a, b)
    else
      RotationBetween(m, a, b)
  }

  lemma RotationBetweenParallel(m: Maths, fromT: Vector3, toT: Vector3)
    requires Length(m, Cross(fromT, toT)) == 0.0
    ensures var r := RotationBetweenAsWritten(m, fromT, toT);
      && r.x == 0.0 && r.y == 0.0
      && r.z == m.sqrt(ClampedHalfVersine(Dot(fromT, toT)))
  {
  }

  /**
   * As written, when the cross product of the normalised directions has
   * length 0 (they are parallel) the rotation axis is +z, scaled by the
   * root of the clamped half-versine.
   */
  lemma FromToRotationParallel(m: Maths, from: Vector3, to: Vector3)
    requires m.SqrtExact()
    requires Length(m, Cross(NormalizedV(m, from), NormalizedV(m, to))) == 0.0
    ensures var r := FromToRotationAsWritten(m, from, to);
      && r.x == 0.0 && r.y == 0.0
      && r.z == m.sqrt(ClampedHalfVersine(Dot(NormalizedV(m, from), NormalizedV(m, to))))
      && 0.0 <= r.z
  {
    var fromT := NormalizedV(m, from);
    var toT := NormalizedV(m, to);
    RotationBetweenParallel(m, fromT, toT);
    assert m.RootArg(ClampedHalfVersine(Dot(fromT, toT)));
  }

  /**
   * As written, turning forward (+z) to backward gives the half turn about
   * +z itself, which leaves forward where it was.
   */
  lemma FromToRotationAsWrittenBackward(m: Maths)
    requires m.SqrtExact()
    ensures FromToRotationAsWritten(m, Forward, Backward) == ZHalfTurn
    ensures Apply(ZHalfTurn, Forward) == Forward
  {
    ForwardBackwardRotation(m);
    ZHalfTurnFixesForward();
  }

  lemma ForwardBackwardRotation(m: Maths)
    requires m.SqrtExact()
    ensures FromToRotationAsWritten(m, Forward, Backward) == ZHalfTurn
  {
    ForwardBackwardNormalized(m);
    ForwardBackwardOpposite(m);
    RotationBetweenAsWrittenOpposite(m, Forward, Backward);
  }

  lemma ForwardBackwardNormalized(m: Maths)
    requires m.SqrtExact()
    ensures NormalizedV(m, Forward) == Forward && NormalizedV(m, Backward) == Backward
  {
    assert LengthSqr(Forward) == 1.0 && LengthSqr(Backward) == 1.0;
  }

  lemma ForwardBackwardOpposite(m: Maths)
    requires m.SqrtExact()
    ensures Length(m, Cross(Forward, Backward)) == 0.0 && Dot(Forward, Backward) == -1.0
  {
    ForwardCrossBackward();
    LengthZero(m);
  }

  lemma ForwardCrossBackward()
    ensures Cross(Forward, Backward) == Zero && Dot(Forward, Backward) == -1.0
  {
  }

  lemma LengthZero(m: Maths)
    requires m.SqrtExact()
    ensures Length(m, Zero) == 0.0
  {
  }

  lemma ZHalfTurnFixesForward()
    ensures Apply(ZHalfTurn, Forward) == Forward
  {
    ApplyComponents(ZHalfTurn, Forward);
  }

  /** As written, opposite directions give half a turn about +z. */
  lemma RotationBetweenAsWrittenOpposite(m: Maths, a: Vector3, b: Vector3)
    requires m.SqrtExact()
    requires Length(m, Cross(a, b)) == 0.0 && Dot(a, b) == -1.0
    ensures RotationBetweenAsWritten(m, a, b) == ZHalfTurn
  {
    assert ClampedHalfVersine(-1.0) == 1.0;
    assert 0.5 + 0.5 * -1.0 == 0.0;
  }

  /** The scalar part is the half-angle cosine, the root of (1 + cos)/2. */
  lemma FromToRotationScalar(m: Maths, from: Vector3, to: Vector3)
    requires m.SqrtExact()
    requires -1.0 <= Dot(NormalizedV(m, from), NormalizedV(m, to))
    ensures var r := FromToRotation(m, from, to);
      var c := Dot(NormalizedV(m, from), NormalizedV(m, to));
      0.0 <= r.w && r.w * r.w == 0.5 + 0.5 * c
  {
    var c := Dot(NormalizedV(m, from), NormalizedV(m, to));
    assert m.RootArg(0.5 + 0.5 * c);
  }

  /** The rotation from a unit vector to itself is the identity. */
  lemma FromToRotationSelf(m: Maths, v: Vector3)
    requires m.SqrtExact()
    requires LengthSqr(v) == 1.0
    ensures FromToRotation(m, v, v) == Identity
  {
    assert NormalizedV(m, v) == v;
    assert Cross(v, v) == Zero;
    assert Dot(v, v) == 1.0;
  }

  /** |a × b|² + (a·b)² = |a|²·|b|² (Lagrange's identity). */
  lemma Lagrange(a: Vector3, b: Vector3)
    ensures LengthSqr(Cross(a, b)) + Dot(a, b) * Dot(a, b) == LengthSqr(a) * LengthSqr(b)
  {
  }

  /** Between unit vectors the cosine lies in [-1, 1] and the squared sine is 1 - cos². */
  lemma UnitCosine(a: Vector3, b: Vector3)
    requires LengthSqr(a) == 1.0 && LengthSqr(b) == 1.0
    ensures LengthSqr(Cross(a, b)) == 1.0 - Dot(a, b) * Dot(a, b)
    ensures -1.0 <= Dot(a, b) <= 1.0
  {
    Lagrange(a, b);
  }

  /** Two non-negative reals with the same square are equal. */
  lemma NonNegativeRootUnique(x: real, y: real)
    requires 0.0 <= x && 0.0 <= y && x * x == y * y
    ensures x == y
  {
    if x < y {
      calc {
        x * x;
      <= x * y;
      <  y * y;
      }
    } else if y < x {
      calc {
        y * y;
      <= y * x;
      <  x * x;
      }
    }
  }

  lemma ScaledAxisMagnitude(v: Vector3, s: real, w: real)
    ensures MagnitudeSqr(Quaternion(v.x * s, v.y * s, v.z * s, w)) == LengthSqr(v) * (s * s) + w * w
  {
  }

  /** About a unit axis, the half-angle rotation of a cosine in [-1, 1] is a unit quaternion. */
  lemma HalfAngleRotationUnit(m: Maths, axis: Vector3, cos: real)
    requires m.SqrtExact()
    requires LengthSqr(axis) == 1.0 && -1.0 <= cos <= 1.0
    ensures MagnitudeSqr(HalfAngleRotation(m, axis, cos)) == 1.0
  {
    var h := ClampedHalfVersine(cos);
    assert m.RootArg(h) && m.RootArg(0.5 + 0.5 * cos);
    var sinp := m.sqrt(h);
    var cosp := m.sqrt(0.5 + 0.5 * cos);
    ScaledAxisMagnitude(axis, sinp, cosp);
  }

  lemma DotScaled(p: Vector3, a: Vector3, k: real)
    ensures Dot(ScaleV(p, k), a) == k * Dot(p, a)
  {
  }

  /** The fallback axis is a unit vector perpendicular to the unit vector `a`. */
  lemma FallbackAxisPerpendicular(m: Maths, a: Vector3)
    requires m.SqrtExact()
    requires LengthSqr(a) == 1.0
    ensures LengthSqr(FallbackAxis(m, a)) == 1.0
    ensures Dot(FallbackAxis(m, a), a) == 0.0
  {
    var p := ZWithout(a);
    ZWithoutPerpendicular(a);
    assert m.RootArg(LengthSqr(p));
    var len := Length(m, p);
    if len != 0.0 {
      DividedPerpendicular(p, a, len);
    } else {
      ZWithoutVanishes(a);
    }
  }

  /** Removing the component along `a` leaves nothing of +z only when `a` lies along z. */
  lemma ZWithoutVanishes(a: Vector3)
    requires LengthSqr(ZWithout(a)) == 0.0
    ensures a.x == 0.0 && a.y == 0.0
  {
    SquaresZero(-a.x * a.z, -a.y * a.z, 1.0 - a.z * a.z);
    assert a.z != 0.0;
    assert a.x * a.z == 0.0 && a.y * a.z == 0.0;
  }

  /** A vector perpendicular to `a`, divided by its positive length: a unit vector still perpendicular to `a`. */
  lemma DividedPerpendicular(p: Vector3, a: Vector3, len: real)
    requires 0.0 < len && len * len == LengthSqr(p) && Dot(p, a) == 0.0
    ensures LengthSqr(DivV(p, len)) == 1.0 && Dot(DivV(p, len), a) == 0.0
  {
    DivVUnit(p, len);
    var k := 1.0 / len;
    assert DivV(p, len) == ScaleV(p, k);
    DotScaled(p, a, k);
  }

  /** Whenever +z is perpendicular to `a`, the fallback axis is +z, as in the source. */
  lemma FallbackAxisKeepsZ(m: Maths, a: Vector3)
    requires m.SqrtExact()
    requires a.z == 0.0
    ensures FallbackAxis(m, a) == Vector3(0.0, 0.0, 1.0)
  {
    assert ZWithout(a) == Vector3(0.0, 0.0, 1.0);
  }

  /**
   * The correction changes nothing unless the directions are opposite and
   * +z is not perpendicular to `fromT`.
   */
  lemma RotationBetweenAgrees(m: Maths, fromT: Vector3, toT: Vector3)
    requires m.SqrtExact()
    requires Abs(Length(m, Cross(fromT, toT))) != 0.0 || 0.0 <= Dot(fromT, toT) || fromT.z == 0.0
    ensures RotationBetween(m, fromT, toT) == RotationBetweenAsWritten(m, fromT, toT)
  {
    if fromT.z == 0.0 {
      FallbackAxisKeepsZ(m, fromT);
    }
  }

  /** For unit directions the rotation is a unit quaternion. */
  lemma RotationBetweenUnit(m: Maths, a: Vector3, b: Vector3)
    requires m.SqrtExact()
    requires LengthSqr(a) == 1.0 && LengthSqr(b) == 1.0
    ensures MagnitudeSqr(RotationBetween(m, a, b)) == 1.0
  {
    UnitCosine(a, b);
    var v := Cross(a, b);
    if Abs(Length(m, v)) == 0.0 && Dot(a, b) < 0.0 {
      FallbackAxisPerpendicular(m, a);
      HalfAngleRotationUnit(m, FallbackAxis(m, a), Dot(a, b));
    } else {
      RotationAxisUnit(m, v);
      HalfAngleRotationUnit(m, RotationAxis(v, Length(m, v)), Dot(a, b));
    }
  }

  /** The axis taken from a cross product of length `Length(m, v)` is a unit vector. */
  lemma RotationAxisUnit(m: Maths, v: Vector3)
    requires m.SqrtExact()
    ensures LengthSqr(RotationAxis(v, Length(m, v))) == 1.0
  {
    assert m.RootArg(LengthSqr(v));
    if Abs(Length(m, v)) > 0.0 {
      DivVUnit(v, Length(m, v));
    }
  }

  // Rotating `a` about k·(a × b) with scalar part w gives a combination of
  // `a` and `b`; the two weights depend only on the cosine `c`, the squared
  // lengths `aa` and `bb`, k and w.

  function WeightA(c: real, aa: real, bb: real, k: real, w: real): real {
    1.0 + 2.0 * k * k * (c * c - aa * bb) - 2.0 * w * k * c
  }

  function WeightB(aa: real, k: real, w: real): real {
    2.0 * w * k * aa
  }

  /** The quaternion with vector part k·n and scalar part w. */
  function AxisRotation(n: Vector3, k: real, w: real): Quaternion {
    Quaternion(k * n.x, k * n.y, k * n.z, w)
  }

  // The steps below are stated over plain reals, each of low degree: one
  // component of a rotation about k·n, the three facts about n = a × b that
  // it needs, and the resulting weights.  The components Y and Z are the
  // X statements with the coordinates taken in cyclic order.

  /** One component of rotating v about k·n with scalar part w: v + 2(k²(n(n·v) - v|n|²) + kw(n × v)). */
  lemma AxisTurnTerm(k: real, w: real, nx: real, ny: real, nz: real, vx: real, vy: real, vz: real,
                     d: real, nn: real, cx: real, r: real)
    requires d == nx * vx + ny * vy + nz * vz
    requires nn == nx * nx + ny * ny + nz * nz
    requires cx == ny * vz - nz * vy
    requires r == vx + ((k * ny) * (((k * nx) * vy - (k * ny) * vx) + vz * w)
                      - (k * nz) * (((k * nz) * vx - (k * nx) * vz) + vy * w)) * 2.0
    ensures r == vx + 2.0 * (k * k * (nx * d - vx * nn) + k * w * cx)
  {
  }

  /** n = a × b is perpendicular to a. */
  lemma CrossPerpendicular(ax: real, ay: real, az: real, bx: real, bY: real, bz: real, nx: real, ny: real, nz: real)
    requires nx == ay * bz - az * bY && ny == az * bx - ax * bz && nz == ax * bY - ay * bx
    ensures nx * ax + ny * ay + nz * az == 0.0
  {
  }

  /** |a × b|² = |a|²|b|² - (a·b)². */
  lemma CrossLengthSqr(ax: real, ay: real, az: real, bx: real, bY: real, bz: real, nx: real, ny: real, nz: real,
                       c: real, aa: real, bb: real)
    requires nx == ay * bz - az * bY && ny == az * bx - ax * bz && nz == ax * bY - ay * bx
    requires c == ax * bx + ay * bY + az * bz
    requires aa == ax * ax + ay * ay + az * az && bb == bx * bx + bY * bY + bz * bz
    ensures nx * nx + ny * ny + nz * nz == aa * bb - c * c
  {
  }

  /** The first component of (a × b) × a is b|a|² - a(a·b). */
  lemma CrossBack(ax: real, ay: real, az: real, bx: real, bY: real, bz: real, nx: real, ny: real, nz: real,
                  c: real, aa: real)
    requires nx == ay * bz - az * bY && ny == az * bx - ax * bz && nz == ax * bY - ay * bx
    requires c == ax * bx + ay * bY + az * bz
    requires aa == ax * ax + ay * ay + az * az
    ensures ny * az - nz * ay == bx * aa - ax * c
  {
  }

  lemma AxisTurnWeights(ax: real, bx: real, k: real, w: real, c: real, aa: real, bb: real,
                        d: real, nn: real, cx: real, nx: real)
    requires d == 0.0 && nn == aa * bb - c * c && cx == bx * aa - ax * c
    ensures ax + 2.0 * (k * k * (nx * d - ax * nn) + k * w * cx)
         == ax * WeightA(c, aa, bb, k, w) + bx * WeightB(aa, k, w)
  {
  }

  /** One component of rotating a about k·(a × b), over plain reals. */
  lemma AxisTurnCore(ax: real, ay: real, az: real, bx: real, bY: real, bz: real, k: real, w: real,
                     nx: real, ny: real, nz: real, c: real, aa: real, bb: real, r: real)
    requires nx == ay * bz - az * bY && ny == az * bx - ax * bz && nz == ax * bY - ay * bx
    requires c == ax * bx + ay * bY + az * bz
    requires aa == ax * ax + ay * ay + az * az && bb == bx * bx + bY * bY + bz * bz
    requires r == ax + ((k * ny) * (((k * nx) * ay - (k * ny) * ax) + az * w)
                      - (k * nz) * (((k * nz) * ax - (k * nx) * az) + ay * w)) * 2.0
    ensures r == ax * WeightA(c, aa, bb, k, w) + bx * WeightB(aa, k, w)
  {
    var d, nn, cx := nx * ax + ny * ay + nz * az, nx * nx + ny * ny + nz * nz, ny * az - nz * ay;
    AxisTurnTerm(k, w, nx, ny, nz, ax, ay, az, d, nn, cx, r);
    CrossPerpendicular(ax, ay, az, bx, bY, bz, nx, ny, nz);
    CrossLengthSqr(ax, ay, az, bx, bY, bz, nx, ny, nz, c, aa, bb);
    CrossBack(ax, ay, az, bx, bY, bz, nx, ny, nz, c, aa);
    AxisTurnWeights(ax, bx, k, w, c, aa, bb, d, nn, cx, nx);
  }

  /** u·wa + v·wb, one component of the combination of two vectors. */
  function Blend(u: real, v: real, wa: real, wb: real): real {
    u * wa + v * wb
  }

  /** One component of rotating a about k·(a × b), over plain reals. */
  lemma AxisTurnReal(ax: real, ay: real, az: real, bx: real, bY: real, bz: real, k: real, w: real,
                     nx: real, ny: real, nz: real, c: real, aa: real, bb: real)
    requires nx == ay * bz - az * bY && ny == az * bx - ax * bz && nz == ax * bY - ay * bx
    requires c == ax * bx + ay * bY + az * bz
    requires aa == ax * ax + ay * ay + az * az && bb == bx * bx + bY * bY + bz * bz
    ensures ApplyXr(k * nx, k * ny, k * nz, w, ax, ay, az) == Blend(ax, bx, WeightA(c, aa, bb, k, w), WeightB(aa, k, w))
  {
    AxisTurnCore(ax, ay, az, bx, bY, bz, k, w, nx, ny, nz, c, aa, bb, ApplyXr(k * nx, k * ny, k * nz, w, ax, ay, az));
  }

  // The vector operations on vectors built from plain coordinates.

  lemma CrossExpand(ax: real, ay: real, az: real, bx: real, bY: real, bz: real)
    ensures Cross(Vector3(ax, ay, az), Vector3(bx, bY, bz)) == Vector3(ay * bz - az * bY, az * bx - ax * bz, ax * bY - ay * bx)
  {
  }

  lemma DotExpand(ax: real, ay: real, az: real, bx: real, bY: real, bz: real)
    ensures Dot(Vector3(ax, ay, az), Vector3(bx, bY, bz)) == ax * bx + ay * bY + az * bz
  {
  }

  lemma LengthSqrExpand(ax: real, ay: real, az: real)
    ensures LengthSqr(Vector3(ax, ay, az)) == ax * ax + ay * ay + az * az
  {
  }

  lemma AxisRotationExpand(nx: real, ny: real, nz: real, k: real, w: real)
    ensures AxisRotation(Vector3(nx, ny, nz), k, w) == Quaternion(k * nx, k * ny, k * nz, w)
  {
  }

  /** The second and third components of `Apply` are the first one with the coordinates rotated. */
  lemma ApplyCyclic(qx: real, qy: real, qz: real, qw: real, vx: real, vy: real, vz: real)
    ensures ApplyYr(qx, qy, qz, qw, vx, vy, vz) == ApplyXr(qy, qz, qx, qw, vy, vz, vx)
    ensures ApplyZr(qx, qy, qz, qw, vx, vy, vz) == ApplyXr(qz, qx, qy, qw, vz, vx, vy)
  {
  }

  // One component of rotating `a` about k·(a × b), for vectors whose
  // coordinates, cross product and products are also given as plain reals.

  lemma ScaledAxisX(a: Vector3, b: Vector3, k: real, w: real,
                    ax: real, ay: real, az: real, bx: real, bY: real, bz: real,
                    n: Vector3, nx: real, ny: real, nz: real, c: real, aa: real, bb: real)
    requires a == Vector3(ax, ay, az) && b == Vector3(bx, bY, bz) && n == Vector3(nx, ny, nz)
    requires n == Cross(a, b) && c == Dot(a, b) && aa == LengthSqr(a) && bb == LengthSqr(b)
    ensures var q := AxisRotation(Cross(a, b), k, w);
      ApplyXr(q.x, q.y, q.z, q.w, a.x, a.y, a.z)
        == Blend(a.x, b.x, WeightA(Dot(a, b), LengthSqr(a), LengthSqr(b), k, w), WeightB(LengthSqr(a), k, w))
  {
    CrossExpand(ax, ay, az, bx, bY, bz);
    DotExpand(ax, ay, az, bx, bY, bz);
    LengthSqrExpand(ax, ay, az);
    LengthSqrExpand(bx, bY, bz);
    AxisRotationExpand(nx, ny, nz, k, w);
    AxisTurnReal(ax, ay, az, bx, bY, bz, k, w, nx, ny, nz, c, aa, bb);
  }

  lemma ScaledAxisY(a: Vector3, b: Vector3, k: real, w: real,
                    ax: real, ay: real, az: real, bx: real, bY: real, bz: real,
                    n: Vector3, nx: real, ny: real, nz: real, c: real, aa: real, bb: real)
    requires a == Vector3(ax, ay, az) && b == Vector3(bx, bY, bz) && n == Vector3(nx, ny, nz)
    requires n == Cross(a, b) && c == Dot(a, b) && aa == LengthSqr(a) && bb == LengthSqr(b)
    ensures var q := AxisRotation(Cross(a, b), k, w);
      ApplyYr(q.x, q.y, q.z, q.w, a.x, a.y, a.z)
        == Blend(a.y, b.y, WeightA(Dot(a, b), LengthSqr(a), LengthSqr(b), k, w), WeightB(LengthSqr(a), k, w))
  {
    CrossExpand(ax, ay, az, bx, bY, bz);
    DotExpand(ax, ay, az, bx, bY, bz);
    LengthSqrExpand(ax, ay, az);
    LengthSqrExpand(bx, bY, bz);
    AxisRotationExpand(nx, ny, nz, k, w);
    ApplyCyclic(k * nx, k * ny, k * nz, w, ax, ay, az);
    AxisTurnReal(ay, az, ax, bY, bz, bx, k, w, ny, nz, nx, c, aa, bb);
  }

  lemma ScaledAxisZ(a: Vector3, b: Vector3, k: real, w: real,
                    ax: real, ay: real, az: real, bx: real, bY: real, bz: real,
                    n: Vector3, nx: real, ny: real, nz: real, c: real, aa: real, bb: real)
    requires a == Vector3(ax, ay, az) && b == Vector3(bx, bY, bz) && n == Vector3(nx, ny, nz)
    requires n == Cross(a, b) && c == Dot(a, b) && aa == LengthSqr(a) && bb == LengthSqr(b)
    ensures var q := AxisRotation(Cross(a, b), k, w);
      ApplyZr(q.x, q.y, q.z, q.w, a.x, a.y, a.z)
        == Blend(a.z, b.z, WeightA(Dot(a, b), LengthSqr(a), LengthSqr(b), k, w), WeightB(LengthSqr(a), k, w))
  {
    CrossExpand(ax, ay, az, bx, bY, bz);
    DotExpand(ax, ay, az, bx, bY, bz);
    LengthSqrExpand(ax, ay, az);
    LengthSqrExpand(bx, bY, bz);
    AxisRotationExpand(nx, ny, nz, k, w);
    ApplyCyclic(k * nx, k * ny, k * nz, w, ax, ay, az);
    AxisTurnReal(az, ax, ay, bz, bx, bY, k, w, nz, nx, ny, c, aa, bb);
  }

  lemma CombinationParts(a: Vector3, b: Vector3, wa: real, wb: real)
    ensures Plus(ScaleV(a, wa), ScaleV(b, wb)) == Vector3(Blend(a.x, b.x, wa, wb), Blend(a.y, b.y, wa, wb), Blend(a.z, b.z, wa, wb))
  {
  }

  /** Rotating `a` about k·(a × b): a combination of `a` and `b`. */
  lemma ApplyScaledAxis(a: Vector3, b: Vector3, k: real, w: real)
    ensures Apply(AxisRotation(Cross(a, b), k, w), a)
        == Plus(ScaleV(a, WeightA(Dot(a, b), LengthSqr(a), LengthSqr(b), k, w)), ScaleV(b, WeightB(LengthSqr(a), k, w)))
  {
    var n := Cross(a, b);
    ApplyComponents(AxisRotation(n, k, w), a);
    CombinationParts(a, b, WeightA(Dot(a, b), LengthSqr(a), LengthSqr(b), k, w), WeightB(LengthSqr(a), k, w));
    ScaledAxisX(a, b, k, w, a.x, a.y, a.z, b.x, b.y, b.z, n, n.x, n.y, n.z, Dot(a, b), LengthSqr(a), LengthSqr(b));
    ScaledAxisY(a, b, k, w, a.x, a.y, a.z, b.x, b.y, b.z, n, n.x, n.y, n.z, Dot(a, b), LengthSqr(a), LengthSqr(b));
    ScaledAxisZ(a, b, k, w, a.x, a.y, a.z, b.x, b.y, b.z, n, n.x, n.y, n.z, Dot(a, b), LengthSqr(a), LengthSqr(b));
  }

  /** The weights at the shortest-arc rotation between unit vectors: 0 and 1. */
  lemma ShortestArcWeights(c: real, len: real, sinp: real, cosp: real)
    requires 0.0 < len && len * len == 1.0 - c * c
    requires 0.0 <= sinp && sinp * sinp == 0.5 - 0.5 * c
    requires 0.0 <= cosp && cosp * cosp == 0.5 + 0.5 * c
    ensures WeightA(c, 1.0, 1.0, sinp / len, cosp) == 0.0 && WeightB(1.0, sinp / len, cosp) == 1.0
  {
    var k := sinp / len;
    assert (2.0 * cosp * sinp) * (2.0 * cosp * sinp) == 4.0 * (cosp * cosp) * (sinp * sinp);
    NonNegativeRootUnique(2.0 * cosp * sinp, len);
    assert k * len == sinp;
    calc {
      2.0 * cosp * k;
      (2.0 * cosp * sinp) / len;
      1.0;
    }
    calc {
      1.0 + 2.0 * k * k * (c * c - 1.0) - 2.0 * cosp * k * c;
      1.0 - 2.0 * ((k * len) * (k * len)) - (2.0 * cosp * k) * c;
      1.0 - 2.0 * (sinp * sinp) - c;
      0.0;
    }
  }

  lemma DivSwap(x: real, len: real, s: real)
    requires len != 0.0
    ensures (x / len) * s == (s / len) * x
  {
  }

  lemma SkewAxis(m: Maths, a: Vector3, b: Vector3)
    requires Abs(Length(m, Cross(a, b))) > 0.0
    ensures RotationBetween(m, a, b) == HalfAngleRotation(m, DivV(Cross(a, b), Length(m, Cross(a, b))), Dot(a, b))
  {
  }

  lemma DividedAxis(m: Maths, n: Vector3, len: real, c: real)
    requires len != 0.0
    ensures var k := m.sqrt(ClampedHalfVersine(c)) / len;
      HalfAngleRotation(m, DivV(n, len), c) == AxisRotation(n, k, m.sqrt(0.5 + 0.5 * c))
  {
    var sinp := m.sqrt(ClampedHalfVersine(c));
    DivSwap(n.x, len, sinp);
    DivSwap(n.y, len, sinp);
    DivSwap(n.z, len, sinp);
  }

  /** The weights at the model's roots, for a cosine strictly inside (-1, 1). */
  lemma SkewRootWeights(m: Maths, c: real, lsq: real)
    requires m.SqrtExact()
    requires -1.0 <= c <= 1.0 && 0.0 <= lsq && lsq == 1.0 - c * c
    requires Abs(m.sqrt(lsq)) > 0.0
    ensures var k := m.sqrt(ClampedHalfVersine(c)) / m.sqrt(lsq);
      var w := m.sqrt(0.5 + 0.5 * c);
      WeightA(c, 1.0, 1.0, k, w) == 0.0 && WeightB(1.0, k, w) == 1.0
  {
    var h := ClampedHalfVersine(c);
    assert m.RootArg(lsq) && m.RootArg(h) && m.RootArg(0.5 + 0.5 * c);
    ShortestArcWeights(c, m.sqrt(lsq), m.sqrt(h), m.sqrt(0.5 + 0.5 * c));
  }

  lemma UnitWeights(a: Vector3, b: Vector3, q: Quaternion, k: real, w: real)
    requires LengthSqr(a) == 1.0 && LengthSqr(b) == 1.0
    requires q == AxisRotation(Cross(a, b), k, w)
    requires WeightA(Dot(a, b), 1.0, 1.0, k, w) == 0.0 && WeightB(1.0, k, w) == 1.0
    ensures Apply(q, a) == b
  {
    ApplyScaledAxis(a, b, k, w);
    assert LengthSqr(a) * LengthSqr(b) == 1.0;
  }

  /** Between directions that are not parallel, the rotation is about k·(a × b). */
  lemma SkewRotation(m: Maths, a: Vector3, b: Vector3)
    requires Abs(Length(m, Cross(a, b))) > 0.0
    ensures var n := Cross(a, b);
      var c := Dot(a, b);
      var k := m.sqrt(ClampedHalfVersine(c)) / Length(m, n);
      RotationBetween(m, a, b) == AxisRotation(n, k, m.sqrt(0.5 + 0.5 * c))
  {
    SkewAxis(m, a, b);
    DividedAxis(m, Cross(a, b), Length(m, Cross(a, b)), Dot(a, b));
  }

  /** Between unit vectors that are not parallel, the rotation takes the first onto the second. */
  lemma RotationBetweenMapsSkew(m: Maths, a: Vector3, b: Vector3)
    requires m.SqrtExact()
    requires LengthSqr(a) == 1.0 && LengthSqr(b) == 1.0
    requires Abs(Length(m, Cross(a, b))) > 0.0
    ensures Apply(RotationBetween(m, a, b), a) == b
  {
    var n := Cross(a, b);
    var c := Dot(a, b);
    var k := m.sqrt(ClampedHalfVersine(c)) / Length(m, n);
    var w := m.sqrt(0.5 + 0.5 * c);
    SkewRotation(m, a, b);
    UnitCosine(a, b);
    SkewRootWeights(m, c, LengthSqr(n));
    UnitWeights(a, b, RotationBetween(m, a, b), k, w);
  }

  lemma HalfTurnX(u: Vector3, a: Vector3)
    ensures ApplyXr(u.x, u.y, u.z, 0.0, a.x, a.y, a.z) == a.x + 2.0 * (u.x * Dot(u, a) - a.x * LengthSqr(u))
  {
  }

  lemma HalfTurnY(u: Vector3, a: Vector3)
    ensures ApplyYr(u.x, u.y, u.z, 0.0, a.x, a.y, a.z) == a.y + 2.0 * (u.y * Dot(u, a) - a.y * LengthSqr(u))
  {
  }

  lemma HalfTurnZ(u: Vector3, a: Vector3)
    ensures ApplyZr(u.x, u.y, u.z, 0.0, a.x, a.y, a.z) == a.z + 2.0 * (u.z * Dot(u, a) - a.z * LengthSqr(u))
  {
  }

  /** Half a turn about a unit axis perpendicular to `a` reverses `a`. */
  lemma HalfTurnReverses(u: Vector3, a: Vector3)
    requires LengthSqr(u) == 1.0 && Dot(u, a) == 0.0
    ensures Apply(Quaternion(u.x, u.y, u.z, 0.0), a) == Minus(a)
  {
    ApplyComponents(Quaternion(u.x, u.y, u.z, 0.0), a);
    HalfTurnX(u, a);
    HalfTurnY(u, a);
    HalfTurnZ(u, a);
  }

  lemma HalfTurnAbout(q: Quaternion, u: Vector3, a: Vector3)
    requires LengthSqr(u) == 1.0 && Dot(u, a) == 0.0
    requires q == Quaternion(u.x, u.y, u.z, 0.0)
    ensures Apply(q, a) == Minus(a)
  {
    HalfTurnReverses(u, a);
  }

  /** A product kept whole, so that what is known of its sign is not rewritten away. */
  function Product(a: real, b: real): real {
    a * b
  }

  lemma ProductPositive(a: real, b: real)
    requires 0.0 < a && 0.0 < b
    ensures 0.0 < Product(a, b)
  {
  }

  /** The square of a non-zero real is positive. */
  lemma SquarePositive(x: real)
    requires x != 0.0
    ensures 0.0 < Product(x, x)
  {
    if x < 0.0 {
      ProductPositive(-x, -x);
      assert Product(-x, -x) == Product(x, x);
    } else {
      ProductPositive(x, x);
    }
  }

  lemma SquareNonNegative(x: real)
    ensures 0.0 <= x * x
  {
    if x != 0.0 {
      SquarePositive(x);
    }
  }

  /** Only (0, 0, 0) has a zero sum of squares. */
  lemma SquaresZero(x: real, y: real, z: real)
    requires x * x + y * y + z * z == 0.0
    ensures x == 0.0 && y == 0.0 && z == 0.0
  {
    assert Product(x, x) + Product(y, y) + Product(z, z) == 0.0;
    if x != 0.0 { SquarePositive(x); }
    if y != 0.0 { SquarePositive(y); }
    if z != 0.0 { SquarePositive(z); }
  }

  /** Unit vectors, given by their coordinates, whose cosine is 1 are equal. */
  lemma SameUnitCoordinates(ax: real, ay: real, az: real, bx: real, bY: real, bz: real)
    requires ax * ax + ay * ay + az * az == 1.0 && bx * bx + bY * bY + bz * bz == 1.0
    requires ax * bx + ay * bY + az * bz == 1.0
    ensures bx == ax && bY == ay && bz == az
  {
    assert (bx - ax) * (bx - ax) + (bY - ay) * (bY - ay) + (bz - az) * (bz - az) == 0.0;
    SquaresZero(bx - ax, bY - ay, bz - az);
  }

  /** Unit vectors whose cosine is 1 are equal. */
  lemma SameUnit(a: Vector3, b: Vector3)
    requires LengthSqr(a) == 1.0 && LengthSqr(b) == 1.0 && Dot(a, b) == 1.0
    ensures b == a
  {
    SameUnitCoordinates(a.x, a.y, a.z, b.x, b.y, b.z);
  }

  /** Unit vectors whose cosine is -1 are opposite. */
  lemma OppositeUnit(a: Vector3, b: Vector3)
    requires LengthSqr(a) == 1.0 && LengthSqr(b) == 1.0 && Dot(a, b) == -1.0
    ensures b == Minus(a)
  {
    SameUnitCoordinates(-a.x, -a.y, -a.z, b.x, b.y, b.z);
  }

  /** The reals whose square is 1 are 1 and -1. */
  lemma UnitSquare(c: real)
    requires c * c == 1.0
    ensures c == 1.0 || c == -1.0
  {
    assert (c - 1.0) * (c + 1.0) == 0.0;
  }

  lemma ApplyIdentity(v: Vector3)
    ensures Apply(Identity, v) == v
  {
    ApplyComponents(Identity, v);
  }

  /** From a unit vector to itself the rotation is the identity. */
  lemma RotationBetweenSame(m: Maths, a: Vector3)
    requires m.SqrtExact()
    requires LengthSqr(a) == 1.0
    ensures RotationBetween(m, a, a) == Identity
  {
    assert Cross(a, a) == Zero;
    assert ClampedHalfVersine(1.0) == 0.0;
  }

  /** When the cross product has length 0 and the cosine is -1, the rotation is half a turn about the fallback axis. */
  lemma RotationBetweenOpposite(m: Maths, a: Vector3, b: Vector3)
    requires m.SqrtExact()
    requires Length(m, Cross(a, b)) == 0.0 && Dot(a, b) == -1.0
    ensures var u := FallbackAxis(m, a);
      RotationBetween(m, a, b) == Quaternion(u.x, u.y, u.z, 0.0)
  {
    assert ClampedHalfVersine(-1.0) == 1.0;
    assert 0.5 + 0.5 * -1.0 == 0.0;
  }

  lemma CrossOpposite(a: Vector3)
    ensures Cross(a, Minus(a)) == Zero
  {
  }

  /** Half a turn about the fallback axis takes a unit vector to its opposite. */
  lemma RotationBetweenMapsOpposite(m: Maths, a: Vector3)
    requires m.SqrtExact()
    requires LengthSqr(a) == 1.0
    ensures Apply(RotationBetween(m, a, Minus(a)), a) == Minus(a)
  {
    var u := FallbackAxis(m, a);
    assert Length(m, Cross(a, Minus(a))) == 0.0 by {
      CrossOpposite(a);
    }
    assert Dot(a, Minus(a)) == -1.0;
    RotationBetweenOpposite(m, a, Minus(a));
    FallbackAxisPerpendicular(m, a);
    HalfTurnAbout(RotationBetween(m, a, Minus(a)), u, a);
  }

  /** Between unit vectors whose cross product has length 0, the cosine is 1 or -1. */
  lemma ParallelCosine(m: Maths, a: Vector3, b: Vector3)
    requires m.SqrtExact()
    requires LengthSqr(a) == 1.0 && LengthSqr(b) == 1.0
    requires Abs(Length(m, Cross(a, b))) == 0.0
    ensures Dot(a, b) == 1.0 || Dot(a, b) == -1.0
  {
    UnitCosine(a, b);
    assert m.RootArg(LengthSqr(Cross(a, b)));
    UnitSquare(Dot(a, b));
  }

  /**
   * Between any two unit vectors the rotation is a unit quaternion that
   * takes the first onto the second, opposite vectors included.
   */
  lemma RotationBetweenMaps(m: Maths, a: Vector3, b: Vector3)
    requires m.SqrtExact()
    requires LengthSqr(a) == 1.0 && LengthSqr(b) == 1.0
    ensures Apply(RotationBetween(m, a, b), a) == b
    ensures MagnitudeSqr(RotationBetween(m, a, b)) == 1.0
  {
    RotationBetweenUnit(m, a, b);
    if Abs(Length(m, Cross(a, b))) > 0.0 {
      RotationBetweenMapsSkew(m, a, b);
    } else {
      ParallelCosine(m, a, b);
      if Dot(a, b) == 1.0 {
        SameUnit(a, b);
        RotationBetweenSame(m, a);
        ApplyIdentity(a);
      } else {
        OppositeUnit(a, b);
        RotationBetweenMapsOpposite(m, a);
      }
    }
  }

  /**
   * When both directions normalise to unit vectors, the rotation is a unit
   * quaternion taking the normalised `from` onto the normalised `to`.
   */
  lemma FromToRotationMaps(m: Maths, from: Vector3, to: Vector3)
    requires m.SqrtExact()
    requires LengthSqr(NormalizedV(m, from)) == 1.0 && LengthSqr(NormalizedV(m, to)) == 1.0
    ensures Apply(FromToRotation(m, from, to), NormalizedV(m, from)) == NormalizedV(m, to)
    ensures MagnitudeSqr(FromToRotation(m, from, to)) == 1.0
  {
    RotationBetweenMaps(m, NormalizedV(m, from), NormalizedV(m, to));
  }

  /** The squared magnitude of a Hamilton product is the product of the squared magnitudes. */
  lemma HamiltonNorm(a: Quaternion, b: Quaternion)
    ensures MagnitudeSqr(Hamilton(a, b)) == MagnitudeSqr(a) * MagnitudeSqr(b)
  {
    NormOfProduct(a.x, a.y, a.z, a.w, b.x, b.y, b.z, b.w);
  }

  /** Rotating by a unit quaternion keeps a vector's length. */
  lemma ApplyPreservesLength(q: Quaternion, v: Vector3)
    requires MagnitudeSqr(q) == 1.0
    ensures LengthSqr(Apply(q, v)) == LengthSqr(v)
  {
    ApplyIsSandwich(q, v);
    HamiltonNorm(q, Pure(v));
    HamiltonNorm(Hamilton(q, Pure(v)), Conjugated(q));
    assert MagnitudeSqr(Pure(Apply(q, v))) == LengthSqr(Apply(q, v));
    assert MagnitudeSqr(Pure(v)) == LengthSqr(v);
  }

  /** The conjugate of a product is the product of the conjugates, swapped. */
  lemma ConjugatedHamilton(a: Quaternion, b: Quaternion)
    ensures Conjugated(Hamilton(a, b)) == Hamilton(Conjugated(b), Conjugated(a))
  {
  }

  /** Rotating by a product of unit quaternions rotates by the right factor, then by the left one. */
  lemma ApplyMult(a: Quaternion, b: Quaternion, v: Vector3)
    requires MagnitudeSqr(a) == 1.0 && MagnitudeSqr(b) == 1.0
    ensures Apply(Mult(a, b), v) == Apply(a, Apply(b, v))
  {
    var ab := Hamilton(a, b);
    MultIsHamilton(a, b);
    MultPreservesUnit(a, b);
    ApplyIsSandwich(ab, v);
    ConjugatedHamilton(a, b);
    ApplyIsSandwich(b, v);
    ApplyIsSandwich(a, Apply(b, v));
    var ca := Conjugated(a);
    var cb := Conjugated(b);
    var pv := Pure(v);
    calc {
      Hamilton(Hamilton(ab, pv), Hamilton(cb, ca));
    == { HamiltonAssociative(a, b, pv); }
      Hamilton(Hamilton(a, Hamilton(b, pv)), Hamilton(cb, ca));
    == { HamiltonAssociative(Hamilton(a, Hamilton(b, pv)), cb, ca); }
      Hamilton(Hamilton(Hamilton(a, Hamilton(b, pv)), cb), ca);
    == { HamiltonAssociative(a, Hamilton(b, pv), cb); }
      Hamilton(Hamilton(a, Hamilton(Hamilton(b, pv), cb)), ca);
    }
  }

  /**
   * The coordinate-system quaternion, as the source builds it: first take
   * +x to `x`, then the rotated +y to `y`.  For unit `x` and `y` it is a
   * unit quaternion.
   */
  function GetCoordQuat(m: Maths, x: Vector3, y: Vector3, z: Vector3): (q: Quaternion)
    requires m.SqrtExact()
    ensures LengthSqr(x) == 1.0 && LengthSqr(y) == 1.0 ==> MagnitudeSqr(q) == 1.0
  {
    var q1 := FromToRotationAsWritten(m, Right, x);
    var q2 := FromToRotationAsWritten(m, Apply(q1, Up), y);
    StandardAxesUnit();
    TwoRotationsUnit(m, Right, Up, x, y);
    Mult(q2, q1)
  }

  const CenteringQuat: Quaternion := Identity

  /**
   * A change of basis, fixed when built: its handedness and the quaternion
   * rotating the standard axes onto its own (negated when left-handed).
   */
  datatype CoordinateSystem = CoordinateSystem(isRightHanded: bool, coordsQuaternion: Quaternion)
  {
    function TransformQ(q: Quaternion): Quaternion {
      Mult(CenteringQuat, ConvertQuaternion(coordsQuaternion, q))
    }

    function TransformV(v: Vector3): Vector3 {
      var a := Apply(Conjugated(coordsQuaternion), v);
      if isRightHanded then a else Minus(a)
    }

    function InverseTransformQ(q: Quaternion): Quaternion {
      ConvertQuaternion(Conjugated(coordsQuaternion), Mult(Conjugated(CenteringQuat), q))
    }

    function InverseTransformV(v: Vector3): Vector3 {
      Apply(coordsQuaternion, if isRightHanded then v else Minus(v))
    }
  }

  predicate IsRightHanded(x: Vector3, y: Vector3, z: Vector3) {
    Dot(Cross(x, y), z) > 0.0
  }

  function NewCoordinateSystem(m: Maths, x: Vector3, y: Vector3, z: Vector3): (cs: CoordinateSystem)
    requires m.SqrtExact()
    ensures cs.isRightHanded <==> Dot(Cross(x, y), z) > 0.0
    ensures cs.isRightHanded ==> cs.coordsQuaternion == GetCoordQuat(m, x, y, z)
    ensures !cs.isRightHanded ==> cs.coordsQuaternion == GetCoordQuat(m, Minus(x), Minus(y), Minus(z))
  {
    var rh := IsRightHanded(x, y, z);
    CoordinateSystem(rh, if rh then GetCoordQuat(m, x, y, z) else GetCoordQuat(m, Minus(x), Minus(y), Minus(z)))
  }

  lemma StandardAxesUnit()
    ensures LengthSqr(Right) == 1.0 && LengthSqr(Up) == 1.0 && Right.z == 0.0
  {
  }

  /** The product of the two rotations is a unit quaternion for unit `x` and `y`. */
  lemma TwoRotationsUnit(m: Maths, r: Vector3, u: Vector3, x: Vector3, y: Vector3)
    requires m.SqrtExact()
    requires LengthSqr(r) == 1.0 && LengthSqr(u) == 1.0
    ensures var q1 := FromToRotationAsWritten(m, r, x);
      var q2 := FromToRotationAsWritten(m, Apply(q1, u), y);
      LengthSqr(x) == 1.0 && LengthSqr(y) == 1.0 ==> MagnitudeSqr(Mult(q2, q1)) == 1.0
  {
    if LengthSqr(x) == 1.0 && LengthSqr(y) == 1.0 {
      var q1 := FromToRotationAsWritten(m, r, x);
      FromToRotationAsWrittenUnit(m, r, x);
      var a := Apply(q1, u);
      ApplyPreservesLength(q1, u);
      FromToRotationAsWrittenUnit(m, a, y);
      MultPreservesUnit(FromToRotationAsWritten(m, a, y), q1);
    }
  }

  /**
   * The coordinate quaternion takes +y onto a unit `y` unless the first
   * rotation carries +y exactly opposite to `y` while +z is not
   * perpendicular to it (CoordQuatAsWrittenMissesY shows what happens then).
   */
  lemma CoordQuatMapsUp(m: Maths, x: Vector3, y: Vector3, z: Vector3)
    requires m.SqrtExact()
    requires LengthSqr(x) == 1.0 && LengthSqr(y) == 1.0
    requires var a := Apply(FromToRotationAsWritten(m, Right, x), Up);
      Abs(Length(m, Cross(a, y))) != 0.0 || 0.0 <= Dot(a, y) || a.z == 0.0
    ensures Apply(GetCoordQuat(m, x, y, z), Up) == y
  {
    StandardAxesUnit();
    ComposedMapsUp(m, Right, Up, x, y);
    CoordQuatParts(m, x, y, z);
  }

  lemma CoordQuatParts(m: Maths, x: Vector3, y: Vector3, z: Vector3)
    requires m.SqrtExact()
    ensures var q1 := FromToRotationAsWritten(m, Right, x);
      GetCoordQuat(m, x, y, z) == Mult(FromToRotationAsWritten(m, Apply(q1, Up), y), q1)
  {
  }

  lemma ComposedMapsUp(m: Maths, r: Vector3, u: Vector3, x: Vector3, y: Vector3)
    requires m.SqrtExact()
    requires LengthSqr(r) == 1.0 && LengthSqr(u) == 1.0 && r.z == 0.0
    ensures var q1 := FromToRotationAsWritten(m, r, x);
      var a := Apply(q1, u);
      LengthSqr(x) == 1.0 && LengthSqr(y) == 1.0 && (Abs(Length(m, Cross(a, y))) != 0.0 || 0.0 <= Dot(a, y) || a.z == 0.0) ==>
        Apply(Mult(FromToRotationAsWritten(m, a, y), q1), u) == y
  {
    var q1 := FromToRotationAsWritten(m, r, x);
    var a := Apply(q1, u);
    if LengthSqr(x) == 1.0 && LengthSqr(y) == 1.0 && (Abs(Length(m, Cross(a, y))) != 0.0 || 0.0 <= Dot(a, y) || a.z == 0.0) {
      var q2 := FromToRotationAsWritten(m, a, y);
      TwoRotations(m, r, u, x, y);
      ComposedRotation(Mult(q2, q1), q2, q1, u, y);
    }
  }

  lemma TwoRotations(m: Maths, r: Vector3, u: Vector3, x: Vector3, y: Vector3)
    requires m.SqrtExact()
    requires LengthSqr(r) == 1.0 && LengthSqr(u) == 1.0 && LengthSqr(x) == 1.0 && LengthSqr(y) == 1.0
    requires r.z == 0.0
    requires var a := Apply(FromToRotationAsWritten(m, r, x), u);
      Abs(Length(m, Cross(a, y))) != 0.0 || 0.0 <= Dot(a, y) || a.z == 0.0
    ensures var q1 := FromToRotationAsWritten(m, r, x);
      var q2 := FromToRotationAsWritten(m, Apply(q1, u), y);
      MagnitudeSqr(q1) == 1.0 && MagnitudeSqr(q2) == 1.0 && Apply(q2, Apply(q1, u)) == y
  {
    var q1 := FromToRotationAsWritten(m, r, x);
    UnitFromToRotation(m, r, x);
    FromToRotationAsWrittenUnit(m, r, x);
    var a := Apply(q1, u);
    ApplyPreservesLength(q1, u);
    UnitFromToRotation(m, a, y);
    FromToRotationAsWrittenUnit(m, a, y);
  }

  /**
   * As written, when the first rotation carries +y exactly opposite to `y`
   * and `y` leaves the xy-plane, the second rotation is the half turn about
   * +z, and +y lands on `y` mirrored in z instead of on `y`.
   */
  lemma CoordQuatAsWrittenMissesY(m: Maths, x: Vector3, y: Vector3, z: Vector3)
    requires m.SqrtExact()
    requires LengthSqr(x) == 1.0 && LengthSqr(y) == 1.0 && y.z != 0.0
    requires Apply(FromToRotationAsWritten(m, Right, x), Up) == Minus(y)
    ensures Apply(GetCoordQuat(m, x, y, z), Up) == Vector3(y.x, y.y, -y.z)
    ensures Apply(GetCoordQuat(m, x, y, z), Up) != y
  {
    var mirrored := Vector3(y.x, y.y, -y.z);
    assert Apply(GetCoordQuat(m, x, y, z), Up) == mirrored by {
      StandardAxesUnit();
      ComposedMissesY(m, Right, Up, x, y);
      CoordQuatParts(m, x, y, z);
    }
    assert mirrored.z != y.z;
  }

  lemma ComposedMissesY(m: Maths, r: Vector3, u: Vector3, x: Vector3, y: Vector3)
    requires m.SqrtExact()
    requires LengthSqr(r) == 1.0
    ensures var q1 := FromToRotationAsWritten(m, r, x);
      var a := Apply(q1, u);
      LengthSqr(x) == 1.0 && LengthSqr(y) == 1.0 && a == Minus(y) ==>
        Apply(Mult(FromToRotationAsWritten(m, a, y), q1), u) == Vector3(y.x, y.y, -y.z)
  {
    var q1 := FromToRotationAsWritten(m, r, x);
    if LengthSqr(x) == 1.0 && LengthSqr(y) == 1.0 && Apply(q1, u) == Minus(y) {
      FromToRotationAsWrittenUnit(m, r, x);
      OppositeHalfTurn(m, y);
      ZHalfTurnMirrors(Minus(y));
      ZHalfTurnUnit();
      ComposedRotation(Mult(ZHalfTurn, q1), ZHalfTurn, q1, u, Vector3(y.x, y.y, -y.z));
    }
  }

  /** As written, the rotation from a unit vector to its opposite is the half turn about +z. */
  lemma OppositeHalfTurn(m: Maths, y: Vector3)
    requires m.SqrtExact()
    requires LengthSqr(y) == 1.0
    ensures FromToRotationAsWritten(m, Minus(y), y) == ZHalfTurn
  {
    MinusKeepsLength(y);
    assert NormalizedV(m, Minus(y)) == Minus(y);
    assert NormalizedV(m, y) == y;
    assert Cross(Minus(y), y) == Zero;
    LengthZero(m);
    RotationBetweenAsWrittenOpposite(m, Minus(y), y);
  }

  /** The half turn about +z negates x and y and keeps z. */
  lemma ZHalfTurnMirrors(v: Vector3)
    ensures Apply(ZHalfTurn, v) == Vector3(-v.x, -v.y, v.z)
  {
    ApplyComponents(ZHalfTurn, v);
  }

  lemma ZHalfTurnUnit()
    ensures MagnitudeSqr(ZHalfTurn) == 1.0
  {
  }

  /** `g`, the product of two unit rotations, is a unit quaternion that rotates as they do in turn. */
  lemma ComposedRotation(g: Quaternion, q2: Quaternion, q1: Quaternion, v: Vector3, w: Vector3)
    requires MagnitudeSqr(q1) == 1.0 && MagnitudeSqr(q2) == 1.0
    requires Apply(q2, Apply(q1, v)) == w && g == Mult(q2, q1)
    ensures MagnitudeSqr(g) == 1.0 && Apply(g, v) == w
  {
    MultPreservesUnit(q2, q1);
    ApplyMult(q2, q1, v);
  }

  /**
   * Between perpendicular unit vectors the rotation is a quarter turn: the
   * cross product scaled by √½, with scalar part √½.
   */
  lemma QuarterTurn(m: Maths, a: Vector3, b: Vector3)
    requires m.SqrtExact()
    requires LengthSqr(a) == 1.0 && LengthSqr(b) == 1.0 && Dot(a, b) == 0.0
    ensures var c := Cross(a, b);
      var s := m.sqrt(0.5);
      FromToRotation(m, a, b) == Quaternion(c.x * s, c.y * s, c.z * s, s)
  {
    assert NormalizedV(m, a) == a;
    assert NormalizedV(m, b) == b;
    UnitCosine(a, b);
    var c := Cross(a, b);
    assert Length(m, c) == 1.0;
    assert RotationAxis(c, 1.0) == c;
    assert ClampedHalfVersine(0.0) == 0.5;
  }

  /** For unit directions the source's rotation is a unit quaternion, whichever axis it falls back to. */
  lemma FromToRotationAsWrittenUnit(m: Maths, from: Vector3, to: Vector3)
    requires m.SqrtExact()
    requires LengthSqr(from) == 1.0 && LengthSqr(to) == 1.0
    ensures MagnitudeSqr(FromToRotationAsWritten(m, from, to)) == 1.0
  {
    assert NormalizedV(m, from) == from;
    assert NormalizedV(m, to) == to;
    UnitCosine(from, to);
    var v := Cross(from, to);
    RotationAxisUnit(m, v);
    HalfAngleRotationUnit(m, RotationAxis(v, Length(m, v)), Dot(from, to));
  }

  /**
   * Between unit vectors, the source's rotation takes `from` onto `to`
   * unless they are opposite and +z is not perpendicular to `from`
   * (FromToRotationAsWrittenBackward gives such a pair).
   */
  lemma UnitFromToRotation(m: Maths, from: Vector3, to: Vector3)
    requires m.SqrtExact()
    requires LengthSqr(from) == 1.0 && LengthSqr(to) == 1.0
    requires Abs(Length(m, Cross(from, to))) != 0.0 || 0.0 <= Dot(from, to) || from.z == 0.0
    ensures Apply(FromToRotationAsWritten(m, from, to), from) == to
  {
    assert NormalizedV(m, from) == from;
    assert NormalizedV(m, to) == to;
    FromToRotationMaps(m, from, to);
  }

  /**
   * A coordinate system built from unit `x` and `y` has a unit basis
   * quaternion, so its transforms can be undone (see the round-trip lemmas).
   */
  lemma NewCoordinateSystemUnit(m: Maths, x: Vector3, y: Vector3, z: Vector3)
    requires m.SqrtExact()
    requires LengthSqr(x) == 1.0 && LengthSqr(y) == 1.0
    ensures MagnitudeSqr(NewCoordinateSystem(m, x, y, z).coordsQuaternion) == 1.0
  {
    var cs := NewCoordinateSystem(m, x, y, z);
    if !cs.isRightHanded {
      MinusKeepsLength(x);
      MinusKeepsLength(y);
    }
  }

  lemma MinusKeepsLength(v: Vector3)
    ensures LengthSqr(Minus(v)) == LengthSqr(v)
  {
  }

  /** With a unit basis quaternion, the vector transforms are mutually inverse, for either handedness. */
  lemma VectorTransformRoundTrip(cs: CoordinateSystem, v: Vector3)
    requires MagnitudeSqr(cs.coordsQuaternion) == 1.0
    ensures cs.InverseTransformV(cs.TransformV(v)) == v
    ensures cs.TransformV(cs.InverseTransformV(v)) == v
  {
    var cq := cs.coordsQuaternion;
    ApplyInverse(cq, v);
    if !cs.isRightHanded {
      ApplyInverse(cq, Minus(v));
    }
  }

  /** The same for the quaternion transforms. */
  lemma ConjugatedIdentity()
    ensures Conjugated(CenteringQuat) == Identity
  {
  }

  lemma MultIdentityLeft(q: Quaternion)
    ensures Mult(Identity, q) == q
  {
    MultIsHamilton(Identity, q);
    HamiltonIdentity(q);
  }

  lemma ConvertIsSandwich(cq: Quaternion, q: Quaternion)
    ensures ConvertQuaternion(cq, q) == Hamilton(Hamilton(Conjugated(cq), q), cq)
  {
    MultIsHamilton(Conjugated(cq), q);
    MultIsHamilton(Mult(Conjugated(cq), q), cq);
  }

  lemma TransformQIsSandwich(cs: CoordinateSystem, q: Quaternion)
    ensures cs.TransformQ(q) == Hamilton(Hamilton(Conjugated(cs.coordsQuaternion), q), cs.coordsQuaternion)
  {
    ConvertIsSandwich(cs.coordsQuaternion, q);
    MultIdentityLeft(ConvertQuaternion(cs.coordsQuaternion, q));
  }

  lemma MultConjugatedCentering(q: Quaternion)
    ensures Mult(Conjugated(CenteringQuat), q) == q
  {
    ConjugatedIdentity();
    MultIdentityLeft(q);
  }

  lemma InverseTransformQIsConvert(cs: CoordinateSystem, q: Quaternion)
    ensures cs.InverseTransformQ(q) == ConvertQuaternion(Conjugated(cs.coordsQuaternion), q)
  {
    MultConjugatedCentering(q);
  }

  lemma ConvertByConjugate(cq: Quaternion, q: Quaternion)
    ensures ConvertQuaternion(Conjugated(cq), q) == Hamilton(Hamilton(cq, q), Conjugated(cq))
  {
    ConvertIsSandwich(Conjugated(cq), q);
    ConjugatedInvolution(cq);
  }

  lemma InverseTransformQIsSandwich(cs: CoordinateSystem, q: Quaternion)
    ensures cs.InverseTransformQ(q) == Hamilton(Hamilton(cs.coordsQuaternion, q), Conjugated(cs.coordsQuaternion))
  {
    InverseTransformQIsConvert(cs, q);
    ConvertByConjugate(cs.coordsQuaternion, q);
  }

  /** With a unit basis quaternion, the quaternion transforms are mutually inverse. */
  lemma QuaternionTransformRoundTrip(cs: CoordinateSystem, q: Quaternion)
    requires MagnitudeSqr(cs.coordsQuaternion) == 1.0
    ensures cs.InverseTransformQ(cs.TransformQ(q)) == q
    ensures cs.TransformQ(cs.InverseTransformQ(q)) == q
  {
    var cq := cs.coordsQuaternion;
    ConjugatedInvolution(cq);
    TransformQIsSandwich(cs, q);
    InverseTransformQIsSandwich(cs, cs.TransformQ(q));
    SandwichCancels(cq, q);
    InverseTransformQIsSandwich(cs, q);
    TransformQIsSandwich(cs, cs.InverseTransformQ(q));
    SandwichCancels(Conjugated(cq), q);
  }
}
