/**
 * The Finch controller service (FinchService.java): it feeds headset poses
 * to the Finch tracking library, switches between the library's update
 * modes and arm modes, recenters, and hands controller samples to the
 * runtime with NaN values scrubbed.
 *
 * The tracking library itself is not part of this model.  What the service
 * asks of it (node connection and data checks, the result of an update) is
 * passed in as parameters; what the service pushes into it (root offset,
 * body rotation mode, the pose of an update) is kept in fields or returned.
 */
module FinchService {
  import opened FinchMath

  /** The library's FinchUpdateType. */
  datatype UpdateType = Unknown | Internal | HmdRotation | HmdTransform

  /** The library's BodyRotationMode. */
  datatype BodyRotationMode = NoBodyRotation | HmdBodyRotation | ShoulderRotation

  /** The library's NodeType, restricted to the nodes the service uses. */
  datatype Node = RightHand | LeftHand | RightUpperArm | LeftUpperArm

  /** Math.PI. */
  const Pi: real := 3.141592653589793

  /** Recenter re-estimates the head shift only after this many nanoseconds. */
  const CalibrationDebounceNs: int := 5000000

  const StartHmdPositionLength: real := 0.1
  const InternalRootOffset: Vector3 := Vector3(0.0, -0.25, 0.0)

  /** The service's two fixed switches, both on. */
  const CountervailHmdShift: bool := true
  const FixStartPosition: bool := true

  /** The runtime's coordinate system and the raw headset one, as the service builds them. */
  function QvrCS(m: Maths): CoordinateSystem
    requires m.SqrtExact()
  {
    NewCoordinateSystem(m, Vector3(0.0, -1.0, 0.0), Vector3(0.0, 0.0, 1.0), Vector3(-1.0, 0.0, 0.0))
  }

  function RawHmdCS(m: Maths): CoordinateSystem
    requires m.SqrtExact()
  {
    NewCoordinateSystem(m, Vector3(0.0, 0.0, 1.0), Vector3(0.0, 1.0, 0.0), Vector3(1.0, 0.0, 0.0))
  }

  /** The runtime's system is right-handed ... */
  lemma QvrCSRightHanded(m: Maths)
    requires m.SqrtExact()
    ensures QvrCS(m).isRightHanded
  {
    assert IsRightHanded(Vector3(0.0, -1.0, 0.0), Vector3(0.0, 0.0, 1.0), Vector3(-1.0, 0.0, 0.0));
  }

  /** ... and the raw headset one left-handed. */
  lemma RawHmdCSLeftHanded(m: Maths)
    requires m.SqrtExact()
    ensures !RawHmdCS(m).isRightHanded
  {
    assert !IsRightHanded(Vector3(0.0, 0.0, 1.0), Vector3(0.0, 1.0, 0.0), Vector3(1.0, 0.0, 0.0));
  }

  /** Both basis quaternions have unit length. */
  lemma QvrCSUnit(m: Maths)
    requires m.SqrtExact()
    ensures MagnitudeSqr(QvrCS(m).coordsQuaternion) == 1.0
  {
    NewCoordinateSystemUnit(m, Vector3(0.0, -1.0, 0.0), Vector3(0.0, 0.0, 1.0), Vector3(-1.0, 0.0, 0.0));
  }

  lemma RawHmdCSUnit(m: Maths)
    requires m.SqrtExact()
    ensures MagnitudeSqr(RawHmdCS(m).coordsQuaternion) == 1.0
  {
    NewCoordinateSystemUnit(m, Vector3(0.0, 0.0, 1.0), Vector3(0.0, 1.0, 0.0), Vector3(1.0, 0.0, 0.0));
  }

  // Each coordinate system is built in a method of its own: unfolding both
  // definitions in one proof context is more than the solver can afford.

  method BuildQvrCS(m: Maths) returns (cs: CoordinateSystem)
    requires m.SqrtExact()
    ensures cs == QvrCS(m)
    ensures cs.isRightHanded && MagnitudeSqr(cs.coordsQuaternion) == 1.0
  {
    cs := QvrCS(m);
    QvrCSRightHanded(m);
    QvrCSUnit(m);
  }

  method BuildRawHmdCS(m: Maths) returns (cs: CoordinateSystem)
    requires m.SqrtExact()
    ensures cs == RawHmdCS(m)
    ensures !cs.isRightHanded && MagnitudeSqr(cs.coordsQuaternion) == 1.0
  {
    cs := RawHmdCS(m);
    RawHmdCSLeftHanded(m);
    RawHmdCSUnit(m);
  }

  // ---------------------------------------------------------------------
  // Pure helpers

  /** `qGlobal` seen from the frame rotated by `qCS`. */
  function LocalRotation(qCS: Quaternion, qGlobal: Quaternion): Quaternion {
    Mult(Conjugated(qCS), qGlobal)
  }

  /** Composing the frame with the local rotation gives the global one back. */
  lemma LocalRotationRoundTrip(qCS: Quaternion, qGlobal: Quaternion)
    requires MagnitudeSqr(qCS) == 1.0
    ensures Mult(qCS, LocalRotation(qCS, qGlobal)) == qGlobal
  {
    var c := Conjugated(qCS);
    MultIsHamilton(c, qGlobal);
    MultIsHamilton(qCS, Hamilton(c, qGlobal));
    HamiltonAssociative(qCS, c, qGlobal);
    HamiltonConjugate(qCS);
    HamiltonIdentity(qGlobal);
  }

  /** A pose relative to the frame `tCS`. */
  function LocalTransform(tCS: Transform, tGlobal: Transform): Transform {
    var delta := Plus(tGlobal.position, Minus(tCS.position));
    Transform(Apply(Conjugated(tCS.orientation), delta), LocalRotation(tCS.orientation, tGlobal.orientation))
  }

  /** Placing the local pose back into the frame gives the global pose. */
  lemma LocalTransformRoundTrip(tCS: Transform, tGlobal: Transform)
    requires MagnitudeSqr(tCS.orientation) == 1.0
    ensures var local := LocalTransform(tCS, tGlobal);
      && Plus(tCS.position, Apply(tCS.orientation, local.position)) == tGlobal.position
      && Mult(tCS.orientation, local.orientation) == tGlobal.orientation
  {
    var delta := Plus(tGlobal.position, Minus(tCS.position));
    ApplyInverse(tCS.orientation, delta);
    LocalRotationRoundTrip(tCS.orientation, tGlobal.orientation);
  }

  /**
   * The rotation taking forward to the headset's horizontal forward, meant
   * as a yaw.  As written, a headset whose forward points exactly backward
   * gets the half turn about +z, a roll, since fromToRotation falls back to
   * +z for opposite directions.
   */
  function QHmdOffset(m: Maths, qHmd: Quaternion): (r: Quaternion)
    requires m.SqrtExact()
    ensures Apply(qHmd, Forward).x == 0.0 && Apply(qHmd, Forward).z == -1.0 ==> r == ZHalfTurn
  {
    var qFwd := Apply(qHmd, Forward);
    var horQFwd := NormalizedV(m, Vector3(qFwd.x, 0.0, qFwd.z));
    if qFwd.x == 0.0 && qFwd.z == -1.0 then
      BackwardOffset(m);
      FromToRotationAsWritten(m, Forward, horQFwd)
    else
      FromToRotationAsWritten(m, Forward, horQFwd)
  }

  lemma BackwardOffset(m: Maths)
    requires m.SqrtExact()
    ensures FromToRotationAsWritten(m, Forward, NormalizedV(m, Vector3(0.0, 0.0, -1.0))) == ZHalfTurn
  {
    assert Vector3(0.0, 0.0, -1.0) == Backward;
    ForwardBackwardNormalized(m);
    ForwardBackwardRotation(m);
  }

  /** A headset that looks straight ahead, whatever its pitch, needs no offset. */
  lemma QHmdOffsetLookingAhead(m: Maths, qHmd: Quaternion)
    requires m.SqrtExact()
    requires Apply(qHmd, Forward).x == 0.0 && Apply(qHmd, Forward).z == 1.0
    ensures QHmdOffset(m, qHmd) == Identity
  {
    assert NormalizedV(m, Vector3(0.0, 0.0, 1.0)) == Forward;
    FromToRotationSelf(m, Forward);
    assert Dot(Forward, Forward) == 1.0;
  }

  /**
   * The headset turned half a turn about y, facing exactly backward: the
   * offset is the half turn about +z, a roll rather than a yaw.
   */
  lemma QHmdOffsetFacingBackward(m: Maths)
    requires m.SqrtExact()
    ensures QHmdOffset(m, Quaternion(0.0, 1.0, 0.0, 0.0)) == ZHalfTurn
    ensures ZHalfTurn.z != 0.0
  {
    YHalfTurnFlipsForward();
  }

  lemma YHalfTurnFlipsForward()
    ensures Apply(Quaternion(0.0, 1.0, 0.0, 0.0), Forward) == Backward
  {
    YHalfTurnMirrors(Forward);
  }

  /** The half turn about +y negates x and z and keeps y. */
  lemma YHalfTurnMirrors(v: Vector3)
    ensures Apply(Quaternion(0.0, 1.0, 0.0, 0.0), v) == Vector3(-v.x, v.y, -v.z)
  {
    ApplyComponents(Quaternion(0.0, 1.0, 0.0, 0.0), v);
  }

  /**
   * The offset is a pure yaw (no x or z part) when the headset's forward
   * direction has a horizontal part not within `Eps` of 0 (not looking
   * straight up or down) and either points off the z axis or points ahead
   * with a squared horizontal length not within `Eps` of 1.  Pointing
   * backward along z it is a roll (QHmdOffsetFacingBackward).
   */
  lemma QHmdOffsetIsYaw(m: Maths, qHmd: Quaternion)
    requires m.SqrtExact()
    requires var f := Apply(qHmd, Forward);
      !Equal(f.x * f.x + f.z * f.z, 0.0) && (f.x != 0.0 || (0.0 < f.z && !Equal(f.x * f.x + f.z * f.z, 1.0)))
    ensures QHmdOffset(m, qHmd).x == 0.0 && QHmdOffset(m, qHmd).z == 0.0
  {
    var f := Apply(qHmd, Forward);
    var v := Vector3(f.x, 0.0, f.z);
    assert LengthSqr(v) == f.x * f.x + f.z * f.z;
    var h := NormalizedV(m, v);
    FlatNormalized(m, v);
    FlatNormalized(m, h);
    var g := NormalizedV(m, h);
    if f.x == 0.0 {
      assert LengthSqr(h) == 1.0;
      assert g == h;
    }
    assert g.x != 0.0 || LengthSqr(g) == 1.0;
    assert g.x != 0.0 || 0.0 < g.z;
    ForwardBackwardNormalized(m);
    assert QHmdOffset(m, qHmd) == RotationBetweenAsWritten(m, Forward, g);
    AsWrittenYawFromForward(m, g);
  }

  /** The source's rotation from forward to a horizontal direction off the z axis, or exactly forward, is a yaw. */
  lemma AsWrittenYawFromForward(m: Maths, g: Vector3)
    requires m.SqrtExact()
    requires g.y == 0.0
    requires g.x != 0.0 || (0.0 < g.z && LengthSqr(g) == 1.0)
    ensures RotationBetweenAsWritten(m, Forward, g).x == 0.0 && RotationBetweenAsWritten(m, Forward, g).z == 0.0
  {
    if g.x != 0.0 {
      ForwardCrossFlat(m, g);
      SquarePositive(g.x);
      assert Product(g.x, g.x) == g.x * g.x;
      PositiveRoot(m, g.x * g.x);
    }
    RotationBetweenAgrees(m, Forward, g);
    YawFromForward(m, g);
  }

  /**
   * Normalising a horizontal vector whose squared length is not within
   * `Eps` of 0 keeps it horizontal and keeps x zero or non-zero; it is
   * exactly unit unless it was returned unchanged.
   */
  lemma FlatNormalized(m: Maths, v: Vector3)
    requires m.SqrtExact()
    requires v.y == 0.0 && !Equal(LengthSqr(v), 0.0)
    ensures var h := NormalizedV(m, v);
      && h.y == 0.0 && (h.x == 0.0 <==> v.x == 0.0) && !Equal(LengthSqr(h), 0.0)
      && (h == v || LengthSqr(h) == 1.0)
      && (!Equal(LengthSqr(v), 1.0) ==> LengthSqr(h) == 1.0)
      && (0.0 < v.z ==> 0.0 < h.z)
  {
    NormalizedVUnit(m, v);
    var len := LengthSqr(v);
    if !Equal(len, 1.0) {
      assert m.RootArg(len);
      var s := m.sqrt(len);
      assert s != 0.0;
      assert NormalizedV(m, v) == DivV(v, s);
    }
  }

  /**
   * The rotation from forward to a horizontal direction that is not along
   * z, or is exactly forward or backward, is a yaw.
   */
  lemma YawFromForward(m: Maths, g: Vector3)
    requires m.SqrtExact()
    requires g.y == 0.0
    requires g.x != 0.0 || LengthSqr(g) == 1.0
    ensures RotationBetween(m, Forward, g).x == 0.0 && RotationBetween(m, Forward, g).z == 0.0
  {
    if g.x != 0.0 {
      YawAside(m, g);
    } else if g.z < 0.0 {
      UnitAlongZ(Minus(g));
      YawBackward(m, g);
    } else {
      UnitAlongZ(g);
      YawAhead(m, g);
    }
  }

  /** Forward crossed with a horizontal vector points along y. */
  lemma ForwardCrossFlat(m: Maths, g: Vector3)
    requires m.SqrtExact()
    requires g.y == 0.0
    ensures Cross(Forward, g) == Vector3(0.0, g.x, 0.0)
    ensures Dot(Forward, g) == g.z
    ensures Length(m, Cross(Forward, g)) == m.sqrt(g.x * g.x)
  {
    assert Cross(Forward, g) == Vector3(0.0, g.x, 0.0);
    assert LengthSqr(Cross(Forward, g)) == g.x * g.x;
  }

  lemma YawAside(m: Maths, g: Vector3)
    requires m.SqrtExact()
    requires g.y == 0.0 && g.x != 0.0
    ensures RotationBetween(m, Forward, g).x == 0.0 && RotationBetween(m, Forward, g).z == 0.0
  {
    ForwardCrossFlat(m, g);
    var v := Cross(Forward, g);
    var sinT := Length(m, v);
    SquarePositive(g.x);
    assert Product(g.x, g.x) == g.x * g.x;
    PositiveRoot(m, g.x * g.x);
    var axis := DivV(v, sinT);
    assert axis.x == 0.0 && axis.z == 0.0;
    assert RotationBetween(m, Forward, g) == HalfAngleRotation(m, axis, g.z);
    HalfAngleYaw(m, axis, g.z);
  }

  lemma YawBackward(m: Maths, g: Vector3)
    requires m.SqrtExact()
    requires g.x == 0.0 && g.y == 0.0 && g.z == -1.0
    ensures RotationBetween(m, Forward, g).x == 0.0 && RotationBetween(m, Forward, g).z == 0.0
  {
    assert g == Backward;
    ForwardBackwardOpposite(m);
    OppositeForm(m, Forward, Backward);
    ForwardFallsBackToUp(m);
    HalfAngleYaw(m, FallbackAxis(m, Forward), Dot(Forward, Backward));
  }

  /** For opposite directions the rotation is about the fallback axis. */
  lemma OppositeForm(m: Maths, a: Vector3, g: Vector3)
    requires m.SqrtExact()
    requires Length(m, Cross(a, g)) == 0.0 && Dot(a, g) < 0.0
    ensures RotationBetween(m, a, g) == HalfAngleRotation(m, FallbackAxis(m, a), Dot(a, g))
  {
  }

  /** Forward has nothing perpendicular to +z, so its fallback axis is +y. */
  lemma ForwardFallsBackToUp(m: Maths)
    requires m.SqrtExact()
    ensures FallbackAxis(m, Forward) == Up
  {
    ZAxisHasNoRest(Forward);
    FallbackAxisOfZero(m, Forward);
  }

  lemma ZAxisHasNoRest(a: Vector3)
    requires a.x == 0.0 && a.y == 0.0 && a.z * a.z == 1.0
    ensures ZWithout(a) == Zero
  {
  }

  lemma FallbackAxisOfZero(m: Maths, a: Vector3)
    requires m.SqrtExact()
    requires ZWithout(a) == Zero
    ensures FallbackAxis(m, a) == Up
  {
    assert LengthSqr(ZWithout(a)) == 0.0;
  }

  lemma YawAhead(m: Maths, g: Vector3)
    requires m.SqrtExact()
    requires g.x == 0.0 && g.y == 0.0 && g.z == 1.0
    ensures RotationBetween(m, Forward, g).x == 0.0 && RotationBetween(m, Forward, g).z == 0.0
  {
    assert g == Forward;
    RotationBetweenSelf(m, Forward);
  }

  lemma RotationBetweenSelf(m: Maths, v: Vector3)
    requires m.SqrtExact()
    requires LengthSqr(v) == 1.0
    ensures RotationBetween(m, v, v) == Identity
  {
    assert Cross(v, v) == Zero;
    assert Dot(v, v) == 1.0;
  }

  lemma UnitAlongZ(g: Vector3)
    requires g.x == 0.0 && g.y == 0.0 && 0.0 <= g.z && LengthSqr(g) == 1.0
    ensures g.z == 1.0
  {
    assert g.z * g.z == 1.0;
    NonNegativeRootUnique(g.z, 1.0);
  }

  /** The root of a positive number is positive. */
  lemma PositiveRoot(m: Maths, a: real)
    requires m.SqrtExact() && 0.0 < a
    ensures 0.0 < m.sqrt(a)
  {
    assert m.RootArg(a);
    ZeroProduct(0.0, 0.0);
  }

  /** A half-angle rotation has no x or z part when its axis has none, or when its half-angle sine is 0. */
  lemma HalfAngleYaw(m: Maths, axis: Vector3, cos: real)
    requires (axis.x == 0.0 && axis.z == 0.0) || m.sqrt(ClampedHalfVersine(cos)) == 0.0
    ensures HalfAngleRotation(m, axis, cos).x == 0.0 && HalfAngleRotation(m, axis, cos).z == 0.0
  {
    var sinp := m.sqrt(ClampedHalfVersine(cos));
    ZeroProduct(axis.x, sinp);
    ZeroProduct(axis.z, sinp);
  }

  lemma ZeroProduct(a: real, b: real)
    requires a == 0.0 || b == 0.0
    ensures a * b == 0.0
  {
  }

  /** Head shift length estimated from the yaw of a rotation. */
  function PredictLen(m: Maths, q: Quaternion): real {
    (m.sqrt(m.asin(Abs(q.y)) + 0.271) - 0.523) / 3.84
  }

  /** The estimate inverts to asin|y| + 0.271 = (3.84·len + 0.523)². */
  lemma PredictLenInverse(m: Maths, q: Quaternion)
    requires m.SqrtExact()
    requires 0.0 <= m.asin(Abs(q.y)) + 0.271
    ensures var s := 3.84 * PredictLen(m, q) + 0.523;
      0.0 <= s && s * s == m.asin(Abs(q.y)) + 0.271
  {
    var a := m.asin(Abs(q.y)) + 0.271;
    assert m.RootArg(a);
    assert 3.84 * PredictLen(m, q) + 0.523 == m.sqrt(a);
  }

  /** A horizontal shift of length `len` in direction `angle`. */
  function PredictedShift(m: Maths, len: real, angle: real): Vector3 {
    Vector3(len * m.cos(angle), 0.0, len * m.sin(angle))
  }

  lemma ScaledPythagoras(len: real, c: real, s: real)
    requires c * c + s * s == 1.0
    ensures (len * c) * (len * c) + (len * s) * (len * s) == len * len
  {
    calc {
      (len * c) * (len * c) + (len * s) * (len * s);
      len * len * (c * c + s * s);
      len * len;
    }
  }

  /** The shift is horizontal and, with a consistent cosine and sine, has length |len|. */
  lemma PredictedShiftLength(m: Maths, len: real, angle: real)
    requires m.cos(angle) * m.cos(angle) + m.sin(angle) * m.sin(angle) == 1.0
    ensures PredictedShift(m, len, angle).y == 0.0
    ensures LengthSqr(PredictedShift(m, len, angle)) == len * len
  {
    ScaledPythagoras(len, m.cos(angle), m.sin(angle));
  }

  function HorizontalAngle(m: Maths, q: Quaternion): real {
    m.atan2(q.y, q.w) * 2.0
  }

  /** Math.copySign: the magnitude of `mag` with the sign of `sign`. */
  function CopySign(mag: real, sign: real): (r: real)
    ensures Abs(r) == Abs(mag)
    ensures sign < 0.0 ==> r <= 0.0
    ensures 0.0 <= sign ==> 0.0 <= r
  {
    if sign < 0.0 then -Abs(mag) else Abs(mag)
  }

  /** A raw headset position in the runtime's coordinate system `qvr`. */
  function ToQvrV(qvr: CoordinateSystem, raw: CoordinateSystem, p: Vector3): Vector3 {
    qvr.TransformV(raw.InverseTransformV(p))
  }

  /** A raw headset orientation in the runtime's coordinate system, with z and w negated. */
  function ToQvrQ(qvr: CoordinateSystem, raw: CoordinateSystem, q: Quaternion): Quaternion {
    var t := qvr.TransformQ(raw.InverseTransformQ(q));
    Quaternion(t.x, t.y, -t.z, -t.w)
  }

  /** With unit basis quaternions, the position change of basis can be undone. */
  lemma ToQvrVInvertible(qvr: CoordinateSystem, raw: CoordinateSystem, p: Vector3)
    requires MagnitudeSqr(qvr.coordsQuaternion) == 1.0
    requires MagnitudeSqr(raw.coordsQuaternion) == 1.0
    ensures raw.TransformV(qvr.InverseTransformV(ToQvrV(qvr, raw, p))) == p
  {
    VectorTransformRoundTrip(qvr, raw.InverseTransformV(p));
    VectorTransformRoundTrip(raw, p);
  }

  function HmdTransformInQvrCS(qvr: CoordinateSystem, raw: CoordinateSystem, qHmd: Quaternion, pHmd: Vector3): Transform {
    Transform(ToQvrV(qvr, raw, pHmd), ToQvrQ(qvr, raw, qHmd))
  }

  /** The requested mode, unless a forced mode other than Unknown overrides it. */
  function EffectiveMode(forced: UpdateType, requested: UpdateType): (mode: UpdateType)
    ensures forced == Unknown ==> mode == requested
    ensures forced != Unknown ==> mode == forced
  {
    if forced == Unknown then requested else forced
  }

  /** A headset sample whose seven components are all within `Eps` of 0 carries no data. */
  predicate IsZeroSample(p: Vector3, q: Quaternion) {
    && Equal(p.x, 0.0) && Equal(p.y, 0.0) && Equal(p.z, 0.0)
    && Equal(q.x, 0.0) && Equal(q.y, 0.0) && Equal(q.z, 0.0) && Equal(q.w, 0.0)
  }

  /** The headset sample to keep: the new one, or the last one when the new one is all zeros. */
  function SampleOrLast(p: Vector3, q: Quaternion, lastP: Vector3, lastQ: Quaternion): (r: (Vector3, Quaternion))
    ensures IsZeroSample(p, q) ==> r == (lastP, lastQ)
    ensures !IsZeroSample(p, q) ==> r == (p, q)
  {
    if IsZeroSample(p, q) then (lastP, lastQ) else (p, q)
  }

  /** The root offset set on the first update and on every mode change. */
  function RootOffsetFor(mode: UpdateType): (r: Vector3)
    ensures mode == Internal ==> r == InternalRootOffset && r.y < 0.0
    ensures mode != Internal ==> r == Zero
  {
    if mode == Internal then InternalRootOffset else Zero
  }

  /** The body rotation mode set when the arm mode switches. */
  function ArmSwitchRotation(twoHanded: bool, mode: UpdateType): (r: BodyRotationMode)
    ensures r == ShoulderRotation <==> twoHanded
    ensures r == NoBodyRotation <==> !twoHanded && mode == Internal
    ensures r == HmdBodyRotation <==> !twoHanded && mode != Internal
  {
    if twoHanded then ShoulderRotation
    else if mode == Internal then NoBodyRotation
    else HmdBodyRotation
  }

  /** What one tick of the private update hands to the tracking library. */
  datatype TrackerCall =
    | HmdTransformUpdate(orientation: Quaternion, position: Vector3)
    | InternalUpdate
    | IllegalArgument

  /**
   * The private update: in HmdTransform mode the headset pose relative to
   * the recenter pose, shifted by the predicted head shift and pivoted
   * about the start position; in HmdRotation mode the relative orientation
   * alone; Internal mode lets the library track by itself; Unknown is
   * refused.
   */
  function TrackerUpdate(m: Maths, qvr: CoordinateSystem, raw: CoordinateSystem, mode: UpdateType,
                         phmd: Vector3, qhmd: Quaternion, recenter: Transform,
                         shift: Vector3, start: Vector3): (call: TrackerCall)
    requires m.SqrtExact()
    ensures call.IllegalArgument? <==> mode == Unknown
    ensures call.InternalUpdate? <==> mode == Internal
    ensures mode == HmdRotation ==> call == HmdTransformUpdate(
              RenormalizedQ(m, LocalRotation(recenter.orientation, ToQvrQ(qvr, raw, qhmd))), Zero)
    ensures mode == HmdTransform ==>
      && call.HmdTransformUpdate?
      && call.orientation == RenormalizedQ(m, LocalRotation(recenter.orientation, ToQvrQ(qvr, raw, qhmd)))
      && var local := LocalTransform(recenter, HmdTransformInQvrCS(qvr, raw, qhmd, phmd));
         call.position == Plus(Plus(local.position, shift), Plus(start, Apply(local.orientation, Minus(start))))
  {
    match mode
    case HmdTransform =>
      var local := LocalTransform(recenter, HmdTransformInQvrCS(qvr, raw, qhmd, phmd));
      var p1 := if CountervailHmdShift then Plus(local.position, shift) else local.position;
      var p2 := if FixStartPosition
                then Plus(p1, Plus(start, Apply(local.orientation, Minus(start))))
                else p1;
      HmdTransformUpdate(RenormalizedQ(m, local.orientation), p2)
    case HmdRotation =>
      var local := LocalRotation(recenter.orientation, ToQvrQ(qvr, raw, qhmd));
      HmdTransformUpdate(RenormalizedQ(m, local), Zero)
    case Internal => InternalUpdate
    case Unknown => IllegalArgument
  }

  /**
   * A headset exactly at the recenter pose reports the identity rotation
   * and, as position, the predicted head shift alone: the start-position
   * pivot cancels.
   */
  lemma TrackerUpdateAtRecenterPose(m: Maths, qvr: CoordinateSystem, raw: CoordinateSystem,
                                    phmd: Vector3, qhmd: Quaternion, recenter: Transform,
                                    shift: Vector3, start: Vector3)
    requires m.SqrtExact()
    requires MagnitudeSqr(recenter.orientation) == 1.0
    requires HmdTransformInQvrCS(qvr, raw, qhmd, phmd) == recenter
    ensures TrackerUpdate(m, qvr, raw, HmdTransform, phmd, qhmd, recenter, shift, start)
            == HmdTransformUpdate(Identity, shift)
  {
    var call := TrackerUpdate(m, qvr, raw, HmdTransform, phmd, qhmd, recenter, shift, start);
    assert call.HmdTransformUpdate?;
    LocalTransformAtFrame(recenter);
    PivotAtIdentity(shift, start);
    assert call.position == shift;
    assert call.orientation == RenormalizedQ(m, Identity);
    RenormalizedIdentity(m);
  }

  lemma RenormalizedIdentity(m: Maths)
    requires m.SqrtExact()
    ensures RenormalizedQ(m, Identity) == Identity
  {
    assert MagnitudeSqr(Identity) == 1.0;
  }

  /** A frame seen from itself: no offset and no rotation. */
  lemma LocalTransformAtFrame(t: Transform)
    requires MagnitudeSqr(t.orientation) == 1.0
    ensures LocalTransform(t, t) == Transform(Zero, Identity)
  {
    var q := t.orientation;
    MultIsHamilton(Conjugated(q), q);
    HamiltonConjugate(q);
    ApplyComponents(Conjugated(q), Plus(t.position, Minus(t.position)));
  }

  /** Without rotation, the start-position pivot adds nothing to the shift. */
  lemma PivotAtIdentity(shift: Vector3, start: Vector3)
    ensures Plus(Plus(Zero, shift), Plus(start, Apply(Identity, Minus(start)))) == shift
  {
    ApplyComponents(Identity, Minus(start));
  }

  /** Normalise unless the squared magnitude is exactly 1. */
  function RenormalizedQ(m: Maths, q: Quaternion): (r: Quaternion)
    requires m.SqrtExact()
    ensures MagnitudeSqr(q) == 1.0 ==> r == q
    ensures Equal(MagnitudeSqr(q), 0.0) ==> r == Identity
    ensures !Equal(MagnitudeSqr(q), 0.0) && !Equal(MagnitudeSqr(q), 1.0) ==> MagnitudeSqr(r) == 1.0
  {
    NormalizedQUnit(m, q);
    if MagnitudeSqr(q) != 1.0 then NormalizedQ(m, q) else q
  }

  /** Subtracts whole turns while the angle is above π. */
  function WrapDown(angle: real): real
    decreases angle.Floor
  {
    if angle > Pi then WrapDown(angle - 2.0 * Pi) else angle
  }

  /** Adds whole turns while the angle is below -π. */
  function WrapUp(angle: real): real
    decreases (-angle).Floor
  {
    if angle < -Pi then WrapUp(angle + 2.0 * Pi) else angle
  }

  /** `angle` brought into [-π, π] by whole turns, first downwards, then upwards. */
  function Wrapped(angle: real): real {
    WrapUp(WrapDown(angle))
  }

  /** The number of turns `WrapDown` subtracts. */
  function DownTurns(angle: real): nat
    decreases angle.Floor
  {
    if angle > Pi then 1 + DownTurns(angle - 2.0 * Pi) else 0
  }

  /** The number of turns `WrapUp` adds. */
  function UpTurns(angle: real): nat
    decreases (-angle).Floor
  {
    if angle < -Pi then 1 + UpTurns(angle + 2.0 * Pi) else 0
  }

  /** The whole turns `Wrapped` takes away in all. */
  function WrapTurns(angle: real): int {
    DownTurns(angle) - UpTurns(WrapDown(angle))
  }

  lemma {:induction false} WrapDownBounds(angle: real)
    ensures WrapDown(angle) <= Pi
    ensures angle <= Pi ==> WrapDown(angle) == angle
    ensures WrapDown(angle) == angle - 2.0 * Pi * DownTurns(angle) as real
    decreases angle.Floor
  {
    if angle > Pi {
      WrapDownBounds(angle - 2.0 * Pi);
    }
  }

  lemma {:induction false} WrapUpBounds(angle: real)
    requires angle <= Pi
    ensures -Pi <= WrapUp(angle) <= Pi
    ensures -Pi <= angle ==> WrapUp(angle) == angle
    ensures WrapUp(angle) == angle + 2.0 * Pi * UpTurns(angle) as real
    decreases (-angle).Floor
  {
    if angle < -Pi {
      WrapUpBounds(angle + 2.0 * Pi);
    }
  }

  /**
   * The wrapped angle lies in [-π, π], differs from `angle` by whole turns,
   * and is `angle` itself when that already lies in [-π, π].
   */
  lemma WrappedBounds(angle: real)
    ensures -Pi <= Wrapped(angle) <= Pi
    ensures -Pi <= angle <= Pi ==> Wrapped(angle) == angle
    ensures Wrapped(angle) == angle - 2.0 * Pi * WrapTurns(angle) as real
  {
    WrapDownBounds(angle);
    WrapUpBounds(WrapDown(angle));
  }

  /** getAngleBetweenMinusPIAndPI: the two while-loops of the source. */
  method AngleBetweenMinusPiAndPi(angle: real) returns (r: real)
    ensures r == Wrapped(angle)
    ensures -Pi <= r <= Pi
  {
    r := angle;
    while r > Pi
      invariant WrapDown(r) == WrapDown(angle)
      decreases r.Floor
    {
      r := r - 2.0 * Pi;
    }
    while r < -Pi
      invariant r <= Pi
      invariant WrapUp(r) == Wrapped(angle)
      decreases (-r).Floor
    {
      r := r + 2.0 * Pi;
    }
    WrappedBounds(angle);
  }

  /** The unsigned rotation angle of `q`: twice acos of its scalar part, wrapped, made positive. */
  function AbsAngleOf(m: Maths, q: Quaternion): real {
    Abs(Wrapped(m.acos(q.w) * 2.0))
  }

  lemma AbsAngleBounds(m: Maths, q: Quaternion)
    ensures 0.0 <= AbsAngleOf(m, q) <= Pi
  {
    WrappedBounds(m.acos(q.w) * 2.0);
  }

  method AbsAngle(m: Maths, q: Quaternion) returns (r: real)
    ensures r == AbsAngleOf(m, q)
    ensures 0.0 <= r <= Pi
  {
    var aligned := AngleBetweenMinusPiAndPi(m.acos(q.w) * 2.0);
    r := Abs(aligned);
  }

  /**
   * The direction of the head shift between two recenters: the heading of
   * the new recenter rotation, turned by π unless the rotation between the
   * two has y·w < 0, minus half the signed angle of that rotation, wrapped
   * into [-π, π].
   */
  function PredictedAngle(m: Maths, before: Quaternion, after: Quaternion): real {
    var deltaRot := Mult(Conjugated(before), after);
    var heading := if deltaRot.y * deltaRot.w < 0.0 then HorizontalAngle(m, after)
                   else Pi + HorizontalAngle(m, after);
    Wrapped(heading - CopySign(AbsAngleOf(m, deltaRot), deltaRot.y * deltaRot.w) / 2.0)
  }

  /** The predicted direction always lies in [-π, π]. */
  lemma PredictedAngleBounds(m: Maths, before: Quaternion, after: Quaternion)
    ensures -Pi <= PredictedAngle(m, before, after) <= Pi
  {
    var deltaRot := Mult(Conjugated(before), after);
    var heading := if deltaRot.y * deltaRot.w < 0.0 then HorizontalAngle(m, after)
                   else Pi + HorizontalAngle(m, after);
    WrappedBounds(heading - CopySign(AbsAngleOf(m, deltaRot), deltaRot.y * deltaRot.w) / 2.0);
  }

  /** The head shift expected between two recenter rotations. */
  function HmdShift(m: Maths, before: Quaternion, after: Quaternion): Vector3 {
    PredictedShift(m, PredictLen(m, Mult(Conjugated(before), after)), PredictedAngle(m, before, after))
  }

  /**
   * The predicted shift is horizontal and, with a consistent cosine and
   * sine, its length is the predicted length of the rotation between the
   * two recenters.
   */
  lemma HmdShiftLength(m: Maths, before: Quaternion, after: Quaternion)
    requires var a := PredictedAngle(m, before, after); m.cos(a) * m.cos(a) + m.sin(a) * m.sin(a) == 1.0
    ensures HmdShift(m, before, after).y == 0.0
    ensures var len := PredictLen(m, Mult(Conjugated(before), after));
      LengthSqr(HmdShift(m, before, after)) == len * len
  {
    var len := PredictLen(m, Mult(Conjugated(before), after));
    var a := PredictedAngle(m, before, after);
    assert HmdShift(m, before, after) == PredictedShift(m, len, a);
    PredictedShiftLength(m, len, a);
  }

  /** predictHmdShift, with the wrapping loops of the source. */
  method PredictHmdShift(m: Maths, before: Quaternion, after: Quaternion) returns (shift: Vector3)
    ensures shift == HmdShift(m, before, after)
  {
    var deltaRot := Mult(Conjugated(before), after);
    var predictedLen := PredictLen(m, deltaRot);
    var predictedAng := if deltaRot.y * deltaRot.w < 0.0 then HorizontalAngle(m, after)
                        else Pi + HorizontalAngle(m, after);
    var absAngle := AbsAngle(m, deltaRot);
    var signedDelta := CopySign(absAngle, deltaRot.y * deltaRot.w);
    predictedAng := predictedAng - signedDelta / 2.0;
    var wrapped := AngleBetweenMinusPiAndPi(predictedAng);
    shift := PredictedShift(m, predictedLen, wrapped);
  }

  // ---------------------------------------------------------------------
  // Controller samples

  /** A float that may be NaN. */
  datatype Float = Finite(v: real) | NaN

  datatype FVector3 = FVector3(x: Float, y: Float, z: Float)
  datatype FQuaternion = FQuaternion(x: Float, y: Float, z: Float, w: Float)

  predicate IsNanV(v: FVector3) {
    v.x.NaN? || v.y.NaN? || v.z.NaN?
  }

  predicate IsNanQ(q: FQuaternion) {
    q.x.NaN? || q.y.NaN? || q.z.NaN? || q.w.NaN?
  }

  /** The controller elements whose events the service reads. */
  datatype Element =
    | ButtonZero | ButtonOne | ButtonTwo | ButtonThree | ButtonGrip | Touch | ButtonThumb | IndexTrigger

  /** What the tracking library reports for one controller on one tick. */
  datatype ControllerSample = ControllerSample(
    rotation: FQuaternion,
    position: FVector3,
    linearAcceleration: FVector3,
    angularVelocity: FVector3,
    indexTrigger: Float,
    events: set<Element>,
    touchX: Float,
    touchY: Float)

  /** The output arrays of getCurrentData. */
  datatype ControllerData = ControllerData(
    rot: seq<real>,
    pos: seq<real>,
    accel: seq<real>,
    angVel: seq<real>,
    trigger: Float,
    buttons: bv32,
    isTouching: int,
    touchPad: seq<real>,
    nanAlarm: bool)

  /** Index 1 is the left controller; every other index is the right one. */
  function HandNode(index: int): (node: Node)
    ensures node == LeftHand <==> index == 1
    ensures node == RightHand <==> index != 1
  {
    if index == 1 then LeftHand else RightHand
  }

  /** The components of a vector, or zeros when any of them is NaN. */
  function ScrubV(v: FVector3): (r: seq<real>)
    ensures |r| == 3
    ensures IsNanV(v) ==> r == [0.0, 0.0, 0.0]
    ensures !IsNanV(v) ==> r == [v.x.v, v.y.v, v.z.v]
  {
    if IsNanV(v) then [0.0, 0.0, 0.0] else [v.x.v, v.y.v, v.z.v]
  }

  const ButtonZeroBit: bv32 := 0x100
  const ButtonOneBit: bv32 := 0x200
  const ButtonGripBit: bv32 := 0x1000
  const IndexTriggerBit: bv32 := 0x2000
  const ButtonThumbBit: bv32 := 0x8000
  const ButtonBitsMask: bv32 := 0xB300

  /** The button bits raised by a tick's events; buttons one to three share one bit. */
  function ButtonBits(events: set<Element>): (b: bv32)
    ensures b & ButtonZeroBit != 0 <==> ButtonZero in events
    ensures b & ButtonOneBit != 0 <==> (ButtonOne in events || ButtonTwo in events || ButtonThree in events)
    ensures b & ButtonGripBit != 0 <==> ButtonGrip in events
    ensures b & IndexTriggerBit != 0 <==> IndexTrigger in events
    ensures b & ButtonThumbBit != 0 <==> ButtonThumb in events
    ensures b & !ButtonBitsMask == 0
  {
    (if ButtonZero in events then ButtonZeroBit else 0)
    | (if ButtonOne in events || ButtonTwo in events || ButtonThree in events then ButtonOneBit else 0)
    | (if ButtonGrip in events then ButtonGripBit else 0)
    | (if ButtonThumb in events then ButtonThumbBit else 0)
    | (if IndexTrigger in events then IndexTriggerBit else 0)
  }

  /**
   * getCurrentData for the controller sample `s`: a NaN rotation becomes
   * the identity, a NaN position, acceleration or angular velocity becomes
   * zero, a NaN touch axis becomes (0, 0), and each of these raises the
   * alarm.  The position's z is negated; button bits are or-ed into the
   * caller's word and a touch sets isTouching to 1.
   */
  function CurrentData(s: ControllerSample, buttonsIn: bv32, isTouchingIn: int): (d: ControllerData)
    ensures d.nanAlarm <==> IsNanQ(s.rotation) || IsNanV(s.position) || IsNanV(s.linearAcceleration)
                            || IsNanV(s.angularVelocity) || s.touchX.NaN? || s.touchY.NaN?
    ensures IsNanQ(s.rotation) ==> d.rot == [0.0, 0.0, 0.0, 1.0]
    ensures !IsNanQ(s.rotation) ==> d.rot == [s.rotation.x.v, s.rotation.y.v, s.rotation.z.v, s.rotation.w.v]
    ensures IsNanV(s.position) ==> d.pos == [0.0, 0.0, 0.0]
    ensures !IsNanV(s.position) ==> d.pos == [s.position.x.v, s.position.y.v, -s.position.z.v]
    ensures d.accel == ScrubV(s.linearAcceleration) && d.angVel == ScrubV(s.angularVelocity)
    ensures |d.touchPad| == 2
    ensures (s.touchX.NaN? || s.touchY.NaN?) ==> d.touchPad == [0.0, 0.0]
    ensures !(s.touchX.NaN? || s.touchY.NaN?) ==> d.touchPad == [s.touchX.v, s.touchY.v]
    ensures d.trigger == s.indexTrigger
    ensures d.buttons == buttonsIn | ButtonBits(s.events)
    ensures d.isTouching == if Touch in s.events then 1 else isTouchingIn
  {
    var rotNan := IsNanQ(s.rotation);
    var rot := if rotNan then [0.0, 0.0, 0.0, 1.0]
               else [s.rotation.x.v, s.rotation.y.v, s.rotation.z.v, s.rotation.w.v];
    var posNan := IsNanV(s.position);
    var p := ScrubV(s.position);
    var touchNan := s.touchX.NaN? || s.touchY.NaN?;
    var touch := if touchNan then [0.0, 0.0] else [s.touchX.v, s.touchY.v];
    ControllerData(
      rot,
      [p[0], p[1], -p[2]],
      ScrubV(s.linearAcceleration),
      ScrubV(s.angularVelocity),
      s.indexTrigger,
      buttonsIn | ButtonBits(s.events),
      if Touch in s.events then 1 else isTouchingIn,
      touch,
      rotNan || posNan || IsNanV(s.linearAcceleration) || IsNanV(s.angularVelocity) || touchNan)
  }

  /** The caller's button bits are kept, and only the five button bits can be added. */
  lemma CurrentDataButtonsKept(s: ControllerSample, buttonsIn: bv32, isTouchingIn: int)
    ensures CurrentData(s, buttonsIn, isTouchingIn).buttons & buttonsIn == buttonsIn
    ensures CurrentData(s, buttonsIn, isTouchingIn).buttons & !(buttonsIn | ButtonBitsMask) == 0
  {
  }

  /** The requests the service makes of the tracking library outside the update tick. */
  datatype LibraryCall =
    | Tick(call: TrackerCall)
    | Calibration
    | RecenterBoth
    | HapticPulse(node: Node, ms: int)
    | SwapUpperArms

  /** What recenter asks of the library after moving the recenter pose: both hands, forward. */
  const RecenterRequests: seq<LibraryCall> :=
    [Calibration, RecenterBoth, HapticPulse(RightHand, 500), HapticPulse(LeftHand, 500)]

  // ---------------------------------------------------------------------
  // The service object

  class Service {
    const m: Maths
    /** The runtime's and the raw headset coordinate systems. */
    const qvrCS: CoordinateSystem
    const rawHmdCS: CoordinateSystem
    /** A mode that overrides the requested one unless it is Unknown. */
    const forcedMode: UpdateType

    var mode: UpdateType
    var phmd: Vector3
    var qhmd: Quaternion
    var firstUpdate: bool
    var twoHandedMode: bool
    var oldCalibrationTime: int
    var oldHmdRecenterQuaternion: Quaternion
    var hmdRecenterTransform: Transform
    var hmdPositionShift: Vector3
    var startHmdPosition: Vector3

    /** Settings the service last pushed into the tracking library. */
    var rootOffset: Vector3
    var bodyRotationMode: BodyRotationMode

    /** The field initialisers; `NewService` supplies the two coordinate systems. */
    constructor (m: Maths, forcedMode: UpdateType, qvrCS: CoordinateSystem, rawHmdCS: CoordinateSystem)
      ensures this.m == m && this.forcedMode == forcedMode
      ensures this.qvrCS == qvrCS && this.rawHmdCS == rawHmdCS
      ensures mode == Internal && phmd == Zero && qhmd == Identity
      ensures !firstUpdate && twoHandedMode && oldCalibrationTime == 0
      ensures oldHmdRecenterQuaternion == Identity && hmdRecenterTransform == DefaultTransform
      ensures hmdPositionShift == Zero && startHmdPosition == Vector3(0.0, 0.0, -StartHmdPositionLength)
      ensures rootOffset == Zero && bodyRotationMode == NoBodyRotation
    {
      this.m := m;
      this.forcedMode := forcedMode;
      this.qvrCS := qvrCS;
      this.rawHmdCS := rawHmdCS;
      mode := Internal;
      phmd := Zero;
      qhmd := Identity;
      firstUpdate := false;
      twoHandedMode := true;
      oldCalibrationTime := 0;
      oldHmdRecenterQuaternion := Identity;
      hmdRecenterTransform := DefaultTransform;
      hmdPositionShift := Zero;
      startHmdPosition := Vector3(0.0, 0.0, -StartHmdPositionLength);
      rootOffset := Zero;
      bodyRotationMode := NoBodyRotation;
    }

    /** init: shoulder rotation, and the next update is the first one. */
    method Init()
      modifies this
      ensures firstUpdate && bodyRotationMode == ShoulderRotation
      ensures mode == old(mode) && phmd == old(phmd) && qhmd == old(qhmd)
      ensures twoHandedMode == old(twoHandedMode) && rootOffset == old(rootOffset)
      ensures oldCalibrationTime == old(oldCalibrationTime) && hmdRecenterTransform == old(hmdRecenterTransform)
      ensures oldHmdRecenterQuaternion == old(oldHmdRecenterQuaternion)
      ensures hmdPositionShift == old(hmdPositionShift) && startHmdPosition == old(startHmdPosition)
    {
      bodyRotationMode := ShoulderRotation;
      firstUpdate := true;
    }

    /** One tick of the private update, on the service's current state. */
    method Track() returns (call: TrackerCall)
      requires m.SqrtExact()
      ensures call == TrackerUpdate(m, qvrCS, rawHmdCS, mode, phmd, qhmd,
                                    hmdRecenterTransform, hmdPositionShift, startHmdPosition)
    {
      call := TrackerUpdate(m, qvrCS, rawHmdCS, mode, phmd, qhmd,
                            hmdRecenterTransform, hmdPositionShift, startHmdPosition);
    }

    /**
     * update(mode, phmd, qhmd).  `leftUpperArmOk`/`rightUpperArmOk` are the
     * library's connected-and-correct answers for the upper-arm nodes,
     * `swapGesture` whether it reports the left upper arm's button zero
     * pressed, and `trackerAccepted` whether it accepted the tick's update.
     * Unless the mode changed, the upper arms are swapped on the gesture and
     * the private update runs on the new state; `calls` lists these requests.
     */
    method Update(requested: UpdateType, p: Vector3, q: Quaternion,
                  leftUpperArmOk: bool, rightUpperArmOk: bool, swapGesture: bool, trackerAccepted: bool)
      returns (ok: bool, calls: seq<LibraryCall>)
      requires m.SqrtExact()
      modifies this
      ensures (phmd, qhmd) == SampleOrLast(p, q, old(phmd), old(qhmd))
      ensures mode == EffectiveMode(forcedMode, requested)
      ensures twoHandedMode == (leftUpperArmOk && rightUpperArmOk)
      ensures !firstUpdate
      ensures rootOffset == if old(firstUpdate) || mode != old(mode) then RootOffsetFor(mode) else old(rootOffset)
      ensures bodyRotationMode == if twoHandedMode != old(twoHandedMode)
                                  then ArmSwitchRotation(twoHandedMode, mode) else old(bodyRotationMode)
      ensures ok <==> mode == old(mode) && mode != Unknown && trackerAccepted
      ensures mode != old(mode) ==> calls == []
      ensures mode == old(mode) ==>
        calls == (if swapGesture then [SwapUpperArms] else []) + [Tick(TrackerUpdate(m, qvrCS, rawHmdCS, mode,
                   phmd, qhmd, hmdRecenterTransform, hmdPositionShift, startHmdPosition))]
      ensures oldCalibrationTime == old(oldCalibrationTime) && hmdRecenterTransform == old(hmdRecenterTransform)
      ensures oldHmdRecenterQuaternion == old(oldHmdRecenterQuaternion)
      ensures hmdPositionShift == old(hmdPositionShift) && startHmdPosition == old(startHmdPosition)
    {
      var (pNew, qNew) := SampleOrLast(p, q, phmd, qhmd);
      var newMode := EffectiveMode(forcedMode, requested);
      var modeWasChanged := mode != newMode;
      SwitchModes(newMode, leftUpperArmOk && rightUpperArmOk);
      phmd, qhmd := pNew, qNew;
      calls := [];
      if modeWasChanged {
        ok := false;
      } else {
        if swapGesture {
          calls := [SwapUpperArms];
        }
        var call := Track();
        calls := calls + [Tick(call)];
        // The private update (`Track`) refuses Unknown and hands every other
        // mode's pose to the library, whose answer is `trackerAccepted`.
        ok := newMode != Unknown && trackerAccepted;
      }
    }

    /**
     * The mode and arm bookkeeping of an update: the new mode and arm mode
     * are stored, the root offset is reset on the first update and on a
     * mode change, and the body rotation follows an arm-mode switch.
     */
    method SwitchModes(newMode: UpdateType, twoHanded: bool)
      modifies this
      ensures mode == newMode && twoHandedMode == twoHanded && !firstUpdate
      ensures rootOffset == if old(firstUpdate) || newMode != old(mode) then RootOffsetFor(newMode) else old(rootOffset)
      ensures bodyRotationMode == if twoHanded != old(twoHandedMode)
                                  then ArmSwitchRotation(twoHanded, newMode) else old(bodyRotationMode)
      ensures phmd == old(phmd) && qhmd == old(qhmd)
      ensures oldCalibrationTime == old(oldCalibrationTime) && hmdRecenterTransform == old(hmdRecenterTransform)
      ensures oldHmdRecenterQuaternion == old(oldHmdRecenterQuaternion)
      ensures hmdPositionShift == old(hmdPositionShift) && startHmdPosition == old(startHmdPosition)
    {
      if firstUpdate || mode != newMode {
        rootOffset := RootOffsetFor(newMode);
      }
      if twoHanded != twoHandedMode {
        bodyRotationMode := ArmSwitchRotation(twoHanded, newMode);
      }
      mode, twoHandedMode, firstUpdate := newMode, twoHanded, false;
    }

    /**
     * recenter at time `now` (nanoseconds).  When `bindsControllers` (the
     * library's answer) holds, one tick of the private update runs first.
     * Then the recenter pose becomes the headset pose with only its yaw
     * kept, the start position follows it, and the head shift is
     * re-estimated only when more than 5 ms passed since the previous
     * recenter.  Last, the library is calibrated and recentered and both
     * hands get a 500 ms haptic pulse; `calls` lists these requests in order.
     */
    method Recenter(now: int, bindsControllers: bool) returns (calls: seq<LibraryCall>)
      requires m.SqrtExact()
      modifies this
      ensures calls == (if bindsControllers then [Tick(old(TrackerUpdate(m, qvrCS, rawHmdCS, mode, phmd, qhmd,
                                                    hmdRecenterTransform, hmdPositionShift, startHmdPosition)))]
                        else []) + RecenterRequests
      ensures oldHmdRecenterQuaternion == old(hmdRecenterTransform.orientation)
      ensures hmdRecenterTransform.position == ToQvrV(qvrCS, rawHmdCS, old(phmd))
      ensures hmdRecenterTransform.orientation == QHmdOffset(m, ToQvrQ(qvrCS, rawHmdCS, old(qhmd)))
      ensures startHmdPosition == Apply(Conjugated(hmdRecenterTransform.orientation),
                                        Vector3(0.0, 0.0, -StartHmdPositionLength))
      ensures hmdPositionShift == if Abs((old(oldCalibrationTime) - now) as real) > CalibrationDebounceNs as real
                                  then HmdShift(m, old(hmdRecenterTransform.orientation), hmdRecenterTransform.orientation)
                                  else old(hmdPositionShift)
      ensures oldCalibrationTime == now
      ensures mode == old(mode) && phmd == old(phmd) && qhmd == old(qhmd) && firstUpdate == old(firstUpdate)
      ensures twoHandedMode == old(twoHandedMode) && rootOffset == old(rootOffset)
      ensures bodyRotationMode == old(bodyRotationMode)
    {
      calls := [];
      if bindsControllers {
        var call := Track();
        calls := [Tick(call)];
      }
      SetRecenterPose(now);
      calls := calls + RecenterRequests;
    }

    /** The state changes of recenter, after the optional tick and before the library requests. */
    method SetRecenterPose(now: int)
      requires m.SqrtExact()
      modifies this
      ensures oldHmdRecenterQuaternion == old(hmdRecenterTransform.orientation)
      ensures hmdRecenterTransform.position == ToQvrV(qvrCS, rawHmdCS, old(phmd))
      ensures hmdRecenterTransform.orientation == QHmdOffset(m, ToQvrQ(qvrCS, rawHmdCS, old(qhmd)))
      ensures startHmdPosition == Apply(Conjugated(hmdRecenterTransform.orientation),
                                        Vector3(0.0, 0.0, -StartHmdPositionLength))
      ensures hmdPositionShift == if Abs((old(oldCalibrationTime) - now) as real) > CalibrationDebounceNs as real
                                  then HmdShift(m, old(hmdRecenterTransform.orientation), hmdRecenterTransform.orientation)
                                  else old(hmdPositionShift)
      ensures oldCalibrationTime == now
      ensures mode == old(mode) && phmd == old(phmd) && qhmd == old(qhmd) && firstUpdate == old(firstUpdate)
      ensures twoHandedMode == old(twoHandedMode) && rootOffset == old(rootOffset)
      ensures bodyRotationMode == old(bodyRotationMode)
    {
      var before := hmdRecenterTransform.orientation;
      var t := HmdTransformInQvrCS(qvrCS, rawHmdCS, qhmd, phmd);
      var recenter := Transform(t.position, QHmdOffset(m, t.orientation));
      var shift := hmdPositionShift;
      if Abs((oldCalibrationTime - now) as real) > CalibrationDebounceNs as real {
        shift := PredictHmdShift(m, before, recenter.orientation);
      }
      oldHmdRecenterQuaternion := before;
      hmdRecenterTransform := recenter;
      startHmdPosition := Apply(Conjugated(recenter.orientation), Vector3(0.0, 0.0, -StartHmdPositionLength));
      hmdPositionShift := shift;
      oldCalibrationTime := now;
    }
  }

  /** A service as the source constructs it, with the runtime's and the raw headset coordinate systems. */
  method NewService(m: Maths, forcedMode: UpdateType) returns (s: Service)
    requires m.SqrtExact()
    ensures fresh(s) && s.m == m && s.forcedMode == forcedMode
    ensures s.qvrCS == QvrCS(m) && s.rawHmdCS == RawHmdCS(m)
    ensures s.mode == Internal && !s.firstUpdate && s.twoHandedMode
    ensures s.hmdRecenterTransform == DefaultTransform && s.hmdPositionShift == Zero
  {
    var qvr := BuildQvrCS(m);
    var raw := BuildRawHmdCS(m);
    s := new Service(m, forcedMode, qvr, raw);
  }
}
