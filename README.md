# Snapdragon XR runtime core, modelled in Dafny

This project models the sequential logic of an Android XR runtime built on the
Snapdragon XR SDK, together with the Finch controller service that feeds it
controller poses. Each core source file becomes one Dafny module. The project
does not model rendering, threads or the vendor libraries behind them.

- **Finch controller service** (`FinchMath`, `FinchService`, `FinchControllerStorage`).
  - Quaternion and vector algebra, and the change-of-basis `CoordinateSystem`.
  - Headset tracking-mode classification and the polling tick.
  - Recenter with its 5 ms debounce, and the one-handed / two-handed arm switch.
  - NaN scrubbing of controller samples and the button bit word.
- **SDK framework pieces.**
  - Key and pointer input state (`SvrInput`).
  - The row-pipeline completion bitmask (`RowPipeline`).
  - Heuristic prediction ring buffer, perf and thermal mappings, tracking-mode bits and the submit ring (`SvrApiCore`).
  - String splitting, key/value parameters, camera format names, sensor orientation and bilinear texture lookup (`CameraManager`).
  - Distortion-mesh CSV line parsing, grid index generation and the quad-layer mesh cache (`DistortionMesh`).
  - UUID text encoding and decoding, anchor clearing and pose conversion (`Anchors`).
  - Wireframe index expansion (`Geometry`).
- **OpenXR runtime.**
  - The path registry and view-configuration queries (`OpenXrApi`).
  - Session state machine (`OpenXrSession`), event queue (`OpenXrEvent`) and swapchains (`OpenXrSwapchain`).
  - Binding registry and input-path parsing (`InputManager`).
  - Controller button reads, controller index and performance-level stepping on the XR2 (`Xr2Platform`).

Code that changes state in place is modelled as classes:
- arrays for fixed-size buffers;
- `seq` and `map` fields for lists and dictionaries;
- methods whose `ensures` give the complete new state.

Loops in the source are methods with loop invariants, proved equal to a specification function. Pure code is functions and lemmas.

Floating-point values are `real`. sqrt, acos, asin, atan2, cos and sin are function-valued fields of a `Maths` record. Square roots are exact wherever `SqrtExact` is required. SDK, QVR, GL and Finch-library calls become parameters that carry their results.

## Model

| member | source | states |
|---|---|---|
| FinchMath.MagnitudeSqrNonNegative | SnapdragonXR-SDK-source.rel.4.0.5/controllers/FinchControllerService/app/src/main/java/com/qti/acg/apps/controllers/finch/FinchMath.java:23-25 | the squared magnitude of a quaternion is never negative |
| FinchMath.NormalizedQ | SnapdragonXR-SDK-source.rel.4.0.5/controllers/FinchControllerService/app/src/main/java/com/qti/acg/apps/controllers/finch/FinchMath.java:27-40 | a quaternion whose squared magnitude is within 1e-6 of 1 comes back unchanged, and one within 1e-6 of 0 becomes the identity (0, 0, 0, 1); any other comes back unit, as NormalizedQUnit proves |
| FinchMath.NormalizedV | SnapdragonXR-SDK-source.rel.4.0.5/controllers/FinchControllerService/app/src/main/java/com/qti/acg/apps/controllers/finch/FinchMath.java:134-147 | a vector whose squared length is within 1e-6 of 1 comes back unchanged, and one within 1e-6 of 0 becomes the zero vector; any other comes back unit, as NormalizedVUnit proves |
| FinchMath.NormalizedQUnit | SnapdragonXR-SDK-source.rel.4.0.5/controllers/FinchControllerService/app/src/main/java/com/qti/acg/apps/controllers/finch/FinchMath.java:27-40 | with exact square roots, a quaternion whose squared magnitude is within 1e-6 of neither 0 nor 1 comes back with squared magnitude exactly 1, and every quaternion not within 1e-6 of 0 comes back within 1e-6 of unit |
| FinchMath.NormalizedVUnit | SnapdragonXR-SDK-source.rel.4.0.5/controllers/FinchControllerService/app/src/main/java/com/qti/acg/apps/controllers/finch/FinchMath.java:134-147 | with exact square roots, a vector whose squared length is within 1e-6 of neither 0 nor 1 comes back with squared length exactly 1, and every vector not within 1e-6 of 0 comes back within 1e-6 of unit |
| FinchMath.Conjugated | SnapdragonXR-SDK-source.rel.4.0.5/controllers/FinchControllerService/app/src/main/java/com/qti/acg/apps/controllers/finch/FinchMath.java:42-44 | x, y and z are negated, w is kept, and so is the squared magnitude |
| FinchMath.ConjugatedInvolution | SnapdragonXR-SDK-source.rel.4.0.5/controllers/FinchControllerService/app/src/main/java/com/qti/acg/apps/controllers/finch/FinchMath.java:42-44 | conjugating twice gives the quaternion back |
| FinchMath.MultIsHamilton | SnapdragonXR-SDK-source.rel.4.0.5/controllers/FinchControllerService/app/src/main/java/com/qti/acg/apps/controllers/finch/FinchMath.java:46-59 | the sixteen-product formula of mult equals the Hamilton product |
| FinchMath.MultIdentityLeft | SnapdragonXR-SDK-source.rel.4.0.5/controllers/FinchControllerService/app/src/main/java/com/qti/acg/apps/controllers/finch/FinchMath.java:46-59 | mult with the identity on the left gives the quaternion back |
| FinchMath.HamiltonIdentity | SnapdragonXR-SDK-source.rel.4.0.5/controllers/FinchControllerService/app/src/main/java/com/qti/acg/apps/controllers/finch/FinchMath.java:46-59 | the identity quaternion is a left and right unit of the product |
| FinchMath.HamiltonConjugate | SnapdragonXR-SDK-source.rel.4.0.5/controllers/FinchControllerService/app/src/main/java/com/qti/acg/apps/controllers/finch/FinchMath.java:42-59 | q times its conjugate, in either order, is (0, 0, 0, magnitudeSqr(q)) |
| FinchMath.HamiltonAssociative | SnapdragonXR-SDK-source.rel.4.0.5/controllers/FinchControllerService/app/src/main/java/com/qti/acg/apps/controllers/finch/FinchMath.java:46-59 | the product is associative |
| FinchMath.MultPreservesUnit | SnapdragonXR-SDK-source.rel.4.0.5/controllers/FinchControllerService/app/src/main/java/com/qti/acg/apps/controllers/finch/FinchMath.java:46-59 | the product of two unit quaternions is a unit quaternion |
| FinchMath.HamiltonNorm | SnapdragonXR-SDK-source.rel.4.0.5/controllers/FinchControllerService/app/src/main/java/com/qti/acg/apps/controllers/finch/FinchMath.java:46-59 | the squared magnitude of a product is the product of the squared magnitudes |
| FinchMath.ApplyIsSandwich | SnapdragonXR-SDK-source.rel.4.0.5/controllers/FinchControllerService/app/src/main/java/com/qti/acg/apps/controllers/finch/FinchMath.java:67-79 | for a unit q, apply(q, v) is the vector part of q·(v, 0)·q⁻¹ and the scalar part of that product is 0, as the source's comment promises |
| FinchMath.ApplyInverse | SnapdragonXR-SDK-source.rel.4.0.5/controllers/FinchControllerService/app/src/main/java/com/qti/acg/apps/controllers/finch/FinchMath.java:67-79 | for a unit q, rotating by q and by its conjugate undo each other, in both orders |
| FinchMath.ApplyPreservesLength | SnapdragonXR-SDK-source.rel.4.0.5/controllers/FinchControllerService/app/src/main/java/com/qti/acg/apps/controllers/finch/FinchMath.java:67-79 | rotating by a unit quaternion keeps the squared length of a vector |
| FinchMath.ApplyMult | SnapdragonXR-SDK-source.rel.4.0.5/controllers/FinchControllerService/app/src/main/java/com/qti/acg/apps/controllers/finch/FinchMath.java:46-79 | rotating by mult(a, b) of unit quaternions rotates by b first, then by a |
| FinchMath.ConvertIsSandwich | SnapdragonXR-SDK-source.rel.4.0.5/controllers/FinchControllerService/app/src/main/java/com/qti/acg/apps/controllers/finch/FinchMath.java:81-83 | convertQuaternion(cq, q) is the change of frame cq⁻¹·q·cq |
| FinchMath.RotationAxis | SnapdragonXR-SDK-source.rel.4.0.5/controllers/FinchControllerService/app/src/main/java/com/qti/acg/apps/controllers/finch/FinchMath.java:93-99 | when the sine of the angle is 0 the axis is (0, 0, 1) |
| FinchMath.ClampedHalfVersine | SnapdragonXR-SDK-source.rel.4.0.5/controllers/FinchControllerService/app/src/main/java/com/qti/acg/apps/controllers/finch/FinchMath.java:101-103 | 0.5 - 0.5·cos is clamped at 0 from below and otherwise kept |
| FinchMath.RotationBetweenParallel | SnapdragonXR-SDK-source.rel.4.0.5/controllers/FinchControllerService/app/src/main/java/com/qti/acg/apps/controllers/finch/FinchMath.java:93-107 | for normalised directions whose cross product has length 0, the rotation has x = y = 0 and z the square root of the clamped 0.5 - 0.5·cos |
| FinchMath.FromToRotationParallel | SnapdragonXR-SDK-source.rel.4.0.5/controllers/FinchControllerService/app/src/main/java/com/qti/acg/apps/controllers/finch/FinchMath.java:85-108 | for parallel directions the rotation is about (0, 0, 1): x and y are 0 and z is the non-negative square root of the clamped 0.5 - 0.5·cos |
| FinchMath.FromToRotationAsWritten | SnapdragonXR-SDK-source.rel.4.0.5/controllers/FinchControllerService/app/src/main/java/com/qti/acg/apps/controllers/finch/FinchMath.java:85-108 | fromToRotation as written: when the normalised directions have a cross product of length 0, opposite ones included, the rotation is about +z alone (x = y = 0) |
| FinchMath.FromToRotation | SnapdragonXR-SDK-source.rel.4.0.5/controllers/FinchControllerService/app/src/main/java/com/qti/acg/apps/controllers/finch/FinchMath.java:85-108 | the corrected fromToRotation (Findings row 6) equals the source's unless the normalised directions are opposite and +z is not perpendicular to the first |
| FinchMath.FromToRotationScalar | SnapdragonXR-SDK-source.rel.4.0.5/controllers/FinchControllerService/app/src/main/java/com/qti/acg/apps/controllers/finch/FinchMath.java:101-107 | the scalar part w of the rotation is non-negative and w² = 0.5 + 0.5·cos of the angle between the directions |
| FinchMath.FromToRotationSelf | SnapdragonXR-SDK-source.rel.4.0.5/controllers/FinchControllerService/app/src/main/java/com/qti/acg/apps/controllers/finch/FinchMath.java:85-108 | the rotation from a unit vector to itself is the identity |
| FinchMath.UnitFromToRotation | SnapdragonXR-SDK-source.rel.4.0.5/controllers/FinchControllerService/app/src/main/java/com/qti/acg/apps/controllers/finch/FinchMath.java:85-108 | as written, between unit vectors fromToRotation takes `from` onto `to` unless they are opposite and `from` is not perpendicular to z (Findings row 6 gives such a pair) |
| FinchMath.FromToRotationAsWrittenUnit | SnapdragonXR-SDK-source.rel.4.0.5/controllers/FinchControllerService/app/src/main/java/com/qti/acg/apps/controllers/finch/FinchMath.java:85-108 | as written, between unit vectors fromToRotation is a unit quaternion, opposite directions included |
| FinchMath.QuarterTurn | SnapdragonXR-SDK-source.rel.4.0.5/controllers/FinchControllerService/app/src/main/java/com/qti/acg/apps/controllers/finch/FinchMath.java:85-108 | between perpendicular unit vectors, fromToRotation is the quarter turn: the cross product scaled by √½, with scalar part √½ |
| FinchMath.FromToRotationMaps | SnapdragonXR-SDK-source.rel.4.0.5/controllers/FinchControllerService/app/src/main/java/com/qti/acg/apps/controllers/finch/FinchMath.java:85-108 | when both directions normalise to unit vectors, fromToRotation (with the corrected fallback axis) is a unit quaternion taking the normalised `from` onto the normalised `to`, opposite directions included |
| FinchMath.RotationBetweenMaps | SnapdragonXR-SDK-source.rel.4.0.5/controllers/FinchControllerService/app/src/main/java/com/qti/acg/apps/controllers/finch/FinchMath.java:93-107 | between any two unit vectors the rotation is a unit quaternion taking the first onto the second, opposite vectors included |
| FinchMath.RotationBetweenUnit | SnapdragonXR-SDK-source.rel.4.0.5/controllers/FinchControllerService/app/src/main/java/com/qti/acg/apps/controllers/finch/FinchMath.java:93-107 | between unit vectors the rotation is a unit quaternion |
| FinchMath.RotationBetweenMapsOpposite | SnapdragonXR-SDK-source.rel.4.0.5/controllers/FinchControllerService/app/src/main/java/com/qti/acg/apps/controllers/finch/FinchMath.java:93-107 | half a turn about the corrected fallback axis takes a unit vector onto its opposite |
| FinchMath.RotationBetweenAgrees | SnapdragonXR-SDK-source.rel.4.0.5/controllers/FinchControllerService/app/src/main/java/com/qti/acg/apps/controllers/finch/FinchMath.java:93-107 | the corrected rotation is the source's own unless the directions are opposite and +z is not perpendicular to `from` |
| FinchMath.FromToRotationAsWrittenBackward | SnapdragonXR-SDK-source.rel.4.0.5/controllers/FinchControllerService/app/src/main/java/com/qti/acg/apps/controllers/finch/FinchMath.java:85-108 | as written, the rotation from forward (+z) to backward (-z) is the half turn (0, 0, 1, 0) about +z, which leaves forward where it was |
| FinchMath.NewCoordinateSystem | SnapdragonXR-SDK-source.rel.4.0.5/controllers/FinchControllerService/app/src/main/java/com/qti/acg/apps/controllers/finch/FinchMath.java:155-175 | the system is right-handed exactly when dot(cross(x, y), z) > 0; a right-handed system takes getCoordQuat (as written) of its axes, a left-handed one getCoordQuat of the negated axes |
| FinchMath.GetCoordQuat | SnapdragonXR-SDK-source.rel.4.0.5/controllers/FinchControllerService/app/src/main/java/com/qti/acg/apps/controllers/finch/FinchMath.java:61-65 | getCoordQuat as written: for unit x and y axes it is a unit quaternion |
| FinchMath.CoordQuatMapsUp | SnapdragonXR-SDK-source.rel.4.0.5/controllers/FinchControllerService/app/src/main/java/com/qti/acg/apps/controllers/finch/FinchMath.java:61-65 | for unit x and y axes, getCoordQuat takes +y onto y unless the first rotation carries +y exactly opposite to y while +z is not perpendicular to it |
| FinchMath.CoordQuatAsWrittenMissesY | SnapdragonXR-SDK-source.rel.4.0.5/controllers/FinchControllerService/app/src/main/java/com/qti/acg/apps/controllers/finch/FinchMath.java:61-65 | as written, when the first rotation carries +y onto -y and y is not in the xy-plane, the second rotation is the half turn about +z and +y lands on y mirrored in z, not on y |
| FinchMath.NewCoordinateSystemUnit | SnapdragonXR-SDK-source.rel.4.0.5/controllers/FinchControllerService/app/src/main/java/com/qti/acg/apps/controllers/finch/FinchMath.java:155-175 | a coordinate system built from unit x and y axes has a unit basis quaternion, so the round trips below apply to it |
| FinchMath.TransformQIsSandwich | SnapdragonXR-SDK-source.rel.4.0.5/controllers/FinchControllerService/app/src/main/java/com/qti/acg/apps/controllers/finch/FinchMath.java:177-179 | transform(q) is the change of frame c⁻¹·q·c by the system's quaternion c |
| FinchMath.InverseTransformQIsSandwich | SnapdragonXR-SDK-source.rel.4.0.5/controllers/FinchControllerService/app/src/main/java/com/qti/acg/apps/controllers/finch/FinchMath.java:192-195 | inverseTransform(q) is the opposite change of frame c·q·c⁻¹ |
| FinchMath.QuaternionTransformRoundTrip | SnapdragonXR-SDK-source.rel.4.0.5/controllers/FinchControllerService/app/src/main/java/com/qti/acg/apps/controllers/finch/FinchMath.java:177-195 | for a unit system quaternion, transform and inverseTransform of a quaternion undo each other in both orders |
| FinchMath.VectorTransformRoundTrip | SnapdragonXR-SDK-source.rel.4.0.5/controllers/FinchControllerService/app/src/main/java/com/qti/acg/apps/controllers/finch/FinchMath.java:181-200 | for a unit system quaternion, transform and inverseTransform of a vector undo each other in both orders, for both handednesses |
| FinchService.QvrCSRightHanded | SnapdragonXR-SDK-source.rel.4.0.5/controllers/FinchControllerService/app/src/main/java/com/qti/acg/apps/controllers/finch/FinchService.java:58 | the runtime's coordinate system is right-handed |
| FinchService.RawHmdCSLeftHanded | SnapdragonXR-SDK-source.rel.4.0.5/controllers/FinchControllerService/app/src/main/java/com/qti/acg/apps/controllers/finch/FinchService.java:59 | the raw headset coordinate system is left-handed |
| FinchService.QvrCSUnit | SnapdragonXR-SDK-source.rel.4.0.5/controllers/FinchControllerService/app/src/main/java/com/qti/acg/apps/controllers/finch/FinchService.java:58 | the runtime's coordinate system has a unit basis quaternion |
| FinchService.RawHmdCSUnit | SnapdragonXR-SDK-source.rel.4.0.5/controllers/FinchControllerService/app/src/main/java/com/qti/acg/apps/controllers/finch/FinchService.java:59 | the raw headset coordinate system has a unit basis quaternion |
| FinchService.BuildQvrCS | SnapdragonXR-SDK-source.rel.4.0.5/controllers/FinchControllerService/app/src/main/java/com/qti/acg/apps/controllers/finch/FinchService.java:58 | the runtime's coordinate system, built from the axes (0,-1,0), (0,0,1), (-1,0,0), is right-handed and has a unit basis quaternion |
| FinchService.BuildRawHmdCS | SnapdragonXR-SDK-source.rel.4.0.5/controllers/FinchControllerService/app/src/main/java/com/qti/acg/apps/controllers/finch/FinchService.java:59 | the raw headset coordinate system, built from the axes (0,0,1), (0,1,0), (1,0,0), is left-handed and has a unit basis quaternion |
| FinchService.LocalRotationRoundTrip | SnapdragonXR-SDK-source.rel.4.0.5/controllers/FinchControllerService/app/src/main/java/com/qti/acg/apps/controllers/finch/FinchService.java:68-70 | for a unit frame rotation, composing the frame with the local rotation gives the global rotation back |
| FinchService.LocalTransformRoundTrip | SnapdragonXR-SDK-source.rel.4.0.5/controllers/FinchControllerService/app/src/main/java/com/qti/acg/apps/controllers/finch/FinchService.java:72-81 | for a unit frame rotation, placing the local pose back into the frame gives the global position and orientation |
| FinchService.QHmdOffset | SnapdragonXR-SDK-source.rel.4.0.5/controllers/FinchControllerService/app/src/main/java/com/qti/acg/apps/controllers/finch/FinchService.java:61-66 | getQHmdOffset as written: a headset whose forward direction points exactly backward gets the half turn (0, 0, 1, 0) about +z, a roll rather than a yaw |
| FinchService.QHmdOffsetLookingAhead | SnapdragonXR-SDK-source.rel.4.0.5/controllers/FinchControllerService/app/src/main/java/com/qti/acg/apps/controllers/finch/FinchService.java:61-66 | a headset whose forward direction is straight ahead needs no yaw offset |
| FinchService.QHmdOffsetFacingBackward | SnapdragonXR-SDK-source.rel.4.0.5/controllers/FinchControllerService/app/src/main/java/com/qti/acg/apps/controllers/finch/FinchService.java:61-66 | the headset turned half a turn about y, (0, 1, 0, 0), gets the offset (0, 0, 1, 0): a roll about +z |
| FinchService.QHmdOffsetIsYaw | SnapdragonXR-SDK-source.rel.4.0.5/controllers/FinchControllerService/app/src/main/java/com/qti/acg/apps/controllers/finch/FinchService.java:61-66 | as written, the recenter offset is a pure yaw (no x or z part) whenever the horizontal part of the headset's forward direction is not within 1e-6 of zero and either points off the z axis or points ahead; see Left out for the directions along z |
| FinchService.PredictLenInverse | SnapdragonXR-SDK-source.rel.4.0.5/controllers/FinchControllerService/app/src/main/java/com/qti/acg/apps/controllers/finch/FinchService.java:116-119 | the predicted head-shift length inverts to asin(abs(y)) + 0.271 = (3.84·len + 0.523)² |
| FinchService.PredictedShiftLength | SnapdragonXR-SDK-source.rel.4.0.5/controllers/FinchControllerService/app/src/main/java/com/qti/acg/apps/controllers/finch/FinchService.java:121-123 | the predicted shift is horizontal and, with consistent cosine and sine, has length abs(len) |
| FinchService.AngleBetweenMinusPiAndPi | SnapdragonXR-SDK-source.rel.4.0.5/controllers/FinchControllerService/app/src/main/java/com/qti/acg/apps/controllers/finch/FinchService.java:103-110 | the two loops compute the wrapped angle: it lies in [-π, π], is the input minus a whole number of turns, and is the input itself when that already lies in [-π, π] |
| FinchService.WrappedBounds | SnapdragonXR-SDK-source.rel.4.0.5/controllers/FinchControllerService/app/src/main/java/com/qti/acg/apps/controllers/finch/FinchService.java:103-110 | the wrapped angle lies in [-π, π], is the input minus a whole number of turns, and is the input itself when that already lies in [-π, π] |
| FinchService.AbsAngle | SnapdragonXR-SDK-source.rel.4.0.5/controllers/FinchControllerService/app/src/main/java/com/qti/acg/apps/controllers/finch/FinchService.java:96-101 | twice the acos of the scalar part, wrapped into [-π, π] by the loops and made non-negative; so it lies in [0, π] |
| FinchService.AbsAngleBounds | SnapdragonXR-SDK-source.rel.4.0.5/controllers/FinchControllerService/app/src/main/java/com/qti/acg/apps/controllers/finch/FinchService.java:96-101 | the unsigned rotation angle lies in [0, π] |
| FinchService.PredictHmdShift | SnapdragonXR-SDK-source.rel.4.0.5/controllers/FinchControllerService/app/src/main/java/com/qti/acg/apps/controllers/finch/FinchService.java:83-94 | the shift is getPredictedShift of predictLen of the rotation between the two recenters, in the direction the source computes: the new heading, turned by π unless y·w < 0 for that rotation, minus half its signed angle, wrapped into [-π, π] |
| FinchService.PredictedAngleBounds | SnapdragonXR-SDK-source.rel.4.0.5/controllers/FinchControllerService/app/src/main/java/com/qti/acg/apps/controllers/finch/FinchService.java:83-94 | the predicted direction lies in [-π, π] |
| FinchService.HmdShiftLength | SnapdragonXR-SDK-source.rel.4.0.5/controllers/FinchControllerService/app/src/main/java/com/qti/acg/apps/controllers/finch/FinchService.java:83-94 | the predicted shift is horizontal and, with a consistent cosine and sine, its squared length is the square of predictLen of the rotation between the two recenters |
| FinchService.CopySign | SnapdragonXR-SDK-source.rel.4.0.5/controllers/FinchControllerService/app/src/main/java/com/qti/acg/apps/controllers/finch/FinchService.java:90 | the magnitude of the first argument with the sign of the second |
| FinchService.ToQvrVInvertible | SnapdragonXR-SDK-source.rel.4.0.5/controllers/FinchControllerService/app/src/main/java/com/qti/acg/apps/controllers/finch/FinchService.java:252-254 | for unit basis quaternions, the change of a headset position into the runtime's frame can be undone |
| FinchService.EffectiveMode | SnapdragonXR-SDK-source.rel.4.0.5/controllers/FinchControllerService/app/src/main/java/com/qti/acg/apps/controllers/finch/FinchService.java:263 | a forced mode overrides the requested one unless it is Unknown |
| FinchService.SampleOrLast | SnapdragonXR-SDK-source.rel.4.0.5/controllers/FinchControllerService/app/src/main/java/com/qti/acg/apps/controllers/finch/FinchService.java:257-261 | a sample whose seven components are all within 1e-6 of 0 is replaced by the last stored sample; any other is kept |
| FinchService.RootOffsetFor | SnapdragonXR-SDK-source.rel.4.0.5/controllers/FinchControllerService/app/src/main/java/com/qti/acg/apps/controllers/finch/FinchService.java:292-300 | Internal mode sets the root offset (0, -0.25, 0), below the origin; every other mode sets zero |
| FinchService.ArmSwitchRotation | SnapdragonXR-SDK-source.rel.4.0.5/controllers/FinchControllerService/app/src/main/java/com/qti/acg/apps/controllers/finch/FinchService.java:302-309 | shoulder rotation exactly in two-handed mode; otherwise no body rotation in Internal mode and headset body rotation in any other |
| FinchService.TrackerUpdate | SnapdragonXR-SDK-source.rel.4.0.5/controllers/FinchControllerService/app/src/main/java/com/qti/acg/apps/controllers/finch/FinchService.java:463-496 | Unknown mode exactly is an illegal argument and Internal mode exactly lets the library track alone; in HmdRotation mode the renormalised headset rotation relative to the recenter pose is handed over with a zero position; in HmdTransform mode the same rotation, and as position the local position plus the predicted head shift plus the start position minus the start position rotated by the local orientation |
| FinchService.TrackerUpdateAtRecenterPose | SnapdragonXR-SDK-source.rel.4.0.5/controllers/FinchControllerService/app/src/main/java/com/qti/acg/apps/controllers/finch/FinchService.java:463-496 | in HmdTransform mode, a headset exactly at a unit recenter pose is handed over as the identity rotation at the predicted head shift |
| FinchService.RenormalizedQ | SnapdragonXR-SDK-source.rel.4.0.5/controllers/FinchControllerService/app/src/main/java/com/qti/acg/apps/controllers/finch/FinchService.java:474-476 | a quaternion of squared magnitude exactly 1 is kept, one within 1e-6 of 0 becomes the identity, and any other not within 1e-6 of 1 comes back exactly unit |
| FinchService.HandNode | SnapdragonXR-SDK-source.rel.4.0.5/controllers/FinchControllerService/app/src/main/java/com/qti/acg/apps/controllers/finch/FinchService.java:353-357 | index 1 reads the left hand, every other index the right hand |
| FinchService.ScrubV | SnapdragonXR-SDK-source.rel.4.0.5/controllers/FinchControllerService/app/src/main/java/com/qti/acg/apps/controllers/finch/FinchService.java:384-402 | a vector with any NaN component reads as zeros; otherwise its components are copied |
| FinchService.ButtonBits | SnapdragonXR-SDK-source.rel.4.0.5/controllers/FinchControllerService/app/src/main/java/com/qti/acg/apps/controllers/finch/FinchService.java:405-426 | each button bit is set exactly when its event fired (buttons one to three share 0x200), and no other bit is set |
| FinchService.CurrentData | SnapdragonXR-SDK-source.rel.4.0.5/controllers/FinchControllerService/app/src/main/java/com/qti/acg/apps/controllers/finch/FinchService.java:346-439 | a NaN rotation becomes the identity, a NaN position, acceleration, angular velocity or touch axis becomes zeros, each of these raises the alarm, z of the position is negated, button bits are or-ed in and a touch sets isTouching |
| FinchService.CurrentDataButtonsKept | SnapdragonXR-SDK-source.rel.4.0.5/controllers/FinchControllerService/app/src/main/java/com/qti/acg/apps/controllers/finch/FinchService.java:405-426 | the caller's button bits are kept and only the five button bits can be added |
| FinchService.Service.Init | SnapdragonXR-SDK-source.rel.4.0.5/controllers/FinchControllerService/app/src/main/java/com/qti/acg/apps/controllers/finch/FinchService.java:130-137 | shoulder body rotation is set and the next update is the first; nothing else changes |
| FinchService.Service.Track | SnapdragonXR-SDK-source.rel.4.0.5/controllers/FinchControllerService/app/src/main/java/com/qti/acg/apps/controllers/finch/FinchService.java:463-496 | one tick of the private update on the service's current state |
| FinchService.Service.Update | SnapdragonXR-SDK-source.rel.4.0.5/controllers/FinchControllerService/app/src/main/java/com/qti/acg/apps/controllers/finch/FinchService.java:256-344 | keeps the sample or the last one, takes the effective mode, sets two-handed mode from both upper arms, sets the root offset on the first update or a mode change, sets body rotation only on an arm-mode switch, and succeeds exactly when the mode is unchanged, known, and the tracker accepted the update; with the mode changed it calls nothing more, otherwise it asks for the upper-arm swap when the left upper arm's button-zero gesture began and then for one tracker tick on the new state |
| FinchService.Service.SwitchModes | SnapdragonXR-SDK-source.rel.4.0.5/controllers/FinchControllerService/app/src/main/java/com/qti/acg/apps/controllers/finch/FinchService.java:267-309 | stores the new mode and arm mode and clears the first-update flag, resets the root offset exactly on the first update or a mode change, and sets the body rotation exactly on an arm-mode switch, leaving the headset sample and the recenter state alone |
| FinchService.Service.Recenter | SnapdragonXR-SDK-source.rel.4.0.5/controllers/FinchControllerService/app/src/main/java/com/qti/acg/apps/controllers/finch/FinchService.java:214-236 | first one tracker tick when the library holds controllers, then calibration, the library recenter and a 500 ms haptic pulse on each hand, in that order; the recenter pose takes the headset position and getQHmdOffset as written (a roll for a headset facing exactly backward), the start position follows it, and the head shift is re-estimated, as predictHmdShift between the old and new recenter rotations, only when more than 5,000,000 ns passed since the last recenter |
| FinchService.NewService | SnapdragonXR-SDK-source.rel.4.0.5/controllers/FinchControllerService/app/src/main/java/com/qti/acg/apps/controllers/finch/FinchService.java:38-59 | a new service starts in Internal mode, not first-update, two-handed, with the two fixed coordinate systems |
| FinchControllerStorage.ActiveIndices | SnapdragonXR-SDK-source.rel.4.0.5/controllers/FinchControllerService/app/src/main/java/com/qti/acg/apps/controllers/finch/FinchControllerStorage.java:191-192 | exactly the indices of the active controllers, in increasing order |
| FinchControllerStorage.ClassifyHmd | SnapdragonXR-SDK-source.rel.4.0.5/controllers/FinchControllerService/app/src/main/java/com/qti/acg/apps/controllers/finch/FinchControllerStorage.java:181-188 | all-zero position and quaternion give Internal, a zero position with any non-zero quaternion component gives HmdRotation, any non-zero position gives HmdTransform |
| FinchControllerStorage.HmdPosition | SnapdragonXR-SDK-source.rel.4.0.5/controllers/FinchControllerService/app/src/main/java/com/qti/acg/apps/controllers/finch/FinchControllerStorage.java:179 | the headset position handed on has z negated |
| FinchControllerStorage.BatteryNode | SnapdragonXR-SDK-source.rel.4.0.5/controllers/FinchControllerService/app/src/main/java/com/qti/acg/apps/controllers/finch/FinchControllerStorage.java:75-81 | battery index 1 reads the left hand, every other index the right hand |
| FinchControllerStorage.Storage.Start | SnapdragonXR-SDK-source.rel.4.0.5/controllers/FinchControllerService/app/src/main/java/com/qti/acg/apps/controllers/finch/FinchControllerStorage.java:121-149 | an id outside [0, 2) throws with nothing changed; otherwise marks the controller active, turns polling on and returns true |
| FinchControllerStorage.Storage.Stop | SnapdragonXR-SDK-source.rel.4.0.5/controllers/FinchControllerService/app/src/main/java/com/qti/acg/apps/controllers/finch/FinchControllerStorage.java:154-167 | an id outside [0, 2) throws with nothing changed; otherwise marks the controller inactive and turns polling off exactly when no controller remains active |
| FinchControllerStorage.Storage.Run | SnapdragonXR-SDK-source.rel.4.0.5/controllers/FinchControllerService/app/src/main/java/com/qti/acg/apps/controllers/finch/FinchControllerStorage.java:170-228 | one polling tick: the service's mode and sample follow the classified headset sample, the two-handed flag follows both upper arms, the root offset and body rotation change exactly as update() changes them, the recenter state is kept, the active controllers are read in index order, and the loop reschedules while polling is on |
| SvrInput.DownThisFrame | SnapdragonXR-SDK-source.rel.4.0.5/framework/svrInput.h:137-143 | pressed this frame exactly when bit 0x80 is set now and was clear in the previous frame |
| SvrInput.UpThisFrame | SnapdragonXR-SDK-source.rel.4.0.5/framework/svrInput.h:155-161 | released this frame exactly when bit 0x80 is clear now and was set in the previous frame |
| SvrInput.FrameEdgesExclusive | SnapdragonXR-SDK-source.rel.4.0.5/framework/svrInput.h:137-161 | a key is never pressed and released in the same frame, and neither when its status did not change |
| SvrInput.KeyEventsAcrossFrames | SnapdragonXR-SDK-source.rel.4.0.5/framework/svrInput.cpp:84-94 | after Update (lines 25-28), a key-down event makes the key pressed this frame exactly when it was up at the start of the frame, and never released; a key-up event the other way round; at the next Update with no further event neither edge is reported |
| SvrInput.Input.IsKeyUp | SnapdragonXR-SDK-source.rel.4.0.5/framework/svrInput.h:146-152 | a key is up exactly when it is not down |
| SvrInput.Input.IsPointerDown | SnapdragonXR-SDK-source.rel.4.0.5/framework/svrInput.h:164-171 | false for an id outside [0, 5), otherwise the pointer's down flag |
| SvrInput.Input.GetPointerLocation | SnapdragonXR-SDK-source.rel.4.0.5/framework/svrInput.h:174-187 | the pointer's location and down flag; (0, 0) and false for an invalid id |
| SvrInput.Input.GetPointerDelta | SnapdragonXR-SDK-source.rel.4.0.5/framework/svrInput.h:205-218 | the pointer's last delta and down flag; (0, 0) and false for an invalid id |
| SvrInput.Input.GetMouseWheel | SnapdragonXR-SDK-source.rel.4.0.5/framework/svrInput.h:190-202 | returns the pending wheel step, reports whether it is non-zero, and resets it to 0 |
| SvrInput.Input.constructor | SnapdragonXR-SDK-source.rel.4.0.5/framework/svrInput.cpp:17-23 | every key status 0 and unreserved in both frames, every pointer up at the origin |
| SvrInput.Input.Update | SnapdragonXR-SDK-source.rel.4.0.5/framework/svrInput.cpp:25-28 | the previous statuses become the current ones, so no key is pressed or released this frame |
| SvrInput.Input.ScrollWheelEvent | SnapdragonXR-SDK-source.rel.4.0.5/framework/svrInput.cpp:29-38 | a valid pointer records the wheel step; an invalid id changes nothing |
| SvrInput.Input.PointerDownEvent | SnapdragonXR-SDK-source.rel.4.0.5/framework/svrInput.cpp:40-53 | a valid pointer goes down at (x, y) with its delta reset; an invalid id changes nothing |
| SvrInput.Input.PointerUpEvent | SnapdragonXR-SDK-source.rel.4.0.5/framework/svrInput.cpp:55-68 | a valid pointer goes up, its delta is the move from the last location, which becomes (x, y); an invalid id changes nothing |
| SvrInput.Input.PointerMoveEvent | SnapdragonXR-SDK-source.rel.4.0.5/framework/svrInput.cpp:70-82 | a valid pointer's delta is the move from its last location, which becomes (x, y), and its down flag is kept; an id outside [0, 5) changes nothing |
| SvrInput.Input.KeyDownEvent | SnapdragonXR-SDK-source.rel.4.0.5/framework/svrInput.cpp:84-88 | the key's status becomes 0xff, so the key is down, and the reserved flag is returned |
| SvrInput.Input.KeyUpEvent | SnapdragonXR-SDK-source.rel.4.0.5/framework/svrInput.cpp:90-94 | the key's status becomes 0x00, so the key is up, and the reserved flag is returned |
| SvrInput.Input.ReserveKey | SnapdragonXR-SDK-source.rel.4.0.5/framework/svrInput.cpp:101-104 | only the key's reserved flag changes |
| RowPipeline.TrailingOnes | SnapdragonXR-SDK-source.rel.4.0.5/3rdparty/dfs/inc/RowPipeline.h:148-152 | the count of set bits at the bottom of the mask: all below it set, the one at it clear |
| RowPipeline.ShiftRightBy | SnapdragonXR-SDK-source.rel.4.0.5/3rdparty/dfs/inc/RowPipeline.h:148-152 | bit i + n becomes bit i and zeros enter at the top |
| RowPipeline.TrailingOnesShift | SnapdragonXR-SDK-source.rel.4.0.5/3rdparty/dfs/inc/RowPipeline.h:148-152 | one shift of a mask with bit 0 set shortens its run of trailing ones by one |
| RowPipeline.RowOperation.constructor | SnapdragonXR-SDK-source.rel.4.0.5/3rdparty/dfs/inc/RowPipeline.h:53-58 | the operation keeps its height, look-ahead and lag, and starts unlinked with no row handed out, none done and an empty mask |
| RowPipeline.RowOperation.SetPrevOp | SnapdragonXR-SDK-source.rel.4.0.5/3rdparty/dfs/inc/RowPipeline.h:85-88 | only the link to the previous operation changes |
| RowPipeline.RowOperation.SetNextOp | SnapdragonXR-SDK-source.rel.4.0.5/3rdparty/dfs/inc/RowPipeline.h:90-93 | only the link to the next operation changes |
| RowPipeline.RowOperation.Init | SnapdragonXR-SDK-source.rel.4.0.5/3rdparty/dfs/inc/RowPipeline.h:181-188 | nextY, numRowsDone and the row mask become 0 |
| RowPipeline.RowOperation.HasEnoughRows | SnapdragonXR-SDK-source.rel.4.0.5/3rdparty/dfs/inc/RowPipeline.h:73-76 | true once every row is done; with equal heights, exactly when y is below numRowsDone or every row is done |
| RowPipeline.RowOperation.NeedsMoreInputRows | SnapdragonXR-SDK-source.rel.4.0.5/3rdparty/dfs/inc/RowPipeline.h:80-83 | with equal heights, exactly when y is at most nextY + ahead + lag |
| RowPipeline.RowOperation.Schedule | SnapdragonXR-SDK-source.rel.4.0.5/3rdparty/dfs/inc/RowPipeline.h:98-133 | checked in the source's order: a failed lock gives -5, all rows handed out -1, being `ahead` rows past the completed rows -2, a previous operation without enough rows -3 and a next operation that needs no more input -4; exactly otherwise the old nextY is returned and nextY grows by one, and a refusal leaves nextY alone; numRowsDone <= nextY <= numRows is kept |
| RowPipeline.RowOperation.Done | SnapdragonXR-SDK-source.rel.4.0.5/3rdparty/dfs/inc/RowPipeline.h:138-168 | the row's bit is set, numRowsDone advances by the run of trailing set bits and the mask shifts by as much; the operation is done exactly when that advance is positive and every row is done; numRowsDone <= nextY <= numRows is kept |
| RowPipeline.RowOperation.DoWork | SnapdragonXR-SDK-source.rel.4.0.5/3rdparty/dfs/inc/RowPipeline.h:40-50 | a refused schedule answers schedule's own refusal code, in the source's order, and changes nothing; otherwise one row is handed out and marked done, and the result is the run of done rows at the front of the marked mask, by which the mask shifts and the completed-row count grows |
| RowPipeline.ProportionalBelow | SnapdragonXR-SDK-source.rel.4.0.5/3rdparty/dfs/inc/RowPipeline.h:75 | with equal heights the proportional test of hasEnoughRows is y < numRowsDone |
| RowPipeline.ProportionalAtMost | SnapdragonXR-SDK-source.rel.4.0.5/3rdparty/dfs/inc/RowPipeline.h:82 | with equal heights the proportional test of needsMoreInputRows is a plain comparison |
| SvrApiCore.ClampPredictTime | SnapdragonXR-SDK-source.rel.4.0.5/sxrApi/private/svrApiCore.cpp:1606-1613 | a sample outside [0, gMaxPredictedTime] is stored as gMaxPredictedTime, any other is kept |
| SvrApiCore.SumBounds | SnapdragonXR-SDK-source.rel.4.0.5/sxrApi/private/svrApiCore.cpp:1635-1640 | a sum of entries in [0, max] lies in [0, n·max] |
| SvrApiCore.HeuristicPredictor.Allocate | SnapdragonXR-SDK-source.rel.4.0.5/sxrApi/private/svrApiCore.cpp:2568-2582 | while disabled nothing changes; otherwise a non-positive entry count becomes 25 and a fresh buffer of that many zero entries is allocated with write index 0 |
| SvrApiCore.HeuristicPredictor.Free | SnapdragonXR-SDK-source.rel.4.0.5/sxrApi/private/svrApiCore.cpp:3145-3152 | the buffer is released, and the write index is reset when there was one |
| SvrApiCore.HeuristicPredictor.AddPredictData | SnapdragonXR-SDK-source.rel.4.0.5/sxrApi/private/svrApiCore.cpp:1593-1622 | while disabled or without a buffer nothing changes; otherwise the clamped sample goes to the write index, which advances by one and wraps to 0 |
| SvrApiCore.HeuristicPredictor.GetPredictTime | SnapdragonXR-SDK-source.rel.4.0.5/sxrApi/private/svrApiCore.cpp:1625-1651 | 0 while disabled; otherwise the average of the entries plus the offset, which lies within [offset, offset + max] |
| SvrApiCore.AverageBounds | SnapdragonXR-SDK-source.rel.4.0.5/sxrApi/private/svrApiCore.cpp:1635-1643 | an average of entries in [0, max] lies in [0, max] |
| SvrApiCore.QvrThermalToSvrThermal | SnapdragonXR-SDK-source.rel.4.0.5/sxrApi/private/svrApiCore.cpp:425-443 | each QVR thermal level maps to its own level, and an unknown one to safe |
| SvrApiCore.SvrPerfLevelToQvrPerfLevel | SnapdragonXR-SDK-source.rel.4.0.5/sxrApi/private/svrApiCore.cpp:446-462 | minimum, medium and maximum map to levels 1 to 3 and anything else to the default |
| SvrApiCore.RequestedPerfLevel | SnapdragonXR-SDK-source.rel.4.0.5/sxrApi/private/svrApiCore.cpp:3728-3740 | a non-negative forced level wins; otherwise kPerfSystem becomes kPerfMedium |
| SvrApiCore.SystemLevelNeverRequested | SnapdragonXR-SDK-source.rel.4.0.5/sxrApi/private/svrApiCore.cpp:3728-3740 | unless forced, kPerfSystem never reaches the setter, and it is sent to the service as level 2 |
| SvrApiCore.SetPerformanceLevels | SnapdragonXR-SDK-source.rel.4.0.5/sxrApi/private/svrApiCore.cpp:3723-3745 | each of the CPU and GPU levels is mapped on its own |
| SvrApiCore.RequestedModes | SnapdragonXR-SDK-source.rel.4.0.5/sxrApi/private/svrApiCore.cpp:5233-5264 | requesting position also requests rotation; a forced mode replaces the request and keeps only rotation, position and eye |
| SvrApiCore.TrackingState.SetTrackingMode | SnapdragonXR-SDK-source.rel.4.0.5/sxrApi/private/svrApiCore.cpp:5200-5370 | refused before VR mode; otherwise rotation is on exactly when requested (position implies it), position exactly when requested and supported, eye tracking exactly when requested and the service switches it on, every other bit as requested, and the mode sent to the service is positional exactly when position is on and none exactly when neither rotation nor position is requested; otherwise it is rotational with the magnetometer exactly when magnetic rotation is on, and plain rotational exactly when it is off |
| SvrApiCore.EffectiveMinVsyncs | SnapdragonXR-SDK-source.rel.4.0.5/sxrApi/private/svrApiCore.cpp:3623-3630 | the forced minimum if positive, otherwise the requested one, and never 0 |
| SvrApiCore.FrameRing.Submit | SnapdragonXR-SDK-source.rel.4.0.5/sxrApi/private/svrApiCore.cpp:3603-3679 | the 32-bit frame counter advances by one with wrap-around, and the frame is written to the slot of the new count mod NUM_SWAP_FRAMES with its effective minimum vsyncs (at least 1) and target vsync; no other slot changes |
| SvrApiCore.SlotAdvances | SnapdragonXR-SDK-source.rel.4.0.5/sxrApi/private/svrApiCore.cpp:3603-3617 | consecutive submissions use consecutive slots, also across the wrap of the 32-bit counter |
| CameraManager.Find | SnapdragonXR-SDK-source.rel.4.0.5/sxrApi/private/SvrCamera/src/svrCameraManager.cpp:3674 | the first position at or after from holding the character, or -1 when there is none |
| CameraManager.JoinPieces | SnapdragonXR-SDK-source.rel.4.0.5/sxrApi/private/SvrCamera/src/svrCameraManager.cpp:3669-3686 | the pieces of a string, empty last piece included, joined with the separator give the string back |
| CameraManager.StrSplit | SnapdragonXR-SDK-source.rel.4.0.5/sxrApi/private/SvrCamera/src/svrCameraManager.cpp:3669-3686 | the loop's result equals Split: the pieces between separators, dropping an empty last piece |
| CameraManager.PiecesHaveNoSeparator | SnapdragonXR-SDK-source.rel.4.0.5/sxrApi/private/SvrCamera/src/svrCameraManager.cpp:3669-3686 | no piece contains the separator |
| CameraManager.SplitJoin | SnapdragonXR-SDK-source.rel.4.0.5/sxrApi/private/SvrCamera/src/svrCameraManager.cpp:3669-3686 | joining the pieces with the separator gives the string back, less one trailing separator if it ended with one |
| CameraManager.KeyAlone | SnapdragonXR-SDK-source.rel.4.0.5/sxrApi/private/SvrCamera/src/svrCameraManager.cpp:3694-3698 | a non-empty token without '=' maps its whole text to the value true |
| CameraManager.ExtraPiecesIgnored | SnapdragonXR-SDK-source.rel.4.0.5/sxrApi/private/SvrCamera/src/svrCameraManager.cpp:3694-3699 | a token with three '='-separated pieces leaves the map unchanged |
| CameraManager.KeyWithEmptyValue | SnapdragonXR-SDK-source.rel.4.0.5/sxrApi/private/SvrCamera/src/svrCameraManager.cpp:3694-3698 | a token key= with nothing after the '=' maps the key to the value true |
| CameraManager.KeyValue | SnapdragonXR-SDK-source.rel.4.0.5/sxrApi/private/SvrCamera/src/svrCameraManager.cpp:3694-3698 | a token key=value, with a non-empty value, maps the key to that value |
| CameraManager.GetKeyValuePairs | SnapdragonXR-SDK-source.rel.4.0.5/sxrApi/private/SvrCamera/src/svrCameraManager.cpp:3688-3701 | the loop's result equals folding each token of the split string into the map, later tokens overriding earlier ones |
| CameraManager.FormatFromString | SnapdragonXR-SDK-source.rel.4.0.5/sxrApi/private/SvrCamera/src/svrCameraManager.cpp:3487-3506 | a name in the table gives the format whose name it is; any other name gives Unknown |
| CameraManager.FormatNamesDistinct | SnapdragonXR-SDK-source.rel.4.0.5/sxrApi/private/SvrCamera/src/svrCameraManager.cpp:3508-3528 | no two known formats share a name |
| CameraManager.FormatRoundTrip | SnapdragonXR-SDK-source.rel.4.0.5/sxrApi/private/SvrCamera/src/svrCameraManager.cpp:3487-3528 | FromString(ToString(f)) == f for every known format |
| CameraManager.FormatIsRaw | SnapdragonXR-SDK-source.rel.4.0.5/sxrApi/private/SvrCamera/src/svrCameraManager.cpp:84-93 | a format is raw exactly when it is RAW10 mono or RAW16 mono |
| CameraManager.KeptTokens | SnapdragonXR-SDK-source.rel.4.0.5/sxrApi/private/SvrCamera/src/svrCameraManager.cpp:3565-3576 | the numbers read, with the error value dropped, and no other number |
| CameraManager.Orientation | SnapdragonXR-SDK-source.rel.4.0.5/sxrApi/private/SvrCamera/src/svrCameraManager.cpp:3558-3598 | exactly three numbers read are used as they are; any other count gives the default 1, 2, 3 |
| CameraManager.DefaultOrientation | SnapdragonXR-SDK-source.rel.4.0.5/sxrApi/private/SvrCamera/src/svrCameraManager.cpp:3558-3598 | with the default each axis keeps its own index with a positive sign |
| CameraManager.SensorAxes.SetSensorOrientation | SnapdragonXR-SDK-source.rel.4.0.5/sxrApi/private/SvrCamera/src/svrCameraManager.cpp:3558-3598 | each of the three orientation numbers t selects axis abs(t) - 1 with sign -1 exactly when t < 0 and 1 otherwise, the numbers being those read when there are exactly three and 1, 2, 3 otherwise |
| CameraManager.CellAt | SnapdragonXR-SDK-source.rel.4.0.5/sxrApi/private/SvrCamera/src/svrCameraManager.cpp:403-433 | texel coordinates are clamped into the texture |
| CameraManager.SampleInTexture | SnapdragonXR-SDK-source.rel.4.0.5/sxrApi/private/SvrCamera/src/svrCameraManager.cpp:409-442 | every texel the lookup reads lies inside the texture |
| CameraManager.TextureLookup | SnapdragonXR-SDK-source.rel.4.0.5/sxrApi/private/SvrCamera/src/svrCameraManager.cpp:373-455 | no value without a texture or with a zero size; otherwise the result is the bilinear mix, by the fractions past the cell, of the four neighbouring texels, all read inside the texture, and so lies between the smallest and largest of them |
| CameraManager.MixBounds | SnapdragonXR-SDK-source.rel.4.0.5/sxrApi/private/SvrCamera/src/svrCameraManager.cpp:443-449 | a bilinear blend of four texels lies between the smallest and the largest of them |
| CameraManager.MixOfEqual | SnapdragonXR-SDK-source.rel.4.0.5/sxrApi/private/SvrCamera/src/svrCameraManager.cpp:443-449 | blending four equal texels gives that texel |
| CameraManager.MixAtCorner | SnapdragonXR-SDK-source.rel.4.0.5/sxrApi/private/SvrCamera/src/svrCameraManager.cpp:443-449 | at fractions (0, 0) the blend is the first texel |
| DistortionMesh.LineEnd | SnapdragonXR-SDK-source.rel.4.0.5/sxrApi/private/sxrDistortionMesh.cpp:326-388 | the first newline or NUL at or after the position, with no line end before it |
| DistortionMesh.ParseLine | SnapdragonXR-SDK-source.rel.4.0.5/sxrApi/private/sxrDistortionMesh.cpp:326-388 | the corrected parser: an empty line gives no fields, leaves the caller's fields alone and consumes nothing; otherwise it gives every comma-separated field of the line, a trailing comma adding an empty last field, and steps past the newline |
| DistortionMesh.ParsedLineRoundTrip | SnapdragonXR-SDK-source.rel.4.0.5/sxrApi/private/sxrDistortionMesh.cpp:326-388 | the parsed fields joined with commas give the line back, no field holds a comma, and the reader steps past the newline or stops at the terminating NUL |
| DistortionMesh.ParseLineAsWritten | SnapdragonXR-SDK-source.rel.4.0.5/sxrApi/private/sxrDistortionMesh.cpp:326-388 | the parser as written: after a trailing comma that follows a non-empty field, or at the end of the text, the empty last field is dropped and the newline is left unread |
| DistortionMesh.AsWrittenDiffersExactly | SnapdragonXR-SDK-source.rel.4.0.5/sxrApi/private/sxrDistortionMesh.cpp:326-388 | the parser as written differs from the corrected one exactly on lines ending in a comma that follows a non-empty field or ends the text |
| DistortionMesh.AsWrittenStallsOnTrailingComma | SnapdragonXR-SDK-source.rel.4.0.5/sxrApi/private/sxrDistortionMesh.cpp:355-388 | on a,b,\nc\n the parser as written leaves the newline of the first line unconsumed |
| DistortionMesh.MakeIndexBuffer | SnapdragonXR-SDK-source.rel.4.0.5/sxrApi/private/sxrDistortionMesh.cpp:672-705 | (W-1)·(H-1)·6 indices, the two triangles of every grid cell in order, every index below W·H |
| DistortionMesh.GridIndicesInRange | SnapdragonXR-SDK-source.rel.4.0.5/sxrApi/private/sxrDistortionMesh.cpp:1191-1215 | every index of the kept grid cells is a vertex of the grid |
| DistortionMesh.KeptCellEmitted | SnapdragonXR-SDK-source.rel.4.0.5/sxrApi/private/sxrDistortionMesh.cpp:1191-1215 | a cell whose four corners are valid emits its six corner indices |
| DistortionMesh.FullGridCount | SnapdragonXR-SDK-source.rel.4.0.5/sxrApi/private/sxrDistortionMesh.cpp:1191-1215 | with every corner valid, every cell emits six indices |
| DistortionMesh.RowRange | SnapdragonXR-SDK-source.rel.4.0.5/sxrApi/private/sxrDistortionMesh.cpp:1029-1041 | a lower section covers the vertex rows [0, N/2], an upper section [N/2, N], a whole eye [0, N]; for N >= 0 the range lies within [0, N] |
| DistortionMesh.SectionsCoverRows | SnapdragonXR-SDK-source.rel.4.0.5/sxrApi/private/sxrDistortionMesh.cpp:1029-1041 | the lower and upper sections meet at row N/2 and together cover every row of cells once, the upper one having at most one row more |
| DistortionMesh.SampleIndex | SnapdragonXR-SDK-source.rel.4.0.5/sxrApi/private/sxrDistortionMesh.cpp:1066-1077 | for a non-empty buffer the rounded sample position is clamped into [0, size), and kept when it is below size - 1 |
| DistortionMesh.SampleInBuffer | SnapdragonXR-SDK-source.rel.4.0.5/sxrApi/private/sxrDistortionMesh.cpp:1066-1077 | the clamped sample positions always address one of the four channels of a texel inside the buffer |
| DistortionMesh.ProjectionIndices | SnapdragonXR-SDK-source.rel.4.0.5/sxrApi/private/sxrDistortionMesh.cpp:1191-1215 | the index loop emits GridQuads of the valid corners in the row range |
| DistortionMesh.QuadMeshCache.ChooseTarget | SnapdragonXR-SDK-source.rel.4.0.5/sxrApi/private/sxrDistortionMesh.cpp:2003-2065 | the first slot with usage 0, else the first slot of smallest usage |
| DistortionMesh.InsertIntoFree | SnapdragonXR-SDK-source.rel.4.0.5/sxrApi/private/sxrDistortionMesh.cpp:2003-2065 | storing a new hash into an unused slot keeps the cache's maps consistent with each other |
| DistortionMesh.InsertEvicting | SnapdragonXR-SDK-source.rel.4.0.5/sxrApi/private/sxrDistortionMesh.cpp:2003-2065 | storing a new hash into a used slot, after removing that slot's old hash from both maps, keeps the maps consistent |
| DistortionMesh.QuadMeshCache.Insert | SnapdragonXR-SDK-source.rel.4.0.5/sxrApi/private/sxrDistortionMesh.cpp:2003-2065 | the chosen slot gets the inputs and the hash, and the hash maps to the slot |
| DistortionMesh.QuadMeshCache.UpdateAndGet | SnapdragonXR-SDK-source.rel.4.0.5/sxrApi/private/sxrDistortionMesh.cpp:1739-2068 | a hit returns the slot holding the same inputs and counts the use; a hash collision rebuilds that slot and records the new inputs under the hash; a miss inserts into the chosen slot; the returned slot holds the inputs asked for and the cache stays consistent |
| DistortionMesh.QuadMeshCache.UpdateAndGetQuadLayerMesh | SnapdragonXR-SDK-source.rel.4.0.5/sxrApi/private/sxrDistortionMesh.cpp:1681-1737 | with the corrected cache step (Findings row 2): no mesh, and the cache unchanged, exactly when the eye buffer has a zero width or height or the quad lies outside (-1, 1) on some axis at every corner; otherwise the slot returned is the one recorded for the hash and holds a mesh built from the 13 hash inputs |
| DistortionMesh.QuadRightOfViewHidden | SnapdragonXR-SDK-source.rel.4.0.5/sxrApi/private/sxrDistortionMesh.cpp:1690-1712 | a quad whose four corners all have x >= 1 is never drawn |
| DistortionMesh.EyesHaveDistinctInputs | SnapdragonXR-SDK-source.rel.4.0.5/sxrApi/private/sxrDistortionMesh.cpp:1715-1729 | the same corners seen by two different eyes give different hash inputs |
| DistortionMesh.QuadMeshCache.UpdateAndGetAsWritten | SnapdragonXR-SDK-source.rel.4.0.5/sxrApi/private/sxrDistortionMesh.cpp:1739-2065 | as written, a collision rebuilds the slot but keeps the stale hash-to-inputs entry |
| DistortionMesh.CollisionAsWrittenBreaksMatch | SnapdragonXR-SDK-source.rel.4.0.5/sxrApi/private/sxrDistortionMesh.cpp:1739-1773 | after a collision as written, the hash no longer maps to the inputs of its slot |
| DistortionMesh.CollisionRecordedKeepsMatch | SnapdragonXR-SDK-source.rel.4.0.5/sxrApi/private/sxrDistortionMesh.cpp:1739-2065 | after the corrected collision handling, every hash maps to the inputs its slot holds |
| DistortionMesh.QuadMeshCache.constructor | SnapdragonXR-SDK-source.rel.4.0.5/sxrApi/private/sxrDistortionMesh.cpp:1622-1679 | every slot unused, both maps empty |
| Anchors.UuidToString | SnapdragonXR-SDK-source.rel.4.0.5/sxrApi/private/SvrAnchors/src/svrAnchorsCore.cpp:366-374 | 36 characters, '-' exactly at positions 8, 13, 18 and 23, lower-case hex digits elsewhere |
| Anchors.UuidFromString | SnapdragonXR-SDK-source.rel.4.0.5/sxrApi/private/SvrAnchors/src/svrAnchorsCore.cpp:376-384 | a parsed uuid has 16 bytes |
| Anchors.HexDigit | SnapdragonXR-SDK-source.rel.4.0.5/sxrApi/private/SvrAnchors/src/svrAnchorsCore.cpp:366-374 | a lower-case hex digit whose value is the number printed |
| Anchors.DashGroupRoundTrip | SnapdragonXR-SDK-source.rel.4.0.5/sxrApi/private/SvrAnchors/src/svrAnchorsCore.cpp:376-384 | a dash followed by the hex text of a group of bytes scans back to those bytes |
| Anchors.UuidRoundTrip | SnapdragonXR-SDK-source.rel.4.0.5/sxrApi/private/SvrAnchors/src/svrAnchorsCore.cpp:366-384 | parsing the string of a uuid gives the uuid back |
| Anchors.ScanEightDigits | SnapdragonXR-SDK-source.rel.4.0.5/sxrApi/private/SvrAnchors/src/svrAnchorsCore.cpp:376-384 | eight hex digits scan as four bytes and leave the rest of the string |
| Anchors.MissingDashRefused | SnapdragonXR-SDK-source.rel.4.0.5/sxrApi/private/SvrAnchors/src/svrAnchorsCore.cpp:376-384 | a string of nine hex digits in a row, so without the first dash, does not parse |
| Anchors.ScanHexRoundTrip | SnapdragonXR-SDK-source.rel.4.0.5/sxrApi/private/SvrAnchors/src/svrAnchorsCore.cpp:376-384 | the hex text of any bytes scans back to those bytes, leaving the rest of the string |
| Anchors.Relocator.StopRelocating | SnapdragonXR-SDK-source.rel.4.0.5/sxrApi/private/SvrAnchors/src/svrAnchorsCore.cpp:230-253 | without a service handle the call fails and nothing changes; otherwise it succeeds and the four anchor lists are emptied |
| Anchors.Convert | SnapdragonXR-SDK-source.rel.4.0.5/sxrApi/private/SvrAnchors/src/svrAnchorsCore.cpp:341-364 | the pose quality is kept, the position is the column-major 4x4 matrix applied to the anchor's position, and the orientation comes from the rotation parameter |
| Anchors.ConvertIdentity | SnapdragonXR-SDK-source.rel.4.0.5/sxrApi/private/SvrAnchors/src/svrAnchorsCore.cpp:341-364 | the identity matrix keeps the position and the pose quality |
| Anchors.ConvertTranslation | SnapdragonXR-SDK-source.rel.4.0.5/sxrApi/private/SvrAnchors/src/svrAnchorsCore.cpp:341-364 | a translation matrix moves the position by its vector |
| OpenXrApi.PathRegistry.StringToPath | src/main/cpp/openxr/openxr_api.cpp:114-145 | a missing string or output and an unknown instance are refused with nothing changed; on success a recorded string gives its path, and a new string gets the next path number, recorded in both directions |
| OpenXrApi.PathRegistry.PathsDistinct | src/main/cpp/openxr/openxr_api.cpp:114-145 | distinct registered strings have distinct paths |
| OpenXrApi.CopyOut | src/main/cpp/openxr/openxr_api.cpp:171-179 | the string followed by a NUL within the capacity |
| OpenXrApi.PathToStringIn | src/main/cpp/openxr/openxr_api.cpp:147-182 | a missing count output, an unknown instance or an unknown path are errors; on success the count is the length plus one, and the buffer is filled with the NUL-terminated string only when its capacity is at least that |
| OpenXrApi.PathRegistry.PathToStringAsWritten | src/main/cpp/openxr/openxr_api.cpp:147-182 | as written, for a registry in its invariant, no path ever converts back: with a count output and a known instance the answer is XR_ERROR_PATH_INVALID |
| OpenXrApi.PathRegistry.PathToString | src/main/cpp/openxr/openxr_api.cpp:147-182 | reading the table xrStringToPath fills: with a count output and a known instance, success exactly for a registered path, with the count its string's length plus one and a buffer holding that string |
| OpenXrApi.PathRegistry.AsWrittenNeverResolves | src/main/cpp/openxr/openxr_api.cpp:162-169 | as written, every path lookup fails, because it consults a table nobody fills |
| OpenXrApi.PathRegistry.RoundTrip | src/main/cpp/openxr/openxr_api.cpp:114-182 | with the registry's table, the two-call idiom returns the string registered for the path |
| OpenXrApi.EnumerateViewConfigurations | src/main/cpp/openxr/openxr_api.cpp:184-208 | a missing count output or an unknown instance is refused; otherwise the count is 1, and primary stereo is written when a buffer of capacity at least 1 is given |
| OpenXrApi.GetViewConfigurationProperties | src/main/cpp/openxr/openxr_api.cpp:210-236 | missing or mistyped properties and an unknown instance are refused, every type but primary stereo is unsupported, and primary stereo gets its properties with a fixed field of view |
| OpenXrApi.EnumerateViewConfigurationViews | src/main/cpp/openxr/openxr_api.cpp:238-269 | a missing count output and an unknown instance are refused, every type but primary stereo is unsupported, primary stereo reports two views, and the call fails only when the platform cannot describe the two requested views; it succeeds exactly otherwise |
| OpenXrApi.OnlyStereoSupported | src/main/cpp/openxr/openxr_api.cpp:210-269 | every type other than primary stereo is refused by both calls |
| OpenXrSession.SessionTable.Create | src/main/cpp/openxr/session.cpp:31-84 | missing or mistyped create info or output, an unknown instance, and a display or tracking failure are refused with nothing changed; exactly otherwise a new idle session gets the next handle |
| OpenXrSession.SessionTable.Destroy | src/main/cpp/openxr/session.cpp:86-109 | handle 0 or an unknown handle is refused; otherwise the session is removed |
| OpenXrSession.SessionTable.Begin | src/main/cpp/openxr/session.cpp:111-154 | missing begin info, an unknown handle, a running session, a type other than primary stereo and a rendering failure (XR_ERROR_RUNTIME_FAILURE) are refused with nothing changed; exactly otherwise the session becomes ready and active |
| OpenXrSession.SessionTable.End | src/main/cpp/openxr/session.cpp:156-180 | an unknown handle or a session that is not running is refused; otherwise it becomes stopping and inactive |
| OpenXrSession.SessionTable.RequestExit | src/main/cpp/openxr/session.cpp:182-198 | an unknown handle is refused; otherwise the session becomes stopping and keeps its active flag |
| OpenXrEvent.EventQueue.PostEvent | src/main/cpp/openxr/event.cpp:53-61 | the event is appended at the back of the queue |
| OpenXrEvent.EventQueue.PollEvent | src/main/cpp/openxr/event.cpp:22-50 | a missing buffer or an unknown instance is refused with the queue unchanged, an empty queue gives EventUnavailable, and otherwise the front event is removed and delivered exactly when it is valid and of the buffer's type |
| OpenXrEvent.FirstInFirstOut | src/main/cpp/openxr/event.cpp:22-61 | events posted later stay behind the ones already queued, so they come out in the order they were posted |
| OpenXrSwapchain.FindAvailable | src/main/cpp/openxr/swapchain.cpp:173-183 | the lowest index of a released image; found exactly when one exists |
| OpenXrSwapchain.SwapchainTable.CreateWith | src/main/cpp/openxr/swapchain.cpp:46-104 | missing or mistyped create info or output, an unknown session, and a zero width, height or array size are refused with nothing changed; on success the swapchain gets the next handle and array-size images in their initial state |
| OpenXrSwapchain.SwapchainTable.Destroy | src/main/cpp/openxr/swapchain.cpp:106-126 | handle 0 or an unknown handle is refused; otherwise the swapchain is removed |
| OpenXrSwapchain.SwapchainTable.EnumerateImages | src/main/cpp/openxr/swapchain.cpp:128-156 | a missing count output or an unknown handle is refused; otherwise the count is the swapchain's array size |
| OpenXrSwapchain.SwapchainTable.Acquire | src/main/cpp/openxr/swapchain.cpp:158-190 | a missing index output or unknown handle is refused; the lowest image that is released and not acquired is marked acquired and its index returned, and when there is none the call is a call-order error with nothing changed |
| OpenXrSwapchain.SwapchainTable.Release | src/main/cpp/openxr/swapchain.cpp:212-229 | an unknown handle is refused; otherwise the image at the current image index, when it is in range, becomes released and not acquired |
| OpenXrSwapchain.FreshImagesAsWrittenUnavailable | src/main/cpp/openxr/swapchain.cpp:85-86 | as written, a newly created swapchain has no image to acquire |
| OpenXrSwapchain.FreshImagesAvailable | src/main/cpp/openxr/swapchain.cpp:85-86 | with images created released, image 0 of a new swapchain is available, so the first acquire succeeds with index 0 |
| OpenXrSwapchain.ReleaseUndoesAcquire | src/main/cpp/openxr/swapchain.cpp:158-229 | acquiring an available image and releasing it again restores the image list |
| InputManager.InputRegistry.RegisterProfileBindings | src/main/cpp/platform/input_manager.cpp:42-60 | always succeeds; every binding of the list enters the action table, a later binding of the same action replacing an earlier one, and the profile's binding table is appended |
| InputManager.BindingsLastWins | src/main/cpp/platform/input_manager.cpp:50-56 | the binding recorded for an action is that of its last occurrence in the list |
| InputManager.LookupAfterRegister | src/main/cpp/platform/input_manager.cpp:42-60 | after registering, a listed action resolves to the path of its last occurrence in the list, and an action not listed resolves as before |
| InputManager.InputRegistry.AttachActionSets | src/main/cpp/platform/input_manager.cpp:161-173 | always succeeds; the session's action sets become the given list and the binding tables are unchanged |
| InputManager.BindingPathIn | src/main/cpp/platform/input_manager.cpp:175-182 | the path recorded for the action, or the null path |
| InputManager.InputRegistry.GetActionBindingPath | src/main/cpp/platform/input_manager.cpp:175-182 | the binding path recorded for the action, or the null path when there is none |
| InputManager.CString | src/main/cpp/platform/input_manager.cpp:72-86 | the text of a buffer up to its first NUL, which holds no NUL |
| InputManager.PathStringReadsTable | src/main/cpp/platform/input_manager.cpp:72-86 | a known instance and path whose string fits the buffer give that string; a null or unknown handle or path, or a string too long for the buffer, give the empty string |
| InputManager.SplitPath | src/main/cpp/platform/input_manager.cpp:114-118 | the loop's result equals Segments, the non-empty '/'-separated pieces of the string |
| InputManager.CStringOfTerminated | src/main/cpp/platform/input_manager.cpp:72-86 | the C string of a NUL-terminated buffer is the text before the NUL |
| InputManager.SegmentsOfJoin | src/main/cpp/platform/input_manager.cpp:114-118 | splitting a '/'-joined list of non-empty segments without '/' gives the list back |
| InputManager.Classify | src/main/cpp/platform/input_manager.cpp:120-146 | valid exactly when there are at least five segments reading user, hand, left or right, input; left gives index 0 and right 1; the component is the sixth segment or value |
| InputManager.ParseInputPath | src/main/cpp/platform/input_manager.cpp:89-150 | the result classifies the '/'-separated segments of the path's string, and a null path or null instance is unparsed |
| InputManager.ParseOfWrittenPath | src/main/cpp/platform/input_manager.cpp:89-150 | a registered path /user/hand/{left,right}/input/<type>[/<component>] of non-empty segments parses to the hand's controller index, the input type, and the component or value |
| InputManager.EmptyTableNeverParses | src/main/cpp/platform/input_manager.cpp:21-86 | with the path table as written, which is never filled, no binding path parses |
| Xr2Platform.MapInputToButtonBit | src/main/cpp/qualcomm/xr2_platform.cpp:1229-1250 | each known input maps to its button bit and any other to 0 |
| Xr2Platform.ButtonBitsDistinct | src/main/cpp/qualcomm/xr2_platform.cpp:1229-1250 | distinct known inputs have distinct, single-bit masks |
| Xr2Platform.ControllerIndexOf | src/main/cpp/qualcomm/xr2_platform.cpp:1190-1198 | 1 exactly when the path string contains right, otherwise 0 |
| Xr2Platform.LeftPathNamesNoRight | src/main/cpp/qualcomm/xr2_platform.cpp:1190-1198 | the left hand path does not contain right, so it falls through to the left controller |
| Xr2Platform.GetControllerIndex | src/main/cpp/qualcomm/xr2_platform.cpp:1174-1201 | 1 exactly when the path is not null, an instance exists and the path's string contains right; 0 otherwise, which covers left and every fallback |
| Xr2Platform.HandSubactionPath | src/main/cpp/qualcomm/xr2_platform.cpp:1174-1201 | the left and right hand subaction paths give 0 and 1 |
| Xr2Platform.ControllerIndexInRange | src/main/cpp/qualcomm/xr2_platform.cpp:1174-1201 | both the parsed controller index and the subaction controller index are below 2, so the bounds check never refuses |
| Xr2Platform.Controllers.Initialize | src/main/cpp/qualcomm/xr2_platform.cpp:1128-1171 | once initialised nothing changes; a client failure fails with nothing changed; otherwise both controllers are reset and the platform is initialised |
| Xr2Platform.Controllers.GetBooleanInput | src/main/cpp/qualcomm/xr2_platform.cpp:1252-1301 | the corrected read: missing outputs are refused with nothing changed; otherwise the controllers are first set up if they were not (and the client is there), then a valid parse of the binding path reads its button bit on its controller and any other case reads mask 0 on the subaction path's controller, with `changed` meaning the "any button" state changed |
| Xr2Platform.Controllers.GetBooleanInputAsWritten | src/main/cpp/qualcomm/xr2_platform.cpp:1252-1301 | as the source reads: the same refusal, setup and selection, but with mask 0 `changed` compares the whole button word |
| Xr2Platform.Controllers.SelectInput | src/main/cpp/qualcomm/xr2_platform.cpp:1263-1282 | a valid parse of the action's binding path gives its controller and button bit; otherwise the subaction path's controller and bit 0 |
| Xr2Platform.ButtonRead | src/main/cpp/qualcomm/xr2_platform.cpp:1291-1293 | for a named button the state is whether its bit is set and changed is whether that bit differs from the last reading |
| Xr2Platform.ChangedMeansStateChanged | src/main/cpp/qualcomm/xr2_platform.cpp:1252-1301 | in the corrected reading, changed is true exactly when the state differs from the previous state |
| Xr2Platform.AnyButtonChangeAsWritten | src/main/cpp/qualcomm/xr2_platform.cpp:1294-1298 | as written, with mask 0 changed is set when any bit of the button word changes, even while the state does not |
| Xr2Platform.ClampLevel | src/main/cpp/qualcomm/xr2_platform.cpp:1549-1551 | the level is clamped into [0, 3] |
| Xr2Platform.QvrLevel | src/main/cpp/qualcomm/xr2_platform.cpp:1558-1566 | the level sent lies in 1 to 4, and is 4 exactly when the clamped level is 3 |
| Xr2Platform.PerfControl.SetPerformanceLevel | src/main/cpp/qualcomm/xr2_platform.cpp:1548-1574 | without a client nothing is sent; otherwise the QVR level of the request is sent, and the clamped level is stored when the service accepts it |
| Xr2Platform.StepLevel | src/main/cpp/qualcomm/xr2_platform.cpp:894-908 | the level moves by at most one within [0, 3]: up exactly when the rate is below 63 and the level below 3, down exactly when the rate is above 85.5, the level above 0 and it does not step up |
| Xr2Platform.SustainedLowRate | src/main/cpp/qualcomm/xr2_platform.cpp:886-916 | n frames below 63 frames per second raise the level by n, up to 3 |
| Xr2Platform.SustainedHighRate | src/main/cpp/qualcomm/xr2_platform.cpp:886-916 | n frames above 85.5 frames per second lower the level by n, down to 0 |
| Xr2Platform.PerfControl.AdjustPerfLevel | src/main/cpp/qualcomm/xr2_platform.cpp:886-916 | while rendering with a positive average frame time the level becomes StepLevel of the measured rate; otherwise it stays |
| Geometry.Wireframe | SnapdragonXR-SDK-source.rel.4.0.5/framework/svrGeometry.cpp:53-87 | six indices per triangle |
| Geometry.WireframeEdges | SnapdragonXR-SDK-source.rel.4.0.5/framework/svrGeometry.cpp:62-77 | triangle t contributes the edges (a, b), (b, c), (c, a) |
| Geometry.TriangleEdges | SnapdragonXR-SDK-source.rel.4.0.5/framework/svrGeometry.cpp:62-77 | the six indices of one triangle's three edges |
| Geometry.WireframeFromInput | SnapdragonXR-SDK-source.rel.4.0.5/framework/svrGeometry.cpp:62-77 | every wireframe index is an index of the first n triangles |
| Geometry.WireframeCoversTriangles | SnapdragonXR-SDK-source.rel.4.0.5/framework/svrGeometry.cpp:62-77 | every vertex index of the first n triangles appears in the wireframe |
| Geometry.SvrGeometry.InitializeWireframe | SnapdragonXR-SDK-source.rel.4.0.5/framework/svrGeometry.cpp:53-87 | the loop builds Wireframe of the source geometry's first indexCount / 3 triangles, the new index count is six per triangle, and the new buffer ids are recorded |
| Geometry.SvrGeometry.Initialize | SnapdragonXR-SDK-source.rel.4.0.5/framework/svrGeometry.cpp:89-152 | the buffer ids and counts are recorded, and with copying on the index buffer is a fresh copy of the first nIndices indices |
| Geometry.SvrGeometry.Destroy | SnapdragonXR-SDK-source.rel.4.0.5/framework/svrGeometry.cpp:181-192 | every buffer id and count is reset to 0 |

## Left out

General:
- Mutexes, threads and condition variables are not modelled. Each operation is taken to run alone. This includes `RowPipeline::run` and `runEachThread`, whose worker loop is covered by `DoWork` one step at a time.
- Floating-point rounding is not modelled; values are exact `real`s. The float constants 0.7f·90 and 0.95f·90 are taken as 63 and 85.5.
- sqrt, acos, asin, atan2, cos and sin are uninterpreted fields of `Maths`. Properties that need an exact root require `SqrtExact`. NaN is modelled only where the source tests for it.
- Logging is not modelled.

Finch controller service:
- `System.nanoTime` becomes the parameter `now`. Results of the Finch library (whether the tracker accepted a mode, the controller samples) are parameters.
- The `getCurrentData` outputs other than pose and buttons are not modelled: posVar, quatVar, velocity, accelerometer and gyroscope offsets, gravity and timestamp.
- The recenter debounce does not model Java `long` overflow.
- `postDelayed` becomes the returned reschedule flag, and the data callback becomes the list of polled controller indices.
- `getBatteryLevel` is modelled only through the battery node path it reads.
- BuildQvrCS and BuildRawHmdCS: only the handedness and the unit basis quaternion are proved, not which axis lands on x, y and z; CoordQuatMapsUp proves that +y lands on the y axis outside the one case CoordQuatAsWrittenMissesY describes.
- NewCoordinateSystem: the same; the full axis mapping is not proved.
- QHmdOffsetIsYaw: leaves out a forward direction whose horizontal part is within 1e-6 of zero (looking straight up or down), where the source normalises to zero and gets a quarter roll about +z; a direction along +z whose squared horizontal length is within 1e-6 of 1 (looking exactly ahead is QHmdOffsetLookingAhead); and a direction along -z, where the source's fromToRotation falls back to +z and the offset is the half-turn roll (stated for exactly backward by QHmdOffset).
- Update: the SharedPreferences write inside bindsUpperArms is not modelled; the upper-arm swap becomes the `SwapUpperArms` call, and whether its gesture began is the parameter `swapGesture`.

SDK framework:
- RowPipeline.RowOperation.DoWork: requires `ahead <= 32` so that every row handed out fits in the 32-bit completion mask; the source relies on its callers for this. The `uint32` mask is modelled as 32 flags.
- RowPipeline.RowOperation.Done: requires that row `y` was handed out by `schedule` and has not been reported before. The callers guarantee this; the source does not check it.
- QVR service calls in the API core become parameters that carry their results. The tracking-eye constant is taken as 4 because sxrApi.h is not part of this model.
- The submit ring keeps only the frame index, the minimum vsync count and the target vsync of each frame.
- `sxrSetPerformanceLevelsInternal` is not modelled; only the level mappings it uses are.
- The QVR camera format enumerators are stand-ins named y8, yuv420, raw10 and raw16, because the QVR headers are not part of this model.
- `istringstream` tokenisation is modelled from the list of tokens it yields. `GetSensorOrientationFromDevice` becomes that token list as a parameter.
- CameraManager.TextureLookup: requires non-negative texture coordinates. The source does not clamp negative coordinates, and a negative cell index would read outside the texture.
- KeyDownEvent, KeyUpEvent and ReserveKey: require keyId in [0, 256). The source indexes its 256-entry arrays with no check, so any other id (kSvrKey_UNKNOWN = -1 included) is undefined behaviour that cannot be modelled.
- IsKeyDown, IsKeyUp, IsKeyDownThisFrame and IsKeyUpThisFrame: the same requirement, for the same reason.
- UpdateAndGetQuadLayerMesh: composes the corrected UpdateAndGet and keeps the cache consistent; the source's cache stops being consistent after its first hash collision (sxrDistortionMesh.cpp:2048), after which the source can hand back a mesh built for other inputs (CollisionAsWrittenBreaksMatch), which this member does not capture.
- UpdateAndGet: the hash is a parameter. UpdateAndGetQuadLayerMesh computes its 13 inputs but not the boost-style hash combine over them (sxrDistortionMesh.cpp:1730-1737), and float-to-int32 casts of values out of range are not modelled.
- DistortionMesh.MakeIndexBuffer: requires at least one sample in each direction. With zero samples the source computes a negative element count, which wraps as an unsigned size; that wrap is not modelled.
- A distortion mesh is represented by the inputs it was built from. Its vertex data and GL objects are not modelled. Projection vertex positions are not modelled; only their validity flags and the indices built from them are.
- Cache usage counters are unbounded naturals, so their `uint32` wrap is not modelled. The `UINT_MAX` starting value of the least-used search becomes a found flag.
- Reading the distortion CSV file is not modelled apart from the line parser and the index loop.
- The leniency of `sscanf` on malformed UUID text is not modelled; malformed text is rejected.
- `glm::quat_cast` becomes a parameter carrying its result. `StartRelocating` and saving and loading anchors to files are not modelled. The anchor service handle becomes the flag `hasHandle`.
- The GL calls of the geometry code become ids passed as parameters. Attribute and vertex copies, `Update` and `Submit` are not modelled. The wireframe buffer that is never freed is not modelled.

OpenXR runtime:
- Instances and sessions are values passed as parameters. Platform calls (display, tracking, rendering, view description) become flags carrying their outcome.
- OpenXrSwapchain.SwapchainTable.EnumerateImages: reports the image count only. The source's loop over the caller's image structures has an empty body because its write is commented out.
- OpenXrSwapchain: display_manager.cpp:16-18 casts the swapchain's image array to `GLuint*` and has glGenTextures write texture names over it; with seven or more images a name lands on image 0's acquired and released flags. display_manager.cpp is not part of this model, so neither the overlap nor its effect on FindAvailable is captured.
- GL texture creation and format choice become the flag `texturesOk`. `xrWaitSwapchainImage` and `xrEnumerateSwapchainFormats` are not modelled.
- `GetCurrentInstance` in the input manager becomes the `instance` parameter.
- `RegisterPathString` writes to a function-local table that nothing reads, so it has no observable effect and is not modelled.
- The forwarding-only functions at input_manager.cpp lines 184-250 are not modelled.
- The XR2 placeholders for the QVR input API are not modelled: `SyncXR2InputActions`, float, vector2 and pose inputs, haptics and `GetXR2CurrentInteractionProfile`. `MapInputToControllerIndex` is not modelled. The QVR client of `InitializeControllers` becomes the flag `clientOk`.
- Xr2Platform.QvrLevel: states only that the level sent is one above the clamped level, in 1..4. At level 3 this sends 4, while the source's comment (xr2_platform.cpp:1561-1563) names PERF_LEVEL_1-3 and svrApiCore.cpp:454-458 uses only levels 1 to 3; the QVR performance-level enumeration is not part of this model, so whether 4 is a valid level is left open rather than recorded as a finding.

## Findings

| source | as written | input that shows it | evidently intended | confidence | as-written member | corrected member |
|---|---|---|---|---|---|---|
| SnapdragonXR-SDK-source.rel.4.0.5/sxrApi/private/sxrDistortionMesh.cpp:326-388 | a comma at the end of a line leaves the read position on the newline, so the next call returns no fields | the text "a,b,\nc\n": the first line parses to a, b and the second call from position 4 yields nothing | each call consumes its line, including a trailing comma, and the next call parses the next line | not executed | DistortionMesh.AsWrittenStallsOnTrailingComma | DistortionMesh.ParsedLineRoundTrip |
| SnapdragonXR-SDK-source.rel.4.0.5/sxrApi/private/sxrDistortionMesh.cpp:1739-2065 | on a hash collision the mesh is rebuilt but the hash-to-inputs map keeps the old inputs | two input lists A and B with the same hash requested one after the other: B overwrites A's slot, but because the inputs are recorded only `if (!collided)` (line 2048) the hash still records A, so a later request for A matches and is handed the mesh built for B | the inputs recorded for a hash are those of the mesh cached for it | not executed | DistortionMesh.CollisionAsWrittenBreaksMatch | DistortionMesh.CollisionRecordedKeepsMatch |
| src/main/cpp/openxr/openxr_api.cpp:162-169 | `xrPathToString` looks the path up in a function-local static map that nothing fills | any path returned by `xrStringToPath`: converting it back gives XR_ERROR_PATH_INVALID | a path converts back to the string it was made from | not executed | OpenXrApi.PathRegistry.AsWrittenNeverResolves | OpenXrApi.PathRegistry.RoundTrip |
| src/main/cpp/openxr/swapchain.cpp:85-86 | swapchain images are created with their released flag false, and acquiring requires a released image | a freshly created swapchain: the first `xrAcquireSwapchainImage` returns XR_ERROR_CALL_ORDER_INVALID | fresh images are available to acquire | not executed | OpenXrSwapchain.FreshImagesAsWrittenUnavailable | OpenXrSwapchain.FreshImagesAvailable |
| src/main/cpp/qualcomm/xr2_platform.cpp:1294-1298 | with button mask 0, changed is set when any bit of the button word differs from the last one | button word 2 after button word 1, mask 0: the read reports the state true, as it was, with changed set (Controllers.GetBooleanInputAsWritten reads this way; Controllers.GetBooleanInput reads the corrected way) | changed is set exactly when the value read differs from the last value read | not executed | Xr2Platform.AnyButtonChangeAsWritten | Xr2Platform.ChangedMeansStateChanged |
| SnapdragonXR-SDK-source.rel.4.0.5/controllers/FinchControllerService/app/src/main/java/com/qti/acg/apps/controllers/finch/FinchMath.java:93-99 | for opposite directions `fromToRotation` turns half a turn about +z, which maps `from` onto `to` only when `from` is perpendicular to z | getQHmdOffset (FinchService.java:61-66) with the headset facing exactly backward: the rotation from (0, 0, 1) to (0, 0, -1) is (0, 0, 1, 0), a roll that leaves forward where it was | a half turn about an axis perpendicular to `from`, which takes it onto `to` | not executed | FinchMath.FromToRotationAsWrittenBackward | FinchMath.RotationBetweenMapsOpposite |
