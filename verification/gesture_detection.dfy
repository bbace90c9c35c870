/**
 * The gesture detector: pose normalisation (centre on the wrist, divide by the hand
 * size, rotate the wrist-to-index-tip vector onto the positive x axis, bearing 0) and
 * first-match rule evaluation
 * over the configured gesture definitions.
 */
module GestureDetection {
  import opened Wrappers
  import opened Records
  import opened Geometry

  /** Landmark indices the detector refers to by number. */
  const WRIST: nat := 0
  const THUMB_TIP: nat := 4
  const INDEX_TIP: nat := 8
  const MIDDLE_FINGER_BASE: nat := 9
  const MIDDLE_FINGER_TIP: nat := 12

  /** A pose with fewer landmarks than this is incomplete and never processed. */
  const POSE_SIZE: nat := 21

  const ORIGIN: Landmark := Landmark(0.0, 0.0, 0.0)

  // ---------------------------------------------------------------------------
  // Normalisation
  // ---------------------------------------------------------------------------

  /** Every landmark minus `origin`. */
  function Translated(pose: Pose, origin: Landmark): (r: Pose)
    ensures |r| == |pose|
    ensures forall i :: 0 <= i < |r| && pose[i] == origin ==> r[i] == ORIGIN
  {
    seq(|pose|, i requires 0 <= i < |pose| =>
      Landmark(pose[i].x - origin.x, pose[i].y - origin.y, pose[i].z - origin.z))
  }

  /** Every coordinate of every landmark divided by `s`. */
  function Divided(pose: Pose, s: real): (r: Pose)
    requires s != 0.0
    ensures |r| == |pose|
    ensures forall i :: 0 <= i < |r| && pose[i] == ORIGIN ==> r[i] == ORIGIN
  {
    seq(|pose|, i requires 0 <= i < |pose| =>
      Landmark(pose[i].x / s, pose[i].y / s, pose[i].z / s))
  }

  /** The displacement step: the pose seen from its wrist. */
  function CentreOnWrist(pose: Pose): (r: Pose)
    requires |pose| > WRIST
    ensures |r| == |pose| && r[WRIST] == ORIGIN
    ensures forall i :: 0 <= i < |r| ==> r[i].z == pose[i].z - pose[WRIST].z
  {
    Translated(pose, pose[WRIST])
  }

  /** The scale reference: the distance from the wrist to the base of the middle finger. */
  function HandSize(m: MathLib, pose: Pose): (size: real)
    requires |pose| > MIDDLE_FINGER_BASE
    ensures Sound(m) ==> 0.0 <= size
    ensures Sound(m) && pose[WRIST] == pose[MIDDLE_FINGER_BASE] ==> size == 0.0
  {
    EuclideanDistance(m, pose[WRIST], pose[MIDDLE_FINGER_BASE])
  }

  /**
   * The scale step: divide by the hand size when it is positive; a degenerate hand
   * (size zero) is left as it is rather than divided by zero.
   */
  function ScaleByHandSize(m: MathLib, pose: Pose): (r: Pose)
    ensures |r| == |pose|
    ensures |pose| <= MIDDLE_FINGER_BASE ==> r == pose
    ensures |pose| > MIDDLE_FINGER_BASE && HandSize(m, pose) > 0.0 ==>
              forall i :: 0 <= i < |r| ==>
                r[i].x * HandSize(m, pose) == pose[i].x &&
                r[i].y * HandSize(m, pose) == pose[i].y &&
                r[i].z * HandSize(m, pose) == pose[i].z
    ensures |pose| > MIDDLE_FINGER_BASE && HandSize(m, pose) <= 0.0 ==> r == pose
    ensures Sound(m) && |pose| > MIDDLE_FINGER_BASE && pose[WRIST] == pose[MIDDLE_FINGER_BASE] ==> r == pose
    ensures |pose| > WRIST && pose[WRIST] == ORIGIN ==> r[WRIST] == ORIGIN
  {
    if |pose| > MIDDLE_FINGER_BASE then
      var scale := HandSize(m, pose);
      if scale > 0.0 then Divided(pose, scale) else pose
    else
      pose
  }

  /**
   * The rotation step: rotate the pose by minus the bearing of the wrist-to-index-tip
   * vector. Only x and y change.
   */
  function AlignIndexFinger(m: MathLib, pose: Pose): (r: Pose)
    ensures |r| == |pose|
    ensures forall i :: 0 <= i < |r| ==> r[i].z == pose[i].z
    ensures |pose| > WRIST && pose[WRIST] == ORIGIN ==> r[WRIST] == ORIGIN
  {
    if |pose| > INDEX_TIP then
      Rotated(m, pose, -Bearing2D(m, pose[WRIST], pose[INDEX_TIP]))
    else
      pose
  }

  /**
   * Centring moves every landmark by the same offset, so the bearing between any two
   * landmarks, and with it the angle the rotation step undoes, is the same before and
   * after it.
   */
  lemma CentringKeepsBearing(m: MathLib, pose: Pose, i: nat, j: nat)
    requires WRIST < |pose| && i < |pose| && j < |pose|
    ensures Bearing2D(m, CentreOnWrist(pose)[i], CentreOnWrist(pose)[j]) == Bearing2D(m, pose[i], pose[j])
  {
  }

  /**
   * What `normalize_keypoints` returns: an incomplete pose unchanged, otherwise the
   * enabled steps applied in the fixed order centre, scale, rotate, each to the output
   * of the one before.
   */
  function Normalize(m: MathLib, t: Transformations, pose: Pose): (r: Pose)
    ensures |r| == |pose|
    ensures |pose| < POSE_SIZE ==> r == pose
    ensures !Flag(t, DISPLACEMENT_INVARIANT) && !Flag(t, SCALE_INVARIANT) && !Flag(t, ROTATION_INVARIANT) ==> r == pose
    ensures |pose| >= POSE_SIZE && Flag(t, DISPLACEMENT_INVARIANT) ==> r[WRIST] == ORIGIN
    ensures |pose| >= POSE_SIZE && !Flag(t, SCALE_INVARIANT) ==>
              forall i :: 0 <= i < |r| ==>
                r[i].z == (if Flag(t, DISPLACEMENT_INVARIANT) then pose[i].z - pose[WRIST].z else pose[i].z)
  {
    if |pose| < POSE_SIZE then
      pose
    else
      var centred := if Flag(t, DISPLACEMENT_INVARIANT) then CentreOnWrist(pose) else pose;
      var scaled := if Flag(t, SCALE_INVARIANT) then ScaleByHandSize(m, centred) else centred;
      if Flag(t, ROTATION_INVARIANT) then AlignIndexFinger(m, scaled) else scaled
  }

  /** Centring a pose that is already centred changes nothing. */
  lemma CentringIsIdempotent(pose: Pose)
    requires |pose| > WRIST
    ensures CentreOnWrist(CentreOnWrist(pose)) == CentreOnWrist(pose)
  {
  }

  /** With only the displacement step on, normalising a normalised pose changes nothing. */
  lemma CentredNormalizeIsIdempotent(m: MathLib, t: Transformations, pose: Pose)
    requires Flag(t, DISPLACEMENT_INVARIANT) && !Flag(t, SCALE_INVARIANT) && !Flag(t, ROTATION_INVARIANT)
    ensures Normalize(m, t, Normalize(m, t, pose)) == Normalize(m, t, pose)
  {
  }

  // ---------------------------------------------------------------------------
  // Condition evaluation
  // ---------------------------------------------------------------------------

  /** Inclusive bounds; an absent bound is minus or plus infinity. */
  predicate WithinBounds(low: Option<real>, v: real, high: Option<real>) {
    (low.None? || low.value <= v) && (high.None? || v <= high.value)
  }

  /** `condition.get('points', [])`. */
  function PointsOf(c: Condition): seq<nat> {
    c.points.GetOr([])
  }

  /** `condition.get('point', 0)`. */
  function PointIndex(c: Condition): nat {
    c.point.GetOr(0)
  }

  /** The landmark indices a condition reads. */
  function IndicesOf(c: Condition): seq<nat> {
    if c.kind == Some(POSITION) then [PointIndex(c)] else PointsOf(c)
  }

  /** `_check_distance_condition`. */
  predicate CheckDistanceCondition(m: MathLib, pose: Pose, c: Condition)
    ensures CheckDistanceCondition(m, pose, c) ==>
              |PointsOf(c)| == 2 && PointsOf(c)[0] < |pose| && PointsOf(c)[1] < |pose|
    ensures Sound(m) && c.max.Some? && c.max.value < 0.0 ==> !CheckDistanceCondition(m, pose, c)
    ensures Sound(m) && |PointsOf(c)| == 2 && PointsOf(c)[0] < |pose| && PointsOf(c)[0] == PointsOf(c)[1] ==>
              (CheckDistanceCondition(m, pose, c) <==> WithinBounds(c.min, 0.0, c.max))
    ensures |PointsOf(c)| == 2 && PointsOf(c)[0] < |pose| && PointsOf(c)[1] < |pose| ==>
              (CheckDistanceCondition(m, pose, c) <==>
                 WithinBounds(c.min, EuclideanDistance(m, pose[PointsOf(c)[0]], pose[PointsOf(c)[1]]), c.max))
  {
    var points := PointsOf(c);
    if |points| != 2 then false
    else if points[0] >= |pose| || points[1] >= |pose| then false
    else WithinBounds(c.min, EuclideanDistance(m, pose[points[0]], pose[points[1]]), c.max)
  }

  /** `_check_angle_condition`: the angle is measured at the middle point. */
  predicate CheckAngleCondition(m: MathLib, pose: Pose, c: Condition)
    ensures CheckAngleCondition(m, pose, c) ==>
              |PointsOf(c)| == 3 && PointsOf(c)[0] < |pose| && PointsOf(c)[1] < |pose| && PointsOf(c)[2] < |pose|
    ensures Sound(m) && ((c.min.Some? && c.min.value > 180.0) || (c.max.Some? && c.max.value < 0.0)) ==>
              !CheckAngleCondition(m, pose, c)
    ensures |PointsOf(c)| == 3 && PointsOf(c)[0] < |pose| && PointsOf(c)[1] < |pose| && PointsOf(c)[2] < |pose| ==>
              (CheckAngleCondition(m, pose, c) <==>
                 WithinBounds(c.min, AngleAtVertex(m, pose[PointsOf(c)[0]], pose[PointsOf(c)[1]], pose[PointsOf(c)[2]]), c.max))
  {
    var points := PointsOf(c);
    if |points| != 3 then false
    else if points[0] >= |pose| || points[1] >= |pose| || points[2] >= |pose| then false
    else WithinBounds(c.min, AngleAtVertex(m, pose[points[0]], pose[points[1]], pose[points[2]]), c.max)
  }

  /** `_check_position_condition`: each bound present is checked, the others impose nothing. */
  predicate CheckPositionCondition(pose: Pose, c: Condition)
    ensures CheckPositionCondition(pose, c) <==>
              PointIndex(c) < |pose| &&
              WithinBounds(c.xMin, pose[PointIndex(c)].x, c.xMax) &&
              WithinBounds(c.yMin, pose[PointIndex(c)].y, c.yMax)
  {
    var index := PointIndex(c);
    if index >= |pose| then false
    else
      var p := pose[index];
      if c.xMin.Some? && p.x < c.xMin.value then false
      else if c.xMax.Some? && p.x > c.xMax.value then false
      else if c.yMin.Some? && p.y < c.yMin.value then false
      else if c.yMax.Some? && p.y > c.yMax.value then false
      else true
  }

  /**
   * `_evaluate_condition`: dispatch on the condition's type. Evaluation fails closed:
   * an unknown type, a wrong number of points or an index past the end gives false.
   */
  predicate EvaluateCondition(m: MathLib, pose: Pose, c: Condition)
    ensures EvaluateCondition(m, pose, c) ==> c.kind in {Some(DISTANCE), Some(ANGLE), Some(POSITION)}
    ensures EvaluateCondition(m, pose, c) ==> forall k :: k in IndicesOf(c) ==> k < |pose|
    ensures EvaluateCondition(m, pose, c) && c.kind == Some(DISTANCE) ==> |PointsOf(c)| == 2
    ensures EvaluateCondition(m, pose, c) && c.kind == Some(ANGLE) ==> |PointsOf(c)| == 3
  {
    if c.kind == Some(DISTANCE) then CheckDistanceCondition(m, pose, c)
    else if c.kind == Some(ANGLE) then CheckAngleCondition(m, pose, c)
    else if c.kind == Some(POSITION) then CheckPositionCondition(pose, c)
    else false
  }

  /** `gesture.get('conditions', [])`. */
  function ConditionsOf(g: Gesture): seq<Condition> {
    g.conditions.GetOr([])
  }

  /**
   * What `_check_gesture_conditions` decides: the conditions are AND-combined, so a
   * gesture without conditions holds for every pose.
   */
  predicate GestureHolds(m: MathLib, pose: Pose, g: Gesture) {
    forall c :: c in ConditionsOf(g) ==> EvaluateCondition(m, pose, c)
  }

  // ---------------------------------------------------------------------------
  // Gesture matching
  // ---------------------------------------------------------------------------

  /** Gesture `i` holds and no earlier gesture does. */
  predicate IsFirstMatch(m: MathLib, pose: Pose, defs: seq<Gesture>, i: nat) {
    && i < |defs|
    && GestureHolds(m, pose, defs[i])
    && forall j :: 0 <= j < i ==> !GestureHolds(m, pose, defs[j])
  }

  /** The loop of `detect_gesture`: the position of the first gesture that holds. */
  function FirstMatch(m: MathLib, pose: Pose, defs: seq<Gesture>): (r: Option<nat>)
    ensures r.Some? ==> IsFirstMatch(m, pose, defs, r.value)
    ensures r.None? <==> forall j :: 0 <= j < |defs| ==> !GestureHolds(m, pose, defs[j])
  {
    if defs == [] then None
    else if GestureHolds(m, pose, defs[0]) then Some(0)
    else
      match FirstMatch(m, pose, defs[1..])
      case None => None
      case Some(k) => Some(k + 1)
  }

  /**
   * `detect_gesture`: nothing for an incomplete pose; otherwise the name of the first
   * gesture, in definition order, whose conditions all hold, or nothing when none does.
   * Reading the name of a matching gesture that has none raises a KeyError.
   */
  function Detect(m: MathLib, pose: Pose, defs: seq<Gesture>): (r: Result<Option<string>>)
    ensures |pose| < POSE_SIZE ==> r == Success(None)
    ensures r == Success(None) <==>
              |pose| < POSE_SIZE || forall j :: 0 <= j < |defs| ==> !GestureHolds(m, pose, defs[j])
    ensures r.Success? && r.value.Some? ==>
              exists i: nat :: IsFirstMatch(m, pose, defs, i) && defs[i].name == r.value
    ensures r.Failure? ==>
              r.error == KeyError("name") && exists i: nat :: IsFirstMatch(m, pose, defs, i) && defs[i].name.None?
  {
    if |pose| < POSE_SIZE then
      Success(None)
    else
      match FirstMatch(m, pose, defs)
      case None => Success(None)
      case Some(i) =>
        if defs[i].name.Some? then Success(Some(defs[i].name.value)) else Failure(KeyError("name"))
  }

  /**
   * Definition order is priority order: when every gesture is named and the later one's
   * name occurs nowhere else, of two gestures that both hold the later one is not reported.
   */
  lemma EarlierGestureWins(m: MathLib, pose: Pose, defs: seq<Gesture>, i: nat, j: nat)
    requires i < j < |defs| && |pose| >= POSE_SIZE
    requires GestureHolds(m, pose, defs[i]) && GestureHolds(m, pose, defs[j])
    requires forall k :: 0 <= k < |defs| ==> defs[k].name.Some?
    requires forall k :: 0 <= k < |defs| && k != j ==> defs[k].name != defs[j].name
    ensures Detect(m, pose, defs).Success?
    ensures Detect(m, pose, defs) != Success(defs[j].name)
  {
  }

  /** The sample pose of the pinch test: every landmark at (0.5, 0.5) but the two tips. */
  function PinchSamplePose(): (pose: Pose)
    ensures |pose| == POSE_SIZE
  {
    seq(POSE_SIZE, i requires 0 <= i < POSE_SIZE =>
      if i == THUMB_TIP then Landmark(0.48, 0.48, 0.0)
      else if i == INDEX_TIP then Landmark(0.49, 0.49, 0.0)
      else Landmark(0.5, 0.5, 0.0))
  }

  /** The pinch gesture of the test: thumb tip and index tip at most 0.05 apart. */
  const PINCH: Gesture :=
    Gesture(Some("test_pinch"),
            Some([Condition(Some(DISTANCE), Some([THUMB_TIP, INDEX_TIP]), None, None, Some(0.05), None, None, None, None)]))

  /**
   * The pinch test, stated over the model: with centring and scaling on and rotation
   * off, the normalised sample pose keeps its 21 landmarks and is detected as the pinch.
   */
  lemma PinchIsDetected(m: MathLib)
    requires Sound(m)
    ensures var t := map[DISPLACEMENT_INVARIANT := true, SCALE_INVARIANT := true, ROTATION_INVARIANT := false];
            var normalized := Normalize(m, t, PinchSamplePose());
            |normalized| == POSE_SIZE && Detect(m, normalized, [PINCH]) == Success(Some("test_pinch"))
  {
    var t := map[DISPLACEMENT_INVARIANT := true, SCALE_INVARIANT := true, ROTATION_INVARIANT := false];
    var pose := PinchSamplePose();
    var centred := CentreOnWrist(pose);
    assert centred[MIDDLE_FINGER_BASE] == centred[WRIST] == ORIGIN;
    assert Normalize(m, t, pose) == centred;
    assert centred[THUMB_TIP] == Landmark(-0.02, -0.02, 0.0);
    assert centred[INDEX_TIP] == Landmark(-0.01, -0.01, 0.0);
    var d := EuclideanDistance(m, centred[THUMB_TIP], centred[INDEX_TIP]);
    assert d == m.sqrt(0.0002);
    assert m.sqrt(Square(0.05)) == 0.05;
    assert m.sqrt(0.0002) < m.sqrt(Square(0.05));
    assert GestureHolds(m, centred, PINCH);
  }

  // ---------------------------------------------------------------------------
  // The detector object
  // ---------------------------------------------------------------------------

  /**
   * `GestureDetector`: holds the active configuration, its transformation switches and
   * its gesture definitions; `UpdateConfig` replaces all three at once.
   */
  class GestureDetector {
    /** The floating-point library the kernels call. */
    const math: MathLib
    var config: Config
    var transformations: Transformations
    var gestureDefs: seq<Gesture>

    constructor (math: MathLib, config: Config)
      ensures this.math == math
      ensures this.config == config
      ensures transformations == config.transformations && gestureDefs == config.gestures
    {
      this.math := math;
      this.config := Config(map[], [], map[]);
      transformations := map[];
      gestureDefs := [];
      new;
      UpdateConfig(config);
    }

    /** `update_config`: the switches and the gestures of the new document replace the old ones. */
    method UpdateConfig(newConfig: Config)
      modifies this
      ensures config == newConfig
      ensures transformations == newConfig.transformations && gestureDefs == newConfig.gestures
    {
      config := newConfig;
      transformations := newConfig.transformations;
      gestureDefs := newConfig.gestures;
    }

    /** `normalize_keypoints`, proved to compute `Normalize` under the current switches. */
    method NormalizeKeypoints(landmarks: Pose) returns (normalized: Pose)
      ensures normalized == Normalize(math, transformations, landmarks)
    {
      if |landmarks| < POSE_SIZE {
        return landmarks;
      }
      normalized := landmarks;
      if Flag(transformations, DISPLACEMENT_INVARIANT) {
        normalized := CentreOnWrist(landmarks);
      }
      if Flag(transformations, SCALE_INVARIANT) {
        normalized := ScaleByHandSize(math, normalized);
      }
      if Flag(transformations, ROTATION_INVARIANT) {
        if |normalized| > INDEX_TIP {
          var angle := Bearing2D(math, normalized[WRIST], normalized[INDEX_TIP]);
          normalized := RotatePoints(normalized, -angle);
        }
      }
    }

    /** `_rotate_points`: builds the rotated list point by point. */
    method RotatePoints(landmarks: Pose, angle: real) returns (rotated: Pose)
      ensures rotated == Rotated(math, landmarks, angle)
    {
      var cosA := math.cos(angle);
      var sinA := math.sin(angle);
      rotated := [];
      for i := 0 to |landmarks|
        invariant |rotated| == i
        invariant forall k :: 0 <= k < i ==> rotated[k] == RotatePoint(landmarks[k], cosA, sinA)
      {
        var p := landmarks[i];
        rotated := rotated + [Landmark(p.x * cosA - p.y * sinA, p.x * sinA + p.y * cosA, p.z)];
      }
    }

    /** `_check_gesture_conditions`: stops at the first condition that fails. */
    method CheckGestureConditions(landmarks: Pose, gesture: Gesture) returns (holds: bool)
      ensures holds == GestureHolds(math, landmarks, gesture)
    {
      var conditions := ConditionsOf(gesture);
      for i := 0 to |conditions|
        invariant forall k :: 0 <= k < i ==> EvaluateCondition(math, landmarks, conditions[k])
      {
        if !EvaluateCondition(math, landmarks, conditions[i]) {
          return false;
        }
      }
      return true;
    }

    /**
     * `detect_gesture`: scans the gesture definitions in order and reports the name of
     * the first one whose conditions hold.
     */
    method DetectGesture(landmarks: Pose) returns (r: Result<Option<string>>)
      ensures r == Detect(math, landmarks, gestureDefs)
    {
      if |landmarks| < POSE_SIZE {
        return Success(None);
      }
      for i := 0 to |gestureDefs|
        invariant forall j :: 0 <= j < i ==> !GestureHolds(math, landmarks, gestureDefs[j])
      {
        var holds := CheckGestureConditions(landmarks, gestureDefs[i]);
        if holds {
          assert IsFirstMatch(math, landmarks, gestureDefs, i);
          var name := gestureDefs[i].name;
          if name.None? {
            return Failure(KeyError("name"));
          }
          return Success(Some(name.value));
        }
      }
      return Success(None);
    }

    /** `get_analogue_value`: a placeholder that yields no value for any pose or gesture. */
    function GetAnalogueValue(landmarks: Pose, gestureName: string): (r: Option<real>)
      ensures r.None?
    {
      None
    }
  }
}
