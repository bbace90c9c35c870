/**
 * How the three components meet: what the configuration validator admits, what the
 * detector then decides, and what the executor does with the result.
 */
module Pipeline {
  import opened Wrappers
  import opened Records
  import opened Geometry
  import opened GestureDetection
  import opened ConfigManagement
  import opened CommandExecution

  /**
   * Every mapping type the validator admits is one the executor can dispatch, so an
   * admitted mapping never meets the executor's unknown-type failure.
   */
  lemma ValidMappingIsDispatched(mapping: Mapping, analogue: Option<real>, actionOk: bool)
    requires ValidMapping(mapping)
    ensures Dispatch(mapping, analogue, actionOk).Some?
  {
  }

  /**
   * A validated gesture never matches vacuously: it has at least one condition, each of
   * a kind the detector evaluates.
   */
  lemma ValidGestureIsNotVacuous(g: Gesture)
    requires ValidGesture(g)
    ensures |ConditionsOf(g)| > 0
    ensures forall c :: c in ConditionsOf(g) ==> c.kind in {Some(DISTANCE), Some(ANGLE), Some(POSITION)}
  {
  }

  /** The default document defines no gesture, so nothing is ever detected under it. */
  lemma DefaultConfigDetectsNothing(m: MathLib, pose: Pose)
    ensures Detect(m, pose, DefaultConfig().gestures) == Success(None)
  {
  }

  /**
   * With the unique names the configuration manager keeps, a detected name identifies
   * one gesture: the first match is the only definition with that name.
   */
  lemma DetectedNameIsUnique(m: MathLib, pose: Pose, defs: seq<Gesture>, name: string)
    requires UniqueNames(defs)
    requires Detect(m, pose, defs) == Success(Some(name))
    ensures exists i: nat :: IsFirstMatch(m, pose, defs, i) && defs[i].name == Some(name) &&
                             forall j :: 0 <= j < |defs| && j != i ==> defs[j].name != Some(name)
  {
  }

  /**
   * The detector supplies no analogue value, so a gesture mapped to mouse movement,
   * scrolling or volume never fires and leaves the history as it was.
   */
  lemma AnalogueCommandsNeverFire(d: GestureDetector, pose: Pose, mappings: map<string, Mapping>,
                                  cooldown: real, last: map<string, real>, gesture: string,
                                  now: real, actionOk: bool)
    requires gesture in mappings && mappings[gesture].kind in {Some(MOUSE_MOVE), Some(SCROLL), Some(VOLUME)}
    ensures var o := Execute(mappings, cooldown, last, gesture, d.GetAnalogueValue(pose, gesture), now, actionOk);
            !o.success && o.lastExecution == last
  {
  }

  /**
   * The validator asks only that a key be present, the executor that it be non-empty:
   * a key mapping with an empty key is admitted and then never fires.
   */
  lemma EmptyKeyAdmittedButNeverFires(mappings: map<string, Mapping>, cooldown: real,
                                      last: map<string, real>, gesture: string,
                                      analogue: Option<real>, now: real, actionOk: bool)
    requires gesture in mappings && mappings[gesture] == Mapping(Some(KEY_PRESS), Some(""), None, None)
    ensures ValidMapping(mappings[gesture])
    ensures !Execute(mappings, cooldown, last, gesture, analogue, now, actionOk).success
  {
  }
}
