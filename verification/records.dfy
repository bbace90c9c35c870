/**
 * The records exchanged by the detector, the configuration manager and the command
 * executor. The Python code keeps them as JSON-shaped dictionaries; here every key
 * the core reads becomes a field, and a key that may be missing becomes an `Option`.
 */
module Records {
  import opened Wrappers

  /** One hand landmark: x and y in the image frame, z a relative depth. */
  datatype Landmark = Landmark(x: real, y: real, z: real)

  /** A hand pose: a list of landmarks (21 when complete). */
  type Pose = seq<Landmark>

  /**
   * A gesture condition. `kind` is the `type` key ("distance", "angle" or "position");
   * `points` and `min`/`max` serve distance and angle conditions, `point` and the four
   * coordinate bounds serve position conditions.
   */
  datatype Condition = Condition(
    kind: Option<string>,
    points: Option<seq<nat>>,
    point: Option<nat>,
    min: Option<real>,
    max: Option<real>,
    xMin: Option<real>,
    xMax: Option<real>,
    yMin: Option<real>,
    yMax: Option<real>)

  /** A gesture definition: a name and a list of conditions, both keys optional. */
  datatype Gesture = Gesture(name: Option<string>, conditions: Option<seq<Condition>>)

  /**
   * A gesture-to-command mapping. `kind` is the `type` key; `key`, `sensitivity` and
   * `command` are the keys the validator and the executor inspect.
   */
  datatype Mapping = Mapping(
    kind: Option<string>,
    key: Option<string>,
    sensitivity: Option<real>,
    command: Option<string>)

  /** The transformation switches, keyed by flag name. */
  type Transformations = map<string, bool>

  const DISPLACEMENT_INVARIANT: string := "displacement_invariant"
  const SCALE_INVARIANT: string := "scale_invariant"
  const ROTATION_INVARIANT: string := "rotation_invariant"

  /** A switch is on only when present and true: a missing flag reads as off. */
  predicate Flag(t: Transformations, name: string) {
    name in t && t[name]
  }

  /**
   * The whole configuration document. A missing top-level key is the empty collection,
   * which is the default every reader of the document in the core supplies.
   */
  datatype Config = Config(
    transformations: Transformations,
    gestures: seq<Gesture>,
    mappings: map<string, Mapping>)

  /** The condition types (the `type` key of a condition). */
  const DISTANCE: string := "distance"
  const ANGLE: string := "angle"
  const POSITION: string := "position"

  /** The command types (the `type` key of a mapping). */
  const KEY_PRESS: string := "key_press"
  const KEY_HOLD: string := "key_hold"
  const MOUSE_CLICK: string := "mouse_click"
  const MOUSE_MOVE: string := "mouse_move"
  const SCROLL: string := "scroll"
  const VOLUME: string := "volume"
  const CUSTOM: string := "custom"
}
