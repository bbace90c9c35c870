/**
 * The configuration manager: owns the configuration document (transformation switches,
 * gesture definitions, gesture-to-command mappings), validates what is added to it and
 * persists it after every change.
 */
module ConfigManagement {
  import opened Wrappers
  import opened Records

  /** The blank-slate document: centring and scaling on, rotation off, nothing defined. */
  function DefaultConfig(): (c: Config)
    ensures Flag(c.transformations, DISPLACEMENT_INVARIANT)
    ensures Flag(c.transformations, SCALE_INVARIANT)
    ensures ROTATION_INVARIANT in c.transformations && !Flag(c.transformations, ROTATION_INVARIANT)
    ensures c.gestures == [] && c.mappings == map[]
  {
    Config(map[DISPLACEMENT_INVARIANT := true, SCALE_INVARIANT := true, ROTATION_INVARIANT := false], [], map[])
  }

  /** What reading the configuration file produced. */
  datatype LoadSource =
    | FileMissing
    | Unreadable
    | Parsed(document: Config)

  // ---------------------------------------------------------------------------
  // Validation
  // ---------------------------------------------------------------------------

  /** `_validate_distance_condition`: a list of exactly two points and at least one bound. */
  predicate ValidDistanceCondition(c: Condition)
    ensures c.points.None? ==> !ValidDistanceCondition(c)
    ensures c.points.Some? && |c.points.value| != 2 ==> !ValidDistanceCondition(c)
    ensures c.min.None? && c.max.None? ==> !ValidDistanceCondition(c)
    ensures c.points.Some? && |c.points.value| == 2 && c.min.Some? ==> ValidDistanceCondition(c)
    ensures c.points.Some? && |c.points.value| == 2 && c.max.Some? ==> ValidDistanceCondition(c)
  {
    c.points.Some? && |c.points.value| == 2 && (c.min.Some? || c.max.Some?)
  }

  /** `_validate_angle_condition`: a list of exactly three points and at least one bound. */
  predicate ValidAngleCondition(c: Condition)
    ensures c.points.None? ==> !ValidAngleCondition(c)
    ensures c.points.Some? && |c.points.value| != 3 ==> !ValidAngleCondition(c)
    ensures c.min.None? && c.max.None? ==> !ValidAngleCondition(c)
    ensures c.points.Some? && |c.points.value| == 3 && c.min.Some? ==> ValidAngleCondition(c)
    ensures c.points.Some? && |c.points.value| == 3 && c.max.Some? ==> ValidAngleCondition(c)
  {
    c.points.Some? && |c.points.value| == 3 && (c.min.Some? || c.max.Some?)
  }

  /** `_validate_position_condition`: a point and at least one coordinate bound. */
  predicate ValidPositionCondition(c: Condition)
    ensures c.point.None? ==> !ValidPositionCondition(c)
    ensures c.xMin.None? && c.xMax.None? && c.yMin.None? && c.yMax.None? ==> !ValidPositionCondition(c)
    ensures c.point.Some? && c.xMin.Some? ==> ValidPositionCondition(c)
    ensures c.point.Some? && c.xMax.Some? ==> ValidPositionCondition(c)
    ensures c.point.Some? && c.yMin.Some? ==> ValidPositionCondition(c)
    ensures c.point.Some? && c.yMax.Some? ==> ValidPositionCondition(c)
  {
    c.point.Some? && (c.xMin.Some? || c.xMax.Some? || c.yMin.Some? || c.yMax.Some?)
  }

  /** `_validate_condition`: a known type whose own requirements are met. */
  predicate ValidCondition(c: Condition)
    ensures ValidCondition(c) ==> c.kind in {Some(DISTANCE), Some(ANGLE), Some(POSITION)}
    ensures ValidCondition(c) && c.kind != Some(POSITION) ==> c.min.Some? || c.max.Some?
    ensures ValidCondition(c) && c.kind == Some(POSITION) ==>
              c.xMin.Some? || c.xMax.Some? || c.yMin.Some? || c.yMax.Some?
  {
    if c.kind == Some(DISTANCE) then ValidDistanceCondition(c)
    else if c.kind == Some(ANGLE) then ValidAngleCondition(c)
    else if c.kind == Some(POSITION) then ValidPositionCondition(c)
    else false
  }

  /** What `_validate_gesture` accepts: a name and a non-empty list of valid conditions. */
  predicate ValidGesture(g: Gesture) {
    && g.name.Some?
    && g.conditions.Some?
    && |g.conditions.value| > 0
    && forall c :: c in g.conditions.value ==> ValidCondition(c)
  }

  /** `_validate_mapping`: the key each command type needs is present. */
  predicate ValidMapping(mapping: Mapping)
    ensures ValidMapping(mapping) ==>
              mapping.kind in {Some(KEY_PRESS), Some(KEY_HOLD), Some(MOUSE_CLICK), Some(MOUSE_MOVE),
                               Some(SCROLL), Some(VOLUME), Some(CUSTOM)}
    ensures mapping.kind in {Some(KEY_PRESS), Some(KEY_HOLD)} ==> (ValidMapping(mapping) <==> mapping.key.Some?)
    ensures mapping.kind in {Some(MOUSE_MOVE), Some(SCROLL), Some(VOLUME)} ==>
              (ValidMapping(mapping) <==> mapping.sensitivity.Some?)
    ensures mapping.kind == Some(CUSTOM) ==> (ValidMapping(mapping) <==> mapping.command.Some?)
    ensures mapping.kind == Some(MOUSE_CLICK) ==> ValidMapping(mapping)
  {
    match mapping.kind
    case None => false
    case Some(kind) =>
      if kind == KEY_PRESS then mapping.key.Some?
      else if kind == KEY_HOLD then mapping.key.Some?
      else if kind == MOUSE_CLICK then true
      else if kind == MOUSE_MOVE then mapping.sensitivity.Some?
      else if kind == SCROLL then mapping.sensitivity.Some?
      else if kind == VOLUME then mapping.sensitivity.Some?
      else if kind == CUSTOM then mapping.command.Some?
      else false
  }

  // ---------------------------------------------------------------------------
  // Gesture lists by name
  // ---------------------------------------------------------------------------

  /** No two gestures of the list carry the same name. */
  predicate UniqueNames(gs: seq<Gesture>) {
    forall i, j :: 0 <= i < j < |gs| ==> gs[i].name != gs[j].name
  }

  /**
   * `[g['name'] for g in gestures]`: the names in order, or the KeyError raised by the
   * first gesture that has none.
   */
  function NamesOf(gs: seq<Gesture>): (r: Result<seq<string>>)
    ensures r.Success? <==> forall i :: 0 <= i < |gs| ==> gs[i].name.Some?
    ensures r.Success? ==> |r.value| == |gs| && forall i :: 0 <= i < |gs| ==> Some(r.value[i]) == gs[i].name
    ensures r.Failure? ==> r.error == KeyError("name")
  {
    if gs == [] then Success([])
    else if gs[0].name.None? then Failure(KeyError("name"))
    else
      match NamesOf(gs[1..])
      case Failure(e) => Failure(e)
      case Success(rest) => Success([gs[0].name.value] + rest)
  }

  /**
   * The search loop of `update_gesture`: the position of the first gesture called
   * `name`, nothing when there is none, or the KeyError raised by a nameless gesture
   * met before it.
   */
  function FindByName(gs: seq<Gesture>, name: string): (r: Result<Option<nat>>)
    ensures r.Success? && r.value.Some? ==>
              && r.value.value < |gs|
              && gs[r.value.value].name == Some(name)
              && forall j :: 0 <= j < r.value.value ==> gs[j].name.Some? && gs[j].name != Some(name)
    ensures r == Success(None) <==> forall j :: 0 <= j < |gs| ==> gs[j].name.Some? && gs[j].name != Some(name)
    ensures r.Failure? ==>
              && r.error == KeyError("name")
              && exists k :: 0 <= k < |gs| && gs[k].name.None? &&
                   forall j :: 0 <= j < k ==> gs[j].name.Some? && gs[j].name != Some(name)
  {
    if gs == [] then Success(None)
    else if gs[0].name.None? then Failure(KeyError("name"))
    else if gs[0].name == Some(name) then Success(Some(0))
    else
      match FindByName(gs[1..], name)
      case Failure(e) => Failure(e)
      case Success(None) => Success(None)
      case Success(Some(k)) => Success(Some(k + 1))
  }

  /** Every gesture has a name, so reading `g['name']` from each raises nothing. */
  predicate AllNamed(gs: seq<Gesture>) {
    gs == [] || (gs[0].name.Some? && AllNamed(gs[1..]))
  }

  /** `AllNamed` holds exactly when no position holds a nameless gesture. */
  lemma {:induction false} AllNamedAt(gs: seq<Gesture>)
    ensures AllNamed(gs) <==> forall i :: 0 <= i < |gs| ==> gs[i].name.Some?
  {
    if gs != [] {
      AllNamedAt(gs[1..]);
      assert forall i :: 1 <= i < |gs| ==> gs[i] == gs[1..][i - 1];
    }
  }

  /**
   * `[g for g in gestures if g['name'] != name]`: the gestures not called `name`, in
   * their order, or the KeyError raised by a nameless gesture.
   */
  function Without(gs: seq<Gesture>, name: string): (r: Result<seq<Gesture>>)
    ensures r.Success? <==> AllNamed(gs)
    ensures r.Success? ==> |r.value| <= |gs|
    ensures r.Failure? ==> r.error == KeyError("name")
  {
    if gs == [] then Success([])
    else if gs[0].name.None? then Failure(KeyError("name"))
    else
      match Without(gs[1..], name)
      case Failure(e) => Failure(e)
      case Success(rest) =>
        assert gs == [gs[0]] + gs[1..];
        if gs[0].name == Some(name) then Success(rest) else Success([gs[0]] + rest)
  }

  /**
   * Filtering keeps every gesture not called `name` as many times as it occurs, and no
   * gesture called `name`.
   */
  lemma {:induction false} WithoutCounts(gs: seq<Gesture>, name: string)
    requires Without(gs, name).Success?
    ensures forall g :: multiset(Without(gs, name).value)[g] ==
                        if g.name == Some(name) then 0 else multiset(gs)[g]
  {
    if gs != [] {
      var tail := gs[1..];
      WithoutCounts(tail, name);
      var rest := Without(tail, name).value;
      assert gs == [gs[0]] + tail;
      assert multiset(gs) == multiset([gs[0]]) + multiset(tail);
      if gs[0].name != Some(name) {
        assert multiset([gs[0]] + rest) == multiset([gs[0]]) + multiset(rest);
      }
    }
  }

  /** When no gesture is called `name`, filtering gives back the list itself. */
  lemma {:induction false} WithoutNoMatch(gs: seq<Gesture>, name: string)
    requires Without(gs, name).Success?
    requires forall i :: 0 <= i < |gs| ==> gs[i].name != Some(name)
    ensures Without(gs, name).value == gs
  {
    if gs != [] {
      assert gs == [gs[0]] + gs[1..];
      WithoutCons(gs[0], gs[1..], name);
      WithoutNoMatch(gs[1..], name);
    }
  }

  /** A gesture is kept exactly when it occurs in the list and is not called `name`. */
  lemma WithoutMembers(gs: seq<Gesture>, name: string)
    requires Without(gs, name).Success?
    ensures forall g :: g in Without(gs, name).value <==> g in gs && g.name != Some(name)
  {
    WithoutCounts(gs, name);
    forall g
      ensures g in Without(gs, name).value <==> g in gs && g.name != Some(name)
    {
      assert g in Without(gs, name).value <==> multiset(Without(gs, name).value)[g] > 0;
      assert g in gs <==> multiset(gs)[g] > 0;
    }
  }

  /** One step of the filter: a named gesture in front of `rest`. */
  lemma WithoutCons(g: Gesture, rest: seq<Gesture>, name: string)
    requires g.name.Some?
    ensures Without([g] + rest, name).Success? <==> Without(rest, name).Success?
    ensures Without(rest, name).Success? ==>
              Without([g] + rest, name).value ==
                if g.name == Some(name) then Without(rest, name).value else [g] + Without(rest, name).value
  {
    assert ([g] + rest)[0] == g && ([g] + rest)[1..] == rest;
  }

  /** The inductive step of `WithoutAppend`: putting a named head in front of `a[1..]`. */
  lemma WithoutAppendStep(g: Gesture, a: seq<Gesture>, b: seq<Gesture>, name: string)
    requires g.name.Some? && Without(a, name).Success? && Without(b, name).Success?
    requires Without(a + b, name).Success?
    requires Without(a + b, name).value == Without(a, name).value + Without(b, name).value
    ensures Without([g] + a + b, name).Success?
    ensures Without([g] + a + b, name).value == Without([g] + a, name).value + Without(b, name).value
  {
    var wa, wb := Without(a, name).value, Without(b, name).value;
    assert [g] + a + b == [g] + (a + b);
    assert Without([g] + a + b, name).Success? by {
      WithoutCons(g, a + b, name);
    }
    if g.name == Some(name) {
      calc {
        Without([g] + a + b, name).value;
      == { WithoutCons(g, a + b, name); }
        Without(a + b, name).value;
      ==
        wa + wb;
      == { WithoutCons(g, a, name); }
        Without([g] + a, name).value + wb;
      }
    } else {
      calc {
        Without([g] + a + b, name).value;
      == { WithoutCons(g, a + b, name); }
        [g] + Without(a + b, name).value;
      ==
        [g] + (wa + wb);
      ==
        ([g] + wa) + wb;
      == { WithoutCons(g, a, name); }
        Without([g] + a, name).value + wb;
      }
    }
  }

  /**
   * Filtering distributes over concatenation, so the kept gestures stay in their
   * original order.
   */
  lemma {:induction false} WithoutAppend(a: seq<Gesture>, b: seq<Gesture>, name: string)
    requires Without(a, name).Success? && Without(b, name).Success?
    ensures Without(a + b, name).Success?
    ensures Without(a + b, name).value == Without(a, name).value + Without(b, name).value
  {
    if a == [] {
      assert a + b == b;
    } else {
      assert a == [a[0]] + a[1..];
      WithoutCons(a[0], a[1..], name);
      WithoutAppend(a[1..], b, name);
      WithoutAppendStep(a[0], a[1..], b, name);
    }
  }

  /** Appending a gesture whose name is not yet taken keeps the names unique. */
  lemma AppendKeepsNamesUnique(gs: seq<Gesture>, g: Gesture)
    requires UniqueNames(gs) && NamesOf(gs).Success?
    requires g.name.Some? && g.name.value !in NamesOf(gs).value
    ensures UniqueNames(gs + [g])
  {
  }

  /** The tail of a list with unique names has unique names. */
  lemma TailKeepsNamesUnique(gs: seq<Gesture>)
    requires gs != [] && UniqueNames(gs)
    ensures UniqueNames(gs[1..])
  {
  }

  /** Putting a gesture in front of a list that does not use its name keeps names unique. */
  lemma ConsKeepsNamesUnique(g: Gesture, rest: seq<Gesture>)
    requires UniqueNames(rest)
    requires forall h :: h in rest ==> h.name != g.name
    ensures UniqueNames([g] + rest)
  {
  }

  /** Filtering a list with unique names keeps its names unique. */
  lemma {:induction false} WithoutKeepsNamesUnique(gs: seq<Gesture>, name: string)
    requires UniqueNames(gs) && Without(gs, name).Success?
    ensures UniqueNames(Without(gs, name).value)
  {
    if gs != [] {
      var tail := gs[1..];
      TailKeepsNamesUnique(gs);
      WithoutKeepsNamesUnique(tail, name);
      var rest := Without(tail, name).value;
      if gs[0].name != Some(name) {
        WithoutMembers(tail, name);
        forall h | h in rest ensures h.name != gs[0].name {
          assert h in tail;
          var k :| 0 <= k < |tail| && tail[k] == h;
          assert gs[k + 1] == h;
        }
        ConsKeepsNamesUnique(gs[0], rest);
      }
    }
  }

  /** Replacing the gesture called `name` by one with the same name keeps names unique. */
  lemma ReplaceKeepsNamesUnique(gs: seq<Gesture>, name: string, i: nat, g: Gesture)
    requires UniqueNames(gs) && FindByName(gs, name) == Success(Some(i))
    requires g.name == Some(name)
    ensures UniqueNames(gs[i := g])
  {
  }

  /**
   * `update_gesture` does not check the new name: replacing gesture "a" of ["a", "b"]
   * by a gesture called "b" leaves two gestures called "b".
   */
  lemma ReplaceCanDuplicateNames()
    ensures var c := Condition(Some(POSITION), None, Some(0), None, None, Some(0.0), None, None, None);
            var a := Gesture(Some("a"), Some([c]));
            var b := Gesture(Some("b"), Some([c]));
            && UniqueNames([a, b])
            && FindByName([a, b], "a") == Success(Some(0))
            && ValidGesture(b)
            && !UniqueNames([a, b][0 := b])
  {
    var c := Condition(Some(POSITION), None, Some(0), None, None, Some(0.0), None, None, None);
    var a := Gesture(Some("a"), Some([c]));
    var b := Gesture(Some("b"), Some([c]));
    assert [a, b][0 := b][0] == [a, b][0 := b][1];
  }

  // ---------------------------------------------------------------------------
  // The manager object
  // ---------------------------------------------------------------------------

  /**
   * `ConfigManager`. Every mutating operation takes `saved`, the outcome of writing the
   * file afterwards: the change to the in-memory document is made first and stays made
   * when the write fails, and the operation then reports failure.
   */
  class ConfigManager {
    var config: Config

    /** `__init__`: starts from an empty document and loads. */
    constructor (source: LoadSource)
      ensures source.Parsed? ==> config == source.document
      ensures !source.Parsed? ==> config == DefaultConfig()
    {
      config := Config(map[], [], map[]);
      new;
      var loaded := LoadConfig(source);
    }

    /**
     * `load_config`: a parsed file becomes the document; a missing file yields the default
     * (the save of it is not reported); an unreadable one yields the default and fails.
     */
    method LoadConfig(source: LoadSource) returns (ok: bool)
      modifies this
      ensures ok <==> !source.Unreadable?
      ensures source.Parsed? ==> config == source.document
      ensures !source.Parsed? ==> config == DefaultConfig()
    {
      match source
      case Parsed(document) =>
        config := document;
        ok := true;
      case FileMissing =>
        config := DefaultConfig();
        ok := true;
      case Unreadable =>
        config := DefaultConfig();
        ok := false;
    }

    /** `get_config`. */
    function GetConfig(): Config
      reads this
    {
      config
    }

    /** `get_transformations`. */
    function GetTransformations(): Transformations
      reads this
    {
      config.transformations
    }

    /** `get_gestures`. */
    function GetGestures(): seq<Gesture>
      reads this
    {
      config.gestures
    }

    /** `get_mappings`. */
    function GetMappings(): map<string, Mapping>
      reads this
    {
      config.mappings
    }

    /** `update_transformations`: the switches are replaced wholesale. */
    method UpdateTransformations(transformations: Transformations, saved: bool) returns (ok: bool)
      modifies this
      ensures config == old(config).(transformations := transformations)
      ensures ok == saved
    {
      config := config.(transformations := transformations);
      ok := saved;
    }

    /** `_validate_gesture`: checks the required keys, then each condition in turn. */
    method ValidateGesture(gesture: Gesture) returns (valid: bool)
      ensures valid == ValidGesture(gesture)
    {
      if gesture.name.None? || gesture.conditions.None? {
        return false;
      }
      var conditions := gesture.conditions.value;
      if |conditions| == 0 {
        return false;
      }
      for i := 0 to |conditions|
        invariant forall k :: 0 <= k < i ==> ValidCondition(conditions[k])
      {
        if !ValidCondition(conditions[i]) {
          return false;
        }
      }
      return true;
    }

    /**
     * `add_gesture`: an invalid gesture, an existing gesture without a name or a taken
     * name is refused and nothing changes; otherwise the gesture is appended.
     */
    method AddGesture(gesture: Gesture, saved: bool) returns (ok: bool)
      modifies this
      ensures !ValidGesture(gesture) || NamesOf(old(config.gestures)).Failure? ==> !ok && config == old(config)
      ensures ValidGesture(gesture) && NamesOf(old(config.gestures)).Success? ==>
                if gesture.name.value in NamesOf(old(config.gestures)).value then
                  !ok && config == old(config)
                else
                  config == old(config).(gestures := old(config.gestures) + [gesture]) && ok == saved
    {
      var valid := ValidateGesture(gesture);
      if !valid {
        return false;
      }
      var existing := NamesOf(config.gestures);
      if existing.Failure? || gesture.name.value in existing.value {
        return false;
      }
      config := config.(gestures := config.gestures + [gesture]);
      ok := saved;
    }

    /**
     * `update_gesture`: a valid replacement takes the place of the first gesture with
     * the given name; the name of the replacement is not checked.
     */
    method UpdateGesture(name: string, newGesture: Gesture, saved: bool) returns (ok: bool)
      modifies this
      ensures !ValidGesture(newGesture) ==> !ok && config == old(config)
      ensures ValidGesture(newGesture) ==>
                match FindByName(old(config.gestures), name)
                case Success(Some(i)) =>
                  config == old(config).(gestures := old(config.gestures)[i := newGesture]) && ok == saved
                case _ => !ok && config == old(config)
    {
      var valid := ValidateGesture(newGesture);
      if !valid {
        return false;
      }
      var gestures := config.gestures;
      for i := 0 to |gestures|
        invariant forall j :: 0 <= j < i ==> gestures[j].name.Some? && gestures[j].name != Some(name)
      {
        if gestures[i].name.None? {
          return false;
        }
        if gestures[i].name == Some(name) {
          assert FindByName(gestures, name) == Success(Some(i));
          config := config.(gestures := gestures[i := newGesture]);
          return saved;
        }
      }
      return false;
    }

    /**
     * `remove_gesture`: every gesture with the name goes, and so does its mapping; a
     * nameless gesture anywhere in the list makes the filter fail and nothing changes.
     */
    method RemoveGesture(name: string, saved: bool) returns (ok: bool)
      modifies this
      ensures match Without(old(config.gestures), name)
              case Failure(_) => !ok && config == old(config)
              case Success(rest) =>
                && config == old(config).(gestures := rest, mappings := old(config.mappings) - {name})
                && ok == saved
      ensures (forall h :: h in old(config.gestures) ==> h.name.Some?) ==>
                forall g: Gesture :: multiset(config.gestures)[g] ==
                                     if g.name == Some(name) then 0 else multiset(old(config.gestures))[g]
    {
      var remaining := Without(config.gestures, name);
      if remaining.Failure? {
        AllNamedAt(config.gestures);
        return false;
      }
      WithoutCounts(config.gestures, name);
      config := config.(gestures := remaining.value);
      if name in config.mappings {
        config := config.(mappings := config.mappings - {name});
      }
      ok := saved;
    }

    /** `add_mapping`: a valid mapping is stored under the gesture name, replacing any other. */
    method AddMapping(name: string, mapping: Mapping, saved: bool) returns (ok: bool)
      modifies this
      ensures !ValidMapping(mapping) ==> !ok && config == old(config)
      ensures ValidMapping(mapping) ==>
                config == old(config).(mappings := old(config.mappings)[name := mapping]) && ok == saved
    {
      if !ValidMapping(mapping) {
        return false;
      }
      config := config.(mappings := config.mappings[name := mapping]);
      ok := saved;
    }

    /**
     * `remove_mapping`: drops the mapping of the gesture; removing one that is not there
     * succeeds without writing the file.
     */
    method RemoveMapping(name: string, saved: bool) returns (ok: bool)
      modifies this
      ensures name in old(config.mappings) ==>
                config == old(config).(mappings := old(config.mappings) - {name}) && ok == saved
      ensures name !in old(config.mappings) ==> ok && config == old(config)
    {
      if name in config.mappings {
        config := config.(mappings := config.mappings - {name});
        return saved;
      }
      return true;
    }
  }
}
