/**
 * The command executor: turns a detected gesture into its mapped desktop action, at
 * most once per cooldown period per gesture. The clock reading and the outcome of the
 * desktop-automation call are inputs.
 */
module CommandExecution {
  import opened Wrappers
  import opened Records

  /** The cooldown an executor gets when none is given, in seconds. */
  const DEFAULT_COOLDOWN: real := 0.5

  /** Python truthiness of an optional string: present and non-empty. */
  predicate Truthy(s: Option<string>) {
    s.Some? && s.value != ""
  }

  // ---------------------------------------------------------------------------
  // The per-type actions. `actionOk` is whether the automation call raised nothing.
  // ---------------------------------------------------------------------------

  /**
   * `_execute_key_press` and `_execute_key_hold`: a missing or empty key fails before
   * any key is touched; with a key, the action succeeds exactly when the call does.
   */
  predicate KeyAction(def: Mapping, actionOk: bool)
    ensures !Truthy(def.key) ==> !KeyAction(def, actionOk)
    ensures Truthy(def.key) ==> (KeyAction(def, actionOk) <==> actionOk)
  {
    Truthy(def.key) && actionOk
  }

  /**
   * `_execute_mouse_click`: button and click count have defaults, so no field of the
   * mapping can make it fail; it succeeds exactly when the call does.
   */
  predicate ClickAction(actionOk: bool)
    ensures ClickAction(actionOk) ==> actionOk
    ensures actionOk ==> ClickAction(actionOk)
  {
    actionOk
  }

  /**
   * `_execute_mouse_move`, `_execute_scroll` and `_execute_volume_control`: a missing
   * analogue value fails; the test is `is None`, so a value of zero is accepted and the
   * action then succeeds exactly when the call does.
   */
  predicate AnalogueAction(analogue: Option<real>, actionOk: bool)
    ensures analogue.None? ==> !AnalogueAction(analogue, actionOk)
    ensures analogue.Some? ==> (AnalogueAction(analogue, actionOk) <==> actionOk)
  {
    analogue.Some? && actionOk
  }

  /**
   * `_execute_custom_command`: a missing or empty command fails; any other command is
   * only logged, so it succeeds whatever the desktop would do.
   */
  predicate CustomAction(def: Mapping)
    ensures !Truthy(def.command) ==> !CustomAction(def)
    ensures Truthy(def.command) ==> CustomAction(def)
  {
    Truthy(def.command)
  }

  /**
   * The dispatch on the mapping's type: whether the action succeeded, or nothing for a
   * type the executor does not know.
   */
  function Dispatch(def: Mapping, analogue: Option<real>, actionOk: bool): (r: Option<bool>)
    ensures r.None? <==>
              def.kind !in {Some(KEY_PRESS), Some(KEY_HOLD), Some(MOUSE_CLICK), Some(MOUSE_MOVE),
                            Some(SCROLL), Some(VOLUME), Some(CUSTOM)}
    ensures def.kind in {Some(KEY_PRESS), Some(KEY_HOLD)} && !Truthy(def.key) ==> r == Some(false)
    ensures def.kind in {Some(MOUSE_MOVE), Some(SCROLL), Some(VOLUME)} && analogue.None? ==> r == Some(false)
    ensures def.kind == Some(CUSTOM) ==> r == Some(Truthy(def.command))
    ensures r == Some(true) && def.kind != Some(CUSTOM) ==> actionOk
  {
    match def.kind
    case None => None
    case Some(kind) =>
      if kind == KEY_PRESS then Some(KeyAction(def, actionOk))
      else if kind == KEY_HOLD then Some(KeyAction(def, actionOk))
      else if kind == MOUSE_CLICK then Some(ClickAction(actionOk))
      else if kind == MOUSE_MOVE then Some(AnalogueAction(analogue, actionOk))
      else if kind == SCROLL then Some(AnalogueAction(analogue, actionOk))
      else if kind == VOLUME then Some(AnalogueAction(analogue, actionOk))
      else if kind == CUSTOM then Some(CustomAction(def))
      else None
  }

  // ---------------------------------------------------------------------------
  // The cooldown state machine
  // ---------------------------------------------------------------------------

  /** Less than `cooldown` seconds have passed since the gesture last fired. */
  predicate InCooldown(last: map<string, real>, cooldown: real, gesture: string, now: real) {
    gesture in last && now - last[gesture] < cooldown
  }

  /** The result of one call and the execution history after it. */
  datatype Outcome = Outcome(success: bool, lastExecution: map<string, real>)

  /**
   * `execute_command` as a function of the state: an unmapped gesture, a gesture in
   * cooldown and an unknown type fail; otherwise the action runs and, only if it
   * succeeds, the gesture's time is recorded.
   */
  function Execute(mappings: map<string, Mapping>, cooldown: real, last: map<string, real>,
                   gesture: string, analogue: Option<real>, now: real, actionOk: bool): (o: Outcome)
    ensures gesture !in mappings ==> o == Outcome(false, last)
    ensures InCooldown(last, cooldown, gesture, now) ==> o == Outcome(false, last)
    ensures o.success <==>
              gesture in mappings && !InCooldown(last, cooldown, gesture, now) &&
              Dispatch(mappings[gesture], analogue, actionOk) == Some(true)
    ensures o.success ==> o.lastExecution == last[gesture := now]
    ensures !o.success ==> o.lastExecution == last
    ensures forall h :: h != gesture ==>
              (h in o.lastExecution <==> h in last) && (h in last ==> o.lastExecution[h] == last[h])
  {
    if gesture !in mappings then Outcome(false, last)
    else if InCooldown(last, cooldown, gesture, now) then Outcome(false, last)
    else
      match Dispatch(mappings[gesture], analogue, actionOk)
      case None => Outcome(false, last)
      case Some(ok) => if ok then Outcome(true, last[gesture := now]) else Outcome(false, last)
  }

  /** Elapsed time exactly equal to the cooldown does not block: the comparison is strict. */
  lemma CooldownBoundaryIsOpen(mappings: map<string, Mapping>, cooldown: real, last: map<string, real>,
                               gesture: string, analogue: Option<real>, actionOk: bool)
    requires gesture in mappings && gesture in last
    requires Dispatch(mappings[gesture], analogue, actionOk) == Some(true)
    ensures Execute(mappings, cooldown, last, gesture, analogue, last[gesture] + cooldown, actionOk).success
  {
  }

  // ---------------------------------------------------------------------------
  // Runs of calls
  // ---------------------------------------------------------------------------

  /** One call of `execute_command` with its clock reading and action outcome. */
  datatype Call = Call(gesture: string, analogue: Option<real>, now: real, actionOk: bool)

  /** The execution history after `calls`, starting from an empty history. */
  function History(mappings: map<string, Mapping>, cooldown: real, calls: seq<Call>): map<string, real>
  {
    if calls == [] then map[]
    else
      var c := calls[|calls| - 1];
      Execute(mappings, cooldown, History(mappings, cooldown, calls[..|calls| - 1]),
              c.gesture, c.analogue, c.now, c.actionOk).lastExecution
  }

  /** Call `i` of the run succeeded. */
  predicate Succeeded(mappings: map<string, Mapping>, cooldown: real, calls: seq<Call>, i: nat)
    requires i < |calls|
  {
    var c := calls[i];
    Execute(mappings, cooldown, History(mappings, cooldown, calls[..i]),
            c.gesture, c.analogue, c.now, c.actionOk).success
  }

  /**
   * In a run of `execute_command` calls with fixed mappings and a non-negative cooldown,
   * the recorded time of a gesture never falls below the time of any earlier successful
   * call of it. An `update_mappings` in between clears the history and lifts this.
   */
  lemma {:induction false} HistoryCoversSuccesses(mappings: map<string, Mapping>, cooldown: real,
                                                  calls: seq<Call>, i: nat)
    requires 0.0 <= cooldown
    requires i < |calls| && Succeeded(mappings, cooldown, calls, i)
    ensures calls[i].gesture in History(mappings, cooldown, calls)
    ensures History(mappings, cooldown, calls)[calls[i].gesture] >= calls[i].now
  {
    var n := |calls| - 1;
    var prefix := calls[..n];
    var g := calls[i].gesture;
    if i == n {
      assert prefix == calls[..i];
    } else {
      assert prefix[..i] == calls[..i];
      HistoryCoversSuccesses(mappings, cooldown, prefix, i);
      var before := History(mappings, cooldown, prefix);
      var c := calls[n];
      var o := Execute(mappings, cooldown, before, c.gesture, c.analogue, c.now, c.actionOk);
      if o.success && c.gesture == g {
        assert !InCooldown(before, cooldown, g, c.now);
      }
    }
  }

  /**
   * The cooldown guarantee over a run of `execute_command` calls with fixed mappings and a
   * non-negative cooldown: two successful calls for the same gesture are at least
   * `cooldown` seconds apart, whatever other such calls come between. An
   * `update_mappings` in between clears the history and lifts this.
   */
  lemma CooldownSeparatesSuccesses(mappings: map<string, Mapping>, cooldown: real,
                                   calls: seq<Call>, i: nat, j: nat)
    requires 0.0 <= cooldown
    requires i < j < |calls| && calls[i].gesture == calls[j].gesture
    requires Succeeded(mappings, cooldown, calls, i) && Succeeded(mappings, cooldown, calls, j)
    ensures calls[j].now - calls[i].now >= cooldown
  {
    var prefix := calls[..j];
    assert prefix[..i] == calls[..i];
    HistoryCoversSuccesses(mappings, cooldown, prefix, i);
    assert !InCooldown(History(mappings, cooldown, prefix), cooldown, calls[j].gesture, calls[j].now);
  }

  // ---------------------------------------------------------------------------
  // The executor object
  // ---------------------------------------------------------------------------

  /** `CommandExecutor`: the mappings, the cooldown and the per-gesture time of last success. */
  class CommandExecutor {
    var mappings: map<string, Mapping>
    const cooldown: real
    var lastExecution: map<string, real>

    /** `__init__`: no gesture has fired yet. */
    constructor (mappings: map<string, Mapping>, cooldown: real := DEFAULT_COOLDOWN)
      ensures this.mappings == mappings && this.cooldown == cooldown
      ensures lastExecution == map[]
    {
      this.mappings := mappings;
      this.cooldown := cooldown;
      lastExecution := map[];
    }

    /** `execute_command`, proved to follow `Execute`; the mappings are not touched. */
    method ExecuteCommand(gesture: string, now: real, actionOk: bool, analogue: Option<real> := None)
      returns (success: bool)
      modifies this
      ensures mappings == old(mappings)
      ensures Outcome(success, lastExecution) ==
              Execute(old(mappings), cooldown, old(lastExecution), gesture, analogue, now, actionOk)
    {
      if gesture !in mappings {
        return false;
      }
      if gesture in lastExecution {
        var sinceLast := now - lastExecution[gesture];
        if sinceLast < cooldown {
          return false;
        }
      }
      var commandDef := mappings[gesture];
      var outcome := Dispatch(commandDef, analogue, actionOk);
      if outcome.None? {
        return false;
      }
      if outcome.value {
        lastExecution := lastExecution[gesture := now];
        return true;
      }
      return false;
    }

    /**
     * `update_mappings`: the new mappings replace the old ones and the history is
     * emptied, so no gesture is in cooldown afterwards.
     */
    method UpdateMappings(newMappings: map<string, Mapping>)
      modifies this
      ensures mappings == newMappings && lastExecution == map[]
      ensures forall g, now :: !InCooldown(lastExecution, cooldown, g, now)
    {
      mappings := newMappings;
      lastExecution := map[];
    }

    /** `get_command_info`: the gesture's mapping, or nothing for an unmapped gesture. */
    function GetCommandInfo(gesture: string): (r: Option<Mapping>)
      reads this
      ensures r.None? <==> gesture !in mappings
      ensures r.Some? ==> r.value == mappings[gesture]
    {
      if gesture in mappings then Some(mappings[gesture]) else None
    }

    /** `get_available_gestures`: every mapped gesture name exactly once. */
    method GetAvailableGestures() returns (names: seq<string>)
      ensures forall g :: g in names <==> g in mappings
      ensures forall i, j :: 0 <= i < j < |names| ==> names[i] != names[j]
      ensures |names| == |mappings.Keys|
    {
      names := [];
      var remaining := mappings.Keys;
      while remaining != {}
        invariant remaining <= mappings.Keys
        invariant forall g :: g in mappings ==> (g in names <==> g !in remaining)
        invariant forall g :: g in names ==> g in mappings
        invariant forall i, j :: 0 <= i < j < |names| ==> names[i] != names[j]
        invariant |names| + |remaining| == |mappings.Keys|
        decreases |remaining|
      {
        var g :| g in remaining;
        names := names + [g];
        remaining := remaining - {g};
      }
    }
  }
}
