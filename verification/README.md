# Gesture mapper core in Dafny

This project models the three sequential components of the gesture mapper: the
detector, the configuration manager and the command executor.

- **Gesture detector** (`GestureDetector`). It turns a hand pose into a canonical pose:
  - it centres the pose on the wrist;
  - it divides the pose by the wrist-to-middle-finger-base distance;
  - it rotates the wrist-to-index-tip vector.

  Each step has its own switch. The detector then reports the first configured gesture whose
  distance, angle and position conditions all hold.
- **Configuration manager** (`ConfigManager`). It validates gesture, condition and mapping
  records. It edits the configuration document in place:
  - append a gesture, checking for duplicate names;
  - replace the first gesture with a given name;
  - filter-remove a gesture together with its mapping;
  - upsert a mapping;
  - remove a mapping.
- **Command executor** (`CommandExecutor`). It maps a detected gesture to its desktop action,
  with a per-gesture cooldown over the time of the last successful execution.

Files:
- `wrappers.dfy`: `Option`, `Result` and the `KeyError` fault.
- `records.dfy`: the JSON-shaped records (landmark, condition, gesture, mapping, configuration
  document) and the type-name constants.
- `geometry.dfy`: the geometry kernel. The floating-point library (`sqrt`, `atan2`, `acos`,
  `cos`, `sin`) is a `MathLib` parameter. `Sound(m)` lists the only facts the proofs use:
  - `sqrt` is non-negative, strictly increasing and undoes squaring;
  - `acos` maps [-1, 1] into [0, pi].
- `gesture_detection.dfy`:
  - the normalisation pipeline as functions;
  - condition evaluation and first-match detection;
  - the `GestureDetector` class, whose loops are methods proved against those functions.
- `config_manager.dfy`:
  - the validators;
  - name lookup and filtering with their `KeyError` paths;
  - the `ConfigManager` class.
- `command_executor.dfy`:
  - the dispatch on the command type and the cooldown state machine `Execute`;
  - the `CommandExecutor` class;
  - a theorem over whole runs of calls.
- `pipeline.dfy`: facts that connect the components.

Python exceptions are modelled as follows:
- A missing `name` key raises a `KeyError`.
- In the configuration manager the error is caught, so the operation returns false and changes
  nothing.
- In `detect_gesture` it is not caught, so `Detect` returns `Failure(KeyError("name"))`.
- Writing the file is an input `saved`. The in-memory change is made before the write and stays
  made when the write fails, as in the code.
- The clock reading `now` is an input, and so is `actionOk`, whether the automation call raised
  nothing.

## Model

| member | source | states |
|---|---|---|
| Geometry.EuclideanDistance | src/gesture_detection.py:196-201 | the 3-D distance is non-negative and 0 between identical landmarks |
| Geometry.Clamp | src/gesture_detection.py:229 | the cosine is forced into [-1, 1] and left alone when already inside |
| Geometry.AngleAtVertex | src/gesture_detection.py:209-232 | the angle at the middle point lies in [0, 180] degrees and is 0 when either arm has zero length in x/y |
| Geometry.RotationByMinusBearingIsHorizontal | src/gesture_detection.py:88-94 | rotating a vector of length r at bearing theta by minus theta lands it at (r, 0), on the positive x axis |
| Geometry.Rotated | src/gesture_detection.py:234-251 | rotation keeps the number of points, copies every z unchanged and keeps a point at the x/y origin there |
| GestureDetection.Translated | src/gesture_detection.py:56-63 | subtracting a landmark from every point keeps the length and sends that landmark to the origin |
| GestureDetection.Divided | src/gesture_detection.py:75-82 | dividing every coordinate keeps the length and the origin |
| GestureDetection.CentreOnWrist | src/gesture_detection.py:53-63 | after centring, landmark 0 is (0,0,0) and every z is shifted by the wrist's z |
| GestureDetection.HandSize | src/gesture_detection.py:67-72 | the scale reference is never negative, and is 0 when the wrist and the middle-finger base coincide |
| GestureDetection.ScaleByHandSize | src/gesture_detection.py:65-82 | with a positive hand size, every coordinate times that size gives back the input; a hand size that is not positive, or a pose with no landmark 9, leaves the pose unchanged, in particular when the wrist and landmark 9 coincide; the origin stays at the origin |
| GestureDetection.AlignIndexFinger | src/gesture_detection.py:84-94 | the rotation step keeps the length, every z and a wrist at the origin |
| GestureDetection.CentringKeepsBearing | src/gesture_detection.py:203-207 | the bearing between any two landmarks is the same before and after centring, so centring does not change the angle the rotation step undoes |
| GestureDetection.Normalize | src/gesture_detection.py:38-96 | the length is preserved; a pose under 21 landmarks is returned unchanged; with all flags off or missing the pose is unchanged; with centring on, landmark 0 ends at (0,0,0) whatever else is on; without scaling, z comes out as the centred input z, untouched by rotation |
| GestureDetection.CentringIsIdempotent | src/gesture_detection.py:54-63 | centring an already centred pose is a no-op |
| GestureDetection.CentredNormalizeIsIdempotent | src/gesture_detection.py:48-96 | with only displacement invariance on, normalising twice equals normalising once |
| GestureDetection.CheckDistanceCondition | src/gesture_detection.py:140-155 | true only with exactly two in-range points; with them, true exactly when their distance lies within the inclusive bounds that are present; a negative max never holds; for two equal indices the result is exactly whether 0 lies within the bounds |
| GestureDetection.CheckAngleCondition | src/gesture_detection.py:157-176 | true only with exactly three in-range points; with them, true exactly when the angle at the middle one lies within the inclusive bounds that are present; a min above 180 or a max below 0 never holds |
| GestureDetection.CheckPositionCondition | src/gesture_detection.py:178-194 | true exactly when the point (default 0) is in range and its x and y lie within the bounds that are present, inclusive |
| GestureDetection.EvaluateCondition | src/gesture_detection.py:127-138 | fails closed: true only for a known type, with the right number of points and every referenced index below the pose length |
| GestureDetection.FirstMatch | src/gesture_detection.py:111-115 | finds the first gesture whose conditions hold, none earlier holding; finds nothing exactly when no gesture holds |
| GestureDetection.Detect | src/gesture_detection.py:98-115 | nothing for under 21 landmarks; nothing exactly when the pose is short or no gesture holds; otherwise the name of the first gesture that holds, or a KeyError when that gesture has no name |
| GestureDetection.EarlierGestureWins | src/gesture_detection.py:111-113 | when every gesture is named and the later one's name occurs nowhere else, and two gestures both hold, the later one's name is not reported (with duplicate names the same name can come from the earlier gesture) |
| GestureDetection.PinchIsDetected | test_gesture_mapper.py:114-160 | the test's pinch pose, normalised with centring and scaling, keeps 21 landmarks and is detected as "test_pinch" |
| GestureDetection.GestureDetector.constructor | src/gesture_detection.py:14-19 | the detector starts with the given document, its transformations and its gestures |
| GestureDetection.GestureDetector.UpdateConfig | src/gesture_detection.py:28-36 | the document, its switches and its gesture list are all replaced |
| GestureDetection.GestureDetector.NormalizeKeypoints | src/gesture_detection.py:38-96 | computes `Normalize` under the detector's current switches |
| GestureDetection.GestureDetector.RotatePoints | src/gesture_detection.py:234-251 | the point-by-point loop computes `Rotated` |
| GestureDetection.GestureDetector.CheckGestureConditions | src/gesture_detection.py:117-125 | the early-return loop is true exactly when every condition holds (vacuously for none) |
| GestureDetection.GestureDetector.DetectGesture | src/gesture_detection.py:98-115 | the scan over the gesture list computes `Detect` |
| GestureDetection.GestureDetector.GetAnalogueValue | src/gesture_detection.py:253-267 | no analogue value is produced for any pose or gesture |
| ConfigManagement.DefaultConfig | src/config_manager.py:37-50 | displacement and scale on, rotation present and off, no gestures, no mappings |
| ConfigManagement.ValidDistanceCondition | src/config_manager.py:300-315 | rejected without a points list, with a list of other than two points, or with neither min nor max; accepted with two points and either bound |
| ConfigManagement.ValidAngleCondition | src/config_manager.py:317-332 | rejected without a points list, with a list of other than three points, or with neither min nor max; accepted with three points and either bound |
| ConfigManagement.ValidPositionCondition | src/config_manager.py:334-345 | rejected without a point or without any of the four coordinate bounds; accepted with a point and any one of them |
| ConfigManagement.ValidCondition | src/config_manager.py:279-298 | a valid condition has a known type; a distance or angle condition has a min or a max; a position condition has a coordinate bound |
| ConfigManagement.ValidMapping | src/config_manager.py:347-364 | an unknown or missing type is invalid; a key press or hold is valid exactly when it has a key, a mouse move, scroll or volume mapping exactly when it has a sensitivity, a custom mapping exactly when it has a command; a mouse click is always valid |
| ConfigManagement.NamesOf | src/config_manager.py:149 | the name list exists exactly when every gesture has a name, and then lists them in order |
| ConfigManagement.FindByName | src/config_manager.py:178-185 | the first position with the name, all earlier gestures named differently; nothing exactly when all are named differently; a KeyError when a nameless gesture comes first |
| ConfigManagement.AllNamedAt | src/config_manager.py:203 | the named-gestures condition under which the filter succeeds holds exactly when no position holds a nameless gesture |
| ConfigManagement.Without | src/config_manager.py:202-203 | fails, with a KeyError on `name`, exactly when some gesture is nameless; otherwise the list never grows |
| ConfigManagement.WithoutMembers | src/config_manager.py:202-203 | a gesture is kept exactly when it occurs in the list and is not called the name |
| ConfigManagement.WithoutNoMatch | src/config_manager.py:202-203 | when no gesture is called the name, the list comes back unchanged |
| ConfigManagement.WithoutCounts | src/config_manager.py:202-203 | a gesture not called the name is kept as many times as it occurs; no gesture called the name is kept |
| ConfigManagement.WithoutAppend | src/config_manager.py:202-203 | filtering a concatenation is the concatenation of the filtered parts, so the kept gestures stay in their order |
| ConfigManagement.AppendKeepsNamesUnique | src/config_manager.py:148-154 | appending after the duplicate check keeps names unique |
| ConfigManagement.WithoutKeepsNamesUnique | src/config_manager.py:202-203 | filtering keeps names unique |
| ConfigManagement.ReplaceKeepsNamesUnique | src/config_manager.py:178-181 | replacing a gesture by one of the same name keeps names unique |
| ConfigManagement.ReplaceCanDuplicateNames | src/config_manager.py:174-181 | a valid replacement with another gesture's name duplicates that name |
| ConfigManagement.ConfigManager.constructor | src/config_manager.py:19-35 | the manager holds the loaded document, or the default one |
| ConfigManagement.ConfigManager.LoadConfig | src/config_manager.py:52-81 | a parsed file becomes the document; a missing or unreadable file gives the default; only the unreadable file reports failure |
| ConfigManagement.ConfigManager.UpdateTransformations | src/config_manager.py:115-130 | only the switches are replaced; the result is the save outcome |
| ConfigManagement.ConfigManager.ValidateGesture | src/config_manager.py:259-277 | accepts exactly a named gesture with a non-empty list of valid conditions |
| ConfigManagement.ConfigManager.AddGesture | src/config_manager.py:132-159 | an invalid gesture, a nameless existing gesture or a taken name leaves everything unchanged and fails; otherwise the gesture is appended and nothing else changes |
| ConfigManagement.ConfigManager.UpdateGesture | src/config_manager.py:161-189 | a valid gesture replaces the first gesture with the name, in place; an invalid gesture, a missing name or a nameless gesture met first changes nothing and fails |
| ConfigManagement.ConfigManager.RemoveGesture | src/config_manager.py:191-213 | the gestures become the filtered list and the name's mapping goes, other mappings untouched; when every gesture is named, each gesture not called the name keeps its count and none called the name remains; a nameless gesture makes it fail with no change |
| ConfigManagement.ConfigManager.AddMapping | src/config_manager.py:215-237 | a valid mapping is stored under the name, inserting or overwriting, other keys untouched; an invalid one fails with no change |
| ConfigManagement.ConfigManager.RemoveMapping | src/config_manager.py:239-257 | a present mapping is deleted and the save outcome returned; an absent one returns true with no change |
| CommandExecution.KeyAction | src/command_executor.py:98-128 | a key press or hold with a missing or empty key fails whatever the desktop would do; with a key it succeeds exactly when the automation call raises nothing |
| CommandExecution.ClickAction | src/command_executor.py:130-140 | a click needs no field of the mapping and succeeds exactly when the automation call raises nothing |
| CommandExecution.AnalogueAction | src/command_executor.py:142-205 | a mouse move, scroll or volume action without an analogue value fails; with any value, zero included, it succeeds exactly when the automation call raises nothing |
| CommandExecution.CustomAction | src/command_executor.py:207-221 | a custom command fails exactly when its command is missing or empty, and never depends on the desktop |
| CommandExecution.Dispatch | src/command_executor.py:62-84 | unknown type gives nothing; a key action without a non-empty key, or an analogue action without a value, fails; a custom command succeeds exactly when it names a non-empty command; any other success needs the action to succeed |
| CommandExecution.Execute | src/command_executor.py:37-96 | an unmapped gesture or one in cooldown fails with the history unchanged; success exactly when mapped, out of cooldown and dispatched successfully; success records now for that gesture; failure records nothing; other gestures' entries never change |
| CommandExecution.CooldownBoundaryIsOpen | src/command_executor.py:55-57 | elapsed time exactly equal to the cooldown does not block |
| CommandExecution.HistoryCoversSuccesses | src/command_executor.py:86-87 | in a run of `execute_command` calls with fixed mappings and a non-negative cooldown, a gesture's recorded time is at least the time of each of its earlier successes; an `update_mappings` in between clears the history and lifts this |
| CommandExecution.CooldownSeparatesSuccesses | src/command_executor.py:53-59 | in a run of `execute_command` calls with fixed mappings and a non-negative cooldown, two successes of the same gesture are at least the cooldown apart; an `update_mappings` in between clears the history and lifts this |
| CommandExecution.CommandExecutor.constructor | src/command_executor.py:19-35 | the executor holds the mappings and the cooldown (default 0.5) with an empty history |
| CommandExecution.CommandExecutor.ExecuteCommand | src/command_executor.py:37-96 | the method computes `Execute` and leaves the mappings unchanged |
| CommandExecution.CommandExecutor.UpdateMappings | src/command_executor.py:233-237 | the mappings are replaced and the history emptied, so no gesture is in cooldown |
| CommandExecution.CommandExecutor.GetCommandInfo | src/command_executor.py:227-231 | nothing exactly for an unmapped gesture, otherwise its mapping |
| CommandExecution.CommandExecutor.GetAvailableGestures | src/command_executor.py:223-225 | every mapped gesture name exactly once |
| Pipeline.ValidMappingIsDispatched | src/config_manager.py:347-364 | every mapping the validator admits has a type the executor dispatches |
| Pipeline.ValidGestureIsNotVacuous | src/config_manager.py:268-271 | a validated gesture has at least one condition, each of a type the detector evaluates |
| Pipeline.DefaultConfigDetectsNothing | src/config_manager.py:42-50 | the default document detects nothing for any pose |
| Pipeline.DetectedNameIsUnique | src/gesture_detection.py:111-113 | with unique names, the detected name belongs to the first match and to no other gesture |
| Pipeline.AnalogueCommandsNeverFire | src/gesture_detection.py:253-267 | a gesture mapped to mouse movement, scroll or volume never fires with the detector's analogue value |
| Pipeline.EmptyKeyAdmittedButNeverFires | src/command_executor.py:100-103 | a key-press mapping with an empty key is admitted by the validator and never fires |

## Left out

- Camera capture, the GUI, the video thread and the main loop are not part of this model. They are
  hardware I/O, widgets and threads.
- File and JSON I/O. `load_config` receives what reading produced (a `LoadSource`) and every
  save is the `saved` input. The file path and the directory creation are not modelled.
- `pyautogui`, `time.time()` and `time.sleep`. Time is an input. Each action's success is an
  input. The mouse target, the button, the click count, the scroll direction and the hold
  duration only shape the side effect, so they are not modelled.
- The truncation of the scroll and volume amounts to `int` is not modelled; it only affects the
  side effect.
- Floating point. Coordinates are `real`, and the library functions are abstract. Scale
  invariance, rotation invariance (the wrist-to-index-tip vector ending on the positive x
  axis, bearing 0) and exact angle values are therefore not proved for the detector, and
  neither is a scenario that depends on a particular angle. `Geometry.RotationByMinusBearingIsHorizontal`
  proves the alignment for one point, given the cosine and sine of its bearing.
- The comment at src/gesture_detection.py:84 says the rotation makes the wrist-to-index vector
  vertical. The code at src/gesture_detection.py:88-94 rotates by minus its bearing, which
  makes it horizontal. The model follows the code.
- Logging is not modelled. The `logger` calls, the `print` in the detector's `update_config`
  (src/gesture_detection.py:36) and the demonstration prints of src/command_executor.py:263-283
  produce no modelled output. CommandExecution.CustomAction captures only the flag that
  `_execute_custom_command` returns, not the command it logs.
- JSON values of unexpected shape are not modelled: a non-list `points`, a non-numeric bound, a
  non-string name. Nor are Python's negative indices, which would wrap around. Indices are
  natural numbers.
- GestureDetection.GestureDetector.GetAnalogueValue: `get_analogue_value` is marked as a future
  enhancement (src/gesture_detection.py:256). Its body is a placeholder comment
  (src/gesture_detection.py:265-266) followed by `return None` (src/gesture_detection.py:267).
  The model returns nothing for every pose and gesture, as the code does.
- ConfigManagement.ConfigManager.LoadConfig: aliasing is not modelled, and records here are
  values. In Python, `add_gesture` appends the caller's dictionary without a copy.
  Each fallback to the default document is `self.default_config.copy()`
  (src/config_manager.py:68,75,80). That is a shallow copy, so its gesture list and mapping
  dictionary are the ones held by `default_config`, which is built once (src/config_manager.py:29).
  On such a document, `add_gesture` (src/config_manager.py:154), `update_gesture`
  (src/config_manager.py:181), `add_mapping` (src/config_manager.py:232) and the mapping
  deletions in `remove_gesture` and `remove_mapping` (src/config_manager.py:207,251) edit that
  shared default in place. A later fallback then brings back those edits rather than a blank
  document, for example when the file has gone missing by the next `load_config` from
  `_reload_config` (src/main.py:239). The model's `config == DefaultConfig()` after a fallback states the blank document
  the code evidently intends, not what such a sequence of calls yields in Python.
- The getters of `ConfigManager` (`get_config`, `get_transformations`, `get_gestures`,
  `get_mappings`) return copies in Python. They are plain reads here and carry no contract.
- CommandExecution.CommandExecutor.GetAvailableGestures: Python lists the keys in insertion order;
  the model promises only each key exactly once.
- CommandExecution.CooldownSeparatesSuccesses and CommandExecution.HistoryCoversSuccesses cover
  runs of `execute_command` calls only, with fixed mappings and a non-negative cooldown. A reload
  calls `update_mappings` (src/main.py:244), which clears the history
  (src/command_executor.py:236), so two successes on either side of it can be closer than the
  cooldown. Python accepts a negative cooldown (src/command_executor.py:19), under which the
  history can move backwards.
- Swapping the detector during reload is a concurrency matter and is not modelled.
