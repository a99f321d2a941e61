# openmfd / pymfcad, modelled in Dafny

This project models the sequential logic of the openmfd microfluidic design tool (and
its `pymfcad` successor) and proves properties of it. It covers the following pieces:

- **The browser viewer's state machines.** These are the camera-slot bookkeeping and
  the directional-light list of both viewer generations. The small numeric helpers
  come with them: angle wrap, pitch and field-of-view clamps, the shortest-arc hue
  step, the numeric-input gate and light-state normalisation. The model-list change
  detection of the older viewer belongs here too.
- **The preview servers.** This is how a GLB file name becomes a display name, type
  and version, and which preview folder is used. It also covers request routing and
  the path checks.
- **The colour value type and the colour utilities.** These are channel clamping, hex
  and name lookup, the CSV-like colour list, and the grid, paging, label-wrapping and
  gray-first ordering of the colour sheet.
- **The slicer's bookkeeping.** This covers polygon orientation, component
  de-duplication and the slice schedule.
- **The binary-image passes over slices.** These are the position, exposure, membrane
  and edge/roof passes of the current slicer and of the legacy `pymfd` slicer, with
  its range-string parser and its print-file driver.
- **Two utilities.** The golden-output comparison of the test suite, and the glyph
  contour splitting of the FreeType preview.

Images are sets of lit (255) pixels. AND, OR and NOT of 0/255 masks become intersection,
union and complement within the image frame. Erosion, dilation and opening are
operators that only have to be sound: erosion and opening give a subset of their
input, and dilation a superset. Floating-point values are exact reals. The
filesystem, the network, the DOM, three.js and local storage are given as values:
sets of paths, maps, records and parameters.

Each piece is its own module:

| file | module | models |
|---|---|---|
| pymfcad_lights.dfy | PymfcadLights | src/pymfcad/site/visualizer/static/js/lights.js |
| pymfcad_camera.dfy | PymfcadCamera | src/pymfcad/site/visualizer/static/js/camera.js |
| openmfd_camera.dfy | OpenmfdCamera | src/openmfd/visualizer/static/js/camera.js |
| openmfd_lights.dfy | OpenmfdLights | src/openmfd/visualizer/static/js/lights.js |
| openmfd_models.dfy | OpenmfdModels | src/openmfd/visualizer/static/js/models.js |
| pymfcad_server.dfy | PymfcadServer | src/pymfcad/run_visualizer.py |
| openmfd_server.dfy | OpenmfdServer | src/openmfd/run_visualizer.py |
| glb_files.dfy | GlbFiles | the GLB kinds both servers share |
| color.dfy | Colors | src/openmfd/backend/color.py |
| color_visualizer.dfy | ColorVisualizer | utilities/color_visualizer.py |
| slice.dfy | Slicing | src/openmfd/backend/slice.py |
| image_generation.dfy | ImageGeneration | src/openmfd/slicer/image_generation.py (position and exposure passes) |
| image_membranes.dfy | MembraneGeneration | src/openmfd/slicer/image_generation.py (membrane pass) |
| image_secondary.dfy | SecondaryGeneration | src/openmfd/slicer/image_generation.py (edge/roof pass) |
| legacy_common.dfy | LegacyCommon | `expand_string_range`, layer numbers and the progress protocol of the legacy passes |
| legacy_secondary.dfy | LegacySecondary | pymfd/slicer/secondary_image_generation.py |
| legacy_membrane.dfy | LegacyMembrane | pymfd/slicer/membrane_image_generation.py |
| old_main.dfy | OldMain | pymfd/slicer/old_main.py |
| golden_compare.dfy | GoldenCompare | tests/utils/golden_compare.py |
| preview_freetype.dfy | PreviewFreetype | utilities/preview_freetype.py |
| wrappers.dfy, numbers.dfy, text.dfy, sorting.dfy, paths.dfy, js_array.dfy, pixel_sets.dfy | shared | Option/Result, JavaScript numbers, Python and JavaScript string operations, `sorted`, `pathlib` names, JavaScript array writes and splices, pixel sets and the morphology operators |

Some branches of the source behave differently from what their comments suggest. The
model follows the code as written in each case:

- The membrane pass of `src/openmfd/slicer/image_generation.py` skips only slice 0. The
  guard at line 142 never holds, so the last slice is processed too, and the slice above
  it counts as empty.
- In that pass, a window slice without packed `image_data` is never used (lines
  169-176). A missing file is read and fails, and an existing file falls into the final
  `continue`.
- The thickness search accepts a slice below the tolerance, but skips only above it (lines
  152 and 154). A distance off by exactly 0.01 µm on the last earlier slice is therefore
  still used.
- In the edge/roof pass, `membranes` is never `None` (line 374), so the roof always
  leaves out the membranes.
- `do_HEAD` of `src/openmfd/run_visualizer.py` answers 404 for a non-GLB path, then still
  runs the base handler.

## Model

| member | source | states |
|---|---|---|
| PymfcadLights.NewLight | src/pymfcad/site/visualizer/static/js/lights.js:73-111 | the created light is a spot light exactly for type 'spot'; colour defaults to white and intensity to 1.0; the position is the given one, else the model centre (or the origin) plus (10, 10, 10); the target is the given one, else the model centre (or the origin); the range is the finite distance, else the finite range, else 30 |
| PymfcadLights.DirList | src/pymfcad/site/visualizer/static/js/lights.js:1011 | a missing or non-array `directional` counts as an empty list |
| PymfcadLights.EntryOptions | src/pymfcad/site/visualizer/static/js/lights.js:1017-1036 | every rebuilt entry passes an intensity, a position and a target position |
| PymfcadLights.Rebuilt | src/pymfcad/site/visualizer/static/js/lights.js:1016-1038 | the rebuilt lights are one per entry, in order, each the light `addDirectionalLight` makes from that entry's options |
| PymfcadLights.LightSystem.constructor | src/pymfcad/site/visualizer/static/js/lights.js:4-28 | the system starts with no lights, active index 0, white ambient light at intensity 1.0, structure editing allowed and the default light not yet added |
| PymfcadLights.LightSystem.AddDirectionalLight | src/pymfcad/site/visualizer/static/js/lights.js:112-117 | exactly one light and its helper are appended, so the two lists stay parallel, and the new light becomes active at index length−1; nothing else changes |
| PymfcadLights.LightSystem.RemoveDirectionalLight | src/pymfcad/site/visualizer/static/js/lights.js:120-141 | the same index is spliced from both lists; the active index becomes 0 when the list is empty, length−1 when it was past the end, and is otherwise kept |
| PymfcadLights.LightSystem.ClearDirectionalLights | src/pymfcad/site/visualizer/static/js/lights.js:143-150 | both lists end empty and the active index is 0 |
| PymfcadLights.LightSystem.ClickAdd | src/pymfcad/site/visualizer/static/js/lights.js:1116-1124 | the Add button changes nothing while structure editing is disabled, and otherwise adds one default light |
| PymfcadLights.LightSystem.ClickRemove | src/pymfcad/site/visualizer/static/js/lights.js:1127-1135 | the Remove button changes nothing while structure editing is disabled or at most one light exists, and otherwise removes the active light |
| PymfcadLights.LightSystem.ApplyLightState | src/pymfcad/site/visualizer/static/js/lights.js:1000-1041 | a non-object changes nothing; a truthy ambient colour and a finite ambient intensity are applied, the intensity clamped to at least 0; the lights are rebuilt one per entry, or as the single intensity-1.5 light for an empty or missing list; the last light added is active |
| PymfcadLights.LightSystem.ApplyAmbient | src/pymfcad/site/visualizer/static/js/lights.js:1002-1009 | a truthy ambient colour is applied and a finite ambient intensity is applied clamped to at least 0; anything missing keeps the old value, and the lights are untouched |
| PymfcadLights.LightSystem.ResetLights | src/pymfcad/site/visualizer/static/js/lights.js:1043-1050 | afterwards the ambient light is white at 1.0 and exactly one light, the default one, exists and is active |
| PymfcadLights.BodyValue | src/pymfcad/site/visualizer/static/js/lights.js:236-239 | the number a plain decimal denotes is never negative before its sign is applied |
| PymfcadLights.EvaluateNumericInput | src/pymfcad/site/visualizer/static/js/lights.js:234-253 | text blank after JavaScript `trim()` gives NaN; trimmed text matching `^[+-]?\d*\.?\d+$` gives its number when that is below the double overflow threshold 2^1024 − 2^970 in magnitude and NaN otherwise; any other text is substituted (`value`/`v`/`x`/`pos`, then `pi`, then `e`) and gives NaN when the substituted expression holds a character outside digits, `+ - * / ( ) .` and JavaScript white space (`\s`), else the evaluator's result when finite and NaN when it is not finite or throws |
| PymfcadLights.ReplaceWordsNoLetters | src/pymfcad/site/visualizer/static/js/lights.js:241-244 | a `\b(...)\b` replacement whose words all contain a letter leaves text without letters unchanged |
| PymfcadLights.ReplaceRun | src/pymfcad/site/visualizer/static/js/lights.js:241-244 | a whole run of word characters is replaced by the replacement text when it equals one of the words up to ASCII case and is kept otherwise |
| PymfcadLights.ReplaceAfterNonWord | src/pymfcad/site/visualizer/static/js/lights.js:241-244 | a character outside `\w` is kept and replacing continues after it |
| PymfcadLights.ReplaceBinary | src/pymfcad/site/visualizer/static/js/lights.js:241-244 | in `a op b` the two words are replaced independently and the operator is kept |
| PymfcadLights.NoLettersSubstituted | src/pymfcad/site/visualizer/static/js/lights.js:241-244 | the three substitutions leave text without letters unchanged |
| PymfcadLights.TwoPi | src/pymfcad/site/visualizer/static/js/lights.js:234-253 | "2*PI" is substituted case-insensitively to "2*3.141592653589793" and gives what the evaluator makes of that, whatever the fallback |
| PymfcadLights.UnknownWordRefused | src/pymfcad/site/visualizer/static/js/lights.js:234-253 | "2*q" survives the substitutions unchanged, fails the character whitelist and gives NaN |
| PymfcadLights.ByteOrderMarkTrimmed | src/pymfcad/site/visualizer/static/js/lights.js:235-239 | a leading byte order mark is white space to `trim()`, so "\u{feff}1" reads as 1 |
| PymfcadLights.InformationSeparatorKept | src/pymfcad/site/visualizer/static/js/lights.js:235-250 | an information separator (U+001C) is not white space to JavaScript, so "1\u{1c}" is refused with NaN |
| Text.TrimStart | src/pymfcad/site/visualizer/static/js/lights.js:235 | the result is a suffix of the input that does not start with JavaScript white space, and every character removed is JavaScript white space |
| Text.TrimEnd | src/pymfcad/site/visualizer/static/js/lights.js:235 | the result is a prefix of the input that does not end with JavaScript white space, and every character removed is JavaScript white space |
| PymfcadLights.NormalizeAngleDeg | src/pymfcad/site/visualizer/static/js/lights.js:256-260 | the result lies in [0, 360), and non-finite input gives 0 |
| PymfcadLights.NormalizeAngleShift | src/pymfcad/site/visualizer/static/js/lights.js:256-260 | the wrapped angle differs from the input by a whole number of turns |
| PymfcadLights.NormalizeAngleIdentity | src/pymfcad/site/visualizer/static/js/lights.js:256-260 | angles already in [0, 360) are unchanged, so wrapping is idempotent |
| PymfcadLights.ClampPitchDeg | src/pymfcad/site/visualizer/static/js/lights.js:255-265 | the result lies in [−89.9999, 89.9999], equals the input inside that range and the nearer bound outside it, and non-finite input gives 0 |
| PymfcadLights.HueDeltaShortArc | src/pymfcad/site/visualizer/static/js/lights.js:752-755 | for hues in [0, 1] the step is at most half a turn and congruent to b − a modulo one turn |
| PymfcadLights.LerpHueBounds | src/pymfcad/site/visualizer/static/js/lights.js:752-760 | for a, b, t in [0, 1] the result lies in [0, 1], is a at t = 0, and at t = 1 is b or the same hue at the other end of [0, 1] |
| PymfcadLights.NormalizeEntry | src/pymfcad/site/visualizer/static/js/lights.js:737-748 | a missing or empty type becomes 'directional', a missing or empty colour '#ffffff' and a non-finite intensity 1.0; positions are kept; distance, range, angle, penumbra and decay are kept exactly when finite |
| PymfcadLights.FiniteOrNone | src/pymfcad/site/visualizer/static/js/lights.js:743-747 | a number is kept exactly when it is finite |
| PymfcadLights.NormalizeLightState | src/pymfcad/site/visualizer/static/js/lights.js:724-750 | a non-object gives the fallback (white, 1.0, no entries); otherwise the ambient colour is the given truthy one or '#ffffff', the ambient intensity the given finite one or 1.0, and each entry is normalised in order |
| PymfcadLights.NormalizeIdempotent | src/pymfcad/site/visualizer/static/js/lights.js:724-750 | normalising a normalised state changes nothing |
| PymfcadCamera.Load | src/pymfcad/site/visualizer/static/js/camera.js:359-383 | a missing, unparsable or non-array entry loads nothing; otherwise the cameras are taken, a positive integer slot count is kept and anything else gives the list length, an integer active index is clamped into [0, max(count−1, 0)] (kept when in range, 0 when negative, max(count−1, 0) when past the end), another active index leaves the old one, and the result reports whether the list is non-empty |
| PymfcadCamera.Save | src/pymfcad/site/visualizer/static/js/camera.js:348-357 | the stored entry parses back to the same camera list |
| PymfcadCamera.SaveLoadRoundTrip | src/pymfcad/site/visualizer/static/js/camera.js:348-383 | saving and loading back restores every slot, the slot count and an in-range active index |
| PymfcadCamera.ClampFov | src/pymfcad/site/visualizer/static/js/camera.js:305-308 | non-finite input gives the default field of view; finite input is clamped into [5, 120] and kept inside it |
| PymfcadCamera.SavedFov | src/pymfcad/site/visualizer/static/js/camera.js:581-582 | a saved field of view, or the default one when none is saved, is clamped into [5, 120], so even an out-of-range default is clamped; an in-range saved (or default) value is kept |
| PymfcadCamera.IsDirty | src/pymfcad/site/visualizer/static/js/camera.js:400-402 | with no saved state the view is never dirty |
| PymfcadCamera.NotDirtyAfterCommit | src/pymfcad/site/visualizer/static/js/camera.js:392-420 | a state just captured from the view is not dirty against that view |
| PymfcadCamera.DirtyWhenMoved | src/pymfcad/site/visualizer/static/js/camera.js:400-420 | moving any coordinate of the position or target, the roll (unset counts as 0) or the field of view (unset or 0 counts as the camera's) by more than 1e-4, or a different defaulted control type or mode, makes the view dirty |
| PymfcadCamera.CleanWhenClose | src/pymfcad/site/visualizer/static/js/camera.js:400-420 | conversely, when all eight numbers are within 1e-4 and the defaulted control type and mode agree, the view is not dirty |
| PymfcadCamera.CameraSystem.constructor | src/pymfcad/site/visualizer/static/js/camera.js:20-52 | the system starts with no slots, active index 0, the default slot count 0, outside home mode, not dirty, in perspective mode with orbit controls |
| PymfcadCamera.CameraSystem.CurrentState | src/pymfcad/site/visualizer/static/js/camera.js:334-346 | the captured state holds the view's position, target and field of view, the roll only when roll is allowed, and the control type and mode |
| PymfcadCamera.CameraSystem.SaveCameraStates | src/pymfcad/site/visualizer/static/js/camera.js:348-357 | storage holds the slots, the count and the active index, and nothing else changes |
| PymfcadCamera.CameraSystem.LoadCameraStates | src/pymfcad/site/visualizer/static/js/camera.js:359-383 | installs exactly what `Load` finds and reports whether any camera was saved; when nothing loads, nothing changes |
| PymfcadCamera.CameraSystem.InitCameraStates | src/pymfcad/site/visualizer/static/js/camera.js:692-705 | home mode is always entered; without saved cameras there are zero slots, an empty list and active index 0 |
| PymfcadCamera.CameraSystem.CommitActiveCameraState | src/pymfcad/site/visualizer/static/js/camera.js:392-398 | nothing changes for an empty active slot; otherwise the slot takes the current view and dirty clears |
| PymfcadCamera.CameraSystem.UpdateActiveCameraStateFromControls | src/pymfcad/site/visualizer/static/js/camera.js:385-390 | nothing changes in home mode or on an empty slot; otherwise only the dirty flag is recomputed |
| PymfcadCamera.CameraSystem.SetCameraMode | src/pymfcad/site/visualizer/static/js/camera.js:707-738 | an unchanged mode changes nothing; otherwise the new mode is set, and switching to perspective restores the slot's or the default field of view, clamped into [5, 120] |
| PymfcadCamera.CameraSystem.ApplyCameraState | src/pymfcad/site/visualizer/static/js/camera.js:566-594 | nothing changes for an empty slot; otherwise the slot's control type and mode are adopted, home mode ends, the view takes the saved pose and, in perspective mode, the saved or default field of view clamped into [5, 120]; dirty clears and the slots are saved |
| PymfcadCamera.CameraSystem.EnsureCameraState | src/pymfcad/site/visualizer/static/js/camera.js:560-564 | an empty slot gets the current view, a filled slot is kept, and afterwards the slot is filled |
| PymfcadCamera.CameraSystem.AddCameraSlot | src/pymfcad/site/visualizer/static/js/camera.js:898-917 | the current view is stored at index = old slot count, the count grows by one, that slot becomes active, home mode ends, dirty clears and the slots are saved |
| PymfcadCamera.CameraSystem.RemoveActiveCameraSlot | src/pymfcad/site/visualizer/static/js/camera.js:919-932 | nothing changes with at most one slot; otherwise the active entry is spliced out, the count drops by one, the active index is clamped to count−1, the list keeps the spliced entries and is padded with empty entries up to the new active slot, which is filled; the view shows that slot's position and target, home mode ends, dirty clears and the slots are saved |
| PymfcadCamera.CameraSystem.RemoveEnabled | src/pymfcad/site/visualizer/static/js/camera.js:675-680 | the Remove button is enabled iff the viewer is outside home mode, the active slot is filled and there is more than one slot |
| PymfcadCamera.CameraSystem.ToggleMode | src/pymfcad/site/visualizer/static/js/camera.js:1005-1015 | the mode switches between orthographic and perspective from the slot's mode or the current one, and a filled active slot records the new mode |
| PymfcadCamera.Toggled | src/pymfcad/site/visualizer/static/js/camera.js:1007 | the next mode is always orthographic or perspective, and is perspective exactly when the current one is orthographic |
| PymfcadCamera.ToggleTwice | src/pymfcad/site/visualizer/static/js/camera.js:1007 | toggling twice from a known mode returns to it |
| OpenmfdCamera.Load | src/openmfd/visualizer/static/js/camera.js:225-241 | a missing, unparsable or non-array entry loads nothing; otherwise the cameras are taken as stored, an integer active index is clamped into [0, 4] (kept when already in range, 0 when negative, 4 when past the end), a non-integer one keeps the old index, and "has saved" holds iff the list is non-empty |
| OpenmfdCamera.Save | src/openmfd/visualizer/static/js/camera.js:218-223 | the stored entry parses back to exactly the saved camera list |
| OpenmfdCamera.SaveLoadRoundTrip | src/openmfd/visualizer/static/js/camera.js:218-241 | loading what was saved restores the camera list and an in-range active index, whatever the index was before |
| OpenmfdCamera.CameraSystem.constructor | src/openmfd/visualizer/static/js/camera.js:17-23 | the system starts with no slots, active index 0, outside home mode, in perspective mode, not applying a saved view |
| OpenmfdCamera.CameraSystem.CurrentState | src/openmfd/visualizer/static/js/camera.js:208-216 | the captured state holds the current position, target and mode |
| OpenmfdCamera.CameraSystem.SaveCameraStates | src/openmfd/visualizer/static/js/camera.js:218-223 | storage becomes the saved form of the slots and active index; nothing else changes |
| OpenmfdCamera.CameraSystem.LoadCameraStates | src/openmfd/visualizer/static/js/camera.js:225-241 | installs what `Load` finds; when it finds nothing the system is unchanged and the result is false |
| OpenmfdCamera.CameraSystem.InitCameraStates | src/openmfd/visualizer/static/js/camera.js:332-341 | the system ends in home mode; without saved views it starts with no slots and index 0, with them at least one slot is present |
| OpenmfdCamera.CameraSystem.UpdateActiveCameraStateFromControls | src/openmfd/visualizer/static/js/camera.js:243-248 | nothing in home mode or on an empty active slot; otherwise the active slot takes the current view and the slots are saved |
| OpenmfdCamera.CameraSystem.OnControlsChange | src/openmfd/visualizer/static/js/camera.js:503-506 | a change while a saved view is being applied is ignored; otherwise the active slot follows the view as above |
| OpenmfdCamera.CameraSystem.SetCameraPose | src/openmfd/visualizer/static/js/camera.js:187-206 | the view moves to the new pose; when the pose actually changed, the controls' change event updates the active slot unless a saved view is being applied; setting the current pose again changes no slot |
| OpenmfdCamera.CameraSystem.SetCameraMode | src/openmfd/visualizer/static/js/camera.js:343-365 | the mode becomes the requested one; slots, pose and storage are untouched |
| OpenmfdCamera.CameraSystem.EnsureCameraState | src/openmfd/visualizer/static/js/camera.js:275-279 | an empty slot is filled with the current view, a filled one is never overwritten, and afterwards the slot is filled |
| OpenmfdCamera.CameraSystem.ApplyCameraState | src/openmfd/visualizer/static/js/camera.js:281-295 | nothing for an empty slot; otherwise home mode ends, the slot's mode (perspective when absent) and pose are adopted without rewriting any slot, and the slots are saved |
| OpenmfdCamera.CameraSystem.SelectSlot | src/openmfd/visualizer/static/js/camera.js:312-317 | after a slot click that slot is active and filled, home mode is off, a filled slot is kept as it was, and the view shows the slot's pose |
| OpenmfdCamera.CameraSystem.ApplyCameraInputs | src/openmfd/visualizer/static/js/camera.js:379-402 | the pose changes only when all six parsed coordinates are finite, and then the active slot (outside home mode) records the new view; otherwise nothing changes |
| OpenmfdLights.NewLight | src/openmfd/visualizer/static/js/lights.js:41-55 | the light aims at the model centre, sits at the given position, else at centre + the given offset, else at centre + (10, 10, 10); its colour is the given one or white (0xffffff), and its intensity 1 unless one is given |
| OpenmfdLights.EditedLight | src/openmfd/visualizer/static/js/lights.js:203-220 | a finite intensity is applied clamped to at least 0 and a non-finite one is ignored; the position becomes centre + offset only when all three offsets are finite; colour and target always follow the inputs |
| OpenmfdLights.LightSystem.constructor | src/openmfd/visualizer/static/js/lights.js:4-11 | no lights or helpers, active index 0, the default light not yet added, helpers hidden, white ambient light of intensity 1 |
| OpenmfdLights.LightSystem.AddDirectionalLight | src/openmfd/visualizer/static/js/lights.js:41-55 | exactly one new light and one helper (visible iff helpers are shown) are appended and the new light becomes active; nothing else changes |
| OpenmfdLights.LightSystem.RemoveDirectionalLight | src/openmfd/visualizer/static/js/lights.js:57-77 | the light and its helper at the index are spliced out together; with no light left the active index is 0, and otherwise an index past the end is clamped to the last light |
| OpenmfdLights.LightSystem.EnsureDefaultLight | src/openmfd/visualizer/static/js/lights.js:90-94 | the default light is added on the first call only; later calls change nothing |
| OpenmfdLights.LightSystem.ClickRemove | src/openmfd/visualizer/static/js/lights.js:227-231 | nothing while at most one light is left; otherwise the active light is removed and at least one remains |
| OpenmfdLights.LightSystem.UpdateLight | src/openmfd/visualizer/static/js/lights.js:203-220 | with no lights nothing changes; otherwise only the active light is replaced by its edited form |
| OpenmfdLights.LightSystem.SetAmbientIntensity | src/openmfd/visualizer/static/js/lights.js:279-285 | a finite value is applied clamped to at least 0; a non-finite one is ignored; the lights are untouched |
| OpenmfdLights.LightSystem.SetDialogOpen | src/openmfd/visualizer/static/js/lights.js:100-112 | without a dialog nothing happens; otherwise the dialog flag, the shown-helpers flag and every helper's visibility equal the requested state |
| OpenmfdLights.EditedLightIdempotent | src/openmfd/visualizer/static/js/lights.js:203-220 | re-applying the same editor inputs leaves the edited light as it is |
| OpenmfdLights.RemoveAddedLight | src/openmfd/visualizer/static/js/lights.js:41-77 | removing the light that was just added (the active one after the add) gives back the previous list |
| OpenmfdModels.Recorded | src/openmfd/visualizer/static/js/models.js:172-175 | after a HEAD result that reports no change, an unset Last-Modified slot takes the new header value, and a set slot or a failed request leaves it as it was |
| OpenmfdModels.FirstSeenRecorded | src/openmfd/visualizer/static/js/models.js:172-175 | a value seen for the first time is recorded and is never reported as a change |
| OpenmfdModels.FirstChange | src/openmfd/visualizer/static/js/models.js:166-177 | the first file, scanning from the start index, whose recorded and new Last-Modified values are both set and differ; none exactly when no file in range reports a change |
| OpenmfdModels.BoundingBoxIndex | src/openmfd/visualizer/static/js/models.js:106-107 | the first index whose lower-cased file URL contains `bounding_box.glb`, or none exactly when no file name contains it |
| OpenmfdModels.VisibleIndices | src/openmfd/visualizer/static/js/models.js:112-120 | exactly the indices of loaded and visible scenes, in ascending order |
| OpenmfdModels.GetVisibility | src/openmfd/visualizer/static/js/models.js:17-20 | true without a resolver, otherwise the resolver's answer for the index |
| OpenmfdModels.ModelManager.constructor | src/openmfd/visualizer/static/js/models.js:6-11 | no files, no scenes, no Last-Modified values, and no signature yet |
| OpenmfdModels.ModelManager.SetModelList | src/openmfd/visualizer/static/js/models.js:40-44 | a non-array list becomes the empty list; the signature is that list's, every Last-Modified slot is reset to null, and the scenes are untouched |
| OpenmfdModels.ModelManager.CheckForUpdates | src/openmfd/visualizer/static/js/models.js:156-180 | offline when the fetch failed; a changed list, with nothing else changed, when the signature differs; otherwise "files changed" iff some file reports a change, and then only that first file's value is stored, the earlier ones are recorded and the later ones untouched; with no change every slot is recorded |
| OpenmfdModels.ModelManager.BoundingBoxScene | src/openmfd/visualizer/static/js/models.js:106-110 | none without a bounding-box file; otherwise the loaded scene at the first bounding-box index, if any |
| OpenmfdModels.ModelManager.BuildVisibleGroup | src/openmfd/visualizer/static/js/models.js:112-120 | none iff no loaded scene is visible; otherwise exactly the visible scenes in order |
| OpenmfdModels.ModelManager.FrameTargetFor | src/openmfd/visualizer/static/js/models.js:139-153 | orthographic framing uses any loaded bounding box, other modes only a visible one; otherwise the visible models when there are any, and nothing when none is visible |
| GlbFiles.RegionalLabels | src/pymfcad/run_visualizer.py:80-114 | a type's label starts with "regional" exactly for the regional types |
| OpenmfdServer.BeforeQuery | src/openmfd/run_visualizer.py:37-38 | the routed path contains no '?', is a prefix of the request path, and is cut exactly at the first '?' |
| OpenmfdServer.QueryIgnored | src/openmfd/run_visualizer.py:37-38 | appending a query string to a '?'-free path never changes where the request is routed |
| OpenmfdServer.QueryFree | src/openmfd/run_visualizer.py:37-38 | a path without '?' is routed as it is |
| OpenmfdServer.GlbDir | src/openmfd/run_visualizer.py:85-99 | "preview" in the working directory wins; the result is always an existing folder, and there is none exactly when neither "preview" nor the visualizer's demo_device folder exists |
| OpenmfdServer.Rewrite | src/openmfd/run_visualizer.py:40-76 | the base handler gets a rewritten path exactly for the fixed routes, the three.js files and `.glb` requests; `/glb_list.json` and every other path are answered by the handler itself |
| OpenmfdServer.GlbRequestServedFromCwd | src/openmfd/run_visualizer.py:72-74 | a `.glb` request outside the fixed routes is served from the working directory with all its leading slashes stripped |
| OpenmfdServer.RegionalKind | src/openmfd/run_visualizer.py:119-135 | the sub-prefix after "regional_" selects the regional type, and its length never exceeds the name |
| OpenmfdServer.Classify | src/openmfd/run_visualizer.py:107-147 | an unknown stem keeps its name as written, and this server never announces the default-exposure, default-position or burn-in types |
| OpenmfdServer.PrefixDeterminesKind | src/openmfd/run_visualizer.py:111-135 | each prefix selects its type and the capitalised rest of the stem, whatever follows it |
| OpenmfdServer.UpperCasePrefixUnknown | src/openmfd/run_visualizer.py:111-147 | the prefixes are case-sensitive: "BULK_…" is of unknown type and keeps its name |
| OpenmfdServer.UnknownExactly | src/openmfd/run_visualizer.py:107-147 | a stem is of unknown type exactly when it has none of the prefixes and is not one of the fixed names |
| OpenmfdServer.Describe | src/openmfd/run_visualizer.py:106-155 | a record carries the classification of the file's stem and the file's POSIX path under the preview folder |
| OpenmfdServer.RecordsDescribeGlbFiles | src/openmfd/run_visualizer.py:105-155 | the listing has one record per `.glb` file of the folder, describing it, in the order the folder yields them |
| OpenmfdServer.ListGlbFiles | src/openmfd/run_visualizer.py:101-157 | the loop builds exactly the listing of the folder's `.glb` files |
| OpenmfdServer.Handler.constructor | src/openmfd/run_visualizer.py:27-34 | the handler keeps the request path |
| OpenmfdServer.Handler.DoGet | src/openmfd/run_visualizer.py:36-76 | the query is cut off first; routed paths are rewritten and delegated; `/glb_list.json` answers 404 "No valid .glb directory found." without a preview folder and the listing otherwise; every other path is a 404 "File not found" |
| OpenmfdServer.Handler.DoHead | src/openmfd/run_visualizer.py:78-83 | a `.glb` path is delegated with leading slashes stripped; any other path gets a 404 error and is then still handed to the base handler |
| PymfcadServer.TrailingDigits | src/pymfcad/run_visualizer.py:65 | the count of ASCII digits ending the stem: they are all digits, and the character before them is not one |
| PymfcadServer.VersionMatch | src/pymfcad/run_visualizer.py:65 | a match splits the stem into a newline-free base, "__v" in any case, a non-empty digit run, and at most one final newline |
| PymfcadServer.TrailingDigitsOf | src/pymfcad/run_visualizer.py:65 | a digit string appended to text that does not end in a digit is exactly the trailing digit run |
| PymfcadServer.VersionRoundTrip | src/pymfcad/run_visualizer.py:62-68 | a base name written with a "__v" version suffix reads back as that base name and that version |
| PymfcadServer.UnversionedStem | src/pymfcad/run_visualizer.py:62-68 | a stem ending in neither a digit nor a newline keeps its name as base name and gets version "v0" |
| PymfcadServer.CleanDefault | src/pymfcad/run_visualizer.py:96-98 | a default or burn-in display name is never empty: nothing left after removing the markers reads "Top-level" |
| PymfcadServer.RegionalKind | src/pymfcad/run_visualizer.py:82-114 | the sub-prefix after "regional_" selects the regional type, and its length never exceeds the key |
| PymfcadServer.Regional | src/pymfcad/run_visualizer.py:80-114 | a name behind "regional_" always gets a regional type, never the unknown one |
| PymfcadServer.Classify | src/pymfcad/run_visualizer.py:70-123 | an unknown base name keeps its name as written |
| PymfcadServer.BulkVoidPrefix | src/pymfcad/run_visualizer.py:74-79 | "bulk_" and "void_" give their type and the lower-cased, capitalised rest |
| PymfcadServer.RegionalPrefix | src/pymfcad/run_visualizer.py:80-81 | a "regional_" name, in any case, is decided by the regional rules on its lower-cased rest |
| PymfcadServer.RegionalSubPrefixKinds | src/pymfcad/run_visualizer.py:82-111 | each of the seven regional sub-prefixes selects its own type, whatever follows it |
| PymfcadServer.RegionalOtherwise | src/pymfcad/run_visualizer.py:112-114 | a regional name that starts with none of the sub-prefixes keeps the plain regional type and its capitalised name |
| PymfcadServer.UnknownExactly | src/pymfcad/run_visualizer.py:70-123 | a base name is of unknown type exactly when its lower-cased form has none of the prefixes and is not one of the fixed names |
| PymfcadServer.ClassifyIgnoresCase | src/pymfcad/run_visualizer.py:70-123 | apart from the unknown type, two base names that agree when lower-cased are classified alike |
| PymfcadServer.TopLevelNames | src/pymfcad/run_visualizer.py:94-111 | a default or burn-in file with nothing after its prefix is named "Top-level" |
| PymfcadServer.TopLevelOf | src/pymfcad/run_visualizer.py:94-111 | a key that is exactly a default or burn-in sub-prefix is displayed as "Top-level" with that type |
| PymfcadServer.SortByLowerName | src/pymfcad/run_visualizer.py:59 | the entries are a permutation of the folder's, ordered by lower-cased name |
| PymfcadServer.Describe | src/pymfcad/run_visualizer.py:60-138 | a record carries the stem's base name and version, the classification of the base name, and a `/preview_file?path=` URL |
| PymfcadServer.RecordsDescribeGlbFiles | src/pymfcad/run_visualizer.py:59-138 | there is one record per `.glb` entry, describing it, in the order given |
| PymfcadServer.ListGlbFiles | src/pymfcad/run_visualizer.py:57-140 | the loop builds exactly the records of the entries sorted by lower-cased name |
| PymfcadServer.ListingIsSortedGlbFiles | src/pymfcad/run_visualizer.py:57-140 | the listed entries are exactly the folder's `.glb` files, each as often as it occurs, ordered by lower-cased name |
| PymfcadServer.GlbDir | src/pymfcad/run_visualizer.py:44-55 | an existing selected folder wins, then cwd/_visualization, then the demo device; the result always exists, and there is none exactly when none of the three does |
| PymfcadServer.PreviewInfo | src/pymfcad/run_visualizer.py:211-228 | the reply names the folder in use, and its source is "none", "custom", "cwd/_visualization" or "demo" exactly in the matching case of `GlbDir` |
| PymfcadServer.GlbList | src/pymfcad/run_visualizer.py:200-205 | 404 "No valid .glb directory found." without a folder; otherwise the sorted listing of the folder in use |
| PymfcadServer.PreviewFile | src/pymfcad/run_visualizer.py:286-301 | 404 without a folder, 400 for an empty path or one that resolves outside the folder; a path inside the folder is sent exactly when it is an existing file, and is 404 "File not found" otherwise |
| PymfcadServer.PreviewSettingsFile | src/pymfcad/run_visualizer.py:247-266 | the same checks as `/preview_file`; inside the folder, a path that is not an existing file with a ".json" suffix in any case is 404 "File not found", an invalid one 400 "Invalid JSON", and a valid one is returned |
| PymfcadServer.SettingsFileIsPreviewFile | src/pymfcad/run_visualizer.py:247-301 | a settings file is served exactly when the same path would be served as a plain file and is a valid JSON file with a ".json" suffix |
| PymfcadServer.ServeGlb | src/pymfcad/run_visualizer.py:346-350 | a name is served from the working directory iff it ends in ".glb"; anything else is 404 |
| PymfcadServer.PreviewServer.constructor | src/pymfcad/run_visualizer.py:38 | the server starts with no folder selected |
| PymfcadServer.PreviewServer.SetPreviewDir | src/pymfcad/run_visualizer.py:325-343 | a truthy body that is not an object, or a truthy non-string path, fails with 500 and keeps the selection; an empty path clears the selection; a missing folder or one without a ".glb" entry is refused with 400 and the selection kept; otherwise the resolved folder is selected and reported |
| PymfcadServer.SelectedFolderIsUsed | src/pymfcad/run_visualizer.py:44-55 | while a selected folder exists, every route uses it and it is reported as custom |
| Colors.Clamp | src/openmfd/backend/color.py:196-201 | the result is always a channel value in 0..255: the truncated value when it is one, 0 below and 255 above |
| Colors.ClampChannel | src/openmfd/backend/color.py:196-201 | clamping a value that is already a channel changes nothing |
| Colors.HexDigitValue | src/openmfd/backend/color.py:32-34 | a hexadecimal digit denotes a value below 16 |
| Colors.ParseHexDigits | src/openmfd/backend/color.py:32-34 | a non-empty run of hexadecimal digits parses to its value (signs and surrounding blanks as `int(x, 16)` accepts them) |
| Colors.Hex2 | src/openmfd/backend/color.py:154-156 | a channel written as two hexadecimal digits reads back as that channel |
| Colors.HexChannels | src/openmfd/backend/color.py:151-156 | a code that is not six characters long after stripping blanks and leading '#' is refused with "Hex code must be 6 characters long"; an accepted code has six characters |
| Colors.HexRoundTrip | src/openmfd/backend/color.py:151-156 | writing three channels as `#rrggbb` and decoding the code gives the same channels |
| Colors.HexCodeBody | src/openmfd/backend/color.py:151 | stripping a '#' followed by six hexadecimal digits leaves the six digits |
| Colors.DecodeHex2s | src/openmfd/backend/color.py:154-156 | the three two-digit fields of a code written from three channels decode to those channels |
| Colors.FieldOfHex2 | src/openmfd/backend/color.py:154-156 | a channel's two-digit form parses back to the channel |
| Colors.ParseLine | src/openmfd/backend/color.py:27-35 | a line that yields an entry yields a lower-cased name |
| Colors.ParseLineWritten | src/openmfd/backend/color.py:25-35 | a line `name,#rrggbb` written from a comma-free name and three channels reads back as the lower-cased name with those channels |
| Colors.ParseLineBlank | src/openmfd/backend/color.py:25-26 | a line is skipped exactly when it is blank once stripped |
| Colors.ParseColors | src/openmfd/backend/color.py:20-36 | every key of a parsed table starts with the prefix |
| Colors.ParseColorsFromText | src/openmfd/backend/color.py:20-36 | the loop builds exactly the table the lines define, or fails with the first malformed line |
| Colors.ParseColorsStep | src/openmfd/backend/color.py:27-35 | one more line of the file extends the table exactly as the table of the longer prefix of lines says, including the failure on a malformed line |
| Colors.PrefixErrorStays | src/openmfd/backend/color.py:26-35 | once a line fails, the whole file fails with the same error |
| Colors.LastDefinitionWins | src/openmfd/backend/color.py:35 | an entry that no later line redefines is in the table, under the prefixed name, with its value |
| Colors.NameChannels | src/openmfd/backend/color.py:88-109 | a name is accepted exactly when its lower-cased form is in one of the tables, and takes the colour of the first of base, Tableau, Open Color, X11 and xkcd that has it; an unknown `c<digits>` name with an empty Tableau table fails with a modulo by zero; any other unknown name fails with "Unknown color name" |
| Colors.NameIgnoresCase | src/openmfd/backend/color.py:88 | names that agree when lower-cased select the same colour |
| Colors.ParsedNameFound | src/openmfd/backend/color.py:20-109 | a name defined last in the base colour file is found under that name in any letter case |
| Colors.Color.constructor | src/openmfd/backend/color.py:62-76 | every channel is the clamped argument, so the colour is valid |
| Colors.Color.ToRgba | src/openmfd/backend/color.py:172-176 | the four channels, each in 0..255 |
| Colors.Color.ChangeToColor | src/openmfd/backend/color.py:159-170 | the colour takes over all four channels of the other colour |
| Colors.FromRgba | src/openmfd/backend/color.py:112-123 | refused exactly when there are not four values; otherwise a new colour with the four values clamped |
| Colors.FromHex | src/openmfd/backend/color.py:141-157 | refused exactly when the code does not decode; otherwise a new colour with the decoded channels and the alpha clamped |
| Colors.FromName | src/openmfd/backend/color.py:78-110 | refused exactly when the lower-cased name is in no table, with the error `NameChannels` gives; otherwise a new colour with the table's channels and the alpha clamped |
| ColorVisualizer.Frac | utilities/color_visualizer.py:19-21 | Python's floored remainder by 1 always lies in [0, 1) |
| ColorVisualizer.Hsv | utilities/color_visualizer.py:19-21 | hue lies in [0, 1) and value in [0, 1]; a gray colour has hue and saturation 0 and value equal to its channel over 255 |
| ColorVisualizer.SvgOrdersArePreorders | utilities/color_visualizer.py:32-35 | both sort keys give total preorders, so the sorts are well defined |
| ColorVisualizer.SortSvgStyle | utilities/color_visualizer.py:28-38 | the result is a permutation of the table: all grays first, ordered by brightness, then the other colours ordered by hue ascending, then saturation and value descending |
| ColorVisualizer.DefaultRows | utilities/color_visualizer.py:42-43 | the default row count is just enough rows for every item |
| ColorVisualizer.BuildGrid | utilities/color_visualizer.py:41-51 | the grid has the requested (or default) number of rows, each of `nCols` cells, and cell (i, j) holds item i·nCols + j when there is one and nothing otherwise |
| ColorVisualizer.GridHoldsEveryItem | utilities/color_visualizer.py:41-51 | with the default row count, every item sits in the cell its position gives |
| ColorVisualizer.Paginate | utilities/color_visualizer.py:149-161 | there are ⌈n / page size⌉ pages, each non-empty and at most a page long, and together they give back the list in order |
| ColorVisualizer.AddPage | utilities/color_visualizer.py:153-156 | one more page is non-empty and at most a page long, and the pages so far give back the list up to the next page boundary, or the whole list at the last page |
| ColorVisualizer.PageStart | utilities/color_visualizer.py:152-154 | every page starts inside the list, and only the last one may run past its end |
| ColorVisualizer.PageEnd | utilities/color_visualizer.py:150 | the page count covers the list without a wholly empty last page |
| ColorVisualizer.XkcdPages | utilities/color_visualizer.py:147-161 | the pages, one grid each, cut the SVG-ordered table into grid-sized pieces that give it back in order |
| ColorVisualizer.LineTexts | utilities/color_visualizer.py:174-177 | there is one text per wrapped line |
| ColorVisualizer.WrapKeepsOrder | utilities/color_visualizer.py:170-175 | the finished lines followed by the current one give back every word in order |
| ColorVisualizer.WrapKeepsShort | utilities/color_visualizer.py:170-175 | no line of two or more words runs past the maximum, finished or not |
| ColorVisualizer.WrapEmptyLines | utilities/color_visualizer.py:170-177 | the current line is never empty once a word was seen; only the first finished line can be empty, and it is exactly when the first word is too long |
| ColorVisualizer.WrapKeepsWords | utilities/color_visualizer.py:167-178 | the words of the wrapped lines, in order, are the words of the label |
| ColorVisualizer.WrapBoundsLines | utilities/color_visualizer.py:170-177 | every wrapped line of two or more words is at most the maximum length |
| ColorVisualizer.WrapEmptyFirstLine | utilities/color_visualizer.py:170-177 | a first word longer than the maximum leaves an empty first line, and no other line is ever empty |
| ColorVisualizer.FormatMultilineLabel | utilities/color_visualizer.py:164-178 | a short label or one without a space is returned as it is; otherwise the result is the wrapped lines joined by newlines |
| ColorVisualizer.WrapStep | utilities/color_visualizer.py:171-175 | one more word leaves the finished lines and the current line exactly as wrapping the longer prefix of words says |
| Slicing.FillColor | src/openmfd/backend/slice.py:86-90 | the fill is 255 (solid) exactly for a clockwise outline and 0 (hole) exactly otherwise |
| Slicing.ReverseNegates | src/openmfd/backend/slice.py:10-24 | walking an outline backwards negates its edge sum |
| Slicing.ReversedClockwiseIsHole | src/openmfd/backend/slice.py:10-90 | a clockwise outline walked backwards is filled as a hole |
| Slicing.RelativePosition | src/openmfd/backend/slice.py:173-189 | a root component records no parent and a child records its parent; the offset is the position difference in the parent's units, z scaled by the layer size |
| Slicing.OffsetIgnoresCommonShift | src/openmfd/backend/slice.py:179-189 | moving a child together with its parent does not change the recorded offset |
| Slicing.ChildAtParentOrigin | src/openmfd/backend/slice.py:179-189 | a child at its parent's position is recorded at offset zero |
| Slicing.SliceCountExact | src/openmfd/backend/slice.py:57-64 | with a constant layer size, exactly the cut heights k + 0.5 below the device height are used |
| Slicing.ScheduleUnique | src/openmfd/backend/slice.py:57-125 | the layer loop has one outcome for given inputs: positions and overrun are determined |
| Slicing.SliceSchedule | src/openmfd/backend/slice.py:57-125 | the positions and overrun satisfy the schedule: one slice per cut height with positions (k+1)·layer size for a constant thickness; running sums of the sizes while the cut height is below the device height, and an overrun exactly when the sizes run out first, for per-layer sizes |
| Slicing.ConstantSchedule | src/openmfd/backend/slice.py:58-125 | one slice per cut height k + 0.5 below the device height, the k-th at (k + 1)·layer size |
| Slicing.VariableSchedule | src/openmfd/backend/slice.py:58-122 | the per-layer schedule as described for `SliceSchedule` |
| Slicing.VariableAdvance | src/openmfd/backend/slice.py:110-122 | one more layer moves the cut height and the running layer position exactly as the schedule of one more layer says |
| Slicing.RoundTenth | src/openmfd/backend/slice.py:142 | rounding to one decimal moves a value by at most 0.05 |
| Slicing.PackedWidth | src/openmfd/backend/slice.py:132 | the packed row width is the fewest bytes that hold one bit per pixel |
| Slicing.SliceNamesDistinct | src/openmfd/backend/slice.py:137-139 | different slice numbers of one component give different image names |
| Slicing.Records | src/openmfd/backend/slice.py:137-144 | one record per cut slice, the k-th named `<name>-slice<kkkk>.png`, with the packed width and the position in micrometres rounded to one decimal |
| Slicing.Ids | src/openmfd/backend/slice.py:230-255 | the identities below a component include it and those of every sub-component |
| Slicing.SliceRegistry.constructor | src/openmfd/backend/slice.py:151-157 | both tracking lists start empty |
| Slicing.SliceRegistry.IndexOf | src/openmfd/backend/slice.py:191-193 | the first index at which the component occurs |
| Slicing.SliceRegistry.Register | src/openmfd/backend/slice.py:191-205 | a known component only gains one more placement; a new one is appended with its first placement and no slices; the two lists stay aligned |
| Slicing.SliceRegistry.AddSlice | src/openmfd/backend/slice.py:137-144 | one record is appended to the slices of the component's entry and nothing else changes |
| Slicing.SliceRegistry.AppendSlices | src/openmfd/backend/slice.py:127-144 | the records are appended in order to the component's entry and nothing else changes |
| Slicing.SliceDevice | src/openmfd/backend/slice.py:27-148 | cuts the schedule's slices and, when the tracking list is non-empty, appends exactly their records to the component's entry; with empty lists (the mask passes) nothing is recorded |
| Slicing.SliceComponent | src/openmfd/backend/slice.py:151-287 | the component ends up registered and earlier entries keep their order; a known component only gains this placement and succeeds; a new one is appended with this placement first and fails when it has no bulk shape; when a new one succeeds it has bulk, every direct sub-component is registered, and its entry holds exactly the records of its non-overrunning schedule; when it fails its entry holds no slices, or the records of a schedule that overran; a failure means some component of the tree lacks bulk or overruns its per-layer sizes, so a tree of sliceable components always succeeds; entries of unrelated components are untouched |
| Slicing.SliceSubs | src/openmfd/backend/slice.py:230-255 | slicing the sub-components stops at the first failure, keeps the registered prefix and the parent's own entry, and leaves alone every entry outside the component tree; on success every sub-component is registered, and a failure comes from a sub-component tree that is not sliceable |
| Slicing.SliceSub | src/openmfd/backend/slice.py:230-255 | one pass of that loop registers the sub-component, keeps the registered prefix, the parent's entry and every entry outside the tree, and fails only for a sub-component tree that is not sliceable |
| Slicing.CutComponent | src/openmfd/backend/slice.py:257-287 | a component without bulk fails with "Tried to subtract without bulk" and changes nothing; otherwise its own entry gains exactly the records of its layer schedule, its placements unchanged, and the call fails ("list index out of range") exactly when the per-layer sizes run out; the mask passes record nothing |
| ImageGeneration.Read | src/openmfd/slicer/image_generation.py:48-53 | an image is read only from a file that exists in the folder and decodes |
| ImageGeneration.OrEmpty | src/openmfd/slicer/image_generation.py:97-98 | the list behind an absent key is empty, a present one is itself |
| ImageGeneration.SliceMetadata.constructor | src/openmfd/slicer/image_generation.py:43 | the metadata holds the given slices and none of the extra-image lists yet |
| ImageGeneration.LoadImage | src/openmfd/slicer/image_generation.py:21-34 | packed image data wins when present; otherwise the file's image; nothing exactly when there is no packed data and the file is missing or fails to load |
| ImageGeneration.WithPosition | src/openmfd/slicer/image_generation.py:45-58 | a slice whose mask exists and has a lit pixel gets the position settings; any other slice is unchanged; name, data and position never change |
| ImageGeneration.WithPositionIdempotent | src/openmfd/slicer/image_generation.py:45-58 | running the position pass twice with the same settings has the effect of running it once |
| ImageGeneration.GeneratePositionImages | src/openmfd/slicer/image_generation.py:36-58 | every slice becomes its `WithPosition` form, and no extra-image list changes |
| ImageGeneration.ExposureSplit | src/openmfd/slicer/image_generation.py:72-90 | nothing exactly when the mask is missing, unreadable or dark, or the image is missing or dark; otherwise the two parts are disjoint, the exposure part lies inside the mask, the rest outside it, and together they are the image |
| ImageGeneration.ExposedMeta | src/openmfd/slicer/image_generation.py:88-94 | a split slice keeps its name, position and settings and its image loses the masked pixels; an unsplit slice is unchanged |
| ImageGeneration.ExposureStep | src/openmfd/slicer/image_generation.py:68-110 | one slice is done, as `ExposedMeta` says |
| ImageGeneration.ExposureSlice | src/openmfd/slicer/image_generation.py:68-110 | updating slice i in place gives exactly the pass `ExposureStep` describes, the later slices and the other lists untouched |
| ImageGeneration.ExposureRun | src/openmfd/slicer/image_generation.py:67-110 | without an error every slice is done; an error stops the pass after at least one slice |
| ImageGeneration.ExposureRunStops | src/openmfd/slicer/image_generation.py:67-110 | once the pass has raised, the later slices do not change its outcome |
| ImageGeneration.ExposureRunSlices | src/openmfd/slicer/image_generation.py:67-94 | the slices done are the inputs with their exposure split applied, in order |
| ImageGeneration.ExposureRunList | src/openmfd/slicer/image_generation.py:95-109 | the list keeps its old entries, and every appended entry has a non-empty exposure image; with no exposing slice the list is untouched and no error is raised; with one the list exists |
| ImageGeneration.ExposureRunFailure | src/openmfd/slicer/image_generation.py:100-107 | a pass that raised stopped at a slice that exposes pixels but has no position settings |
| ImageGeneration.GenerateExposureImages | src/openmfd/slicer/image_generation.py:60-110 | the slices and the exposure list end as `ExposureRun` says (slices after a failure untouched), the call fails exactly when the run raised, and the other lists are untouched |
| MembraneGeneration.ScanClose | src/openmfd/slicer/image_generation.py:148-153 | the search stops at the first slice within tolerance of one membrane thickness below, or at the last earlier slice; no slice it passed was close |
| MembraneGeneration.MembraneSource | src/openmfd/slicer/image_generation.py:145-155 | the slice below the window lies one thickness below within 0.01 µm and is the first such slice; there is none exactly when no earlier slice is close |
| MembraneGeneration.FindMembraneSource | src/openmfd/slicer/image_generation.py:145-155 | the search loop with its `break` and the skip test after it finds exactly `MembraneSource` |
| MembraneGeneration.Candidate | src/openmfd/slicer/image_generation.py:210-219 | the candidate region is the slice image outside the slice above, inside the slice below or the mask |
| MembraneGeneration.NextImage | src/openmfd/slicer/image_generation.py:193-208 | past the last slice the slice above is empty; otherwise it is loaded as usual |
| MembraneGeneration.ShrinksTrans | src/openmfd/slicer/image_generation.py:159-252 | what the pass may do to the metadata composes over steps |
| MembraneGeneration.CellMembrane | src/openmfd/slicer/image_generation.py:159-225 | a membrane is found only for a slice with a lit mask that carries packed image data; it is non-empty, and it lies inside the slice image |
| MembraneGeneration.MembraneCell | src/openmfd/slicer/image_generation.py:159-250 | one inner iteration keeps the number of slices |
| MembraneGeneration.MembraneRow | src/openmfd/slicer/image_generation.py:159-250 | the inner loop keeps the number of slices and does nothing after an error |
| MembraneGeneration.MembraneLayer | src/openmfd/slicer/image_generation.py:136-250 | one outer iteration keeps the number of slices and does nothing after an error |
| MembraneGeneration.MembraneRun | src/openmfd/slicer/image_generation.py:136-252 | the outer loop keeps the number of slices |
| MembraneGeneration.CutShrinks | src/openmfd/slicer/image_generation.py:227-250 | cutting pixels out of one slice image and appending membrane entries is an allowed change |
| MembraneGeneration.CellShrinks | src/openmfd/slicer/image_generation.py:159-250 | one iteration cuts the opened membrane out of slice j only and appends a non-empty dilated membrane |
| MembraneGeneration.RowShrinks | src/openmfd/slicer/image_generation.py:159-250 | the inner loop cuts membranes only out of the window slices |
| MembraneGeneration.RowStepShrinks | src/openmfd/slicer/image_generation.py:159-250 | one iteration of the inner loop only removes pixels and appends non-empty membranes |
| MembraneGeneration.RowKeeps | src/openmfd/slicer/image_generation.py:159-250 | the inner loop leaves the slice count and every slice outside the window unchanged |
| MembraneGeneration.LayerShrinks | src/openmfd/slicer/image_generation.py:136-250 | the step for any slice never touches the first slice |
| MembraneGeneration.RunShrinks | src/openmfd/slicer/image_generation.py:136-252 | the whole pass never rewrites the first slice or a slice without image data, only removes pixels from slice images, and only appends non-empty membranes with the pass's dilation |
| MembraneGeneration.MembraneRowStops | src/openmfd/slicer/image_generation.py:159-250 | once an inner loop has raised, its later iterations change nothing |
| MembraneGeneration.MembraneRunStops | src/openmfd/slicer/image_generation.py:136-252 | once the pass has raised, the later slices change nothing |
| MembraneGeneration.GenerateMembraneImages | src/openmfd/slicer/image_generation.py:113-252 | the slices and the membrane list end as `MembraneRun` over all slices says, the call fails exactly when the run raised, and the other lists are untouched |
| MembraneGeneration.CutWindow | src/openmfd/slicer/image_generation.py:158-252 | the inner loop for slice i leaves the metadata as `MembraneRow` over the whole window says |
| MembraneGeneration.CutMembrane | src/openmfd/slicer/image_generation.py:159-252 | one body of the inner loop is one `MembraneCell` step on the metadata |
| SecondaryGeneration.MembraneUnion | src/openmfd/slicer/image_generation.py:330-350 | with no matching membrane entry the union is empty, and it raises only when a matching entry lacks `dilation_px` |
| SecondaryGeneration.EdgeImage | src/openmfd/slicer/image_generation.py:353-359 | the edge image never touches a membrane and lies in the frame |
| SecondaryGeneration.Cover | src/openmfd/slicer/image_generation.py:364-367 | what the eroded window covers lies in the frame, and is the whole frame for an empty window |
| SecondaryGeneration.RoofImage | src/openmfd/slicer/image_generation.py:369-376 | the roof image avoids the membranes and what the window covers, and lies inside the slice image |
| SecondaryGeneration.NextWindow | src/openmfd/slicer/image_generation.py:378-381 | with `roof_layers_above` 0 the window is untouched; otherwise it stays within that many entries and ends with the new image |
| SecondaryGeneration.Recent | src/openmfd/slicer/image_generation.py:378-381 | the window as the last `roof_layers_above` images seen |
| SecondaryGeneration.NextWindowRecent | src/openmfd/slicer/image_generation.py:378-381 | updating the most recent images with a new one gives the most recent images of the longer history |
| SecondaryGeneration.DoseSplit | src/openmfd/slicer/image_generation.py:394-403 | no dose skips the slice, one missing dose drops its image, and with both doses the images are disjoint and the lower dose (the roof on a tie) keeps the shared pixels: an edge dose at least the roof dose removes the roof's pixels from the edge, otherwise the edge's pixels are removed from the roof; a missing roof with both doses is an error |
| SecondaryGeneration.NonEmpty | src/openmfd/slicer/image_generation.py:417-422 | an image is kept exactly when it has a lit pixel |
| SecondaryGeneration.MaskOutputs | src/openmfd/slicer/image_generation.py:405-422 | the written edge and roof lie in the mask and in their images and are lit; the bulk image equals the slice image outside the mask and the bulk inside it |
| SecondaryGeneration.BothDosesOutputs | src/openmfd/slicer/image_generation.py:394-422 | with both doses the written edge and roof images are disjoint and inside the mask, and the bulk keeps the slice image outside the mask |
| SecondaryGeneration.Reached | src/openmfd/slicer/image_generation.py:314-327 | a slice reaches the processing only with a lit mask and a loadable image |
| SecondaryGeneration.Emit | src/openmfd/slicer/image_generation.py:425-458 | entries are only appended, at most two, each lit, and a lit output of a slice without `position_settings` raises |
| SecondaryGeneration.Processed | src/openmfd/slicer/image_generation.py:329-458 | only the image of slice i may change, only inside its mask; the window moves on; every new `secondary_slices` entry is a lit part of the mask |
| SecondaryGeneration.SecondaryStep | src/openmfd/slicer/image_generation.py:312-458 | one slice changes only its own image, and the window moves on exactly when the slice is reached |
| SecondaryGeneration.SecondaryStepChanges | src/openmfd/slicer/image_generation.py:312-458 | the step for slice i changes only entry i; that entry keeps its name, position and settings, and when it changes the slice had a lit mask and a loadable image, whose pixels outside the mask it keeps |
| SecondaryGeneration.SecondaryRun | src/openmfd/slicer/image_generation.py:312-458 | the slices not yet visited are unchanged |
| SecondaryGeneration.ReachedImages | src/openmfd/slicer/image_generation.py:314-327 | the images that reached the window update, at most one per slice |
| SecondaryGeneration.WindowIsRecent | src/openmfd/slicer/image_generation.py:311-381 | the window is always the most recent reached images, never more than `roof_layers_above` and empty when that is 0 |
| SecondaryGeneration.SecondaryRunSlices | src/openmfd/slicer/image_generation.py:312-458 | every slice keeps its name, position and settings; a rewritten slice had a lit mask and keeps its image outside the mask |
| SecondaryGeneration.SecondaryRunStops | src/openmfd/slicer/image_generation.py:312-458 | once the pass has raised, the later slices change nothing |
| SecondaryGeneration.GenerateSecondaryImages | src/openmfd/slicer/image_generation.py:254-458 | the slices and `secondary_slices` end as `SecondaryRun` over all slices says, the call fails exactly when the run raised, and the other lists are untouched |
| SecondaryGeneration.SecondarySlice | src/openmfd/slicer/image_generation.py:312-458 | one loop body is one `SecondaryStep` on the metadata and the window |
| SecondaryGeneration.ProcessSlice | src/openmfd/slicer/image_generation.py:329-458 | the body after loading is one `Processed` step on the metadata and the window |
| SecondaryGeneration.EmitSlice | src/openmfd/slicer/image_generation.py:425-458 | appending the entries is one `Emit` step on `secondary_slices` |
| LegacyCommon.Span | pymfd/slicer/secondary_image_generation.py:190 | `range(a, b + 1)` holds b - a + 1 consecutive integers from a, none when a > b |
| LegacyCommon.SpanMembers | pymfd/slicer/secondary_image_generation.py:190 | an integer is in the span exactly when it lies between a and b |
| LegacyCommon.ExpandPart | pymfd/slicer/secondary_image_generation.py:187-193 | a part without '-' expands exactly when it parses as an integer, to that one integer |
| LegacyCommon.ExpandParts | pymfd/slicer/secondary_image_generation.py:185-194 | no parts expand to nothing |
| LegacyCommon.ExpandPartsStops | pymfd/slicer/secondary_image_generation.py:185-194 | a part that raises makes the whole text raise, whatever follows it |
| LegacyCommon.ExpandStringRangeLoop | pymfd/slicer/secondary_image_generation.py:180-194 | the loop that extends the result part by part computes `ExpandStringRange` |
| LegacyCommon.ExpandStep | pymfd/slicer/secondary_image_generation.py:187-194 | one more comma-separated part extends the result exactly as expanding the longer prefix of parts says, including the failure on a malformed part |
| LegacyCommon.DecimalHasNoSeparator | pymfd/slicer/secondary_image_generation.py:186-188 | a written layer number holds no ',' or '-' |
| LegacyCommon.ItemExpands | pymfd/slicer/secondary_image_generation.py:187-193 | a layer or layer range written as `n` or `a-b` holds no comma and expands to its layers |
| LegacyCommon.ExpandRangeText | pymfd/slicer/secondary_image_generation.py:180-194 | any non-empty list of layers and ranges written with commas expands to the layers it names, in order |
| LegacyCommon.ExpandTexts | pymfd/slicer/secondary_image_generation.py:185-194 | parts that each expand to their item's layers expand together to all of them, in order |
| LegacyCommon.DocumentedExample | pymfd/slicer/secondary_image_generation.py:181-183 | '1-5,8,12-14' expands to [1, 2, 3, 4, 5, 8, 12, 13, 14] |
| LegacyCommon.ExampleValues | pymfd/slicer/secondary_image_generation.py:181-183 | the documented ranges stand for [1, 2, 3, 4, 5, 8, 12, 13, 14] |
| LegacyCommon.LeadingDigits | pymfd/slicer/secondary_image_generation.py:24 | the leading run of digits is a prefix, all digits, followed by a non-digit or the end |
| LegacyCommon.LayerNumberNone | pymfd/slicer/secondary_image_generation.py:47 | no layer number exactly when the name has no digit (the search then raises) |
| LegacyCommon.LayerNumberOfName | pymfd/slicer/secondary_image_generation.py:47 | a name of a digit-free prefix, a number and a non-digit gives back that number |
| LegacyCommon.DigitRunOf | pymfd/slicer/secondary_image_generation.py:47 | the digit run of digits followed by a non-digit is those digits |
| LegacyCommon.WithPng | pymfd/slicer/secondary_image_generation.py:50-52 | the file name ends in ".png" |
| LegacyCommon.BesideName | pymfd/slicer/secondary_image_generation.py:106-111 | the `<stem>_<kind>` file name ends in ".png" |
| LegacyCommon.PrefixAppend | pymfd/slicer/secondary_image_generation.py:43 | the images read so far grow one at a time |
| LegacyCommon.RunLayersNext | pymfd/slicer/secondary_image_generation.py:43-173 | the loop over i + 1 images is the loop over i images and one more step |
| LegacyCommon.LoopStep | pymfd/slicer/secondary_image_generation.py:171-173 | the end of one loop body records the image's files and either continues the loop or stops with the loop's final files and verdict |
| LegacyCommon.Verdict | pymfd/slicer/secondary_image_generation.py:171-174 | the function returns True exactly when the loop ran to the end, and False exactly when progress stopped it |
| LegacyCommon.RunLayersStops | pymfd/slicer/secondary_image_generation.py:171-173 | once progress has stopped the loop or an image raised, the later images change nothing |
| LegacyCommon.RunLayersVerdict | pymfd/slicer/secondary_image_generation.py:43-174 | without a raising image the loop returns False exactly when progress answers falsy after some image that reached the call, and otherwise writes every image's files |
| LegacyCommon.NoProgressNoAbort | pymfd/slicer/secondary_image_generation.py:171-174 | without a progress callback the loop never returns False |
| LegacyCommon.NoWrites | pymfd/slicer/membrane_image_generation.py:29-71 | images that write nothing leave the folder untouched whatever the verdict |
| LegacySecondary.RoofStart | pymfd/slicer/secondary_image_generation.py:85-87 | the roof loop from slice i reaches back min(i, layers_above) slices, none when layers_above is not positive |
| LegacySecondary.RoofDownMembers | pymfd/slicer/secondary_image_generation.py:85-96 | the loop visits exactly the earlier slices from `RoofStart` to i - 1: the intersection keeps the pixels every eroded one has, the union adds the pixels some eroded one lacks |
| LegacySecondary.RoofLoop | pymfd/slicer/secondary_image_generation.py:85-96 | the counting-down loop computes `RoofDown` |
| LegacySecondary.MembraneOf | pymfd/slicer/secondary_image_generation.py:50-59 | a membrane is used exactly when the membrane file beside the slice exists |
| LegacySecondary.LayerShapes | pymfd/slicer/secondary_image_generation.py:59-67 | with a membrane file the eroded and dilated images avoid the membrane |
| LegacySecondary.TwoImage | pymfd/slicer/secondary_image_generation.py:70-114 | equal secondary and bulk doses skip the image; otherwise a write is the dilated primary, a lit secondary different from it, and the removal of the slice file |
| LegacySecondary.WriteLit | pymfd/slicer/secondary_image_generation.py:164-169 | a dark image is not written; a lit one is written once |
| LegacySecondary.ThreeImage | pymfd/slicer/secondary_image_generation.py:116-170 | a processed image always ends with the removal of the slice file |
| LegacySecondary.Layer | pymfd/slicer/secondary_image_generation.py:43-170 | an image raises exactly when its name has no digit, and a layer outside `layers_to_check` writes nothing |
| LegacySecondary.Outcomes | pymfd/slicer/secondary_image_generation.py:43-170 | image i is handled with the images read before it |
| LegacySecondary.TwoImageSecondary | pymfd/slicer/secondary_image_generation.py:70-113 | below the bulk dose the written secondary lies in the eroded slice and in every eroded earlier image of the roof window; above it, it holds the whole rim |
| LegacySecondary.ThreeImageRoof | pymfd/slicer/secondary_image_generation.py:119-124 | the tertiary-mode roof lies in the dilated slice and in every eroded earlier image of the window |
| LegacySecondary.NothingWithoutLayers | pymfd/slicer/secondary_image_generation.py:48 | without `layers_to_check` nothing is written, removed or replaced |
| LegacySecondary.LayerStep | pymfd/slicer/secondary_image_generation.py:44-170 | the loop body with the roof loop run in place computes `Layer` |
| LegacySecondary.GenerateSecondaryImages | pymfd/slicer/secondary_image_generation.py:8-174 | the files written and removed and the verdict are those of the loop over `Outcomes` |
| LegacyMembrane.WindowMask | pymfd/slicer/membrane_image_generation.py:47-50 | the mask holds exactly the frame pixels dark in both bounding slices of the window |
| LegacyMembrane.InteriorOps | pymfd/slicer/membrane_image_generation.py:52-66 | an interior slice writes nothing exactly when its opened membrane is empty, and otherwise rewrites the slice file and then writes the membrane file |
| LegacyMembrane.InteriorOpsSound | pymfd/slicer/membrane_image_generation.py:47-66 | the rewritten slice is the original less pixels dark in both bounding slices, and the dilated membrane covers what was removed and stays in the frame |
| LegacyMembrane.WindowOpsEmpty | pymfd/slicer/membrane_image_generation.py:51-66 | a window writes nothing exactly when every interior membrane is empty |
| LegacyMembrane.WindowOpsWrites | pymfd/slicer/membrane_image_generation.py:47-66 | every file a window writes is an interior slice rewritten within its original image, keeping every pixel lit in a bounding slice, or the membrane image beside an interior slice |
| LegacyMembrane.WindowAt | pymfd/slicer/membrane_image_generation.py:29-66 | the first thickness + 1 slices continue at once; a later slice raises exactly when either bounding name has no digit; files are written only for listed layers |
| LegacyMembrane.Outcomes | pymfd/slicer/membrane_image_generation.py:29-66 | each window reads the images as they were read, not the rewritten files |
| LegacyMembrane.WindowWrites | pymfd/slicer/membrane_image_generation.py:29-66 | a file written at slice i is one of the slices i - thickness .. i - 1, rewritten keeping every pixel lit in a bounding slice, or the membrane image beside one |
| LegacyMembrane.WindowFilesWrite | pymfd/slicer/membrane_image_generation.py:29-66 | every file of a full window is a rewritten window slice or a membrane image beside one |
| LegacyMembrane.NothingWithoutLayers | pymfd/slicer/membrane_image_generation.py:41-45 | without `layers_to_check` the pass writes nothing |
| LegacyMembrane.MembraneVerdict | pymfd/slicer/membrane_image_generation.py:29-71 | when every name holds a number the pass never raises, and returns False exactly when progress answers falsy at some slice past the first thickness + 1 |
| LegacyMembrane.WindowLoop | pymfd/slicer/membrane_image_generation.py:51-66 | the loop over the interior slices computes `WindowOps` |
| LegacyMembrane.WindowStep | pymfd/slicer/membrane_image_generation.py:29-66 | the outer loop body computes `WindowAt` |
| LegacyMembrane.GenerateMembraneImages | pymfd/slicer/membrane_image_generation.py:7-71 | the files written and the verdict are those of the loop over `Outcomes` |
| OldMain.CheckedSwitches | pymfd/slicer/old_main.py:64-68 | a feature stays on exactly when it was on and its dose differs from the bulk dose |
| OldMain.CheckedSwitchesSettle | pymfd/slicer/old_main.py:64-68 | checking the doses a second time changes nothing |
| OldMain.NarrowPx | pymfd/slicer/old_main.py:73-76 | the dilation passed on is at most the configured one, and non-zero exactly when the edge feature is on, not an erosion, and configured non-zero |
| OldMain.WidenPx | pymfd/slicer/old_main.py:74-78 | the erosion passed on is at most the configured one, and non-zero exactly when the edge feature is on, not a dilation, and configured non-zero |
| OldMain.StlSettings.SecondaryConfig | pymfd/slicer/old_main.py:73-92 | the edge/roof pass receives the narrowed and widened sizes and the listed layers |
| OldMain.StlSettings.MembraneConfig | pymfd/slicer/old_main.py:46-51 | the membrane pass receives the listed layers |
| OldMain.StlSettings.MembraneImages | pymfd/slicer/old_main.py:42-54 | without membranes the call returns True and writes nothing; a malformed layer list raises before any file is written; otherwise it is the membrane pass |
| OldMain.StlSettings.SecondaryImages | pymfd/slicer/old_main.py:57-95 | the dose check turns the switches off in the settings; with neither feature left the call returns True and writes nothing; a malformed layer list raises first; otherwise it is the edge/roof pass |
| OldMain.CheckedOutput | pymfd/slicer/old_main.py:102-107 | with zipping the checked path is the output itself; without it, a path inside the output's folder no longer than the output |
| OldMain.UnzippedOutputTaken | pymfd/slicer/old_main.py:105-107 | without zipping, `dir/name.ext` is refused exactly when the folder `dir/name` exists |
| OldMain.Occurrences | pymfd/slicer/old_main.py:118 | the count is at most the list length and zero exactly when the name is absent |
| OldMain.FolderId | pymfd/slicer/old_main.py:120-128 | the id starts with the STL's stem, and is the stem alone exactly when the name occurs once in the list |
| OldMain.FolderIdShared | pymfd/slicer/old_main.py:125-128 | a name occurring other than once gets the stem, '_' and the first eight characters of the UUID |
| OldMain.DesignFiles | pymfd/slicer/old_main.py:132-139 | the kept design files are non-empty, not the placeholder, and taken from the field in order |
| OldMain.ScadSourcesJoin | pymfd/slicer/old_main.py:132-139 | joining real design files with ';' and reading the field back gives them all, in order |
| OldMain.DesignFilesKeep | pymfd/slicer/old_main.py:134-135 | real design files are all kept |
| OldMain.NoDesignFiles | pymfd/slicer/old_main.py:134-135 | the placeholder or an empty field names no design file |
| OldMain.ScadCopies | pymfd/slicer/old_main.py:134-139 | one copy per design file, in order, each into the STL's folder |
| OldMain.Stage | pymfd/slicer/old_main.py:116-146 | the STL's folder is the temporary folder and its id; its design files and the STL are copied into it |
| OldMain.StagedInFolder | pymfd/slicer/old_main.py:116-146 | every staged file lands in the STL's folder, inside the temporary folder, under an id starting with the STL's stem |
| OldMain.CopyDesignFiles | pymfd/slicer/old_main.py:132-139 | the design-file loop performs exactly `ScadCopies` |
| OldMain.StageStls | pymfd/slicer/old_main.py:114-146 | the staging loop raises exactly when there are fewer settings than STLs, and otherwise stages every STL with its own settings, in order |
| OldMain.GeneratePrintfile | pymfd/slicer/old_main.py:98-146 | a taken output path returns False at once; otherwise the call raises exactly when settings are missing and stages every STL |
| GoldenCompare.StripDates | tests/utils/golden_compare.py:30-39 | the result holds no "date" or "design file" key in any case at any depth; objects keep exactly their other keys, lists keep their length, scalars are unchanged |
| GoldenCompare.StripKeeps | tests/utils/golden_compare.py:30-39 | a value without such keys is left exactly as it is |
| GoldenCompare.StripIdempotent | tests/utils/golden_compare.py:30-39 | stripping twice is stripping once |
| GoldenCompare.StripChanges | tests/utils/golden_compare.py:30-39 | stripping changes a value exactly when it holds such a key somewhere |
| GoldenCompare.StripIgnoresDates | tests/utils/golden_compare.py:30-39 | two objects that differ only in a volatile entry are equal once stripped |
| GoldenCompare.PathOrder | tests/utils/golden_compare.py:17-19 | the path order used for sorting is total and transitive |
| GoldenCompare.IterFiles | tests/utils/golden_compare.py:16-19 | the listing is sorted by path and holds exactly the files outside `__pycache__` folders |
| GoldenCompare.IterFilesMembers | tests/utils/golden_compare.py:16-19 | a path is listed exactly when the tree has it and no `__pycache__` folder lies on its full path |
| GoldenCompare.Take | tests/utils/golden_compare.py:82 | the message lists the first ten paths at most |
| GoldenCompare.CheckFile | tests/utils/golden_compare.py:92-115 | a failure names the file and is a JSON, empty-mesh, mesh or digest mismatch |
| GoldenCompare.FileRules | tests/utils/golden_compare.py:95-115 | a JSON file matches exactly when the stripped values are equal as Python compares them, taking precedence over mesh; a mesh exactly when both or neither are empty and non-empty metrics are close; any other file exactly when the digests agree |
| GoldenCompare.PyEqRefl | tests/utils/golden_compare.py:100 | every JSON value equals itself under Python's `==` |
| GoldenCompare.PyEqSym | tests/utils/golden_compare.py:100 | Python's `==` on JSON values is symmetric |
| GoldenCompare.PyEqWithoutBools | tests/utils/golden_compare.py:100 | on values with no booleans, Python's `==` is structural equality |
| GoldenCompare.TrueEqualsOne | tests/utils/golden_compare.py:100 | `{"a": true}` and `{"a": 1}` differ as values but are equal to Python, so they match |
| GoldenCompare.FirstMismatchNone | tests/utils/golden_compare.py:92-115 | the per-file loop passes exactly when every golden file matches |
| GoldenCompare.MissingFilesSorted | tests/utils/golden_compare.py:80 | the missing files are sorted and are exactly the golden files not generated |
| GoldenCompare.CompareOk | tests/utils/golden_compare.py:61-115 | the comparison passes exactly when both directories exist, every golden file was generated, no extra file was generated unless extras are ignored, and every golden file matches |
| GoldenCompare.NoMissingFiles | tests/utils/golden_compare.py:80-82 | no golden file is reported missing exactly when every golden file was generated |
| GoldenCompare.NoExtraFiles | tests/utils/golden_compare.py:84-87 | no generated file is reported extra exactly when every generated file has a golden counterpart |
| GoldenCompare.ExtraFileFails | tests/utils/golden_compare.py:84-87 | when extras are not ignored, a generated file with no golden counterpart fails the comparison (the converse, that ignoring extras passes them, is part of `GoldenCompare.CompareOk`) |
| GoldenCompare.MissingFileFails | tests/utils/golden_compare.py:80-82 | a golden file that was not generated fails the comparison whatever the options |
| GoldenCompare.CheckFiles | tests/utils/golden_compare.py:92-115 | the per-file loop stops at `FirstMismatch` |
| GoldenCompare.CompareDirectories | tests/utils/golden_compare.py:61-115 | the checks in order, then the per-file loop, compute `Compare` |
| PreviewFreetype.Scaled | utilities/preview_freetype.py:8 | one point per outline point, each coordinate multiplied by the scale |
| PreviewFreetype.ScaledCompose | utilities/preview_freetype.py:8 | scaling by one changes nothing, and scaling twice multiplies the scales |
| PreviewFreetype.Slice | utilities/preview_freetype.py:14 | the cut is the sub-sequence when the bounds fit, and otherwise is clipped to the points, empty when the end is not past the start |
| PreviewFreetype.Pieces | utilities/preview_freetype.py:12-17 | one contour per contour end |
| PreviewFreetype.PiecesAt | utilities/preview_freetype.py:12-17 | contour k runs from just after the previous end through its own end, clipped to the points |
| PreviewFreetype.Polygons | utilities/preview_freetype.py:12-18 | at most one polygon per contour, each with three points or more |
| PreviewFreetype.PiecesPartition | utilities/preview_freetype.py:12-17 | for rising contour ends the contours cover the points up to the last end exactly once and in order |
| PreviewFreetype.SliceScaled | utilities/preview_freetype.py:8-14 | cutting scaled points is scaling the cut |
| PreviewFreetype.PiecesScaled | utilities/preview_freetype.py:8-17 | scaling the points first scales every contour |
| PreviewFreetype.GlyphToPolygons | utilities/preview_freetype.py:5-18 | the loop returns `Polygons` of the scaled outline |

## Left out

- Sorting.Sort: the result is proved sorted and a permutation, but stability (entries with equal keys keep their input order, as Python's `sorted` guarantees) is not stated, so the model leaves the relative order of tied entries open: names equal up to case in the folder listings, and colours with equal sort keys (such as aqua and cyan) in `ColorVisualizer.SortSvgStyle`.
- PymfcadServer.Describe: the file URL quotes the entry's own name, which is its path relative to the preview folder for a regular file listed there; `path.resolve().relative_to(preview_dir)` is not modelled, so neither is the ValueError it raises for an entry (a symbolic link) that resolves outside the folder, because file-system resolution is outside the model.
- Rendering: three.js geometry (lookAt, quaternions, camera roll, the orthographic frustum fit, Box3, helpers and materials) is not modelled. Poses are vectors of exact reals, and a helper is its visibility flag.
- Viewer UI: DOM and event wiring (list rendering, button labels and styles, keyboard and mouse handlers) is not modelled. A button click is the method it calls.
- Browser storage: local storage is a stored value passed in and read back. The JSON text itself is not modelled; `JSON.parse` is the parsed value, and a parse failure is a distinct case.
- Network: the fetch and HEAD requests of the model manager, the reload timers, the offline indicator and the settings glue are not modelled. The fetch results are inputs to `CheckForUpdates`.
- Numeric input: evaluating the substituted expression (`Function(...)`) and JavaScript's `String(number)` are parameters of `PymfcadLights.EvaluateNumericInput`; the blank check, the plain-decimal path with its overflow to NaN, the three word substitutions and the character whitelist are modelled. Plain decimals are exact reals: the rounding of `Number(text)` to the nearest double is not modelled, only its overflow. The camera panel's copy (`camera.js` lines 772-791) is the same text and shares `PymfcadLights.EvaluateNumericInput`.
- PymfcadCamera.IsDirty: the `dirtyStateProvider` hook set by `setDirtyStateProvider` is not modelled. The saved state is always the active slot's. No modelled operation installs a provider.
- OpenmfdCamera.CameraSystem.SetCameraPose: three.js's small tolerance when it decides whether the camera moved is not modelled. Any change of position or target counts as a move, and an identical pose as none.
- PymfcadLights.NewLight: a spot light's cone angle, penumbra and decay are not part of the modelled light, because they only affect rendering. `NormalizeEntry` keeps them.
- Slicing.SliceSchedule: a component with per-layer sizes and a layer size of 0 raises a division by zero after its first slice. The model requires a non-zero layer size in that case only. With a constant layer size, 0 is allowed, as nothing is divided.
- GoldenCompare.PyEq: JSON numbers are exact reals. The `NaN` and `Infinity` literals Python's parser accepts, and the rounding of large integers against floats, are not modelled.
- Floating point: angles, intensities, hues, doses, positions and outline points are exact reals. IEEE rounding, the float32 conversion of outline points and `1e-4`-style tolerances beyond their use as constants are not modelled.
- Text: `\d`, `isdigit` and `lower()` are modelled on ASCII only. `int()` accepts no underscore separators here. Python's `strip()` and JavaScript's `trim()` and `\s` each use their own full white-space set.
- Server plumbing: Flask and `http.server` serving, `send_from_directory`, browser opening and threading are not modelled. The filesystem is given as sets of directories and files, per-folder listings and a resolution function. Modification times and sizes in the listings are not modelled.
- PymfcadServer: the routes `/`, `/favicon.ico`, `/docs`, `/main.js`, `/assets`, `/visualizer`, `/cwd.json`, `/preview_settings_list.json`, `/save_preview_settings` and `/preview_dir_list` are not modelled. They serve fixed files or list folders, and the preview decisions do not depend on them.
- Image libraries: `cv2.imread`, `imwrite`, `packbits` and polygon rasterisation are not modelled. Images are sets of lit pixels; a folder maps a file name to the decoded image, or `None` when the loader fails. The legacy passes `LegacySecondary` and `LegacyMembrane` take their slices as decoded images: the `None` that `cv2.imread` returns for an unreadable slice, and the error the next cv2 call then raises, are not modelled there.
- Morphology: in the passes, erosion, dilation and opening are operators that only have to be sound. `PixelSets.Cv2` gives one sound instance with square kernels, but no pass depends on it.
- Pixel values: 0/255 masks are pixel sets, and a `uint8` subtraction of a subset is set difference. Grey levels other than 0 and 255 are not modelled.
- Slicer geometry: manifold slicing, shapely buffering and the rasterisation of `_slice` are parameters of `Slicing`. The packed pixel data of a recorded slice is not modelled.
- Membrane thickness and pixel counts: these are natural numbers. Negative settings are not modelled.
- Path parsing: a path is its list of parts. The leading '/' of an absolute path is not kept apart by `Paths.Parse`.
- Errors: an exception is modelled by its kind, not by its message text. In `Colors.NameChannels`, a `c<digits>` name is rewritten to a Tableau name before the "Unknown color name" error. The rewritten name is not modelled, because it depends on the order of the table's keys. The division by zero that this rewrite raises when the Tableau table is empty is modelled.
- `get_unique_path` is not part of this model. The names of the secondary edge and roof files are an abstract function of the stem and the postfix.
- Colors: `from_rgba_percent`, `_to_float`, `__str__` and `__repr__` are not modelled. They convert to and from floats or format text, and nothing modelled depends on them.
- ColorVisualizer: the matplotlib plotting (`plot_grid`, `plot_grouped_columns`, `plot_all_color_spaces`) is not modelled. Only the paging arithmetic of `plot_xkcd_pages` is.
- OldMain: `slice_stl` and its subprocess, the directory creation and removal, the file copying, the timestamped temporary folder name, the processing loop after staging and `create_file` are not modelled. UUIDs are parameters, and a copy is a record of source and target.
- GoldenCompare: JSON parsing, `load_mesh`, `compute_mesh_metrics` and SHA-256 are not modelled. They are the file's view and a closeness relation given as inputs. The unified diff text of a JSON mismatch is not modelled.
- PreviewFreetype: FreeType face loading, `plot_glyph` and the module-level plot call are not modelled. A contour end before its start (a malformed outline) is modelled only through numpy's clipping on natural numbers.
- LegacySecondary: `print` output is not modelled, nor the unused `__main__` call with its invalid keyword argument. The initial `progress(..., 0, total)` call, whose answer is ignored, is not modelled.
- LegacyMembrane: `print` output and the initial progress call, whose answer is ignored, are not modelled.
