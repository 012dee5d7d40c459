# geopolitics-map: undo/redo timeline, nested coordinates, view normalisation

A Dafny model of the three parts of the map annotation editor (`app.js`) whose
behaviour can be stated exactly:

- **The undo/redo timeline** (module `Timeline`). Two stacks of whole-scene
  snapshots. `history` ends with the snapshot last pushed, or last brought back
  by undo or redo. `redoStack` holds the snapshots that undo took off, newest on
  top. `pushHistory` records a snapshot unless it repeats the newest entry. It clears the redo stack unless asked
  not to. It keeps at most 250 entries by dropping the oldest. `undo` needs at
  least two entries. It moves the newest entry to the redo stack and restores
  the one below it. `redo` moves the top of the redo stack back onto history and
  restores it. The functions `Pushed`, `Undone` and `Redone` give each operation
  on values. Class `History` holds the two stacks as `seq` fields and performs
  the operations in place; each method is proved equal to its function. The
  lemmas cover several operations in a row: undo then redo, `k` undos then `k`
  redos, a run of pushes under the cap, and the invariants of any run of
  operations.
- **The nested coordinate helpers** (module `LatLngs`). Leaflet stores the
  vertices of a polyline or polygon as arrays nested to any depth.
  `mapLatLngs` rebuilds that structure with a function applied to every
  coordinate. `deepCloneLatLngs` copies it into new coordinate objects.
- **The "cylinder" view** (module `Viewport`). When panning stops, the view
  centre's latitude is clamped to [-85, 85]. Its longitude is stepped by 360
  degrees until it lies in [-180, 180]. The view is moved only if either value
  changed.

A snapshot is an abstract type `S` compared with `==`. The editor compares
snapshots by their JSON text, and a snapshot is the GeoJSON of the drawn layers.
Undo and redo return the snapshot they would hand to `restoreState` (`None` when
they do nothing).

Module `Session` puts the timeline next to the scene on the map. The six direct
callers of `pushHistory` (app.js:277, 295, 340, 562, 610 and 671) call it first
and change the scene afterwards, so the snapshot recorded is the scene from
before the action. Style edits go through `pushHistoryDebounced` instead
(app.js:252), whose timing is not part of this model. The comment on the
timeline and the two-entry guard of `undo` take the newest entry to be the
current scene instead. The consequence is listed under "## Findings".

The cap of 250 is applied only by a push. Redo appends without checking it. In
the editor every call after the initial one passes `clearRedo` = true. A push
skipped as a repeat changes neither stack, so it keeps the redo stack, but it
adds nothing either. So history plus redo stack never exceed 250 entries
(`Timeline.RunStaysHealthy`). `Timeline.RedoCanPassCap` shows why this needs
`clearRedo` = true. A push that adds a snapshot but keeps the redo stack, made
after an undo at the cap, lets the next redo grow history to 251. The editor
passes `clearRedo` = false only for its first snapshot, when both stacks are
empty.

## Model

| member | source | states |
|---|---|---|
| `Timeline.Pushed` | app.js:140-152 | A state equal to the newest history entry changes neither stack. Otherwise the state becomes the last history entry. The redo stack is emptied when `clearRedo` is set and kept otherwise. Below the cap the state is appended. At or above the cap only the oldest entry is dropped and the rest keep their order. History at most 250 before means at most 250 after. |
| `Timeline.Undone` | app.js:154-165 | Fewer than two entries: both stacks unchanged and nothing restored. Otherwise exactly the last history entry is removed and pushed on the redo stack. The snapshot restored is the new last history entry. The total number of snapshots is unchanged. A non-empty history stays non-empty. |
| `Timeline.Redone` | app.js:167-175 | Empty redo stack: nothing changes and nothing is restored. Otherwise the redo top is removed and appended to history, and that snapshot is restored. The total number of snapshots is unchanged. |
| `Timeline.History.constructor` | app.js:126-127 | Both stacks start empty. |
| `Timeline.History.PushHistory` | app.js:140-152 | The in-place push (append, clear, shift) leaves the stacks exactly as `Pushed` says. |
| `Timeline.History.Undo` | app.js:154-165 | The in-place undo (pop, push) leaves the stacks and returns the restored snapshot exactly as `Undone` says. |
| `Timeline.History.Redo` | app.js:167-175 | The in-place redo (pop, push) leaves the stacks and returns the restored snapshot exactly as `Redone` says. |
| `Timeline.UndoThenRedo` | app.js:154-175 | With at least two history entries, an undo followed by a redo gives back both stacks exactly. The redo restores the snapshot the undo took off. |
| `Timeline.RedoThenUndo` | app.js:154-175 | With a non-empty redo stack and history, a redo followed by an undo gives back both stacks exactly. |
| `Timeline.UndoTimesPeels` | app.js:154-165 | `k` undos, with `k` below the history length, remove the `k` newest history entries. They put them on the redo stack, newest first. |
| `Timeline.RedoTimesUndoesUndoTimes` | app.js:154-175 | `k` undos followed by `k` redos, with `k` below the history length, give back both stacks exactly. |
| `Timeline.PushAllKeepsNewest` | app.js:140-152 | Pushing states that never repeat their predecessor, from a history of at most 250, keeps exactly the 250 newest snapshots in order. The redo stack ends empty once any state is pushed. |
| `Timeline.ReplayTimeline` | app.js:140-175 | From empty stacks, `n` pushes (`n` from 1 to 250, no state repeating its predecessor) give history equal to those states. `n - 1` undos leave only the first state in history and the others on the redo stack, with `states[1]` on top. `n - 1` redos after that give back the stacks as the pushes left them. |
| `Timeline.InitialPush` | app.js:178 | The initial push onto empty stacks leaves exactly that snapshot in history and an empty redo stack. |
| `Timeline.RunNeverEmpties` | app.js:154-178 | Once history holds a snapshot, no run of pushes, undos and redos empties it. |
| `Timeline.RunStaysHealthy` | app.js:140-178 | From a non-empty history holding at most 250 snapshots together with the redo stack, every run whose pushes clear the redo stack keeps both properties. |
| `Timeline.RedoCanPassCap` | app.js:148-171 | At the cap, an undo, then a push that keeps the redo stack, then a redo, gives a history of 251 entries. |
| `Session.Loaded` | app.js:177-178 | After loading, history holds exactly the initial scene, the redo stack is empty and that scene is on the map. |
| `Session.ActPushingBefore` | app.js:273-318 | An action as the callers perform it: the scene becomes `next`. When the newest history entry already is the scene on the map, the push is skipped and both stacks are unchanged, redo stack included. Otherwise the old scene is appended to history (dropping the oldest entry at the cap of 250, the rest kept in order) and the redo stack is emptied. |
| `Session.ActPushingAfter` | app.js:140-152 | The corrected action: the scene becomes `next`. When `next` repeats the newest history entry both stacks are unchanged. Otherwise `next` is appended to history (dropping the oldest entry at the cap of 250, the rest kept in order) and the redo stack is emptied. From a non-empty history the newest entry is then the scene on the map. |
| `Session.UndoScene` | app.js:154-165 | The stacks become those of `Undone`. With fewer than two entries nothing changes, scene included. Otherwise the scene on the map becomes the new newest history entry. |
| `Session.RedoScene` | app.js:167-175 | The stacks become those of `Redone`. With an empty redo stack nothing changes, scene included. Otherwise the scene on the map becomes the snapshot moved back onto history. |
| `Session.FirstActionNotUndone` | app.js:139-178 | As written, after loading `s0` and one action to `s1`, the action's scene is on the map and undo changes nothing at all. |
| `Session.UndoRevertsTwoActions` | app.js:139-178 | As written, after loading `s0` and actions to `s1` then `s2`, the newest history entry is not the scene on the map. One undo shows `s0`, going back two actions. Redo then shows `s1`, so `s2` is lost. |
| `Session.StaleRedoAfterUndo` | app.js:140-175 | As written, after loading `s0`, actions to `s1` and `s2`, an undo and an action to `s3`, the redo stack still holds `s1` and history is only `[s0]`. Redo then shows `s1`, so the action to `s3` is thrown away. |
| `Session.LoadedInSync` | app.js:139-178 | After loading, the newest history entry is the scene on the map. |
| `Session.InSyncKept` | app.js:139-175 | When actions record the scene they produced, an action, an undo and a redo each keep the newest history entry equal to the scene on the map. |
| `Session.UndoRevertsOneAction` | app.js:139-175 | With actions recording the scene they produced, one undo after an action that changed the scene shows the scene from before it. A redo then gives back the editor exactly as the action left it, both stacks included. |
| `Session.UndoAfterPush` | app.js:140-165 | An undo right after a push that was not a repeat restores the entry that was newest before the push, also at the cap. |
| `Session.ActionDiscardsRedo` | app.js:140-175 | With actions recording the scene they produced, an action that changes the scene empties the redo stack, so a redo after it changes nothing. |
| `Session.RedoKeepsNewAction` | app.js:140-175 | With the corrected order, the same run of load, two actions, undo and action to `s3` leaves history `[s0, s1, s3]`, an empty redo stack and `s3` on the map, and redo changes nothing. |
| `Session.ReplayInSync` | app.js:139-175 | Every run of actions, undos and redos keeps the newest history entry equal to the scene on the map, when actions record the scene they produced. |
| `LatLngs.MapLatLngs` | app.js:475-478 | The result nests exactly like the input: leaves face leaves and arrays face arrays of the same length. |
| `LatLngs.MapItems` | app.js:476 | The array step keeps the array's length, and each item is mapped to an item of its own shape. |
| `LatLngs.MapLatLngsLeaves` | app.js:475-478 | The coordinates of the result are `fn` applied once to each coordinate of the input, in order, and nothing else. |
| `LatLngs.MapItemsLeaves` | app.js:476 | For an array of nested items, the coordinates of the mapped array are `fn` applied once to each coordinate of the original, in order. |
| `LatLngs.MapLatLngsIdentity` | app.js:475-478 | Mapping the identity gives back the same structure. |
| `LatLngs.MapLatLngsFusion` | app.js:475-478 | Mapping `f` and then `g` equals one map of `g` after `f`. |
| `LatLngs.DeepCloneLatLngs` | app.js:471-474 | The clone nests exactly like the input. |
| `LatLngs.DeepCloneIsMap` | app.js:471-478 | A deep clone equals mapping every coordinate to a new point built from its latitude and longitude. |
| `LatLngs.DeepCloneKeepsPositions` | app.js:471-474 | The clone has as many coordinates as the input. Each has the same latitude and longitude as the original at that position. |
| `LatLngs.DeepCloneOfFlat` | app.js:471-474 | When no coordinate carries an altitude, the clone equals the input. |
| `Viewport.ClampLat` | app.js:13 | The latitude lands in [-85, 85]. It is kept when already there and goes to the nearer bound otherwise. |
| `Viewport.WrapLng` | app.js:14-16 | The longitude lands in [-180, 180] and differs from the input by a whole number of turns of 360. It is kept when already in range. From above the range it lands above -180, and from below it lands below 180. |
| `Viewport.NormalizeCenter` | app.js:11-18 | The latitude is `ClampLat` of the input. The longitude lands in [-180, 180], a whole number of turns from the input; from above the range it lands above -180, from below it lands below 180, so with `WrapIsUnique` it is the value the loops compute. A pan is issued exactly when the input centre lies outside [-85, 85] x [-180, 180]. A centre already in range is left unchanged. |
| `Viewport.WrapIsUnique` | app.js:14-16 | Two longitudes less than one turn apart and a whole number of turns apart are equal. So `WrapLng`'s contract fixes its result. |

## Left out

- `serializeState` (app.js:129-133): the GeoJSON of the drawn layers is not modelled. A snapshot is an abstract value.
- `statesEqual` (app.js:135-137): JSON-text equality is modelled as `==` on snapshots.
- `restoreState` and `showTransformHandles` are not part of this model. Undo and redo return the snapshot to restore instead of restoring it.
- `pushHistoryDebounced` (called at app.js:252) is not part of this model. The debounce delay is a timer, and whether its push lands before or after the style change is not shown, so style edits are not among the actions of module `Session`.
- The six callers that push with the default `clearRedo` (drawing, a marker label edit, free-draw, and the start of a move, scale or rotate gesture) are event wiring. They appear as `Session.ActPushingBefore`, a push of the scene followed by a change to an arbitrary new scene, and as the assumption of `Timeline.RunStaysHealthy` that every push after the first clears the redo stack. What each action does to the layers is not modelled.
- `Viewport.NormalizeCenter`: reading the centre with `map.getCenter` and moving the view with `map.panTo` are Leaflet calls. The model takes the centre as a parameter and returns the centre to pan to and whether to pan.
- `Viewport.WrapLng`, `Viewport.ClampLat`: work on exact reals, not IEEE doubles. Rounding in `lng -= 360` and the NaN and infinite centres are not modelled. An infinite longitude would never leave the loop.
- `LatLngs.DeepCloneKeepsPositions`: promises equal latitude and longitude, not equal points, because the clone builds each point from those two values alone and so drops an altitude; `LatLngs.DeepCloneOfFlat` gives full equality for points without one.
- `LatLngs.DeepCloneLatLngs`: a Leaflet `LatLng` object's identity is not modelled. The fresh objects appear only as new values; the model cannot tell a clone from a shared reference.
- Transform geometry (`translateLayer`, `scalePreserveRotation`, `rotateToAngle`, `layerBoundsLL`, `layerCenterLL`, the rotate handle placement): every step goes through Leaflet's pixel projection, which is not part of this model, and uses floating-point trigonometry.
- Gesture wiring, free drawing, keyboard shortcuts, marker icons and labels, the style panel, map and tile setup, and the `data.json` marker loading are DOM and event glue.

## Findings

| source | as written | input that shows it | evidently intended | confidence | as-written member | corrected member |
|---|---|---|---|---|---|---|
| app.js:277 | Each direct caller of `pushHistory` pushes the scene before changing it (the same order at app.js:295, 340, 562, 610 and 671), while `undo` treats the newest history entry as the current scene and restores the one below it. | Load scene `s0`, draw a shape (scene `s1`), draw another (scene `s2`), press undo: the map shows `s0`, and redo then shows `s1`. With only the first shape drawn, undo does nothing. After that undo, draw `s3` and press redo: the map shows `s1` and `s3` is gone. | The newest history entry is the current scene, so undo reverts exactly the last action, redo brings it back, and a new action after an undo discards the redo branch. | not executed | `Session.UndoRevertsTwoActions` | `Session.UndoRevertsOneAction` |
