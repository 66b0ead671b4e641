# Drawing page controller (peipein)

A model of the controller behind the peipein drawing page (`script.js`): a canvas on which the
user draws freehand strokes, erases, outlines rectangles and circles, clears, loads an image,
and undoes and redoes through a history of canvas snapshots.

Two pieces of state are modelled:

- **The snapshot history**: the array `history` and its cursor `historyIndex`. `saveHistory`
  advances the cursor, cuts off every entry from the cursor on and appends a new snapshot;
  `undo` and `redo` move the cursor within the array and repaint the snapshot under it. There
  is no capacity bound and nothing is evicted.
- **The pointer and tool state**: `isDrawing`, `isErasing` and the mode string `shape`, driven
  by the mouse handlers, the eraser button, the shape selector and the clear button.

The drawing context is a log of the calls made on it (`Canvas.Command`): `beginPath`, `moveTo`,
`lineTo`, `stroke`, `clearRect`, `strokeRect`, `arc`, `putImageData` and `drawImage`. Pixels are
an opaque value (`Canvas.ImageData`). A circle's `arc` carries the square of its radius.

Modules:

- `Canvas`: the opaque image type and the command log's entries.
- `SnapshotHistory`: the history as a value (`History<T>`), with `Save`, `Undo` and `Redo`, runs
  of them (`Run`) and their properties.
- `Drawing`: every handler as a function from the page state to the new state and the calls it
  makes (`Step`), a replay of any event sequence, and the properties of strokes and shapes.
- `DrawingController`: the class `Controller`, whose fields are the page's variables and whose
  methods run each handler step by step. Each method is proved to do what the matching
  `Drawing` function says.
- `PageLoad`: the save as written, which reads the browser's global `event` (see Findings).

Behaviour as the code has it:

- The anchor of a rectangle or circle is the `(x, y)` stored in the snapshot under the cursor.
  These are the offsets of the event current at the save that produced that snapshot (usually a
  mouse-up; none after an image load), not the press point. After an undo that snapshot comes
  from an earlier save, not the latest one.
- A circle is centred on that anchor and passes through the pointer.
- During a drag in shape mode, each move first repaints the snapshot under the cursor and then
  outlines the shape. Mouse-up draws nothing more: it saves what is on the canvas.
- `mouseup` and `mouseout` both run `endDrawing`, which saves one snapshot even when no press
  came before.
- A mode string other than `"line"`, `"rect"` or `"circle"` makes a drag repaint the snapshot
  and draw nothing.

The code has no capacity bound or eviction, commits no shape at release, does not centre a
circle on the midpoint of press and pointer, and does not ignore a release without a press. The
model has none of these either.

## Model

| member | source | states |
|---|---|---|
| SnapshotHistory.Empty | script.js:15-16 | the history starts with no entries and the cursor at -1 |
| SnapshotHistory.Save | script.js:61-71 | the cursor advances by one; from an entry or from -1, the new snapshot is the last entry and is under the cursor, and every entry before the cursor is kept; from one past the end, the snapshot is appended and the cursor stays one past the end |
| SnapshotHistory.Undo | script.js:73-78 | never changes the entries; steps the cursor back exactly when it is above 0, landing on an entry, and otherwise changes nothing |
| SnapshotHistory.Redo | script.js:80-85 | never changes the entries; steps the cursor forward exactly when it is before the last entry, landing on an entry, and otherwise changes nothing |
| SnapshotHistory.UndoThenRedo | script.js:73-85 | a successful undo shows the previous snapshot, and redo after it returns to the original cursor and snapshot |
| SnapshotHistory.RedoThenUndo | script.js:73-85 | a successful redo shows the next snapshot, and undo after it returns to the original state |
| SnapshotHistory.RedoAfterSaveIsNoOp | script.js:61-85 | a redo straight after a save changes nothing: the redo branch is gone |
| SnapshotHistory.SaveTruncates | script.js:61-71 | saving with the cursor on an entry keeps entries 0..cursor, drops all later ones and appends the new snapshot |
| SnapshotHistory.UndoTimesMovesBack | script.js:73-78 | n undos with n at most the cursor move the cursor back by exactly n and change nothing else |
| SnapshotHistory.RedoTimesMovesForward | script.js:80-85 | n redos that stay within the entries move the cursor forward by exactly n and change nothing else |
| SnapshotHistory.UndoRedoTimes | script.js:73-85 | n undos followed by n redos return to the same history |
| SnapshotHistory.Apply | script.js:61-85 | one save, undo or redo keeps the cursor between -1 and the length |
| SnapshotHistory.Run | script.js:61-85 | any sequence of saves, undos and redos keeps the cursor between -1 and the length |
| SnapshotHistory.RunKeepsValid | script.js:61-85 | from a cursor on an entry, every sequence of saves, undos and redos keeps the cursor on an entry |
| SnapshotHistory.ValidAfterFirstSave | script.js:61-85 | from the empty history with cursor -1, after the first save, every later sequence keeps 0 <= cursor < length |
| SnapshotHistory.RunEntriesWereSaved | script.js:61-85 | every entry after a run was there before or was saved during the run |
| SnapshotHistory.SaveAfterUndoExample | script.js:61-85 | saving s1, s2, s3, undoing and saving s4 gives [s1, s2, s4] with the cursor on s4, and redo then changes nothing |
| Drawing.Start | script.js:12-16 | at load the page is not drawing, the eraser is off, the mode is "line", and the history holds one snapshot under the cursor |
| Drawing.MouseDown | script.js:18-22 | a press sets drawing, changes nothing else, and opens a path at the pointer |
| Drawing.Draw | script.js:24-32 | no call exactly when not drawing; with the eraser on, exactly one clear of the 10 by 10 square centred on the pointer; otherwise a line to the pointer and a stroke |
| Drawing.Outline | script.js:45-58 | "rect" outlines a box with one corner at the anchor and the opposite corner at the pointer (signed width and height); "circle" draws a path with one arc centred on the anchor through the pointer; any other mode draws nothing |
| Drawing.DrawShape | script.js:39-59 | no call when not drawing; otherwise the outline anchored at the snapshot under the cursor |
| Drawing.MouseMove | script.js:94-103 | a move never changes the state; with no press it makes no call; in "line" mode it draws; in any other mode while drawing it first repaints the snapshot under the cursor, then outlines the shape from that snapshot's point; a clear only happens in "line" mode with the eraser on |
| Drawing.EndDrawing | script.js:34-37 | release always stops drawing, keeps eraser and mode, logs no context call and saves exactly one snapshot, which becomes the last entry and the current one |
| Drawing.ToggleEraser | script.js:113-115 | the eraser flag flips and nothing else changes |
| Drawing.SelectShape | script.js:120-122 | the mode becomes the selected value and nothing else changes |
| Drawing.Clear | script.js:116-119 | the whole canvas is cleared, then one snapshot is saved; the pointer state is unchanged |
| Drawing.ImageLoaded | script.js:128-131 | the image is drawn at the origin, then one snapshot is saved |
| Drawing.UndoStep | script.js:73-78 | undo repaints the previous snapshot when the cursor is above 0, and otherwise does nothing at all |
| Drawing.RedoStep | script.js:80-85 | redo repaints the next snapshot when the cursor is before the last entry, and otherwise does nothing at all |
| Drawing.Handle | script.js:87-137 | every handler keeps the history cursor on an entry |
| Drawing.Replay | script.js:87-137 | after any sequence of events from a valid state, the cursor is on an entry, so a shape preview always finds its anchor |
| Drawing.IdleMovesAreSilent | script.js:94-103 | any number of moves without a press make no call and change nothing |
| Drawing.FreehandMovesDraw | script.js:24-32 | in "line" mode with the eraser off, while drawing, each move adds one line-and-stroke to its point and changes nothing |
| Drawing.FreehandStroke | script.js:87-105 | press, any number of moves, release: one path opened at the press, one segment per move, and exactly one snapshot saved |
| Drawing.RectangleDraggedUpLeft | script.js:45-50 | a rectangle from anchor (50, 50) to pointer (10, 10) has width and height -40 |
| Drawing.CircleCentredOnAnchor | script.js:52-56 | a circle from anchor (0, 0) to pointer (10, 0) is centred on (0, 0) with radius 10 |
| DrawingController.Controller.constructor | script.js:12-16 | the variables take their initial values and the first save runs, giving the state of Drawing.Start and an empty log |
| DrawingController.Controller.SaveHistory | script.js:61-71 | the history and cursor become Save of the old ones; flags, mode and log are unchanged |
| DrawingController.Controller.StartDrawing | script.js:18-22 | sets drawing and logs beginPath, moveTo at the pointer |
| DrawingController.Controller.Draw | script.js:24-32 | logs exactly the calls of Drawing.Draw and changes no other field |
| DrawingController.Controller.DrawShape | script.js:39-59 | logs exactly the calls of Drawing.DrawShape and changes no other field |
| DrawingController.Controller.EndDrawing | script.js:34-37 | the fields become those of Drawing.EndDrawing and the cursor stays on an entry |
| DrawingController.Controller.Undo | script.js:73-78 | cursor and log change as Drawing.UndoStep says; the entries never change |
| DrawingController.Controller.Redo | script.js:80-85 | cursor and log change as Drawing.RedoStep says; the entries never change |
| DrawingController.Controller.MouseDown | script.js:87-93 | the fields and log change as Drawing.MouseDown says, in every mode |
| DrawingController.Controller.MouseMove | script.js:94-103 | only the log changes, by the calls of Drawing.MouseMove |
| DrawingController.Controller.ToggleEraser | script.js:113-115 | only the eraser flag changes, as Drawing.ToggleEraser says |
| DrawingController.Controller.Clear | script.js:116-119 | the log and history change as Drawing.Clear says |
| DrawingController.Controller.SelectShape | script.js:120-122 | only the mode changes, as Drawing.SelectShape says |
| DrawingController.Controller.ImageLoaded | script.js:123-135 | the log and history change as Drawing.ImageLoaded says |
| PageLoad.SaveAsWritten | script.js:61-71 | with a mouse event current, the save is Save with its offsets; with none, the result is Save without the push: the cursor advances and the history is cut but nothing is appended |
| PageLoad.PageLoadSaveStoresNothing | script.js:141 | the save at load, with no current event, leaves no entries and the cursor at 0, so no entry is under the cursor |
| PageLoad.SavesStayPastEnd | script.js:61-71 | from a cursor one past the end, any number of saves keep it one past the end |
| PageLoad.StrokesAfterPageLoadHaveNoCurrent | script.js:39-44 | after the failed load save and any number of strokes, the entry drawShape reads at the cursor does not exist |
| PageLoad.UndoAfterPageLoadRecovers | script.js:73-78 | after the failed load save, one save and one undo put the cursor back on an entry, and every later run of saves, undos and redos keeps it on one |

## Left out

- DOM lookups and listener registration (script.js:1-10 and the `addEventListener` calls) are
  not modelled; each listener body is a method of the controller.
- Stroke colour and line width (script.js:107-112, 139-140) are opaque values passed to the
  context with no logic; they are left out.
- Loading an image file goes through `FileReader` and `Image` callbacks (script.js:123-135).
  The model keeps only the net effect: one `drawImage`, then one save. A file that fails to load
  never reaches the controller.
- Pixel contents are not modelled. `getImageData` is not logged: the captured image is passed to
  each save as a parameter. The rendering of `stroke`, `arc` and `strokeRect` is not modelled.
- `Math.sqrt` and `Math.PI` are floating point. An arc is recorded as a full circle with the
  square of its radius, computed from integer offsets.
- Pointer offsets are integers; fractional offsets are not modelled.
- The saves at load, on clear and after an image load read their coordinates from the global
  `event`. That is no event at load, the button's click on clear, and the image's load event
  (which has no offsets) after an image load. The model takes these coordinates as parameters.
  Only the load case is modelled as written, in `PageLoad`.
- Drawing.ImageLoaded: in the program the snapshot saved after an image load has undefined
  offsets, because the image's load event has none. The next rectangle or circle preview then
  computes NaN geometry, and the canvas ignores those calls, so that preview draws nothing. The
  model takes integer `x, y` for this save, so its outline is drawn from them.
- Canvas width and height are fixed at construction.
- Requires clauses: `Save`, `Undo` and `Redo` require the cursor to lie between -1 and the length,
  which holds in every reachable state, including the one the load-time failure leaves. The
  controller's methods keep the cursor on an entry. Undefined reads past the end of the history
  (which throw in the source) are therefore only reached in `PageLoad`.

## Findings

| source | as written | input that shows it | evidently intended | confidence | as-written member | corrected member |
|---|---|---|---|---|---|---|
| script.js:68-69 | the initial save (script.js:141) reads `event.offsetX`, but at load no event is current, so the read throws after `historyIndex++` and before the push | page load: the history is left empty with the cursor at 0; until the first undo after a save, every later save keeps the cursor one past the last entry, so a rectangle or circle drag reads a missing history entry | one snapshot at load, under the cursor, with coordinates given explicitly | medium, not executed | PageLoad.SaveAsWritten | Drawing.Start |
