# Drawing pad stroke model

A model of the stroke recording in the drawing-pad repository. It covers two
independent front-ends.

- **Web drawing pad** (`src/main.rs`, component `DrawingPad`). Three signals
  hold the state: `is_drawing`, the stroke in progress `current_path`, and the
  committed strokes `all_paths`. Four handlers change them: `clear_canvas`,
  `start_drawing`, `draw` and `stop_drawing`. Every render emits one SVG path
  element per committed stroke, plus one for the stroke in progress when it
  has points. `generate_path_data` writes each stroke as SVG path data: one
  absolute moveto, then one absolute lineto per later point (SVG 1.1, sections
  8.3.2 and 8.3.4).
- **Native drawing surface** (`drawing-pad/src/lib.rs`, struct `DrawingApp`).
  It keeps a drawing flag, the last cursor position and one accumulating skia
  path. A mouse press adds a `move_to`. A cursor move while drawing adds a
  `line_to`. Space replaces the path with an empty one. Some events request a
  redraw.

Files:

- `base.dfy`: `Point` (whole-number coordinates) and `Option`.
- `decimal.dfy`: decimal text of a coordinate, and a reader for it.
- `svg_path.dfy`: `PathData` (the recursive definition) and `GeneratePathData`
  (the loop, proved equal to it). It also proves the command counts and the
  field structure, and that `ParsePathData` reads the data back.
- `web_pad.dfy`: the `DrawingPad` class. Its state is also a `PadState` value,
  with one transition function per handler. The file also holds the render
  rule and lemmas over event sequences.
- `native_pad.dfy`: the `DrawingApp` class and the `window_event` transition
  function `Step`. The run function counts redraw requests. Lemmas cover
  single events and event sequences.

Each class method is proved against a pure transition function. It ensures
`State() == F(old(State()))`, and most methods also state field by field what
changed.
The lemmas about runs of events are stated on those functions.

Some handlers do less than their names suggest; the model follows the code:

- `clear_canvas` (src/main.rs:50-53) empties both path signals but keeps
  `is_drawing`. Space on the native surface (drawing-pad/src/lib.rs:274-278)
  also keeps `is_drawing`.
- `stop_drawing` commits the stroke in progress even when it is empty. This
  can only happen after a Clear during a gesture. The render then emits a path
  element with empty `d` for that stroke (`WebPad.ClearMidGesture`). One
  might expect an empty stroke to be neither committed nor drawn; the code
  does both. Runs whose Clear clicks all come outside a gesture never commit
  one (`WebPad.RunSafeKeepsConsistent`).
- On the native surface, `MouseInput` requests a redraw only when a window
  exists. A move while drawing and Space call `unwrap` on the window, so
  without a window they panic. The model returns `Panic` there, after the
  path change that precedes the `unwrap`.

## Model

| member | source | states |
|---|---|---|
| `Decimal.IntToStringChars` | src/main.rs:88-90 | a coordinate is written as decimal digits, with a leading `-` exactly when it is negative |
| `Decimal.NatToStringDigits` | src/main.rs:88-90 | the text of a non-negative coordinate is all decimal digits, without a leading zero |
| `Decimal.NatRoundTrip` | src/main.rs:88-90 | the digits of a non-negative coordinate read back as that number |
| `Decimal.IntRoundTrip` | src/main.rs:88-90 | the text of any coordinate reads back as that coordinate |
| `SvgPath.GeneratePathData` | src/main.rs:83-93 | the accumulating loop returns exactly `PathData(path)`: "" for an empty path, otherwise the moveto and then one lineto per later point |
| `SvgPath.PathDataCommandCounts` | src/main.rs:84-92 | the data is empty if and only if the path is; otherwise it holds exactly one `M` and one `L` per point after the first, so a one-point stroke has no segment |
| `SvgPath.PathDataStructure` | src/main.rs:88-91 | split at its spaces, the data is three fields per point: "M" or "L" (M only for the first point), then the x and y text of each point, in order |
| `SvgPath.PathDataFields` | src/main.rs:88-91 | split at its spaces, the data gives exactly the token list of the path |
| `SvgPath.ParsePathDataRoundTrip` | src/main.rs:83-93 | reading the path data back gives exactly the original point list, so the data loses and reorders no point |
| `SvgPath.ThreePointExample` | src/main.rs:88-91 | the points (0,0), (10,5), (20,0) give "M 0 0 L 10 5 L 20 0" |
| `WebPad.DrawingPad.constructor` | src/main.rs:46-48 | the signals start as not drawing, no stroke in progress, no committed strokes |
| `WebPad.DrawingPad.ClearCanvas` | src/main.rs:50-53 | both path signals become empty; `is_drawing` is unchanged |
| `WebPad.DrawingPad.StartDrawing` | src/main.rs:55-61 | drawing becomes true, the stroke in progress is replaced by exactly `[p]` (earlier points are dropped, not committed), committed strokes unchanged |
| `WebPad.DrawingPad.Draw` | src/main.rs:63-70 | while drawing, `p` is appended to the stroke in progress; otherwise nothing changes |
| `WebPad.DrawingPad.StopDrawing` | src/main.rs:72-80 | while drawing: drawing off, committed strokes gain the old stroke in progress at the end, stroke in progress empty; otherwise nothing changes |
| `WebPad.DrawingPad.Dispatch` | src/main.rs:98-109 | the button click and the mouse down/move/up/leave events run their handlers; leave acts as up |
| `WebPad.DrawingPad.RenderPaths` | src/main.rs:116-137 | the loop over the committed strokes, plus the optional last element, gives exactly `Render` of the state |
| `WebPad.CommittedPathData` | src/main.rs:116-125 | the `for` loop over the committed strokes returns exactly `CommittedElements` of them |
| `WebPad.CommittedElements` | src/main.rs:116-125 | one path element per committed stroke, element i drawing stroke i |
| `WebPad.Render` | src/main.rs:116-137 | a render has one element per committed stroke, plus one when the stroke in progress is non-empty |
| `WebPad.RenderShowsEveryStroke` | src/main.rs:116-137 | element i of a render reads back as committed stroke i; an extra element exists if and only if the stroke in progress is non-empty, and it reads back as that stroke |
| `WebPad.RunMovesWhileDrawing` | src/main.rs:63-70 | moves while drawing append their points in event order and change nothing else |
| `WebPad.RunMovesWhileIdle` | src/main.rs:63-70 | moves while not drawing change nothing |
| `WebPad.Gesture` | src/main.rs:55-80 | down at p, moves ps, then up or leave: drawing off, stroke in progress empty, committed strokes = old ones + `[p] + ps` |
| `WebPad.GestureCommitsStroke` | src/main.rs:55-80 | after down, N moves, up, the last committed stroke has N+1 points in event order, and the earlier strokes are an unchanged prefix |
| `WebPad.StopTwice` | src/main.rs:72-80 | a second `stop_drawing` changes nothing, and drawing is off after one |
| `WebPad.HandleKeepsConsistent` | src/main.rs:50-80 | every handler except Clear during a gesture keeps "drawing implies a non-empty stroke in progress, and every committed stroke is non-empty" |
| `WebPad.RunSafeKeepsConsistent` | src/main.rs:50-80 | any event sequence in which every Clear comes while not drawing keeps that invariant, so an empty stroke is committed only after a Clear during a gesture |
| `WebPad.RunKeepsConsistent` | src/main.rs:55-80 | any event sequence without Clear keeps that invariant |
| `WebPad.ReachableConsistent` | src/main.rs:46-80 | every state reached from the initial signals without Clear satisfies the invariant |
| `WebPad.ClearMidGesture` | src/main.rs:50-80 | down then Clear leaves drawing on with an empty stroke, breaking the invariant; the next up commits an empty stroke, rendered as one element with empty data |
| `WebPad.TwoStrokesThenClear` | src/main.rs:50-80 | two gestures then Clear: history `[[a,b,c]]`, then `[[a,b,c],[d,e]]`, then empty; stroke in progress empty after each |
| `NativePad.DrawingApp.constructor` | drawing-pad/src/lib.rs:41-53 | `new()`: no window, empty path, not drawing, no cursor position, size 800×600 |
| `NativePad.DrawingApp.Resumed` | drawing-pad/src/lib.rs:245-249 | the window is created once; a later resume changes nothing |
| `NativePad.DrawingApp.HandleMouseInput` | drawing-pad/src/lib.rs:188-200 | a press sets drawing and appends exactly one `MoveTo(position)` after the earlier verbs; a release clears drawing and keeps the path |
| `NativePad.DrawingApp.HandleMouseMove` | drawing-pad/src/lib.rs:202-208 | while drawing, appends exactly one `LineTo(position)` and requests a redraw (a panic without a window); otherwise nothing changes and no redraw |
| `NativePad.DrawingApp.Resize` | drawing-pad/src/lib.rs:210-211 | the recorded window size becomes the new size |
| `NativePad.DrawingApp.HandleWindowEvent` | drawing-pad/src/lib.rs:251-282 | the dispatch on the event kind yields exactly the new state and outcome of `Step` |
| `NativePad.Step` | drawing-pad/src/lib.rs:251-282 | no event opens or closes the window; the outcome is exit if and only if the event is a close request; a panic happens only without a window; only a resize changes the recorded size |
| `NativePad.MouseInputRules` | drawing-pad/src/lib.rs:262-269 | a mouse button before any cursor position is ignored with no redraw; after one, it acts at the stored position and requests a redraw when the window exists |
| `NativePad.CursorMovedRules` | drawing-pad/src/lib.rs:270-273 | a cursor move always records the position; only while drawing does it add a `LineTo` and request a redraw |
| `NativePad.KeyboardRules` | drawing-pad/src/lib.rs:274-278 | Space empties the path and requests a redraw, keeping drawing flag and cursor; other keys change nothing |
| `NativePad.RedrawRule` | drawing-pad/src/lib.rs:251-282 | with a window, every event that changes the path requests a redraw, and only mouse buttons, moves while drawing and Space request one |
| `NativePad.StepKeepsPath` | drawing-pad/src/lib.rs:251-282 | apart from Space, an event only appends to the path, and what it appends does not depend on the old path |
| `NativePad.RunKeepsPath` | drawing-pad/src/lib.rs:251-282 | without Space, a run keeps the old verbs as a prefix and adds the same verbs, redraws and halting whatever the old path was |
| `NativePad.PathOnlyGrows` | drawing-pad/src/lib.rs:251-282 | between resets the verb list only grows at the end |
| `NativePad.ResetDiscardsEarlierStrokes` | drawing-pad/src/lib.rs:274-278 | after Space the final state does not depend on the earlier path: it is the run from an empty path |
| `NativePad.MovesWhileDrawing` | drawing-pad/src/lib.rs:202-208 | N moves while drawing append N `LineTo`s in order, request N redraws, and leave the cursor at the last sample |
| `NativePad.MovesWhileIdle` | drawing-pad/src/lib.rs:202-208 | moves while not drawing only record the cursor: no verb, no redraw |
| `NativePad.Stroke` | drawing-pad/src/lib.rs:188-208 | press, N moves, release: the path gains `MoveTo(c)` then N `LineTo`s (N+1 verbs), drawing is off, N+2 redraws requested |

## Left out

- Coordinates are whole numbers. The web handlers store `f64` pairs, and the native handlers cast `f64` to `f32` (drawing-pad/src/lib.rs:189, 204). For a whole-number `f64` of magnitude below 2^53, other than negative zero, Rust's `{}` formatting prints the integer's decimal text, so `IntToString` stands for it. Fractional coordinates and their formatting are not modelled.
- Decimal.IntToString: does not model `{}` on whole-number `f64` values of magnitude 2^53 or more, which prints the shortest round-tripping digits padded with zeros (2^60 prints as `1152921504606847000`), because coordinates are modelled as exact integers.
- Decimal.IntToString: does not model negative zero, which `{}` prints as `-0`, because the integer model has a single zero.
- The GL, glutin and skia calls are not modelled, because they are foreign code: `init_gl`, `init_skia`, `draw` and the surface rebuild in `resize` (drawing-pad/src/lib.rs:56-186, 212-240). Their `unwrap` panics are left out too, including the zero-size `NonZeroU32` panic in `resize`. `RedrawRequested` therefore changes no modelled state.
- Skia's own path semantics are not modelled, such as the implicit move-to that skia adds before a `line_to` on an empty path. `line_to` is a plain append, and nothing is claimed about rasterised output.
- `CloseRequested` is modelled only as the `Exit` outcome that ends a run. The event loop itself, and winit's merging of redraw requests, are not modelled. A run counts requests, not frames.
- The markup attributes of the path elements (stroke colour, width, caps, joins, fill) and the surrounding layout are not modelled, because they are fixed text.
- The `App` show/hide component (src/main.rs:7-42), `launch_drawing_pad` (src/main.rs:144-156), `drawing-pad/build.rs` and `drawing-pad/src/main.rs` are not part of this model. They are UI framework code, event-loop start-up and build-time file generation.
- When the web pad re-renders is decided by the UI framework's change detection. It is not modelled; `Render` is the pure mapping from state to elements.
