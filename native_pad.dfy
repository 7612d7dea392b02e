/** The native drawing surface: the input state of `DrawingApp` (drawing flag,
    last cursor position, the one accumulating path) and how window events
    change it and request redraws. */
module NativePad {
  import opened Base

  /** The only path verbs the surface ever adds: `move_to` and `line_to`. */
  datatype Verb = MoveTo(p: Point) | LineTo(p: Point)

  datatype ElementState = Pressed | Released

  /** `Space` is the named Space key; every other logical key is `OtherKey`. */
  datatype Key = Space | OtherKey(name: string)

  newtype u32 = x: int | 0 <= x < 0x1_0000_0000

  /** A physical window size in pixels. */
  datatype Size = Size(width: u32, height: u32)

  /** The window events `window_event` distinguishes; `OtherEvent` stands for
      every event it ignores. */
  datatype WindowEvent =
    | RedrawRequested
    | Resized(size: Size)
    | CloseRequested
    | MouseInput(state: ElementState)
    | CursorMoved(position: Point)
    | KeyboardInput(key: Key)
    | OtherEvent

  /** What one event leaves for the event loop: go on (with or without a
      redraw request), stop the loop, or a panic from `unwrap` on a missing
      window. */
  datatype Outcome = Continue(redraw: bool) | Exit | Panic

  /** The fields of `DrawingApp` the input handling reads or writes; `hasWindow`
      says whether the `window` field holds a window. */
  datatype AppState = AppState(
    hasWindow: bool,
    currentPath: seq<Verb>,
    isDrawing: bool,
    windowSize: Size,
    cursorPosition: Option<Point>)

  /** `DrawingApp::new()`. */
  const Fresh: AppState := AppState(false, [], false, Size(800, 600), None)

  /** The state after one event, with its outcome. */
  datatype Reaction = Reaction(next: AppState, outcome: Outcome)

  /** The outcome of `self.window.as_ref().unwrap().request_redraw()`. */
  function RequestRedraw(s: AppState): Outcome {
    if s.hasWindow then Continue(true) else Panic
  }

  // ---------------------------------------------------------------------------
  // The handlers as transitions.

  /** `resumed`: creates the window once; creation failures are fatal and not
      part of this model. */
  function ResumedStep(s: AppState): AppState {
    if s.hasWindow then s else s.(hasWindow := true)
  }

  /** `handle_mouse_input`: a press starts a new subpath at the position, a
      release only stops drawing. */
  function MouseInputStep(s: AppState, position: Point, state: ElementState): AppState {
    match state
    case Pressed => s.(isDrawing := true, currentPath := s.currentPath + [MoveTo(position)])
    case Released => s.(isDrawing := false)
  }

  /** `handle_mouse_move`: while drawing, a segment to the position and a
      redraw request. */
  function MouseMoveStep(s: AppState, position: Point): Reaction {
    if s.isDrawing then
      var t := s.(currentPath := s.currentPath + [LineTo(position)]);
      Reaction(t, RequestRedraw(t))
    else
      Reaction(s, Continue(false))
  }

  /** The size bookkeeping of `resize`; the surface rebuild is not modelled. */
  function ResizeStep(s: AppState, size: Size): AppState {
    s.(windowSize := size)
  }

  /** `window_event`. No event opens or closes the window; only a close
      request exits; a panic needs a missing window; only a resize changes the
      recorded size. */
  function Step(s: AppState, e: WindowEvent): (r: Reaction)
    ensures r.next.hasWindow == s.hasWindow
    ensures r.outcome == Exit <==> e == CloseRequested
    ensures r.outcome == Panic ==> !s.hasWindow
    ensures !e.Resized? ==> r.next.windowSize == s.windowSize
  {
    match e
    case RedrawRequested => Reaction(s, Continue(false))
    case Resized(size) => Reaction(ResizeStep(s, size), Continue(false))
    case CloseRequested => Reaction(s, Exit)
    case MouseInput(state) =>
      (match s.cursorPosition
       case None => Reaction(s, Continue(false))
       case Some(c) => Reaction(MouseInputStep(s, c, state), Continue(s.hasWindow)))
    case CursorMoved(position) => MouseMoveStep(s.(cursorPosition := Some(position)), position)
    case KeyboardInput(key) =>
      if key == Space then
        var t := s.(currentPath := []);
        Reaction(t, RequestRedraw(t))
      else
        Reaction(s, Continue(false))
    case OtherEvent => Reaction(s, Continue(false))
  }

  /** The end of a run of events: the last state, the number of redraw
      requests, and whether the run stopped early (exit or panic). */
  datatype Trace = Trace(last: AppState, redraws: nat, halted: bool)

  /** Handles `es` in order until the loop exits or panics. */
  function Run(s: AppState, es: seq<WindowEvent>): Trace
    decreases |es|
  {
    if es == [] then Trace(s, 0, false)
    else
      var r := Step(s, es[0]);
      match r.outcome
      case Continue(redraw) =>
        var t := Run(r.next, es[1..]);
        t.(redraws := t.redraws + if redraw then 1 else 0)
      case _ => Trace(r.next, 0, true)
  }

  /** One cursor-moved event per sample. */
  function CursorMoves(ps: seq<Point>): seq<WindowEvent> {
    seq(|ps|, i requires 0 <= i < |ps| => CursorMoved(ps[i]))
  }

  /** One `line_to` per sample. */
  function LineTos(ps: seq<Point>): seq<Verb> {
    seq(|ps|, i requires 0 <= i < |ps| => LineTo(ps[i]))
  }

  // ---------------------------------------------------------------------------
  // The application object, with the modelled fields.

  class DrawingApp {
    var hasWindow: bool
    var currentPath: seq<Verb>
    var isDrawing: bool
    var windowSize: Size
    var cursorPosition: Option<Point>

    function State(): AppState
      reads this
    {
      AppState(hasWindow, currentPath, isDrawing, windowSize, cursorPosition)
    }

    /** `DrawingApp::new()`: no window, an empty path, not drawing, no cursor
        position, 800 by 600 pixels. */
    constructor ()
      ensures !hasWindow && currentPath == [] && !isDrawing && cursorPosition == None
      ensures windowSize == Size(800, 600)
      ensures State() == Fresh
    {
      hasWindow := false;
      currentPath := [];
      isDrawing := false;
      windowSize := Size(800, 600);
      cursorPosition := None;
    }

    method Resumed()
      modifies this
      ensures hasWindow
      ensures State() == ResumedStep(old(State()))
    {
      if !hasWindow {
        hasWindow := true;
      }
    }

    method HandleMouseInput(position: Point, state: ElementState)
      modifies this
      ensures state == Pressed ==> isDrawing && currentPath == old(currentPath) + [MoveTo(position)]
      ensures state == Released ==> !isDrawing && currentPath == old(currentPath)
      ensures hasWindow == old(hasWindow) && windowSize == old(windowSize)
      ensures cursorPosition == old(cursorPosition)
      ensures State() == MouseInputStep(old(State()), position, state)
    {
      match state
      case Pressed =>
        isDrawing := true;
        currentPath := currentPath + [MoveTo(position)];
      case Released =>
        isDrawing := false;
    }

    method HandleMouseMove(position: Point) returns (outcome: Outcome)
      modifies this
      ensures old(isDrawing) ==> currentPath == old(currentPath) + [LineTo(position)]
      ensures old(isDrawing) ==> outcome == if hasWindow then Continue(true) else Panic
      ensures !old(isDrawing) ==> State() == old(State()) && outcome == Continue(false)
      ensures isDrawing == old(isDrawing) && hasWindow == old(hasWindow)
      ensures Reaction(State(), outcome) == MouseMoveStep(old(State()), position)
    {
      outcome := Continue(false);
      if isDrawing {
        currentPath := currentPath + [LineTo(position)];
        outcome := if hasWindow then Continue(true) else Panic;
      }
    }

    method Resize(size: Size)
      modifies this
      ensures State() == ResizeStep(old(State()), size)
    {
      windowSize := size;
    }

    /** `window_event`: dispatches on the event kind. */
    method HandleWindowEvent(e: WindowEvent) returns (outcome: Outcome)
      modifies this
      ensures Reaction(State(), outcome) == Step(old(State()), e)
    {
      match e
      case RedrawRequested =>
        outcome := Continue(false);
      case Resized(size) =>
        Resize(size);
        outcome := Continue(false);
      case CloseRequested =>
        outcome := Exit;
      case MouseInput(state) =>
        outcome := Continue(false);
        if cursorPosition.Some? {
          HandleMouseInput(cursorPosition.value, state);
          outcome := Continue(hasWindow);
        }
      case CursorMoved(position) =>
        cursorPosition := Some(position);
        outcome := HandleMouseMove(position);
      case KeyboardInput(key) =>
        outcome := Continue(false);
        if key == Space {
          currentPath := [];
          outcome := if hasWindow then Continue(true) else Panic;
        }
      case OtherEvent =>
        outcome := Continue(false);
    }
  }

  // ---------------------------------------------------------------------------
  // Properties of single events.

  /** Mouse buttons act only once a cursor position is known, at that
      position, and then request a redraw whenever the window exists. */
  lemma MouseInputRules(s: AppState, state: ElementState)
    ensures s.cursorPosition == None ==> Step(s, MouseInput(state)) == Reaction(s, Continue(false))
    ensures s.cursorPosition.Some? ==>
      Step(s, MouseInput(state)).next == MouseInputStep(s, s.cursorPosition.value, state) &&
      Step(s, MouseInput(state)).outcome == Continue(s.hasWindow)
  {
  }

  /** A cursor move always records the position; it extends the path and
      requests a redraw only while drawing. */
  lemma CursorMovedRules(s: AppState, p: Point)
    ensures Step(s, CursorMoved(p)).next.cursorPosition == Some(p)
    ensures Step(s, CursorMoved(p)).next.isDrawing == s.isDrawing
    ensures s.isDrawing ==> Step(s, CursorMoved(p)).next.currentPath == s.currentPath + [LineTo(p)]
    ensures s.isDrawing && s.hasWindow ==> Step(s, CursorMoved(p)).outcome == Continue(true)
    ensures !s.isDrawing ==> Step(s, CursorMoved(p)) == Reaction(s.(cursorPosition := Some(p)), Continue(false))
  {
  }

  /** Space empties the path and requests a redraw, keeping the drawing flag
      and the cursor; any other key changes nothing. */
  lemma KeyboardRules(s: AppState, key: Key)
    ensures key == Space ==> Step(s, KeyboardInput(key)).next == s.(currentPath := [])
    ensures key == Space && s.hasWindow ==> Step(s, KeyboardInput(key)).outcome == Continue(true)
    ensures key != Space ==> Step(s, KeyboardInput(key)) == Reaction(s, Continue(false))
  {
  }

  /** Every event that changes the path requests a redraw (once the window
      exists), and no event requests one without cause: a redraw request
      comes only from a mouse button, a move while drawing, or Space. */
  lemma RedrawRule(s: AppState, e: WindowEvent)
    requires s.hasWindow
    ensures Step(s, e).next.currentPath != s.currentPath ==> Step(s, e).outcome == Continue(true)
    ensures Step(s, e).outcome == Continue(true) ==>
      e.MouseInput? || (e.CursorMoved? && s.isDrawing) || e == KeyboardInput(Space)
  {
  }

  // ---------------------------------------------------------------------------
  // Properties of event sequences.

  predicate NoReset(es: seq<WindowEvent>) {
    forall i :: 0 <= i < |es| ==> es[i] != KeyboardInput(Space)
  }

  /** The state without its path. */
  function Strip(s: AppState): AppState {
    s.(currentPath := [])
  }

  /** The trace `t` with `prefix` put in front of its final path. */
  function Shift(t: Trace, prefix: seq<Verb>): Trace {
    t.(last := t.last.(currentPath := prefix + t.last.currentPath))
  }

  /** Apart from Space, an event's effect does not depend on the path it
      finds, and it only appends to it. */
  lemma StepKeepsPath(s: AppState, e: WindowEvent)
    requires e != KeyboardInput(Space)
    ensures Step(s, e).next == Step(Strip(s), e).next.(currentPath := s.currentPath + Step(Strip(s), e).next.currentPath)
    ensures Step(s, e).outcome == Step(Strip(s), e).outcome
  {
  }

  lemma NoResetTail(es: seq<WindowEvent>)
    requires es != [] && NoReset(es)
    ensures es[0] != KeyboardInput(Space) && NoReset(es[1..])
  {
    forall i | 0 <= i < |es[1..]| ensures es[1..][i] != KeyboardInput(Space) {
      assert es[1..][i] == es[i + 1];
    }
  }

  /** The trace `t` with one more redraw request counted when `redraw`. */
  function Bump(t: Trace, redraw: bool): Trace {
    t.(redraws := t.redraws + if redraw then 1 else 0)
  }

  /** One step of `Run` when the first event lets the loop go on. */
  lemma RunCons(s: AppState, es: seq<WindowEvent>)
    requires es != [] && Step(s, es[0]).outcome.Continue?
    ensures Run(s, es) == Bump(Run(Step(s, es[0]).next, es[1..]), Step(s, es[0]).outcome.redraw)
  {
  }

  lemma ShiftBump(x: Trace, a: seq<Verb>, b: seq<Verb>, redraw: bool)
    ensures Bump(Shift(Shift(x, b), a), redraw) == Shift(Bump(Shift(x, b), redraw), a)
    ensures Shift(Shift(x, b), a) == Shift(x, a + b)
  {
    assert a + b + x.last.currentPath == a + (b + x.last.currentPath);
  }

  /** Between resets the path only grows at its end: a run from any path ends
      like the same run from an empty path, with the old verbs in front, the
      same redraw requests and the same halting. */
  lemma {:induction false} RunKeepsPath(s: AppState, es: seq<WindowEvent>)
    requires NoReset(es)
    ensures Run(s, es) == Shift(Run(Strip(s), es), s.currentPath)
    decreases |es|, 0
  {
    if es == [] {
      assert [] + s.currentPath == s.currentPath;
    } else {
      NoResetTail(es);
      var e, tail := es[0], es[1..];
      StepKeepsPath(s, e);
      var r0 := Step(Strip(s), e);
      assert es == [e] + tail;
      if r0.outcome.Continue? {
        RunKeepsPathCons(s, e, tail, r0);
      } else {
        assert Step(s, e).next == r0.next.(currentPath := s.currentPath + r0.next.currentPath);
      }
    }
  }

  lemma {:induction false} RunKeepsPathCons(s: AppState, e: WindowEvent, tail: seq<WindowEvent>, r0: Reaction)
    requires e != KeyboardInput(Space) && NoReset(tail)
    requires r0 == Step(Strip(s), e) && r0.outcome.Continue?
    requires Step(s, e) == Reaction(r0.next.(currentPath := s.currentPath + r0.next.currentPath), r0.outcome)
    ensures Run(s, [e] + tail) == Shift(Run(Strip(s), [e] + tail), s.currentPath)
    decreases |tail|, 1
  {
    var es := [e] + tail;
    assert es[0] == e && es[1..] == tail;
    var next := Step(s, e).next;
    RunCons(s, es);
    RunCons(Strip(s), es);
    RunKeepsPath(next, tail);
    RunKeepsPath(r0.next, tail);
    assert Strip(next) == Strip(r0.next);
    var x := Run(Strip(r0.next), tail);
    ShiftBump(x, s.currentPath, r0.next.currentPath, r0.outcome.redraw);
  }

  /** The verbs before a run are a prefix of the verbs after it, as long as
      Space is not pressed. */
  lemma PathOnlyGrows(s: AppState, es: seq<WindowEvent>)
    requires NoReset(es)
    ensures s.currentPath <= Run(s, es).last.currentPath
  {
    RunKeepsPath(s, es);
    var added := Run(Strip(s), es).last.currentPath;
    assert (s.currentPath + added)[..|s.currentPath|] == s.currentPath;
  }

  /** After Space, nothing of the earlier path survives: the final path
      depends only on the events after the reset. */
  lemma ResetDiscardsEarlierStrokes(s: AppState, old_path: seq<Verb>, es: seq<WindowEvent>)
    requires s.hasWindow
    ensures Run(s, [KeyboardInput(Space)] + es) == Run(s.(currentPath := old_path), [KeyboardInput(Space)] + es)
    ensures Run(s, [KeyboardInput(Space)] + es).last == Run(s.(currentPath := []), es).last
  {
    assert ([KeyboardInput(Space)] + es)[1..] == es;
  }

  lemma {:induction false} RunConcat(s: AppState, a: seq<WindowEvent>, b: seq<WindowEvent>)
    requires !Run(s, a).halted
    ensures Run(s, a + b) == Run(Run(s, a).last, b).(redraws := Run(s, a).redraws + Run(Run(s, a).last, b).redraws)
    decreases |a|
  {
    if a == [] {
      assert a + b == b;
    } else {
      assert (a + b)[0] == a[0];
      assert (a + b)[1..] == a[1..] + b;
      RunConcat(Step(s, a[0]).next, a[1..], b);
    }
  }

  /** Moves while drawing append one segment per sample, in order, and each
      requests one redraw. */
  lemma {:induction false} MovesWhileDrawing(s: AppState, ps: seq<Point>)
    requires s.isDrawing && s.hasWindow
    ensures Run(s, CursorMoves(ps)) == Trace(
      s.(currentPath := s.currentPath + LineTos(ps),
         cursorPosition := if ps == [] then s.cursorPosition else Some(ps[|ps| - 1])),
      |ps|, false)
    decreases |ps|
  {
    if ps != [] {
      var es := CursorMoves(ps);
      assert es[0] == CursorMoved(ps[0]);
      assert es[1..] == CursorMoves(ps[1..]);
      var t := Step(s, es[0]).next;
      MovesWhileDrawing(t, ps[1..]);
      assert LineTos(ps) == [LineTo(ps[0])] + LineTos(ps[1..]);
      assert ps[1..] != [] ==> ps[1..][|ps[1..]| - 1] == ps[|ps| - 1];
    }
  }

  /** Moves while not drawing only record the cursor: no verb, no redraw. */
  lemma {:induction false} MovesWhileIdle(s: AppState, ps: seq<Point>)
    requires !s.isDrawing
    ensures Run(s, CursorMoves(ps)) == Trace(
      s.(cursorPosition := if ps == [] then s.cursorPosition else Some(ps[|ps| - 1])), 0, false)
    decreases |ps|
  {
    if ps != [] {
      var es := CursorMoves(ps);
      assert es[0] == CursorMoved(ps[0]);
      assert es[1..] == CursorMoves(ps[1..]);
      MovesWhileIdle(s.(cursorPosition := Some(ps[0])), ps[1..]);
      assert ps[1..] != [] ==> ps[1..][|ps[1..]| - 1] == ps[|ps| - 1];
    }
  }

  /** Press at the known cursor `c`, N moves, release: the path gains one
      `MoveTo(c)` and N `LineTo`s in event order after the verbs it had,
      drawing is off again, and N + 2 redraws were requested. */
  lemma Stroke(s: AppState, c: Point, ps: seq<Point>)
    requires s.hasWindow && s.cursorPosition == Some(c)
    ensures var t := Run(s, [MouseInput(Pressed)] + CursorMoves(ps) + [MouseInput(Released)]);
      t.last.currentPath == s.currentPath + [MoveTo(c)] + LineTos(ps) &&
      |t.last.currentPath| == |s.currentPath| + |ps| + 1 &&
      !t.last.isDrawing && t.redraws == |ps| + 2 && !t.halted
  {
    var pressed := MouseInputStep(s, c, Pressed);
    assert Run(s, [MouseInput(Pressed)]) == Trace(pressed, 1, false);
    RunConcat(s, [MouseInput(Pressed)], CursorMoves(ps));
    MovesWhileDrawing(pressed, ps);
    var moved := Run(pressed, CursorMoves(ps)).last;
    assert moved.cursorPosition.Some?;
    assert Run(moved, [MouseInput(Released)]) == Trace(moved.(isDrawing := false), 1, false);
    RunConcat(s, [MouseInput(Pressed)] + CursorMoves(ps), [MouseInput(Released)]);
  }
}
