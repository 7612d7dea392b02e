/** The web drawing pad: the `DrawingPad` component's three signals, the four
    event handlers that change them, and the per-render choice of path
    elements. */
module WebPad {
  import opened Base
  import opened SvgPath

  /** The component's signals: whether a stroke is being recorded, the stroke
      in progress, and the committed strokes in drawing order. */
  datatype PadState = PadState(isDrawing: bool, currentPath: seq<Point>, allPaths: seq<seq<Point>>)

  /** The values the signals are created with. */
  const Initial: PadState := PadState(false, [], [])

  // ---------------------------------------------------------------------------
  // The handlers as transitions of the signal values.

  /** `clear_canvas`: drops every stroke; the drawing flag is left alone. */
  function ClearStep(s: PadState): PadState {
    s.(currentPath := [], allPaths := [])
  }

  /** `start_drawing`: a fresh one-point stroke replaces any stroke in progress. */
  function StartStep(s: PadState, p: Point): PadState {
    s.(isDrawing := true, currentPath := [p])
  }

  /** `draw`: extends the stroke in progress, only while drawing. */
  function DrawStep(s: PadState, p: Point): PadState {
    if s.isDrawing then s.(currentPath := s.currentPath + [p]) else s
  }

  /** `stop_drawing`: commits the stroke in progress, only while drawing. */
  function StopStep(s: PadState): PadState {
    if s.isDrawing then PadState(false, [], s.allPaths + [s.currentPath]) else s
  }

  /** The events the markup routes to the handlers: the Clear button's click,
      and mouse down, move, up and leave on the drawing surface. */
  datatype PadEvent = ClearClick | MouseDown(at: Point) | MouseMove(at: Point) | MouseUp | MouseLeave

  function Handle(s: PadState, e: PadEvent): PadState {
    match e
    case ClearClick => ClearStep(s)
    case MouseDown(p) => StartStep(s, p)
    case MouseMove(p) => DrawStep(s, p)
    case MouseUp => StopStep(s)
    case MouseLeave => StopStep(s)
  }

  /** The state after handling `es` in order. */
  function Run(s: PadState, es: seq<PadEvent>): PadState
    decreases |es|
  {
    if es == [] then s else Run(Handle(s, es[0]), es[1..])
  }

  /** One mouse-move event per sample. */
  function Moves(ps: seq<Point>): seq<PadEvent> {
    seq(|ps|, i requires 0 <= i < |ps| => MouseMove(ps[i]))
  }

  // ---------------------------------------------------------------------------
  // The component, with the signals as fields.

  class DrawingPad {
    var isDrawing: bool
    var currentPath: seq<Point>
    var allPaths: seq<seq<Point>>

    function State(): PadState
      reads this
    {
      PadState(isDrawing, currentPath, allPaths)
    }

    constructor ()
      ensures State() == Initial
    {
      isDrawing := false;
      currentPath := [];
      allPaths := [];
    }

    method ClearCanvas()
      modifies this
      ensures currentPath == [] && allPaths == []
      ensures isDrawing == old(isDrawing)
      ensures State() == ClearStep(old(State()))
    {
      currentPath := [];
      allPaths := [];
    }

    method StartDrawing(p: Point)
      modifies this
      ensures isDrawing && currentPath == [p]
      ensures allPaths == old(allPaths)
      ensures State() == StartStep(old(State()), p)
    {
      isDrawing := true;
      currentPath := [p];
    }

    method Draw(p: Point)
      modifies this
      ensures old(isDrawing) ==> currentPath == old(currentPath) + [p]
      ensures !old(isDrawing) ==> currentPath == old(currentPath)
      ensures isDrawing == old(isDrawing) && allPaths == old(allPaths)
      ensures State() == DrawStep(old(State()), p)
    {
      if isDrawing {
        var path := currentPath;
        path := path + [p];
        currentPath := path;
      }
    }

    method StopDrawing()
      modifies this
      ensures old(isDrawing) ==> !isDrawing && currentPath == [] && allPaths == old(allPaths) + [old(currentPath)]
      ensures !old(isDrawing) ==> State() == old(State())
      ensures State() == StopStep(old(State()))
    {
      if isDrawing {
        isDrawing := false;
        var paths := allPaths;
        paths := paths + [currentPath];
        allPaths := paths;
        currentPath := [];
      }
    }

    /** Routes one event to its handler, as the markup's `onclick`,
        `onmousedown`, `onmousemove`, `onmouseup` and `onmouseleave` do. */
    method Dispatch(e: PadEvent)
      modifies this
      ensures State() == Handle(old(State()), e)
    {
      match e
      case ClearClick => ClearCanvas();
      case MouseDown(p) => StartDrawing(p);
      case MouseMove(p) => Draw(p);
      case MouseUp => StopDrawing();
      case MouseLeave => StopDrawing();
    }

    /** The `d` attributes of the path elements one render emits: one per
        committed stroke, in order, then one for the stroke in progress when
        it has any point. */
    method RenderPaths() returns (ds: seq<string>)
      ensures ds == Render(State())
    {
      ds := CommittedPathData(allPaths);
      if currentPath != [] {
        var d := GeneratePathData(currentPath);
        ds := ds + [d];
      }
    }
  }

  /** The `for path in all_paths()` loop of the render: the path data of each
      committed stroke, in order. */
  method CommittedPathData(paths: seq<seq<Point>>) returns (ds: seq<string>)
    ensures ds == CommittedElements(paths)
  {
    ds := [];
    var i := 0;
    while i < |paths|
      invariant 0 <= i <= |paths|
      invariant ds == CommittedElements(paths[..i])
    {
      var d := GeneratePathData(paths[i]);
      CommittedElementsSnoc(paths[..i], paths[i]);
      assert paths[..i + 1] == paths[..i] + [paths[i]];
      ds := ds + [d];
      i := i + 1;
    }
    assert paths[..i] == paths;
  }

  // ---------------------------------------------------------------------------
  // Rendering.

  /** One path element per committed stroke, in order. */
  function CommittedElements(paths: seq<seq<Point>>): (ds: seq<string>)
    ensures |ds| == |paths|
    ensures forall i :: 0 <= i < |paths| ==> ds[i] == PathData(paths[i])
  {
    if paths == [] then [] else [PathData(paths[0])] + CommittedElements(paths[1..])
  }

  lemma CommittedElementsSnoc(paths: seq<seq<Point>>, p: seq<Point>)
    ensures CommittedElements(paths + [p]) == CommittedElements(paths) + [PathData(p)]
  {
  }

  /** The path elements of one render. */
  function Render(s: PadState): (ds: seq<string>)
    ensures |ds| == |s.allPaths| + (if s.currentPath == [] then 0 else 1)
  {
    CommittedElements(s.allPaths) + (if s.currentPath == [] then [] else [PathData(s.currentPath)])
  }

  /** Each element of a render reads back as exactly one stroke: element i as
      committed stroke i, and the extra last element, present only when the
      stroke in progress has a point, as that stroke. */
  lemma RenderShowsEveryStroke(s: PadState)
    ensures forall i :: 0 <= i < |s.allPaths| ==> ParsePathData(Render(s)[i]) == Some(s.allPaths[i])
    ensures s.currentPath != [] <==> |Render(s)| == |s.allPaths| + 1
    ensures s.currentPath != [] ==> ParsePathData(Render(s)[|s.allPaths|]) == Some(s.currentPath)
  {
    var ds := Render(s);
    forall i | 0 <= i < |s.allPaths| ensures ParsePathData(ds[i]) == Some(s.allPaths[i]) {
      ParsePathDataRoundTrip(s.allPaths[i]);
    }
    if s.currentPath != [] {
      ParsePathDataRoundTrip(s.currentPath);
    }
  }

  // ---------------------------------------------------------------------------
  // Properties of event sequences.

  lemma {:induction false} RunConcat(s: PadState, a: seq<PadEvent>, b: seq<PadEvent>)
    ensures Run(s, a + b) == Run(Run(s, a), b)
    decreases |a|
  {
    if a == [] {
      assert a + b == b;
    } else {
      assert (a + b)[0] == a[0];
      assert (a + b)[1..] == a[1..] + b;
      RunConcat(Handle(s, a[0]), a[1..], b);
    }
  }

  /** Moves while drawing append their samples, in order, and nothing else. */
  lemma {:induction false} RunMovesWhileDrawing(s: PadState, ps: seq<Point>)
    requires s.isDrawing
    ensures Run(s, Moves(ps)) == s.(currentPath := s.currentPath + ps)
    decreases |ps|
  {
    if ps != [] {
      var es := Moves(ps);
      assert es[0] == MouseMove(ps[0]);
      assert es[1..] == Moves(ps[1..]);
      var t := DrawStep(s, ps[0]);
      RunMovesWhileDrawing(t, ps[1..]);
      assert t.currentPath + ps[1..] == s.currentPath + ps;
    }
  }

  /** Moves while not drawing change nothing. */
  lemma {:induction false} RunMovesWhileIdle(s: PadState, ps: seq<Point>)
    requires !s.isDrawing
    ensures Run(s, Moves(ps)) == s
    decreases |ps|
  {
    if ps != [] {
      var es := Moves(ps);
      assert es[0] == MouseMove(ps[0]);
      assert es[1..] == Moves(ps[1..]);
      RunMovesWhileIdle(s, ps[1..]);
    }
  }

  /** Down at `p`, the moves `ps`, then up (or leave) commits exactly the
      stroke `[p] + ps` after the earlier strokes, whatever was in progress
      before, and leaves an empty stroke in progress and drawing off. */
  lemma Gesture(s: PadState, p: Point, ps: seq<Point>, release: PadEvent)
    requires release == MouseUp || release == MouseLeave
    ensures Run(s, [MouseDown(p)] + Moves(ps) + [release]) == PadState(false, [], s.allPaths + [[p] + ps])
  {
    var t := StartStep(s, p);
    assert Run(s, [MouseDown(p)]) == t;
    RunConcat(s, [MouseDown(p)], Moves(ps));
    RunMovesWhileDrawing(t, ps);
    RunConcat(s, [MouseDown(p)] + Moves(ps), [release]);
  }

  /** The committed stroke of a gesture with N moves holds N + 1 points, in
      event order, and the strokes committed before it are untouched. */
  lemma GestureCommitsStroke(s: PadState, p: Point, ps: seq<Point>)
    ensures var t := Run(s, [MouseDown(p)] + Moves(ps) + [MouseUp]);
      |t.allPaths| == |s.allPaths| + 1 &&
      t.allPaths[..|s.allPaths|] == s.allPaths &&
      |t.allPaths[|s.allPaths|]| == |ps| + 1 &&
      t.allPaths[|s.allPaths|][0] == p &&
      forall i :: 0 <= i < |ps| ==> t.allPaths[|s.allPaths|][i + 1] == ps[i]
  {
    Gesture(s, p, ps, MouseUp);
    var t := Run(s, [MouseDown(p)] + Moves(ps) + [MouseUp]);
    assert t.allPaths[..|s.allPaths|] == s.allPaths;
  }

  /** A second stop changes nothing. */
  lemma StopTwice(s: PadState)
    ensures StopStep(StopStep(s)) == StopStep(s)
    ensures !StopStep(s).isDrawing
  {
  }

  /** Without a Clear in the middle of a gesture, drawing implies a stroke in
      progress with a point, and every committed stroke has a point. */
  ghost predicate Consistent(s: PadState) {
    (s.isDrawing ==> s.currentPath != []) &&
    forall i :: 0 <= i < |s.allPaths| ==> s.allPaths[i] != []
  }

  /** Clicks on Clear while drawing are the only events that may break the
      invariant. */
  predicate SafeEvent(s: PadState, e: PadEvent) {
    e.ClearClick? ==> !s.isDrawing
  }

  predicate NoClear(es: seq<PadEvent>) {
    forall i :: 0 <= i < |es| ==> !es[i].ClearClick?
  }

  lemma HandleKeepsConsistent(s: PadState, e: PadEvent)
    requires Consistent(s) && SafeEvent(s, e)
    ensures Consistent(Handle(s, e))
  {
    var t := Handle(s, e);
    if e.MouseUp? || e.MouseLeave? {
      if s.isDrawing {
        assert t.allPaths == s.allPaths + [s.currentPath];
        assert forall i :: 0 <= i < |t.allPaths| ==> t.allPaths[i] != [] by {
          forall i | 0 <= i < |t.allPaths| ensures t.allPaths[i] != [] {
            if i < |s.allPaths| { assert t.allPaths[i] == s.allPaths[i]; }
          }
        }
      }
    }
  }

  /** From a consistent state, any run without Clear stays consistent. */
  lemma {:induction false} RunKeepsConsistent(s: PadState, es: seq<PadEvent>)
    requires Consistent(s) && NoClear(es)
    ensures Consistent(Run(s, es))
    decreases |es|
  {
    if es != [] {
      HandleKeepsConsistent(s, es[0]);
      assert NoClear(es[1..]) by {
        forall i | 0 <= i < |es[1..]| ensures !es[1..][i].ClearClick? {
          assert es[1..][i] == es[i + 1];
        }
      }
      RunKeepsConsistent(Handle(s, es[0]), es[1..]);
    }
  }

  /** Every event of `es` is safe in the state it arrives in. */
  ghost predicate SafeRun(s: PadState, es: seq<PadEvent>)
    decreases |es|
  {
    es == [] || (SafeEvent(s, es[0]) && SafeRun(Handle(s, es[0]), es[1..]))
  }

  /** From a consistent state, any run whose Clear clicks all come outside a
      gesture stays consistent. */
  lemma {:induction false} RunSafeKeepsConsistent(s: PadState, es: seq<PadEvent>)
    requires Consistent(s) && SafeRun(s, es)
    ensures Consistent(Run(s, es))
    decreases |es|
  {
    if es != [] {
      HandleKeepsConsistent(s, es[0]);
      RunSafeKeepsConsistent(Handle(s, es[0]), es[1..]);
    }
  }

  /** Every state reached from the start without Clear is consistent. */
  lemma ReachableConsistent(es: seq<PadEvent>)
    requires NoClear(es)
    ensures Consistent(Run(Initial, es))
  {
    RunKeepsConsistent(Initial, es);
  }

  /** Clear during a gesture keeps drawing on with an empty stroke in
      progress, so the following mouse-up commits a stroke without points. */
  lemma ClearMidGesture(p: Point)
    ensures var t := Run(Initial, [MouseDown(p), ClearClick]);
      t.isDrawing && t.currentPath == [] && !Consistent(t)
    ensures Run(Initial, [MouseDown(p), ClearClick, MouseUp]).allPaths == [[]]
    ensures Render(Run(Initial, [MouseDown(p), ClearClick, MouseUp])) == [""]
  {
    var es := [MouseDown(p), ClearClick, MouseUp];
    var down := StartStep(Initial, p);
    var cleared := ClearStep(down);
    assert cleared == PadState(true, [], []);
    assert [MouseDown(p), ClearClick][1..] == [ClearClick];
    assert Run(down, [ClearClick]) == Run(cleared, []);
    assert Run(Initial, [MouseDown(p), ClearClick]) == cleared;
    assert es[1..] == [ClearClick, MouseUp] && es[1..][1..] == [MouseUp];
    assert Run(cleared, [MouseUp]) == Run(StopStep(cleared), []);
    assert Run(Initial, es) == PadState(false, [], [[]]);
    assert CommittedElements([[]]) == [""];
  }

  /** Two strokes, then Clear: the history grows 0, 1, 2 and returns to 0,
      and the stroke in progress is empty after each gesture. */
  lemma TwoStrokesThenClear(a: Point, b: Point, c: Point, d: Point, e: Point)
    ensures var s1 := Run(Initial, [MouseDown(a)] + Moves([b, c]) + [MouseUp]);
      var s2 := Run(s1, [MouseDown(d)] + Moves([e]) + [MouseUp]);
      var s3 := Run(s2, [ClearClick]);
      s1.allPaths == [[a, b, c]] && s1.currentPath == [] &&
      s2.allPaths == [[a, b, c], [d, e]] && s2.currentPath == [] &&
      s3.allPaths == [] && s3.currentPath == []
  {
    Gesture(Initial, a, [b, c], MouseUp);
    var s1 := Run(Initial, [MouseDown(a)] + Moves([b, c]) + [MouseUp]);
    Gesture(s1, d, [e], MouseUp);
    assert [a] + [b, c] == [a, b, c] && [d] + [e] == [d, e];
  }
}
