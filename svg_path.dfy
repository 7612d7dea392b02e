/** SVG path data for one stroke, as the web drawing pad's `generate_path_data`
    writes it: one absolute moveto for the first point, then one absolute lineto
    per later point (SVG 1.1, sections 8.3.2 and 8.3.4), fields separated by
    single spaces. */
module SvgPath {
  import opened Base
  import opened Decimal

  /** One coordinate pair, written "x y". */
  function Coord(p: Point): string {
    IntToString(p.x) + " " + IntToString(p.y)
  }

  /** The " L x y" commands for the points after the first. */
  function Segments(ps: seq<Point>): string {
    if ps == [] then "" else " L " + Coord(ps[0]) + Segments(ps[1..])
  }

  /** The `d` attribute of a path element drawing `path`; empty for an empty path. */
  function PathData(path: seq<Point>): string {
    if path == [] then "" else "M " + Coord(path[0]) + Segments(path[1..])
  }

  /** The accumulating loop of `generate_path_data`: start from the moveto and
      push one lineto per remaining point. */
  method GeneratePathData(path: seq<Point>) returns (d: string)
    ensures d == PathData(path)
  {
    if |path| == 0 {
      return "";
    }
    d := "M " + Coord(path[0]);
    var i := 1;
    while i < |path|
      invariant 1 <= i <= |path|
      invariant d + Segments(path[i..]) == PathData(path)
    {
      var piece := " L " + Coord(path[i]);
      SegmentsStep(path[i..]);
      assert path[i..][0] == path[i] && path[i..][1..] == path[i + 1..];
      Assoc(d, piece, Segments(path[i + 1..]));
      d := d + piece;
      i := i + 1;
    }
    assert path[i..] == [];
  }

  lemma Assoc<T>(a: seq<T>, b: seq<T>, c: seq<T>)
    ensures a + (b + c) == (a + b) + c
  {
  }

  lemma SegmentsStep(ps: seq<Point>)
    requires ps != []
    ensures Segments(ps) == " L " + Coord(ps[0]) + Segments(ps[1..])
  {
  }

  // ---------------------------------------------------------------------------
  // Command structure: the fields of the path data, one token per field.

  /** The fields, in order, that `PathData` separates by single spaces: a
      command letter, then the two coordinates, for each point. */
  function Tokens(path: seq<Point>): seq<string> {
    if path == [] then [] else ["M", IntToString(path[0].x), IntToString(path[0].y)] + LineTokens(path[1..])
  }

  function LineTokens(ps: seq<Point>): (ts: seq<string>)
    ensures |ts| == 3 * |ps|
  {
    if ps == [] then [] else ["L", IntToString(ps[0].x), IntToString(ps[0].y)] + LineTokens(ps[1..])
  }

  lemma {:induction false} LineTokensAt(ps: seq<Point>, i: nat)
    requires i < |ps|
    ensures LineTokens(ps)[3 * i] == "L"
    ensures LineTokens(ps)[3 * i + 1] == IntToString(ps[i].x)
    ensures LineTokens(ps)[3 * i + 2] == IntToString(ps[i].y)
  {
    if i > 0 {
      LineTokensAt(ps[1..], i - 1);
      var rest := LineTokens(ps[1..]);
      var j := 3 * (i - 1);
      ShiftPastTriple("L", IntToString(ps[0].x), IntToString(ps[0].y), rest, j);
      ShiftPastTriple("L", IntToString(ps[0].x), IntToString(ps[0].y), rest, j + 1);
      ShiftPastTriple("L", IntToString(ps[0].x), IntToString(ps[0].y), rest, j + 2);
    }
  }

  lemma ShiftPastTriple<T>(a: T, b: T, c: T, rest: seq<T>, j: nat)
    requires j < |rest|
    ensures ([a, b, c] + rest)[j + 3] == rest[j]
  {
  }

  /** The token list names each point by its command letter and its two
      coordinates, in stroke order. */
  lemma TokensAt(path: seq<Point>, i: nat)
    requires i < |path|
    ensures |Tokens(path)| == 3 * |path|
    ensures Tokens(path)[3 * i] == (if i == 0 then "M" else "L")
    ensures Tokens(path)[3 * i + 1] == IntToString(path[i].x)
    ensures Tokens(path)[3 * i + 2] == IntToString(path[i].y)
  {
    if i > 0 {
      LineTokensAt(path[1..], i - 1);
      var rest := LineTokens(path[1..]);
      var j := 3 * (i - 1);
      ShiftPastTriple("M", IntToString(path[0].x), IntToString(path[0].y), rest, j);
      ShiftPastTriple("M", IntToString(path[0].x), IntToString(path[0].y), rest, j + 1);
      ShiftPastTriple("M", IntToString(path[0].x), IntToString(path[0].y), rest, j + 2);
    }
  }

  predicate NoSpace(t: string) {
    forall k :: 0 <= k < |t| ==> t[k] != ' '
  }

  /** The tokens joined by single spaces. */
  function Join(ts: seq<string>): string
    requires |ts| > 0
  {
    if |ts| == 1 then ts[0] else ts[0] + " " + Join(ts[1..])
  }

  /** Splits `s` at every space; `Split("")` is `[""]`. */
  function Split(s: string): (r: seq<string>)
    ensures |r| > 0
  {
    if s == [] then [""]
    else if s[0] == ' ' then [""] + Split(s[1..])
    else
      var r := Split(s[1..]);
      [[s[0]] + r[0]] + r[1..]
  }

  lemma {:induction false} SplitSpaceFree(t: string)
    requires NoSpace(t)
    ensures Split(t) == [t]
  {
    if t != [] {
      SplitSpaceFree(t[1..]);
      assert [t[0]] + t[1..] == t;
    }
  }

  lemma {:induction false} SplitAfterToken(t: string, rest: string)
    requires NoSpace(t)
    ensures Split(t + " " + rest) == [t] + Split(rest)
  {
    if t == [] {
      assert t + " " + rest == " " + rest;
      assert (" " + rest)[1..] == rest;
    } else {
      var s := t + " " + rest;
      assert s[1..] == t[1..] + " " + rest;
      SplitAfterToken(t[1..], rest);
      assert [t[0]] + t[1..] == t;
    }
  }

  lemma {:induction false} SplitJoin(ts: seq<string>)
    requires |ts| > 0
    requires forall i :: 0 <= i < |ts| ==> NoSpace(ts[i])
    ensures Split(Join(ts)) == ts
  {
    if |ts| == 1 {
      SplitSpaceFree(ts[0]);
    } else {
      SplitJoin(ts[1..]);
      SplitAfterToken(ts[0], Join(ts[1..]));
    }
  }

  lemma IntToStringNoSpace(i: int)
    ensures NoSpace(IntToString(i))
  {
    IntToStringChars(i);
  }

  /** Unfolds `Join` over the three tokens of one point. */
  lemma JoinTriple(c: string, x: string, y: string, tail: seq<string>)
    ensures Join([c, x, y] + tail) == c + " " + (x + " " + (y + (if tail == [] then "" else " " + Join(tail))))
  {
    var ts := [c, x, y] + tail;
    assert ts[0] == c && ts[1..] == [x, y] + tail;
    assert ts[1..][0] == x && ts[1..][1..] == [y] + tail;
    assert ([y] + tail)[0] == y && ([y] + tail)[1..] == tail;
    assert Join(ts) == c + " " + Join([x, y] + tail);
    assert Join([x, y] + tail) == x + " " + Join([y] + tail);
    if tail == [] {
      assert Join([y] + tail) == y == y + "";
    } else {
      assert Join([y] + tail) == y + " " + Join(tail);
    }
  }

  lemma {:induction false} SegmentsAreJoin(ps: seq<Point>)
    requires ps != []
    ensures Segments(ps) == " " + Join(LineTokens(ps))
  {
    var x, y := IntToString(ps[0].x), IntToString(ps[0].y);
    var tail := LineTokens(ps[1..]);
    var more := Segments(ps[1..]);
    JoinTriple("L", x, y, tail);
    if ps[1..] != [] {
      SegmentsAreJoin(ps[1..]);
    }
    assert more == (if tail == [] then "" else " " + Join(tail));
    Regroup(" L ", x, y, more);
  }

  /** Re-associates the pieces of one " L x y" or "M x y" command. */
  lemma Regroup(lead: string, x: string, y: string, more: string)
    requires |lead| == 3 && lead[0] == ' ' && lead[2] == ' '
    ensures lead + (x + " " + y) + more == " " + ([lead[1]] + " " + (x + " " + (y + more)))
  {
  }

  /** Path data for a non-empty path is its tokens joined by single spaces. */
  lemma PathDataIsJoin(path: seq<Point>)
    requires path != []
    ensures PathData(path) == Join(Tokens(path))
  {
    var x, y := IntToString(path[0].x), IntToString(path[0].y);
    var tail := LineTokens(path[1..]);
    var more := Segments(path[1..]);
    JoinTriple("M", x, y, tail);
    if path[1..] != [] {
      SegmentsAreJoin(path[1..]);
    }
    assert more == (if tail == [] then "" else " " + Join(tail));
    RegroupMove(x, y, more);
  }

  /** Re-associates the pieces of the leading "M x y" command. */
  lemma RegroupMove(x: string, y: string, more: string)
    ensures "M " + (x + " " + y) + more == "M" + " " + (x + " " + (y + more))
  {
  }

  /** The path data splits at its spaces into exactly its tokens. */
  lemma PathDataFields(path: seq<Point>)
    requires path != []
    ensures Split(PathData(path)) == Tokens(path)
  {
    PathDataIsJoin(path);
    var ts := Tokens(path);
    forall i | 0 <= i < |ts| ensures NoSpace(ts[i]) {
      var j := i / 3;
      assert i == 3 * j || i == 3 * j + 1 || i == 3 * j + 2;
      TokensAt(path, j);
      IntToStringNoSpace(path[j].x);
      IntToStringNoSpace(path[j].y);
    }
    SplitJoin(ts);
  }

  /** The path data is "M x0 y0" followed by " L xi yi" for each later point:
      split at its spaces it gives exactly the command letter and the two
      coordinates of every point, in stroke order. */
  lemma PathDataStructure(path: seq<Point>)
    requires path != []
    ensures |Split(PathData(path))| == 3 * |path|
    ensures forall i :: 0 <= i < |path| ==>
      Split(PathData(path))[3 * i] == (if i == 0 then "M" else "L") &&
      Split(PathData(path))[3 * i + 1] == IntToString(path[i].x) &&
      Split(PathData(path))[3 * i + 2] == IntToString(path[i].y)
  {
    PathDataFields(path);
    var ts := Tokens(path);
    forall i | 0 <= i < |path|
      ensures ts[3 * i] == (if i == 0 then "M" else "L")
      ensures ts[3 * i + 1] == IntToString(path[i].x)
      ensures ts[3 * i + 2] == IntToString(path[i].y)
    {
      TokensAt(path, i);
    }
    TokensAt(path, 0);
  }

  // ---------------------------------------------------------------------------
  // Reading path data back: the subset of SVG path syntax written above.

  /** Reads "L x y" triples until the tokens run out. */
  function ParseLines(ts: seq<string>): Option<seq<Point>>
    decreases |ts|
  {
    if ts == [] then Some([])
    else if |ts| < 3 || ts[0] != "L" then None
    else match (ParseInt(ts[1]), ParseInt(ts[2]), ParseLines(ts[3..]))
      case (Some(x), Some(y), Some(rest)) => Some([Point(x, y)] + rest)
      case _ => None
  }

  /** Reads "M x y" followed by "L x y" triples. */
  function ParseTokens(ts: seq<string>): Option<seq<Point>> {
    if |ts| < 3 || ts[0] != "M" then None
    else match (ParseInt(ts[1]), ParseInt(ts[2]), ParseLines(ts[3..]))
      case (Some(x), Some(y), Some(rest)) => Some([Point(x, y)] + rest)
      case _ => None
  }

  /** Reads path data of the form written by `PathData`: empty, or "M x y"
      followed by any number of " L x y". */
  function ParsePathData(d: string): Option<seq<Point>> {
    if d == "" then Some([]) else ParseTokens(Split(d))
  }

  lemma {:induction false} ParseLineTokens(ps: seq<Point>)
    ensures ParseLines(LineTokens(ps)) == Some(ps)
  {
    if ps != [] {
      var ts := LineTokens(ps);
      assert ts[3..] == LineTokens(ps[1..]);
      ParseLineTokens(ps[1..]);
      IntRoundTrip(ps[0].x);
      IntRoundTrip(ps[0].y);
      assert [ps[0]] + ps[1..] == ps;
    }
  }

  lemma ParseTokensRoundTrip(path: seq<Point>)
    requires path != []
    ensures ParseTokens(Tokens(path)) == Some(path)
  {
    var ts := Tokens(path);
    assert ts[3..] == LineTokens(path[1..]);
    ParseLineTokens(path[1..]);
    IntRoundTrip(path[0].x);
    IntRoundTrip(path[0].y);
    assert [path[0]] + path[1..] == path;
  }

  /** Round trip: the path data names every point of the stroke, in order. */
  lemma ParsePathDataRoundTrip(path: seq<Point>)
    ensures ParsePathData(PathData(path)) == Some(path)
  {
    if path != [] {
      var d := PathData(path);
      assert |d| >= 2;
      PathDataFields(path);
      ParseTokensRoundTrip(path);
    }
  }

  // ---------------------------------------------------------------------------
  // Command counts.

  /** Number of occurrences of `c` in `s`. */
  function Count(s: string, c: char): nat {
    if s == [] then 0 else (if s[0] == c then 1 else 0) + Count(s[1..], c)
  }

  lemma {:induction false} CountConcat(a: string, b: string, c: char)
    ensures Count(a + b, c) == Count(a, c) + Count(b, c)
  {
    if a == [] {
      assert a + b == b;
    } else {
      assert (a + b)[0] == a[0];
      assert (a + b)[1..] == a[1..] + b;
      CountConcat(a[1..], b, c);
    }
  }

  lemma {:induction false} CountAbsent(s: string, c: char)
    requires forall k :: 0 <= k < |s| ==> s[k] != c
    ensures Count(s, c) == 0
  {
    if s != [] {
      CountAbsent(s[1..], c);
    }
  }

  /** A coordinate pair holds no command letter. */
  lemma CoordHasNoCommand(p: Point, c: char)
    requires c == 'M' || c == 'L'
    ensures Count(Coord(p), c) == 0
  {
    IntToStringChars(p.x);
    IntToStringChars(p.y);
    var s := Coord(p);
    var xs := IntToString(p.x);
    assert forall k :: |xs| + 1 <= k < |s| ==> s[k] == IntToString(p.y)[k - |xs| - 1];
    CountAbsent(s, c);
  }

  lemma {:induction false} SegmentsCount(ps: seq<Point>)
    ensures Count(Segments(ps), 'M') == 0
    ensures Count(Segments(ps), 'L') == |ps|
  {
    if ps != [] {
      SegmentsCount(ps[1..]);
      CoordHasNoCommand(ps[0], 'M');
      CoordHasNoCommand(ps[0], 'L');
      CountConcat(" L " + Coord(ps[0]), Segments(ps[1..]), 'M');
      CountConcat(" L " + Coord(ps[0]), Segments(ps[1..]), 'L');
      CountConcat(" L ", Coord(ps[0]), 'M');
      CountConcat(" L ", Coord(ps[0]), 'L');
    }
  }

  /** An empty path gives empty data; otherwise the data holds exactly one
      moveto and one lineto per point after the first, so a one-point stroke
      draws no segment. */
  lemma PathDataCommandCounts(path: seq<Point>)
    ensures path == [] <==> PathData(path) == ""
    ensures path != [] ==> Count(PathData(path), 'M') == 1
    ensures Count(PathData(path), 'L') == if path == [] then 0 else |path| - 1
  {
    if path != [] {
      SegmentsCount(path[1..]);
      CoordHasNoCommand(path[0], 'M');
      CoordHasNoCommand(path[0], 'L');
      CountConcat("M " + Coord(path[0]), Segments(path[1..]), 'M');
      CountConcat("M " + Coord(path[0]), Segments(path[1..]), 'L');
      CountConcat("M ", Coord(path[0]), 'M');
      CountConcat("M ", Coord(path[0]), 'L');
    }
  }

  /** The three-point example: two segments from the origin. */
  lemma ThreePointExample()
    ensures PathData([Point(0, 0), Point(10, 5), Point(20, 0)]) == "M 0 0 L 10 5 L 20 0"
  {
    var path := [Point(0, 0), Point(10, 5), Point(20, 0)];
    ExampleCoords();
    assert path[0] == Point(0, 0) && path[1..] == [Point(10, 5), Point(20, 0)];
    ExampleSegments();
    assert "M " + "0 0" + " L 10 5 L 20 0" == "M 0 0 L 10 5 L 20 0";
  }

  lemma ExampleSegments()
    ensures Segments([Point(10, 5), Point(20, 0)]) == " L 10 5 L 20 0"
  {
    ExampleCoords();
    var ps := [Point(10, 5), Point(20, 0)];
    assert ps[0] == Point(10, 5) && ps[1..] == [Point(20, 0)];
    assert [Point(20, 0)][1..] == [];
    assert Segments([Point(20, 0)]) == " L " + "20 0" + "";
    assert " L " + "10 5" + " L 20 0" == " L 10 5 L 20 0";
  }

  lemma ExampleCoords()
    ensures Coord(Point(0, 0)) == "0 0"
    ensures Coord(Point(10, 5)) == "10 5"
    ensures Coord(Point(20, 0)) == "20 0"
  {
    assert NatToString(10) == NatToString(1) + [DigitChar(0)];
    assert NatToString(20) == NatToString(2) + [DigitChar(0)];
  }
}
