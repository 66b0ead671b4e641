/** What each event handler of the drawing page does, as a function from the controller's
    state to its new state and the context calls it makes. The class in module
    DrawingController runs the same handlers step by step and is proved against these. */
module Drawing {
  import opened Canvas
  import opened SnapshotHistory

  /** One history entry: the captured canvas and the pointer offset current at the save. */
  datatype Snapshot = Snapshot(image: ImageData, x: int, y: int)

  /** The page's mutable variables: the pointer flags, the mode string and the history. */
  datatype State = State(isDrawing: bool, isErasing: bool, shape: string, history: History<Snapshot>)

  /** A handler's effect: the state it leaves and the context calls it made, in order. */
  datatype Step = Step(state: State, commands: seq<Command>)

  /** Side of the square the eraser clears, centred on the pointer. */
  const EraserSide: int := 10

  function Sq(n: int): int { n * n }

  /** The page at load: not drawing, eraser off, freehand mode, one snapshot saved. */
  function Start(image: ImageData, x: int, y: int): (s: State)
    ensures !s.isDrawing && !s.isErasing && s.shape == "line"
    ensures Valid(s.history) && s.history.entries == [Snapshot(image, x, y)]
  {
    State(false, false, "line", Save(Empty(), Snapshot(image, x, y)))
  }

  /** mousedown, in every mode: start drawing and open a path at the pointer. */
  function MouseDown(s: State, x: int, y: int): (r: Step)
    ensures r.state.isDrawing
    ensures r.state == s.(isDrawing := true)
    ensures r.commands == [BeginPath, MoveTo(x, y)]
  {
    Step(s.(isDrawing := true), [BeginPath, MoveTo(x, y)])
  }

  /** The eraser's square: EraserSide wide and high, centred on (x, y). */
  predicate ErasesAround(c: Command, x: int, y: int)
  {
    && c.ClearRect?
    && c.w == EraserSide && c.h == EraserSide
    && c.x + EraserSide / 2 == x && c.y + EraserSide / 2 == y
  }

  /** draw: nothing unless drawing; then erase around the pointer or extend the stroke to it. */
  function Draw(s: State, x: int, y: int): (cmds: seq<Command>)
    ensures cmds == [] <==> !s.isDrawing
    ensures s.isDrawing && s.isErasing ==> |cmds| == 1 && ErasesAround(cmds[0], x, y)
    ensures s.isDrawing && !s.isErasing ==> cmds == [LineTo(x, y), Stroke]
  {
    if !s.isDrawing then []
    else if s.isErasing then [ClearRect(x - 5, y - 5, 10, 10)]
    else [LineTo(x, y), Stroke]
  }

  /** The rectangle has one corner at the anchor and the opposite one at the pointer. */
  predicate SpansAnchorToPointer(c: Command, ax: int, ay: int, x: int, y: int)
  {
    && c.StrokeRect?
    && c.x == ax && c.y == ay
    && c.x + c.w == x && c.y + c.h == y
  }

  /** The circle is centred on the anchor and passes through the pointer. */
  predicate CentredThroughPointer(c: Command, ax: int, ay: int, x: int, y: int)
  {
    && c.Arc?
    && c.cx == ax && c.cy == ay
    && c.radiusSquared == Sq(x - c.cx) + Sq(y - c.cy)
  }

  /** The switch on the mode string in drawShape, from the anchor (ax, ay) to the pointer. */
  function Outline(shape: string, ax: int, ay: int, x: int, y: int): (cmds: seq<Command>)
    ensures shape == "rect" ==> |cmds| == 1 && SpansAnchorToPointer(cmds[0], ax, ay, x, y)
    ensures shape == "circle" ==>
      |cmds| == 3 && cmds[0] == BeginPath && CentredThroughPointer(cmds[1], ax, ay, x, y) && cmds[2] == Stroke
    ensures shape != "rect" && shape != "circle" ==> cmds == []
  {
    var width := x - ax;
    var height := y - ay;
    if shape == "rect" then [StrokeRect(ax, ay, width, height)]
    else if shape == "circle" then [BeginPath, Arc(ax, ay, width * width + height * height), Stroke]
    else []
  }

  /** drawShape: nothing unless drawing; the anchor is the snapshot under the cursor. */
  function DrawShape(s: State, x: int, y: int): (cmds: seq<Command>)
    requires s.isDrawing ==> Valid(s.history)
    ensures !s.isDrawing ==> cmds == []
    ensures s.isDrawing ==>
      var top := Current(s.history);
      cmds == Outline(s.shape, top.x, top.y, x, y)
  {
    if !s.isDrawing then []
    else
      var top := Current(s.history);
      Outline(s.shape, top.x, top.y, x, y)
  }

  /** mousemove: freehand mode draws; any other mode, while drawing, restores the snapshot
      under the cursor and outlines the shape over it. A move never changes the state. */
  function MouseMove(s: State, x: int, y: int): (r: Step)
    requires s.isDrawing && s.shape != "line" ==> Valid(s.history)
    ensures r.state == s
    ensures !s.isDrawing ==> r.commands == []
    ensures s.shape == "line" ==> r.commands == Draw(s, x, y)
    ensures s.isDrawing && s.shape != "line" ==>
      var top := Current(s.history);
      |r.commands| >= 1 && r.commands[0] == PutImageData(top.image)
      && r.commands[1..] == Outline(s.shape, top.x, top.y, x, y)
    ensures forall c :: c in r.commands && c.ClearRect? ==> s.shape == "line" && s.isErasing
  {
    if s.shape == "line" then
      Step(s, Draw(s, x, y))
    else if s.isDrawing then
      Step(s, [PutImageData(Current(s.history).image)] + DrawShape(s, x, y))
    else
      Step(s, [])
  }

  /** endDrawing (both mouseup and mouseout): stop drawing and save one snapshot,
      whether or not a press came first. */
  function EndDrawing(s: State, image: ImageData, x: int, y: int): (r: Step)
    requires WellFormed(s.history)
    ensures !r.state.isDrawing
    ensures r.state.isErasing == s.isErasing && r.state.shape == s.shape
    ensures r.state.history == Save(s.history, Snapshot(image, x, y))
    ensures Valid(s.history) ==>
      Valid(r.state.history) && Current(r.state.history) == Snapshot(image, x, y)
      && |r.state.history.entries| == s.history.index + 2
    ensures r.commands == []
  {
    Step(s.(isDrawing := false, history := Save(s.history, Snapshot(image, x, y))), [])
  }

  /** The eraser button flips the eraser flag and nothing else. */
  function ToggleEraser(s: State): (r: Step)
    ensures r.state.isErasing != s.isErasing
    ensures r.state.(isErasing := s.isErasing) == s
    ensures r.commands == []
  {
    Step(s.(isErasing := !s.isErasing), [])
  }

  /** The shape selector stores its value as the mode and changes nothing else. */
  function SelectShape(s: State, value: string): (r: Step)
    ensures r.state.shape == value
    ensures r.state.(shape := s.shape) == s
    ensures r.commands == []
  {
    Step(s.(shape := value), [])
  }

  /** The clear button wipes the whole canvas, then saves one snapshot. */
  function Clear(s: State, canvasWidth: nat, canvasHeight: nat, image: ImageData, x: int, y: int): (r: Step)
    requires WellFormed(s.history)
    ensures r.commands == [ClearRect(0, 0, canvasWidth, canvasHeight)]
    ensures r.state == s.(history := Save(s.history, Snapshot(image, x, y)))
  {
    Step(s.(history := Save(s.history, Snapshot(image, x, y))), [ClearRect(0, 0, canvasWidth, canvasHeight)])
  }

  /** A loaded image file is drawn at the origin, then one snapshot is saved. */
  function ImageLoaded(s: State, picture: ImageData, image: ImageData, x: int, y: int): (r: Step)
    requires WellFormed(s.history)
    ensures r.commands == [DrawImage(picture)]
    ensures r.state == s.(history := Save(s.history, Snapshot(image, x, y)))
  {
    Step(s.(history := Save(s.history, Snapshot(image, x, y))), [DrawImage(picture)])
  }

  /** undo: when the cursor can move back, move it and repaint the snapshot now under it. */
  function UndoStep(s: State): (r: Step)
    requires WellFormed(s.history)
    ensures r.state == s.(history := Undo(s.history))
    ensures s.history.index > 0 ==> r.commands == [PutImageData(s.history.entries[s.history.index - 1].image)]
    ensures s.history.index <= 0 ==> r == Step(s, [])
  {
    var h := Undo(s.history);
    Step(s.(history := h), if s.history.index > 0 then [PutImageData(Current(h).image)] else [])
  }

  /** redo: when the cursor can move forward, move it and repaint the snapshot now under it. */
  function RedoStep(s: State): (r: Step)
    requires WellFormed(s.history)
    ensures r.state == s.(history := Redo(s.history))
    ensures s.history.index < |s.history.entries| - 1 ==>
      r.commands == [PutImageData(s.history.entries[s.history.index + 1].image)]
    ensures s.history.index >= |s.history.entries| - 1 ==> r == Step(s, [])
  {
    var h := Redo(s.history);
    Step(s.(history := h), if s.history.index < |s.history.entries| - 1 then [PutImageData(Current(h).image)] else [])
  }

  /** Everything that reaches the controller. `Release` is mouseup or mouseout; the
      saves carry the captured canvas and the offsets of the event current at the save. */
  datatype Event =
    | Press(x: int, y: int)
    | Move(x: int, y: int)
    | Release(image: ImageData, x: int, y: int)
    | EraserClick
    | ShapeChange(value: string)
    | ClearClick(image: ImageData, x: int, y: int)
    | ImageLoad(picture: ImageData, image: ImageData, x: int, y: int)
    | UndoClick
    | RedoClick

  function Handle(s: State, e: Event, canvasWidth: nat, canvasHeight: nat): (r: Step)
    requires Valid(s.history)
    ensures Valid(r.state.history)
  {
    match e
    case Press(x, y) => MouseDown(s, x, y)
    case Move(x, y) => MouseMove(s, x, y)
    case Release(image, x, y) => EndDrawing(s, image, x, y)
    case EraserClick => ToggleEraser(s)
    case ShapeChange(value) => SelectShape(s, value)
    case ClearClick(image, x, y) => Clear(s, canvasWidth, canvasHeight, image, x, y)
    case ImageLoad(picture, image, x, y) => ImageLoaded(s, picture, image, x, y)
    case UndoClick => UndoStep(s)
    case RedoClick => RedoStep(s)
  }

  /** The events in order; the context calls accumulate. Whatever arrives, the history
      cursor stays on an entry, so every shape preview finds its anchor. */
  function Replay(s: State, events: seq<Event>, canvasWidth: nat, canvasHeight: nat): (r: Step)
    requires Valid(s.history)
    ensures Valid(r.state.history)
    decreases |events|
  {
    if events == [] then Step(s, [])
    else
      var first := Handle(s, events[0], canvasWidth, canvasHeight);
      var rest := Replay(first.state, events[1..], canvasWidth, canvasHeight);
      Step(rest.state, first.commands + rest.commands)
  }

  lemma {:induction false} ReplayAppend(s: State, e1: seq<Event>, e2: seq<Event>, w: nat, h: nat)
    requires Valid(s.history)
    ensures var mid := Replay(s, e1, w, h);
            var last := Replay(mid.state, e2, w, h);
            Replay(s, e1 + e2, w, h) == Step(last.state, mid.commands + last.commands)
    decreases |e1|
  {
    if e1 == [] {
      assert e1 + e2 == e2;
    } else {
      var first := Handle(s, e1[0], w, h);
      var tail := Replay(first.state, e1[1..], w, h);
      var last := Replay(tail.state, e2, w, h);
      assert (e1 + e2)[0] == e1[0];
      assert (e1 + e2)[1..] == e1[1..] + e2;
      ReplayAppend(first.state, e1[1..], e2, w, h);
      calc {
        Replay(s, e1 + e2, w, h);
        Step(Replay(first.state, e1[1..] + e2, w, h).state,
             first.commands + Replay(first.state, e1[1..] + e2, w, h).commands);
        Step(last.state, first.commands + (tail.commands + last.commands));
        { assert first.commands + (tail.commands + last.commands)
              == (first.commands + tail.commands) + last.commands; }
        Step(last.state, Replay(s, e1, w, h).commands + last.commands);
      }
    }
  }

  datatype Point = Point(x: int, y: int)

  function Moves(points: seq<Point>): seq<Event>
  {
    if points == [] then [] else [Move(points[0].x, points[0].y)] + Moves(points[1..])
  }

  /** The freehand stroke through the given points: one segment per point. */
  function Segments(points: seq<Point>): seq<Command>
  {
    if points == [] then [] else [LineTo(points[0].x, points[0].y), Stroke] + Segments(points[1..])
  }

  /** Moves with no press before them draw nothing and change nothing. */
  lemma {:induction false} IdleMovesAreSilent(s: State, points: seq<Point>, w: nat, h: nat)
    requires Valid(s.history) && !s.isDrawing
    ensures Replay(s, Moves(points), w, h) == Step(s, [])
    decreases |points|
  {
    if points != [] {
      IdleMovesAreSilent(s, points[1..], w, h);
    }
  }

  /** In freehand mode, while drawing, each move extends the stroke to its point. */
  lemma {:induction false} FreehandMovesDraw(s: State, points: seq<Point>, w: nat, h: nat)
    requires Valid(s.history) && s.isDrawing && s.shape == "line" && !s.isErasing
    ensures Replay(s, Moves(points), w, h) == Step(s, Segments(points))
    decreases |points|
  {
    if points != [] {
      FreehandMovesDraw(s, points[1..], w, h);
    }
  }

  /** A freehand stroke, press then any number of moves then release, opens one path,
      draws one segment per move and saves exactly one snapshot. */
  lemma FreehandStroke(s: State, a: Point, points: seq<Point>, image: ImageData, b: Point, w: nat, h: nat)
    requires Valid(s.history) && s.shape == "line" && !s.isErasing
    ensures var r := Replay(s, [Press(a.x, a.y)] + Moves(points) + [Release(image, b.x, b.y)], w, h);
            && r.state == s.(isDrawing := false, history := Save(s.history, Snapshot(image, b.x, b.y)))
            && r.commands == [BeginPath, MoveTo(a.x, a.y)] + Segments(points)
  {
    var press := [Press(a.x, a.y)];
    var release := [Release(image, b.x, b.y)];
    var down := s.(isDrawing := true);
    assert Replay(s, press, w, h) == Step(down, [BeginPath, MoveTo(a.x, a.y)]);
    FreehandMovesDraw(down, points, w, h);
    ReplayAppend(s, press, Moves(points), w, h);
    assert Replay(down, release, w, h) == Step(EndDrawing(down, image, b.x, b.y).state, []);
    ReplayAppend(s, press + Moves(points), release, w, h);
  }

  /** The rectangle from anchor (50, 50) to pointer (10, 10) has negative width and height. */
  lemma RectangleDraggedUpLeft()
    ensures Outline("rect", 50, 50, 10, 10) == [StrokeRect(50, 50, -40, -40)]
  {
  }

  /** The circle from anchor (0, 0) to pointer (10, 0) is centred on the anchor with radius 10. */
  lemma CircleCentredOnAnchor()
    ensures Outline("circle", 0, 0, 10, 0) == [BeginPath, Arc(0, 0, 100), Stroke]
  {
  }
}
