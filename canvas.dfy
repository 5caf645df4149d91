/** The drawing surface of src/components/DrawingCanvas.tsx: the pointer
    handlers `startDrawing`, `draw` and `stopDrawing` over the component state
    `isDrawing` and `lastPoint`, and the coordinate mapping `getEventPos`.
    The raster is abstracted as the log of drawing commands applied to it
    (`marks`), and each `onChange` call as a snapshot of the whole canvas. */
module Canvas {
  import opened Wrappers
  import opened Preprocess

  datatype Point = Point(x: real, y: real)

  /** `canvas.getBoundingClientRect()`: position and displayed size. */
  datatype Rect = Rect(left: real, top: real, width: real, height: real)

  /** A mouse event carries its client position; a touch event is read
      through `touches[0]`. */
  datatype PointerEvent = Mouse(client: Point) | Touch(first: Point)

  /** Drawing commands: the white fill of the mount effect, one stroked
      segment of `draw`, and the `clearRect` of the page's Clear button. */
  datatype Mark = WhiteFill | Segment(from: Point, to: Point) | ClearedRect

  /** The argument of one `onChange` call: the whole canvas, every mark so far. */
  datatype Snapshot = Snapshot(width: nat, height: nat, marks: seq<Mark>)

  datatype CanvasState = CanvasState(
    isDrawing: bool, lastPoint: Option<Point>, marks: seq<Mark>, snapshots: seq<Snapshot>)

  /** The logical size the mount effect sets, and the HTML default size a
      canvas keeps when that effect gives up for lack of a 2D context. */
  const LogicalSize: nat := 280
  const DefaultWidth: nat := 300
  const DefaultHeight: nat := 150

  function ClientPoint(e: PointerEvent): Point
  {
    match e
    case Mouse(p) => p
    case Touch(p) => p
  }

  /** `getEventPos`: client coordinates relative to the displayed box, scaled
      by logical size over displayed size. */
  function EventPos(e: PointerEvent, rect: Rect, width: nat, height: nat): Point
    requires rect.width > 0.0 && rect.height > 0.0
  {
    var p := ClientPoint(e);
    var scaleX := width as real / rect.width;
    var scaleY := height as real / rect.height;
    Point((p.x - rect.left) * scaleX, (p.y - rect.top) * scaleY)
  }

  /** Where on the screen a canvas position is displayed. */
  function ClientFromCanvas(q: Point, rect: Rect, width: nat, height: nat): Point
    requires width > 0 && height > 0
  {
    Point(rect.left + q.x * (rect.width / width as real), rect.top + q.y * (rect.height / height as real))
  }

  /** The mapping is the inverse of the display transform, so it loses
      nothing: mapping back gives the client point again. */
  lemma EventPosRoundTrip(e: PointerEvent, rect: Rect, width: nat, height: nat)
    requires rect.width > 0.0 && rect.height > 0.0 && width > 0 && height > 0
    ensures ClientFromCanvas(EventPos(e, rect, width, height), rect, width, height) == ClientPoint(e)
  {
    var p := ClientPoint(e);
    var w, h := width as real, height as real;
    assert (p.x - rect.left) * (w / rect.width) * (rect.width / w) == p.x - rect.left by {
      assert (w / rect.width) * (rect.width / w) == 1.0;
    }
    assert (p.y - rect.top) * (h / rect.height) * (rect.height / h) == p.y - rect.top by {
      assert (h / rect.height) * (rect.height / h) == 1.0;
    }
  }

  /** The left and top edges of the displayed box map to 0, the right and
      bottom edges to the logical width and height. */
  lemma EventPosEdges(rect: Rect, width: nat, height: nat)
    requires rect.width > 0.0 && rect.height > 0.0
    ensures EventPos(Mouse(Point(rect.left, rect.top)), rect, width, height) == Point(0.0, 0.0)
    ensures EventPos(Mouse(Point(rect.left + rect.width, rect.top + rect.height)), rect, width, height)
            == Point(width as real, height as real)
  {
  }

  /** `startDrawing`. */
  function Started(s: CanvasState, pos: Point): CanvasState
  {
    s.(isDrawing := true, lastPoint := Some(pos))
  }

  /** `draw`: nothing unless a stroke is under way and a context exists;
      otherwise stroke the segment from the last point and move on. */
  function Drawn(s: CanvasState, pos: Point, hasContext: bool): CanvasState
  {
    if !s.isDrawing || s.lastPoint.None? || !hasContext then s
    else s.(marks := s.marks + [Segment(s.lastPoint.value, pos)], lastPoint := Some(pos))
  }

  /** `stopDrawing`: nothing when no stroke is under way; otherwise end it and,
      when a context exists, emit one snapshot of the whole canvas. */
  function Stopped(s: CanvasState, hasContext: bool, width: nat, height: nat): CanvasState
  {
    if !s.isDrawing then s
    else s.(isDrawing := false, lastPoint := None,
            snapshots := if hasContext then s.snapshots + [Snapshot(width, height, s.marks)] else s.snapshots)
  }

  /** `clearRect` over the whole canvas, when a context exists. */
  function Wiped(s: CanvasState, hasContext: bool): CanvasState
  {
    if hasContext then s.(marks := s.marks + [ClearedRect]) else s
  }

  /** A stroke is under way exactly when a last point is recorded. */
  ghost predicate Consistent(s: CanvasState)
  {
    s.isDrawing <==> s.lastPoint.Some?
  }

  /** Some white fill has not been cleared since. */
  predicate WhitePaper(marks: seq<Mark>)
  {
    exists i :: 0 <= i < |marks| && marks[i] == WhiteFill && ClearedRect !in marks[i + 1..]
  }

  /** The colour (RGBA) of every pixel no segment covers: transparent black on
      a fresh canvas and after `clearRect`, white after the white fill. */
  function Background(marks: seq<Mark>): (px: seq<Byte>)
    ensures px == [0, 0, 0, 0] || px == [255, 255, 255, 255]
    ensures px == [255, 255, 255, 255] <==> WhitePaper(marks)
  {
    if |marks| == 0 then [0, 0, 0, 0]
    else match marks[|marks| - 1]
      case WhiteFill => [255, 255, 255, 255]
      case ClearedRect => [0, 0, 0, 0]
      case Segment(_, _) => Background(marks[..|marks| - 1])
  }

  /** Clear leaves no white paper behind: after `clearRect` the background is
      transparent black, whose intensity is 1 (ink), whereas the freshly
      mounted canvas has a white background, intensity 0. */
  lemma ClearLeavesInk(s: CanvasState)
    ensures var px := Background(Wiped(s, true).marks);
      px == [0, 0, 0, 0] && Intensity(px[0], px[1], px[2]) == 1.0
    ensures var px := Background([WhiteFill]);
      px == [255, 255, 255, 255] && Intensity(px[0], px[1], px[2]) == 0.0
  {
  }

  /** Pointer gestures in canvas coordinates: press (mouse down, touch
      start), move, release (mouse up, mouse leave, touch end). */
  datatype Gesture = Down(pos: Point) | Move(pos: Point) | Up

  function Step(s: CanvasState, g: Gesture, hasContext: bool, width: nat, height: nat): CanvasState
  {
    match g
    case Down(p) => Started(s, p)
    case Move(p) => Drawn(s, p, hasContext)
    case Up => Stopped(s, hasContext, width, height)
  }

  function Replay(s: CanvasState, gs: seq<Gesture>, hasContext: bool, width: nat, height: nat): CanvasState
    decreases |gs|
  {
    if gs == [] then s else Replay(Step(s, gs[0], hasContext, width, height), gs[1..], hasContext, width, height)
  }

  function Presses(gs: seq<Gesture>): nat
  {
    if gs == [] then 0 else (if gs[0].Down? then 1 else 0) + Presses(gs[1..])
  }

  function InStroke(s: CanvasState): nat { if s.isDrawing then 1 else 0 }

  /** Every gesture sequence keeps `isDrawing` and `lastPoint` in step. */
  lemma {:induction false} ReplayConsistent(s: CanvasState, gs: seq<Gesture>, hasContext: bool, width: nat, height: nat)
    requires Consistent(s)
    ensures Consistent(Replay(s, gs, hasContext, width, height))
    decreases |gs|
  {
    if gs != [] {
      ReplayConsistent(Step(s, gs[0], hasContext, width, height), gs[1..], hasContext, width, height);
    }
  }

  /** At most one `onChange` per stroke: snapshots emitted, plus the stroke
      still open, never exceed the presses (and the stroke open at the start). */
  lemma {:induction false} OneSnapshotPerStroke(s: CanvasState, gs: seq<Gesture>, hasContext: bool, width: nat, height: nat)
    ensures var t := Replay(s, gs, hasContext, width, height);
      |t.snapshots| + InStroke(t) <= |s.snapshots| + InStroke(s) + Presses(gs)
    ensures |s.snapshots| <= |Replay(s, gs, hasContext, width, height).snapshots|
    decreases |gs|
  {
    if gs != [] {
      OneSnapshotPerStroke(Step(s, gs[0], hasContext, width, height), gs[1..], hasContext, width, height);
    }
  }

  /** The segments a stroke through `p, q0, q1, ...` strokes, in order. */
  function Polyline(p: Point, qs: seq<Point>): seq<Mark>
    decreases |qs|
  {
    if qs == [] then [] else [Segment(p, qs[0])] + Polyline(qs[0], qs[1..])
  }

  function LastOf(p: Point, qs: seq<Point>): Point
  {
    if qs == [] then p else qs[|qs| - 1]
  }

  /** Consecutive segments of a stroke chain end to start: the first starts at
      the press point, segment k ends at move k, and each starts where the
      previous one ended. */
  lemma {:induction false} PolylineChains(p: Point, qs: seq<Point>)
    ensures var m := Polyline(p, qs);
      && |m| == |qs|
      && (forall k :: 0 <= k < |m| ==> m[k].Segment? && m[k].to == qs[k])
      && (|m| > 0 ==> m[0].from == p)
      && (forall k :: 0 < k < |m| ==> m[k].from == m[k - 1].to)
    decreases |qs|
  {
    if qs != [] {
      PolylineChains(qs[0], qs[1..]);
    }
  }

  function Moves(qs: seq<Point>): (gs: seq<Gesture>)
    ensures |gs| == |qs|
  {
    if qs == [] then [] else [Move(qs[0])] + Moves(qs[1..])
  }

  /** Moving during a stroke appends that stroke's polyline and leaves the
      last point at the last move. */
  lemma {:induction false} MovesDraw(s: CanvasState, qs: seq<Point>, width: nat, height: nat)
    requires s.isDrawing && s.lastPoint.Some?
    ensures Replay(s, Moves(qs), true, width, height)
      == s.(marks := s.marks + Polyline(s.lastPoint.value, qs), lastPoint := Some(LastOf(s.lastPoint.value, qs)))
    decreases |qs|
  {
    if qs != [] {
      var gs := Moves(qs);
      var t := Drawn(s, qs[0], true);
      assert gs[0] == Move(qs[0]) && gs[1..] == Moves(qs[1..]);
      assert Step(s, gs[0], true, width, height) == t;
      assert Replay(s, gs, true, width, height) == Replay(t, Moves(qs[1..]), true, width, height);
      assert t.isDrawing && t.lastPoint == Some(qs[0]);
      assert t.marks == s.marks + [Segment(s.lastPoint.value, qs[0])];
      MovesDraw(t, qs[1..], width, height);
      assert Polyline(s.lastPoint.value, qs) == [Segment(s.lastPoint.value, qs[0])] + Polyline(qs[0], qs[1..]);
      assert t.marks + Polyline(qs[0], qs[1..]) == s.marks + Polyline(s.lastPoint.value, qs);
      assert LastOf(qs[0], qs[1..]) == LastOf(s.lastPoint.value, qs) by {
        if qs[1..] != [] {
          assert qs[1..][|qs[1..]| - 1] == qs[|qs| - 1];
        }
      }
    }
  }

  lemma {:induction false} ReplayAppend(s: CanvasState, a: seq<Gesture>, b: seq<Gesture>, hasContext: bool, width: nat, height: nat)
    ensures Replay(s, a + b, hasContext, width, height)
      == Replay(Replay(s, a, hasContext, width, height), b, hasContext, width, height)
    decreases |a|
  {
    if a == [] {
      assert a + b == b;
    } else {
      assert (a + b)[1..] == a[1..] + b;
      ReplayAppend(Step(s, a[0], hasContext, width, height), a[1..], b, hasContext, width, height);
    }
  }

  /** A whole stroke (press, moves, release) on a canvas with a context draws
      the polyline and emits exactly one snapshot, which holds every mark on
      the canvas, the new stroke included. */
  lemma StrokeSnapshot(s: CanvasState, p: Point, qs: seq<Point>, width: nat, height: nat)
    requires !s.isDrawing
    ensures var t := Replay(s, [Down(p)] + Moves(qs) + [Up], true, width, height);
      var drawn := s.marks + Polyline(p, qs);
      && t.marks == drawn
      && t.snapshots == s.snapshots + [Snapshot(width, height, drawn)]
      && !t.isDrawing && t.lastPoint.None?
  {
    var gs := [Down(p)] + Moves(qs) + [Up];
    ReplayAppend(s, [Down(p)] + Moves(qs), [Up], true, width, height);
    ReplayAppend(s, [Down(p)], Moves(qs), true, width, height);
    assert Replay(s, [Down(p)], true, width, height) == Started(s, p);
    MovesDraw(Started(s, p), qs, width, height);
  }

  /** Strokes paint over the background but never change it. */
  lemma {:induction false} PolylineKeepsBackground(m: seq<Mark>, p: Point, qs: seq<Point>)
    ensures Background(m + Polyline(p, qs)) == Background(m)
    decreases |qs|
  {
    if qs == [] {
      assert m + Polyline(p, qs) == m;
    } else {
      var m' := m + [Segment(p, qs[0])];
      assert m + Polyline(p, qs) == m' + Polyline(qs[0], qs[1..]);
      PolylineKeepsBackground(m', qs[0], qs[1..]);
      assert m'[..|m'| - 1] == m && m'[|m'| - 1].Segment?;
    }
  }

  /** The snapshot a stroke emits shows the background it started on: white
      paper on the mounted canvas, and transparent black (intensity 1, ink)
      for the first stroke after Clear. */
  lemma StrokeBackground(s: CanvasState, p: Point, qs: seq<Point>, width: nat, height: nat)
    requires !s.isDrawing
    ensures var t := Replay(s, [Down(p)] + Moves(qs) + [Up], true, width, height);
      |t.snapshots| > 0 && Background(t.snapshots[|t.snapshots| - 1].marks) == Background(s.marks)
    ensures var t := Replay(Wiped(s, true), [Down(p)] + Moves(qs) + [Up], true, width, height);
      && |t.snapshots| > 0
      && var px := Background(t.snapshots[|t.snapshots| - 1].marks);
         px == [0, 0, 0, 0] && Intensity(px[0], px[1], px[2]) == 1.0
  {
    StrokeSnapshot(s, p, qs, width, height);
    PolylineKeepsBackground(s.marks, p, qs);
    var w := Wiped(s, true);
    StrokeSnapshot(w, p, qs, width, height);
    PolylineKeepsBackground(w.marks, p, qs);
    assert w.marks[..|w.marks| - 1] == s.marks;
  }

  /** The component: its two state cells, the canvas it owns, and the
      `onChange` calls it has made. */
  class DrawingCanvas {
    const hasContext: bool
    const width: nat
    const height: nat
    var isDrawing: bool
    var lastPoint: Option<Point>
    var marks: seq<Mark>
    var snapshots: seq<Snapshot>

    function State(): CanvasState
      reads this
    {
      CanvasState(isDrawing, lastPoint, marks, snapshots)
    }

    ghost predicate Valid()
      reads this
    {
      && Consistent(State())
      && width == (if hasContext then LogicalSize else DefaultWidth)
      && height == (if hasContext then LogicalSize else DefaultHeight)
    }

    /** Mounting: with a context the canvas is sized 280 x 280 and painted white. */
    constructor (hasContext: bool)
      ensures Valid() && this.hasContext == hasContext
      ensures State() == CanvasState(false, None, if hasContext then [WhiteFill] else [], [])
    {
      this.hasContext := hasContext;
      width := if hasContext then LogicalSize else DefaultWidth;
      height := if hasContext then LogicalSize else DefaultHeight;
      isDrawing := false;
      lastPoint := None;
      marks := if hasContext then [WhiteFill] else [];
      snapshots := [];
    }

    method StartDrawing(e: PointerEvent, rect: Rect)
      requires Valid() && rect.width > 0.0 && rect.height > 0.0
      modifies this
      ensures Valid()
      ensures State() == Started(old(State()), EventPos(e, rect, width, height))
    {
      isDrawing := true;
      var pos := EventPos(e, rect, width, height);
      lastPoint := Some(pos);
    }

    method Draw(e: PointerEvent, rect: Rect)
      requires Valid() && rect.width > 0.0 && rect.height > 0.0
      modifies this
      ensures Valid()
      ensures State() == Drawn(old(State()), EventPos(e, rect, width, height), hasContext)
    {
      if !isDrawing || lastPoint.None? {
        return;
      }
      if !hasContext {
        return;
      }
      var currentPoint := EventPos(e, rect, width, height);
      marks := marks + [Segment(lastPoint.value, currentPoint)];
      lastPoint := Some(currentPoint);
    }

    method StopDrawing()
      requires Valid()
      modifies this
      ensures Valid()
      ensures State() == Stopped(old(State()), hasContext, width, height)
    {
      if !isDrawing {
        return;
      }
      isDrawing := false;
      lastPoint := None;
      if !hasContext {
        return;
      }
      snapshots := snapshots + [Snapshot(width, height, marks)];
    }

    /** `ctx.clearRect(0, 0, canvas.width, canvas.height)`, called by the page. */
    method ClearRect()
      requires Valid()
      modifies this
      ensures Valid()
      ensures State() == Wiped(old(State()), hasContext)
    {
      if hasContext {
        marks := marks + [ClearedRect];
      }
    }
  }
}
