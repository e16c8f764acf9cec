/**
 * The draggable floating widget (assets/js/index.js, initDraggableWidget).
 *
 * The handlers share closure state: a dragging flag, a sticky "moved" flag,
 * the pointer position and the widget's top-left at the start of the
 * gesture, the widget's left/top style and the persisted position. The
 * class Widget keeps that state in fields; the datatype Gesture is its
 * value, and Step says what each event does to it, so that properties of
 * whole gestures are lemmas about Run.
 *
 * Coordinates are whole pixels. A widget without a left/top style of its
 * own is placed by the stylesheet's right/bottom anchoring; where a handler
 * reads its rectangle in that case, the rectangle is a parameter.
 */
module DraggableWidget {
  import opened Wrappers

  /** A per-axis pointer travel above this many pixels makes the gesture a drag. */
  const MoveThreshold: int := 5

  datatype Position = Position(x: int, y: int)

  datatype Size = Size(width: nat, height: nat)

  /** Mouse events and touch events share the handlers; only touch ones are cancelled. */
  datatype InputKind = Mouse | Touch

  function Magnitude(n: int): nat
  {
    if n < 0 then -n else n
  }

  /** Whether the pointer at `to` is more than the threshold away from `from` on some axis. */
  predicate Exceeds(from: Position, to: Position)
  {
    Magnitude(to.x - from.x) > MoveThreshold || Magnitude(to.y - from.y) > MoveThreshold
  }

  /** `max(0, min(candidate, max))`: the clamp applied to each axis. */
  function Clamp(candidate: int, max: int): (r: int)
    ensures 0 <= r
    ensures 0 <= max ==> r <= max
    ensures max < 0 ==> r == 0
    ensures candidate < 0 ==> r == 0
    ensures 0 <= candidate <= max ==> r == candidate
    ensures 0 <= max < candidate ==> r == max
  {
    var upper := if candidate < max then candidate else max;
    if 0 < upper then upper else 0
  }

  /** The widget's rectangle lies wholly inside the viewport. */
  predicate Within(p: Position, viewport: Size, widget: Size)
  {
    0 <= p.x && p.x + widget.width <= viewport.width &&
    0 <= p.y && p.y + widget.height <= viewport.height
  }

  /** The unclamped top-left: the gesture's initial top-left moved by the pointer's travel. */
  function Candidate(initial: Position, start: Position, pointer: Position): Position
  {
    Position(initial.x + (pointer.x - start.x), initial.y + (pointer.y - start.y))
  }

  /**
   * The top-left a move sets: the candidate clamped on each axis to
   * [0, viewport - widget]. It never goes negative, it keeps a widget that
   * fits wholly inside the viewport, it pins an axis on which the widget is
   * larger than the viewport to 0, and it leaves a candidate that already
   * fits unchanged.
   */
  function DragTarget(initial: Position, start: Position, pointer: Position, viewport: Size, widget: Size): (p: Position)
    ensures 0 <= p.x && 0 <= p.y
    ensures widget.width <= viewport.width && widget.height <= viewport.height ==> Within(p, viewport, widget)
    ensures widget.width > viewport.width ==> p.x == 0
    ensures widget.height > viewport.height ==> p.y == 0
    ensures Within(Candidate(initial, start, pointer), viewport, widget) ==> p == Candidate(initial, start, pointer)
  {
    var c := Candidate(initial, start, pointer);
    Position(Clamp(c.x, viewport.width - widget.width), Clamp(c.y, viewport.height - widget.height))
  }

  /**
   * The handlers' shared state. `style` is the widget's own left/top, None
   * while the stylesheet's right/bottom anchoring places it; `stored` is
   * the local-storage entry under the key "llyli-widget-position".
   */
  datatype Gesture = Gesture(
    dragging: bool,
    moved: bool,
    start: Position,
    initial: Position,
    style: Option<Position>,
    stored: Option<Position>)

  /**
   * The inputs the handlers receive. `cssRect` is the rectangle the
   * stylesheet's anchoring gives the widget, read only when it has no
   * left/top style of its own.
   */
  datatype Event =
    | Press(kind: InputKind, pointer: Position, cssRect: Position)
    | Move(kind: InputKind, pointer: Position, viewport: Size, widget: Size)
    | Release
    | Click

  /** While a gesture is under way the widget has its own left/top. */
  predicate Valid(g: Gesture)
  {
    g.dragging ==> g.style.Some?
  }

  /** The top-left at which the widget is drawn. */
  function Rendered(g: Gesture, cssRect: Position): Position
  {
    match g.style
    case Some(p) => p
    case None => cssRect
  }

  /** The state on load: a stored position, when there is one, becomes the left/top style. */
  function Restore(stored: Option<Position>): (g: Gesture)
    ensures Valid(g) && !g.dragging && !g.moved
    ensures g.style == stored && g.stored == stored
  {
    Gesture(false, false, Position(0, 0), Position(0, 0), stored, stored)
  }

  /** What one event does to the state. */
  function Step(g: Gesture, e: Event): (r: Gesture)
    requires Valid(g)
    ensures Valid(r)
  {
    match e
    case Press(_, pointer, cssRect) =>
      var rect := Rendered(g, cssRect);
      g.(dragging := true, moved := false, start := pointer, initial := rect, style := Some(rect))
    case Move(_, pointer, viewport, widget) =>
      if !g.dragging then g
      else
        g.(moved := g.moved || Exceeds(g.start, pointer),
           style := Some(DragTarget(g.initial, g.start, pointer, viewport, widget)))
    case Release =>
      if !g.dragging then g
      else g.(dragging := false, stored := g.style)
    case Click =>
      if g.moved then g.(moved := false) else g
  }

  /**
   * Whether the handler for `e` cancels the event's default action. Outside
   * a gesture only a touch press and a click after a moved gesture cancel
   * anything; a release or a click is cancelled only when the moved flag
   * is set, and a click exactly then.
   */
  function Prevented(g: Gesture, e: Event): (r: bool)
    ensures (e.Release? || e.Click?) && r ==> g.moved
    ensures e.Click? ==> (r <==> g.moved)
    ensures !g.dragging && r ==> (e.Press? && e.kind == Touch) || (e.Click? && g.moved)
    ensures e.Press? ==> (r <==> e.kind == Touch)
  {
    match e
    case Press(kind, _, _) => kind == Touch
    case Move(kind, _, _, _) => g.dragging && kind == Touch
    case Release => g.dragging && g.moved
    case Click => g.moved
  }

  /** The state after a sequence of events. */
  function Run(g: Gesture, events: seq<Event>): (r: Gesture)
    requires Valid(g)
    ensures Valid(r)
    decreases |events|
  {
    if events == [] then g else Run(Step(g, events[0]), events[1..])
  }

  predicate AllMoves(events: seq<Event>)
  {
    forall i :: 0 <= i < |events| ==> events[i].Move?
  }

  lemma {:induction false} RunAppend(g: Gesture, a: seq<Event>, b: seq<Event>)
    requires Valid(g)
    ensures Run(g, a + b) == Run(Run(g, a), b)
    decreases |a|
  {
    if a == [] {
      assert a + b == b;
    } else {
      assert (a + b)[0] == a[0] && (a + b)[1..] == a[1..] + b;
      RunAppend(Step(g, a[0]), a[1..], b);
    }
  }

  /**
   * Pressing puts the widget in the dragging state with a cleared moved
   * flag, records the pointer and the widget's current top-left, and gives
   * the widget that top-left as its own left/top, so it does not move.
   */
  lemma PressKeepsWidgetInPlace(g: Gesture, kind: InputKind, pointer: Position, cssRect: Position)
    requires Valid(g)
    ensures var r := Step(g, Press(kind, pointer, cssRect));
      r.dragging && !r.moved && r.start == pointer &&
      r.initial == Rendered(g, cssRect) && Rendered(r, cssRect) == Rendered(g, cssRect) &&
      r.style.Some? && r.stored == g.stored
  {
  }

  /** Moves and releases outside a gesture change nothing. */
  lemma IdleIgnoresMoveAndRelease(g: Gesture, kind: InputKind, pointer: Position, viewport: Size, widget: Size)
    requires Valid(g) && !g.dragging
    ensures Step(g, Move(kind, pointer, viewport, widget)) == g
    ensures Step(g, Release) == g
    ensures !Prevented(g, Move(kind, pointer, viewport, widget)) && !Prevented(g, Release)
  {
  }

  /** The moved flag is cleared only by a press or by a click. */
  lemma MovedClearedOnlyByPressOrClick(g: Gesture, e: Event)
    requires Valid(g) && g.moved && !Step(g, e).moved
    ensures e.Press? || e.Click?
  {
  }

  /**
   * During a gesture, a run of moves keeps the gesture's start and initial
   * coordinates, and the moved flag ends up set exactly when it was set
   * before or some move went past the threshold: once set it stays set.
   */
  lemma {:induction false} MovedIffSomeMoveExceeds(g: Gesture, moves: seq<Event>)
    requires Valid(g) && g.dragging && AllMoves(moves)
    ensures var r := Run(g, moves);
      r.dragging && r.start == g.start && r.initial == g.initial && r.stored == g.stored &&
      (r.moved <==> g.moved || exists i :: 0 <= i < |moves| && Exceeds(g.start, moves[i].pointer))
    decreases |moves|
  {
    if moves != [] {
      var g' := Step(g, moves[0]);
      MovedIffSomeMoveExceeds(g', moves[1..]);
      var r := Run(g, moves);
      if r.moved && !g.moved && !Exceeds(g.start, moves[0].pointer) {
        var j :| 0 <= j < |moves[1..]| && Exceeds(g.start, moves[1..][j].pointer);
        assert Exceeds(g.start, moves[j + 1].pointer);
      }
      if exists i :: 0 <= i < |moves| && Exceeds(g.start, moves[i].pointer) {
        var i :| 0 <= i < |moves| && Exceeds(g.start, moves[i].pointer);
        if i > 0 {
          assert moves[1..][i - 1] == moves[i];
        }
      }
    }
  }

  /**
   * During a gesture, the widget's left/top after a non-empty run of moves
   * depends only on the last move: the position is computed from the
   * gesture's start, not from the previous move.
   */
  lemma {:induction false} PositionFollowsLastMove(g: Gesture, moves: seq<Event>)
    requires Valid(g) && g.dragging && AllMoves(moves) && moves != []
    ensures var last := moves[|moves| - 1];
      Run(g, moves).style == Some(DragTarget(g.initial, g.start, last.pointer, last.viewport, last.widget))
    decreases |moves|
  {
    var g' := Step(g, moves[0]);
    if |moves| > 1 {
      MovedIffSomeMoveExceeds(g', moves[1..]);
      PositionFollowsLastMove(g', moves[1..]);
      assert moves[1..][|moves[1..]| - 1] == moves[|moves| - 1];
    }
  }

  /**
   * A whole gesture: press, moves, release. The release ends the drag and
   * stores the final top-left (also after a gesture that never moved, in
   * which case the widget stays where it was drawn); the final top-left is
   * the clamped position of the last move. The release, and the click that
   * follows, are cancelled exactly when some move went more than the
   * threshold from the press, and that click clears the moved flag.
   */
  lemma GestureOutcome(g: Gesture, kind: InputKind, pointer: Position, cssRect: Position, moves: seq<Event>)
    requires Valid(g) && AllMoves(moves)
    ensures var pressed := Step(g, Press(kind, pointer, cssRect));
      var held := Run(pressed, moves);
      var r := Step(held, Release);
      r == Run(g, [Press(kind, pointer, cssRect)] + moves + [Release]) &&
      !r.dragging && r.style.Some? && r.stored == r.style &&
      (moves == [] ==> r.style == Some(Rendered(g, cssRect))) &&
      (moves != [] ==>
        var last := moves[|moves| - 1];
        r.style == Some(DragTarget(Rendered(g, cssRect), pointer, last.pointer, last.viewport, last.widget))) &&
      (Prevented(held, Release) <==> exists i :: 0 <= i < |moves| && Exceeds(pointer, moves[i].pointer)) &&
      (Prevented(r, Click) <==> Prevented(held, Release)) &&
      !Step(r, Click).moved
  {
    var press := Press(kind, pointer, cssRect);
    var pressed := Step(g, press);
    MovedIffSomeMoveExceeds(pressed, moves);
    if moves != [] {
      PositionFollowsLastMove(pressed, moves);
    }
    RunAppend(g, [press] + moves, [Release]);
    RunAppend(g, [press], moves);
    assert Run(g, [press]) == pressed by {
      assert [press][1..] == [];
    }
    assert Run(Run(g, [press] + moves), [Release]) == Step(Run(g, [press] + moves), Release) by {
      assert [Release][1..] == [];
    }
  }

  /**
   * Storing on release and restoring on load round-trip: a page loaded
   * after a gesture ends draws the widget at the left/top it was released
   * at, with the stylesheet's right/bottom anchoring cleared.
   */
  lemma ReloadRestoresReleasedPosition(g: Gesture)
    requires Valid(g) && g.dragging
    ensures var r := Step(g, Release);
      r.stored.Some? && Restore(r.stored).style == r.style && Restore(r.stored).stored == r.stored
  {
  }

  /** A 100x50 widget dragged by (+10000, +10000) in a 1920x1080 viewport stops at (1820, 1030). */
  lemma DragToCornerExample(initial: Position, start: Position)
    requires 0 <= initial.x && 0 <= initial.y
    ensures DragTarget(initial, start, Position(start.x + 10000, start.y + 10000), Size(1920, 1080), Size(100, 50))
      == Position(1820, 1030)
  {
  }

  /**
   * The widget element and its handlers. Each handler method does what
   * Step says its event does and returns whether it cancels the event.
   */
  class Widget {
    var isDragging: bool
    var hasMoved: bool
    /** Whether the element carries the 'is-dragging' class. */
    var draggingClass: bool
    var startX: int
    var startY: int
    var initialX: int
    var initialY: int
    /** True while the stylesheet's right/bottom anchoring places the widget (left/top 'auto'). */
    var anchored: bool
    var left: int
    var top: int
    /** The local-storage entry under the key "llyli-widget-position". */
    var stored: Option<Position>

    ghost predicate Valid()
      reads this
    {
      (isDragging ==> !anchored) && draggingClass == isDragging
    }

    function Model(): Gesture
      reads this
    {
      Gesture(isDragging, hasMoved, Position(startX, startY), Position(initialX, initialY),
              if anchored then None else Some(Position(left, top)), stored)
    }

    /** Set-up: a stored position, if any, replaces the right/bottom anchoring. */
    constructor (saved: Option<Position>)
      ensures Valid() && Model() == Restore(saved)
      ensures anchored <==> saved.None?
    {
      isDragging, hasMoved, draggingClass := false, false, false;
      startX, startY, initialX, initialY := 0, 0, 0, 0;
      stored := saved;
      match saved
      case Some(p) =>
        anchored, left, top := false, p.x, p.y;
      case None =>
        anchored, left, top := true, 0, 0;
    }

    method StartDrag(kind: InputKind, clientX: int, clientY: int, cssRect: Position) returns (preventDefault: bool)
      requires Valid()
      modifies this
      ensures Valid()
      ensures Model() == Step(old(Model()), Press(kind, Position(clientX, clientY), cssRect))
      ensures preventDefault == Prevented(old(Model()), Press(kind, Position(clientX, clientY), cssRect))
      ensures isDragging && !hasMoved && !anchored && left == initialX && top == initialY
    {
      isDragging := true;
      hasMoved := false;
      draggingClass := true;
      var rectX, rectY := left, top;
      if anchored {
        rectX, rectY := cssRect.x, cssRect.y;
      }
      startX, startY := clientX, clientY;
      initialX, initialY := rectX, rectY;
      anchored := false;
      left, top := initialX, initialY;
      preventDefault := kind == Touch;
    }

    method Drag(kind: InputKind, clientX: int, clientY: int, viewport: Size, widget: Size) returns (preventDefault: bool)
      requires Valid()
      modifies this
      ensures Valid()
      ensures Model() == Step(old(Model()), Move(kind, Position(clientX, clientY), viewport, widget))
      ensures preventDefault == Prevented(old(Model()), Move(kind, Position(clientX, clientY), viewport, widget))
    {
      if !isDragging {
        return false;
      }
      var deltaX := clientX - startX;
      var deltaY := clientY - startY;
      if Magnitude(deltaX) > MoveThreshold || Magnitude(deltaY) > MoveThreshold {
        hasMoved := true;
      }
      var newX := initialX + deltaX;
      var newY := initialY + deltaY;
      var maxX := viewport.width - widget.width;
      var maxY := viewport.height - widget.height;
      left := Clamp(newX, maxX);
      top := Clamp(newY, maxY);
      preventDefault := kind == Touch;
    }

    /** Returns whether the release is cancelled (preventDefault and stopPropagation). */
    method EndDrag() returns (prevented: bool)
      requires Valid()
      modifies this
      ensures Valid()
      ensures Model() == Step(old(Model()), Release)
      ensures prevented == Prevented(old(Model()), Release)
      ensures old(isDragging) ==> stored == Some(Position(left, top))
    {
      if !isDragging {
        return false;
      }
      isDragging := false;
      draggingClass := false;
      stored := Some(Position(left, top));
      prevented := hasMoved;
    }

    method OnClick() returns (preventDefault: bool)
      requires Valid()
      modifies this
      ensures Valid()
      ensures Model() == Step(old(Model()), Click)
      ensures preventDefault == Prevented(old(Model()), Click)
      ensures !hasMoved
    {
      preventDefault := false;
      if hasMoved {
        preventDefault := true;
        hasMoved := false;
      }
    }
  }
}
