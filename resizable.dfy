/**
 * The drag-and-resize logic of `useResizable` (src/components/Notes.tsx:450-525):
 * the spring state holding a note's position and size, the drag handler that
 * either moves or resizes it, the starting offset of a drag and the bounds
 * handed to the gesture library.
 */
module Resizable {

  /** A resize narrower or lower than this is rejected by the drag handler. */
  const MinWidth := 220
  const MinHeight := 200
  /** The lower edge of the offset bounds while resizing. */
  const ResizeBoundMin := 50

  datatype Geom = Geom(x: int, y: int, width: int, height: int)

  /** `window.innerWidth` and `window.innerHeight`. */
  datatype Viewport = Viewport(width: int, height: int)

  /** The `{ top, left, right, bottom }` record for the gesture's offset. */
  datatype Bounds = Bounds(top: int, left: int, right: int, bottom: int)

  /** One event of the drag handler: its target, and the gesture's offset. */
  datatype DragEvent = DragEvent(resizing: bool, ox: int, oy: int)

  /** The offset `[ox, oy]` lies within the bounds. */
  predicate WithinBounds(b: Bounds, ox: int, oy: int)
  {
    b.left <= ox <= b.right && b.top <= oy <= b.bottom
  }

  /** The note's rectangle lies wholly inside the viewport. */
  predicate Inside(vp: Viewport, g: Geom)
  {
    0 <= g.x && 0 <= g.y && g.x + g.width <= vp.width && g.y + g.height <= vp.height
  }

  /** The note is at least as large as an accepted resize makes it. */
  predicate MinSize(g: Geom)
  {
    g.width >= MinWidth && g.height >= MinHeight
  }

  /**
   * The drag handler: on the resize handle the offset is a size, accepted
   * only when it is at least 220 by 200; elsewhere it is a position.
   */
  function DragStep(g: Geom, resizing: bool, ox: int, oy: int): (r: Geom)
    ensures resizing ==> r.x == g.x && r.y == g.y
    ensures resizing && (ox < MinWidth || oy < MinHeight) ==> r == g
    ensures resizing && ox >= MinWidth && oy >= MinHeight ==> r.width == ox && r.height == oy
    ensures !resizing ==> r.width == g.width && r.height == g.height && r.x == ox && r.y == oy
  {
    if resizing then
      if ox < MinWidth || oy < MinHeight then g else g.(width := ox, height := oy)
    else g.(x := ox, y := oy)
  }

  /** The `from` option: a drag starts at the current size or position. */
  function DragFrom(g: Geom, resizing: bool): (r: (int, int))
    ensures resizing ==> r.0 == g.width && r.1 == g.height
    ensures !resizing ==> r.0 == g.x && r.1 == g.y
  {
    if resizing then (g.width, g.height) else (g.x, g.y)
  }

  /** A drag that has not moved away from its starting offset changes nothing. */
  lemma DragFromIsNoop(g: Geom, resizing: bool)
    ensures DragStep(g, resizing, DragFrom(g, resizing).0, DragFrom(g, resizing).1) == g
  {
  }

  /**
   * The `bounds` option. For a move, an offset is within bounds exactly when
   * the note at that position lies inside the viewport; for a resize, a size
   * is within bounds exactly when it is at least 50 by 50 and the note's
   * right and bottom edges stay inside the viewport.
   */
  function DragBounds(resizing: bool, vp: Viewport, g: Geom): (b: Bounds)
    ensures !resizing ==> forall px, py ::
      WithinBounds(b, px, py) <==> Inside(vp, Geom(px, py, g.width, g.height))
    ensures resizing ==> forall w, h ::
      WithinBounds(b, w, h) <==>
        ResizeBoundMin <= w && ResizeBoundMin <= h &&
        g.x + w <= vp.width && g.y + h <= vp.height
  {
    if resizing then
      Bounds(ResizeBoundMin, ResizeBoundMin, vp.width - g.x, vp.height - g.y)
    else
      Bounds(0, 0, vp.width - g.width, vp.height - g.height)
  }

  /** A resize never shrinks a note below the accepted minimum, and a move keeps its size. */
  lemma DragKeepsMinSize(g: Geom, resizing: bool, ox: int, oy: int)
    requires MinSize(g)
    ensures MinSize(DragStep(g, resizing, ox, oy))
  {
  }

  /** A drag whose offset is within the bounds keeps an inside note inside. */
  lemma DragWithinBoundsStaysInside(vp: Viewport, g: Geom, resizing: bool, ox: int, oy: int)
    requires Inside(vp, g)
    requires WithinBounds(DragBounds(resizing, vp, g), ox, oy)
    ensures Inside(vp, DragStep(g, resizing, ox, oy))
  {
  }

  /** The geometry after a sequence of drag events. */
  ghost function ApplyDrags(g: Geom, events: seq<DragEvent>): Geom
    decreases |events|
  {
    if events == [] then g
    else ApplyDrags(DragStep(g, events[0].resizing, events[0].ox, events[0].oy), events[1..])
  }

  /** Every event of the sequence has an offset within the bounds computed at its start. */
  ghost predicate AllWithinBounds(vp: Viewport, g: Geom, events: seq<DragEvent>)
    decreases |events|
  {
    events == [] ||
    (WithinBounds(DragBounds(events[0].resizing, vp, g), events[0].ox, events[0].oy) &&
     AllWithinBounds(vp, DragStep(g, events[0].resizing, events[0].ox, events[0].oy), events[1..]))
  }

  /** However many drags happen, a note that starts at least 220 by 200 stays so. */
  lemma {:induction false} DragsKeepMinSize(g: Geom, events: seq<DragEvent>)
    requires MinSize(g)
    ensures MinSize(ApplyDrags(g, events))
    decreases |events|
  {
    if events != [] {
      var e := events[0];
      DragKeepsMinSize(g, e.resizing, e.ox, e.oy);
      DragsKeepMinSize(DragStep(g, e.resizing, e.ox, e.oy), events[1..]);
    }
  }

  /** When every offset is clamped into its bounds, the note never leaves the viewport. */
  lemma {:induction false} DragsStayInside(vp: Viewport, g: Geom, events: seq<DragEvent>)
    requires Inside(vp, g)
    requires AllWithinBounds(vp, g, events)
    ensures Inside(vp, ApplyDrags(g, events))
    decreases |events|
  {
    if events != [] {
      var e := events[0];
      DragWithinBoundsStaysInside(vp, g, e.resizing, e.ox, e.oy);
      DragsStayInside(vp, DragStep(g, e.resizing, e.ox, e.oy), events[1..]);
    }
  }

  /** The spring state of `useSpring`, which the drag handler sets in place. */
  class Spring {
    var x: int
    var y: int
    var width: int
    var height: int

    function Current(): Geom
      reads this
    {
      Geom(x, y, width, height)
    }

    /** `useSpring` seeded with the hook's arguments and their defaults. */
    constructor (x1: int := 0, y1: int := 0, w1: int := 220, h1: int := 220)
      ensures Current() == Geom(x1, y1, w1, h1)
    {
      x, y, width, height := x1, y1, w1, h1;
    }

    /** The drag handler's `api.set`. */
    method Drag(resizing: bool, ox: int, oy: int)
      modifies this
      ensures Current() == DragStep(old(Current()), resizing, ox, oy)
    {
      if resizing {
        if ox < MinWidth || oy < MinHeight {
          return;
        }
        width, height := ox, oy;
      } else {
        x, y := ox, oy;
      }
    }
  }
}
