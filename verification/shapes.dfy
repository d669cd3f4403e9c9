/** Geometry of the annotation canvas: canvas-local points, the rectangles
    the user commits, and the inclusive point-in-box test used by a click. */
module Shapes {

  /** A canvas-local position: the pointer's client coordinates minus the
      canvas's bounding-box origin. */
  datatype Point = Point(x: real, y: real)

  /** The two stroke colours a rectangle can carry: the brown default and
      the red highlight of a selected rectangle. */
  datatype Colour = Default | Selected

  /** Rectangle ids are strings produced by the id generator; nothing in the
      model assumes two rectangles have different ids. */
  type Id = string

  datatype Rectangle = Rectangle(
    startX: real,
    startY: real,
    width: real,
    height: real,
    id: Id,
    colour: Colour)

  function Min(a: real, b: real): (m: real)
    ensures m <= a && m <= b
    ensures m == a || m == b
  {
    if a <= b then a else b
  }

  function Abs(a: real): (r: real)
    ensures 0.0 <= r
    ensures r == a || r == -a
  {
    if a < 0.0 then -a else a
  }

  /** `v` lies between `u` and `w`, whichever of the two is smaller. */
  predicate Between(u: real, v: real, w: real)
  {
    (u <= v <= w) || (w <= v <= u)
  }

  /** The rectangle outlined by a drag from `anchor` to `pointer`: its edges
      are exactly the two dragged coordinates on each axis, with the smaller
      one as origin, so width and height are never negative. */
  function FromDrag(anchor: Point, pointer: Point, id: Id): (r: Rectangle)
    ensures 0.0 <= r.width && 0.0 <= r.height
    ensures {r.startX, r.startX + r.width} == {anchor.x, pointer.x}
    ensures {r.startY, r.startY + r.height} == {anchor.y, pointer.y}
    ensures r.id == id && r.colour == Default
  {
    Rectangle(
      Min(anchor.x, pointer.x),
      Min(anchor.y, pointer.y),
      Abs(pointer.x - anchor.x),
      Abs(pointer.y - anchor.y),
      id,
      Default)
  }

  /** Inclusive hit test: the point lies on or inside the rectangle's box. */
  predicate Contains(r: Rectangle, p: Point)
  {
    && r.startX <= p.x <= r.startX + r.width
    && r.startY <= p.y <= r.startY + r.height
  }

  /** Two rectangles agree on everything but their colour. */
  predicate SameShape(a: Rectangle, b: Rectangle)
  {
    && a.startX == b.startX
    && a.startY == b.startY
    && a.width == b.width
    && a.height == b.height
    && a.id == b.id
  }

  /** Two rectangle lists agree position by position on everything but colour. */
  predicate SameShapes(a: seq<Rectangle>, b: seq<Rectangle>)
  {
    && |a| == |b|
    && forall i :: 0 <= i < |a| ==> SameShape(a[i], b[i])
  }

  /** The drawn rectangle does not depend on the drag direction, along either
      diagonal. */
  lemma FromDragDirectionFree(anchor: Point, pointer: Point, id: Id)
    ensures FromDrag(anchor, pointer, id) == FromDrag(pointer, anchor, id)
    ensures FromDrag(anchor, pointer, id)
         == FromDrag(Point(anchor.x, pointer.y), Point(pointer.x, anchor.y), id)
  {
  }

  /** A point hits the drawn rectangle exactly when it lies between the two
      dragged corners on both axes; in particular both corners hit it. */
  lemma FromDragContains(anchor: Point, pointer: Point, id: Id, p: Point)
    ensures Contains(FromDrag(anchor, pointer, id), p)
        <==> Between(anchor.x, p.x, pointer.x) && Between(anchor.y, p.y, pointer.y)
    ensures Contains(FromDrag(anchor, pointer, id), anchor)
    ensures Contains(FromDrag(anchor, pointer, id), pointer)
  {
  }
}
