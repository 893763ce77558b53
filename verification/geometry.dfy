/**
 * The collaborators the shape layer relies on but does not define:
 * points, colours, the point transforms and the draw commands an image
 * receives.
 */
module Geometry {

  /** A 2-D point with integer coordinates (also used as a radius vector). */
  datatype Point = Point(x: int, y: int)

  /** Component-wise sum of two points, the vector addition of translations. */
  function Add(a: Point, b: Point): Point
  {
    Point(a.x + b.x, a.y + b.y)
  }

  /** An RGB colour; the shape layer only stores and copies it. */
  datatype Color = Color(r: int, g: int, b: int)

  /** The fill every group is constructed with and never uses. */
  const White: Color := Color(255, 255, 255)

  /**
   * The point helpers `point::translate`, `point::scale` and
   * `point::rotate`. Their code is not part of this model, so the shapes
   * are written against any three functions of these signatures:
   * translate(p, t), scale(p, origin, v), rotate(p, origin, degrees).
   */
  datatype PointOps = PointOps(
    translate: (Point, Point) -> Point,
    scale: (Point, Point, int) -> Point,
    rotate: (Point, Point, int) -> Point)

  /** One call of the shape transform interface, with its arguments. */
  datatype Transform =
    | Translate(t: Point)
    | Scale(origin: Point, v: int)
    | Rotate(origin: Point, degrees: int)

  /** The point helper that a transform forwards to, applied to `p`. */
  function ApplyToPoint(ops: PointOps, tr: Transform, p: Point): Point
  {
    match tr
    case Translate(t) => ops.translate(p, t)
    case Scale(origin, v) => ops.scale(p, origin, v)
    case Rotate(origin, degrees) => ops.rotate(p, origin, degrees)
  }

  /** The draw requests a `png_image` accepts, recorded instead of rasterised. */
  datatype Cmd =
    | EllipseCmd(center: Point, radius: Point, color: Color)
    | PolygonCmd(points: seq<Point>, color: Color)
    | LineCmd(from: Point, to: Point, color: Color)
}
