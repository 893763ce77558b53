/**
 * The raster image shapes draw onto. Rasterisation is not part of this
 * model: each draw call appends the request it received to `trace`.
 */
module Canvas {
  import opened Geometry

  class Image {
    /** Every draw request received so far, oldest first. */
    var trace: seq<Cmd>

    constructor ()
      ensures trace == []
    {
      trace := [];
    }

    method DrawEllipse(center: Point, radius: Point, color: Color)
      modifies this
      ensures trace == old(trace) + [EllipseCmd(center, radius, color)]
    {
      trace := trace + [EllipseCmd(center, radius, color)];
    }

    method DrawPolygon(points: seq<Point>, color: Color)
      modifies this
      ensures trace == old(trace) + [PolygonCmd(points, color)]
    {
      trace := trace + [PolygonCmd(points, color)];
    }

    method DrawLine(from: Point, to: Point, color: Color)
      modifies this
      ensures trace == old(trace) + [LineCmd(from, to, color)]
    {
      trace := trace + [LineCmd(from, to, color)];
    }
  }
}
