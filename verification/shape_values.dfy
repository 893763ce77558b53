/**
 * The value of a shape tree, and what drawing and transforming it mean.
 * The objects in module Elements are specified by these functions: each
 * object has a `Model()` of type ShapeValue, and each of its operations is
 * stated as a function of the old model.
 */
module ShapeValues {
  import opened Geometry

  /** The four shape variants; a group holds its children in drawing order. */
  datatype ShapeValue =
    | Ellipse(fill: Color, center: Point, radius: Point)
    | Polygon(fill: Color, points: seq<Point>)
    | Polyline(fill: Color, points: seq<Point>)
    | Group(fill: Color, children: seq<ShapeValue>)

  /**
   * `r` has the same variant and fill as `s` at every node of the tree,
   * the same number of points at every polygon and polyline, and the same
   * number of children at every group.
   */
  ghost predicate SameLayout(s: ShapeValue, r: ShapeValue)
  {
    match s
    case Ellipse(fill, _, _) => r.Ellipse? && r.fill == fill
    case Polygon(fill, ps) => r.Polygon? && r.fill == fill && |r.points| == |ps|
    case Polyline(fill, ps) => r.Polyline? && r.fill == fill && |r.points| == |ps|
    case Group(fill, cs) =>
      r.Group? && r.fill == fill && |r.children| == |cs| &&
      forall i :: 0 <= i < |cs| ==> SameLayout(cs[i], r.children[i])
  }

  // ---------------------------------------------------------------------
  // Transforms

  /** Every point of `ps` moved by `tr`, in the same order. */
  function MapPoints(ops: PointOps, tr: Transform, ps: seq<Point>): (r: seq<Point>)
    ensures |r| == |ps|
    ensures forall i :: 0 <= i < |ps| ==> r[i] == ApplyToPoint(ops, tr, ps[i])
  {
    if ps == [] then []
    else MapPoints(ops, tr, ps[..|ps| - 1]) + [ApplyToPoint(ops, tr, ps[|ps| - 1])]
  }

  /**
   * The shape after one transform call. An ellipse moves its center with
   * the point helper; only a scale touches the radius, multiplying both
   * components by the factor. Polygons and polylines move every point. A
   * group transforms every child with the same arguments.
   */
  function Transformed(ops: PointOps, s: ShapeValue, tr: Transform): (r: ShapeValue)
    decreases s
    ensures r.fill == s.fill
    ensures s.Ellipse? ==> r.Ellipse? && r.center == ApplyToPoint(ops, tr, s.center)
    ensures s.Ellipse? && (tr.Translate? || tr.Rotate? || (tr.Scale? && tr.v == 1)) ==>
      r.radius == s.radius
  {
    match s
    case Ellipse(fill, center, radius) =>
      var radius' := if tr.Scale? then Point(radius.x * tr.v, radius.y * tr.v) else radius;
      Ellipse(fill, ApplyToPoint(ops, tr, center), radius')
    case Polygon(fill, ps) => Polygon(fill, MapPoints(ops, tr, ps))
    case Polyline(fill, ps) => Polyline(fill, MapPoints(ops, tr, ps))
    case Group(fill, cs) => Group(fill, TransformedAll(ops, cs, tr))
  }

  /** Every shape of `cs` transformed, in the same order. */
  function TransformedAll(ops: PointOps, cs: seq<ShapeValue>, tr: Transform): (rs: seq<ShapeValue>)
    decreases cs
    ensures |rs| == |cs|
    ensures forall i :: 0 <= i < |cs| ==> rs[i] == Transformed(ops, cs[i], tr)
  {
    if cs == [] then []
    else TransformedAll(ops, cs[..|cs| - 1], tr) + [Transformed(ops, cs[|cs| - 1], tr)]
  }

  // ---------------------------------------------------------------------
  // Drawing

  /**
   * The line segments a polyline draws: one per pair of consecutive
   * points, in order, all in colour `c`.
   */
  function Segments(ps: seq<Point>, c: Color): (r: seq<Cmd>)
    ensures |r| == if |ps| <= 1 then 0 else |ps| - 1
    ensures forall a :: 0 <= a < |r| ==> r[a] == LineCmd(ps[a], ps[a + 1], c)
  {
    if |ps| <= 1 then []
    else Segments(ps[..|ps| - 1], c) + [LineCmd(ps[|ps| - 2], ps[|ps| - 1], c)]
  }

  /** The draw requests a shape sends to the image, in order. */
  function Trace(s: ShapeValue): seq<Cmd>
    decreases s
  {
    match s
    case Ellipse(fill, center, radius) => [EllipseCmd(center, radius, fill)]
    case Polygon(fill, ps) => [PolygonCmd(ps, fill)]
    case Polyline(fill, ps) => Segments(ps, fill)
    case Group(_, cs) => TraceAll(cs)
  }

  /** The draw requests of the shapes `cs`, one shape after the other. */
  function TraceAll(cs: seq<ShapeValue>): seq<Cmd>
    decreases cs
  {
    if cs == [] then [] else TraceAll(cs[..|cs| - 1]) + Trace(cs[|cs| - 1])
  }

  /** The fills of the ellipses, polygons and polylines in the tree. */
  function LeafFills(s: ShapeValue): set<Color>
    decreases s
  {
    match s
    case Group(_, cs) => LeafFillsAll(cs)
    case _ => {s.fill}
  }

  function LeafFillsAll(cs: seq<ShapeValue>): set<Color>
    decreases cs
  {
    if cs == [] then {} else LeafFillsAll(cs[..|cs| - 1]) + LeafFills(cs[|cs| - 1])
  }

  // ---------------------------------------------------------------------
  // Properties

  /** Drawing a sequence of shapes draws each one in turn: traces concatenate. */
  lemma {:induction false} TraceAllConcat(a: seq<ShapeValue>, b: seq<ShapeValue>)
    ensures TraceAll(a + b) == TraceAll(a) + TraceAll(b)
    decreases |b|
  {
    if b == [] {
      assert a + b == a;
    } else {
      var n := |b| - 1;
      assert (a + b)[..|a + b| - 1] == a + b[..n];
      TraceAllConcat(a, b[..n]);
    }
  }

  /** Drawing one more shape of a list appends that shape's trace. */
  lemma TraceAllStep(before: seq<Cmd>, cs: seq<ShapeValue>, i: nat)
    requires i < |cs|
    ensures TraceAll(cs[..i + 1]) == TraceAll(cs[..i]) + Trace(cs[i])
    ensures before + TraceAll(cs[..i + 1]) == before + TraceAll(cs[..i]) + Trace(cs[i])
  {
    assert cs[..i + 1][..i] == cs[..i];
  }

  /** A group of two shapes draws the first completely, then the second. */
  lemma GroupDrawsInOrder(fill: Color, first: ShapeValue, second: ShapeValue)
    ensures Trace(Group(fill, [first, second])) == Trace(first) + Trace(second)
  {
    assert [first, second][..1] == [first];
    assert [first][..0] == [];
    assert TraceAll([first]) == Trace(first);
  }

  /**
   * Every request a shape draws is in the fill of one of its leaves: a
   * group's own fill never reaches the image.
   */
  lemma {:induction false} TraceColors(s: ShapeValue)
    ensures forall k :: 0 <= k < |Trace(s)| ==> Trace(s)[k].color in LeafFills(s)
    decreases s, 1
  {
    match s
    case Group(_, cs) => TraceAllColors(cs);
    case Polyline(fill, ps) =>
      forall k | 0 <= k < |Segments(ps, fill)|
        ensures Segments(ps, fill)[k].color == fill
      {
        assert Segments(ps, fill)[k] == LineCmd(ps[k], ps[k + 1], fill);
      }
    case _ =>
  }

  lemma {:induction false} TraceAllColors(cs: seq<ShapeValue>)
    ensures forall k :: 0 <= k < |TraceAll(cs)| ==> TraceAll(cs)[k].color in LeafFillsAll(cs)
    decreases cs, 0
  {
    if cs != [] {
      var n := |cs| - 1;
      TraceAllColors(cs[..n]);
      TraceColors(cs[n]);
    }
  }

  /** A group's fill makes no difference to what it draws. */
  lemma GroupFillUnused(f: Color, g: Color, cs: seq<ShapeValue>)
    ensures Trace(Group(f, cs)) == Trace(Group(g, cs))
  {
  }

  /**
   * A transform keeps the tree's layout: the variant and fill of every
   * node, the number of points of every polygon and polyline, the number of
   * children of every group.
   */
  lemma {:induction false} TransformKeepsLayout(ops: PointOps, s: ShapeValue, tr: Transform)
    ensures SameLayout(s, Transformed(ops, s, tr))
    decreases s
  {
    match s
    case Group(_, cs) =>
      forall i | 0 <= i < |cs|
        ensures SameLayout(cs[i], Transformed(ops, s, tr).children[i])
      {
        TransformKeepsLayout(ops, cs[i], tr);
      }
    case _ =>
  }

  /** A transform never changes how many draw requests a shape sends. */
  lemma {:induction false} TransformKeepsCommandCount(ops: PointOps, s: ShapeValue, tr: Transform)
    ensures |Trace(Transformed(ops, s, tr))| == |Trace(s)|
    decreases s, 1
  {
    match s
    case Group(fill, cs) => TransformAllKeepsCommandCount(ops, cs, tr);
    case _ =>
  }

  lemma {:induction false} TransformAllKeepsCommandCount(ops: PointOps, cs: seq<ShapeValue>, tr: Transform)
    ensures |TraceAll(TransformedAll(ops, cs, tr))| == |TraceAll(cs)|
    decreases cs, 0
  {
    if cs != [] {
      var n := |cs| - 1;
      var rs := TransformedAll(ops, cs, tr);
      assert rs[..n] == TransformedAll(ops, cs[..n], tr);
      TransformAllKeepsCommandCount(ops, cs[..n], tr);
      TransformKeepsCommandCount(ops, cs[n], tr);
    }
  }

  /**
   * A transform that leaves every point where it is leaves the whole shape
   * unchanged, provided it is not a scale by a factor other than 1 (which
   * resizes ellipses whatever the point helper does).
   */
  lemma {:induction false} IdentityTransform(ops: PointOps, s: ShapeValue, tr: Transform)
    requires forall p :: ApplyToPoint(ops, tr, p) == p
    requires tr.Scale? ==> tr.v == 1
    ensures Transformed(ops, s, tr) == s
    decreases s, 1
  {
    match s
    case Ellipse(_, _, _) =>
    case Polygon(_, ps) => assert MapPoints(ops, tr, ps) == ps;
    case Polyline(_, ps) => assert MapPoints(ops, tr, ps) == ps;
    case Group(_, cs) => IdentityTransformAll(ops, cs, tr);
  }

  lemma {:induction false} IdentityTransformAll(ops: PointOps, cs: seq<ShapeValue>, tr: Transform)
    requires forall p :: ApplyToPoint(ops, tr, p) == p
    requires tr.Scale? ==> tr.v == 1
    ensures TransformedAll(ops, cs, tr) == cs
    decreases cs, 0
  {
    forall i | 0 <= i < |cs|
      ensures TransformedAll(ops, cs, tr)[i] == cs[i]
    {
      IdentityTransform(ops, cs[i], tr);
    }
  }

  /**
   * Scaling by 1 changes nothing, for every origin, as long as the point
   * helper's scale by 1 keeps every point.
   */
  lemma ScaleByOneIsIdentity(ops: PointOps, s: ShapeValue, origin: Point)
    requires forall p, o :: ops.scale(p, o, 1) == p
    ensures Transformed(ops, s, Scale(origin, 1)) == s
  {
    IdentityTransform(ops, s, Scale(origin, 1));
  }

  /**
   * Rotating by 0 degrees changes nothing, for every origin, as long as
   * the point helper's rotation by 0 keeps every point.
   */
  lemma RotateByZeroIsIdentity(ops: PointOps, s: ShapeValue, origin: Point)
    requires forall p, o :: ops.rotate(p, o, 0) == p
    ensures Transformed(ops, s, Rotate(origin, 0)) == s
  {
    IdentityTransform(ops, s, Rotate(origin, 0));
  }

  /**
   * If the point helper's translate composes by vector addition, so does
   * the translate of every shape.
   */
  lemma {:induction false} TranslateComposes(ops: PointOps, s: ShapeValue, a: Point, b: Point)
    requires forall p, u, w :: ops.translate(ops.translate(p, u), w) == ops.translate(p, Add(u, w))
    ensures Transformed(ops, Transformed(ops, s, Translate(a)), Translate(b))
         == Transformed(ops, s, Translate(Add(a, b)))
    decreases s, 1
  {
    match s
    case Ellipse(_, _, _) =>
    case Polygon(_, ps) => TranslatePointsCompose(ops, ps, a, b);
    case Polyline(_, ps) => TranslatePointsCompose(ops, ps, a, b);
    case Group(_, cs) => TranslateAllComposes(ops, cs, a, b);
  }

  lemma {:induction false} TranslateAllComposes(ops: PointOps, cs: seq<ShapeValue>, a: Point, b: Point)
    requires forall p, u, w :: ops.translate(ops.translate(p, u), w) == ops.translate(p, Add(u, w))
    ensures TransformedAll(ops, TransformedAll(ops, cs, Translate(a)), Translate(b))
         == TransformedAll(ops, cs, Translate(Add(a, b)))
    decreases cs, 0
  {
    var lhs := TransformedAll(ops, TransformedAll(ops, cs, Translate(a)), Translate(b));
    var rhs := TransformedAll(ops, cs, Translate(Add(a, b)));
    forall i | 0 <= i < |cs|
      ensures lhs[i] == rhs[i]
    {
      TranslateComposes(ops, cs[i], a, b);
    }
  }

  lemma TranslatePointsCompose(ops: PointOps, ps: seq<Point>, a: Point, b: Point)
    requires forall p, u, w :: ops.translate(ops.translate(p, u), w) == ops.translate(p, Add(u, w))
    ensures MapPoints(ops, Translate(b), MapPoints(ops, Translate(a), ps))
         == MapPoints(ops, Translate(Add(a, b)), ps)
  {
  }

  // ---------------------------------------------------------------------
  // Worked examples

  /**
   * A polygon translated by (5, 5), when the point helper adds the offset
   * to each coordinate.
   */
  lemma PolygonTranslateExample(ops: PointOps, fill: Color)
    requires forall p, t :: ops.translate(p, t) == Add(p, t)
    ensures Transformed(ops, Polygon(fill, [Point(0, 0), Point(10, 0), Point(10, 10)]), Translate(Point(5, 5)))
         == Polygon(fill, [Point(5, 5), Point(15, 5), Point(15, 15)])
  {
    var r := MapPoints(ops, Translate(Point(5, 5)), [Point(0, 0), Point(10, 0), Point(10, 10)]);
    assert r == [Point(5, 5), Point(15, 5), Point(15, 15)];
  }

  /**
   * An ellipse with center (10, 10) and radius (5, 5) scaled by 2 about
   * (0, 0) gets radius (10, 10); rotating it about its own center then
   * changes nothing, as long as the point helper maps those two points as
   * a scale and a rotation do.
   */
  lemma EllipseScaleRotateExample(ops: PointOps, fill: Color)
    requires ops.scale(Point(10, 10), Point(0, 0), 2) == Point(20, 20)
    requires ops.rotate(Point(20, 20), Point(20, 20), 90) == Point(20, 20)
    ensures Transformed(ops, Ellipse(fill, Point(10, 10), Point(5, 5)), Scale(Point(0, 0), 2))
         == Ellipse(fill, Point(20, 20), Point(10, 10))
    ensures Transformed(ops, Ellipse(fill, Point(20, 20), Point(10, 10)), Rotate(Point(20, 20), 90))
         == Ellipse(fill, Point(20, 20), Point(10, 10))
  {
  }
}
