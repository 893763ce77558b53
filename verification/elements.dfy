/**
 * The shape objects: ellipse, polygon, polyline and group, each an object
 * whose geometry the transforms overwrite in place.
 *
 * All four variants are one class, `Shape`, tagged with a `kind` fixed at
 * construction (the variant a C++ object is created as never changes).
 * Ellipses use `center` and `radius`, polygons and polylines `points`,
 * groups `children`. A group owns its children exclusively: `Repr` is the
 * set of objects in the tree rooted at a shape, and the trees of two
 * children of one group never share an object. Neither the children of a
 * group nor `Repr` change after construction, so `Valid()` depends on
 * nothing a method can modify.
 */
module Elements {
  import opened Geometry
  import opened Canvas
  import opened ShapeValues

  datatype Kind = EllipseKind | PolygonKind | PolylineKind | GroupKind

  /** Every object in the trees of `cs`. */
  ghost function UnionRepr(cs: seq<Shape>): (u: set<Shape>)
    ensures forall i :: 0 <= i < |cs| ==> cs[i].Repr <= u
  {
    if cs == [] then {} else UnionRepr(cs[..|cs| - 1]) + cs[|cs| - 1].Repr
  }

  class Shape {
    const kind: Kind
    /** The fill colour, set by the constructor and never changed. */
    const fill: Color
    var center: Point
    var radius: Point
    var points: seq<Point>
    const children: seq<Shape>
    ghost const Repr: set<Shape>

    /** The tree is well formed: acyclic, and no object is owned twice. */
    ghost predicate Valid()
      decreases Repr
    {
      this in Repr &&
      (kind != GroupKind ==> children == []) &&
      (kind == GroupKind ==> fill == White) &&
      (forall i :: 0 <= i < |children| ==>
         children[i].Repr <= Repr && this !in children[i].Repr && children[i].Valid()) &&
      (forall i, j :: 0 <= i < |children| && 0 <= j < |children| && i != j ==>
         children[i].Repr !! children[j].Repr)
    }

    /** The value of the tree rooted at this shape. */
    ghost function Model(): ShapeValue
      requires Valid()
      reads Repr
      decreases Repr, 1
    {
      match kind
      case EllipseKind => ShapeValue.Ellipse(fill, center, radius)
      case PolygonKind => ShapeValue.Polygon(fill, points)
      case PolylineKind => ShapeValue.Polyline(fill, points)
      case GroupKind => ShapeValue.Group(fill, ChildModels(|children|))
    }

    /** The values of the first `k` children. */
    ghost function ChildModels(k: nat): (ms: seq<ShapeValue>)
      requires Valid() && k <= |children|
      reads Repr
      decreases Repr, 0, k
      ensures |ms| == k
    {
      if k == 0 then [] else ChildModels(k - 1) + [children[k - 1].Model()]
    }

    /** Entry i of the children's values is child i's value. */
    lemma {:induction false} ChildModelsAt(k: nat, i: nat)
      requires Valid() && i < k <= |children|
      ensures ChildModels(k)[i] == children[i].Model()
      decreases k
    {
      if i < k - 1 {
        ChildModelsAt(k - 1, i);
      }
    }

    /** Every entry of the children's values is the matching child's value. */
    lemma ChildModelsAll()
      requires Valid()
      ensures forall i :: 0 <= i < |children| ==> ChildModels(|children|)[i] == children[i].Model()
    {
      forall i | 0 <= i < |children|
        ensures ChildModels(|children|)[i] == children[i].Model()
      {
        ChildModelsAt(|children|, i);
      }
    }

    // -------------------------------------------------------------------
    // Constructors

    constructor Ellipse(fill: Color, center: Point, radius: Point)
      ensures Valid() && fresh(Repr)
      ensures Model() == ShapeValue.Ellipse(fill, center, radius)
    {
      kind := EllipseKind;
      this.fill := fill;
      this.center := center;
      this.radius := radius;
      points := [];
      children := [];
      Repr := {this};
    }

    constructor Polygon(fill: Color, points: seq<Point>)
      ensures Valid() && fresh(Repr)
      ensures Model() == ShapeValue.Polygon(fill, points)
    {
      kind := PolygonKind;
      this.fill := fill;
      center := Point(0, 0);
      radius := Point(0, 0);
      this.points := points;
      children := [];
      Repr := {this};
    }

    constructor Polyline(fill: Color, points: seq<Point>)
      ensures Valid() && fresh(Repr)
      ensures Model() == ShapeValue.Polyline(fill, points)
    {
      kind := PolylineKind;
      this.fill := fill;
      center := Point(0, 0);
      radius := Point(0, 0);
      this.points := points;
      children := [];
      Repr := {this};
    }

    /**
     * A group takes ownership of `shapes` as they are (nothing is copied),
     * so their trees must be well formed and must not share objects.
     */
    constructor Group(shapes: seq<Shape>)
      requires forall i :: 0 <= i < |shapes| ==> shapes[i].Valid()
      requires forall i, j :: 0 <= i < |shapes| && 0 <= j < |shapes| && i != j ==>
                 shapes[i].Repr !! shapes[j].Repr
      ensures Valid() && children == shapes && Repr == {this} + UnionRepr(shapes)
      ensures Model().Group? && Model().fill == White
      ensures |Model().children| == |shapes|
      ensures forall i :: 0 <= i < |shapes| ==> Model().children[i] == shapes[i].Model()
    {
      kind := GroupKind;
      fill := White;
      center := Point(0, 0);
      radius := Point(0, 0);
      points := [];
      children := shapes;
      Repr := {this} + UnionRepr(shapes);
      new;
      ChildModelsAll();
    }

    // -------------------------------------------------------------------
    // draw

    /** Sends the shape's draw requests to `img`; the shape is unchanged. */
    method Draw(img: Image)
      requires Valid()
      modifies img
      ensures img.trace == old(img.trace) + Trace(old(Model()))
      decreases Repr, 2
    {
      ghost var m := Model();
      match kind
      case EllipseKind =>
        assert Trace(m) == [EllipseCmd(center, radius, fill)];
        img.DrawEllipse(center, radius, fill);
      case PolygonKind =>
        assert Trace(m) == [PolygonCmd(points, fill)];
        img.DrawPolygon(points, fill);
      case PolylineKind =>
        assert Trace(m) == Segments(points, fill);
        DrawPolyline(img);
      case GroupKind =>
        assert Trace(m) == TraceAll(ChildModels(|children|));
        DrawGroup(img);
    }

    /** One line per pair of consecutive points, in order. */
    method DrawPolyline(img: Image)
      requires Valid() && kind == PolylineKind
      modifies img
      ensures img.trace == old(img.trace) + Segments(points, fill)
    {
      var n: int := |points| - 1;
      var a := 0;
      while a < n
        invariant 0 <= a <= |Segments(points, fill)|
        invariant img.trace == old(img.trace) + Segments(points, fill)[..a]
      {
        img.DrawLine(points[a], points[a + 1], fill);
        assert Segments(points, fill)[..a + 1] == Segments(points, fill)[..a] + [LineCmd(points[a], points[a + 1], fill)];
        a := a + 1;
      }
      assert Segments(points, fill)[..a] == Segments(points, fill);
    }

    /** Every child draws, in stored order; the group's fill is not used. */
    method DrawGroup(img: Image)
      requires Valid() && kind == GroupKind
      modifies img
      ensures img.trace == old(img.trace) + TraceAll(old(ChildModels(|children|)))
      decreases Repr, 1
    {
      ghost var ms := ChildModels(|children|);
      ghost var start := img.trace;
      ChildModelsAll();
      var i := 0;
      while i < |children|
        invariant i <= |children| && ModelsFrom(ms, i)
        invariant img.trace == start + TraceAll(ms[..i])
      {
        DrawChild(img, ms, i);
        TraceAllStep(start, ms, i);
        i := i + 1;
      }
      assert ms[..i] == ms;
    }

    /** Children `i` and later still have the values `ms` recorded for them. */
    ghost predicate ModelsFrom(ms: seq<ShapeValue>, i: nat)
      requires Valid()
      reads Repr
    {
      |ms| == |children| && i <= |children| &&
      forall j :: i <= j < |children| ==> children[j].Model() == ms[j]
    }

    /** One step of `DrawGroup`: child i draws its recorded value. */
    method DrawChild(img: Image, ghost ms: seq<ShapeValue>, i: nat)
      requires Valid() && i < |children| && ModelsFrom(ms, i)
      modifies img
      ensures img.trace == old(img.trace) + Trace(ms[i])
      ensures ModelsFrom(ms, i + 1)
      decreases Repr, 0
    {
      children[i].Draw(img);
    }

    // -------------------------------------------------------------------
    // translate, scale, rotate

    method Translate(ops: PointOps, t: Point)
      requires Valid()
      modifies Repr
      ensures Model() == Transformed(ops, old(Model()), Transform.Translate(t))
    {
      Apply(ops, Transform.Translate(t));
    }

    method Scale(ops: PointOps, origin: Point, v: int)
      requires Valid()
      modifies Repr
      ensures Model() == Transformed(ops, old(Model()), Transform.Scale(origin, v))
    {
      Apply(ops, Transform.Scale(origin, v));
    }

    method Rotate(ops: PointOps, origin: Point, degrees: int)
      requires Valid()
      modifies Repr
      ensures Model() == Transformed(ops, old(Model()), Transform.Rotate(origin, degrees))
    {
      Apply(ops, Transform.Rotate(origin, degrees));
    }

    /** The variant's own implementation of one transform call. */
    method Apply(ops: PointOps, tr: Transform)
      requires Valid()
      modifies Repr
      ensures Model() == Transformed(ops, old(Model()), tr)
      decreases Repr, 2
    {
      match kind
      case EllipseKind => ApplyToEllipse(ops, tr);
      case PolygonKind => ApplyToPoints(ops, tr);
      case PolylineKind => ApplyToPoints(ops, tr);
      case GroupKind => ApplyToGroup(ops, tr);
    }

    /**
     * Moves the center with the point helper; a scale also multiplies both
     * radius components by the factor, and nothing else touches the radius.
     */
    method ApplyToEllipse(ops: PointOps, tr: Transform)
      requires Valid() && kind == EllipseKind
      modifies this
      ensures center == ApplyToPoint(ops, tr, old(center))
      ensures radius == if tr.Scale? then Point(old(radius.x) * tr.v, old(radius.y) * tr.v) else old(radius)
      ensures points == old(points)
      ensures Model() == Transformed(ops, old(Model()), tr)
    {
      match tr
      case Translate(t) =>
        center := ops.translate(center, t);
      case Scale(origin, v) =>
        radius := radius.(x := radius.x * v);
        radius := radius.(y := radius.y * v);
        center := ops.scale(center, origin, v);
      case Rotate(origin, degrees) =>
        center := ops.rotate(center, origin, degrees);
    }

    /** Overwrites every point with its transformed value, in place. */
    method ApplyToPoints(ops: PointOps, tr: Transform)
      requires Valid() && (kind == PolygonKind || kind == PolylineKind)
      modifies this
      ensures points == MapPoints(ops, tr, old(points))
      ensures center == old(center) && radius == old(radius)
      ensures Model() == Transformed(ops, old(Model()), tr)
    {
      var i := 0;
      while i < |points|
        invariant 0 <= i <= |points| == |old(points)|
        invariant forall j :: 0 <= j < i ==> points[j] == ApplyToPoint(ops, tr, old(points[j]))
        invariant forall j :: i <= j < |points| ==> points[j] == old(points[j])
        invariant center == old(center) && radius == old(radius)
      {
        points := points[i := ApplyToPoint(ops, tr, points[i])];
        i := i + 1;
      }
    }

    /** Forwards the call to every child, with the same arguments, in order. */
    method ApplyToGroup(ops: PointOps, tr: Transform)
      requires Valid() && kind == GroupKind
      modifies Repr
      ensures ChildModels(|children|) == TransformedAll(ops, old(ChildModels(|children|)), tr)
      ensures Model() == Transformed(ops, old(Model()), tr)
      decreases Repr, 1
    {
      ghost var before := ChildModels(|children|);
      ChildModelsAll();
      var i := 0;
      while i < |children|
        invariant i <= |children| && AppliedUpTo(ops, tr, before, i)
      {
        ApplyToChild(ops, tr, before, i);
        i := i + 1;
      }
      AppliedToAll(ops, tr, before);
    }

    /**
     * The state of `ApplyToGroup` after `i` steps: the first `i` children
     * hold their transformed values, the others their values from `before`.
     */
    ghost predicate AppliedUpTo(ops: PointOps, tr: Transform, before: seq<ShapeValue>, i: nat)
      requires Valid()
      reads Repr
    {
      |before| == |children| && i <= |children| &&
      (forall j :: 0 <= j < i ==> children[j].Model() == Transformed(ops, before[j], tr)) &&
      (forall j :: i <= j < |children| ==> children[j].Model() == before[j])
    }

    /** One step of `ApplyToGroup`: child i is transformed, its siblings are not touched. */
    method ApplyToChild(ops: PointOps, tr: Transform, ghost before: seq<ShapeValue>, i: nat)
      requires Valid() && i < |children| && AppliedUpTo(ops, tr, before, i)
      modifies children[i].Repr
      ensures AppliedUpTo(ops, tr, before, i + 1)
      decreases Repr, 0
    {
      children[i].Apply(ops, tr);
    }

    /** Once every child is transformed, the children's values are `before` transformed. */
    lemma AppliedToAll(ops: PointOps, tr: Transform, before: seq<ShapeValue>)
      requires Valid() && AppliedUpTo(ops, tr, before, |children|)
      ensures ChildModels(|children|) == TransformedAll(ops, before, tr)
    {
      ChildModelsAll();
    }

    // -------------------------------------------------------------------
    // duplicate

    /** A deep copy: equal in value, made of objects allocated by the call. */
    method Duplicate() returns (r: Shape)
      requires Valid()
      ensures r.Valid() && fresh(r.Repr)
      ensures r.Model() == Model()
      decreases Repr, 2
    {
      if kind == EllipseKind {
        r := new Shape.Ellipse(fill, center, radius);
      } else if kind == PolygonKind {
        r := new Shape.Polygon(fill, points);
      } else if kind == PolylineKind {
        r := new Shape.Polyline(fill, points);
      } else {
        r := DuplicateGroup();
      }
    }

    /** Duplicates every child in order and makes a new group of the copies. */
    method DuplicateGroup() returns (r: Shape)
      requires Valid() && kind == GroupKind
      ensures r.Valid() && fresh(r.Repr)
      ensures r.Model() == Model()
      decreases Repr, 1
    {
      var copies := DuplicateChildren();
      r := new Shape.Group(copies);
      ChildModelsAll();
      r.ChildModelsAll();
      assert r.ChildModels(|copies|) == ChildModels(|children|);
    }

    /**
     * The loop of `DuplicateGroup`: copy i is a duplicate of child i, and
     * no two copies share an object.
     */
    method DuplicateChildren() returns (copies: seq<Shape>)
      requires Valid()
      ensures |copies| == |children|
      ensures forall j :: 0 <= j < |copies| ==> copies[j].Valid() && copies[j].Model() == children[j].Model()
      ensures forall j, k :: 0 <= j < |copies| && 0 <= k < |copies| && j != k ==> copies[j].Repr !! copies[k].Repr
      ensures fresh(UnionRepr(copies))
      decreases Repr, 0
    {
      copies := [];
      ghost var made: set<Shape> := {};
      var i := 0;
      while i < |children|
        invariant 0 <= i <= |children| && |copies| == i
        invariant forall j :: 0 <= j < i ==> copies[j].Valid() && copies[j].Model() == children[j].Model()
        invariant forall j, k :: 0 <= j < i && 0 <= k < i && j != k ==> copies[j].Repr !! copies[k].Repr
        invariant made == UnionRepr(copies) && fresh(made)
      {
        var c := children[i].Duplicate();
        assert c.Repr !! made;
        assert (copies + [c])[..i] == copies;
        copies := copies + [c];
        made := made + c.Repr;
        i := i + 1;
      }
    }
  }

  /**
   * A duplicate shares nothing with its original: after duplicating,
   * each of the two can be transformed without affecting the other.
   */
  method DuplicatesAreIndependent(s: Shape, ops: PointOps, onOriginal: Transform, onCopy: Transform)
    returns (copy: Shape)
    requires s.Valid()
    modifies s.Repr
    ensures copy.Valid() && copy.Repr !! s.Repr
    ensures s.Model() == Transformed(ops, old(s.Model()), onOriginal)
    ensures copy.Model() == Transformed(ops, old(s.Model()), onCopy)
  {
    copy := s.Duplicate();
    s.Apply(ops, onOriginal);
    copy.Apply(ops, onCopy);
  }
}
