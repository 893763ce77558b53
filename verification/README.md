# SVG shape layer, modelled in Dafny

This project models the shape layer of a small SVG-to-PNG renderer
(`progp2/svg/elements.cpp`): the four shape variants `ellipse`, `polygon`,
`polyline` and `group`, their constructors, and the five operations each of
them implements — `draw`, `translate`, `scale`, `rotate` and `duplicate`.

Files:

- `geometry.dfy` (module `Geometry`): points, colours, the draw commands an
  image receives, and `PointOps`, the three point helpers
  (`point::translate`, `point::scale`, `point::rotate`). The helpers' code
  is not part of this model, so every transform takes them as a parameter
  and the shapes are proved correct for any three functions of those
  signatures. `Transform` names one call of the transform interface with
  its arguments.
- `canvas.dfy` (module `Canvas`): the `png_image` the shapes draw onto, as
  an object whose `trace` records each `draw_ellipse`, `draw_polygon` and
  `draw_line` request in order.
- `shape_values.dfy` (module `ShapeValues`): the value of a shape tree
  (`ShapeValue`), what a transform does to it (`Transformed`), what it
  draws (`Trace`), and the lemmas about them.
- `elements.dfy` (module `Elements`): the shape objects. One class, `Shape`,
  stands for the C++ class hierarchy; its `kind` is fixed at construction
  and selects the variant, as the dynamic type does in C++. Ellipses keep
  `center` and `radius`, polygons and polylines a `points` sequence that
  the transforms overwrite element by element, groups a sequence of child
  objects they own exclusively. `Model()` gives the value of the tree rooted
  at an object, and every method is specified by what it does to `Model()`
  (or, for `draw`, to the image's trace).

A group's children never change after construction, and neither does the
set `Repr` of objects in a tree, so the well-formedness predicate `Valid()`
(acyclic, exclusively owned, group fill white) holds for an object's whole
life once a constructor has established it.

## Model

| member | source | states |
|---|---|---|
| `ShapeValues.MapPoints` | progp2/svg/elements.cpp:45-62 | The transformed point list has as many points as before, and point i is the point helper applied to old point i: no point is reordered, added or dropped. |
| `ShapeValues.Transformed` | progp2/svg/elements.cpp:16-28 | A transform keeps a shape's fill; an ellipse stays an ellipse whose center is the point helper applied to the old center, and its radius changes only under a scale by a factor other than 1. |
| `ShapeValues.TransformKeepsLayout` | progp2/svg/elements.cpp:118-132 | A transform keeps the variant and fill of every node of the tree, the point count of every polygon and polyline and the child count of every group, at every depth. |
| `ShapeValues.TransformedAll` | progp2/svg/elements.cpp:118-132 | A group's transform yields one child per old child, child i being old child i transformed with the same arguments. |
| `ShapeValues.Segments` | progp2/svg/elements.cpp:74-79 | A polyline of k points draws exactly max(0, k-1) lines, line a joining point a to point a+1, all in the fill colour. |
| `ShapeValues.TraceAllConcat` | progp2/svg/elements.cpp:113-116 | Drawing a list of shapes is drawing each of them in turn: the traces of two lists concatenate. |
| `ShapeValues.GroupDrawsInOrder` | progp2/svg/elements.cpp:113-116 | A group of A and B draws all of A, then all of B. |
| `ShapeValues.TraceColors` | progp2/svg/elements.cpp:113-116 | Every command a shape draws has the fill of one of its ellipses, polygons or polylines; a group's own fill is never drawn. |
| `ShapeValues.TraceAllColors` | progp2/svg/elements.cpp:113-116 | The same for a list of shapes. |
| `ShapeValues.GroupFillUnused` | progp2/svg/elements.cpp:104-116 | Two groups with the same children draw the same, whatever their fills. |
| `ShapeValues.TransformKeepsCommandCount` | progp2/svg/elements.cpp:81-98 | A transform never changes the number of commands a shape draws. |
| `ShapeValues.TransformAllKeepsCommandCount` | progp2/svg/elements.cpp:118-132 | The same for a list of shapes. |
| `ShapeValues.IdentityTransform` | progp2/svg/elements.cpp:20-28 | A transform whose point helper keeps every point, and which is not a scale by a factor other than 1, leaves the whole tree unchanged. |
| `ShapeValues.IdentityTransformAll` | progp2/svg/elements.cpp:123-132 | The same for a list of shapes. |
| `ShapeValues.ScaleByOneIsIdentity` | progp2/svg/elements.cpp:20-24 | If the point helper's scale by 1 keeps every point, scaling any shape by 1 about any origin changes nothing (an ellipse's radius is multiplied by 1). |
| `ShapeValues.RotateByZeroIsIdentity` | progp2/svg/elements.cpp:26-28 | If the point helper's rotation by 0 keeps every point, rotating any shape by 0 degrees about any origin changes nothing. |
| `ShapeValues.TranslateComposes` | progp2/svg/elements.cpp:16-18 | If the point helper's translate composes by vector addition, translating a shape by a and then by b equals translating it by a+b. |
| `ShapeValues.TranslateAllComposes` | progp2/svg/elements.cpp:118-121 | The same for a list of shapes. |
| `ShapeValues.TranslatePointsCompose` | progp2/svg/elements.cpp:45-49 | The same for a point list. |
| `ShapeValues.PolygonTranslateExample` | progp2/svg/elements.cpp:45-49 | With a point helper that adds the offset, the polygon (0,0),(10,0),(10,10) translated by (5,5) becomes (5,5),(15,5),(15,15), fill unchanged. |
| `ShapeValues.EllipseScaleRotateExample` | progp2/svg/elements.cpp:20-28 | An ellipse with radius (5,5) scaled by 2 has radius (10,10); rotating it about its own center leaves center and radius unchanged. |
| `Elements.Shape.Ellipse` | progp2/svg/elements.cpp:5-10 | A new, well-formed ellipse object with the given fill, center and radius. |
| `Elements.Shape.Polygon` | progp2/svg/elements.cpp:35-39 | A new polygon object holding its own copy of the given point list. |
| `Elements.Shape.Polyline` | progp2/svg/elements.cpp:68-72 | A new polyline object holding its own copy of the given point list. |
| `Elements.Shape.Group` | progp2/svg/elements.cpp:104-106 | A new group taking the given shapes, uncopied and in order, as its children; its fill is white (255,255,255). |
| `Elements.Shape.Draw` | progp2/svg/elements.cpp:12-14 | Appends exactly the trace of the shape's value at the call to the image (one ellipse command with center, radius and fill; one polygon command with all points and fill; a polyline's segments; a group's children in order); only the image is modified, no shape. |
| `Elements.Shape.DrawPolyline` | progp2/svg/elements.cpp:74-79 | The index loop appends the polyline's segments, one per consecutive pair, and nothing when there are fewer than two points. |
| `Elements.Shape.DrawGroup` | progp2/svg/elements.cpp:113-116 | Each child draws in stored order; the image receives the concatenation of the children's traces, taken from their values at the call. |
| `Elements.Shape.DrawChild` | progp2/svg/elements.cpp:114-115 | One iteration of the group's draw loop: child i appends the trace of the value recorded for it, and the children after it keep their recorded values. |
| `Elements.Shape.Translate` | progp2/svg/elements.cpp:16-18 | The new value of the tree is the old one translated by t, at every variant. |
| `Elements.Shape.Scale` | progp2/svg/elements.cpp:20-24 | The new value of the tree is the old one scaled about origin by v, at every variant. |
| `Elements.Shape.Rotate` | progp2/svg/elements.cpp:26-28 | The new value of the tree is the old one rotated about origin, at every variant. |
| `Elements.Shape.Apply` | progp2/svg/elements.cpp:118-132 | Dispatches one transform call to the variant's implementation; the new value is the old one transformed. |
| `Elements.Shape.ApplyToEllipse` | progp2/svg/elements.cpp:16-28 | The center becomes the point helper applied to the old center; a scale multiplies both radius components by v; translate and rotate leave the radius. |
| `Elements.Shape.ApplyToPoints` | progp2/svg/elements.cpp:45-62 | Overwrites every point in place with its transformed value; the new point list is the old one mapped point by point. |
| `Elements.Shape.ApplyToGroup` | progp2/svg/elements.cpp:118-132 | Forwards the call, with the same arguments, to every child in stored order; child i's new value is its old value transformed. |
| `Elements.Shape.ApplyToChild` | progp2/svg/elements.cpp:119-120 | One iteration of a group's transform loop: child i becomes its old value transformed, and every sibling keeps its value, since the children's trees share no object. |
| `Elements.Shape.AppliedToAll` | progp2/svg/elements.cpp:118-132 | When every child holds its transformed value, the group's list of child values is the old list transformed element by element. |
| `Elements.Shape.Duplicate` | progp2/svg/elements.cpp:30-32 | Returns a well-formed object equal in value to the original, built entirely from newly allocated objects. |
| `Elements.Shape.DuplicateGroup` | progp2/svg/elements.cpp:134-140 | Duplicates every child in order and builds a new group from the copies: same child count, copy i equal to child i, nothing shared. |
| `Elements.Shape.DuplicateChildren` | progp2/svg/elements.cpp:135-138 | The copy loop yields one well-formed copy per child, copy i equal in value to child i, no two copies sharing an object, all of them newly allocated. |
| `Elements.DuplicatesAreIndependent` | progp2/svg/elements.cpp:134-140 | After duplicating, transforming the original does not change the copy and transforming the copy does not change the original. |

## Left out

- Rasterisation: `png_image::draw_ellipse`, `draw_polygon` and `draw_line` are not part of this model; the image only records the requests in order.
- The point helpers `point::translate`, `point::scale` and `point::rotate` are not part of this model; they are a parameter (`PointOps`) of every transform, and laws about them (composition, identity) appear only as preconditions of the lemmas that use them.
- The group destructor (`group::~group`, lines 107-111) and all manual memory management: Dafny objects are never freed. Exclusive ownership is captured instead by the disjoint `Repr` sets of a group's children and by `Duplicate` returning only fresh objects.
- Elements.Shape.ApplyToEllipse: does not model overflow of the C++ `int` multiplication `radius.x *= v`; coordinates are unbounded integers.
- ShapeValues.Transformed: does not model that overflow either, for the same reason.
- Elements.Shape.DrawPolyline: `int n = points.size() - 1` is modelled as an unbounded integer, which agrees with the source for every point count up to the largest `int`; larger point lists are not modelled.
- Colour is an RGB triple that the model only stores and copies.
- A negative scale factor gives a negative radius, as in the source; the model neither clamps nor rejects it.
- The C++ class hierarchy and virtual dispatch become one class with a `kind` tag; the twelve variant methods for translate, scale and rotate become one `Apply` that dispatches on the variant and on the kind of transform, behind the three methods `Translate`, `Scale` and `Rotate`.
- `Elements.Shape.Group` requires its children to be well formed and to share no objects; the C++ constructor does not check this but relies on callers handing over exclusive ownership.
- SVG parsing and the command-line driver are not part of this model.
