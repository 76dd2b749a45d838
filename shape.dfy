/** The scene's geometric records: spheres, planes, triangles in one shared pool, and
    models that are index ranges into that pool; a shape is a tagged union of the three
    with a material index. Field order follows the records the device reads. */
module Shapes {
  import opened Common

  datatype Vec3 = Vec3(x: Float, y: Float, z: Float)
  datatype Vec4 = Vec4(x: Float, y: Float, z: Float, w: Float)

  /** A 4x4 matrix as glm stores it: four columns. */
  datatype Mat4 = Mat4(c0: Vec4, c1: Vec4, c2: Vec4, c3: Vec4) {
    /** `m[i]`, the i-th column. */
    function Column(i: nat): Vec4
      requires i < 4
    {
      if i == 0 then c0 else if i == 1 then c1 else if i == 2 then c2 else c3
    }
  }

  const Vec3Zero := Vec3(FloatZero, FloatZero, FloatZero)

  datatype Sphere = Sphere(position: Vec3, radius: Float)
  datatype Plane = Plane(position: Vec3, normal: Vec3)

  datatype Vertex = Vertex(normal: Vec3, pos: Vec3)

  /** `Vertex vertices[3]`. */
  datatype Triangle = Triangle(v0: Vertex, v1: Vertex, v2: Vertex) {
    function At(i: nat): Vertex
      requires i < 3
    {
      if i == 0 then v0 else if i == 1 then v1 else v2
    }
  }

  /** `Triangle()`: every field is zero. */
  function ZeroTriangle(): (t: Triangle)
    ensures forall i :: 0 <= i < 3 ==> t.At(i).normal == Vec3Zero && t.At(i).pos == Vec3Zero
  {
    var v := Vertex(Vec3Zero, Vec3Zero);
    Triangle(v, v, v)
  }

  /** `Triangle(normal, pos0, pos1, pos2)`: a flat-shaded triangle, every vertex carries the
      one given normal. */
  function FlatTriangle(normal: Vec3, p0: Vec3, p1: Vec3, p2: Vec3): (t: Triangle)
    ensures forall i :: 0 <= i < 3 ==> t.At(i).normal == normal
    ensures t.At(0).pos == p0 && t.At(1).pos == p1 && t.At(2).pos == p2
  {
    Triangle(Vertex(normal, p0), Vertex(normal, p1), Vertex(normal, p2))
  }

  /** A collection of triangles: the range `triangleIndex .. triangleIndex + numTriangles`
      of the shared pool, its bounding box and its transform. */
  datatype Model = Model(triangleIndex: u32, numTriangles: u32,
                         boundingMin: Vec3, boundingMax: Vec3, transform: Mat4)

  /** The validity condition of a model: its range lies within a pool of `poolSize` triangles. */
  predicate InPool(m: Model, poolSize: nat)
  {
    m.triangleIndex + m.numTriangles <= poolSize
  }

  /** The triangles a model stands for. */
  function ModelTriangles(m: Model, pool: seq<Triangle>): (r: seq<Triangle>)
    requires InPool(m, |pool|)
    ensures |r| == m.numTriangles
    ensures forall k :: 0 <= k < |r| ==> r[k] == pool[m.triangleIndex + k]
  {
    pool[m.triangleIndex .. m.triangleIndex + m.numTriangles]
  }

  /** Appending to the pool (what both mesh loaders do) keeps every existing model valid and
      leaves the triangles it stands for unchanged. */
  lemma AppendKeepsModel(m: Model, pool: seq<Triangle>, more: seq<Triangle>)
    requires InPool(m, |pool|)
    ensures InPool(m, |pool + more|)
    ensures ModelTriangles(m, pool + more) == ModelTriangles(m, pool)
  {
    var a, b := ModelTriangles(m, pool + more), ModelTriangles(m, pool);
    assert |a| == |b|;
    forall k | 0 <= k < |a| ensures a[k] == b[k] {
      assert (pool + more)[m.triangleIndex + k] == pool[m.triangleIndex + k];
    }
  }

  /** `compute_bounding_box`: its body is not part of this model, so the model's bounds are
      whatever this function of the pool, the range and the transform yields. */
  type BoundingBoxFn = (seq<Triangle>, u32, u32, Mat4) -> (Vec3, Vec3)

  /** `Model(triangles, triangle_index, num_triangles)`: a model over the given range whose
      bounding box is computed from the pool. The default transform set by the constructor's
      body is not part of this model and is passed in. */
  function NewModel(pool: seq<Triangle>, index: u32, count: u32, transform: Mat4,
                    bounds: BoundingBoxFn): (m: Model)
    requires index + count <= |pool|
    ensures m.triangleIndex == index && m.numTriangles == count && m.transform == transform
    ensures InPool(m, |pool|)
    ensures (m.boundingMin, m.boundingMax) == bounds(pool, index, count, transform)
  {
    var (lo, hi) := bounds(pool, index, count, transform);
    Model(index, count, lo, hi, transform)
  }

  /** `ShapeType`: SHAPE_SPHERE = 0, SHAPE_PLANE = 1, SHAPE_MODEL = 2. */
  datatype ShapeType = ShapeSphere | ShapePlane | ShapeModel {
    function Code(): (c: nat)
      ensures c < 3
    {
      match this
      case ShapeSphere => 0
      case ShapePlane => 1
      case ShapeModel => 2
    }
  }

  /** The shape type stored under an enum code, if the code is one of the three. */
  function ShapeTypeOfCode(c: int): (r: Option<ShapeType>)
    ensures r.Some? <==> 0 <= c < 3
    ensures r.Some? ==> r.value.Code() == c
  {
    if c == 0 then Some(ShapeSphere)
    else if c == 1 then Some(ShapePlane)
    else if c == 2 then Some(ShapeModel)
    else None
  }

  /** There are exactly three shape types, and codes identify them. */
  lemma ShapeTypeCodeRoundTrip(t: ShapeType)
    ensures ShapeTypeOfCode(t.Code()) == Some(t)
  {
  }

  /** The union `U`: exactly one member is live. */
  datatype Payload = SpherePayload(sphere: Sphere) | PlanePayload(plane: Plane) | ModelPayload(model: Model)

  /** `Shape`: the tag `type`, the material index and the union. */
  datatype Shape = Shape(kind: ShapeType, material: i32, payload: Payload)

  /** The tag names the live member of the union. */
  predicate WellTagged(s: Shape)
  {
    match s.kind
    case ShapeSphere => s.payload.SpherePayload?
    case ShapePlane => s.payload.PlanePayload?
    case ShapeModel => s.payload.ModelPayload?
  }

  /** `Shape(material_index, const Sphere &)`. */
  function SphereShape(material: i32, s: Sphere): (r: Shape)
    ensures r.kind == ShapeSphere && r.material == material
    ensures WellTagged(r) && r.payload.sphere == s
  {
    Shape(ShapeSphere, material, SpherePayload(s))
  }

  /** `Shape(material_index, const Plane &)`. */
  function PlaneShape(material: i32, p: Plane): (r: Shape)
    ensures r.kind == ShapePlane && r.material == material
    ensures WellTagged(r) && r.payload.plane == p
  {
    Shape(ShapePlane, material, PlanePayload(p))
  }

  /** `Shape(material_index, const Model &)`. */
  function ModelShape(material: i32, m: Model): (r: Shape)
    ensures r.kind == ShapeModel && r.material == material
    ensures WellTagged(r) && r.payload.model == m
  {
    Shape(ShapeModel, material, ModelPayload(m))
  }

  /** Every well-tagged shape is the result of exactly one of the three constructors. */
  lemma WellTaggedIsConstructed(s: Shape)
    requires WellTagged(s)
    ensures s.kind == ShapeSphere ==> s == SphereShape(s.material, s.payload.sphere)
    ensures s.kind == ShapePlane ==> s == PlaneShape(s.material, s.payload.plane)
    ensures s.kind == ShapeModel ==> s == ModelShape(s.material, s.payload.model)
  {
  }
}
