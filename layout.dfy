/** The binary layout of the `Shape` record, as `update_scene` copies a vector of shapes
    byte for byte into the device buffer and as the kernel reads it back. Each field is
    placed at its C++ offset: members declared `alignas(cl_float3)` start on a 16-byte
    boundary, the union starts at offset 16 and is as large as its largest member
    (`Model`, 112 bytes), so `sizeof(Shape)` is 128. Padding bytes and the bytes of the
    union members that are not live are left undefined by the host: they are `None`. */
module Layout {
  import opened Common
  import opened Shapes

  /** Bytes of a record in memory; `None` where the host leaves the byte undefined. */
  type Cells = seq<Option<byte>>

  /** `sizeof(Shape)`. */
  const ShapeSize: nat := 128
  /** `sizeof(Model)`, the size of the union. */
  const UnionSize: nat := 112

  function Pad(n: nat): (r: Cells)
    ensures |r| == n
    ensures forall i :: 0 <= i < n ==> r[i].None?
  {
    seq(n, _ => None)
  }

  function EncodeU32(v: u32): (r: Cells)
    ensures |r| == 4
  {
    var b := U32ToBytes(v);
    [Some(b[0]), Some(b[1]), Some(b[2]), Some(b[3])]
  }

  function DecodeU32(c: Cells): (r: Option<u32>)
    requires |c| == 4
    ensures r.Some? <==> (forall i :: 0 <= i < 4 ==> c[i].Some?)
  {
    if c[0].Some? && c[1].Some? && c[2].Some? && c[3].Some?
    then Some(U32FromBytes([c[0].value, c[1].value, c[2].value, c[3].value]))
    else None
  }

  lemma U32RoundTrip(v: u32)
    ensures DecodeU32(EncodeU32(v)) == Some(v)
  {
    var b := U32ToBytes(v);
    assert [b[0], b[1], b[2], b[3]] == b;
    U32BytesRoundTrip(v);
  }

  /** A `cl_int` in two's complement. */
  function EncodeI32(v: i32): (r: Cells)
    ensures |r| == 4
  {
    EncodeU32(if v < 0 then v + 0x1_0000_0000 else v)
  }

  function DecodeI32(c: Cells): (r: Option<i32>)
    requires |c| == 4
  {
    match DecodeU32(c)
    case None => None
    case Some(u) => Some(if u < 0x8000_0000 then u else u - 0x1_0000_0000)
  }

  lemma I32RoundTrip(v: i32)
    ensures DecodeI32(EncodeI32(v)) == Some(v)
  {
    U32RoundTrip(if v < 0 then v + 0x1_0000_0000 else v);
  }

  function EncodeFloat(f: Float): (r: Cells)
    ensures |r| == 4
  {
    EncodeU32(f.bits)
  }

  function DecodeFloat(c: Cells): (r: Option<Float>)
    requires |c| == 4
  {
    match DecodeU32(c)
    case None => None
    case Some(u) => Some(Float(u))
  }

  lemma FloatRoundTrip(f: Float)
    ensures DecodeFloat(EncodeFloat(f)) == Some(f)
  {
    U32RoundTrip(f.bits);
  }

  /** A `glm::vec3`: three floats, 12 bytes. */
  function EncodeVec3(v: Vec3): (r: Cells)
    ensures |r| == 12
  {
    EncodeFloat(v.x) + EncodeFloat(v.y) + EncodeFloat(v.z)
  }

  function DecodeVec3(c: Cells): Option<Vec3>
    requires |c| == 12
  {
    var x, y, z := DecodeFloat(c[0..4]), DecodeFloat(c[4..8]), DecodeFloat(c[8..12]);
    if x.Some? && y.Some? && z.Some? then Some(Vec3(x.value, y.value, z.value)) else None
  }

  lemma Vec3RoundTrip(v: Vec3)
    ensures DecodeVec3(EncodeVec3(v)) == Some(v)
  {
    var c := EncodeVec3(v);
    assert c[0..4] == EncodeFloat(v.x);
    assert c[4..8] == EncodeFloat(v.y);
    assert c[8..12] == EncodeFloat(v.z);
    FloatRoundTrip(v.x);
    FloatRoundTrip(v.y);
    FloatRoundTrip(v.z);
  }

  /** A `glm::vec4`: four floats, 16 bytes. */
  function EncodeVec4(v: Vec4): (r: Cells)
    ensures |r| == 16
  {
    EncodeFloat(v.x) + EncodeFloat(v.y) + EncodeFloat(v.z) + EncodeFloat(v.w)
  }

  function DecodeVec4(c: Cells): Option<Vec4>
    requires |c| == 16
  {
    var x, y, z, w := DecodeFloat(c[0..4]), DecodeFloat(c[4..8]), DecodeFloat(c[8..12]), DecodeFloat(c[12..16]);
    if x.Some? && y.Some? && z.Some? && w.Some? then Some(Vec4(x.value, y.value, z.value, w.value)) else None
  }

  lemma Vec4RoundTrip(v: Vec4)
    ensures DecodeVec4(EncodeVec4(v)) == Some(v)
  {
    var c := EncodeVec4(v);
    assert c[0..4] == EncodeFloat(v.x);
    assert c[4..8] == EncodeFloat(v.y);
    assert c[8..12] == EncodeFloat(v.z);
    assert c[12..16] == EncodeFloat(v.w);
    FloatRoundTrip(v.x);
    FloatRoundTrip(v.y);
    FloatRoundTrip(v.z);
    FloatRoundTrip(v.w);
  }

  /** A `glm::mat4`: its four columns in order, 64 bytes. */
  function EncodeMat4(m: Mat4): (r: Cells)
    ensures |r| == 64
  {
    EncodeVec4(m.c0) + EncodeVec4(m.c1) + EncodeVec4(m.c2) + EncodeVec4(m.c3)
  }

  function DecodeMat4(c: Cells): Option<Mat4>
    requires |c| == 64
  {
    var a, b, d, e := DecodeVec4(c[0..16]), DecodeVec4(c[16..32]), DecodeVec4(c[32..48]), DecodeVec4(c[48..64]);
    if a.Some? && b.Some? && d.Some? && e.Some? then Some(Mat4(a.value, b.value, d.value, e.value)) else None
  }

  lemma Mat4RoundTrip(m: Mat4)
    ensures DecodeMat4(EncodeMat4(m)) == Some(m)
  {
    var c := EncodeMat4(m);
    assert c[0..16] == EncodeVec4(m.c0);
    assert c[16..32] == EncodeVec4(m.c1);
    assert c[32..48] == EncodeVec4(m.c2);
    assert c[48..64] == EncodeVec4(m.c3);
    Vec4RoundTrip(m.c0);
    Vec4RoundTrip(m.c1);
    Vec4RoundTrip(m.c2);
    Vec4RoundTrip(m.c3);
  }

  /** `Sphere`: position at 0, radius at 16 (`alignas(cl_float3)`), 32 bytes. */
  function EncodeSphere(s: Sphere): (r: Cells)
    ensures |r| == 32
  {
    EncodeVec3(s.position) + Pad(4) + EncodeFloat(s.radius) + Pad(12)
  }

  function DecodeSphere(c: Cells): Option<Sphere>
    requires |c| == 32
  {
    var p, r := DecodeVec3(c[0..12]), DecodeFloat(c[16..20]);
    if p.Some? && r.Some? then Some(Sphere(p.value, r.value)) else None
  }

  lemma SphereRoundTrip(s: Sphere)
    ensures DecodeSphere(EncodeSphere(s)) == Some(s)
  {
    var c := EncodeSphere(s);
    assert c[0..12] == EncodeVec3(s.position);
    assert c[16..20] == EncodeFloat(s.radius);
    Vec3RoundTrip(s.position);
    FloatRoundTrip(s.radius);
  }

  /** `Plane`: position at 0, normal at 16 (`alignas(cl_float3)`), 32 bytes. */
  function EncodePlane(p: Plane): (r: Cells)
    ensures |r| == 32
  {
    EncodeVec3(p.position) + Pad(4) + EncodeVec3(p.normal) + Pad(4)
  }

  function DecodePlane(c: Cells): Option<Plane>
    requires |c| == 32
  {
    var p, n := DecodeVec3(c[0..12]), DecodeVec3(c[16..28]);
    if p.Some? && n.Some? then Some(Plane(p.value, n.value)) else None
  }

  lemma PlaneRoundTrip(p: Plane)
    ensures DecodePlane(EncodePlane(p)) == Some(p)
  {
    var c := EncodePlane(p);
    assert c[0..12] == EncodeVec3(p.position);
    assert c[16..28] == EncodeVec3(p.normal);
    Vec3RoundTrip(p.position);
    Vec3RoundTrip(p.normal);
  }

  /** `Model`: the two `cl_uint` range fields at 0 and 4, the bounding box at 16 and 32 and
      the transform at 48, 112 bytes. */
  function EncodeModel(m: Model): (r: Cells)
    ensures |r| == UnionSize
  {
    EncodeU32(m.triangleIndex) + EncodeU32(m.numTriangles) + Pad(8)
      + EncodeVec3(m.boundingMin) + Pad(4) + EncodeVec3(m.boundingMax) + Pad(4)
      + EncodeMat4(m.transform)
  }

  function DecodeModel(c: Cells): Option<Model>
    requires |c| == UnionSize
  {
    var i, n := DecodeU32(c[0..4]), DecodeU32(c[4..8]);
    var lo, hi, t := DecodeVec3(c[16..28]), DecodeVec3(c[32..44]), DecodeMat4(c[48..112]);
    if i.Some? && n.Some? && lo.Some? && hi.Some? && t.Some?
    then Some(Model(i.value, n.value, lo.value, hi.value, t.value))
    else None
  }

  lemma ModelRoundTrip(m: Model)
    ensures DecodeModel(EncodeModel(m)) == Some(m)
  {
    var c := EncodeModel(m);
    assert c[0..4] == EncodeU32(m.triangleIndex);
    assert c[4..8] == EncodeU32(m.numTriangles);
    assert c[16..28] == EncodeVec3(m.boundingMin);
    assert c[32..44] == EncodeVec3(m.boundingMax);
    assert c[48..112] == EncodeMat4(m.transform);
    U32RoundTrip(m.triangleIndex);
    U32RoundTrip(m.numTriangles);
    Vec3RoundTrip(m.boundingMin);
    Vec3RoundTrip(m.boundingMax);
    Mat4RoundTrip(m.transform);
  }

  /** The union: the live member's bytes, then undefined bytes up to the union's size. */
  function EncodePayload(p: Payload): (r: Cells)
    ensures |r| == UnionSize
  {
    match p
    case SpherePayload(s) => EncodeSphere(s) + Pad(UnionSize - 32)
    case PlanePayload(pl) => EncodePlane(pl) + Pad(UnionSize - 32)
    case ModelPayload(m) => EncodeModel(m)
  }

  /** The bytes of one `Shape`: the tag at 0, the material index at 4, the union at 16. */
  function EncodeShape(s: Shape): (r: Cells)
    ensures |r| == ShapeSize
  {
    EncodeI32(s.kind.Code()) + EncodeI32(s.material) + Pad(8) + EncodePayload(s.payload)
  }

  /** How the device reads one `Shape` record: the tag selects which union member to read. */
  function DecodeShape(c: Cells): (r: Option<Shape>)
    requires |c| == ShapeSize
    ensures r.Some? ==> WellTagged(r.value)
  {
    var tag, mat := DecodeI32(c[0..4]), DecodeI32(c[4..8]);
    if tag.None? || mat.None? then None
    else
      var u := c[16..ShapeSize];
      match ShapeTypeOfCode(tag.value)
      case None => None
      case Some(ShapeSphere) =>
        (match DecodeSphere(u[0..32]) case Some(s) => Some(SphereShape(mat.value, s)) case None => None)
      case Some(ShapePlane) =>
        (match DecodePlane(u[0..32]) case Some(p) => Some(PlaneShape(mat.value, p)) case None => None)
      case Some(ShapeModel) =>
        (match DecodeModel(u) case Some(m) => Some(ModelShape(mat.value, m)) case None => None)
  }

  /** The device reads back every well-tagged shape the host wrote. */
  lemma ShapeRoundTrip(s: Shape)
    requires WellTagged(s)
    ensures DecodeShape(EncodeShape(s)) == Some(s)
  {
    ShapeFields(s);
    match s.payload
    case SpherePayload(sp) =>
      assert EncodePayload(s.payload)[0..32] == EncodeSphere(sp);
      SphereRoundTrip(sp);
    case PlanePayload(pl) =>
      assert EncodePayload(s.payload)[0..32] == EncodePlane(pl);
      PlaneRoundTrip(pl);
    case ModelPayload(m) =>
      ModelRoundTrip(m);
  }

  /** The tag and the material index of a shape record read back, and its union lies at 16. */
  lemma ShapeFields(s: Shape)
    ensures var c := EncodeShape(s);
      DecodeI32(c[0..4]) == Some(s.kind.Code()) && DecodeI32(c[4..8]) == Some(s.material)
      && ShapeTypeOfCode(s.kind.Code()) == Some(s.kind) && c[16..ShapeSize] == EncodePayload(s.payload)
  {
    var c := EncodeShape(s);
    assert c[0..4] == EncodeI32(s.kind.Code());
    assert c[4..8] == EncodeI32(s.material);
    assert c[16..ShapeSize] == EncodePayload(s.payload);
    I32RoundTrip(s.kind.Code());
    I32RoundTrip(s.material);
    ShapeTypeCodeRoundTrip(s.kind);
  }

  /** Records of `ShapeSize` bytes each, laid out back to back. */
  function Records(parts: seq<Cells>): (r: Cells)
    requires forall k :: 0 <= k < |parts| ==> |parts[k]| == ShapeSize
    ensures |r| == ShapeSize * |parts|
    ensures forall k :: 0 <= k < |parts| ==> r[ShapeSize * k .. ShapeSize * k + ShapeSize] == parts[k]
  {
    if parts == [] then []
    else
      var init := parts[..|parts| - 1];
      var prefix := Records(init);
      var r := prefix + parts[|parts| - 1];
      forall k | 0 <= k < |parts|
        ensures r[ShapeSize * k .. ShapeSize * k + ShapeSize] == parts[k]
      {
        var a: nat := ShapeSize * k;
        if k < |init| {
          SliceOfFront(prefix, parts[|parts| - 1], a, a + ShapeSize);
        } else {
          SliceOfBack(prefix, parts[|parts| - 1], a, a + ShapeSize);
        }
      }
      r
  }

  /** The bytes of `inputShapes.data()`: the records back to back. */
  function EncodeShapes(ss: seq<Shape>): (r: Cells)
    ensures |r| == ShapeSize * |ss| && |r| % ShapeSize == 0
    ensures forall k :: 0 <= k < |ss| ==> r[ShapeSize * k .. ShapeSize * k + ShapeSize] == EncodeShape(ss[k])
  {
    var parts := seq(|ss|, k requires 0 <= k < |ss| => EncodeShape(ss[k]));
    assert forall k :: 0 <= k < |ss| ==> parts[k] == EncodeShape(ss[k]);
    RecordsFill(|ss|);
    Records(parts)
  }

  /** Whole records fill a whole number of record slots. */
  lemma RecordsFill(count: nat)
    ensures (ShapeSize * count) % ShapeSize == 0
  {
  }

  /** How the device reads a buffer of shape records, one record after another. */
  function DecodeShapes(c: Cells): (r: Option<seq<Shape>>)
    requires |c| % ShapeSize == 0
    ensures r.Some? ==> ShapeSize * |r.value| == |c|
    decreases |c|
  {
    if c == [] then Some([])
    else
      var n := |c| - ShapeSize;
      match (DecodeShapes(c[..n]), DecodeShape(c[n..]))
      case (Some(init), Some(last)) => Some(init + [last])
      case _ => None
  }

  /** The device reads back the shapes that were written, in order. */
  lemma {:induction false} ShapesRoundTrip(ss: seq<Shape>)
    requires forall k :: 0 <= k < |ss| ==> WellTagged(ss[k])
    ensures DecodeShapes(EncodeShapes(ss)) == Some(ss)
  {
    if ss != [] {
      var init, last := ss[..|ss| - 1], ss[|ss| - 1];
      assert init + [last] == ss;
      var c := EncodeShapes(ss);
      var n: nat := ShapeSize * |init|;
      SnocRecords(init, last, c, n);
      ShapesRoundTrip(init);
      ShapeRoundTrip(last);
      DecodeShapesSnoc(c, n, init, last);
    }
  }

  /** The records of a list with one more shape: the records before it, then its record. */
  lemma SnocRecords(init: seq<Shape>, last: Shape, c: Cells, n: nat)
    requires c == EncodeShapes(init + [last]) && n == ShapeSize * |init|
    ensures n + ShapeSize == |c| && c[..n] == EncodeShapes(init) && c[n..] == EncodeShape(last)
  {
    EncodeShapesSnoc(init, last);
  }

  /** `DecodeShapes` on records whose front decodes to `init` and whose last one to `last`. */
  lemma DecodeShapesSnoc(c: Cells, n: nat, init: seq<Shape>, last: Shape)
    requires n + ShapeSize == |c| && |c| % ShapeSize == 0
    requires DecodeShapes(c[..n]) == Some(init) && DecodeShape(c[n..]) == Some(last)
    ensures DecodeShapes(c) == Some(init + [last])
  {
  }

  lemma EncodeShapesSnoc(init: seq<Shape>, last: Shape)
    ensures EncodeShapes(init + [last]) == EncodeShapes(init) + EncodeShape(last)
  {
    var ss := init + [last];
    var parts := seq(|ss|, k requires 0 <= k < |ss| => EncodeShape(ss[k]));
    var front := seq(|init|, k requires 0 <= k < |init| => EncodeShape(init[k]));
    assert parts[..|parts| - 1] == front;
    assert parts[|parts| - 1] == EncodeShape(last);
  }
}
