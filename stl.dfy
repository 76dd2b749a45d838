/** The binary STL reader: an 80-byte header, a little-endian 32-bit facet count, then one
    packed 50-byte record per facet (normal, three corners, a 16-bit attribute). */
module Stl {
  import opened Common
  import opened Shapes
  import opened ModelFiles

  /** `sizeof(StlHeader)`: 80 header bytes and the 32-bit count. */
  const HeaderSize: nat := 84
  /** `sizeof(StlTriangle)`, packed: four float triples and a 16-bit attribute. */
  const RecordSize: nat := 50

  /** One facet record as the file stores it. */
  datatype Facet = Facet(normal: Vec3, v1: Vec3, v2: Vec3, v3: Vec3, attribute: u16)

  function FloatBytes(f: Float): (r: seq<byte>)
    ensures |r| == 4
  {
    U32ToBytes(f.bits)
  }

  function FloatOf(b: seq<byte>): Float
    requires |b| == 4
  {
    Float(U32FromBytes(b))
  }

  function Vec3Bytes(v: Vec3): (r: seq<byte>)
    ensures |r| == 12
  {
    FloatBytes(v.x) + FloatBytes(v.y) + FloatBytes(v.z)
  }

  function Vec3Of(b: seq<byte>): Vec3
    requires |b| == 12
  {
    Vec3(FloatOf(b[0..4]), FloatOf(b[4..8]), FloatOf(b[8..12]))
  }

  lemma Vec3BytesRoundTrip(v: Vec3)
    ensures Vec3Of(Vec3Bytes(v)) == v
  {
    var b := Vec3Bytes(v);
    assert b[0..4] == FloatBytes(v.x) && b[4..8] == FloatBytes(v.y) && b[8..12] == FloatBytes(v.z);
    U32BytesRoundTrip(v.x.bits);
    U32BytesRoundTrip(v.y.bits);
    U32BytesRoundTrip(v.z.bits);
  }

  function FacetBytes(f: Facet): (r: seq<byte>)
    ensures |r| == RecordSize
  {
    Vec3Bytes(f.normal) + Vec3Bytes(f.v1) + Vec3Bytes(f.v2) + Vec3Bytes(f.v3)
      + [f.attribute % 0x100, f.attribute / 0x100]
  }

  /** Reads one packed record. */
  function FacetOf(b: seq<byte>): Facet
    requires |b| == RecordSize
  {
    Facet(Vec3Of(b[0..12]), Vec3Of(b[12..24]), Vec3Of(b[24..36]), Vec3Of(b[36..48]),
          b[48] as int + 0x100 * (b[49] as int))
  }

  lemma FacetRoundTrip(f: Facet)
    ensures FacetOf(FacetBytes(f)) == f
  {
    var b := FacetBytes(f);
    assert b[0..12] == Vec3Bytes(f.normal) && b[12..24] == Vec3Bytes(f.v1);
    assert b[24..36] == Vec3Bytes(f.v2) && b[36..48] == Vec3Bytes(f.v3);
    Vec3BytesRoundTrip(f.normal);
    Vec3BytesRoundTrip(f.v1);
    Vec3BytesRoundTrip(f.v2);
    Vec3BytesRoundTrip(f.v3);
  }

  /** The triangle the loader makes of a record: the record's normal on all three corners. */
  function FacetTriangle(f: Facet): (t: Triangle)
    ensures forall i :: 0 <= i < 3 ==> t.At(i).normal == f.normal
    ensures t.At(0).pos == f.v1 && t.At(1).pos == f.v2 && t.At(2).pos == f.v3
  {
    FlatTriangle(f.normal, f.v1, f.v2, f.v3)
  }

  function FacetTriangles(fs: seq<Facet>): (r: seq<Triangle>)
    ensures |r| == |fs| && forall k :: 0 <= k < |fs| ==> r[k] == FacetTriangle(fs[k])
  {
    seq(|fs|, k requires 0 <= k < |fs| => FacetTriangle(fs[k]))
  }

  /** The facet count the header announces. */
  function Count(bytes: seq<byte>): u32
    requires HeaderSize <= |bytes|
  {
    U32FromBytes(bytes[80..84])
  }

  /** Record `i`, which starts right after the header and the `i` records before it. */
  function FacetAt(bytes: seq<byte>, i: nat): Facet
    requires HeaderSize + RecordSize * (i + 1) <= |bytes|
  {
    FacetOf(bytes[HeaderSize + RecordSize * i .. HeaderSize + RecordSize * i + RecordSize])
  }

  /** The facets of a binary STL file, or `None` when the file is shorter than its header
      and the records the header announces (bytes after those records are ignored). */
  function Parse(bytes: seq<byte>): (r: Option<seq<Facet>>)
    ensures r.Some? <==> HeaderSize <= |bytes| && HeaderSize + RecordSize * Count(bytes) <= |bytes|
    ensures r.Some? ==> |r.value| == Count(bytes)
    ensures r.Some? ==> forall i :: 0 <= i < |r.value| ==> r.value[i] == FacetAt(bytes, i)
  {
    if |bytes| < HeaderSize then None
    else
      var n := Count(bytes);
      if |bytes| < HeaderSize + RecordSize * n then None
      else Some(seq(n, i requires 0 <= i < n => FacetAt(bytes, i)))
  }

  /** The records back to back. */
  function RecordsBytes(fs: seq<Facet>): (r: seq<byte>)
    ensures |r| == RecordSize * |fs|
    ensures forall k :: 0 <= k < |fs| ==> r[RecordSize * k .. RecordSize * k + RecordSize] == FacetBytes(fs[k])
  {
    if fs == [] then []
    else
      var init := fs[..|fs| - 1];
      var prefix := RecordsBytes(init);
      var r := prefix + FacetBytes(fs[|fs| - 1]);
      forall k | 0 <= k < |fs|
        ensures r[RecordSize * k .. RecordSize * k + RecordSize] == FacetBytes(fs[k])
      {
        var a: nat := RecordSize * k;
        if k < |init| {
          assert init[k] == fs[k];
          SliceOfFront(prefix, FacetBytes(fs[|fs| - 1]), a, a + RecordSize);
        } else {
          SliceOfBack(prefix, FacetBytes(fs[|fs| - 1]), a, a + RecordSize);
        }
      }
      r
  }

  /** A binary STL file: the given 80 header bytes, the facet count, the records. */
  function Encode(header: seq<byte>, fs: seq<Facet>): (r: seq<byte>)
    requires |header| == 80 && |fs| < 0x1_0000_0000
    ensures |r| == HeaderSize + RecordSize * |fs|
  {
    header + U32ToBytes(|fs|) + RecordsBytes(fs)
  }

  /** Reading a file written with `Encode` gives back its facets, attributes included. */
  lemma ParseEncode(header: seq<byte>, fs: seq<Facet>)
    requires |header| == 80 && |fs| < 0x1_0000_0000
    ensures Parse(Encode(header, fs)) == Some(fs)
  {
    var b := Encode(header, fs);
    var body := RecordsBytes(fs);
    assert b[80..84] == U32ToBytes(|fs|);
    U32BytesRoundTrip(|fs|);
    assert Count(b) == |fs|;
    var r := Parse(b).value;
    forall i | 0 <= i < |fs|
      ensures r[i] == fs[i]
    {
      var off := HeaderSize + RecordSize * i;
      assert b[off..off + RecordSize] == body[RecordSize * i .. RecordSize * i + RecordSize];
      FacetRoundTrip(fs[i]);
    }
    assert r == fs;
  }

  /** `load_stl_model`: appends one flat triangle per record to the pool. A file that cannot be
      opened leaves the pool as it was. */
  method Load(file: Option<seq<byte>>, triangles: seq<Triangle>) returns (result: LoadResult, pool: seq<Triangle>)
    ensures file.None? ==> result == NotOpened && pool == triangles
    ensures file.Some? && Parse(file.value).None? ==> result == Malformed && pool == triangles
    ensures file.Some? && Parse(file.value).Some? ==>
      var fs := Parse(file.value).value;
      result == Loaded(PairIndex(|triangles|), |fs|) && pool == triangles + FacetTriangles(fs)
  {
    if file.None? {
      return NotOpened, triangles;
    }
    var bytes := file.value;
    if |bytes| < HeaderSize {
      return Malformed, triangles;
    }
    var count := U32FromBytes(bytes[80..84]);
    if |bytes| < HeaderSize + RecordSize * count {
      return Malformed, triangles;
    }
    var modelIndex := |triangles|;
    pool := AppendFacets(bytes, count, triangles);
    result := Loaded(PairIndex(modelIndex), count);
    assert pool == triangles + FacetTriangles(Parse(bytes).value);
  }

  /** The record loop of `load_stl_model`: the triangle of each of the `count` records,
      appended to the pool in file order. */
  method AppendFacets(bytes: seq<byte>, count: nat, triangles: seq<Triangle>) returns (pool: seq<Triangle>)
    requires HeaderSize + RecordSize * count <= |bytes|
    ensures |pool| == |triangles| + count && pool[..|triangles|] == triangles
    ensures forall k :: 0 <= k < count ==> pool[|triangles| + k] == FacetTriangle(FacetAt(bytes, k))
  {
    pool := triangles;
    var i := 0;
    while i < count
      invariant 0 <= i <= count
      invariant |pool| == |triangles| + i && pool[..|triangles|] == triangles
      invariant forall k :: 0 <= k < i ==> pool[|triangles| + k] == FacetTriangle(FacetAt(bytes, k))
    {
      var offset := HeaderSize + RecordSize * i;
      var record := FacetOf(bytes[offset..offset + RecordSize]);
      pool := pool + [FacetTriangle(record)];
      i := i + 1;
    }
  }
}
