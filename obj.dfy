/** The Wavefront OBJ reader: the file is read line by line into lists of positions (`v`),
    normals (`vn`) and faces (`f`, three `vertex/uv/normal` corners); then each face becomes a
    triangle of the shared pool, looking its corners up by 1-based or end-relative indices.
    Float parsing and `glm::normalize` are not modelled: they are parameters. */
module Obj {
  import opened Common
  import opened Shapes
  import opened Text
  import opened ModelFiles

  /** `stream >> x` for a float. */
  type FloatReader = Stream -> (Float, Stream)
  /** `glm::normalize`. */
  type Normalizer = Vec3 -> Vec3

  /** One corner of a face: the position and normal indices as read. `None` is an index the
      reader left unset (no `//` part, or an extraction that failed). */
  datatype Corner = Corner(vertex: Option<int>, normal: Option<int>)

  datatype Face = Face(a: Corner, b: Corner, c: Corner) {
    function At(i: nat): Corner
      requires i < 3
    {
      if i == 0 then a else if i == 1 then b else c
    }
  }

  /** `stream >> n` into an int: a number outside the 32-bit range fails the stream. */
  function ReadI32(s: Stream): (r: (Option<int>, Stream))
    requires s.Valid()
    ensures r.1.Valid() && r.1.text == s.text
    ensures r.0.Some? ==> -0x8000_0000 <= r.0.value < 0x8000_0000 && ReadInt(s) == r
  {
    var n := ReadInt(s);
    if n.0.Some? && -0x8000_0000 <= n.0.value < 0x8000_0000 then n
    else (None, n.1.(failed := true))
  }

  /** What `extract_index` did: the corner, the stream after it, and whether it went on to
      read a normal index (the point where the source checks for a following space). */
  datatype CornerRead = CornerRead(corner: Corner, rest: Stream, readNormal: bool)

  /** `extract_index`: the position index; after a `/`, an optional texture index (skipped);
      after a second `/`, the normal index. */
  function ReadCorner(s: Stream): (r: CornerRead)
    requires s.Valid()
    ensures r.rest.Valid() && r.rest.text == s.text
    ensures r.corner.normal.Some? ==> r.readNormal
  {
    var vertex := ReadI32(s);
    var slash := Get(vertex.1);
    if slash.0 != Some('/') then CornerRead(Corner(vertex.0, None), slash.1, false)
    else
      var uv := if Peek(slash.1) != Some('/') then ReadI32(slash.1).1 else slash.1;
      var slash2 := Get(uv);
      if slash2.0 != Some('/') then CornerRead(Corner(vertex.0, None), slash2.1, false)
      else
        var normal := ReadI32(slash2.1);
        CornerRead(Corner(vertex.0, normal.0), normal.1, true)
  }

  /** The three corners of an `f` line, read one after the other. */
  function ReadFace(s: Stream): Face
    requires s.Valid()
  {
    var a := ReadCorner(s);
    var b := ReadCorner(a.rest);
    var c := ReadCorner(b.rest);
    Face(a.corner, b.corner, c.corner)
  }

  /** `extract_index` with its check that a space follows a normal index, as evaluated when
      assertions are enabled: `None` is the assertion failure that aborts the program. */
  function ReadCornerChecked(s: Stream): (r: Option<(Corner, Stream)>)
    requires s.Valid()
    ensures r.Some? ==> r.value.0 == ReadCorner(s).corner && r.value.1.Valid()
  {
    var c := ReadCorner(s);
    if !c.readNormal then Some((c.corner, c.rest))
    else
      var space := Get(c.rest);
      if space.0 == Some(' ') then Some((c.corner, space.1)) else None
  }

  function ReadFaceChecked(s: Stream): Option<Face>
    requires s.Valid()
  {
    var a := ReadCornerChecked(s);
    if a.None? then None
    else
      var b := ReadCornerChecked(a.value.1);
      if b.None? then None
      else
        var c := ReadCornerChecked(b.value.1);
        if c.None? then None else Some(Face(a.value.0, b.value.0, c.value.0))
  }

  /** The space the check consumes is one `>>` would skip anyway: a corner read from a space
      is the corner read from just after it. */
  lemma ReadCornerAfterSpace(t: string, p: nat)
    requires p < |t| && t[p] == ' '
    ensures ReadCorner(Stream(t, p, false)) == ReadCorner(Stream(t, p + 1, false))
  {
    ReadIntAfterSpace(t, p);
    SameFirstRead(Stream(t, p, false), Stream(t, p + 1, false));
  }

  lemma ReadIntAfterSpace(t: string, p: nat)
    requires p < |t| && t[p] == ' '
    ensures ReadI32(Stream(t, p, false)) == ReadI32(Stream(t, p + 1, false))
  {
    assert SkipSpaces(t, p) == SkipSpaces(t, p + 1);
  }

  /** `extract_index` depends on where it starts only through its first extraction. */
  lemma SameFirstRead(s1: Stream, s2: Stream)
    requires s1.Valid() && s2.Valid() && ReadI32(s1) == ReadI32(s2)
    ensures ReadCorner(s1) == ReadCorner(s2)
  {
  }

  /** Where the check passes, a corner with it leaves the stream where the next corner is
      read exactly as it is without it. */
  lemma CheckedCornerAgrees(s: Stream)
    requires s.Valid() && ReadCornerChecked(s).Some?
    ensures ReadCornerChecked(s).value.0 == ReadCorner(s).corner
    ensures ReadCorner(ReadCornerChecked(s).value.1) == ReadCorner(ReadCorner(s).rest)
  {
    var c := ReadCorner(s);
    if c.readNormal {
      ReadCornerAfterSpace(c.rest.text, c.rest.pos);
    }
  }

  /** A build with assertions and one without read the same face whenever the checks pass:
      the checks only add the abort. */
  lemma CheckedFaceAgrees(s: Stream)
    requires s.Valid() && ReadFaceChecked(s).Some?
    ensures ReadFaceChecked(s) == Some(ReadFace(s))
  {
    var a := ReadCornerChecked(s);
    CheckedCornerAgrees(s);
    var b := ReadCornerChecked(a.value.1);
    CheckedCornerAgrees(a.value.1);
    CheckedCornerAgrees(b.value.1);
  }

  function ReadVec3(s: Stream, readFloat: FloatReader): Vec3
  {
    var x := readFloat(s);
    var y := readFloat(x.1);
    var z := readFloat(y.1);
    Vec3(x.0, y.0, z.0)
  }

  /** `std::getline(stream, mode, ' ')`: the line's first word. */
  function Mode(line: string): (mode: string)
    ensures mode <= line && ' ' !in mode
  {
    line[..IndexOf(line, ' ')]
  }

  /** The line stream after its first word and the space that ends it. */
  function AfterMode(line: string): (s: Stream)
    ensures s.Valid() && s.text == line && !s.failed && |Mode(line)| <= s.pos
  {
    var i := IndexOf(line, ' ');
    Stream(line, if i < |line| then i + 1 else i, false)
  }

  /** A corner with both indices set, each within the 32-bit range. */
  predicate Written(c: Corner)
  {
    c.vertex.Some? && c.normal.Some?
    && -0x8000_0000 <= c.vertex.value < 0x8000_0000 && -0x8000_0000 <= c.normal.value < 0x8000_0000
  }

  /** A corner as an exporter writes it without texture coordinates: `vertex//normal`. */
  function CornerText(c: Corner): (t: string)
    requires Written(c)
    ensures |t| == |IntToString(c.vertex.value)| + 2 + |IntToString(c.normal.value)|
  {
    IntToString(c.vertex.value) + "//" + IntToString(c.normal.value)
  }

  /** An `f` line of three such corners. */
  function FaceText(f: Face): string
    requires Written(f.a) && Written(f.b) && Written(f.c)
  {
    LineText(CornerText(f.a), CornerText(f.b), CornerText(f.c))
  }

  /** A face line with three words for its corners. */
  function LineText(ta: string, tb: string, tc: string): string
  {
    "f " + ta + " " + tb + " " + tc
  }

  /** Where the pieces of a corner lie in a text that holds it at `p`. */
  lemma CornerLayout(t: string, p: nat, e: nat, end: nat, c: Corner)
    requires Written(c) && end == p + |CornerText(c)| <= |t| && t[p..end] == CornerText(c)
    requires e == p + |IntToString(c.vertex.value)|
    ensures e + 2 + |IntToString(c.normal.value)| == end
    ensures t[p..e] == IntToString(c.vertex.value) && t[e] == '/' && t[e + 1] == '/'
    ensures t[e + 2..end] == IntToString(c.normal.value)
  {
    SlashSplit(t, p, e, end, IntToString(c.vertex.value), IntToString(c.normal.value));
  }

  lemma SlashSplit(t: string, p: nat, e: nat, end: nat, sv: string, sn: string)
    requires p <= end <= |t| && t[p..end] == sv + "//" + sn && e == p + |sv|
    ensures e + 2 + |sn| == end && t[p..e] == sv && t[e] == '/' && t[e + 1] == '/' && t[e + 2..end] == sn
  {
    var w := t[p..end];
    assert t[p..e] == w[..|sv|] && w[..|sv|] == sv;
    assert t[e] == w[|sv|] == '/';
    assert t[e + 1] == w[|sv| + 1] == '/';
    assert t[e + 2..end] == w[|sv| + 2..] && w[|sv| + 2..] == sn;
  }

  /** From `q`, past whitespace up to a corner written at `p` and not followed by a digit,
      `extract_index` reads the corner's two indices and stops right after it. */
  lemma ReadCornerAt(t: string, q: nat, p: nat, end: nat, c: Corner)
    requires Written(c) && q <= p && end == p + |CornerText(c)| <= |t|
    requires forall k :: q <= k < p ==> IsSpace(t[k])
    requires t[p..end] == CornerText(c)
    requires end < |t| ==> !IsDigit(t[end])
    ensures ReadCorner(Stream(t, q, false)) == CornerRead(c, Stream(t, end, false), true)
  {
    var sv := IntToString(c.vertex.value);
    var e := p + |sv|;
    CornerLayout(t, p, e, end, c);
    VertexIndexAt(t, q, p, e, c);
    NormalIndexAt(t, e, end, c);
    ReadCornerSteps(t, q, e, end, c);
  }

  lemma VertexIndexAt(t: string, q: nat, p: nat, e: nat, c: Corner)
    requires Written(c) && q <= p && e == p + |IntToString(c.vertex.value)| < |t|
    requires forall k :: q <= k < p ==> IsSpace(t[k])
    requires t[p..e] == IntToString(c.vertex.value) && t[e] == '/'
    ensures ReadInt(Stream(t, q, false)) == (c.vertex, Stream(t, e, false))
  {
    ReadIntAt(t, q, p, e, c.vertex.value);
  }

  lemma NormalIndexAt(t: string, e: nat, end: nat, c: Corner)
    requires Written(c) && e + 2 + |IntToString(c.normal.value)| == end <= |t|
    requires t[e + 2..end] == IntToString(c.normal.value)
    requires end < |t| ==> !IsDigit(t[end])
    ensures ReadInt(Stream(t, e + 2, false)) == (c.normal, Stream(t, end, false))
  {
    ReadIntAt(t, e + 2, e + 2, end, c.normal.value);
  }

  /** `extract_index` on a text whose two indices and two slashes have been located. */
  lemma ReadCornerSteps(t: string, q: nat, e: nat, end: nat, c: Corner)
    requires Written(c) && q <= e && e + 2 <= end <= |t| && t[e] == '/' && t[e + 1] == '/'
    requires ReadInt(Stream(t, q, false)) == (c.vertex, Stream(t, e, false))
    requires ReadInt(Stream(t, e + 2, false)) == (c.normal, Stream(t, end, false))
    ensures ReadCorner(Stream(t, q, false)) == CornerRead(c, Stream(t, end, false), true)
  {
    var v := ReadI32(Stream(t, q, false));
    assert v == (c.vertex, Stream(t, e, false));
    var g := Get(v.1);
    assert g == (Some('/'), Stream(t, e + 1, false));
    assert Peek(g.1) == Some('/');
    var g2 := Get(g.1);
    assert g2 == (Some('/'), Stream(t, e + 2, false));
    var n := ReadI32(g2.1);
    assert n == (c.normal, Stream(t, end, false));
  }

  /** Where three words lie in a line `f <a> <b> <c>`. */
  lemma LineSpans(ta: string, tb: string, tc: string)
    ensures var p1 := 3 + |ta|; LineAt(LineText(ta, tb, tc), ta, tb, tc, p1, p1 + 1 + |tb|)
  {
    var t := LineText(ta, tb, tc);
    var u1, u2, u3 := "f ", "f " + ta + " ", "f " + ta + " " + tb + " ";
    var v1, v2, v3 := " " + tb + " " + tc, " " + tc, "";
    var p1: nat, p2: nat := 3 + |ta|, 3 + |ta| + 1 + |tb|;
    var e1: nat, e2: nat, n: nat := p1 - 1, p2 - 1, |t|;
    assert t == u1 + ta + v1;
    assert t == u2 + tb + v2;
    assert t == u3 + tc + v3;
    WordInText(t, u1, ta, v1, 1, 2, e1);
    WordInText(t, u2, tb, v2, e1, p1, e2);
    WordInText(t, u3, tc, v3, e2, p2, n);
  }

  /** A face line's mode is `f`, and its corners start after `f `. */
  lemma FaceMode(f: Face)
    requires Written(f.a) && Written(f.b) && Written(f.c)
    ensures Mode(FaceText(f)) == "f" && AfterMode(FaceText(f)) == Stream(FaceText(f), 2, false)
  {
    var t := FaceText(f);
    assert t[0] == 'f' && t[1] == ' ';
    ModeF(t);
  }

  lemma ModeF(t: string)
    requires 2 <= |t| && t[0] == 'f' && t[1] == ' '
    ensures Mode(t) == "f" && AfterMode(t) == Stream(t, 2, false)
  {
    assert IndexOf(t, ' ') == 1 by {
      assert t[1..][0] == ' ';
    }
  }

  /** A word between a text ending in a space and one that is empty or starts with one. */
  lemma WordInText(t: string, u: string, w: string, v: string, q: nat, p: nat, e: nat)
    requires t == u + w + v && q + 1 == p == |u| && u[q] == ' '
    requires e == p + |w| && (v == [] || v[0] == ' ')
    ensures TextSpan(t, q, p, e, w) && TextSpan(t, p, p, e, w)
  {
    assert t[p..e] == w;
    assert t[q] == u[q];
    assert e < |t| ==> t[e] == v[0];
  }

  /** A face line written from three corners is read back as those corners. */
  lemma FaceLineRoundTrip(f: Face, readFloat: FloatReader, normalize: Normalizer)
    requires Written(f.a) && Written(f.b) && Written(f.c)
    ensures Classify(FaceText(f), readFloat, normalize) == FaceLine(f)
  {
    FaceReadBack(f);
    FaceMode(f);
    ClassifyFace(FaceText(f), readFloat, normalize);
  }

  /** The corners of a face line, read from just after its mode. */
  lemma FaceReadBack(f: Face)
    requires Written(f.a) && Written(f.b) && Written(f.c)
    ensures ReadFace(Stream(FaceText(f), 2, false)) == f
  {
    var ta, tb, tc := CornerText(f.a), CornerText(f.b), CornerText(f.c);
    var t := LineText(ta, tb, tc);
    var p1: nat := 3 + |ta|;
    var p2: nat := p1 + 1 + |tb|;
    LineSpans(ta, tb, tc);
    FaceReadAt(t, ta, tb, tc, f, p1, p2);
  }

  lemma ClassifyFace(line: string, readFloat: FloatReader, normalize: Normalizer)
    requires Mode(line) == "f"
    ensures Classify(line, readFloat, normalize) == FaceLine(ReadFace(AfterMode(line)))
  {
  }

  /** Three words after `f `, separated by single spaces, the second starting at `p1` and the
      third at `p2`. */
  predicate LineAt(t: string, ta: string, tb: string, tc: string, p1: nat, p2: nat)
  {
    2 < p1 < p2 && TextSpan(t, 2, 2, p1 - 1, ta) && TextSpan(t, p1 - 1, p1, p2 - 1, tb)
    && TextSpan(t, p2 - 1, p2, |t|, tc)
  }

  /** Corner `c` written at `p..e` of a face line, which holds a space or ends at `e`; `q` is
      `p` or the single space before it. */
  predicate CornerSpan(t: string, q: nat, p: nat, e: nat, c: Corner)
  {
    Written(c) && TextSpan(t, q, p, e, CornerText(c))
  }

  /** Word `w` at `p..e` of a line, which holds a space or ends at `e`; `q` is `p` or the
      single space before it. */
  predicate TextSpan(t: string, q: nat, p: nat, e: nat, w: string)
  {
    e == p + |w| <= |t| && t[p..e] == w && (q == p || (q + 1 == p && t[q] == ' ')) && (e == |t| || t[e] == ' ')
  }

  lemma SpanFromCorner(t: string, q: nat, p: nat, e: nat, c: Corner)
    requires CornerSpan(t, q, p, e, c)
    ensures CornerSpan(t, p, p, e, c)
  {
  }

  /** The three corners of such a line, read from just after its mode. */
  lemma FaceReadAt(t: string, ta: string, tb: string, tc: string, f: Face, p1: nat, p2: nat)
    requires Written(f.a) && Written(f.b) && Written(f.c)
    requires ta == CornerText(f.a) && tb == CornerText(f.b) && tc == CornerText(f.c)
    requires LineAt(t, ta, tb, tc, p1, p2)
    ensures ReadFace(Stream(t, 2, false)) == f
  {
    var e1: nat, e2: nat := p1 - 1, p2 - 1;
    FirstCorner(t, f.a, tb, tc, p1, p2);
    SecondCorner(t, ta, f.b, tc, p1, p2);
    ThirdCorner(t, ta, tb, f.c, p1, p2);
    ReadFaceSteps(Stream(t, 2, false), Stream(t, e1, false), Stream(t, e2, false), Stream(t, |t|, false), f);
  }

  /** The first corner, read from its first character. */
  lemma FirstCorner(t: string, c: Corner, tb: string, tc: string, p1: nat, p2: nat)
    requires Written(c) && LineAt(t, CornerText(c), tb, tc, p1, p2)
    ensures ReadCorner(Stream(t, 2, false)) == CornerRead(c, Stream(t, p1 - 1, false), true)
  {
    var e1: nat := p1 - 1;
    CornerBetween(t, 2, 2, e1, c);
  }

  /** The second corner, read from the space before it. */
  lemma SecondCorner(t: string, ta: string, c: Corner, tc: string, p1: nat, p2: nat)
    requires Written(c) && LineAt(t, ta, CornerText(c), tc, p1, p2)
    ensures ReadCorner(Stream(t, p1 - 1, false)) == CornerRead(c, Stream(t, p2 - 1, false), true)
  {
    var e1: nat, e2: nat := p1 - 1, p2 - 1;
    CornerBetween(t, e1, p1, e2, c);
  }

  /** The second corner, read from its first character. */
  lemma SecondCornerFromStart(t: string, ta: string, c: Corner, tc: string, p1: nat, p2: nat)
    requires Written(c) && LineAt(t, ta, CornerText(c), tc, p1, p2)
    ensures ReadCorner(Stream(t, p1, false)) == CornerRead(c, Stream(t, p2 - 1, false), true)
  {
    var e1: nat, e2: nat := p1 - 1, p2 - 1;
    SpanFromCorner(t, e1, p1, e2, c);
    CornerBetween(t, p1, p1, e2, c);
  }

  /** The third corner, read from the space before it. */
  lemma ThirdCorner(t: string, ta: string, tb: string, c: Corner, p1: nat, p2: nat)
    requires Written(c) && LineAt(t, ta, tb, CornerText(c), p1, p2)
    ensures ReadCorner(Stream(t, p2 - 1, false)) == CornerRead(c, Stream(t, |t|, false), true)
  {
    var e2: nat := p2 - 1;
    CornerBetween(t, e2, p2, |t|, c);
  }

  /** The third corner, read from its first character. */
  lemma ThirdCornerFromStart(t: string, ta: string, tb: string, c: Corner, p1: nat, p2: nat)
    requires Written(c) && LineAt(t, ta, tb, CornerText(c), p1, p2)
    ensures ReadCorner(Stream(t, p2, false)) == CornerRead(c, Stream(t, |t|, false), true)
  {
    var e2: nat := p2 - 1;
    SpanFromCorner(t, e2, p2, |t|, c);
    CornerBetween(t, p2, p2, |t|, c);
  }

  /** A corner of a face line, read from its first character or from the single space
      before it, up to the space that follows it or the end of the line. */
  lemma CornerBetween(t: string, q: nat, p: nat, e: nat, c: Corner)
    requires CornerSpan(t, q, p, e, c)
    ensures ReadCorner(Stream(t, q, false)) == CornerRead(c, Stream(t, e, false), true)
  {
    ReadCornerAt(t, q, p, e, c);
  }

  /** `ReadFace` once each corner has been read from where the one before it stopped. */
  lemma ReadFaceSteps(s0: Stream, s1: Stream, s2: Stream, s3: Stream, f: Face)
    requires s0.Valid() && ReadCorner(s0) == CornerRead(f.a, s1, true)
    requires ReadCorner(s1) == CornerRead(f.b, s2, true)
    requires ReadCorner(s2) == CornerRead(f.c, s3, true)
    ensures ReadFace(s0) == f
  {
  }

  /** With assertions enabled, the check after a normal index fails on the last corner of
      every such face line, which ends the line: the reader aborts. */
  lemma FaceLineCheckAborts(f: Face)
    requires Written(f.a) && Written(f.b) && Written(f.c)
    ensures ReadFaceChecked(AfterMode(FaceText(f))) == None
  {
    FaceCheckBack(f);
    FaceMode(f);
  }

  /** The checking reader on a face line, from just after its mode. */
  lemma FaceCheckBack(f: Face)
    requires Written(f.a) && Written(f.b) && Written(f.c)
    ensures ReadFaceChecked(Stream(FaceText(f), 2, false)) == None
  {
    var ta, tb, tc := CornerText(f.a), CornerText(f.b), CornerText(f.c);
    var t := LineText(ta, tb, tc);
    var p1: nat := 3 + |ta|;
    var p2: nat := p1 + 1 + |tb|;
    LineSpans(ta, tb, tc);
    FaceCheckAt(t, ta, tb, tc, f, p1, p2);
  }

  /** The checking reader on such a line: each corner after the space the check consumed,
      and the last one at the end of the line. */
  lemma FaceCheckAt(t: string, ta: string, tb: string, tc: string, f: Face, p1: nat, p2: nat)
    requires Written(f.a) && Written(f.b) && Written(f.c)
    requires ta == CornerText(f.a) && tb == CornerText(f.b) && tc == CornerText(f.c)
    requires LineAt(t, ta, tb, tc, p1, p2)
    ensures ReadFaceChecked(Stream(t, 2, false)) == None
  {
    FirstCorner(t, f.a, tb, tc, p1, p2);
    SecondCornerFromStart(t, ta, f.b, tc, p1, p2);
    ThirdCornerFromStart(t, ta, tb, f.c, p1, p2);
    CheckedSteps(t, p1, p2);
  }

  /** The checking reader on three corners that each read a normal index, the first two
      followed by a space and the last at the end of the line. */
  lemma CheckedSteps(t: string, p1: nat, p2: nat)
    requires 2 < p1 < p2 <= |t| && t[p1 - 1] == ' ' && t[p2 - 1] == ' '
    requires ReadCorner(Stream(t, 2, false)).readNormal && ReadCorner(Stream(t, 2, false)).rest == Stream(t, p1 - 1, false)
    requires ReadCorner(Stream(t, p1, false)).readNormal && ReadCorner(Stream(t, p1, false)).rest == Stream(t, p2 - 1, false)
    requires ReadCorner(Stream(t, p2, false)).readNormal && ReadCorner(Stream(t, p2, false)).rest == Stream(t, |t|, false)
    ensures ReadFaceChecked(Stream(t, 2, false)) == None
  {
    var s0, s1, s2 := Stream(t, 2, false), Stream(t, p1, false), Stream(t, p2, false);
    var a := CheckedCornerSpace(t, 2, p1);
    var b := CheckedCornerSpace(t, p1, p2);
    CheckedCornerEnd(t, p2);
    CheckedFaceSteps(s0, s1, s2, a, b);
  }

  /** `ReadFaceChecked` fails once its third corner fails the check. */
  lemma CheckedFaceSteps(s0: Stream, s1: Stream, s2: Stream, a: Corner, b: Corner)
    requires s0.Valid() && s1.Valid() && s2.Valid()
    requires ReadCornerChecked(s0) == Some((a, s1))
    requires ReadCornerChecked(s1) == Some((b, s2))
    requires ReadCornerChecked(s2) == None
    ensures ReadFaceChecked(s0) == None
  {
  }

  /** The check passes on a corner followed by a space, and consumes the space: the next
      corner starts at `n`. */
  lemma CheckedCornerSpace(t: string, q: nat, n: nat) returns (c: Corner)
    requires q < n <= |t| && t[n - 1] == ' '
    requires ReadCorner(Stream(t, q, false)).readNormal && ReadCorner(Stream(t, q, false)).rest == Stream(t, n - 1, false)
    ensures ReadCornerChecked(Stream(t, q, false)) == Some((c, Stream(t, n, false)))
  {
    c := ReadCorner(Stream(t, q, false)).corner;
  }

  /** The check fails on a corner with a normal index that ends the line. */
  lemma CheckedCornerEnd(t: string, q: nat)
    requires q <= |t|
    requires ReadCorner(Stream(t, q, false)).readNormal && ReadCorner(Stream(t, q, false)).rest == Stream(t, |t|, false)
    ensures ReadCornerChecked(Stream(t, q, false)) == None
  {
  }

  /** What a line contributes. Comments (`#...`), smoothing groups (`s`) and every other
      line kind add nothing. */
  datatype LineKind = VertexLine(position: Vec3) | NormalLine(normal: Vec3) | FaceLine(face: Face) | Skipped

  function Classify(line: string, readFloat: FloatReader, normalize: Normalizer): (k: LineKind)
    ensures k.FaceLine? ==> Mode(line) == "f"
    ensures k.VertexLine? ==> Mode(line) == "v"
    ensures k.NormalLine? ==> Mode(line) == "vn"
    ensures Mode(line) in {"f", "v", "vn"} ==> !k.Skipped?
  {
    var mode := Mode(line);
    var s := AfterMode(line);
    if |mode| > 0 && mode[0] == '#' then Skipped
    else if mode == "v" then VertexLine(ReadVec3(s, readFloat))
    else if mode == "vn" then NormalLine(normalize(ReadVec3(s, readFloat)))
    else if mode == "f" then FaceLine(ReadFace(s))
    else Skipped
  }

  /** The three lists the first pass builds. */
  datatype Lists = Lists(vertices: seq<Vec3>, normals: seq<Vec3>, faces: seq<Face>)

  const NoLists := Lists([], [], [])

  function Add(l: Lists, k: LineKind): Lists
  {
    match k
    case VertexLine(v) => l.(vertices := l.vertices + [v])
    case NormalLine(n) => l.(normals := l.normals + [n])
    case FaceLine(f) => l.(faces := l.faces + [f])
    case Skipped => l
  }

  /** The first pass over the lines, in file order, each line read by `Classify` with the given
      float reader and `glm::normalize`. */
  function Scan(lines: seq<string>, readFloat: FloatReader, normalize: Normalizer): (r: Lists)
    ensures |r.vertices| + |r.normals| + |r.faces| <= |lines|
    decreases |lines|
  {
    if lines == [] then NoLists
    else Add(Scan(lines[..|lines| - 1], readFloat, normalize), Classify(lines[|lines| - 1], readFloat, normalize))
  }

  /** One more line adds what that line holds. */
  lemma ScanStep(lines: seq<string>, i: nat, readFloat: FloatReader, normalize: Normalizer, l: Lists, kind: LineKind)
    requires i < |lines| && l == Scan(lines[..i], readFloat, normalize)
    requires kind == Classify(lines[i], readFloat, normalize)
    ensures Scan(lines[..i + 1], readFloat, normalize) == Add(l, kind)
  {
    var prefix := lines[..i + 1];
    assert prefix[..i] == lines[..i] && prefix[i] == lines[i];
  }

  function Concat(l: Lists, m: Lists): Lists
  {
    Lists(l.vertices + m.vertices, l.normals + m.normals, l.faces + m.faces)
  }

  /** Lines are read independently: the lists of two pieces of a file, one after the other,
      are the lists of the whole file. */
  lemma {:induction false} ScanAppend(a: seq<string>, b: seq<string>, readFloat: FloatReader, normalize: Normalizer)
    ensures Scan(a + b, readFloat, normalize) == Concat(Scan(a, readFloat, normalize), Scan(b, readFloat, normalize))
    decreases |b|
  {
    if b == [] {
      assert a + b == a;
    } else {
      var init, last := b[..|b| - 1], b[|b| - 1];
      var k := Classify(last, readFloat, normalize);
      assert (a + b)[..|a + b| - 1] == a + init;
      assert (a + b)[|a + b| - 1] == last;
      assert Scan(a + b, readFloat, normalize) == Add(Scan(a + init, readFloat, normalize), k);
      ScanAppend(a, init, readFloat, normalize);
      AddConcat(Scan(a, readFloat, normalize), Scan(init, readFloat, normalize), k);
    }
  }

  lemma AddConcat(l: Lists, m: Lists, k: LineKind)
    ensures Add(Concat(l, m), k) == Concat(l, Add(m, k))
  {
    match k
    case VertexLine(v) => assert l.vertices + m.vertices + [v] == l.vertices + (m.vertices + [v]);
    case NormalLine(n) => assert l.normals + m.normals + [n] == l.normals + (m.normals + [n]);
    case FaceLine(f) => assert l.faces + m.faces + [f] == l.faces + (m.faces + [f]);
    case Skipped =>
  }

  /** The element an OBJ index denotes: counting from 1 at the front, or from -1 at the back. */
  function Element<T>(xs: seq<T>, k: int): Option<T>
  {
    if 1 <= k <= |xs| then Some(xs[k - 1])
    else if -|xs| <= k <= -1 then Some(xs[|xs| + k])
    else None
  }

  /** `adjust`, corrected: a negative index counts from the end of the list. */
  function Adjust(k: int, len: nat): (r: int)
    ensures 0 <= r < len <==> (1 <= k <= len || -(len as int) <= k <= -1)
    ensures k == -1 ==> r == len - 1
  {
    if k < 0 then len + k else k - 1
  }

  /** `adjust` as written: a negative index becomes `len - k + 1`, then 1 is taken off. */
  function AdjustAsWritten(k: int, len: nat): (r: int)
    ensures k < 0 ==> r >= len + 1
    ensures k >= 0 ==> r == Adjust(k, len)
  {
    (if k < 0 then len - k + 1 else k) - 1
  }

  /** The corrected `adjust` finds exactly the element the index denotes. */
  lemma AdjustFindsElement<T>(xs: seq<T>, k: int)
    ensures Element(xs, k).Some? <==> 0 <= Adjust(k, |xs|) < |xs|
    ensures Element(xs, k).Some? ==> Element(xs, k).value == xs[Adjust(k, |xs|)]
  {
  }

  /** As written, `adjust` sends every negative index past the end of its list, although the
      index names an element of it: `-1` with three vertices is read at index 4. */
  lemma AdjustAsWrittenMissesEnd<T>(xs: seq<T>, k: int)
    requires -|xs| <= k <= -1
    ensures Element(xs, k).Some?
    ensures !(0 <= AdjustAsWritten(k, |xs|) < |xs|)
  {
  }

  /** The vertex a corner denotes, or `None` when an index is unset or names no element. */
  function CornerVertex(c: Corner, vertices: seq<Vec3>, normals: seq<Vec3>): (r: Option<Vertex>)
    ensures r.Some? <==> (c.vertex.Some? && c.normal.Some?
      && Element(vertices, c.vertex.value).Some? && Element(normals, c.normal.value).Some?)
    ensures r.Some? ==> (r.value.pos == Element(vertices, c.vertex.value).value
      && r.value.normal == Element(normals, c.normal.value).value)
  {
    if c.vertex.None? || c.normal.None? then None
    else
      var vi, ni := Adjust(c.vertex.value, |vertices|), Adjust(c.normal.value, |normals|);
      AdjustFindsElement(vertices, c.vertex.value);
      AdjustFindsElement(normals, c.normal.value);
      if 0 <= vi < |vertices| && 0 <= ni < |normals| then Some(Vertex(normals[ni], vertices[vi]))
      else None
  }

  /** The triangle of one face, corner by corner. */
  function FaceTriangle(f: Face, vertices: seq<Vec3>, normals: seq<Vec3>): (r: Option<Triangle>)
    ensures r.Some? <==> forall i :: 0 <= i < 3 ==> CornerVertex(f.At(i), vertices, normals).Some?
    ensures r.Some? ==> forall i :: 0 <= i < 3 ==> r.value.At(i) == CornerVertex(f.At(i), vertices, normals).value
  {
    var a := CornerVertex(f.a, vertices, normals);
    var b := CornerVertex(f.b, vertices, normals);
    var c := CornerVertex(f.c, vertices, normals);
    assert f.At(0) == f.a && f.At(1) == f.b && f.At(2) == f.c;
    if a.Some? && b.Some? && c.Some? then Some(Triangle(a.value, b.value, c.value)) else None
  }

  /** The second pass: one triangle per face, in order; `None` when some face names a vertex
      or normal that does not exist. */
  function Triangles(faces: seq<Face>, vertices: seq<Vec3>, normals: seq<Vec3>): (r: Option<seq<Triangle>>)
    ensures r.Some? <==> forall k :: 0 <= k < |faces| ==> FaceTriangle(faces[k], vertices, normals).Some?
    ensures r.Some? ==> |r.value| == |faces|
    ensures r.Some? ==> forall k :: 0 <= k < |faces| ==> r.value[k] == FaceTriangle(faces[k], vertices, normals).value
    decreases |faces|
  {
    if faces == [] then Some([])
    else
      var init := Triangles(faces[..|faces| - 1], vertices, normals);
      var last := FaceTriangle(faces[|faces| - 1], vertices, normals);
      if init.Some? && last.Some? then Some(init.value + [last.value]) else None
  }

  /** The first pass of `load_obj_model`: each line, in order, read by `Classify` and its
      position, normal or face appended to its list. */
  method ReadLines(lines: seq<string>, readFloat: FloatReader, normalize: Normalizer)
    returns (vertices: seq<Vec3>, normals: seq<Vec3>, faces: seq<Face>)
    ensures Lists(vertices, normals, faces) == Scan(lines, readFloat, normalize)
  {
    vertices, normals, faces := [], [], [];
    var i := 0;
    while i < |lines|
      invariant 0 <= i <= |lines|
      invariant Lists(vertices, normals, faces) == Scan(lines[..i], readFloat, normalize)
    {
      var kind := Classify(lines[i], readFloat, normalize);
      ghost var before := Lists(vertices, normals, faces);
      match kind {
        case VertexLine(v) => vertices := vertices + [v];
        case NormalLine(n) => normals := normals + [n];
        case FaceLine(f) => faces := faces + [f];
        case Skipped =>
      }
      ScanStep(lines, i, readFloat, normalize, before, kind);
      i := i + 1;
    }
    assert lines[..i] == lines;
  }

  /** `load_obj_model`: the first pass collects positions, normals and faces; the second appends
      one triangle per face to the pool. A file that cannot be opened, or a face that names a
      missing vertex or normal, leaves the pool as it was. */
  method Load(file: Option<string>, triangles: seq<Triangle>, readFloat: FloatReader, normalize: Normalizer)
    returns (result: LoadResult, pool: seq<Triangle>)
    ensures file.None? ==> result == NotOpened && pool == triangles
    ensures file.Some? ==>
      var l := Scan(Lines(file.value), readFloat, normalize);
      var ts := Triangles(l.faces, l.vertices, l.normals);
      (ts.None? ==> result == Malformed && pool == triangles)
      && (ts.Some? ==> result == Loaded(PairIndex(|triangles|), PairIndex(|l.faces|)) && pool == triangles + ts.value)
  {
    if file.None? {
      return NotOpened, triangles;
    }
    var vertices, normals, faces := ReadLines(Lines(file.value), readFloat, normalize);
    var index := |triangles|;
    var ok;
    ok, pool := AppendTriangles(faces, vertices, normals, triangles);
    if !ok {
      return Malformed, triangles;
    }
    result := Loaded(PairIndex(index), PairIndex(|faces|));
  }

  /** The second pass of `load_obj_model`: each face's triangle appended to the pool in turn,
      stopping at the first face that names a missing vertex or normal. */
  method AppendTriangles(faces: seq<Face>, vertices: seq<Vec3>, normals: seq<Vec3>, triangles: seq<Triangle>)
    returns (ok: bool, pool: seq<Triangle>)
    ensures ok == Triangles(faces, vertices, normals).Some?
    ensures ok ==> pool == triangles + Triangles(faces, vertices, normals).value
  {
    pool := triangles;
    var j := 0;
    while j < |faces|
      invariant 0 <= j <= |faces|
      invariant Triangles(faces[..j], vertices, normals).Some?
      invariant pool == triangles + Triangles(faces[..j], vertices, normals).value
    {
      assert faces[..j + 1][..j] == faces[..j];
      var t := FaceTriangle(faces[j], vertices, normals);
      if t.None? {
        return false, pool;
      }
      pool := pool + [t.value];
      j := j + 1;
    }
    assert faces[..j] == faces;
    ok := true;
  }
}
