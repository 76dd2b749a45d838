/** The compute dispatcher: the host side of the ray-tracing kernel. The device is modelled
    abstractly: its memory is a map from buffer handles to buffers (a context and the bytes,
    `None` where a byte was never written), the kernel's argument slots are a map from slot
    number to a buffer handle or a parameter block, and the in-order command queue is the
    log of the operations enqueued on it. The kernel's shading is a parameter. */
module Tracing {
  import opened Common
  import opened Shapes
  import opened Layout

  // ---------------------------------------------------------------------------------------
  // Vector conversions

  /** `cl_float4` (and `cl_float3`, which OpenCL lays out as four lanes). */
  datatype ClFloat4 = ClFloat4(s0: Float, s1: Float, s2: Float, s3: Float)

  /** `VEC3TOCL`: x, y, z in the first three lanes; the brace initialiser zeroes the fourth. */
  function Vec3ToCl(v: Vec3): (r: ClFloat4)
    ensures r.s0 == v.x && r.s1 == v.y && r.s2 == v.z && r.s3 == FloatZero
  {
    ClFloat4(v.x, v.y, v.z, FloatZero)
  }

  /** `VEC4TOCL`: x, y, z, w in order. */
  function Vec4ToCl(v: Vec4): (r: ClFloat4)
    ensures r.s0 == v.x && r.s1 == v.y && r.s2 == v.z && r.s3 == v.w
  {
    ClFloat4(v.x, v.y, v.z, v.w)
  }

  /** The inverse conversions, as the kernel reads its lanes. */
  function ClToVec3(c: ClFloat4): Vec3
  {
    Vec3(c.s0, c.s1, c.s2)
  }

  function ClToVec4(c: ClFloat4): Vec4
  {
    Vec4(c.s0, c.s1, c.s2, c.s3)
  }

  /** The conversions lose nothing. */
  lemma ClRoundTrips(v: Vec3, w: Vec4, c: ClFloat4)
    ensures ClToVec3(Vec3ToCl(v)) == v && ClToVec4(Vec4ToCl(w)) == w
    ensures Vec4ToCl(ClToVec4(c)) == c
    ensures c.s3 == FloatZero ==> Vec3ToCl(ClToVec3(c)) == c
  {
  }

  // ---------------------------------------------------------------------------------------
  // Parameter blocks

  /** `SceneData`, the block bound to slot 1. `lightSource` is the field this revision of
      `update_scene` writes; the sky parameters are the record's other fields. */
  datatype SceneData = SceneData(numShapes: i32, horizonColor: ClFloat4, zenithColor: ClFloat4,
                                 groundColor: ClFloat4, sunFocus: Float, sunColor: ClFloat4,
                                 sunDirection: ClFloat4, lightSource: ClFloat4)

  /** The contents of a `RenderData`, as `set_arg` copies them into slot 0. */
  datatype Frame = Frame(width: i32, height: i32, numSamples: i32, numBounces: i32,
                         aspectRatio: Float, fovScale: Float, cameraToWorld: seq<ClFloat4>,
                         time: u32, tick: u32)

  /** `RenderData`, the per-frame block the caller edits in place between frames. */
  class RenderData {
    var width: i32
    var height: i32
    var numSamples: i32
    var numBounces: i32
    var aspectRatio: Float
    var fovScale: Float
    /** `cl_float4 camera_to_world[4]`. */
    const cameraToWorld: array<ClFloat4>
    var time: u32
    var tick: u32

    ghost predicate Valid()
      reads this
    {
      cameraToWorld.Length == 4
    }

    /** `RenderData(width, height)`: four samples and ten bounces per pixel; the other fields
        are left uninitialised by the source, and nothing is promised about them here. */
    constructor (width: i32, height: i32)
      ensures Valid() && fresh(cameraToWorld)
      ensures this.width == width && this.height == height
      ensures numSamples == 4 && numBounces == 10
    {
      this.width, this.height := width, height;
      numSamples, numBounces := 4, 10;
      cameraToWorld := new ClFloat4[4];
    }

    /** `set_matrix`: column `i` of the camera-to-world matrix into `camera_to_world[i]`. */
    method SetMatrix(m: Mat4)
      requires Valid()
      modifies cameraToWorld
      ensures forall i :: 0 <= i < 4 ==> cameraToWorld[i] == Vec4ToCl(m.Column(i))
    {
      for i := 0 to 4
        invariant forall k :: 0 <= k < i ==> cameraToWorld[k] == Vec4ToCl(m.Column(k))
      {
        cameraToWorld[i] := Vec4ToCl(m.Column(i));
      }
    }

    /** The block's current contents. */
    function Value(): (f: Frame)
      requires Valid()
      reads this, cameraToWorld
      ensures |f.cameraToWorld| == 4
      ensures f.width == width && f.height == height && f.numSamples == numSamples && f.numBounces == numBounces
    {
      Frame(width, height, numSamples, numBounces, aspectRatio, fovScale, cameraToWorld[..], time, tick)
    }
  }

  /** `sceneData.numShapes = inputShapes.size()`: the count converted to a 32-bit `cl_int`,
      which wraps around. */
  function WrapI32(n: nat): (r: i32)
    ensures n < 0x8000_0000 ==> r == n
    ensures (r - n) % 0x1_0000_0000 == 0
  {
    var w := n % 0x1_0000_0000;
    if w < 0x8000_0000 then w else w - 0x1_0000_0000
  }

  // ---------------------------------------------------------------------------------------
  // Device memory

  type Handle = nat

  /** A device buffer: the context it was made in and its bytes; its size is `|bytes|`. */
  datatype Buffer = Buffer(context: nat, bytes: Cells)

  /** The live buffers, and the next handle to give out (every live handle is below it). */
  datatype Memory = Memory(live: map<Handle, Buffer>, next: Handle) {
    ghost predicate Valid()
    {
      forall h :: h in live ==> h < next
    }

    function Size(h: Handle): nat
      requires h in live
    {
      |live[h].bytes|
    }
  }

  /** `compute::buffer(context, size)`: a new buffer whose bytes are undefined. */
  function Allocate(m: Memory, context: nat, size: nat): (r: (Memory, Handle))
    requires m.Valid()
    ensures r.0.Valid() && r.1 !in m.live
    ensures r.0.live == m.live[r.1 := Buffer(context, Pad(size))]
  {
    (Memory(m.live[m.next := Buffer(context, Pad(size))], m.next + 1), m.next)
  }

  /** `rebuild_if_too_small`: a buffer of at least `size` bytes is kept as it is; a smaller
      one is replaced by a new buffer of exactly `size` undefined bytes in the same context,
      and the old one is released. The handle to use afterwards is the second component. */
  function Rebuild(m: Memory, h: Handle, size: nat): (r: (Memory, Handle))
    requires m.Valid() && h in m.live
    ensures r.0.Valid() && r.1 in r.0.live
    ensures r.0.Size(r.1) >= size && r.0.Size(r.1) >= m.Size(h)
    ensures r.0.live[r.1].context == m.live[h].context
    ensures size <= m.Size(h) ==> r == (m, h)
    ensures size > m.Size(h) ==>
      r.1 !in m.live && h !in r.0.live && r.0.live[r.1].bytes == Pad(size)
    ensures forall g :: g in m.live && g != h ==> g in r.0.live && r.0.live[g] == m.live[g]
  {
    if size <= m.Size(h) then (m, h)
    else
      var a := Allocate(m, m.live[h].context, size);
      (Memory(a.0.live - {h}, a.0.next), a.1)
  }

  /** A blocking write of `data` at offset 0: the first `|data|` bytes are replaced, the
      rest of the buffer and every other buffer are untouched. */
  function Write(m: Memory, h: Handle, data: Cells): (r: Memory)
    requires h in m.live && |data| <= m.Size(h)
    ensures r.next == m.next && r.live.Keys == m.live.Keys
    ensures r.live[h].context == m.live[h].context && r.Size(h) == m.Size(h)
    ensures r.live[h].bytes[..|data|] == data
    ensures r.live[h].bytes[|data|..] == m.live[h].bytes[|data|..]
    ensures forall g :: g in m.live && g != h ==> r.live[g] == m.live[g]
  {
    var b := m.live[h];
    Memory(m.live[h := b.(bytes := data + b.bytes[|data|..])], m.next)
  }

  /** The shapes part of `update_scene`: nothing for an empty list; otherwise the buffer is
      grown to hold the records if it is too small, and the records are written at its
      start. */
  function Upload(m: Memory, h: Handle, shapes: seq<Shape>): (r: (Memory, Handle))
    requires m.Valid() && h in m.live
    ensures r.0.Valid() && r.1 in r.0.live && r.0.live[r.1].context == m.live[h].context
    ensures r.0.Size(r.1) >= m.Size(h)
    ensures shapes == [] ==> r == (m, h)
    ensures shapes != [] ==>
      r.0.Size(r.1) >= ShapeSize * |shapes| && r.0.live[r.1].bytes[..ShapeSize * |shapes|] == EncodeShapes(shapes)
    ensures r.1 == h ==>
      (ShapeSize * |shapes| <= m.Size(h)
       && r.0.live[h].bytes[ShapeSize * |shapes|..] == m.live[h].bytes[ShapeSize * |shapes|..])
    ensures r.1 != h ==> r.1 !in m.live && h !in r.0.live
    ensures forall g :: g in m.live && g != h ==> g in r.0.live && r.0.live[g] == m.live[g]
  {
    if shapes == [] then (m, h)
    else
      var g := Rebuild(m, h, ShapeSize * |shapes|);
      (Write(g.0, g.1, EncodeShapes(shapes)), g.1)
  }

  /** The first `count` shape records of buffer `h`, as the kernel reads them; `None` when
      the buffer is too small or a record is not a well-formed shape. */
  function ShapesOnDevice(m: Memory, h: Handle, count: nat): (r: Option<seq<Shape>>)
    requires h in m.live
    ensures r.Some? ==> |r.value| == count && ShapeSize * count <= m.Size(h)
  {
    if ShapeSize * count <= m.Size(h) then
      RecordsFill(count);
      DecodeShapes(m.live[h].bytes[..ShapeSize * count])
    else None
  }

  /** After an upload the kernel reads, from the first records of the buffer, the shapes that
      were uploaded. */
  lemma UploadReadsBack(m: Memory, h: Handle, shapes: seq<Shape>)
    requires m.Valid() && h in m.live && shapes != []
    requires forall k :: 0 <= k < |shapes| ==> WellTagged(shapes[k])
    ensures var r := Upload(m, h, shapes); ShapesOnDevice(r.0, r.1, |shapes|) == Some(shapes)
  {
    ShapesRoundTrip(shapes);
    UploadPrefix(m, h, shapes);
  }

  lemma UploadPrefix(m: Memory, h: Handle, shapes: seq<Shape>)
    requires m.Valid() && h in m.live && shapes != []
    ensures var r := Upload(m, h, shapes);
      ShapeSize * |shapes| <= r.0.Size(r.1) && r.0.live[r.1].bytes[..ShapeSize * |shapes|] == EncodeShapes(shapes)
  {
  }

  /** Uploading the same shapes twice leaves the device as one upload does: the buffer is
      large enough the second time, so it is neither replaced nor changed. */
  lemma UploadIdempotent(m: Memory, h: Handle, shapes: seq<Shape>)
    requires m.Valid() && h in m.live
    ensures var r := Upload(m, h, shapes); Upload(r.0, r.1, shapes) == r
  {
    var r := Upload(m, h, shapes);
    if shapes != [] {
      var b := r.0.live[r.1];
      var n := ShapeSize * |shapes|;
      assert Rebuild(r.0, r.1, n) == r;
      assert EncodeShapes(shapes) + b.bytes[n..] == b.bytes[..n] + b.bytes[n..] == b.bytes;
      assert b.(bytes := EncodeShapes(shapes) + b.bytes[n..]) == b;
      assert r.0.live[r.1 := b] == r.0.live;
    }
  }

  /** A sequence of uploads, one per `update_scene`. */
  function UploadAll(m: Memory, h: Handle, batches: seq<seq<Shape>>): (r: (Memory, Handle))
    requires m.Valid() && h in m.live
    ensures r.0.Valid() && r.1 in r.0.live
    decreases |batches|
  {
    if batches == [] then (m, h)
    else
      var r := Upload(m, h, batches[0]);
      UploadAll(r.0, r.1, batches[1..])
  }

  /** Over any sequence of uploads, growing then shrinking then growing again, the buffer
      never gets smaller and ends large enough for every batch. */
  lemma {:induction false} UploadsNeverShrink(m: Memory, h: Handle, batches: seq<seq<Shape>>)
    requires m.Valid() && h in m.live
    ensures var r := UploadAll(m, h, batches);
      r.0.Size(r.1) >= m.Size(h)
      && forall k :: 0 <= k < |batches| ==> r.0.Size(r.1) >= ShapeSize * |batches[k]|
    decreases |batches|
  {
    if batches != [] {
      var r := Upload(m, h, batches[0]);
      var rest := batches[1..];
      UploadsNeverShrink(r.0, r.1, rest);
      var f := UploadAll(r.0, r.1, rest);
      assert UploadAll(m, h, batches) == f;
      UploadFits(m, h, batches[0]);
      BatchesFit(f.0.Size(f.1), batches);
    }
  }

  /** A size that fits the first batch and every later one fits them all. */
  lemma BatchesFit(size: nat, batches: seq<seq<Shape>>)
    requires batches != [] && size >= ShapeSize * |batches[0]|
    requires forall k :: 0 <= k < |batches[1..]| ==> size >= ShapeSize * |batches[1..][k]|
    ensures forall k :: 0 <= k < |batches| ==> size >= ShapeSize * |batches[k]|
  {
    forall k | 0 < k < |batches|
      ensures size >= ShapeSize * |batches[k]|
    {
      assert batches[k] == batches[1..][k - 1];
    }
  }

  /** After an upload the buffer holds at least that batch. */
  lemma UploadFits(m: Memory, h: Handle, shapes: seq<Shape>)
    requires m.Valid() && h in m.live
    ensures var r := Upload(m, h, shapes); r.0.Size(r.1) >= ShapeSize * |shapes|
  {
  }

  /** Splitting off the last upload of a sequence. */
  lemma {:induction false} UploadAllSnoc(m: Memory, h: Handle, batches: seq<seq<Shape>>, last: seq<Shape>)
    requires m.Valid() && h in m.live
    ensures var r := UploadAll(m, h, batches);
      UploadAll(m, h, batches + [last]) == Upload(r.0, r.1, last)
    decreases |batches|
  {
    if batches == [] {
      assert [] + [last] == [last];
      assert [last][1..] == [];
    } else {
      var r := Upload(m, h, batches[0]);
      assert (batches + [last])[0] == batches[0];
      assert (batches + [last])[1..] == batches[1..] + [last];
      UploadAllSnoc(r.0, r.1, batches[1..], last);
    }
  }

  /** After any sequence of uploads ending with a non-empty one, the first records of the
      buffer read back as that last batch. */
  lemma LastUploadReadsBack(m: Memory, h: Handle, batches: seq<seq<Shape>>, last: seq<Shape>)
    requires m.Valid() && h in m.live && last != []
    requires forall k :: 0 <= k < |last| ==> WellTagged(last[k])
    ensures var r := UploadAll(m, h, batches + [last]); ShapesOnDevice(r.0, r.1, |last|) == Some(last)
  {
    UploadAllSnoc(m, h, batches, last);
    var r := UploadAll(m, h, batches);
    UploadReadsBack(r.0, r.1, last);
  }

  // ---------------------------------------------------------------------------------------
  // Kernel and queue

  /** What a kernel argument slot holds. */
  datatype Arg = BufferArg(handle: Handle) | SceneArg(scene: SceneData) | FrameArg(frame: Frame)

  /** The operations enqueued on the command queue, in submission order. */
  datatype Op =
    | WriteBuffer(handle: Handle, offset: nat, data: Cells)
    | RangeKernel(offset: nat, globalSize: nat)
    | ReadBuffer(handle: Handle, offset: nat, size: nat)

  /** One `cl_uchar4` pixel the kernel writes. */
  datatype Uchar4 = Uchar4(x: byte, y: byte, z: byte, w: byte)

  function PixelBytes(p: Uchar4): (r: seq<byte>)
    ensures |r| == 4
  {
    [p.x, p.y, p.z, p.w]
  }

  /** The kernel's shading of work item `p`, from the frame block, the scene block and the
      shapes buffer. Its internals are not modelled. */
  type Shader = (Frame, SceneData, Cells, nat) -> Uchar4

  /** The output of a dispatch of `n` work items: pixel `p` at bytes `4p .. 4p + 4`. */
  function Traced(shader: Shader, frame: Frame, scene: SceneData, shapes: Cells, n: nat): (r: seq<byte>)
    ensures |r| == 4 * n
    ensures forall p :: 0 <= p < n ==> r[4 * p .. 4 * p + 4] == PixelBytes(shader(frame, scene, shapes, p))
    decreases n
  {
    if n == 0 then []
    else
      var front := Traced(shader, frame, scene, shapes, n - 1);
      var r := front + PixelBytes(shader(frame, scene, shapes, n - 1));
      assert forall p :: 0 <= p < n - 1 ==> r[4 * p .. 4 * p + 4] == front[4 * p .. 4 * p + 4];
      r
  }

  /** Host bytes as device cells. */
  function Defined(b: seq<byte>): (r: Cells)
    ensures |r| == |b| && forall k :: 0 <= k < |b| ==> r[k] == Some(b[k])
  {
    seq(|b|, k requires 0 <= k < |b| => Some(b[k]))
  }

  /** Device cells read back to the host; every cell must have been written. */
  function HostBytes(c: Cells): (r: seq<byte>)
    requires forall k :: 0 <= k < |c| ==> c[k].Some?
    ensures |r| == |c| && forall k :: 0 <= k < |c| ==> Some(r[k]) == c[k]
  {
    seq(|c|, k requires 0 <= k < |c| => c[k].value)
  }

  /** `width * height`, the number of work items of a dispatch. */
  function WorkItems(f: Frame): nat
    requires 0 <= f.width && 0 <= f.height
  {
    var w: nat, h: nat := f.width, f.height;
    w * h
  }

  /** What program building gives: a program, or a failure with its build log. */
  datatype BuildResult = Built | BuildFailure(log: string, message: string)

  /** The dispatcher: the memory of its context, the shapes and output buffers, the
      kernel's argument slots, the queue, and the scene block it keeps between updates. */
  class Tracer {
    const context: nat
    var memory: Memory
    var bufferShapes: Handle
    const renderOutput: Handle
    var args: map<nat, Arg>
    var queue: seq<Op>
    var sceneData: SceneData

    /** Both buffers are live and distinct, slots 2 and 3 hold them, and slots 0 and 1, once
        set, hold the frame and scene blocks. */
    ghost predicate Valid()
      reads this
    {
      memory.Valid() && bufferShapes in memory.live && renderOutput in memory.live
      && bufferShapes != renderOutput
      && 2 in args && args[2] == BufferArg(renderOutput)
      && 3 in args && args[3] == BufferArg(bufferShapes)
      && (0 in args ==> args[0].FrameArg?) && (1 in args ==> args[1].SceneArg?)
    }

    /** `Tracer(width, height)` once the program is built: an empty shapes buffer, an output
        buffer of one `cl_uchar4` per pixel, both bound to their slots. The scene block is
        not initialised by the source; its initial contents are a parameter here. */
    constructor (width: nat, height: nat, context: nat, scene: SceneData)
      ensures Valid() && this.context == context && queue == [] && sceneData == scene
      ensures memory.live.Keys == {bufferShapes, renderOutput}
      ensures memory.live[bufferShapes] == Buffer(context, [])
      ensures memory.live[renderOutput] == Buffer(context, Pad(4 * width * height))
      ensures args == map[2 := BufferArg(renderOutput), 3 := BufferArg(bufferShapes)]
    {
      this.context := context;
      var a := Allocate(Memory(map[], 0), context, 0);
      var b := Allocate(a.0, context, 4 * width * height);
      memory, bufferShapes, renderOutput := b.0, a.1, b.1;
      args := map[2 := BufferArg(renderOutput), 3 := BufferArg(bufferShapes)];
      queue, sceneData := [], scene;
    }

    /** `rebuild_if_too_small` on the buffer whose handle is `h`; the handle to use
        afterwards is returned. */
    method RebuildIfTooSmall(h: Handle, size: nat) returns (h': Handle)
      requires memory.Valid() && h in memory.live
      modifies this`memory
      ensures (memory, h') == Rebuild(old(memory), h, size)
    {
      h' := h;
      if memory.Size(h) < size {
        var a := Allocate(memory, memory.live[h].context, size);
        memory, h' := Memory(a.0.live - {h}, a.0.next), a.1;
      }
    }

    /** `update_scene(inputShapes, lightSource)`: a non-empty list is uploaded (the buffer
        grown first if needed, then one write at offset 0); then, whatever happened, slot 3
        is bound to the current shapes buffer, the scene block takes the shape count and the
        light, and is bound to slot 1. */
    method UpdateScene(inputShapes: seq<Shape>, lightSource: Vec3)
      requires Valid()
      modifies this
      ensures Valid()
      ensures (memory, bufferShapes) == Upload(old(memory), old(bufferShapes), inputShapes)
      ensures queue == old(queue)
        + if inputShapes == [] then [] else [WriteBuffer(bufferShapes, 0, EncodeShapes(inputShapes))]
      ensures sceneData == old(sceneData).(numShapes := WrapI32(|inputShapes|), lightSource := Vec3ToCl(lightSource))
      ensures args == old(args)[3 := BufferArg(bufferShapes)][1 := SceneArg(sceneData)]
    {
      if |inputShapes| > 0 {
        var size := ShapeSize * |inputShapes|;
        bufferShapes := RebuildIfTooSmall(bufferShapes, size);
        var data := EncodeShapes(inputShapes);
        memory := Write(memory, bufferShapes, data);
        queue := queue + [WriteBuffer(bufferShapes, 0, data)];
      }
      args := args[3 := BufferArg(bufferShapes)];
      sceneData := sceneData.(numShapes := WrapI32(|inputShapes|));
      sceneData := sceneData.(lightSource := Vec3ToCl(lightSource));
      args := args[1 := SceneArg(sceneData)];
    }

    /** Whether `update_scene` has bound a scene block, which the kernel needs to run. */
    predicate SceneBound()
      reads this
    {
      1 in args && args[1].SceneArg?
    }

    /** What a dispatch for `frame` writes into the output buffer: one pixel per work item,
        shaded from the frame, the bound scene block and the shapes buffer. */
    function KernelOutput(frame: Frame, shader: Shader): (r: seq<byte>)
      requires Valid() && SceneBound() && 0 <= frame.width && 0 <= frame.height
      reads this
      ensures |r| == 4 * WorkItems(frame)
    {
      Traced(shader, frame, args[1].scene, memory.live[bufferShapes].bytes, WorkItems(frame))
    }

    /** `render(renderData, output)`: the frame block is bound to slot 0, the kernel runs
        over `width * height` work items writing one pixel each into the output buffer,
        and the first `4 * width * height` bytes are read back into `output`. Both the
        device buffer and `output` must be at least that large. */
    method Render(renderData: RenderData, output: seq<byte>, shader: Shader) returns (pixels: seq<byte>)
      requires Valid() && SceneBound() && renderData.Valid()
      requires 0 <= renderData.width && 0 <= renderData.height
      requires 4 * WorkItems(renderData.Value()) <= memory.Size(renderOutput)
      requires 4 * WorkItems(renderData.Value()) <= |output|
      modifies this
      ensures Valid()
      ensures bufferShapes == old(bufferShapes) && sceneData == old(sceneData)
      ensures args == old(args)[0 := FrameArg(renderData.Value())]
      ensures queue == old(queue) + [RangeKernel(0, WorkItems(renderData.Value())),
                                     ReadBuffer(renderOutput, 0, 4 * WorkItems(renderData.Value()))]
      ensures memory == Write(old(memory), renderOutput, Defined(old(KernelOutput(renderData.Value(), shader))))
      ensures pixels == old(KernelOutput(renderData.Value(), shader)) + output[4 * WorkItems(renderData.Value())..]
    {
      var frame := renderData.Value();
      var n := WorkItems(frame);
      var traced := KernelOutput(frame, shader);
      args := args[0 := FrameArg(frame)];
      var written := Defined(traced);
      memory := Write(memory, renderOutput, written);
      queue := queue + [RangeKernel(0, n)];
      var read := memory.live[renderOutput].bytes[..4 * n];
      assert read == written;
      var host := HostBytes(read);
      assert host == traced;
      pixels := host + output[4 * n..];
      queue := queue + [ReadBuffer(renderOutput, 0, 4 * n)];
    }
  }

  /** What constructing a `Tracer` ends with: a dispatcher, or the build failure's log and
      message as written to the error stream before the exception is rethrown. */
  datatype Construction = Constructed(tracer: Tracer) | BuildFailed(stderr: string)

  /** `Tracer::Tracer`: the program is built from source by the device's compiler (the
      `build` parameter); a failure aborts the construction with the build log. */
  method Construct(width: nat, height: nat, context: nat, build: BuildResult, scene: SceneData)
    returns (r: Construction)
    ensures build.BuildFailure? ==> r == BuildFailed(build.log + "\n" + build.message + "\n")
    ensures build.Built? ==>
      (r.Constructed? && fresh(r.tracer) && r.tracer.Valid()
       && r.tracer.queue == [] && r.tracer.memory.live[r.tracer.renderOutput].bytes == Pad(4 * width * height)
       && r.tracer.memory.live[r.tracer.bufferShapes].bytes == [])
  {
    match build {
      case BuildFailure(log, message) =>
        r := BuildFailed(log + "\n" + message + "\n");
      case Built =>
        var t := new Tracer(width, height, context, scene);
        r := Constructed(t);
    }
  }
}
