/** The application driver's own Vulkan setup: surface-format preference,
    the queue-family scan, the quad's vertex and index data and buffers,
    the validation-layer check, the instance extension list, and the
    per-frame call protocol. */
module Application {
  import opened Common
  import opened Vk
  import SurfaceSelection
  import MemoryType
  import VertexLayout
  import HostMemory
  import opened Lifecycle

  /** Application::ChooseSwapSurfaceFormat: B8G8R8A8_SRGB in sRGB non-linear
      when offered, else the first format. */
  method ChooseSwapSurfaceFormat(formats: seq<SurfaceFormat>) returns (chosen: SurfaceFormat)
    requires |formats| > 0
    ensures SurfaceFormat(B8G8R8A8Srgb, SrgbNonlinear) in formats ==> chosen == SurfaceFormat(B8G8R8A8Srgb, SrgbNonlinear)
    ensures SurfaceFormat(B8G8R8A8Srgb, SrgbNonlinear) !in formats ==> chosen == formats[0]
  {
    chosen := SurfaceSelection.ChooseSurfaceFormat(formats, B8G8R8A8Srgb);
  }

  // ---------------------------------------------------------------------
  // Queue families

  /** A queue family's flags and whether it can present to the window surface. */
  datatype QueueFamily = QueueFamily(queueFlags: Flags, presentSupport: bool)

  predicate IsGraphics(f: QueueFamily)
  {
    f.queueFlags & QUEUE_GRAPHICS != 0
  }

  /** The largest graphics-capable index below n. */
  function LastGraphics(fs: seq<QueueFamily>, n: nat): (r: Option<nat>)
    requires n <= |fs|
    ensures r.Some? ==> r.value < n && IsGraphics(fs[r.value])
                        && forall j :: r.value < j < n ==> !IsGraphics(fs[j])
    ensures r.None? ==> forall j :: 0 <= j < n ==> !IsGraphics(fs[j])
  {
    if n == 0 then None
    else if IsGraphics(fs[n - 1]) then Some(n - 1)
    else LastGraphics(fs, n - 1)
  }

  /** The largest present-capable index below n. */
  function LastPresent(fs: seq<QueueFamily>, n: nat): (r: Option<nat>)
    requires n <= |fs|
    ensures r.Some? ==> r.value < n && fs[r.value].presentSupport
                        && forall j :: r.value < j < n ==> !fs[j].presentSupport
    ensures r.None? ==> forall j :: 0 <= j < n ==> !fs[j].presentSupport
  {
    if n == 0 then None
    else if fs[n - 1].presentSupport then Some(n - 1)
    else LastPresent(fs, n - 1)
  }

  /** Among the first n families both a graphics and a present family occur. */
  predicate BothSeen(fs: seq<QueueFamily>, n: nat)
    requires n <= |fs|
  {
    LastGraphics(fs, n).Some? && LastPresent(fs, n).Some?
  }

  /** The scan in ChoosePhysicalDevice: each family overwrites the graphics
      and present choices it qualifies for, and the scan stops once both are
      set. `scanned` is the number of families looked at. */
  method FindQueueFamilies(fs: seq<QueueFamily>) returns (graphics: Option<nat>, present: Option<nat>, scanned: nat)
    ensures scanned <= |fs|
    ensures forall m :: 0 <= m < scanned ==> !BothSeen(fs, m)
    ensures scanned == |fs| || BothSeen(fs, scanned)
    ensures graphics == LastGraphics(fs, scanned) && present == LastPresent(fs, scanned)
  {
    graphics, present := None, None;
    var i := 0;
    while i < |fs|
      invariant 0 <= i <= |fs|
      invariant graphics == LastGraphics(fs, i) && present == LastPresent(fs, i)
      invariant forall m :: 0 <= m <= i ==> !BothSeen(fs, m)
    {
      if IsGraphics(fs[i]) {
        graphics := Some(i);
      }
      if fs[i].presentSupport {
        present := Some(i);
      }
      if graphics.Some? && present.Some? {
        return graphics, present, i + 1;
      }
      i := i + 1;
    }
    scanned := i;
  }

  /** If the device has a graphics family and a present family anywhere,
      the scan finds both (so the later .value() calls succeed). */
  lemma ScanFindsBothWhenAvailable(fs: seq<QueueFamily>, g: nat, p: nat, graphics: Option<nat>, present: Option<nat>, scanned: nat)
    requires g < |fs| && IsGraphics(fs[g])
    requires p < |fs| && fs[p].presentSupport
    requires scanned <= |fs| && (scanned == |fs| || BothSeen(fs, scanned))
    requires graphics == LastGraphics(fs, scanned) && present == LastPresent(fs, scanned)
    ensures graphics.Some? && present.Some?
  {
  }

  /** The swapchain parameters ChoosePhysicalDevice passes: image count and
      sharing. Nothing checks that the families were found: `value()` on an
      empty optional throws std::bad_optional_access, modelled as None. */
  function SwapchainQueueSetup(caps: SurfaceSelection.Capabilities, graphics: Option<nat>, present: Option<nat>)
    : (setup: Option<(nat, SurfaceSelection.Sharing)>)
    requires graphics.Some? ==> SurfaceSelection.IsInt32(graphics.value)
    requires present.Some? ==> SurfaceSelection.IsInt32(present.value)
    ensures setup.None? <==> graphics.None? || present.None?
    ensures setup.Some? && caps.minImageCount < UINT32_MAX ==> setup.value.0 == caps.minImageCount + 1
    ensures setup.Some? ==> (setup.value.1.mode == Concurrent <==> graphics.value != present.value)
    ensures setup.Some? && setup.value.1.mode == Concurrent ==>
              setup.value.1.queueFamilyIndices == [graphics.value, present.value]
  {
    if graphics.None? || present.None? then None
    else Some((SurfaceSelection.ImageCount(caps), SurfaceSelection.ChooseSharing(graphics.value, present.value)))
  }

  // ---------------------------------------------------------------------
  // The quad

  datatype Vec2 = Vec2(x: real, y: real)
  datatype Color = Color(r: real, g: real, b: real)
  datatype Vertex = Vertex(position: Vec2, color: Color)

  /** m_VertexData: the corners of a unit square centred on the origin. */
  const QUAD_VERTICES: seq<Vertex> := [
    Vertex(Vec2(-0.5, -0.5), Color(1.0, 0.0, 0.0)),
    Vertex(Vec2(0.5, -0.5), Color(0.0, 1.0, 0.0)),
    Vertex(Vec2(0.5, 0.5), Color(0.0, 0.0, 1.0)),
    Vertex(Vec2(-0.5, 0.5), Color(1.0, 1.0, 1.0))]

  /** m_IndexData: two triangles sharing the diagonal 0-2. */
  const QUAD_INDICES: seq<nat> := [0, 1, 2, 2, 3, 0]

  /** Bytes of one uint32 index. */
  const INDEX_BYTES: nat := 4

  /** Twice the signed area of triangle abc; positive when counter-clockwise. */
  function TwiceSignedArea(a: Vec2, b: Vec2, c: Vec2): real
  {
    (b.x - a.x) * (c.y - a.y) - (c.x - a.x) * (b.y - a.y)
  }

  function Corner(k: nat): Vec2
    requires k < |QUAD_INDICES|
    requires QUAD_INDICES[k] < |QUAD_VERTICES|
  {
    QUAD_VERTICES[QUAD_INDICES[k]].position
  }

  /** Every index names one of the four vertices, the list is whole
      triangles, and the two triangles wind the same way and together cover
      exactly the unit square. */
  lemma QuadIsTwoTriangles()
    ensures |QUAD_INDICES| % 3 == 0
    ensures forall k :: 0 <= k < |QUAD_INDICES| ==> QUAD_INDICES[k] < |QUAD_VERTICES|
    ensures TwiceSignedArea(Corner(0), Corner(1), Corner(2)) > 0.0
    ensures TwiceSignedArea(Corner(3), Corner(4), Corner(5)) > 0.0
    ensures TwiceSignedArea(Corner(0), Corner(1), Corner(2)) / 2.0
            + TwiceSignedArea(Corner(3), Corner(4), Corner(5)) / 2.0 == 1.0
  {
  }

  /** bufferInfo.size of CreateVertexBuffer: element size times count. */
  function VertexBufferSize(vertices: seq<Vertex>): (size: nat)
    ensures size / VertexLayout.VertexStride() == |vertices| && size % VertexLayout.VertexStride() == 0
  {
    VertexLayout.VertexStride() * |vertices|
  }

  /** bufferSize of CreateIndexBuffer: element size times count. */
  function IndexBufferSize(indices: seq<nat>): (size: nat)
    ensures size / INDEX_BYTES == |indices| && size % INDEX_BYTES == 0
  {
    INDEX_BYTES * |indices|
  }

  /** The indexed draw of m_IndexData.size() indices reads only inside the
      index buffer, and every vertex it fetches lies inside the vertex
      buffer. */
  lemma QuadDrawStaysInBuffers()
    ensures VertexBufferSize(QUAD_VERTICES) == 80 && IndexBufferSize(QUAD_INDICES) == 24
    ensures forall k :: 0 <= k < |QUAD_INDICES| ==> INDEX_BYTES * k + INDEX_BYTES <= IndexBufferSize(QUAD_INDICES)
    ensures forall k :: 0 <= k < |QUAD_INDICES| ==>
              VertexLayout.VertexStride() * QUAD_INDICES[k] + VertexLayout.VertexStride() <= VertexBufferSize(QUAD_VERTICES)
  {
    QuadIsTwoTriangles();
  }

  /** Memory type of the vertex and index buffers. */
  function BufferMemoryType(typeBits: Flags, typeFlags: seq<Flags>): (index: nat)
    requires |typeFlags| <= MemoryType.MAX_MEMORY_TYPES
    ensures (exists j: nat :: MemoryType.Suitable(typeBits, typeFlags, MemoryType.HOST_VISIBLE_COHERENT, j)) ==>
              MemoryType.Suitable(typeBits, typeFlags, MemoryType.HOST_VISIBLE_COHERENT, index)
              && forall j: nat :: j < index ==> !MemoryType.Suitable(typeBits, typeFlags, MemoryType.HOST_VISIBLE_COHERENT, j)
    ensures (forall j: nat :: !MemoryType.Suitable(typeBits, typeFlags, MemoryType.HOST_VISIBLE_COHERENT, j)) ==> index == 0
  {
    MemoryType.FindMemoryType(typeBits, typeFlags, MemoryType.HOST_VISIBLE_COHERENT)
  }

  /** The upload in CreateVertexBuffer / CreateIndexBuffer: exactly
      bufferInfo.size bytes, which is the whole source array, land at the
      start of the allocation (at least as large as the buffer). */
  function UploadArray(memory: seq<byte>, arrayBytes: seq<byte>): (m: seq<byte>)
    requires |arrayBytes| <= |memory|
    ensures |m| == |memory|
    ensures HostMemory.ReadBack(m, |arrayBytes|) == arrayBytes
  {
    HostMemory.CopyIn(memory, arrayBytes, |arrayBytes|)
  }

  // ---------------------------------------------------------------------
  // Validation layers and extensions

  /** The nested loops of CheckValidationLayerSupport: every required name
      occurs among the candidates. */
  method AllPresent(required: seq<string>, candidates: seq<string>) returns (ok: bool)
    ensures ok <==> forall i :: 0 <= i < |required| ==> required[i] in candidates
  {
    var i := 0;
    while i < |required|
      invariant 0 <= i <= |required|
      invariant forall k :: 0 <= k < i ==> required[k] in candidates
    {
      var found := false;
      var j := 0;
      while j < |candidates|
        invariant 0 <= j <= |candidates|
        invariant found <==> required[i] in candidates[..j]
      {
        if required[i] == candidates[j] {
          found := true;
          break;
        }
        j := j + 1;
      }
      if !found {
        assert candidates[..j] == candidates;
        return false;
      }
      i := i + 1;
    }
    return true;
  }

  function Descriptions(layers: seq<LayerProperties>): seq<string>
  {
    seq(|layers|, i requires 0 <= i < |layers| => layers[i].description)
  }

  function LayerNames(layers: seq<LayerProperties>): seq<string>
  {
    seq(|layers|, i requires 0 <= i < |layers| => layers[i].layerName)
  }

  /** Application::CheckValidationLayerSupport as written: the properties
      vector is never sized, so the second enumeration fills nothing and the
      search runs over an empty list (of descriptions); only an empty
      required list passes. */
  method CheckValidationLayerSupport(required: seq<string>, reported: seq<LayerProperties>) returns (ok: bool)
    ensures ok <==> |required| == 0
  {
    var actualLayers: seq<LayerProperties> := [];
    ok := AllPresent(required, Descriptions(actualLayers));
    if |required| > 0 {
      assert required[0] !in Descriptions(actualLayers);
    }
  }

  /** Some reported layer carries this name. */
  predicate IsReported(reported: seq<LayerProperties>, name: string)
  {
    exists j :: 0 <= j < |reported| && reported[j].layerName == name
  }

  /** The check with the vector sized to the reported count and names
      compared with layerName: every required layer is reported. */
  method CheckValidationLayerSupportCorrected(required: seq<string>, reported: seq<LayerProperties>) returns (ok: bool)
    ensures ok <==> forall i :: 0 <= i < |required| ==> IsReported(reported, required[i])
  {
    var names := LayerNames(reported);
    ok := AllPresent(required, names);
    if ok {
      forall i | 0 <= i < |required| ensures IsReported(reported, required[i]) {
        assert required[i] in names;
        var j :| 0 <= j < |names| && names[j] == required[i];
        assert reported[j].layerName == required[i];
      }
    } else {
      var i :| 0 <= i < |required| && required[i] !in names;
      forall j | 0 <= j < |reported| ensures reported[j].layerName != required[i] {
        assert names[j] == reported[j].layerName;
      }
    }
  }

  /** Application::GetRequiredExtensions: GLFW's list in its order, then debug utils. */
  function GetRequiredExtensions(glfwExtensions: seq<string>): (exts: seq<string>)
    ensures |exts| == |glfwExtensions| + 1
    ensures exts[..|glfwExtensions|] == glfwExtensions
    ensures exts[|glfwExtensions|] == DEBUG_UTILS_EXTENSION
  {
    glfwExtensions + [DEBUG_UTILS_EXTENSION]
  }

  // ---------------------------------------------------------------------
  // Recording and the frame protocol

  /** The commands RecordCommandBuffer records. */
  datatype Command =
    | BeginCommandBuffer
    | BeginRenderPass(framebuffer: nat)
    | BindPipeline
    | BindVertexBuffer(firstBinding: nat)
    | BindIndexBuffer(indexBytes: nat)
    | DrawIndexed(indexCount: nat, instanceCount: nat)
    | EndRenderPass
    | EndCommandBuffer

  /** Application::RecordCommandBuffer for one swapchain image. */
  function RecordCommandBuffer(imageIndex: nat, indexCount: nat): seq<Command>
  {
    [BeginCommandBuffer, BeginRenderPass(imageIndex), BindPipeline, BindVertexBuffer(0),
     BindIndexBuffer(INDEX_BYTES), DrawIndexed(indexCount, 1), EndRenderPass, EndCommandBuffer]
  }

  /** Position of the first occurrence of c, or |cmds| when there is none. */
  function Find(cmds: seq<Command>, c: Command): (r: nat)
    ensures r <= |cmds|
    ensures r < |cmds| ==> cmds[r] == c
    ensures forall j :: 0 <= j < r ==> cmds[j] != c
  {
    if |cmds| == 0 then 0
    else if cmds[0] == c then 0
    else 1 + Find(cmds[1..], c)
  }

  /** A recording is usable: it is bracketed by begin/end, the draw lies
      inside a render pass on the image's framebuffer and comes after the
      pipeline and both buffers are bound. */
  predicate DrawsCorrectly(cmds: seq<Command>, imageIndex: nat, indexCount: nat)
  {
    var rp := Find(cmds, BeginRenderPass(imageIndex));
    var draw := Find(cmds, DrawIndexed(indexCount, 1));
    var end := Find(cmds, EndRenderPass);
    && |cmds| >= 2 && cmds[0] == BeginCommandBuffer && cmds[|cmds| - 1] == EndCommandBuffer
    && 0 < rp < draw < end < |cmds| - 1
    && Find(cmds, BindPipeline) < draw
    && Find(cmds, BindVertexBuffer(0)) < draw
    && Find(cmds, BindIndexBuffer(INDEX_BYTES)) < draw
  }

  /** The recorded buffer draws all indices of the image's framebuffer once. */
  lemma RecordingDrawsCorrectly(imageIndex: nat, indexCount: nat)
    ensures DrawsCorrectly(RecordCommandBuffer(imageIndex, indexCount), imageIndex, indexCount)
  {
    var cmds := RecordCommandBuffer(imageIndex, indexCount);
    assert cmds[0] == BeginCommandBuffer && cmds[1] == BeginRenderPass(imageIndex);
    assert cmds[2] == BindPipeline && cmds[3] == BindVertexBuffer(0);
    assert cmds[4] == BindIndexBuffer(INDEX_BYTES) && cmds[5] == DrawIndexed(indexCount, 1);
    assert cmds[6] == EndRenderPass && cmds[7] == EndCommandBuffer;
    assert Find(cmds, BeginRenderPass(imageIndex)) == 1;
    assert Find(cmds, BindPipeline) == 2;
    assert Find(cmds, BindVertexBuffer(0)) == 3;
    assert Find(cmds, BindIndexBuffer(INDEX_BYTES)) == 4;
    assert Find(cmds, DrawIndexed(indexCount, 1)) == 5;
    assert Find(cmds, EndRenderPass) == 6;
  }

  /** The host calls of DrawOntoScreen. */
  datatype FrameCall = WaitFence | ResetFence | AcquireImage | ResetCommandBuffer | Record | Submit | Present

  /** Application::DrawOntoScreen */
  const FRAME: seq<FrameCall> := [WaitFence, ResetFence, AcquireImage, ResetCommandBuffer, Record, Submit, Present]

  /** The fence, the command buffer, and whether each of the two binary
      semaphores (image ready, render finished) has a signal pending. */
  datatype FrameState = FrameState(fence: FenceState, commandBuffer: CommandBufferState,
                                   imageReady: bool, renderFinished: bool)

  /** One call; None when the call breaks a valid-usage rule of the Vulkan
      specification or waits on a fence nothing will signal. */
  function Step(s: FrameState, call: FrameCall): Option<FrameState>
  {
    match call
    case WaitFence =>
      if s.fence == Unsignaled then None
      else if s.fence == SignalPending then
        Some(s.(fence := Signaled, commandBuffer := if s.commandBuffer == Pending then Executable else s.commandBuffer))
      else Some(s)
    case ResetFence => if s.fence == SignalPending then None else Some(s.(fence := Unsignaled))
    case AcquireImage => if s.imageReady then None else Some(s.(imageReady := true))
    case ResetCommandBuffer => if s.commandBuffer == Pending then None else Some(s.(commandBuffer := Initial))
    case Record => if s.commandBuffer == Pending then None else Some(s.(commandBuffer := Executable))
    case Submit =>
      if s.fence != Unsignaled || s.commandBuffer != Executable || !s.imageReady || s.renderFinished then None
      else Some(FrameState(SignalPending, Pending, false, true))
    case Present => if !s.renderFinished then None else Some(s.(renderFinished := false))
  }

  function Run(s: FrameState, calls: seq<FrameCall>): Option<FrameState>
    decreases |calls|
  {
    if |calls| == 0 then Some(s)
    else match Step(s, calls[0])
      case None => None
      case Some(t) => Run(t, calls[1..])
  }

  function Frames(n: nat): (calls: seq<FrameCall>)
    ensures |calls| == n * |FRAME|
  {
    if n == 0 then [] else Frames(n - 1) + FRAME
  }

  lemma {:induction false} RunAppend(s: FrameState, a: seq<FrameCall>, b: seq<FrameCall>)
    ensures Run(s, a).None? ==> Run(s, a + b).None?
    ensures Run(s, a).Some? ==> Run(s, a + b) == Run(Run(s, a).value, b)
    decreases |a|
  {
    if |a| == 0 {
      assert a + b == b;
    } else {
      assert (a + b)[0] == a[0];
      assert (a + b)[1..] == a[1..] + b;
      var t := Step(s, a[0]);
      if t.Some? {
        RunAppend(t.value, a[1..], b);
      }
    }
  }

  /** The state at application start: the fence is created signaled. */
  const START: FrameState := FrameState(Signaled, Initial, false, false)

  /** Any number of frames runs without a blocked wait or an invalid call;
      after each, one submission is in flight and no semaphore signal is
      left unconsumed. */
  lemma {:induction false} FramesRun(n: nat)
    ensures n > 0 ==> Run(START, Frames(n)) == Some(FrameState(SignalPending, Pending, false, false))
    ensures n == 0 ==> Run(START, Frames(n)) == Some(START)
  {
    if n > 0 {
      FramesRun(n - 1);
      RunAppend(START, Frames(n - 1), FRAME);
    }
  }

  /** Had the fence been created unsignaled, the first frame's wait would
      never return. */
  lemma UnsignaledFenceBlocksFirstFrame()
    ensures Run(FrameState(Unsignaled, Initial, false, false), FRAME) == None
  {
  }

  // ---------------------------------------------------------------------
  // Object lifetimes

  /** The Vulkan objects the application owns (the shader's own objects are
      tracked by the shader). */
  datatype AppObject =
    | Instance | Messenger | WinSurface | Device | AppSwapchain
    | View(viewIndex: nat) | Framebuffer(framebufferIndex: nat)
    | CommandPool | VertexBuffer | VertexMemory | IndexBuffer | IndexMemory
    | ImageReadySemaphore | RenderFinishedSemaphore | InFlightFence

  /** Calls that create or release no object of their own: the command
      buffer lives in the pool, the pipeline belongs to the shader. */
  datatype AppAction = AllocateCommandBuffer | CreateShader | DestroyShaderPipeline

  type AppEvent = Event<AppObject, AppAction>

  /** Object `child` must be destroyed before `parent`. */
  predicate AppDependsOn(child: AppObject, parent: AppObject)
  {
    || ((child.Messenger? || child.WinSurface? || child.Device?) && parent.Instance?)
    || (child.AppSwapchain? && (parent.Device? || parent.WinSurface?))
    || (child.View? && parent.AppSwapchain?)
    || (child.Framebuffer? && parent == View(child.framebufferIndex))
    || ((IsCommand(child) || IsSync(child)) && parent.Device?)
  }

  /** No object is destroyed after an object it depends on. */
  predicate AppChildrenFirst(trace: seq<AppEvent>)
  {
    forall i, j :: 0 <= i < j < |trace| && trace[i].Destroy? && trace[j].Destroy? ==>
      !AppDependsOn(trace[j].obj, trace[i].obj)
  }

  function Views(n: nat): (views: seq<AppObject>)
    ensures |views| == n
    ensures forall i :: 0 <= i < n ==> views[i] == View(i)
  {
    seq(n, i requires 0 <= i < n => View(i))
  }

  function Framebuffers(n: nat): (fbs: seq<AppObject>)
    ensures |fbs| == n
    ensures forall i :: 0 <= i < n ==> fbs[i] == Framebuffer(i)
  {
    seq(n, i requires 0 <= i < n => Framebuffer(i))
  }

  const SETUP_OBJECTS: seq<AppObject> := [Instance, Messenger] + [WinSurface, Device, AppSwapchain]
  const BUFFER_OBJECTS: seq<AppObject> := [VertexBuffer, VertexMemory, IndexBuffer, IndexMemory]
  const COMMAND_OBJECTS: seq<AppObject> := [CommandPool] + BUFFER_OBJECTS
  const SYNC_OBJECTS: seq<AppObject> := [ImageReadySemaphore, RenderFinishedSemaphore, InFlightFence]
  const RELEASED_FIRST: seq<AppObject> := [Messenger] + BUFFER_OBJECTS + SYNC_OBJECTS + [CommandPool]
  const RELEASED_LAST: seq<AppObject> := [AppSwapchain, Device, WinSurface, Instance]

  /** The constructor with a swapchain of n images. */
  function ConstructorEvents(n: nat): seq<AppEvent>
  {
    CreatesOf(SETUP_OBJECTS) + CreatesOf(Views(n)) + [Act(CreateShader)] + CreatesOf(Framebuffers(n))
    + CreatesOf(COMMAND_OBJECTS) + [Act(AllocateCommandBuffer)] + CreatesOf(SYNC_OBJECTS)
  }

  /** Application::CleanUp */
  function CleanUpEvents(n: nat): seq<AppEvent>
  {
    DestroysOf(RELEASED_FIRST) + [Act(DestroyShaderPipeline)] + DestroysOf(Framebuffers(n))
    + DestroysOf(Views(n)) + DestroysOf(RELEASED_LAST)
  }

  lemma {:induction false} ViewsCount(n: nat, o: AppObject)
    ensures Count(Views(n), o) == (if o.View? && o.viewIndex < n then 1 else 0)
  {
    if n > 0 {
      ViewsCount(n - 1, o);
      assert Views(n) == Views(n - 1) + [View(n - 1)];
      assert Views(n)[..n - 1] == Views(n - 1);
    }
  }

  lemma {:induction false} FramebuffersCount(n: nat, o: AppObject)
    ensures Count(Framebuffers(n), o) == (if o.Framebuffer? && o.framebufferIndex < n then 1 else 0)
  {
    if n > 0 {
      FramebuffersCount(n - 1, o);
      assert Framebuffers(n) == Framebuffers(n - 1) + [Framebuffer(n - 1)];
      assert Framebuffers(n)[..n - 1] == Framebuffers(n - 1);
    }
  }

  /** Which objects the constructor leaves live: all of its own, the n views
      and n framebuffers. */
  ghost predicate Owned(n: nat, o: AppObject)
  {
    if o.View? then o.viewIndex < n
    else if o.Framebuffer? then o.framebufferIndex < n
    else true
  }

  /** The constructor's net effect, list by list. */
  lemma NetOfConstructorByList(n: nat, o: AppObject)
    ensures Net(ConstructorEvents(n), o)
         == Count(SETUP_OBJECTS, o) + Count(Views(n), o) + Count(Framebuffers(n), o)
            + Count(COMMAND_OBJECTS, o) + Count(SYNC_OBJECTS, o)
  {
    var a := CreatesOf<AppObject, AppAction>(SETUP_OBJECTS);
    var b := CreatesOf<AppObject, AppAction>(Views(n));
    var c: seq<AppEvent> := [Act(CreateShader)];
    var d := CreatesOf<AppObject, AppAction>(Framebuffers(n));
    var e := CreatesOf<AppObject, AppAction>(COMMAND_OBJECTS);
    var f: seq<AppEvent> := [Act(AllocateCommandBuffer)];
    var g := CreatesOf<AppObject, AppAction>(SYNC_OBJECTS);
    assert ConstructorEvents(n) == a + b + c + d + e + f + g;
    NetCreates<AppObject, AppAction>(SETUP_OBJECTS, o);
    NetCreates<AppObject, AppAction>(Views(n), o);
    NetSingle<AppObject, AppAction>(Act(CreateShader), o);
    NetCreates<AppObject, AppAction>(Framebuffers(n), o);
    NetCreates<AppObject, AppAction>(COMMAND_OBJECTS, o);
    NetSingle<AppObject, AppAction>(Act(AllocateCommandBuffer), o);
    NetCreates<AppObject, AppAction>(SYNC_OBJECTS, o);
    NetAppend(a, b, o);
    NetAppend(a + b, c, o);
    NetAppend(a + b + c, d, o);
    NetAppend(a + b + c + d, e, o);
    NetAppend(a + b + c + d + e, f, o);
    NetAppend(a + b + c + d + e + f, g, o);
  }

  // Membership of the fixed lists, by constructor.
  predicate IsSetup(o: AppObject)
  {
    o.Instance? || o.Messenger? || o.WinSurface? || o.Device? || o.AppSwapchain?
  }

  predicate IsCommand(o: AppObject)
  {
    o.CommandPool? || o.VertexBuffer? || o.VertexMemory? || o.IndexBuffer? || o.IndexMemory?
  }

  predicate IsSync(o: AppObject)
  {
    o.ImageReadySemaphore? || o.RenderFinishedSemaphore? || o.InFlightFence?
  }

  /** The fixed lists hold each of their objects once, and nothing else. */
  lemma SetupCount(o: AppObject)
    ensures Count(SETUP_OBJECTS, o) == (if IsSetup(o) then 1 else 0)
  {
    CountAppend([Instance, Messenger], [WinSurface, Device, AppSwapchain], o);
    CountIsMultiplicity([Instance, Messenger], o);
    CountIsMultiplicity([WinSurface, Device, AppSwapchain], o);
  }

  lemma BufferCount(o: AppObject)
    ensures Count(BUFFER_OBJECTS, o) == (if IsCommand(o) && !o.CommandPool? then 1 else 0)
  {
    CountIsMultiplicity(BUFFER_OBJECTS, o);
  }

  lemma CommandCount(o: AppObject)
    ensures Count(COMMAND_OBJECTS, o) == (if IsCommand(o) then 1 else 0)
  {
    CountAppend([CommandPool], BUFFER_OBJECTS, o);
    CountIsMultiplicity([CommandPool], o);
    BufferCount(o);
  }

  lemma SyncCount(o: AppObject)
    ensures Count(SYNC_OBJECTS, o) == (if IsSync(o) then 1 else 0)
  {
    CountIsMultiplicity(SYNC_OBJECTS, o);
  }

  lemma ReleasedFirstCount(o: AppObject)
    ensures Count(RELEASED_FIRST, o) == (if o.Messenger? || IsCommand(o) || IsSync(o) then 1 else 0)
  {
    CountAppend([Messenger], BUFFER_OBJECTS, o);
    CountAppend([Messenger] + BUFFER_OBJECTS, SYNC_OBJECTS, o);
    CountAppend([Messenger] + BUFFER_OBJECTS + SYNC_OBJECTS, [CommandPool], o);
    CountIsMultiplicity([Messenger], o);
    CountIsMultiplicity([CommandPool], o);
    BufferCount(o);
    SyncCount(o);
  }

  lemma ReleasedLastCount(o: AppObject)
    ensures Count(RELEASED_LAST, o) == (if IsSetup(o) && !o.Messenger? then 1 else 0)
  {
    CountIsMultiplicity(RELEASED_LAST, o);
  }

  /** Every owned object occurs in exactly one of the constructor's lists. */
  lemma ConstructorListsPartition(n: nat, o: AppObject)
    ensures Count(SETUP_OBJECTS, o) + Count(Views(n), o) + Count(Framebuffers(n), o)
            + Count(COMMAND_OBJECTS, o) + Count(SYNC_OBJECTS, o)
         == (if Owned(n, o) then 1 else 0)
  {
    SetupCount(o);
    CommandCount(o);
    SyncCount(o);
    ViewsCount(n, o);
    FramebuffersCount(n, o);
  }

  lemma NetOfConstructor(n: nat, o: AppObject)
    ensures Net(ConstructorEvents(n), o) == (if Owned(n, o) then 1 else 0)
  {
    NetOfConstructorByList(n, o);
    ConstructorListsPartition(n, o);
  }

  /** CleanUp's net effect, list by list. */
  lemma NetOfCleanUpByList(n: nat, o: AppObject)
    ensures Net(CleanUpEvents(n), o)
            + Count(RELEASED_FIRST, o) + Count(Framebuffers(n), o) + Count(Views(n), o) + Count(RELEASED_LAST, o)
         == 0
  {
    var a := DestroysOf<AppObject, AppAction>(RELEASED_FIRST);
    var b: seq<AppEvent> := [Act(DestroyShaderPipeline)];
    var c := DestroysOf<AppObject, AppAction>(Framebuffers(n));
    var d := DestroysOf<AppObject, AppAction>(Views(n));
    var e := DestroysOf<AppObject, AppAction>(RELEASED_LAST);
    assert CleanUpEvents(n) == a + b + c + d + e;
    NetDestroys<AppObject, AppAction>(RELEASED_FIRST, o);
    NetSingle<AppObject, AppAction>(Act(DestroyShaderPipeline), o);
    NetDestroys<AppObject, AppAction>(Framebuffers(n), o);
    NetDestroys<AppObject, AppAction>(Views(n), o);
    NetDestroys<AppObject, AppAction>(RELEASED_LAST, o);
    NetAppend(a, b, o);
    NetAppend(a + b, c, o);
    NetAppend(a + b + c, d, o);
    NetAppend(a + b + c + d, e, o);
  }

  /** Every owned object occurs in exactly one of CleanUp's lists. */
  lemma CleanUpListsPartition(n: nat, o: AppObject)
    ensures Count(RELEASED_FIRST, o) + Count(Framebuffers(n), o) + Count(Views(n), o) + Count(RELEASED_LAST, o)
         == (if Owned(n, o) then 1 else 0)
  {
    ReleasedFirstCount(o);
    ReleasedLastCount(o);
    ViewsCount(n, o);
    FramebuffersCount(n, o);
  }

  lemma NetOfCleanUp(n: nat, o: AppObject)
    ensures Net(CleanUpEvents(n), o) == (if Owned(n, o) then -1 else 0)
  {
    NetOfCleanUpByList(n, o);
    CleanUpListsPartition(n, o);
  }

  /** CleanUp releases exactly what the constructor created, each object
      after everything that depends on it. */
  lemma CleanUpReleasesEverything(n: nat)
    ensures Balanced(ConstructorEvents(n) + CleanUpEvents(n))
    ensures AppChildrenFirst(CleanUpEvents(n))
  {
    forall o: AppObject ensures Net(ConstructorEvents(n) + CleanUpEvents(n), o) == 0 {
      NetOfConstructor(n, o);
      NetOfCleanUp(n, o);
      NetAppend(ConstructorEvents(n), CleanUpEvents(n), o);
    }
    CleanUpOrder(n);
  }

  /** Event i of CleanUp, by the list it comes from. */
  lemma CleanUpEventAt(n: nat, i: nat)
    requires i < |CleanUpEvents(n)|
    ensures var trace := CleanUpEvents(n);
            && (i < 9 ==> trace[i] == Destroy(RELEASED_FIRST[i]))
            && (i == 9 ==> trace[i] == Act(DestroyShaderPipeline))
            && (10 <= i < 10 + n ==> trace[i] == Destroy(Framebuffer(i - 10)))
            && (10 + n <= i < 10 + 2 * n ==> trace[i] == Destroy(View(i - 10 - n)))
            && (10 + 2 * n <= i ==> trace[i] == Destroy(RELEASED_LAST[i - 10 - 2 * n]))
  {
    var a := DestroysOf<AppObject, AppAction>(RELEASED_FIRST);
    var b: seq<AppEvent> := [Act(DestroyShaderPipeline)];
    var c := DestroysOf<AppObject, AppAction>(Framebuffers(n));
    var d := DestroysOf<AppObject, AppAction>(Views(n));
    var e := DestroysOf<AppObject, AppAction>(RELEASED_LAST);
    assert CleanUpEvents(n) == (a + b) + (c + d) + e;
  }

  /** CleanUp releases each object after everything that depends on it. */
  lemma CleanUpOrder(n: nat)
    ensures AppChildrenFirst(CleanUpEvents(n))
  {
    var trace := CleanUpEvents(n);
    forall i, j | 0 <= i < j < |trace| && trace[i].Destroy? && trace[j].Destroy?
      ensures !AppDependsOn(trace[j].obj, trace[i].obj)
    {
      CleanUpEventAt(n, i);
      CleanUpEventAt(n, j);
    }
  }
}
