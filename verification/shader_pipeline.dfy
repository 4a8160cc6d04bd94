/** The fixed pipeline configuration of the shader class: descriptor set
    layout, pool and write, the flipped viewport and scissor, the shader
    module create-info and the order in which the constructor and
    DestroyPipeline create and release Vulkan objects. */
module ShaderPipeline {
  import opened Common
  import opened Vk
  import opened ShaderSource
  import opened Lifecycle

  // ---------------------------------------------------------------------
  // Descriptors

  /** VkDescriptorSetLayoutBinding */
  datatype LayoutBinding = LayoutBinding(binding: nat, descriptorType: DescriptorType, descriptorCount: nat, stageFlags: Flags)

  /** VkDescriptorPoolSize */
  datatype PoolSize = PoolSize(descriptorType: DescriptorType, descriptorCount: nat)

  /** VkDescriptorPoolCreateInfo */
  datatype DescriptorPool = DescriptorPool(poolSizes: seq<PoolSize>, maxSets: nat)

  /** VkWriteDescriptorSet with its buffer info's range. */
  datatype DescriptorWrite = DescriptorWrite(dstBinding: nat, dstArrayElement: nat, descriptorType: DescriptorType,
                                             descriptorCount: nat, range: nat)

  /** sizeof(UniformBufferData): two 4x4 float matrices. */
  const UNIFORM_BUFFER_DATA_SIZE: nat := 2 * 16 * 4

  /** Descriptors of type t that one set with these bindings needs. */
  function Demand(bindings: seq<LayoutBinding>, t: DescriptorType): nat
  {
    if |bindings| == 0 then 0
    else Demand(bindings[..|bindings| - 1], t)
         + (if bindings[|bindings| - 1].descriptorType == t then bindings[|bindings| - 1].descriptorCount else 0)
  }

  /** Descriptors of type t the pool holds. */
  function Supply(sizes: seq<PoolSize>, t: DescriptorType): nat
  {
    if |sizes| == 0 then 0
    else Supply(sizes[..|sizes| - 1], t)
         + (if sizes[|sizes| - 1].descriptorType == t then sizes[|sizes| - 1].descriptorCount else 0)
  }

  /** No two bindings of a layout share a binding number (a valid-usage rule of vkCreateDescriptorSetLayout). */
  predicate UniqueBindings(bindings: seq<LayoutBinding>)
  {
    forall i, j :: 0 <= i < j < |bindings| ==> bindings[i].binding != bindings[j].binding
  }

  /** The pool can serve `sets` allocations of a set with these bindings. */
  predicate PoolServes(pool: DescriptorPool, bindings: seq<LayoutBinding>, sets: nat)
  {
    && sets <= pool.maxSets
    && Demand(bindings, UniformBuffer) * sets <= Supply(pool.poolSizes, UniformBuffer)
    && Demand(bindings, CombinedImageSampler) * sets <= Supply(pool.poolSizes, CombinedImageSampler)
  }

  /** The write targets a binding of the layout with its type and stays within its array. */
  predicate WriteFits(w: DescriptorWrite, bindings: seq<LayoutBinding>)
  {
    exists i :: 0 <= i < |bindings| && bindings[i].binding == w.dstBinding
      && bindings[i].descriptorType == w.descriptorType
      && w.dstArrayElement + w.descriptorCount <= bindings[i].descriptorCount
  }

  /** Shader::CreateDiscriptorSetLayout: one uniform buffer read by the
      vertex stage; the sampler binding is built but not put in the layout. */
  function SetLayoutBindings(): (bindings: seq<LayoutBinding>)
    ensures UniqueBindings(bindings)
    ensures Demand(bindings, UniformBuffer) == 1
    ensures Demand(bindings, CombinedImageSampler) == 0
    ensures forall i :: 0 <= i < |bindings| ==> bindings[i].stageFlags == SHADER_STAGE_VERTEX
  {
    [LayoutBinding(0, UniformBuffer, 1, SHADER_STAGE_VERTEX)]
  }

  /** Shader::CreateDescriptorPool: large enough for the one set allocated from it. */
  function DescriptorPoolConfig(): (pool: DescriptorPool)
    ensures PoolServes(pool, SetLayoutBindings(), 1)
    ensures !PoolServes(pool, SetLayoutBindings(), 2)
  {
    DescriptorPool([PoolSize(UniformBuffer, 1)], 1)
  }

  /** Shader::CreateDescriptorSets: the single write fills the layout's
      uniform-buffer binding with a UniformBufferData-sized range. */
  function DescriptorWriteConfig(): (w: DescriptorWrite)
    ensures WriteFits(w, SetLayoutBindings())
    ensures w.range == UNIFORM_BUFFER_DATA_SIZE
  {
    DescriptorWrite(0, 0, UniformBuffer, 1, UNIFORM_BUFFER_DATA_SIZE)
  }

  // ---------------------------------------------------------------------
  // Viewport and scissor

  /** VkViewport */
  datatype Viewport = Viewport(x: real, y: real, width: real, height: real, minDepth: real, maxDepth: real)

  /** VkRect2D */
  datatype Rect2D = Rect2D(offsetX: int, offsetY: int, extent: Extent2D)

  /** The viewport transform of the Vulkan specification: framebuffer x of a
      normalized device x in [-1, 1]. */
  function MapX(v: Viewport, ndcX: real): real
  {
    v.x + v.width / 2.0 + ndcX * v.width / 2.0
  }

  /** Framebuffer y of a normalized device y in [-1, 1]. */
  function MapY(v: Viewport, ndcY: real): real
  {
    v.y + v.height / 2.0 + ndcY * v.height / 2.0
  }

  /** The viewport set in CreateShaderStagePipeline: a negative height flips
      it, so normalized y = -1 lands on the bottom row and y = 1 on the top,
      across the whole extent, with depth range [0, 1]. */
  function FlippedViewport(extent: Extent2D): (v: Viewport)
    ensures MapX(v, -1.0) == 0.0 && MapX(v, 1.0) == extent.width as real
    ensures MapY(v, -1.0) == extent.height as real && MapY(v, 1.0) == 0.0
    ensures v.minDepth == 0.0 && v.maxDepth == 1.0
  {
    Viewport(0.0, extent.height as real, extent.width as real, -(extent.height as real), 0.0, 1.0)
  }

  /** The scissor: the full extent from the origin, which is exactly the
      rectangle the viewport maps onto. */
  function Scissor(extent: Extent2D): (r: Rect2D)
    ensures r.offsetX == 0 && r.offsetY == 0
    ensures MapX(FlippedViewport(extent), 1.0) == r.extent.width as real
    ensures MapY(FlippedViewport(extent), -1.0) == r.extent.height as real
  {
    Rect2D(0, 0, extent)
  }

  // ---------------------------------------------------------------------
  // Shader modules and stages

  /** VkShaderModuleCreateInfo: codeSize in bytes and the words it points at. */
  datatype ModuleInfo = ModuleInfo(codeSize: nat, code: seq<bv32>)

  /** codeSize is a multiple of four and covers exactly the given words, as
      the valid-usage rules of vkCreateShaderModule require. */
  predicate SizeMatchesCode(info: ModuleInfo)
  {
    info.codeSize % 4 == 0 && info.codeSize / 4 == |info.code|
  }

  /** Shader::CreateModule */
  function CreateModuleInfo(words: seq<bv32>): (info: ModuleInfo)
    ensures SizeMatchesCode(info)
    ensures info.code == words
  {
    ModuleInfo(|words| * 4, words)
  }

  /** Utils::DeduceShaderStageFromType */
  function StageFlag(stage: Stage): (flag: Flags)
    ensures flag == SHADER_STAGE_VERTEX || flag == SHADER_STAGE_FRAGMENT
  {
    match stage
    case Vertex => SHADER_STAGE_VERTEX
    case Pixel => SHADER_STAGE_FRAGMENT
  }

  /** VkPipelineShaderStageCreateInfo: stage flag, module and entry point. */
  datatype StageInfo = StageInfo(stage: Flags, shaderModule: Stage, entryPoint: string)

  /** The shaderStages vector: one stage info per shader module, in the
      module map's iteration order (the map has one key per stage). */
  function StageVector(order: seq<Stage>): (infos: seq<StageInfo>)
    ensures |infos| == |order|
    ensures forall i :: 0 <= i < |order| ==>
              infos[i] == StageInfo(StageFlag(order[i]), order[i], "main")
  {
    seq(|order|, i requires 0 <= i < |order| => StageInfo(StageFlag(order[i]), order[i], "main"))
  }

  /** The stages the pipeline create info hands over: it passes
      stageCount = 2 whatever the vector holds, so a map with fewer than two
      modules (a file with one section) makes the pipeline read past the
      vector; that create info is invalid, modelled as None. Otherwise it
      reads the vector's first two entries. */
  function PipelineStages(order: seq<Stage>): (infos: Option<seq<StageInfo>>)
    requires Distinct(order)
    ensures infos.None? <==> |order| < 2
    ensures infos.Some? ==> |infos.value| == 2
    ensures infos.Some? ==> infos.value[0].stage | infos.value[1].stage == SHADER_STAGE_VERTEX | SHADER_STAGE_FRAGMENT
    ensures infos.Some? ==> infos.value[0].stage != infos.value[1].stage
    ensures infos.Some? ==>
              forall i :: 0 <= i < 2 ==> infos.value[i].shaderModule == order[i] && infos.value[i].entryPoint == "main"
  {
    if |order| < 2 then None else Some(StageVector(order)[..2])
  }

  // ---------------------------------------------------------------------
  // Object lifecycle

  /** The Vulkan objects the shader owns; uniform buffer and memory i belong
      to the i-th reflected uniform block. */
  datatype ShaderObject =
    | ModuleObj(stage: Stage)
    | UniformBufferObj(index: nat)
    | UniformMemoryObj(index: nat)
    | SetLayoutObj
    | PoolObj
    | PipelineLayoutObj
    | RenderPassObj
    | PipelineObj

  /** Calls that neither create nor destroy an owned object. */
  datatype ShaderAction = AllocateSets | UpdateSets

  type ShaderEvent = Event<ShaderObject, ShaderAction>

  function Modules(order: seq<Stage>): seq<ShaderObject>
  {
    seq(|order|, i requires 0 <= i < |order| => ModuleObj(order[i]))
  }

  /** Buffer then memory for each uniform block, in creation order. */
  function UniformObjects(n: nat): (objs: seq<ShaderObject>)
    ensures |objs| == 2 * n
  {
    if n == 0 then [] else UniformObjects(n - 1) + [UniformBufferObj(n - 1), UniformMemoryObj(n - 1)]
  }

  /** Shader::Shader from module creation on: modules, uniform buffers,
      descriptor layout, pool and set, pipeline layout, render pass and
      pipeline, then every module destroyed again. */
  function ConstructorEvents(order: seq<Stage>, uniformBlocks: nat): seq<ShaderEvent>
  {
    BeforePipeline(order, uniformBlocks) + [Create(PipelineObj)] + DestroysOf(Modules(order))
  }

  /** The constructor's calls before the pipeline is created. */
  function BeforePipeline(order: seq<Stage>, uniformBlocks: nat): seq<ShaderEvent>
  {
    CreatesOf(Modules(order)) + CreatesOf(UniformObjects(uniformBlocks))
    + CreatesOf([SetLayoutObj, PoolObj]) + [Act(AllocateSets), Act(UpdateSets)]
    + CreatesOf([PipelineLayoutObj, RenderPassObj])
  }

  /** Shader::DestroyPipeline */
  function DestroyPipelineEvents(uniformBlocks: nat): seq<ShaderEvent>
  {
    DestroysOf(UniformObjects(uniformBlocks))
    + DestroysOf([SetLayoutObj, PoolObj, PipelineObj, PipelineLayoutObj, RenderPassObj])
  }

  lemma NetOfActions(o: ShaderObject)
    ensures Net<ShaderObject, ShaderAction>([Act(AllocateSets), Act(UpdateSets)], o) == 0
  {
    CountIsMultiplicity<ShaderEvent>([Act(AllocateSets), Act(UpdateSets)], Create(o));
    CountIsMultiplicity<ShaderEvent>([Act(AllocateSets), Act(UpdateSets)], Destroy(o));
  }

  /** What is live just before the pipeline is created: every module and
      uniform object, the set layout, the pool, the pipeline layout and the
      render pass. */
  lemma NetBeforePipeline(order: seq<Stage>, uniformBlocks: nat, o: ShaderObject)
    ensures Net(BeforePipeline(order, uniformBlocks), o)
         == Count(Modules(order), o) + Count(UniformObjects(uniformBlocks), o)
            + (if o in {SetLayoutObj, PoolObj, PipelineLayoutObj, RenderPassObj} then 1 else 0)
  {
    var mods := CreatesOf<ShaderObject, ShaderAction>(Modules(order));
    var ubos := CreatesOf<ShaderObject, ShaderAction>(UniformObjects(uniformBlocks));
    var fixed1 := CreatesOf<ShaderObject, ShaderAction>([SetLayoutObj, PoolObj]);
    var acts: seq<ShaderEvent> := [Act(AllocateSets), Act(UpdateSets)];
    var fixed2 := CreatesOf<ShaderObject, ShaderAction>([PipelineLayoutObj, RenderPassObj]);
    assert BeforePipeline(order, uniformBlocks) == mods + ubos + fixed1 + acts + fixed2;
    NetCreates<ShaderObject, ShaderAction>(Modules(order), o);
    NetCreates<ShaderObject, ShaderAction>(UniformObjects(uniformBlocks), o);
    NetCreates<ShaderObject, ShaderAction>([SetLayoutObj, PoolObj], o);
    NetCreates<ShaderObject, ShaderAction>([PipelineLayoutObj, RenderPassObj], o);
    NetOfActions(o);
    CountIsMultiplicity([SetLayoutObj, PoolObj], o);
    CountIsMultiplicity([PipelineLayoutObj, RenderPassObj], o);
    NetAppend(mods, ubos, o);
    NetAppend(mods + ubos, fixed1, o);
    NetAppend(mods + ubos + fixed1, acts, o);
    NetAppend(mods + ubos + fixed1 + acts, fixed2, o);
  }

  /** Every module is live when the pipeline is created, and none is live
      once the constructor returns. */
  lemma ModulesLiveOnlyDuringConstruction(order: seq<Stage>, uniformBlocks: nat, s: Stage)
    requires s in order
    ensures var trace := ConstructorEvents(order, uniformBlocks);
            var k := |trace| - |order| - 1;
            trace[k] == Create(PipelineObj)
            && Net(trace[..k], ModuleObj(s)) > 0
            && Net(trace, ModuleObj(s)) == 0
  {
    var o := ModuleObj(s);
    var prefix := BeforePipeline(order, uniformBlocks);
    var pipe: seq<ShaderEvent> := [Create(PipelineObj)];
    var gone := DestroysOf<ShaderObject, ShaderAction>(Modules(order));
    var trace := ConstructorEvents(order, uniformBlocks);
    var k := |trace| - |order| - 1;
    assert trace[..k] == prefix;
    NetBeforePipeline(order, uniformBlocks, o);
    UniformObjectsHoldNoModule(uniformBlocks, s);
    var i :| 0 <= i < |order| && order[i] == s;
    assert Modules(order)[i] == o;
    NetSingle<ShaderObject, ShaderAction>(Create(PipelineObj), o);
    NetDestroys<ShaderObject, ShaderAction>(Modules(order), o);
    NetAppend(prefix, pipe, o);
    NetAppend(prefix + pipe, gone, o);
  }

  lemma {:induction false} UniformObjectsHoldNoModule(n: nat, s: Stage)
    ensures ModuleObj(s) !in UniformObjects(n)
  {
    if n > 0 {
      UniformObjectsHoldNoModule(n - 1, s);
    }
  }

  /** The constructor followed by DestroyPipeline releases every object it
      created exactly once. */
  lemma ConstructThenDestroyBalanced(order: seq<Stage>, uniformBlocks: nat)
    ensures Balanced(ConstructorEvents(order, uniformBlocks) + DestroyPipelineEvents(uniformBlocks))
  {
    forall o: ShaderObject
      ensures Net(ConstructorEvents(order, uniformBlocks) + DestroyPipelineEvents(uniformBlocks), o) == 0
    {
      var prefix := BeforePipeline(order, uniformBlocks);
      var pipe: seq<ShaderEvent> := [Create(PipelineObj)];
      var gone := DestroysOf<ShaderObject, ShaderAction>(Modules(order));
      var uboGone := DestroysOf<ShaderObject, ShaderAction>(UniformObjects(uniformBlocks));
      var fixedGone := DestroysOf<ShaderObject, ShaderAction>([SetLayoutObj, PoolObj, PipelineObj, PipelineLayoutObj, RenderPassObj]);
      assert ConstructorEvents(order, uniformBlocks) + DestroyPipelineEvents(uniformBlocks)
          == prefix + pipe + gone + (uboGone + fixedGone);
      NetBeforePipeline(order, uniformBlocks, o);
      NetSingle<ShaderObject, ShaderAction>(Create(PipelineObj), o);
      NetDestroys<ShaderObject, ShaderAction>(Modules(order), o);
      NetDestroys<ShaderObject, ShaderAction>(UniformObjects(uniformBlocks), o);
      NetDestroys<ShaderObject, ShaderAction>([SetLayoutObj, PoolObj, PipelineObj, PipelineLayoutObj, RenderPassObj], o);
      CountIsMultiplicity([SetLayoutObj, PoolObj, PipelineObj, PipelineLayoutObj, RenderPassObj], o);
      NetAppend(uboGone, fixedGone, o);
      NetAppend(prefix, pipe, o);
      NetAppend(prefix + pipe, gone, o);
      NetAppend(prefix + pipe + gone, uboGone + fixedGone, o);
    }
  }
}
