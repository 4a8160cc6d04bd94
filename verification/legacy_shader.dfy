/** The older shader class: the same file splitting, a compile step whose
    result is always empty, module create-infos sized in words, an
    unflipped viewport, no vertex input, and a pipeline layout as the only
    object it creates besides the shader modules. */
module LegacyShader {
  import opened Common
  import opened Vk
  import opened ShaderSource
  import opened Lifecycle
  import ShaderPipeline

  /** Shader::ParseShaders of the older class: the same two-slot splitter,
      so a file without pixel lines also loses its vertex source. */
  function ParseShaders(prior: map<Stage, string>, lines: seq<string>): (m: map<Stage, string>)
    ensures Vertex in m
    ensures Pixel in m <==> Pixel in prior || Writes(lines, |lines|, Pixel)
    ensures Writes(lines, |lines|, Pixel) ==>
              m[Vertex] == Collect(lines, |lines|, Vertex) && m[Pixel] == Collect(lines, |lines|, Pixel)
    ensures !Writes(lines, |lines|, Pixel) ==> m[Vertex] == ""
  {
    ShaderSource.ParseShaders(prior, lines)
  }

  /** The word vector stored for a stage: built from the iterator range
      (cbegin, cbegin), it is empty whatever the compiler produced. */
  function CompiledWords(compilerOutput: seq<bv32>): (words: seq<bv32>)
    ensures |words| == 0
  {
    compilerOutput[..0]
  }

  /** A compiled stage keeps none of the compiler's words. */
  lemma CompiledWordsDropOutput(compilerOutput: seq<bv32>)
    requires |compilerOutput| > 0
    ensures CompiledWords(compilerOutput) != compilerOutput
  {
  }

  /** The stored words with the range (cbegin, cend), as in the newer class. */
  function CompiledWordsCorrected(compilerOutput: seq<bv32>): (words: seq<bv32>)
    ensures |words| == |compilerOutput|
    ensures forall i :: 0 <= i < |words| ==> words[i] == compilerOutput[i]
  {
    compilerOutput[..]
  }

  /** Shader::CreateModule of the older class: codeSize is the word count. */
  function CreateModuleInfo(words: seq<bv32>): (info: ShaderPipeline.ModuleInfo)
    ensures info.code == words
    ensures ShaderPipeline.SizeMatchesCode(info) <==> |words| == 0
  {
    ShaderPipeline.ModuleInfo(|words|, words)
  }

  /** A one-word module gets codeSize 1: not a multiple of four, and a
      quarter of the bytes the code occupies. */
  lemma CreateModuleInfoUndersized()
    ensures var info := CreateModuleInfo([0x0723_0203]);
            info.codeSize == 1 && !ShaderPipeline.SizeMatchesCode(info)
  {
  }

  /** The unflipped viewport: normalized y = -1 lands on row 0. */
  function Viewport(extent: Extent2D): (v: ShaderPipeline.Viewport)
    ensures ShaderPipeline.MapX(v, -1.0) == 0.0 && ShaderPipeline.MapX(v, 1.0) == extent.width as real
    ensures ShaderPipeline.MapY(v, -1.0) == 0.0 && ShaderPipeline.MapY(v, 1.0) == extent.height as real
    ensures v.minDepth == 0.0 && v.maxDepth == 1.0
  {
    ShaderPipeline.Viewport(0.0, 0.0, extent.width as real, extent.height as real, 0.0, 1.0)
  }

  /** The two classes' viewports are vertical mirror images over the same
      columns: every normalized y lands on row h - r in the newer class
      when it lands on row r in the older one. */
  lemma ViewportsMirrored(extent: Extent2D, ndcX: real, ndcY: real)
    ensures ShaderPipeline.MapX(ShaderPipeline.FlippedViewport(extent), ndcX) == ShaderPipeline.MapX(Viewport(extent), ndcX)
    ensures ShaderPipeline.MapY(ShaderPipeline.FlippedViewport(extent), ndcY)
         == extent.height as real - ShaderPipeline.MapY(Viewport(extent), ndcY)
  {
  }

  /** The vertex-input state's binding and attribute counts. */
  datatype VertexInput = VertexInput(bindingCount: nat, attributeCount: nat)

  /** The older pipeline reads no vertex buffers. */
  function VertexInputState(): (vi: VertexInput)
    ensures vi.bindingCount == 0 && vi.attributeCount == 0
  {
    VertexInput(0, 0)
  }

  /** Objects the older class creates. */
  datatype LegacyObject = LegacyModule(stage: Stage) | LegacyPipelineLayout

  /** The older class records no other calls. */
  datatype LegacyAction = NoAction

  type LegacyEvent = Event<LegacyObject, LegacyAction>

  function Modules(order: seq<Stage>): seq<LegacyObject>
  {
    seq(|order|, i requires 0 <= i < |order| => LegacyModule(order[i]))
  }

  /** Shader::Shader of the older class: one module per compiled stage and a
      pipeline layout without set layouts; the module destroy loop has an
      empty body and no pipeline is created. */
  function ConstructorEvents(order: seq<Stage>): seq<LegacyEvent>
  {
    CreatesOf(Modules(order)) + [Create(LegacyPipelineLayout)]
  }

  /** Shader::DestroyPipeline of the older class. */
  function DestroyPipelineEvents(): seq<LegacyEvent>
  {
    [Destroy(LegacyPipelineLayout)]
  }

  /** After construction and DestroyPipeline the pipeline layout is released
      but every shader module is still live. */
  lemma ModulesOutliveDestroyPipeline(order: seq<Stage>, o: LegacyObject)
    ensures var trace := ConstructorEvents(order) + DestroyPipelineEvents();
            Net(trace, o) == (if o.LegacyModule? then Count(order, o.stage) else 0)
  {
    var mods := CreatesOf<LegacyObject, LegacyAction>(Modules(order));
    NetCreates<LegacyObject, LegacyAction>(Modules(order), o);
    NetSingle<LegacyObject, LegacyAction>(Create(LegacyPipelineLayout), o);
    NetSingle<LegacyObject, LegacyAction>(Destroy(LegacyPipelineLayout), o);
    NetAppend(mods, [Create(LegacyPipelineLayout)], o);
    NetAppend(ConstructorEvents(order), DestroyPipelineEvents(), o);
    ModulesCount(order, o);
  }

  lemma {:induction false} ModulesCount(order: seq<Stage>, o: LegacyObject)
    ensures Count(Modules(order), o) == (if o.LegacyModule? then Count(order, o.stage) else 0)
    decreases |order|
  {
    if |order| > 0 {
      var init := order[..|order| - 1];
      assert Modules(order) == Modules(init) + [LegacyModule(order[|order| - 1])];
      assert Modules(order)[..|Modules(order)| - 1] == Modules(init);
      ModulesCount(init, o);
    }
  }
}
