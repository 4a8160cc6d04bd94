/** RendererContext: the instance configuration Init builds (extensions,
    validation layer, enabled device features), its log output, and the
    Init/Shutdown call order. */
module RendererContext {
  import opened Common
  import opened Vk
  import opened Lifecycle
  import Application

  const VALIDATION_LAYER: string := "VK_LAYER_KHRONOS_validation"

  /** The instance extensions Init enables: GLFW's list in its order, then
      debug utils. */
  function InstanceExtensions(glfwExtensions: seq<string>): (exts: seq<string>)
    ensures |exts| == |glfwExtensions| + 1
    ensures exts[..|glfwExtensions|] == glfwExtensions
    ensures exts[|glfwExtensions|] == DEBUG_UTILS_EXTENSION
  {
    glfwExtensions + [DEBUG_UTILS_EXTENSION]
  }

  /** The renderer asks for the same extensions as the standalone
      application. */
  lemma SameExtensionsAsApplication(glfwExtensions: seq<string>)
    ensures InstanceExtensions(glfwExtensions) == Application.GetRequiredExtensions(glfwExtensions)
  {
  }

  /** The lines Init logs. */
  datatype LogLine = LayerListHeader | LayerName(name: string) | ValidationNotFound | InstanceError

  /** The layer loop of Init: it logs each reported layer name up to and
      including the first that is the validation layer, and enables that
      one layer when it finds it. */
  method DetectValidationLayer(reported: seq<LayerProperties>) returns (enabledLayers: seq<string>, logged: seq<LogLine>)
    ensures (exists j :: 0 <= j < |reported| && reported[j].layerName == VALIDATION_LAYER) <==> enabledLayers == [VALIDATION_LAYER]
    ensures enabledLayers == [] || enabledLayers == [VALIDATION_LAYER]
    ensures |logged| <= |reported|
    ensures forall k :: 0 <= k < |logged| ==> logged[k] == LayerName(reported[k].layerName)
    ensures forall k :: 0 <= k < |logged| - 1 ==> reported[k].layerName != VALIDATION_LAYER
    ensures enabledLayers == [VALIDATION_LAYER] ==> |logged| > 0 && reported[|logged| - 1].layerName == VALIDATION_LAYER
    ensures enabledLayers == [] ==> |logged| == |reported|
  {
    logged := [];
    var present := false;
    var i := 0;
    while i < |reported|
      invariant 0 <= i <= |reported|
      invariant |logged| == i
      invariant forall k :: 0 <= k < i ==> logged[k] == LayerName(reported[k].layerName)
      invariant forall k :: 0 <= k < i ==> reported[k].layerName != VALIDATION_LAYER
    {
      logged := logged + [LayerName(reported[i].layerName)];
      if reported[i].layerName == VALIDATION_LAYER {
        present := true;
        break;
      }
      i := i + 1;
    }
    enabledLayers := if present then [VALIDATION_LAYER] else [];
  }

  /** The fields of VkPhysicalDeviceFeatures that Init sets, and the others
      by position. */
  datatype Feature =
    | SamplerAnisotropy | WideLines | FillModeNonSolid | IndependentBlend | PipelineStatisticsQuery
    | OtherFeature(field: nat)

  /** The five features Init turns on. */
  predicate Requested(f: Feature)
  {
    f in {SamplerAnisotropy, WideLines, FillModeNonSolid, IndependentBlend, PipelineStatisticsQuery}
  }

  /** A whole VkPhysicalDeviceFeatures value. */
  type FeatureSet = Feature -> bool

  /** memset to zero. */
  function NoFeatures(): (fs: FeatureSet)
    ensures forall f :: !fs(f)
  {
    f => false
  }

  /** Setting one field to true. */
  function Enable(fs: FeatureSet, f: Feature): (r: FeatureSet)
    ensures r(f)
    ensures forall g :: g != f ==> r(g) == fs(g)
  {
    g => g == f || fs(g)
  }

  /** The features handed to the logical device: exactly the five that are
      requested, every other one zero. */
  function EnabledFeatures(): (fs: FeatureSet)
    ensures forall f :: fs(f) <==> Requested(f)
  {
    Enable(Enable(Enable(Enable(Enable(NoFeatures(), SamplerAnisotropy), WideLines), FillModeNonSolid),
      IndependentBlend), PipelineStatisticsQuery)
  }

  /** Init's check of the instance result as written: it logs "ERROR!" when
      the result equals VK_FALSE, which is 0, the value of VK_SUCCESS. */
  function LogsInstanceError(result: int): (logs: bool)
  {
    result == VK_FALSE
  }

  /** So it logs on success and on no failure. */
  lemma ErrorLoggedOnlyOnSuccess(result: int)
    ensures LogsInstanceError(result) <==> result == VK_SUCCESS
  {
  }

  /** The check as evidently intended: log when creation did not succeed. */
  function LogsInstanceErrorCorrected(result: int): (logs: bool)
    ensures logs <==> result != VK_SUCCESS
  {
    result != VK_SUCCESS
  }

  // ---------------------------------------------------------------------
  // Init and Shutdown

  datatype ContextObject = Instance | Messenger

  datatype ContextAction = ConstructPhysicalDevice | ConstructLogicalDevice

  type ContextEvent = Event<ContextObject, ContextAction>

  /** What Init hands to vkCreateInstance and to the logical device. */
  datatype InstanceConfig = InstanceConfig(extensions: seq<string>, enabledLayers: seq<string>, features: FeatureSet)

  /** Init, given GLFW's extensions, the reported layers and the result of
      vkCreateInstance: the configuration, the log lines and the call
      trace. */
  method Init(glfwExtensions: seq<string>, reported: seq<LayerProperties>, instanceResult: int)
    returns (config: InstanceConfig, log: seq<LogLine>, events: seq<ContextEvent>)
    ensures config.extensions == InstanceExtensions(glfwExtensions)
    ensures (exists j :: 0 <= j < |reported| && reported[j].layerName == VALIDATION_LAYER) <==> config.enabledLayers == [VALIDATION_LAYER]
    ensures config.enabledLayers != [VALIDATION_LAYER] ==> config.enabledLayers == []
    ensures forall f :: config.features(f) <==> Requested(f)
    ensures |log| > 0 && log[0] == LayerListHeader
    ensures ValidationNotFound in log <==> config.enabledLayers == []
    ensures InstanceError in log <==> instanceResult == VK_SUCCESS
    ensures events == [Create(Instance), Create(Messenger), Act(ConstructPhysicalDevice), Act(ConstructLogicalDevice)]
  {
    var enabledLayers, logged := DetectValidationLayer(reported);
    log := [LayerListHeader] + logged;
    assert forall k :: 0 < k < |log| ==> log[k].LayerName?;
    if enabledLayers == [] {
      log := log + [ValidationNotFound];
    }
    if LogsInstanceError(instanceResult) {
      log := log + [InstanceError];
    }
    config := InstanceConfig(InstanceExtensions(glfwExtensions), enabledLayers, EnabledFeatures());
    events := [Create(Instance), Create(Messenger), Act(ConstructPhysicalDevice), Act(ConstructLogicalDevice)];
  }

  /** RendererContext::Shutdown */
  function ShutdownEvents(): seq<ContextEvent>
  {
    [Destroy(Messenger), Destroy(Instance)]
  }

  /** Shutdown releases both objects Init created, the messenger (a child
      of the instance) first. */
  lemma InitShutdownBalanced(initEvents: seq<ContextEvent>)
    requires initEvents == [Create(Instance), Create(Messenger), Act(ConstructPhysicalDevice), Act(ConstructLogicalDevice)]
    ensures Balanced(initEvents + ShutdownEvents())
    ensures ShutdownEvents()[0] == Destroy(Messenger) && ShutdownEvents()[1] == Destroy(Instance)
  {
    var c := CreatesOf<ContextObject, ContextAction>([Instance, Messenger]);
    var d := DestroysOf<ContextObject, ContextAction>([Messenger, Instance]);
    var acts: seq<ContextEvent> := [Act(ConstructPhysicalDevice), Act(ConstructLogicalDevice)];
    assert initEvents + ShutdownEvents() == c + acts + d;
    forall o: ContextObject ensures Net(initEvents + ShutdownEvents(), o) == 0 {
      NetCreates<ContextObject, ContextAction>([Instance, Messenger], o);
      NetDestroys<ContextObject, ContextAction>([Messenger, Instance], o);
      NetSingle<ContextObject, ContextAction>(Act(ConstructPhysicalDevice), o);
      NetSingle<ContextObject, ContextAction>(Act(ConstructLogicalDevice), o);
      assert acts == [Act(ConstructPhysicalDevice)] + [Act(ConstructLogicalDevice)];
      NetAppend<ContextObject, ContextAction>([Act(ConstructPhysicalDevice)], [Act(ConstructLogicalDevice)], o);
      NetAppend(c, acts, o);
      NetAppend(c + acts, d, o);
      CountDistinct([Instance, Messenger], o);
      CountDistinct([Messenger, Instance], o);
    }
  }
}
