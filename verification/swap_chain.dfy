/** SwapChain: the creation parameters it picks, its depth buffer's memory
    type and the order in which Destroy releases its objects. */
module SwapChain {
  import opened Common
  import opened Vk
  import opened Lifecycle
  import SurfaceSelection
  import MemoryType

  /** SwapChain::ChooseSwapSurfaceFormat: B8G8R8A8_UNORM in sRGB non-linear
      when offered, else the first format. */
  method ChooseSwapSurfaceFormat(formats: seq<SurfaceFormat>) returns (chosen: SurfaceFormat)
    requires |formats| > 0
    ensures SurfaceFormat(B8G8R8A8Unorm, SrgbNonlinear) in formats ==> chosen == SurfaceFormat(B8G8R8A8Unorm, SrgbNonlinear)
    ensures SurfaceFormat(B8G8R8A8Unorm, SrgbNonlinear) !in formats ==> chosen == formats[0]
  {
    chosen := SurfaceSelection.ChooseSurfaceFormat(formats, B8G8R8A8Unorm);
  }

  /** The parts of VkSwapchainCreateInfoKHR the class decides. */
  datatype CreateInfo = CreateInfo(
    minImageCount: nat,
    surfaceFormat: SurfaceFormat,
    extent: Extent2D,
    arrayLayers: nat,
    usage: Flags,
    sharing: SurfaceSelection.Sharing,
    presentMode: PresentMode,
    clipped: bool)

  /** SwapChain::Init up to vkCreateSwapchainKHR. */
  method SwapchainCreateInfo(caps: SurfaceSelection.Capabilities, formats: seq<SurfaceFormat>, modes: seq<PresentMode>,
                             graphicsFamily: int, presentFamily: int, framebufferWidth: int, framebufferHeight: int)
    returns (info: CreateInfo)
    requires |formats| > 0
    requires caps.currentExtent.width == UINT32_MAX ==> SurfaceSelection.ExtentRangeValid(caps)
    requires SurfaceSelection.IsInt32(graphicsFamily) && SurfaceSelection.IsInt32(presentFamily)
    ensures info.minImageCount == SurfaceSelection.ImageCount(caps)
    ensures SurfaceFormat(B8G8R8A8Unorm, SrgbNonlinear) in formats ==> info.surfaceFormat == SurfaceFormat(B8G8R8A8Unorm, SrgbNonlinear)
    ensures SurfaceFormat(B8G8R8A8Unorm, SrgbNonlinear) !in formats ==> info.surfaceFormat == formats[0]
    ensures Mailbox in modes <==> info.presentMode == Mailbox
    ensures Mailbox !in modes ==> info.presentMode == Fifo
    ensures info.sharing.mode == Concurrent <==> graphicsFamily != presentFamily
    ensures info.sharing.mode == Concurrent ==> info.sharing.queueFamilyIndices == [ToUint32(graphicsFamily), ToUint32(presentFamily)]
    ensures info.sharing.mode == Exclusive ==> info.sharing.queueFamilyIndices == []
    ensures info.sharing == SurfaceSelection.ChooseSharing(graphicsFamily, presentFamily)
    ensures info.extent == SurfaceSelection.ChooseExtent(caps, framebufferWidth, framebufferHeight)
    ensures info.arrayLayers == 1 && info.usage == IMAGE_USAGE_COLOR_ATTACHMENT && info.clipped
  {
    var format := ChooseSwapSurfaceFormat(formats);
    var mode := SurfaceSelection.ChoosePresentMode(modes);
    info := CreateInfo(SurfaceSelection.ImageCount(caps), format,
                       SurfaceSelection.ChooseExtent(caps, framebufferWidth, framebufferHeight),
                       1, IMAGE_USAGE_COLOR_ATTACHMENT,
                       SurfaceSelection.ChooseSharing(graphicsFamily, presentFamily), mode, true);
  }

  /** The depth image's memory type: the lowest allowed DEVICE_LOCAL type, 0 if none. */
  function DepthMemoryType(typeBits: Flags, typeFlags: seq<Flags>): (index: nat)
    requires |typeFlags| <= MemoryType.MAX_MEMORY_TYPES
    ensures (exists j: nat :: MemoryType.Suitable(typeBits, typeFlags, MEMORY_PROPERTY_DEVICE_LOCAL, j)) ==>
              index < |typeFlags| && typeFlags[index] & MEMORY_PROPERTY_DEVICE_LOCAL != 0
              && MemoryType.Allowed(typeBits, index)
              && forall j: nat :: j < index ==> !MemoryType.Suitable(typeBits, typeFlags, MEMORY_PROPERTY_DEVICE_LOCAL, j)
    ensures (forall j: nat :: !MemoryType.Suitable(typeBits, typeFlags, MEMORY_PROPERTY_DEVICE_LOCAL, j)) ==> index == 0
  {
    var i := MemoryType.FindMemoryType(typeBits, typeFlags, MEMORY_PROPERTY_DEVICE_LOCAL);
    assert MemoryType.Suitable(typeBits, typeFlags, MEMORY_PROPERTY_DEVICE_LOCAL, i) ==>
             MemoryType.HasAll(typeFlags[i], MEMORY_PROPERTY_DEVICE_LOCAL);
    i
  }

  // ---------------------------------------------------------------------
  // Object lifecycle

  /** The objects the swapchain owns; ColorView(i) views swapchain image i. */
  datatype SwapObject = Surface | Swapchain | ColorView(index: nat) | DepthImage | DepthMemory | DepthView

  /** The swapchain records no other calls. */
  datatype SwapAction = BindDepthMemory

  type SwapEvent = Event<SwapObject, SwapAction>

  /** Object `child` must be destroyed before `parent`. */
  predicate DependsOn(child: SwapObject, parent: SwapObject)
  {
    || (child.ColorView? && parent == Swapchain)
    || (child == Swapchain && parent == Surface)
    || (child == DepthView && parent == DepthImage)
    || (child == DepthImage && parent == DepthMemory)
  }

  /** No object is destroyed after an object it depends on. */
  predicate ChildrenFirst(trace: seq<SwapEvent>)
  {
    forall i, j :: 0 <= i < j < |trace| && trace[i].Destroy? && trace[j].Destroy? ==>
      !DependsOn(trace[j].obj, trace[i].obj)
  }

  function ColorViews(n: nat): (views: seq<SwapObject>)
    ensures |views| == n
    ensures forall i :: 0 <= i < n ==> views[i] == ColorView(i)
  {
    seq(n, i requires 0 <= i < n => ColorView(i))
  }

  /** CreateWindowSurface and SwapChain::Init for a swapchain with n images. */
  function InitEvents(n: nat): seq<SwapEvent>
  {
    CreatesOf([Surface, Swapchain]) + CreatesOf(ColorViews(n))
    + CreatesOf([DepthImage, DepthMemory]) + [Act(BindDepthMemory)] + CreatesOf([DepthView])
  }

  /** SwapChain::Destroy */
  function DestroyEvents(n: nat): seq<SwapEvent>
  {
    DestroysOf([DepthView, DepthImage]) + DestroysOf(ColorViews(n)) + DestroysOf([Swapchain, Surface])
  }

  /** Destroy releases views before their images and the swapchain before
      its surface. */
  lemma DestroyOrderRespectsDependencies(n: nat)
    ensures ChildrenFirst(DestroyEvents(n))
  {
    var trace := DestroyEvents(n);
    forall i, j | 0 <= i < j < |trace| && trace[i].Destroy? && trace[j].Destroy?
      ensures !DependsOn(trace[j].obj, trace[i].obj)
    {
      if 2 <= j < 2 + n {
        assert trace[j] == Destroy(ColorView(j - 2));
        if 2 <= i {
          assert trace[i] == Destroy(ColorView(i - 2));
        }
      } else if j == 2 + n {
        if 2 <= i {
          assert trace[i] == Destroy(ColorView(i - 2));
        }
      }
    }
  }

  /** Objects live after initialisation: each once. */
  lemma NetOfInit(n: nat, o: SwapObject)
    ensures Net(InitEvents(n), o) == (if o.ColorView? then (if o.index < n then 1 else 0) else 1)
  {
    var a := CreatesOf<SwapObject, SwapAction>([Surface, Swapchain]);
    var b := CreatesOf<SwapObject, SwapAction>(ColorViews(n));
    var c := CreatesOf<SwapObject, SwapAction>([DepthImage, DepthMemory]);
    var d: seq<SwapEvent> := [Act(BindDepthMemory)];
    var e := CreatesOf<SwapObject, SwapAction>([DepthView]);
    assert InitEvents(n) == a + b + c + d + e;
    NetCreates<SwapObject, SwapAction>([Surface, Swapchain], o);
    NetCreates<SwapObject, SwapAction>(ColorViews(n), o);
    NetCreates<SwapObject, SwapAction>([DepthImage, DepthMemory], o);
    NetSingle<SwapObject, SwapAction>(Act(BindDepthMemory), o);
    NetCreates<SwapObject, SwapAction>([DepthView], o);
    CountIsMultiplicity([Surface, Swapchain], o);
    CountIsMultiplicity([DepthImage, DepthMemory], o);
    CountIsMultiplicity([DepthView], o);
    ColorViewsCount(n, o);
    NetAppend(a, b, o);
    NetAppend(a + b, c, o);
    NetAppend(a + b + c, d, o);
    NetAppend(a + b + c + d, e, o);
  }

  lemma {:induction false} ColorViewsCount(n: nat, o: SwapObject)
    ensures Count(ColorViews(n), o) == (if o.ColorView? && o.index < n then 1 else 0)
  {
    if n > 0 {
      ColorViewsCount(n - 1, o);
      assert ColorViews(n) == ColorViews(n - 1) + [ColorView(n - 1)];
      assert ColorViews(n)[..n - 1] == ColorViews(n - 1);
    }
  }

  /** Net effect of Destroy: each destroyed object once. */
  lemma NetOfDestroy(n: nat, o: SwapObject)
    ensures Net(DestroyEvents(n), o)
         == (if o.ColorView? then (if o.index < n then -1 else 0) else if o == DepthMemory then 0 else -1)
  {
    var a := DestroysOf<SwapObject, SwapAction>([DepthView, DepthImage]);
    var b := DestroysOf<SwapObject, SwapAction>(ColorViews(n));
    var c := DestroysOf<SwapObject, SwapAction>([Swapchain, Surface]);
    assert DestroyEvents(n) == a + b + c;
    NetDestroys<SwapObject, SwapAction>([DepthView, DepthImage], o);
    NetDestroys<SwapObject, SwapAction>(ColorViews(n), o);
    NetDestroys<SwapObject, SwapAction>([Swapchain, Surface], o);
    CountIsMultiplicity([DepthView, DepthImage], o);
    CountIsMultiplicity([Swapchain, Surface], o);
    ColorViewsCount(n, o);
    NetAppend(a, b, o);
    NetAppend(a + b, c, o);
  }

  /** Initialisation followed by Destroy releases everything except the
      depth image's memory, which stays allocated. */
  lemma DepthMemoryOutlivesDestroy(n: nat, o: SwapObject)
    ensures Net(InitEvents(n) + DestroyEvents(n), o) == (if o == DepthMemory then 1 else 0)
  {
    NetOfInit(n, o);
    NetOfDestroy(n, o);
    NetAppend(InitEvents(n), DestroyEvents(n), o);
  }

  /** Destroy with the depth memory freed once the depth image is gone. */
  function DestroyEventsCorrected(n: nat): seq<SwapEvent>
  {
    DestroysOf([DepthView, DepthImage, DepthMemory]) + DestroysOf(ColorViews(n)) + DestroysOf([Swapchain, Surface])
  }

  /** Net effect of the corrected Destroy: every object Init created,
      each once. */
  lemma NetOfDestroyCorrected(n: nat, o: SwapObject)
    ensures Net(DestroyEventsCorrected(n), o) + Net(InitEvents(n), o) == 0
  {
    var a := DestroysOf<SwapObject, SwapAction>([DepthView, DepthImage, DepthMemory]);
    var b := DestroysOf<SwapObject, SwapAction>(ColorViews(n));
    var c := DestroysOf<SwapObject, SwapAction>([Swapchain, Surface]);
    assert DestroyEventsCorrected(n) == a + b + c;
    NetDestroys<SwapObject, SwapAction>([DepthView, DepthImage, DepthMemory], o);
    NetDestroys<SwapObject, SwapAction>(ColorViews(n), o);
    NetDestroys<SwapObject, SwapAction>([Swapchain, Surface], o);
    CountIsMultiplicity([DepthView, DepthImage, DepthMemory], o);
    CountIsMultiplicity([Swapchain, Surface], o);
    ColorViewsCount(n, o);
    NetAppend(a, b, o);
    NetAppend(a + b, c, o);
    NetOfInit(n, o);
  }

  /** The corrected Destroy still releases children first: the depth
      memory goes after the depth image and view. */
  lemma CorrectedDestroyOrder(n: nat)
    ensures ChildrenFirst(DestroyEventsCorrected(n))
  {
    var trace := DestroyEventsCorrected(n);
    forall i, j | 0 <= i < j < |trace| && trace[i].Destroy? && trace[j].Destroy?
      ensures !DependsOn(trace[j].obj, trace[i].obj)
    {
      if 3 <= j < 3 + n {
        assert trace[j] == Destroy(ColorView(j - 3));
        if 3 <= i {
          assert trace[i] == Destroy(ColorView(i - 3));
        }
      } else if j == 3 + n {
        if 3 <= i {
          assert trace[i] == Destroy(ColorView(i - 3));
        }
      }
    }
  }

  /** The corrected Destroy releases every object Init created, in
      dependency order. */
  lemma CorrectedDestroyBalanced(n: nat)
    ensures Balanced(InitEvents(n) + DestroyEventsCorrected(n))
    ensures ChildrenFirst(DestroyEventsCorrected(n))
  {
    forall o: SwapObject ensures Net(InitEvents(n) + DestroyEventsCorrected(n), o) == 0 {
      NetOfDestroyCorrected(n, o);
      NetAppend(InitEvents(n), DestroyEventsCorrected(n), o);
    }
    CorrectedDestroyOrder(n);
  }
}
