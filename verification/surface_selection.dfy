/** The swapchain parameter choices shared by the swapchain class and the
    application driver: surface format, present mode, extent, image count
    and sharing mode. */
module SurfaceSelection {
  import opened Common
  import opened Vk

  /** The parts of VkSurfaceCapabilitiesKHR the choices read. */
  datatype Capabilities = Capabilities(
    minImageCount: nat,
    maxImageCount: nat,
    currentExtent: Extent2D,
    minImageExtent: Extent2D,
    maxImageExtent: Extent2D)

  /** ChooseSwapSurfaceFormat with the preferred format as a parameter: the
      preferred format in the sRGB non-linear colour space if the surface
      offers it, otherwise the first format offered. */
  method ChooseSurfaceFormat(formats: seq<SurfaceFormat>, preferred: Format) returns (chosen: SurfaceFormat)
    requires |formats| > 0
    ensures SurfaceFormat(preferred, SrgbNonlinear) in formats ==> chosen == SurfaceFormat(preferred, SrgbNonlinear)
    ensures SurfaceFormat(preferred, SrgbNonlinear) !in formats ==> chosen == formats[0]
  {
    var i := 0;
    while i < |formats|
      invariant 0 <= i <= |formats|
      invariant SurfaceFormat(preferred, SrgbNonlinear) !in formats[..i]
    {
      if formats[i].format == preferred && formats[i].colorSpace == SrgbNonlinear {
        return formats[i];
      }
      i := i + 1;
    }
    assert formats[..i] == formats;
    return formats[0];
  }

  /** ChooseSwapPresentMode: MAILBOX when offered, otherwise FIFO (which
      every surface supports) whatever the list holds. */
  method ChoosePresentMode(modes: seq<PresentMode>) returns (mode: PresentMode)
    ensures Mailbox in modes ==> mode == Mailbox
    ensures Mailbox !in modes ==> mode == Fifo
  {
    var i := 0;
    while i < |modes|
      invariant 0 <= i <= |modes|
      invariant Mailbox !in modes[..i]
    {
      if modes[i] == Mailbox {
        return modes[i];
      }
      i := i + 1;
    }
    assert modes[..i] == modes;
    return Fifo;
  }

  /** The capabilities are usable for the fallback extent: on each axis the
      minimum does not exceed the maximum (std::clamp requires it). */
  predicate ExtentRangeValid(caps: Capabilities)
  {
    caps.minImageExtent.width <= caps.maxImageExtent.width
    && caps.minImageExtent.height <= caps.maxImageExtent.height
  }

  /** ChooseSwapExtent: the surface's current extent unless its width is the
      UINT32_MAX "any size" sentinel; then the framebuffer size, converted to
      uint32, clamped into the allowed range axis by axis. */
  function ChooseExtent(caps: Capabilities, framebufferWidth: int, framebufferHeight: int): (e: Extent2D)
    requires caps.currentExtent.width == UINT32_MAX ==> ExtentRangeValid(caps)
    ensures caps.currentExtent.width != UINT32_MAX ==> e == caps.currentExtent
    ensures caps.currentExtent.width == UINT32_MAX ==>
              && caps.minImageExtent.width <= e.width <= caps.maxImageExtent.width
              && caps.minImageExtent.height <= e.height <= caps.maxImageExtent.height
              && (caps.minImageExtent.width <= ToUint32(framebufferWidth) <= caps.maxImageExtent.width
                  ==> e.width == ToUint32(framebufferWidth))
              && (caps.minImageExtent.height <= ToUint32(framebufferHeight) <= caps.maxImageExtent.height
                  ==> e.height == ToUint32(framebufferHeight))
    ensures caps.currentExtent.width == UINT32_MAX ==>
              && (ToUint32(framebufferWidth) < caps.minImageExtent.width ==> e.width == caps.minImageExtent.width)
              && (caps.maxImageExtent.width < ToUint32(framebufferWidth) ==> e.width == caps.maxImageExtent.width)
              && (ToUint32(framebufferHeight) < caps.minImageExtent.height ==> e.height == caps.minImageExtent.height)
              && (caps.maxImageExtent.height < ToUint32(framebufferHeight) ==> e.height == caps.maxImageExtent.height)
  {
    if caps.currentExtent.width != UINT32_MAX then caps.currentExtent
    else
      var w := ToUint32(framebufferWidth);
      var h := ToUint32(framebufferHeight);
      Extent2D(Clamp(w, caps.minImageExtent.width, caps.maxImageExtent.width),
               Clamp(h, caps.minImageExtent.height, caps.maxImageExtent.height))
  }

  /** A framebuffer size already inside the allowed range is kept as is. */
  lemma InRangeFramebufferKept(caps: Capabilities, width: nat, height: nat)
    requires caps.currentExtent.width == UINT32_MAX && ExtentRangeValid(caps)
    requires caps.maxImageExtent.width < UINT32_LIMIT && caps.maxImageExtent.height < UINT32_LIMIT
    requires caps.minImageExtent.width <= width <= caps.maxImageExtent.width
    requires caps.minImageExtent.height <= height <= caps.maxImageExtent.height
    ensures ChooseExtent(caps, width, height) == Extent2D(width, height)
  {
  }

  /** The requested image count: one more than the minimum, in uint32. */
  function ImageCount(caps: Capabilities): (n: nat)
    ensures caps.minImageCount < UINT32_MAX ==> n == caps.minImageCount + 1
    ensures caps.minImageCount == UINT32_MAX ==> n == 0
  {
    ToUint32(caps.minImageCount + 1)
  }

  /** Vulkan requires minImageCount <= request and, when maxImageCount is not
      0 (no limit), request <= maxImageCount. */
  predicate ImageCountAllowed(caps: Capabilities, n: nat)
  {
    caps.minImageCount <= n && (caps.maxImageCount == 0 || n <= caps.maxImageCount)
  }

  /** A surface whose maximum equals its minimum gets a request one above
      the maximum. */
  lemma ImageCountExceedsMaximum()
    ensures var caps := Capabilities(2, 2, Extent2D(800, 600), Extent2D(1, 1), Extent2D(4096, 4096));
            ImageCount(caps) == 3 && !ImageCountAllowed(caps, ImageCount(caps))
  {
  }

  /** The request capped at maxImageCount when the surface has a maximum. */
  function ImageCountCorrected(caps: Capabilities): (n: nat)
    requires caps.minImageCount < UINT32_MAX
    requires caps.maxImageCount == 0 || caps.minImageCount <= caps.maxImageCount
    ensures ImageCountAllowed(caps, n)
    ensures caps.maxImageCount == 0 || caps.minImageCount < caps.maxImageCount ==> n == caps.minImageCount + 1
  {
    var n := ImageCount(caps);
    if caps.maxImageCount > 0 && n > caps.maxImageCount then caps.maxImageCount else n
  }

  /** The sharing part of VkSwapchainCreateInfoKHR. */
  datatype Sharing = Sharing(mode: SharingMode, queueFamilyIndices: seq<nat>)

  predicate IsInt32(x: int)
  {
    -0x8000_0000 <= x < 0x8000_0000
  }

  /** The swapchain images are shared CONCURRENTly by both families when the
      graphics and present families differ, EXCLUSIVE otherwise. */
  function ChooseSharing(graphicsFamily: int, presentFamily: int): (s: Sharing)
    requires IsInt32(graphicsFamily) && IsInt32(presentFamily)
    ensures s.mode == Concurrent <==> graphicsFamily != presentFamily
    ensures s.mode == Concurrent ==>
              s.queueFamilyIndices == [ToUint32(graphicsFamily), ToUint32(presentFamily)]
              && s.queueFamilyIndices[0] != s.queueFamilyIndices[1]
    ensures s.mode == Exclusive ==> |s.queueFamilyIndices| == 0
  {
    if graphicsFamily != presentFamily then Sharing(Concurrent, [ToUint32(graphicsFamily), ToUint32(presentFamily)])
    else Sharing(Exclusive, [])
  }
}
