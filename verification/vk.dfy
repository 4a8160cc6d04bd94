/** The slice of the Vulkan API vocabulary the renderer's decision logic reads or
    writes: enumerations as datatypes and flag bits as 32-bit masks, with the
    numeric values of the Vulkan 1.2 headers. */
module Vk {

  /** A VkFlags-style bit mask. */
  type Flags = bv32

  datatype Format =
    | FormatUndefined
    | B8G8R8A8Unorm
    | B8G8R8A8Srgb
    | R8G8B8A8Srgb
    | R32G32Sfloat
    | R32G32B32Sfloat
    | D32Sfloat
    | OtherFormat(code: nat)

  datatype ColorSpace = SrgbNonlinear | OtherColorSpace(code: nat)

  datatype SurfaceFormat = SurfaceFormat(format: Format, colorSpace: ColorSpace)

  datatype PresentMode = Immediate | Mailbox | Fifo | FifoRelaxed

  datatype Extent2D = Extent2D(width: nat, height: nat)

  datatype SharingMode = Exclusive | Concurrent

  datatype ImageLayout =
    | LayoutUndefined
    | LayoutGeneral
    | ColorAttachmentOptimal
    | DepthStencilAttachmentOptimal
    | ShaderReadOnlyOptimal
    | TransferSrcOptimal
    | TransferDstOptimal
    | PresentSrc

  datatype DescriptorType = UniformBuffer | CombinedImageSampler

  /** VK_EXT_DEBUG_UTILS_EXTENSION_NAME */
  const DEBUG_UTILS_EXTENSION: string := "VK_EXT_debug_utils"

  /** VkLayerProperties: a layer's name and its human-readable description. */
  datatype LayerProperties = LayerProperties(layerName: string, description: string)

  /** A fence: signaled, unsignaled, or unsignaled with a queue submission
      pending that will signal it. */
  datatype FenceState = Signaled | Unsignaled | SignalPending

  /** The command-buffer lifecycle states the renderer passes through. */
  datatype CommandBufferState = Initial | Executable | Pending

  // VkMemoryPropertyFlagBits
  const MEMORY_PROPERTY_DEVICE_LOCAL: Flags := 0x1
  const MEMORY_PROPERTY_HOST_VISIBLE: Flags := 0x2
  const MEMORY_PROPERTY_HOST_COHERENT: Flags := 0x4

  // VkShaderStageFlagBits
  const SHADER_STAGE_VERTEX: Flags := 0x1
  const SHADER_STAGE_FRAGMENT: Flags := 0x10

  // VkAccessFlagBits
  const ACCESS_SHADER_READ: Flags := 0x20
  const ACCESS_TRANSFER_WRITE: Flags := 0x1000

  // VkPipelineStageFlagBits
  const PIPELINE_STAGE_TOP_OF_PIPE: Flags := 0x1
  const PIPELINE_STAGE_FRAGMENT_SHADER: Flags := 0x80
  const PIPELINE_STAGE_TRANSFER: Flags := 0x1000
  const PIPELINE_STAGE_COLOR_ATTACHMENT_OUTPUT: Flags := 0x400

  // VkImageAspectFlagBits
  const IMAGE_ASPECT_COLOR: Flags := 0x1

  // VkImageUsageFlagBits
  const IMAGE_USAGE_TRANSFER_DST: Flags := 0x2
  const IMAGE_USAGE_SAMPLED: Flags := 0x4
  const IMAGE_USAGE_COLOR_ATTACHMENT: Flags := 0x10
  const IMAGE_USAGE_DEPTH_STENCIL_ATTACHMENT: Flags := 0x20

  // VkQueueFlagBits
  const QUEUE_GRAPHICS: Flags := 0x1
  const QUEUE_TRANSFER: Flags := 0x4

  // VkBufferUsageFlagBits
  const BUFFER_USAGE_TRANSFER_SRC: Flags := 0x1
  const BUFFER_USAGE_UNIFORM_BUFFER: Flags := 0x10
  const BUFFER_USAGE_INDEX_BUFFER: Flags := 0x40
  const BUFFER_USAGE_VERTEX_BUFFER: Flags := 0x80

  /** VK_QUEUE_FAMILY_IGNORED, i.e. ~0U. */
  const QUEUE_FAMILY_IGNORED: nat := 0xFFFF_FFFF

  /** VkResult VK_SUCCESS; VK_FALSE has the same value 0. */
  const VK_SUCCESS: int := 0
  const VK_FALSE: int := 0

  /** Bytes per texel of the vertex-attribute formats. */
  function FormatSize(f: Format): nat
  {
    match f
    case R32G32Sfloat => 8
    case R32G32B32Sfloat => 12
    case B8G8R8A8Unorm => 4
    case B8G8R8A8Srgb => 4
    case R8G8B8A8Srgb => 4
    case D32Sfloat => 4
    case _ => 0
  }
}
