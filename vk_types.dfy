/** Values of the graphics API and of its C++ host that the renderer inspects.
    Every API object is an opaque handle; every query result the renderer
    branches on is a plain value with the API's own constants. */
module VkTypes {

  /** The optional value of `std::optional`, and VK_NULL_HANDLE-or-handle. */
  datatype Option<+T> = None | Some(value: T)

  /** The outcome of a call that either yields a value or throws
      `std::runtime_error` with a message. */
  datatype Result<+T> = Ok(value: T) | Err(message: string)

  const UINT32_MAX: int := 0xFFFF_FFFF

  /** `uint32_t` */
  type U32 = x: int | 0 <= x <= UINT32_MAX

  /** C++ conversion of an integer to `uint32_t`: reduction modulo 2^32
      (Dafny's `%` is Euclidean, so negative inputs wrap as in C++). */
  function ToU32(x: int): (r: U32)
    ensures 0 <= x <= UINT32_MAX ==> r == x
    ensures (r - x) % 0x1_0000_0000 == 0
  {
    x % 0x1_0000_0000
  }

  /** An opaque API object (VkImage, VkFence, VkFramebuffer, ...). */
  type Handle = nat

  /** The four classes of VkResult that the frame loop distinguishes. */
  datatype VkResult = Success | Suboptimal | ErrorOutOfDate | OtherError

  datatype Format = B8G8R8A8Srgb | R8G8B8A8Srgb | OtherFormat(code: nat)

  datatype ColorSpace = SrgbNonlinear | OtherColorSpace(code: nat)

  datatype SurfaceFormat = SurfaceFormat(format: Format, colorSpace: ColorSpace)

  datatype PresentMode = Immediate | Mailbox | Fifo | FifoRelaxed

  datatype Extent2D = Extent2D(width: U32, height: U32)

  /** VkSurfaceCapabilitiesKHR, restricted to the fields the renderer reads. */
  datatype SurfaceCapabilities = SurfaceCapabilities(
    minImageCount: U32,
    maxImageCount: U32,
    currentExtent: Extent2D,
    minImageExtent: Extent2D,
    maxImageExtent: Extent2D)

  /** What the API promises about a capabilities record: at least one image,
      a maximum of 0 ("no maximum") or at least the minimum, and a non-empty
      range of extents. */
  predicate ValidCapabilities(caps: SurfaceCapabilities) {
    && caps.minImageCount >= 1
    && (caps.maxImageCount == 0 || caps.minImageCount <= caps.maxImageCount)
    && caps.minImageExtent.width <= caps.maxImageExtent.width
    && caps.minImageExtent.height <= caps.maxImageExtent.height
  }

  /** The swap chain support of a device for the window's surface
      (SwapChainSupportDetails). `extraImages` is how many images beyond the
      requested minimum the presentation engine chooses to create. */
  datatype SwapChainSupport = SwapChainSupport(
    capabilities: SurfaceCapabilities,
    formats: seq<SurfaceFormat>,
    presentModes: seq<PresentMode>,
    extraImages: nat)

  const VK_QUEUE_GRAPHICS_BIT: bv32 := 0x1

  /** One VkQueueFamilyProperties entry together with the answer of
      vkGetPhysicalDeviceSurfaceSupportKHR for that family. */
  datatype QueueFamily = QueueFamily(queueFlags: bv32, presentSupport: bool)

  /** A physical device as the selection code sees it. */
  datatype PhysicalDevice = PhysicalDevice(
    queueFamilies: seq<QueueFamily>,
    extensions: seq<string>,
    support: SwapChainSupport,
    samplerAnisotropy: bool,
    memoryTypes: seq<bv32>)

  const VK_MAX_MEMORY_TYPES: nat := 32

  const VK_MEMORY_PROPERTY_DEVICE_LOCAL_BIT: bv32 := 0x1
  const VK_MEMORY_PROPERTY_HOST_VISIBLE_BIT: bv32 := 0x2
  const VK_MEMORY_PROPERTY_HOST_COHERENT_BIT: bv32 := 0x4

  datatype ImageLayout =
    | Undefined
    | General
    | ColorAttachmentOptimal
    | TransferDstOptimal
    | ShaderReadOnlyOptimal
    | PresentSrc

  const VK_ACCESS_NONE: bv32 := 0
  const VK_ACCESS_SHADER_READ_BIT: bv32 := 0x20
  const VK_ACCESS_TRANSFER_WRITE_BIT: bv32 := 0x1000

  const VK_PIPELINE_STAGE_TOP_OF_PIPE_BIT: bv32 := 0x1
  const VK_PIPELINE_STAGE_FRAGMENT_SHADER_BIT: bv32 := 0x80
  const VK_PIPELINE_STAGE_TRANSFER_BIT: bv32 := 0x1000
}
