/** The decisions createSwapChain takes before it calls the API: surface
    format, present mode, extent, requested image count and sharing mode.
    Both renderer revisions use the same logic. */
module SwapChainChoice {
  import opened VkTypes
  import opened DeviceSelection

  /** The format the renderer prefers. */
  const PreferredFormat: SurfaceFormat := SurfaceFormat(B8G8R8A8Srgb, SrgbNonlinear)

  /** The search loop of chooseSwapSurfaceFormat from position `i` on. */
  function FindPreferredFormat(formats: seq<SurfaceFormat>, i: nat): (r: Option<SurfaceFormat>)
    requires i <= |formats|
    ensures r.Some? ==> r.value == PreferredFormat
    ensures r.Some? <==> PreferredFormat in formats[i..]
    decreases |formats| - i
  {
    if i == |formats| then None
    else if formats[i].format == B8G8R8A8Srgb && formats[i].colorSpace == SrgbNonlinear then Some(formats[i])
    else
      assert formats[i..] == [formats[i]] + formats[i + 1..];
      FindPreferredFormat(formats, i + 1)
  }

  /** chooseSwapSurfaceFormat: the preferred sRGB format when it is offered,
      otherwise the first offered format. The source reads `formats[0]`
      unchecked; device suitability guarantees a non-empty list. */
  function ChooseSwapSurfaceFormat(formats: seq<SurfaceFormat>): (r: SurfaceFormat)
    requires |formats| > 0
    ensures r in formats
    ensures PreferredFormat in formats ==> r == PreferredFormat
    ensures PreferredFormat !in formats ==> r == formats[0]
  {
    match FindPreferredFormat(formats, 0)
    case Some(f) => f
    case None => formats[0]
  }

  /** The search loop of chooseSwapPresentMode from position `i` on. */
  function FindMailbox(modes: seq<PresentMode>, i: nat): (r: bool)
    requires i <= |modes|
    ensures r <==> Mailbox in modes[i..]
    decreases |modes| - i
  {
    if i == |modes| then false
    else if modes[i] == Mailbox then true
    else
      assert modes[i..] == [modes[i]] + modes[i + 1..];
      FindMailbox(modes, i + 1)
  }

  /** chooseSwapPresentMode: MAILBOX when it is offered, else FIFO, which
      every presentation engine supports. */
  function ChooseSwapPresentMode(modes: seq<PresentMode>): (r: PresentMode)
    ensures r == Mailbox || r == Fifo
    ensures r == Mailbox <==> Mailbox in modes
  {
    if FindMailbox(modes, 0) then Mailbox else Fifo
  }

  /** `std::max(lo, std::min(hi, x))` on uint32_t. */
  function ClampU32(x: U32, lo: U32, hi: U32): U32 {
    if lo < (if hi < x then hi else x) then (if hi < x then hi else x) else lo
  }

  /** One dimension of chooseSwapExtent's fallback: the framebuffer size,
      truncated to uint32_t, clamped to the surface's range. */
  function ClampDimension(framebuffer: int, lo: U32, hi: U32): (r: U32)
    ensures lo <= hi ==> lo <= r <= hi
    ensures lo <= ToU32(framebuffer) <= hi ==> r == ToU32(framebuffer)
    ensures ToU32(framebuffer) < lo ==> r == lo
    ensures lo <= hi < ToU32(framebuffer) ==> r == hi
    ensures hi < lo ==> r == lo
    ensures 0 <= framebuffer <= UINT32_MAX && lo <= framebuffer <= hi ==> r == framebuffer
  {
    ClampU32(ToU32(framebuffer), lo, hi)
  }

  /** chooseSwapExtent: the surface's current extent unless its width is the
      special value UINT32_MAX, in which case the framebuffer size in pixels
      (`framebufferWidth`, `framebufferHeight`, as the window reports them)
      clamped to the allowed range. */
  function ChooseSwapExtent(caps: SurfaceCapabilities, framebufferWidth: int, framebufferHeight: int): (r: Extent2D)
    ensures caps.currentExtent.width != UINT32_MAX ==> r == caps.currentExtent
    ensures caps.currentExtent.width == UINT32_MAX && ValidCapabilities(caps) ==>
      && caps.minImageExtent.width <= r.width <= caps.maxImageExtent.width
      && caps.minImageExtent.height <= r.height <= caps.maxImageExtent.height
    ensures caps.currentExtent.width == UINT32_MAX ==>
      && r.width == ClampDimension(framebufferWidth, caps.minImageExtent.width, caps.maxImageExtent.width)
      && r.height == ClampDimension(framebufferHeight, caps.minImageExtent.height, caps.maxImageExtent.height)
  {
    if caps.currentExtent.width != UINT32_MAX then caps.currentExtent
    else
      Extent2D(
        ClampDimension(framebufferWidth, caps.minImageExtent.width, caps.maxImageExtent.width),
        ClampDimension(framebufferHeight, caps.minImageExtent.height, caps.maxImageExtent.height))
  }

  /** The requested image count of createSwapChain: one more than the
      minimum, in uint32_t arithmetic, lowered to the maximum when there is
      a maximum (non-zero) and it is exceeded. */
  function ImageCount(caps: SurfaceCapabilities): (r: U32)
    ensures caps.minImageCount < UINT32_MAX && (caps.maxImageCount == 0 || caps.minImageCount < caps.maxImageCount) ==>
      r == caps.minImageCount + 1
    ensures ValidCapabilities(caps) && caps.minImageCount < UINT32_MAX ==>
      && caps.minImageCount <= r
      && (caps.maxImageCount > 0 ==> r <= caps.maxImageCount)
      && (r == caps.minImageCount + 1 || r == caps.maxImageCount)
    ensures 0 < caps.maxImageCount <= caps.minImageCount < UINT32_MAX ==> r == caps.maxImageCount
    ensures caps.minImageCount == UINT32_MAX ==> r == 0
  {
    var count := ToU32(caps.minImageCount + 1);
    if caps.maxImageCount > 0 && count > caps.maxImageCount then caps.maxImageCount else count
  }

  datatype SharingMode =
    | Exclusive
    | Concurrent(queueFamilyIndices: seq<nat>)

  /** The sharing-mode choice of createSwapChain. Both family indices are
      read with `std::optional::value()` first, which throws when either is
      missing; device suitability rules that out. */
  function ChooseSharingMode(indices: QueueFamilyIndices): (r: Result<SharingMode>)
    ensures r.Err? <==> !indices.IsComplete()
    ensures r.Err? ==> r.message == "bad optional access"
    ensures r.Ok? ==>
      (r.value.Concurrent? <==> indices.graphicsFamily.value != indices.presentFamily.value)
    ensures r.Ok? && r.value.Concurrent? ==>
      && |r.value.queueFamilyIndices| == 2
      && r.value.queueFamilyIndices[0] == indices.graphicsFamily.value
      && r.value.queueFamilyIndices[1] == indices.presentFamily.value
  {
    if !indices.IsComplete() then Err("bad optional access")
    else
      var families := [indices.graphicsFamily.value, indices.presentFamily.value];
      if indices.graphicsFamily != indices.presentFamily then Ok(Concurrent(families)) else Ok(Exclusive)
  }

  /** The fields of VkSwapchainCreateInfoKHR that createSwapChain decides. */
  datatype SwapChainCreateInfo = SwapChainCreateInfo(
    minImageCount: U32,
    surfaceFormat: SurfaceFormat,
    extent: Extent2D,
    sharing: SharingMode,
    presentMode: PresentMode)

  /** The create info createSwapChain builds from the device's support
      details, the window's framebuffer size and the device's queue
      families. */
  function PlanSwapChain(support: SwapChainSupport, framebufferWidth: int, framebufferHeight: int,
                         indices: QueueFamilyIndices): (r: Result<SwapChainCreateInfo>)
    requires |support.formats| > 0
    ensures r.Err? <==> !indices.IsComplete()
    ensures r.Ok? ==>
      && r.value.surfaceFormat in support.formats
      && (r.value.presentMode == Mailbox <==> Mailbox in support.presentModes)
      && (r.value.presentMode != Mailbox ==> r.value.presentMode == Fifo)
      && r.value.minImageCount == ImageCount(support.capabilities)
      && r.value.extent == ChooseSwapExtent(support.capabilities, framebufferWidth, framebufferHeight)
      && ChooseSharingMode(indices) == Ok(r.value.sharing)
  {
    var format := ChooseSwapSurfaceFormat(support.formats);
    var mode := ChooseSwapPresentMode(support.presentModes);
    var extent := ChooseSwapExtent(support.capabilities, framebufferWidth, framebufferHeight);
    var count := ImageCount(support.capabilities);
    match ChooseSharingMode(indices)
    case Err(message) => Err(message)
    case Ok(sharing) => Ok(SwapChainCreateInfo(count, format, extent, sharing, mode))
  }
}
