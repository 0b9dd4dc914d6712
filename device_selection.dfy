/** Choosing the GPU: queue families, device extensions, validation layers,
    device suitability, the first suitable device, and the memory type
    search. Every search loop of the source is a recursive function here;
    each carries a contract that characterises its result without
    reference to the loop. */
module DeviceSelection {
  import opened VkTypes

  // ---------------------------------------------------------------------
  // Memory types
  // ---------------------------------------------------------------------

  /** Memory type `i` is allowed by the resource's `typeFilter` bit mask and
      has every requested property flag. */
  predicate MemoryTypeSuitable(typeFilter: bv32, properties: bv32, memoryTypes: seq<bv32>, i: nat)
    requires i < |memoryTypes| <= VK_MAX_MEMORY_TYPES
  {
    && typeFilter & ((1 as bv32) << i) != 0
    && memoryTypes[i] & properties == properties
  }

  /** The search loop of findMemoryType, from index `i` on. */
  function FindMemoryTypeFrom(typeFilter: bv32, properties: bv32, memoryTypes: seq<bv32>, i: nat): (r: Result<nat>)
    requires i <= |memoryTypes| <= VK_MAX_MEMORY_TYPES
    ensures r.Ok? ==>
      && i <= r.value < |memoryTypes|
      && MemoryTypeSuitable(typeFilter, properties, memoryTypes, r.value)
      && forall j :: i <= j < r.value ==> !MemoryTypeSuitable(typeFilter, properties, memoryTypes, j)
    ensures r.Err? ==>
      && r.message == "failed to find suitable memory type"
      && forall j :: i <= j < |memoryTypes| ==> !MemoryTypeSuitable(typeFilter, properties, memoryTypes, j)
    decreases |memoryTypes| - i
  {
    if i == |memoryTypes| then Err("failed to find suitable memory type")
    else if MemoryTypeSuitable(typeFilter, properties, memoryTypes, i) then Ok(i)
    else FindMemoryTypeFrom(typeFilter, properties, memoryTypes, i + 1)
  }

  /** findMemoryType: the smallest suitable memory type index, or the
      runtime error when no memory type is suitable. `memoryTypes` holds the
      property flags of the device's memory types (at most
      VK_MAX_MEMORY_TYPES of them, as the API guarantees). */
  function FindMemoryType(typeFilter: bv32, properties: bv32, memoryTypes: seq<bv32>): (r: Result<nat>)
    requires |memoryTypes| <= VK_MAX_MEMORY_TYPES
    ensures r.Ok? ==>
      && r.value < |memoryTypes|
      && MemoryTypeSuitable(typeFilter, properties, memoryTypes, r.value)
      && forall j :: 0 <= j < r.value ==> !MemoryTypeSuitable(typeFilter, properties, memoryTypes, j)
    ensures r.Err? <==> forall j :: 0 <= j < |memoryTypes| ==> !MemoryTypeSuitable(typeFilter, properties, memoryTypes, j)
    ensures r.Err? ==> r.message == "failed to find suitable memory type"
  {
    FindMemoryTypeFrom(typeFilter, properties, memoryTypes, 0)
  }

  // ---------------------------------------------------------------------
  // Queue families
  // ---------------------------------------------------------------------

  datatype QueueFamilyIndices = QueueFamilyIndices(graphicsFamily: Option<nat>, presentFamily: Option<nat>) {
    predicate IsComplete() {
      graphicsFamily.Some? && presentFamily.Some?
    }
  }

  predicate SupportsGraphics(family: QueueFamily) {
    family.queueFlags & VK_QUEUE_GRAPHICS_BIT != 0
  }

  ghost predicate AnyGraphics(families: seq<QueueFamily>) {
    exists j :: 0 <= j < |families| && SupportsGraphics(families[j])
  }

  ghost predicate AnyPresent(families: seq<QueueFamily>) {
    exists j :: 0 <= j < |families| && families[j].presentSupport
  }

  /** What the scan knows after visiting families[..i] without completing:
      each recorded family is the last of its kind so far, and a missing one
      means there was none of that kind so far. */
  ghost predicate ScanInvariant(families: seq<QueueFamily>, i: nat, acc: QueueFamilyIndices) {
    && i <= |families|
    && !acc.IsComplete()
    && (acc.graphicsFamily.Some? ==>
          && acc.graphicsFamily.value < i
          && SupportsGraphics(families[acc.graphicsFamily.value])
          && forall j :: acc.graphicsFamily.value < j < i ==> !SupportsGraphics(families[j]))
    && (acc.graphicsFamily.None? ==> forall j :: 0 <= j < i ==> !SupportsGraphics(families[j]))
    && (acc.presentFamily.Some? ==>
          && acc.presentFamily.value < i
          && families[acc.presentFamily.value].presentSupport
          && forall j :: acc.presentFamily.value < j < i ==> !families[j].presentSupport)
    && (acc.presentFamily.None? ==> forall j :: 0 <= j < i ==> !families[j].presentSupport)
  }

  function Max(a: nat, b: nat): nat { if a < b then b else a }

  /** The properties of findQueueFamilies' result, stated over the family
      list alone. When the scan completes, it stops at the first index
      `stop` = max(graphics, present) by which both kinds have been seen;
      each reported family is the last of its kind up to that point. */
  ghost predicate QueueFamiliesFound(families: seq<QueueFamily>, r: QueueFamilyIndices) {
    && (r.graphicsFamily.Some? ==>
          r.graphicsFamily.value < |families| && SupportsGraphics(families[r.graphicsFamily.value]))
    && (r.presentFamily.Some? ==>
          r.presentFamily.value < |families| && families[r.presentFamily.value].presentSupport)
    && (r.graphicsFamily.None? <==> !AnyGraphics(families))
    && (r.presentFamily.None? <==> !AnyPresent(families))
    && (r.IsComplete() ==>
          var g, p := r.graphicsFamily.value, r.presentFamily.value;
          var stop := Max(g, p);
          && !(AnyGraphics(families[..stop]) && AnyPresent(families[..stop]))
          && (forall j :: g < j <= stop ==> !SupportsGraphics(families[j]))
          && (forall j :: p < j <= stop ==> !families[j].presentSupport))
    && (!r.IsComplete() && r.graphicsFamily.Some? ==>
          forall j :: r.graphicsFamily.value < j < |families| ==> !SupportsGraphics(families[j]))
    && (!r.IsComplete() && r.presentFamily.Some? ==>
          forall j :: r.presentFamily.value < j < |families| ==> !families[j].presentSupport)
  }

  /** The loop of findQueueFamilies from family `i` on, with what it has
      recorded so far in `acc`. */
  function ScanQueueFamilies(families: seq<QueueFamily>, i: nat, acc: QueueFamilyIndices): (r: QueueFamilyIndices)
    requires ScanInvariant(families, i, acc)
    ensures QueueFamiliesFound(families, r)
    decreases |families| - i
  {
    if i == |families| then
      assert families[..i] == families;
      acc
    else
      var graphics := if SupportsGraphics(families[i]) then Some(i) else acc.graphicsFamily;
      var present := if families[i].presentSupport then Some(i) else acc.presentFamily;
      var next := QueueFamilyIndices(graphics, present);
      if next.IsComplete() then
        CompletedScan(families, i, acc, next);
        next
      else
        ScanQueueFamilies(families, i + 1, next)
  }

  /** The scan completes at family `i`: the result has the stop property. */
  lemma CompletedScan(families: seq<QueueFamily>, i: nat, acc: QueueFamilyIndices, next: QueueFamilyIndices)
    requires ScanInvariant(families, i, acc) && i < |families|
    requires next.graphicsFamily == (if SupportsGraphics(families[i]) then Some(i) else acc.graphicsFamily)
    requires next.presentFamily == (if families[i].presentSupport then Some(i) else acc.presentFamily)
    requires next.IsComplete()
    ensures QueueFamiliesFound(families, next)
  {
    var g, p := next.graphicsFamily.value, next.presentFamily.value;
    assert Max(g, p) == i;
    if acc.graphicsFamily.None? {
      assert !AnyGraphics(families[..i]);
    } else {
      assert !AnyPresent(families[..i]);
    }
    assert AnyGraphics(families) by { assert SupportsGraphics(families[g]); }
    assert AnyPresent(families) by { assert families[p].presentSupport; }
  }

  /** findQueueFamilies over the device's queue families, in order. */
  function FindQueueFamilies(families: seq<QueueFamily>): (r: QueueFamilyIndices)
    ensures QueueFamiliesFound(families, r)
    ensures r.IsComplete() <==> AnyGraphics(families) && AnyPresent(families)
  {
    ScanQueueFamilies(families, 0, QueueFamilyIndices(None, None))
  }

  // ---------------------------------------------------------------------
  // Device extensions and validation layers
  // ---------------------------------------------------------------------

  /** kDeviceExtensions (VK_KHR_SWAPCHAIN_EXTENSION_NAME). */
  const DeviceExtensions: set<string> := {"VK_KHR_swapchain"}

  /** kValidationLayers. */
  const ValidationLayers: seq<string> := ["VK_LAYER_KHRONOS_validation"]

  /** The erase loop of checkDeviceExtensionSupport: what is left of the
      required names after erasing every available one. */
  function EraseAvailable(required: set<string>, available: seq<string>): (r: set<string>)
    ensures forall e :: e in r <==> e in required && e !in available
  {
    if available == [] then required
    else EraseAvailable(required - {available[0]}, available[1..])
  }

  /** checkDeviceExtensionSupport: every required extension is available. */
  function CheckDeviceExtensionSupport(available: seq<string>): (r: bool)
    ensures r <==> forall e :: e in DeviceExtensions ==> e in available
  {
    var missing := EraseAvailable(DeviceExtensions, available);
    assert missing != {} <==> exists e :: e in missing;
    missing == {}
  }

  /** The inner search of checkValidationLayerSupport. */
  function LayerFound(layerName: string, available: seq<string>): (r: bool)
    ensures r <==> layerName in available
  {
    if available == [] then false
    else if available[0] == layerName then true
    else LayerFound(layerName, available[1..])
  }

  /** The outer loop of checkValidationLayerSupport: false at the first
      required layer that is not available. */
  function LayersFound(required: seq<string>, available: seq<string>): (r: bool)
    ensures r <==> forall k :: 0 <= k < |required| ==> required[k] in available
  {
    if required == [] then true
    else if !LayerFound(required[0], available) then false
    else
      assert forall k :: 1 <= k < |required| ==> required[k] == required[1..][k - 1];
      LayersFound(required[1..], available)
  }

  /** checkValidationLayerSupport over the names the instance reports. */
  function CheckValidationLayerSupport(availableLayers: seq<string>): (r: bool)
    ensures r <==> "VK_LAYER_KHRONOS_validation" in availableLayers
  {
    LayersFound(ValidationLayers, availableLayers)
  }

  // ---------------------------------------------------------------------
  // Device suitability and choice
  // ---------------------------------------------------------------------

  /** isDeviceSuitable. The renderer.h revision also asks for sampler
      anisotropy (`checkAnisotropy`); the main.cpp revision does not. The
      swap chain is queried only when the extensions are supported. */
  function IsDeviceSuitable(device: PhysicalDevice, checkAnisotropy: bool): (r: bool)
    ensures r ==>
      && FindQueueFamilies(device.queueFamilies).IsComplete()
      && |device.support.formats| > 0
      && |device.support.presentModes| > 0
    ensures r <==>
      && AnyGraphics(device.queueFamilies)
      && AnyPresent(device.queueFamilies)
      && "VK_KHR_swapchain" in device.extensions
      && |device.support.formats| > 0
      && |device.support.presentModes| > 0
      && (checkAnisotropy ==> device.samplerAnisotropy)
  {
    var indices := FindQueueFamilies(device.queueFamilies);
    var extensionsSupported := CheckDeviceExtensionSupport(device.extensions);
    var swapChainAdequate :=
      extensionsSupported && |device.support.formats| > 0 && |device.support.presentModes| > 0;
    indices.IsComplete() && extensionsSupported && swapChainAdequate
      && (!checkAnisotropy || device.samplerAnisotropy)
  }

  /** The "pick the best device" loop from device `i` on. */
  function FirstSuitable(devices: seq<PhysicalDevice>, checkAnisotropy: bool, i: nat): (r: Option<nat>)
    requires i <= |devices|
    ensures r.Some? ==>
      && i <= r.value < |devices|
      && IsDeviceSuitable(devices[r.value], checkAnisotropy)
      && forall j :: i <= j < r.value ==> !IsDeviceSuitable(devices[j], checkAnisotropy)
    ensures r.None? ==> forall j :: i <= j < |devices| ==> !IsDeviceSuitable(devices[j], checkAnisotropy)
    decreases |devices| - i
  {
    if i == |devices| then None
    else if IsDeviceSuitable(devices[i], checkAnisotropy) then Some(i)
    else FirstSuitable(devices, checkAnisotropy, i + 1)
  }

  /** pickPhysicalDevice: the index of the first suitable device in
      enumeration order, or the error it throws. */
  function PickPhysicalDevice(devices: seq<PhysicalDevice>, checkAnisotropy: bool): (r: Result<nat>)
    ensures r.Ok? ==>
      && r.value < |devices|
      && IsDeviceSuitable(devices[r.value], checkAnisotropy)
      && forall j :: 0 <= j < r.value ==> !IsDeviceSuitable(devices[j], checkAnisotropy)
    ensures r.Err? <==> forall j :: 0 <= j < |devices| ==> !IsDeviceSuitable(devices[j], checkAnisotropy)
    ensures r.Err? ==>
      r.message == (if |devices| == 0 then "failed to find GPUs with Vulkan support" else "failed to find a suitable GPU")
  {
    if |devices| == 0 then Err("failed to find GPUs with Vulkan support")
    else
      match FirstSuitable(devices, checkAnisotropy, 0)
      case Some(i) => Ok(i)
      case None => Err("failed to find a suitable GPU")
  }
}
