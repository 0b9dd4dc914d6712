# phalanx frame loop, swap chain bookkeeping and input state, in Dafny

phalanx is a Vulkan renderer that follows the Vulkan tutorial. It comes in two revisions:

- the earlier one in main.cpp, which draws a spinning triangle;
- the later one in renderer.h with window_handler.h and model.h, which draws a textured OBJ model and has keyboard and mouse input.

This project models the CPU-side decisions and bookkeeping beneath the API calls. It proves properties of that model. Every Vulkan, GLFW or tinyobj call is an oracle: its result is a parameter, the object it creates is a fresh `Handle`, and the call itself is an `Effect` appended to a trace, so that order can be stated. The model covers:

- **The frame scheduler** (`Frames`, `FrameRenderer.Renderer.Draw` / `DrawFrame`). It covers the slot fence wait and the acquire, the guard on the image's previous owner, the owner record in `imagesInFlight`, the fence reset, the submit and the present. A frame ends in one of three ways: a swap chain rebuild, an exception, or a step to the next of the two frame slots. `Frames.PlanFrame` states as a pure value what one `drawFrame` does, given the results of acquire, submit and present. The imperative `DrawFrame` is proved to realise that plan on the renderer's fields. The lemmas about the plan state the properties: how each frame ends, the call counts, and the call order.
- **The swap chain rebuild.** It covers `recreateSwapChain` and `cleanupSwapChain`. The minimized-window wait re-reads the framebuffer size that the window reports after each batch of events it handles. It also covers the `create*` routines, which size every per-image sequence to the swap chain's image count, and `createSyncObjects`.
- **The pure selection helpers** (`DeviceSelection`, `SwapChainChoice`, `ImageLayoutTransition`). These include:
  - memory type search on `bv32` masks;
  - queue families, extensions, validation layers and device suitability;
  - the first suitable device;
  - surface format, present mode, extent, image count and sharing mode;
  - the layout-transition table.
- **The window input state** (`WindowHandling`): the resize and rebuild flags, which are consumed once, the held movement keys, and the first-mouse-movement gate. Each callback is a function on an `InputState` value, and `WindowHandler` performs the same updates on its fields. Window events arrive as an oracle sequence of batches: each poll or wait takes one batch, and a wait with no batch left never returns.
- **The mesh flattening of `Model::load`** (`ModelLoading`): one vertex per index record, shape after shape, and an index buffer that counts up.
- **The FPS counter `logFPS`** (`FpsCounting`), with time as an integer count of clock ticks.

The class `FrameRenderer.Renderer` covers both revisions. Its constant `earlier` selects main.cpp's behaviour:

- draw polls events itself;
- the vertices are copied after the slot fence wait;
- there are no uniform buffers and no descriptor sets;
- the suitability check has no anisotropy test;
- the callbacks only set the two flags.

The earlier revision keeps its two flags on its own `Renderer`; the model keeps them on `WindowHandler` for both revisions.

`Outcome` has three values: `Returned`, `Threw(message)` with the exception text of the source, and `Blocked`. `Blocked` is used when a `waitEvents` inside the minimized-window wait never returns.

`imagesInFlight_` is sized only once, in `createSyncObjects` (renderer.h:1838, main.cpp:1520). `recreateSwapChain` never touches it, and the model follows the code on this point. A rebuild can therefore leave the swap chain with more images than `imagesInFlight_` has entries. So `DrawFrame` and `Draw` require the acquired index to fall inside `imagesInFlight`. The source has no such check; it would index out of bounds.

A failed present throws with the text "failed to acquire swap chain image" (renderer.h:291, main.cpp:399). That is the same text as a failed acquire, and the model keeps it.

## Model

| member | source | states |
|---|---|---|
| VkTypes.ToU32 | renderer.h:775 | `uint32_t` arithmetic: the result equals x modulo 2^32, and equals x when x is in range |
| DeviceSelection.FindMemoryTypeFrom | renderer.h:1347-1357 | the search from index i finds the first type at or after i that the filter bit and the property flags allow; it errors only when there is none |
| DeviceSelection.FindMemoryType | renderer.h:1342-1358 | the smallest index i of a memory type whose `typeFilter` bit i is set and whose flags contain `properties`; "failed to find suitable memory type" exactly when no index qualifies |
| DeviceSelection.ScanQueueFamilies | renderer.h:637-655 | the family scan from family i on keeps the scan invariant and ends in a result with the QueueFamiliesFound properties |
| DeviceSelection.FindQueueFamilies | renderer.h:620-658 | each reported family has its capability; a family is missing exactly when no family of that kind exists; once complete, the scan stopped at the first index by which both kinds were seen, and each reported family is the last of its kind up to there; complete exactly when graphics and present families both exist |
| DeviceSelection.EraseAvailable | renderer.h:675-679 | what is left after erasing the available names is exactly the required names that are not available |
| DeviceSelection.CheckDeviceExtensionSupport | renderer.h:660-684 | true exactly when every required device extension is among the available ones |
| DeviceSelection.LayerFound | renderer.h:400-432 | true exactly when the layer name is among the available layers |
| DeviceSelection.LayersFound | renderer.h:400-432 | true exactly when every required layer is available |
| DeviceSelection.CheckValidationLayerSupport | renderer.h:400-432 | true exactly when VK_LAYER_KHRONOS_validation is available |
| DeviceSelection.IsDeviceSuitable | renderer.h:591-618 | suitable exactly when both queue families exist, the swap chain extension is present, there are surface formats and present modes, and (renderer.h only) anisotropy is supported; suitability implies complete indices and a non-empty format list |
| DeviceSelection.FirstSuitable | renderer.h:572-578 | the first suitable device at or after i, or none when no later device is suitable |
| DeviceSelection.PickPhysicalDevice | renderer.h:548-589 | the index of the first suitable device; "failed to find GPUs with Vulkan support" for an empty list; "failed to find a suitable GPU" exactly when none is suitable |
| SwapChainChoice.FindPreferredFormat | renderer.h:873-880 | the search finds a format exactly when B8G8R8A8_SRGB / SRGB_NONLINEAR occurs from i on, and it is that format |
| SwapChainChoice.ChooseSwapSurfaceFormat | renderer.h:871-883 | the preferred format when offered, else `formats[0]`; always one of the offered formats |
| SwapChainChoice.FindMailbox | renderer.h:887-896 | true exactly when MAILBOX occurs from i on |
| SwapChainChoice.ChooseSwapPresentMode | renderer.h:885-899 | MAILBOX exactly when it is offered, otherwise FIFO |
| SwapChainChoice.ClampDimension | renderer.h:907-916 | the framebuffer size truncated to `uint32_t`, then clamped: inside [lo, hi] when lo <= hi, the size itself when it is in range, lo below the range, hi above it; lo whenever hi < lo (`std::max` applied last) |
| SwapChainChoice.ChooseSwapExtent | renderer.h:901-921 | `currentExtent` unless its width is UINT32_MAX; otherwise each dimension is the clamped framebuffer size, inside the surface's range |
| SwapChainChoice.ImageCount | renderer.h:774-783 | `minImageCount + 1`, lowered to `maxImageCount` only when that is non-zero and exceeded; within [min, max] for valid capabilities; exactly max when 0 < max <= min; wraps to 0 when min is UINT32_MAX |
| SwapChainChoice.ChooseSharingMode | renderer.h:795-810 | an error when either family is missing (`value()` throws); CONCURRENT with the graphics and present indices, in that order, exactly when they differ; otherwise EXCLUSIVE |
| SwapChainChoice.PlanSwapChain | renderer.h:759-810 | the create info: an offered format, MAILBOX exactly when offered (else FIFO), the image count, the extent and the sharing mode as above; an error exactly when the families are incomplete |
| ImageLayoutTransition.LayoutTransition | renderer.h:2066-2092 | only UNDEFINED to TRANSFER_DST and TRANSFER_DST to SHADER_READ_ONLY succeed, with the listed access masks and stages; every other pair is "unsupported layer transition" |
| ImageLayoutTransition.TransitionChain | renderer.h:1955-1971 | a successful chain has one barrier per target, ending at that target and starting where the previous one ended (the first at the start layout) |
| ImageLayoutTransition.TransitionChainSteps | renderer.h:2066-2092 | a chain succeeds exactly when each step, from the start and then from each previous target, is in the table; each barrier is then the table's barrier for its step, access masks and stages included; a failing chain fails with "unsupported layer transition" |
| ImageLayoutTransition.TextureUploadTransitionsSucceed | renderer.h:1955-1971 | the texture upload's two transitions succeed, and the second waits on the access and stage that the first makes transfers wait on |
| WindowHandling.KeyStatesAfter | window_handler.h:58-81 | for W/S/A/D/Q/E the matching field becomes (action != RELEASE) and the other five keep their values; any other key changes nothing |
| WindowHandling.InitialInput | window_handler.h:15-38 | both flags start false, no key is held, the mouse gate is open, and the last cursor position is the window centre (integer halves) |
| WindowHandling.CppDiv | window_handler.h:49-50 | C++ `int` division, truncating toward zero: a non-negative dividend gives a quotient whose multiple lies less than one divisor below it, a negative one a quotient whose multiple lies less than one divisor above it |
| WindowHandling.OnFramebufferResize | window_handler.h:42-51 | raises the resize flag whatever the size, re-centres the last cursor position at the integer halves, and changes nothing else |
| WindowHandling.OnKey | window_handler.h:53-87 | the rebuild flag is raised exactly for R with PRESS and never cleared; key states as KeyStatesAfter; R leaves the key states alone; nothing else changes |
| WindowHandling.OnCursorPos | window_handler.h:89-106 | the first movement records the position, leaves the offsets unchanged and closes the gate; later movements set the offsets to a tenth of the move; nothing else changes |
| WindowHandling.EarlierOnFramebufferResize | main.cpp:244-247 | the earlier callback raises the resize flag and changes nothing else |
| WindowHandling.EarlierOnKey | main.cpp:249-256 | the earlier callback raises the rebuild flag exactly for R with PRESS and changes nothing else |
| WindowHandling.Dispatch | window_handler.h:42-106 | one event: a resize sets the reported size to the event's, any other event keeps it; the resize flag is raised exactly when it was or the event is a resize; the rebuild flag exactly when it was or the event is R with PRESS; the earlier revision ignores cursor events |
| WindowHandling.ResizedFlagAfterEvents | window_handler.h:42-46 | after any batch of events the resize flag is raised exactly when it was raised before or a resize event arrived (no callback clears it) |
| WindowHandling.RecreateFlagAfterEvents | window_handler.h:83-86 | after any batch the rebuild flag is raised exactly when it was raised before or R was pressed (not repeated or released), in both revisions |
| WindowHandling.LastKeyAction | window_handler.h:58-81 | the action of the last event for a key, defined when and only when the batch has an event for that key |
| WindowHandling.KeyStatesAfterEvents | window_handler.h:58-81 | after a batch, each movement key is held exactly when its last event was not a RELEASE, and keeps its state when it had no event |
| WindowHandling.EarlierKeepsKeyStates | main.cpp:249-256 | the earlier revision never changes the key states |
| WindowHandling.FirstMovementGateAfterEvents | window_handler.h:91-96 | the gate is open after a batch exactly when it was open and no cursor event arrived: nothing reopens it |
| WindowHandling.FramebufferSizeAfterEvents | window_handler.h:174-181 | the reported size is unchanged without a resize event, and otherwise is that of the last resize event of the batch, wherever it comes |
| WindowHandling.AfterBatchesConcat | window_handler.h:183-190 | handling two runs of batches one after the other is handling their concatenation |
| WindowHandling.FlagsAfterBatches | window_handler.h:42-87 | over any number of batches the resize flag is raised exactly when it was or some batch had a resize event, and the rebuild flag exactly when it was or some batch pressed R |
| WindowHandling.ResizedFlagAfterPrefix | window_handler.h:42-46 | after the first n batches the resize flag is raised exactly when it was or one of those n batches had a resize event |
| WindowHandling.WindowHandler.constructor | window_handler.h:108-118 | the handler starts in InitialInput with the given batches pending |
| WindowHandling.WindowHandler.FramebufferResizeCallback | window_handler.h:42-51 | the fields change as OnFramebufferResize (EarlierOnFramebufferResize for main.cpp) says |
| WindowHandling.WindowHandler.KeyPressCallback | window_handler.h:53-87 | the fields change as OnKey (EarlierOnKey for main.cpp) says |
| WindowHandling.WindowHandler.MousePositionCallback | window_handler.h:89-106 | the fields change as OnCursorPos says |
| WindowHandling.WindowHandler.HandleEvent | window_handler.h:108-118 | the window system handling one event through the registered callbacks changes the fields as Dispatch says and leaves the pending batches alone |
| WindowHandling.WindowHandler.HandleEvents | window_handler.h:183-186 | handling a batch of events one by one gives the state that DispatchAll gives for the whole batch |
| WindowHandling.WindowHandler.FramebufferWasResized | window_handler.h:155-157 | the resize flag as the callbacks and resets left it |
| WindowHandling.WindowHandler.ResetFramebufferResized | window_handler.h:159-161 | clears the resize flag; it may modify nothing else |
| WindowHandling.WindowHandler.ShouldRecreateSwapchain | window_handler.h:163-165 | the rebuild flag as the callbacks and resets left it |
| WindowHandling.WindowHandler.ResetShouldRecreateSwapchain | window_handler.h:167-169 | clears the rebuild flag; it may modify nothing else |
| WindowHandling.WindowHandler.GetKeyStates | window_handler.h:197-199 | the key states of the input state |
| WindowHandling.WindowHandler.GetFramebufferWidthHeight | window_handler.h:174-181 | the framebuffer size of the input state, which only resize events change |
| WindowHandling.WindowHandler.PollEvents | window_handler.h:183-186 | resets the mouse offsets to zero (window_handler.h only), then handles the next batch, if any, without blocking |
| WindowHandling.WindowHandler.WaitEvents | window_handler.h:188-190 | handles the next batch; never returns when none is left |
| Frames.WaitLoopEffects | renderer.h:957-967 | the wait loop's calls: the first size query, then a query and a wait for each further size; nothing else |
| Frames.WaitLoopEffectsSnoc | renderer.h:962-963 | one more reported size adds its query and the wait after it to the wait loop's calls |
| Frames.RecreatesOnce | renderer.h:956-985 | frame calls, then one Recreate and rebuild calls only, count exactly one Recreate and no further submit or present |
| Frames.NextFrame | renderer.h:298 | `(currentFrame_ + 1) % MAX_FRAMES_IN_FLIGHT` stays below 2 and differs from the current slot |
| Frames.AcquireCalls | renderer.h:189-203 | the frame starts with the slot fence wait and ends this phase with the acquire on the slot's image-available semaphore; the earlier revision copies vertices between the two (main.cpp:295-312) |
| Frames.GuardCalls | renderer.h:223-234 | a wait on the image's previous owner first, if it has one; then the uniform update (renderer.h only) |
| Frames.SubmitCalls | renderer.h:223-265 | the guard, then the reset of the slot fence, then the submit that signals that fence and waits on the slot's semaphore |
| Frames.PresentFrame | renderer.h:278-292 | the present waits on the slot's render-finished semaphore; OUT_OF_DATE, SUBOPTIMAL or the resize flag clears the flag and asks for one rebuild with the source's reason; any other failure throws; the frame advances unless it threw |
| Frames.SubmitFrame | renderer.h:223-292 | the image is recorded as owned by the slot fence, and no other entry changes; a failed submit throws "failed to submit draw command buffer" without a rebuild or an advance |
| Frames.AfterAcquire | renderer.h:205-215 | an acquire that is neither SUCCESS nor SUBOPTIMAL makes no further call and leaves imagesInFlight alone |
| Frames.PlanFrame | renderer.h:184-299 | every frame starts with the slot fence wait and the acquire (the vertex copy between them in main.cpp); the rest is AfterAcquire |
| Frames.PlanFrameEnds | renderer.h:205-298 | rebuild exactly for acquire OUT_OF_DATE or an acquired, submitted frame whose present wants one; the reasons; an exception exactly for a failed acquire, submit or present, with the source's texts; the slot advances exactly when an acquired, submitted frame did not throw (also after a present-triggered rebuild); the owner record; a failed acquire makes only the acquire calls |
| Frames.FrameSubmitsOnce | renderer.h:205-278 | a frame resets a fence and submits exactly once when it acquired an image (SUBOPTIMAL included), never otherwise; it presents exactly once when the submit also succeeded |
| Frames.SubmitFrameOrder | renderer.h:223-292 | after the acquire come the guard (the previous owner's wait first), the slot fence reset, the submit, then the present and the flag clear when a rebuild is wanted |
| Frames.FrameOrder | renderer.h:189-292 | in a whole frame, the previous owner is waited on right after the acquire; the slot fence is reset immediately before the submit that signals it; nothing before the reset submits, resets or presents; the present follows the submit, waiting on the semaphore the submit signals |
| Frames.PlanFrameOnly | renderer.h:184-299 | none of a frame's own calls is a Recreate or a rebuild call |
| Frames.RealisedCounts | renderer.h:205-292 | a realised plan recreates exactly once when it asks for a rebuild and never otherwise, and submits and presents as often as its calls do |
| Frames.RealisedFrameCounts | renderer.h:184-299 | a whole drawFrame, with its rebuild: at most one recreateSwapChain, exactly when the plan asks for it; one submit when an image was acquired; one present when the submit also succeeded |
| Frames.RecreatedAfterCounts | renderer.h:956-985 | a recreateSwapChain, whether it returns or blocks, recreates once and neither submits nor presents |
| Frames.SetupCounts | renderer.h:174-179 | the start of draw recreates exactly once when a rebuild was requested and never otherwise; it neither submits nor presents |
| Frames.DrawCounts | renderer.h:174-299 | a whole draw: the recreates are the requested one, if any, plus the frame's own when it was drawn and asked for one; a drawn frame submits once when it acquired an image and presents once when the submit also succeeded; nothing is submitted or presented when the requested rebuild blocked |
| FrameRenderer.Resized | renderer.h:1838 | `std::vector::resize(n, value)`: length n, old entries kept, new ones `value` |
| FrameRenderer.CleanupEffects | renderer.h:923-954 | cleanupSwapChain makes destructions only (7 in main.cpp, 10 in renderer.h) |
| FrameRenderer.CreationEffects | renderer.h:975-984 | the creation sequence makes creations only (7 or 11) |
| FrameRenderer.CleanupReleasesCreated | renderer.h:923-954 | every destruction of cleanupSwapChain undoes a creation of the creation sequence, with the same handles |
| FrameRenderer.CreatedAreReleased | renderer.h:945-953 | every creation of the sequence is undone by cleanupSwapChain, except the descriptor sets, which go with their pool |
| FrameRenderer.MinimizedWaitWakes | renderer.h:957-967 | the wait returns exactly when the size read non-zero before the batches ran out (at once, or after a batch other than the last); it handles no batch exactly when the first size was non-zero, and otherwise one batch more than it takes to make the size non-zero (the wait follows the read that ends the loop) |
| FrameRenderer.Renderer.constructor | renderer.h:145-168 | initVulkan from device selection on: every per-image sequence has one entry per swap chain image, imagesInFlight has one null entry per image, both slot fences start signalled, currentFrame is 0, and the creations happen in order; the chain is planned: its create info is PlanSwapChain's for the next support answer (the one at selection once the answers run out) and the framebuffer size the window reports, it has the plan's image count plus the driver's extra images, the plan's format and the plan's extent; one support answer is consumed |
| FrameRenderer.Renderer.QuerySwapChainSupport | renderer.h:839-869 | the next oracle answer, or the device's answer at selection once the answers are used up |
| FrameRenderer.Renderer.AllocateHandles | renderer.h:991-998 | the per-object creation loops: `count` new, distinct, consecutive handles |
| FrameRenderer.Renderer.CreateSwapChain | renderer.h:759-837 | the create info is PlanSwapChain on the queried support and the reported framebuffer size; the image count is the requested count plus what the engine adds; format and extent are stored |
| FrameRenderer.Renderer.CreateSwapChainImageViews | renderer.h:991-998 | one view per swap chain image |
| FrameRenderer.Renderer.CreateRenderPass | renderer.h:1034-1088 | one new render pass handle and its creation in the trace; nothing else in the chain changes |
| FrameRenderer.Renderer.CreateGraphicsPipeline | renderer.h:1094-1270 | a new pipeline layout and then a new pipeline, created in that order; nothing else in the chain changes |
| FrameRenderer.Renderer.CreateFrameBuffers | renderer.h:1293-1317 | one framebuffer per image view |
| FrameRenderer.Renderer.CreateUniformBuffers | renderer.h:1525-1544 | one uniform buffer and one memory per image |
| FrameRenderer.Renderer.CreateDescriptorPool | renderer.h:1623-1643 | one new descriptor pool handle and its creation; nothing else in the chain changes |
| FrameRenderer.Renderer.CreateDescriptorSets | renderer.h:1645-1685 | one descriptor set per image |
| FrameRenderer.Renderer.CreateCommandBuffers | renderer.h:1691-1783 | one command buffer per framebuffer |
| FrameRenderer.Renderer.BuildSwapChain | renderer.h:975-984 | after the creation sequence every per-image sequence has one entry per image (none for uniform buffers and sets in main.cpp), and the calls are the creation sequence; the chain is planned: its create info is PlanSwapChain's for the next support answer (the one at selection once the answers run out) and the framebuffer size the window reports, it has the plan's image count plus the driver's extra images, the plan's format and the plan's extent; one support answer is consumed |
| FrameRenderer.Renderer.BuildChain | renderer.h:975-979 | the swap chain, its views, the render pass, the pipeline and the framebuffers: one view and one framebuffer per image, the uniform buffers and descriptor sets untouched, the calls in that order; the chain is planned: its create info is PlanSwapChain's for the next support answer (the one at selection once the answers run out) and the framebuffer size the window reports, it has the plan's image count plus the driver's extra images, the plan's format and the plan's extent; one support answer is consumed |
| FrameRenderer.Renderer.BuildImageResources | renderer.h:980-984 | uniform buffers, descriptor pool and sets (later revision only), then the command buffers: every per-image sequence sized to the images; the create info, images, format and extent of the chain are unchanged, so the plan BuildChain established still holds |
| FrameRenderer.Renderer.CreateSyncObjects | renderer.h:1830-1875 | two semaphores per slot and two distinct fences that start signalled; imagesInFlight resized to the image count with null entries |
| FrameRenderer.Renderer.CleanupSwapChain | renderer.h:923-954 | the calls are CleanupEffects |
| FrameRenderer.Renderer.WaitRound | renderer.h:962-963 | one round of the wait: a size read, which is the size after the batches handled so far, then a wait that handles the next batch, or never returns when none is left |
| FrameRenderer.Renderer.WaitWhileMinimized | renderer.h:957-967 | the first size read is the window's size on entry and read k+1 is its size after the first k batches (WaitOver); every read but the last is minimized; it returns once a read is non-zero, having handled one batch per read after the first, or blocks when the batches run out; the window is then the entry state after the handled batches, the rest still pending; the calls are WaitLoopEffects of the reads |
| FrameRenderer.Renderer.WaitDeviceIdle | renderer.h:969-970 | vkDeviceWaitIdle: the call is traced and both slot fences are signalled afterwards |
| FrameRenderer.Renderer.Rebuild | renderer.h:969-984 | the device wait, the cleanup of the old objects and the creation of new ones, in that order, keeping the renderer valid; the chain is planned: its create info is PlanSwapChain's for the next support answer (the one at selection once the answers run out) and the framebuffer size the window reports, it has the plan's image count plus the driver's extra images, the plan's format and the plan's extent; one support answer is consumed |
| FrameRenderer.Renderer.RecreateSwapChain | renderer.h:956-985 | the wait as WaitWhileMinimized states it, with the window's sizes after each handled batch and the window state after them; no cleanup or creation until the size reads non-zero, and none at all when the wait blocks; then the device wait, cleanup and creation; the frame slots, currentFrame and imagesInFlight are untouched; one Recreate followed only by rebuild calls; when the rebuild returns, the new chain is planned from the next support answer and the framebuffer size after the wait, one answer being consumed, and when it blocks the chain and the answers are untouched |
| FrameRenderer.Renderer.RecreateForFrame | renderer.h:208 | a recreate as drawFrame sees it: one Recreate followed by rebuild calls, returned or blocked, and the window after the batches it handled; the device wait of a returned rebuild leaves both slot fences signalled, otherwise the signalled fences are unchanged; a returned rebuild leaves the swap chain planned from the next support answer and the framebuffer size after its wait, and uses that answer up; otherwise the chain and the support answers are unchanged |
| FrameRenderer.Renderer.BeginFrame | renderer.h:189-203 | the slot fence wait (after which it is signalled), the earlier revision's vertex copy, then the acquire |
| FrameRenderer.Renderer.GuardImage | renderer.h:223-234 | waits on the image's previous owner if any, then records the slot fence as its owner; no other entry changes |
| FrameRenderer.Renderer.SubmitImage | renderer.h:223-265 | the guard, the reset of the slot fence (now unsignalled) and the submit, as SubmitCalls says |
| FrameRenderer.Renderer.WaitOnFence | renderer.h:189-194 | vkWaitForFences on one fence: traced, and the fence is signalled afterwards |
| FrameRenderer.Renderer.ResetOneFence | renderer.h:255 | vkResetFences on one fence: traced, and the fence is unsignalled afterwards |
| FrameRenderer.SignalledAfterRebuildFences | renderer.h:969 | the device wait of a rebuild that returned leaves both slot fences signalled, a blocked one changes nothing, and neither unsignals a fence |
| FrameRenderer.SignalledAfterAcquireFences | renderer.h:189-255 | after an acquired image and no rebuild the slot fence is unsignalled until the GPU finishes the submit; the previous owner is signalled after the guard; a failed acquire changes nothing bar a rebuild; a returned rebuild signals both slot fences; no fence but the slot fence is unsignalled |
| FrameRenderer.Renderer.RecreateAfterPresent | renderer.h:283-289 | clears the resize flag, then recreates for the given reason: the trace is the flag clear then one Recreate and rebuild calls; the window is the cleared state after the batches the recreate handled; the device wait of a returned rebuild leaves both slot fences signalled, otherwise the signalled fences are unchanged; a returned rebuild leaves the swap chain planned from the next support answer and the framebuffer size after its wait, and uses that answer up; otherwise the chain and the support answers are unchanged |
| FrameRenderer.Renderer.PresentImage | renderer.h:278-298 | present, then the flag clear and recreate, the throw, or the plain end, as PresentFrame says; the slot advances when the call returns; the window is unchanged without a rebuild, and otherwise is the state with the resize flag cleared after the batches the recreate handled; the device wait of a returned rebuild leaves both slot fences signalled, otherwise the signalled fences are unchanged; the swap chain and the support answers change only through a rebuild that returned: it leaves the chain planned from the next support answer and the framebuffer size after its wait, and uses that answer up |
| FrameRenderer.Renderer.AdvanceFrame | renderer.h:298 | currentFrame becomes NextFrame of itself, keeping the renderer valid |
| FrameRenderer.Renderer.RenderImage | renderer.h:223-298 | the rest of drawFrame after an acquired image realises SubmitFrame: trace, outcome, imagesInFlight and currentFrame; the window is unchanged unless the present asked for a rebuild, and then has the resize flag cleared and the recreate's batches handled; the signalled fences are as FencesAfterSubmit and then SignalledAfterRebuild say: the previous owner's fence is signalled after the guard waited on it, the slot fence is reset for the submit, and a returned rebuild leaves both slot fences signalled; the swap chain and the support answers change only through a rebuild that returned: it leaves the chain planned from the next support answer and the framebuffer size after its wait, and uses that answer up |
| FrameRenderer.Renderer.DrawFrame | renderer.h:184-299 | drawFrame realises PlanFrame for the current slot and the resize flag on entry: the trace, the outcome, the new imagesInFlight and the new currentFrame; the window changes only through a rebuild: the resize flag is cleared when the present asked for it (not the acquire), then the recreate's batches are handled; the slot fence wait leaves the slot fence signalled, and then the fences are as FencesAfterSubmit and then SignalledAfterRebuild say: the previous owner's fence is signalled after the guard, the slot fence is reset for the submit when an image was acquired, and a returned rebuild leaves both slot fences signalled; the swap chain and the support answers change only through a rebuild that returned: it leaves the chain planned from the next support answer and the framebuffer size after its wait, and uses that answer up |
| FrameRenderer.Renderer.FinishFrame | renderer.h:205-298 | drawFrame after the acquire realises AfterAcquire, with the same window state, signalled fences, swap chain and support answers as DrawFrame, after the slot fence wait |
| FrameRenderer.Renderer.PollBeforeFrame | main.cpp:279-280 | the earlier revision polls and handles the next batch, if any, the later one handles none; the window is the entry state after the handled batch; the rebuild request is then raised exactly when it was or that batch pressed R |
| FrameRenderer.Renderer.ServeRecreateRequest | renderer.h:175-179 | with the request flag raised: one recreate, then the flag is cleared unless the recreate blocked; without it: nothing; the window is the entry state after the batches the recreate handled, with the request flag cleared when it returned; the device wait of a returned rebuild leaves both slot fences signalled, otherwise the signalled fences are unchanged; a returned rebuild leaves the swap chain planned from the next support answer and the framebuffer size after its wait, and uses that answer up; otherwise the chain and the support answers are unchanged |
| FrameRenderer.Renderer.ClearRecreateRequest | renderer.h:178 | clears the rebuild flag and changes nothing else in the window |
| FrameRenderer.Renderer.BeforeFrame | main.cpp:279-286 | the poll (main.cpp), then the requested rebuild with the revision's reason and the flag clear; the window is the entry state after the poll's and the rebuild's batches, with the request flag cleared unless the rebuild blocked; the device wait of a returned rebuild leaves both slot fences signalled, otherwise the signalled fences are unchanged; the resize flag is raised exactly when it was on entry or a handled batch had a resize event; a returned rebuild leaves the swap chain planned from the next support answer and the framebuffer size after its wait, and uses that answer up; otherwise the chain and the support answers are unchanged |
| FrameRenderer.Renderer.Draw | renderer.h:174-182 | draw: the setup above, then drawFrame realising PlanFrame unless the requested rebuild blocked; the frame sees the resize flag raised exactly when it was on entry or a setup batch had a resize event; the window and the signalled fences after the frame are as DrawFrame says, starting from the state the setup left; the setup's fences are those of a returned or blocked rebuild; the setup's swap chain and support answers are those of a returned or blocked rebuild (planned from the next answer and the size after the wait, or unchanged), and after the frame they change only as DrawFrame says |
| FrameRenderer.InitRenderer | renderer.h:351-353 | fails with "couldn't find requested validation layers" when the layer is missing, else with pickPhysicalDevice's error; otherwise a valid renderer on the first suitable device with null image owners, whose chain is planned from the first support answer and the window's framebuffer size |
| ModelLoading.VertexFor | model.h:34-47 | the position triple at `3 * vertex_index`, the texture coordinate at `2 * texcoord_index` with its second component flipped (`1 - v`), and white colour |
| ModelLoading.AllIndicesConcat | model.h:32-33 | flattening concatenated shape lists concatenates their flattenings |
| ModelLoading.AllIndicesCount | model.h:32-33 | the flattening holds as many records as all shapes together |
| ModelLoading.AllIndicesPosition | model.h:32-33 | record i of shape s sits right after the records of the shapes before s: shape after shape, each in index order |
| ModelLoading.Load | model.h:17-57 | a failed parse throws `warn + error` and produces no model; otherwise as many vertices as indices as index records, `indices[k] == k` (as `uint32_t`), and vertex k built from record k of the flattening |
| FpsCounting.LogStep | main.cpp:1607-1617 | the count goes up by one; exactly when a second has passed since the last print, that count is printed, the counter restarts at 0 and the print time becomes now; otherwise both globals keep their values apart from the count |
| FpsCounting.CallsAccounted | main.cpp:1607-1617 | over any run of calls without wrap-around, the printed counts plus the final count add up to the calls made |
| FpsCounting.PrintTimeTracked | main.cpp:1612-1615 | the first print is at least a second after the start; the print time afterwards is that of the last print |
| FpsCounting.PrintsSpaced | main.cpp:1612-1615 | any two consecutive prints are at least a second apart |
| FpsCounting.FpsCounter.constructor | main.cpp:1625 | main starts the counter at 0 with the print time taken before `renderer.init()` (main.cpp:1634), so the first interval includes the Vulkan set-up |
| FpsCounting.FpsCounter.LogFps | main.cpp:1607-1617 | one logFPS call updates the two globals as LogStep says and prints what it says |

## Left out

- Every Vulkan, GLFW and tinyobj call is an oracle: its result is a parameter, or a fresh handle counter stands in for the object it creates. Object creation is assumed to succeed. The "failed to create ..." exceptions of the `create*` routines are not modelled.
- initVulkan also creates the instance, the surface and the debug messenger (renderer.h:146-148), the logical device (renderer.h:150) and the descriptor set layout (renderer.h:154). These are created once, outside the swap chain rebuild, and are not part of the constructor's trace: its trace starts at the swap chain.
- CreateUniformBuffers and CleanupEffects record one trace entry per kind of object for a loop that creates or destroys several objects per swap chain image. The per-image interleaving of the source's loops (renderer.h:1536-1543 and renderer.h:945-948) is not modelled.
- The GPU side of fences and semaphores is not modelled. A fence wait or `vkDeviceWaitIdle` marks the fence signalled; `vkResetFences` marks it unsignalled. Semaphores are handles only.
- Pipeline, render pass, descriptor pool, uniform update and command recording contents are not modelled: they appear as trace entries only. The command pool, vertex/index buffers, texture image, view and sampler are outside the rebuild and not modelled.
- `updateUniformBuffer`, camera.h, main.cpp's vertex-spinning loop and `findMemoryType`'s callers are not modelled. They are floating-point or foreign work.
- Floating point is not modelled: doubles and floats are `real`, without rounding. This covers the mouse offsets and `1 - v` in VertexFor.
- Console output of every kind is not modelled (the FPS print is the count LogStep returns).
- I/O and libraries are not modelled: shader_loader.h, shader_compiler.cpp, texture.h, vertex.h and input.h.
- The Apple portability extension branches are not modelled.
- The later revision's main loop, which calls `pollEvents` and `draw`, is not part of this model. `PollBeforeFrame` polls only in the earlier revision.
- ModelLoading.Load: requires every index record to fall inside the attribute arrays. The source indexes them unchecked, which is undefined behaviour outside that range. tinyobj's `-1` for a missing texture coordinate is such a case.
- ModelLoading.Load: the model's `uint16_t` index alternative is commented out in model.h and not modelled.
- FrameRenderer.Renderer.DrawFrame: requires the acquired index to fall inside `imagesInFlight`. The source indexes it unchecked, and a rebuild that yields more images than before breaks that (see above).
- FrameRenderer.Renderer.Draw: requires the same of the acquired index, for the same reason.
- FrameRenderer.Renderer.constructor: requires every later swap chain support answer to offer at least one surface format. This is an assumption about the window system. Suitability checks only the answer at device selection, and createSwapChain queries again (renderer.h:760-761). chooseSwapSurfaceFormat reads `availableFormats[0]` unchecked (renderer.h:882), so an empty list would be undefined behaviour.
- FrameRenderer.InitRenderer: requires the same of the support answers, for the same reason.
- The framebuffer size the window reports changes only through the resize events in the batches. `glfwGetFramebufferSize` asks the window system directly, so a size change that no callback reports is not modelled.
- FpsCounting.CallsAccounted: stated only for runs where the `uint32_t` counter does not wrap; LogStep itself models the wrap.
- Time is an integer count of steady-clock nanoseconds passed in by the caller; the clock itself is not modelled.
- Concurrency is not modelled; the CPU side of the source is sequential.
