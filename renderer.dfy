/** The renderer's CPU-side bookkeeping: the per-image objects of the swap
    chain and their rebuild, the frame slots with their fences, and the
    frame loop that waits, acquires, submits and presents.

    Every API call is represented by an `Effect` appended to `trace`, and
    every object the API creates by a fresh `Handle` drawn from
    `nextHandle`. The results of acquire, submit and present are parameters
    of `DrawFrame`. `earlier` selects the earlier revision (main.cpp), which
    copies vertex data each frame and has no uniform buffers or descriptor
    sets; otherwise the model follows renderer.h. */
module FrameRenderer {
  import opened VkTypes
  import opened DeviceSelection
  import opened SwapChainChoice
  import opened WindowHandling
  import opened Frames

  /** Always true in both revisions. */
  const EnableValidationLayers: bool := true

  /** `std::vector::resize(n, value)`: truncates, or pads with `value`. */
  function Resized<T>(s: seq<T>, n: nat, value: T): (r: seq<T>)
    ensures |r| == n
    ensures forall k :: 0 <= k < n ==> r[k] == if k < |s| then s[k] else value
    decreases n
  {
    if n <= |s| then s[..n]
    else Resized(s, n - 1, value) + [value]
  }

  /** The answer the next querySwapChainSupport gets: the next oracle
      answer, or the device's answer at selection once they are used up. */
  function NextSupport(answers: seq<SwapChainSupport>, atSelection: SwapChainSupport): SwapChainSupport {
    if answers == [] then atSelection else answers[0]
  }

  /** The oracle answers left after one querySwapChainSupport. */
  function LaterAnswers(answers: seq<SwapChainSupport>): seq<SwapChainSupport> {
    if answers == [] then [] else answers[1..]
  }

  /** The swap chain of `c` was made by createSwapChain from `support` for
      a framebuffer of `size`: its create info is what PlanSwapChain
      chooses, the engine made the requested count plus its extra images,
      and the format and extent are the chosen ones. */
  predicate ChainPlanned(c: SwapChainObjects, support: SwapChainSupport, size: (int, int), indices: QueueFamilyIndices) {
    && |support.formats| > 0
    && PlanSwapChain(support, size.0, size.1, indices) == Ok(c.createInfo)
    && |c.images| == c.createInfo.minImageCount + support.extraImages
    && c.imageFormat == c.createInfo.surfaceFormat.format
    && c.extent == c.createInfo.extent
  }

  /** The swap chain and support answers after a step that rebuilt the
      swap chain exactly when `rebuilt`: a rebuild plans the new chain
      from the next support answer and the framebuffer size `size` after
      it, and uses that answer up; otherwise both are as they were. */
  predicate ChainAfter(chain0: SwapChainObjects, answers0: seq<SwapChainSupport>, chain: SwapChainObjects,
                       answers: seq<SwapChainSupport>, atSelection: SwapChainSupport, size: (int, int),
                       indices: QueueFamilyIndices, rebuilt: bool)
  {
    if rebuilt then ChainPlanned(chain, NextSupport(answers0, atSelection), size, indices) && answers == LaterAnswers(answers0)
    else chain == chain0 && answers == answers0
  }

  /** Every handle of `hs` was drawn from [lo, hi). */
  ghost predicate HandlesIn(hs: seq<Handle>, lo: nat, hi: nat) {
    forall k :: 0 <= k < |hs| ==> lo <= hs[k] < hi
  }

  /** The renderer members that cleanupSwapChain destroys and
      recreateSwapChain creates again, with the swap chain's create info,
      format and extent. */
  datatype SwapChainObjects = SwapChainObjects(
    swapChain: Handle,
    createInfo: SwapChainCreateInfo,
    images: seq<Handle>,
    imageFormat: Format,
    extent: Extent2D,
    views: seq<Handle>,
    renderPass: Handle,
    pipelineLayout: Handle,
    pipeline: Handle,
    framebuffers: seq<Handle>,
    uniformBuffers: seq<Handle>,
    uniformBuffersMemory: seq<Handle>,
    descriptorPool: Handle,
    descriptorSets: seq<Handle>,
    commandBuffers: seq<Handle>)

  /** The members before initVulkan has created anything. */
  const NoSwapChainObjects: SwapChainObjects :=
    SwapChainObjects(0, SwapChainCreateInfo(0, PreferredFormat, Extent2D(0, 0), Exclusive, Fifo), [],
                     B8G8R8A8Srgb, Extent2D(0, 0), [], 0, 0, 0, [], [], [], 0, [], [])

  /** Every recorded image owner is one of the two slot fences. */
  predicate OwnedBySlots(owners: seq<Option<Handle>>, fences: seq<Handle>)
    requires |fences| == MAX_FRAMES_IN_FLIGHT
  {
    forall k :: 0 <= k < |owners| && owners[k].Some? ==> owners[k].value == fences[0] || owners[k].value == fences[1]
  }

  /** Recording a slot fence as an image's owner keeps every owner a slot
      fence. */
  lemma OwnedBySlotsRecord(owners: seq<Option<Handle>>, fences: seq<Handle>, i: nat, slot: nat)
    requires |fences| == MAX_FRAMES_IN_FLIGHT && OwnedBySlots(owners, fences)
    requires i < |owners| && slot < MAX_FRAMES_IN_FLIGHT
    ensures OwnedBySlots(owners[i := Some(fences[slot])], fences)
  {
  }

  /** Every per-image sequence has one entry per swap chain image; the
      earlier revision has no uniform buffers or descriptor sets. */
  predicate PerImageSized(earlier: bool, c: SwapChainObjects) {
    && |c.views| == |c.images|
    && |c.framebuffers| == |c.images|
    && |c.commandBuffers| == |c.images|
    && (if earlier then c.uniformBuffers == [] && c.uniformBuffersMemory == [] && c.descriptorSets == []
        else |c.uniformBuffers| == |c.images| && |c.uniformBuffersMemory| == |c.images| && |c.descriptorSets| == |c.images|)
  }

  /** The calls of cleanupSwapChain, in order: destructions only. */
  function CleanupEffects(earlier: bool, c: SwapChainObjects): (r: seq<Effect>)
    ensures |r| == if earlier then 7 else 10
    ensures forall k :: 0 <= k < |r| ==> r[k].Destroy?
  {
    [Destroy(Framebuffers, c.framebuffers), Destroy(CommandBuffers, c.commandBuffers),
     Destroy(GraphicsPipeline, [c.pipeline]), Destroy(PipelineLayout, [c.pipelineLayout]),
     Destroy(RenderPass, [c.renderPass]), Destroy(ImageViews, c.views), Destroy(SwapChainObject, [c.swapChain])]
    + (if earlier then []
       else [Destroy(UniformBuffers, c.uniformBuffers), Destroy(UniformBuffersMemory, c.uniformBuffersMemory),
             Destroy(DescriptorPool, [c.descriptorPool])])
  }

  /** The first creations: the swap chain, its views, the render pass, the
      pipeline and the framebuffers. */
  function ChainCreationEffects(c: SwapChainObjects): seq<Effect> {
    [Create(SwapChainObject, [c.swapChain]), Create(ImageViews, c.views), Create(RenderPass, [c.renderPass]),
     Create(PipelineLayout, [c.pipelineLayout]), Create(GraphicsPipeline, [c.pipeline]),
     Create(Framebuffers, c.framebuffers)]
  }

  /** The remaining creations: the uniform buffers, descriptor pool and sets
      (renderer.h), and the command buffers. */
  function ImageResourceCreationEffects(earlier: bool, c: SwapChainObjects): seq<Effect> {
    (if earlier then []
     else [Create(UniformBuffers, c.uniformBuffers), Create(UniformBuffersMemory, c.uniformBuffersMemory),
           Create(DescriptorPool, [c.descriptorPool]), Create(DescriptorSets, c.descriptorSets)])
    + [Create(CommandBuffers, c.commandBuffers)]
  }

  /** The creations of the swap chain objects, in the order of
      recreateSwapChain (and of initVulkan): creations only. */
  function CreationEffects(earlier: bool, c: SwapChainObjects): (r: seq<Effect>)
    ensures |r| == if earlier then 7 else 11
    ensures forall k :: 0 <= k < |r| ==> r[k].Create?
  {
    ChainCreationEffects(c) + ImageResourceCreationEffects(earlier, c)
  }

  /** cleanupSwapChain releases only what the creation sequence made: every
      destruction undoes one creation. */
  lemma CleanupReleasesCreated(earlier: bool, c: SwapChainObjects)
    ensures forall e :: e in CleanupEffects(earlier, c) ==> Create(e.resource, e.handles) in CreationEffects(earlier, c)
  {
  }

  /** cleanupSwapChain releases everything the creation sequence made,
      except the descriptor sets, which go with their pool. */
  lemma CreatedAreReleased(earlier: bool, c: SwapChainObjects)
    ensures forall e :: e in CreationEffects(earlier, c) && e.resource != DescriptorSets ==>
      Destroy(e.resource, e.handles) in CleanupEffects(earlier, c)
  {
    var creation := CreationEffects(earlier, c);
    var cleanup := CleanupEffects(earlier, c);
    forall k | 0 <= k < |creation| && creation[k].resource != DescriptorSets
      ensures Destroy(creation[k].resource, creation[k].handles) in cleanup
    {
      var undo := Destroy(creation[k].resource, creation[k].handles);
      var at := if earlier then [6, 5, 4, 3, 2, 0, 1][k] else [6, 5, 4, 3, 2, 0, 7, 8, 9, 0, 1][k];
      assert cleanup[at] == undo;
    }
  }

  /** The sizes the minimized-window wait of recreateSwapChain reads, from
      window state `s` with `batches` still to come: the first two reads
      come before any wait, read k (k >= 1) after k - 1 waits, and every
      read but the last shows a zero dimension. */
  predicate SizesRead(earlier: bool, s: InputState, batches: seq<seq<WindowEvent>>, sizes: seq<(int, int)>) {
    && |sizes| >= 1 && sizes[0] == FramebufferSize(s)
    && (forall k :: 0 <= k < |sizes| - 1 ==> Minimized(sizes[k]))
    && (forall j :: 0 <= j < |sizes| - 1 && j <= |batches| ==> sizes[j + 1] == SizeAfter(earlier, s, batches, j))
  }

  /** The framebuffer size the window reports after the first `j` batches. */
  function SizeAfter(earlier: bool, s: InputState, batches: seq<seq<WindowEvent>>, j: nat): (int, int)
    requires j <= |batches|
  {
    FramebufferSize(AfterBatches(earlier, s, batches[..j]))
  }

  /** The whole minimized-window wait as the window sees it: `sizes` as
      SizesRead says, `woke` whether the wait returned, and `consumed` how
      many batches of events it handled. When the wait returns, the last
      read shows a non-zero size and one batch was handled per read after
      the first; otherwise every batch was handled and one more wait never
      returns. */
  predicate MinimizedWait(earlier: bool, s: InputState, batches: seq<seq<WindowEvent>>,
                          sizes: seq<(int, int)>, woke: bool, consumed: nat)
  {
    && SizesRead(earlier, s, batches, sizes)
    && consumed <= |batches|
    && if woke then !Minimized(sizes[|sizes| - 1]) && consumed == |sizes| - 1
       else |sizes| == |batches| + 2 && consumed == |batches|
  }

  /** Part way through the minimized-window wait: `sizes` read after
      `consumed` batches of events, one fewer than the reads, and the window
      in state `now` with `pending` batches still to come. */
  predicate WaitProgress(earlier: bool, s: InputState, batches: seq<seq<WindowEvent>>, sizes: seq<(int, int)>,
                         consumed: nat, now: InputState, pending: seq<seq<WindowEvent>>)
  {
    && SizesRead(earlier, s, batches, sizes)
    && consumed == |sizes| - 1 <= |batches|
    && now == AfterBatches(earlier, s, batches[..consumed])
    && pending == batches[consumed..]
  }

  /** The minimized-window wait is over: MinimizedWait holds, and the
      window is in state `now` after the `consumed` batches it handled, with
      `pending` the batches it did not reach. */
  predicate WaitOver(earlier: bool, s: InputState, batches: seq<seq<WindowEvent>>, sizes: seq<(int, int)>,
                     woke: bool, consumed: nat, now: InputState, pending: seq<seq<WindowEvent>>)
  {
    && MinimizedWait(earlier, s, batches, sizes, woke, consumed)
    && now == AfterBatches(earlier, s, batches[..consumed])
    && pending == batches[consumed..]
  }

  /** The wait starts with one read and no batch handled. */
  lemma WaitStarts(earlier: bool, s: InputState, batches: seq<seq<WindowEvent>>)
    ensures WaitProgress(earlier, s, batches, [FramebufferSize(s)], 0, s, batches)
  {
    assert batches[..0] == [] && batches[0..] == batches;
  }

  /** The wait ends once the last read shows a non-zero size. */
  lemma WaitEnds(earlier: bool, s: InputState, batches: seq<seq<WindowEvent>>, sizes: seq<(int, int)>,
                 consumed: nat, now: InputState, pending: seq<seq<WindowEvent>>)
    requires WaitProgress(earlier, s, batches, sizes, consumed, now, pending)
    requires !Minimized(sizes[|sizes| - 1])
    ensures WaitOver(earlier, s, batches, sizes, true, consumed, now, pending)
  {
  }

  /** Reading one more size, after as many waits as sizes were read before. */
  lemma SizesReadSnoc(earlier: bool, s: InputState, batches: seq<seq<WindowEvent>>, sizes: seq<(int, int)>,
                      size: (int, int))
    requires SizesRead(earlier, s, batches, sizes) && |sizes| - 1 <= |batches|
    requires Minimized(sizes[|sizes| - 1])
    requires size == SizeAfter(earlier, s, batches, |sizes| - 1)
    ensures SizesRead(earlier, s, batches, sizes + [size])
  {
    var next := sizes + [size];
    forall k | 0 <= k < |next| - 1
      ensures Minimized(next[k])
    {
      assert next[k] == sizes[k];
    }
    forall j | 0 <= j < |next| - 1 && j <= |batches|
      ensures next[j + 1] == SizeAfter(earlier, s, batches, j)
    {
      if j + 1 < |sizes| {
        assert next[j + 1] == sizes[j + 1];
      }
    }
  }

  /** The wait returns exactly when the window reports a non-zero size
      before it runs out of event batches: at once, or after some batch
      that is not the last. When the first size is non-zero it handles no
      batch; otherwise it handles one batch more than it takes to make the
      size non-zero, because the wait for events follows the read that ends
      the loop. That last batch may minimize the window again: the rebuild
      runs all the same. */
  lemma {:induction false} MinimizedWaitWakes(earlier: bool, s: InputState, batches: seq<seq<WindowEvent>>,
                                              sizes: seq<(int, int)>, woke: bool, consumed: nat)
    requires MinimizedWait(earlier, s, batches, sizes, woke, consumed)
    ensures woke <==>
      !Minimized(FramebufferSize(s)) ||
      exists j :: 0 <= j < |batches| && !Minimized(FramebufferSize(AfterBatches(earlier, s, batches[..j])))
    ensures woke ==> (consumed == 0 <==> !Minimized(FramebufferSize(s)))
    ensures woke && consumed > 0 ==>
      && !Minimized(FramebufferSize(AfterBatches(earlier, s, batches[..consumed - 1])))
      && forall j :: 0 <= j < consumed - 1 ==> Minimized(FramebufferSize(AfterBatches(earlier, s, batches[..j])))
  {
    if woke {
      if |sizes| > 1 {
        var j := |sizes| - 2;
        assert sizes[j + 1] == SizeAfter(earlier, s, batches, j);
        forall j' | 0 <= j' < consumed - 1
          ensures Minimized(FramebufferSize(AfterBatches(earlier, s, batches[..j'])))
        {
          assert sizes[j' + 1] == SizeAfter(earlier, s, batches, j');
        }
      }
    } else {
      assert Minimized(sizes[0]);
      forall j | 0 <= j < |batches|
        ensures Minimized(FramebufferSize(AfterBatches(earlier, s, batches[..j])))
      {
        assert sizes[j + 1] == SizeAfter(earlier, s, batches, j);
      }
    }
  }

  /** Cleanup and creation consist of rebuild calls only. */
  lemma RebuildCallsOnly(earlier: bool, c: SwapChainObjects, c': SwapChainObjects)
    ensures RebuildOnly([Effect.DeviceWaitIdle] + CleanupEffects(earlier, c) + CreationEffects(earlier, c'))
  {
    var t := [Effect.DeviceWaitIdle] + CleanupEffects(earlier, c) + CreationEffects(earlier, c');
    assert forall k :: 0 <= k < |t| ==> t[k].DeviceWaitIdle? || t[k].Destroy? || t[k].Create? by {
      forall k | 0 <= k < |t|
        ensures t[k].DeviceWaitIdle? || t[k].Destroy? || t[k].Create?
      {
        if k == 0 {
        } else if k < 1 + |CleanupEffects(earlier, c)| {
          assert t[k] == CleanupEffects(earlier, c)[k - 1];
        } else {
          assert t[k] == CreationEffects(earlier, c')[k - 1 - |CleanupEffects(earlier, c)|];
        }
      }
    }
  }

  /** The fence of an image's previous owner, signalled once the guard has
      waited on it. */
  function OwnerFences(owner: Option<Handle>): set<Handle> {
    if owner.Some? then {owner.value} else {}
  }

  /** The signalled fences after a recreateSwapChain that `returned`: its
      vkDeviceWaitIdle signals both slot fences; one that blocked in its
      wait signals nothing. */
  function SignalledAfterRebuild(before: set<Handle>, fences: seq<Handle>, returned: bool): set<Handle>
    requires |fences| == MAX_FRAMES_IN_FLIGHT
  {
    if returned then before + {fences[0], fences[1]} else before
  }

  /** The signalled fences once drawFrame's own calls after the acquire
      are done, before any rebuild: for an acquired image, the previous
      owner was waited on and the slot fence was reset for the submit. */
  function FencesAfterSubmit(before: set<Handle>, fences: seq<Handle>, slot: nat, acquired: bool,
                             owner: Option<Handle>): set<Handle>
    requires |fences| == MAX_FRAMES_IN_FLIGHT && slot < MAX_FRAMES_IN_FLIGHT
  {
    if acquired then (before + OwnerFences(owner)) - {fences[slot]} else before
  }

  /** What drawFrame, or a part of it, leaves when it started from trace
      `prefix`, frame slot `frame0`, window state `input0` with `pending0`
      batches to come, swap chain `chain0` and support answers `answers0`,
      and did what plan `p` says. `settled` is the set of fences signalled
      once the frame's own calls are done, and `cleared` whether a rebuild
      clears the resize flag first (after the present, not after the
      acquire). The trace and outcome realise the plan, imagesInFlight_ is
      the plan's, the slot advances as the plan says, a returned rebuild
      signals both slot fences, and the window changes only through a
      rebuild, which handles the first `consumed` batches; the chain and
      answers change only through a rebuild that returned. */
  ghost predicate FrameDrawn(p: FramePlan, earlier: bool, fences: seq<Handle>, frame0: nat, cleared: bool,
                             settled: set<Handle>, input0: InputState,
                             pending0: seq<seq<WindowEvent>>, prefix: seq<Effect>,
                             t: seq<Effect>, outcome: Outcome, owners: seq<Option<Handle>>, frame: nat,
                             signalled: set<Handle>, input: InputState, pending: seq<seq<WindowEvent>>, consumed: nat,
                             chain0: SwapChainObjects, answers0: seq<SwapChainSupport>, chain: SwapChainObjects,
                             answers: seq<SwapChainSupport>, atSelection: SwapChainSupport, indices: QueueFamilyIndices)
    requires |fences| == MAX_FRAMES_IN_FLIGHT && frame0 < MAX_FRAMES_IN_FLIGHT
  {
    && Realises(prefix, p, t, outcome)
    && owners == p.imagesInFlight
    && frame == SlotAfter(p, outcome, frame0)
    && signalled == SignalledAfterRebuild(settled, fences, p.rebuild.Some? && outcome == Returned)
    && (p.rebuild.None? ==> consumed == 0)
    && consumed <= |pending0|
    && pending == pending0[consumed..]
    && input == AfterBatches(earlier, if cleared && p.rebuild.Some? then input0.(framebufferResized := false) else input0,
                             pending0[..consumed])
    && ChainAfter(chain0, answers0, chain, answers, atSelection, FramebufferSize(input), indices,
                  p.rebuild.Some? && outcome == Returned)
  }

  /** FrameDrawn for a plan carries over to the plan with `calls` made
      first, from the trace before them. */
  lemma FrameDrawnPrepend(calls: seq<Effect>, p: FramePlan, earlier: bool, fences: seq<Handle>, frame0: nat,
                          cleared: bool, settled: set<Handle>, input0: InputState,
                          pending0: seq<seq<WindowEvent>>, prefix: seq<Effect>,
                          t: seq<Effect>, outcome: Outcome, owners: seq<Option<Handle>>, frame: nat,
                          signalled: set<Handle>, input: InputState, pending: seq<seq<WindowEvent>>, consumed: nat,
                          chain0: SwapChainObjects, answers0: seq<SwapChainSupport>, chain: SwapChainObjects,
                          answers: seq<SwapChainSupport>, atSelection: SwapChainSupport, indices: QueueFamilyIndices)
    requires |fences| == MAX_FRAMES_IN_FLIGHT && frame0 < MAX_FRAMES_IN_FLIGHT
    requires FrameDrawn(p, earlier, fences, frame0, cleared, settled, input0, pending0, prefix + calls,
                        t, outcome, owners, frame, signalled, input, pending, consumed,
                        chain0, answers0, chain, answers, atSelection, indices)
    ensures FrameDrawn(Prepend(calls, p), earlier, fences, frame0, cleared, settled, input0, pending0, prefix,
                       t, outcome, owners, frame, signalled, input, pending, consumed,
                       chain0, answers0, chain, answers, atSelection, indices)
  {
    RealisesPrepend(prefix, calls, p, t, outcome);
  }

  /** A rebuild that returned leaves both slot fences signalled, one that
      blocked changes nothing, and none unsignals a fence. */
  lemma SignalledAfterRebuildFences(before: set<Handle>, fences: seq<Handle>, returned: bool)
    requires |fences| == MAX_FRAMES_IN_FLIGHT
    ensures before <= SignalledAfterRebuild(before, fences, returned)
    ensures returned ==> fences[0] in SignalledAfterRebuild(before, fences, returned)
                         && fences[1] in SignalledAfterRebuild(before, fences, returned)
    ensures !returned ==> SignalledAfterRebuild(before, fences, returned) == before
  {
  }

  /** What a frame leaves for the next use of its slot: after an acquired
      image and no rebuild the slot fence is unsignalled until the GPU
      finishes the submit, so the next wait on it waits for that frame;
      a failed or out-of-date acquire leaves the fences as they were, bar a
      rebuild; the previous owner of the image is signalled after the guard;
      a returned rebuild signals both slot fences; and no fence other than
      the slot fence is ever unsignalled. */
  lemma SignalledAfterAcquireFences(before: set<Handle>, fences: seq<Handle>, slot: nat, acquired: bool,
                                    owner: Option<Handle>, rebuilt: bool)
    requires |fences| == MAX_FRAMES_IN_FLIGHT && slot < MAX_FRAMES_IN_FLIGHT
    ensures var r := SignalledAfterRebuild(FencesAfterSubmit(before, fences, slot, acquired, owner), fences, rebuilt);
      && (acquired && !rebuilt ==> fences[slot] !in r)
      && (acquired && owner.Some? && owner.value != fences[slot] ==> owner.value in r)
      && (!acquired && !rebuilt ==> r == before)
      && (rebuilt ==> fences[0] in r && fences[1] in r)
      && (forall f :: f in before && f != fences[slot] ==> f in r)
  {
  }

  class Renderer {
    const earlier: bool
    const window: WindowHandler
    const device: PhysicalDevice
    const indices: QueueFamilyIndices

    /** The answers of successive swap chain support queries; once they are
        used up, the device keeps answering what it answered at selection. */
    var supportAnswers: seq<SwapChainSupport>

    var chain: SwapChainObjects

    var imageAvailable: seq<Handle>
    var renderFinished: seq<Handle>
    var inFlightFences: seq<Handle>
    /** The fences that are signalled, as far as the CPU side knows. */
    var signalled: set<Handle>
    /** imagesInFlight_: the frame fence that last used each image, if any. */
    var imagesInFlight: seq<Option<Handle>>
    var currentFrame: nat

    var trace: seq<Effect>
    var nextHandle: nat

    /** The device passed the suitability check, so it has both queue
        families and offered a surface format at selection. The later
        support answers offer a format too: suitability says nothing about
        them, so this is an assumption about the window system, which keeps
        reporting formats for a surface it can present to. */
    ghost predicate DeviceReady()
      reads this`supportAnswers
    {
      && window.earlier == earlier
      && indices.IsComplete()
      && |device.support.formats| > 0
      && forall k :: 0 <= k < |supportAnswers| ==> |supportAnswers[k].formats| > 0
    }

    /** Two frame slots, each with its semaphores and its own fence; every
        image owner is one of the slot fences. */
    ghost predicate FramesReady()
      reads this`imageAvailable, this`renderFinished, this`inFlightFences, this`currentFrame, this`imagesInFlight
    {
      && |imageAvailable| == MAX_FRAMES_IN_FLIGHT
      && |renderFinished| == MAX_FRAMES_IN_FLIGHT
      && |inFlightFences| == MAX_FRAMES_IN_FLIGHT
      && inFlightFences[0] != inFlightFences[1]
      && currentFrame < MAX_FRAMES_IN_FLIGHT
      && OwnedBySlots(imagesInFlight, inFlightFences)
    }

    ghost predicate Valid()
      reads this`supportAnswers, this`chain, this`imageAvailable, this`renderFinished, this`inFlightFences,
            this`currentFrame, this`imagesInFlight
    {
      DeviceReady() && PerImageSized(earlier, chain) && FramesReady()
    }

    /** The frame slot drawFrame uses next. */
    ghost function CurrentSlot(): FrameSlot
      requires FramesReady()
      reads this`imageAvailable, this`renderFinished, this`inFlightFences, this`currentFrame, this`imagesInFlight
    {
      FrameSlot(imageAvailable[currentFrame], renderFinished[currentFrame], inFlightFences[currentFrame])
    }

    // -------------------------------------------------------------------
    // Setup
    // -------------------------------------------------------------------

    /** initVulkan from device selection on: the swap chain objects, then
        the frame slots. The device has passed the suitability check, so it
        has both queue families and offered a surface format at selection;
        the support answers of later queries are assumed to offer one as
        well. */
    constructor (earlier: bool, window: WindowHandler, device: PhysicalDevice, supportAnswers: seq<SwapChainSupport>)
      requires window.earlier == earlier
      requires FindQueueFamilies(device.queueFamilies).IsComplete() && |device.support.formats| > 0
      requires forall k :: 0 <= k < |supportAnswers| ==> |supportAnswers[k].formats| > 0
      ensures Valid()
      ensures this.earlier == earlier && this.window == window && this.device == device
      ensures indices == FindQueueFamilies(device.queueFamilies)
      ensures ChainPlanned(chain, NextSupport(supportAnswers, device.support), FramebufferSize(window.Input()), indices)
      ensures this.supportAnswers == LaterAnswers(supportAnswers)
      ensures currentFrame == 0
      ensures |imagesInFlight| == |chain.images|
      ensures forall k :: 0 <= k < |imagesInFlight| ==> imagesInFlight[k].None?
      ensures inFlightFences[0] in signalled && inFlightFences[1] in signalled
      ensures trace == CreationEffects(earlier, chain)
        + [Create(ImageAvailableSemaphores, imageAvailable), Create(RenderFinishedSemaphores, renderFinished),
           Create(InFlightFences, inFlightFences)]
    {
      this.earlier := earlier;
      this.window := window;
      this.device := device;
      this.indices := FindQueueFamilies(device.queueFamilies);
      this.supportAnswers := supportAnswers;
      chain := NoSwapChainObjects;
      imageAvailable, renderFinished, inFlightFences := [], [], [];
      signalled := {};
      imagesInFlight := [];
      currentFrame := 0;
      trace := [];
      nextHandle := 1;
      new;
      BuildSwapChain();
      ghost var created := trace;
      CreateSyncObjects();
      assert created == CreationEffects(earlier, chain);
    }

    /** querySwapChainSupport. */
    method QuerySwapChainSupport() returns (support: SwapChainSupport)
      requires DeviceReady()
      modifies this`supportAnswers
      ensures DeviceReady()
      ensures support == if old(supportAnswers) == [] then device.support else old(supportAnswers)[0]
      ensures supportAnswers == if old(supportAnswers) == [] then [] else old(supportAnswers)[1..]
      ensures |support.formats| > 0
    {
      if supportAnswers == [] {
        support := device.support;
      } else {
        support := supportAnswers[0];
        supportAnswers := supportAnswers[1..];
      }
    }

    /** Draws `count` new handles; the per-object creation loops. */
    method AllocateHandles(count: nat) returns (hs: seq<Handle>)
      modifies this`nextHandle
      ensures |hs| == count && forall k :: 0 <= k < count ==> hs[k] == old(nextHandle) + k
      ensures HandlesIn(hs, old(nextHandle), nextHandle)
      ensures nextHandle == old(nextHandle) + count
    {
      hs := [];
      var i := 0;
      while i < count
        invariant 0 <= i <= count
        invariant |hs| == i && forall k :: 0 <= k < i ==> hs[k] == old(nextHandle) + k
        invariant nextHandle == old(nextHandle) + i
      {
        hs := hs + [nextHandle];
        nextHandle := nextHandle + 1;
        i := i + 1;
      }
    }

    /** createSwapChain: plans the create info, creates the swap chain, and
        retrieves as many images as the presentation engine made (the
        requested count plus the engine's extra images). */
    method CreateSwapChain()
      requires DeviceReady()
      modifies this`supportAnswers, this`chain, this`nextHandle, this`trace
      ensures DeviceReady()
      ensures var support := if old(supportAnswers) == [] then device.support else old(supportAnswers)[0];
        && supportAnswers == (if old(supportAnswers) == [] then [] else old(supportAnswers)[1..])
        && PlanSwapChain(support, window.framebufferWidth, window.framebufferHeight, indices) == Ok(chain.createInfo)
        && |chain.images| == chain.createInfo.minImageCount + support.extraImages
      ensures chain.imageFormat == chain.createInfo.surfaceFormat.format && chain.extent == chain.createInfo.extent
      ensures chain.swapChain == old(nextHandle)
      ensures HandlesIn(chain.images, old(nextHandle) + 1, nextHandle)
      ensures nextHandle == old(nextHandle) + 1 + |chain.images|
      ensures chain == old(chain).(swapChain := chain.swapChain, createInfo := chain.createInfo, images := chain.images,
                                   imageFormat := chain.imageFormat, extent := chain.extent)
      ensures trace == old(trace) + [Create(SwapChainObject, [chain.swapChain])]
    {
      var support := QuerySwapChainSupport();
      var size := window.GetFramebufferWidthHeight();
      var plan := PlanSwapChain(support, size.0, size.1, indices);
      var swapChain := nextHandle;
      nextHandle := nextHandle + 1;
      var images := AllocateHandles(plan.value.minImageCount + support.extraImages);
      chain := chain.(swapChain := swapChain, createInfo := plan.value, images := images,
                      imageFormat := plan.value.surfaceFormat.format, extent := plan.value.extent);
      trace := trace + [Create(SwapChainObject, [swapChain])];
    }

    /** createSwapChainImageViews (createImageViews in main.cpp). */
    method CreateSwapChainImageViews()
      modifies this`chain, this`nextHandle, this`trace
      ensures |chain.views| == |chain.images| && HandlesIn(chain.views, old(nextHandle), nextHandle)
      ensures nextHandle == old(nextHandle) + |chain.images|
      ensures chain == old(chain).(views := chain.views)
      ensures trace == old(trace) + [Create(ImageViews, chain.views)]
    {
      var views := AllocateHandles(|chain.images|);
      chain := chain.(views := views);
      trace := trace + [Create(ImageViews, views)];
    }

    method CreateRenderPass()
      modifies this`chain, this`nextHandle, this`trace
      ensures chain == old(chain).(renderPass := old(nextHandle)) && nextHandle == old(nextHandle) + 1
      ensures trace == old(trace) + [Create(RenderPass, [chain.renderPass])]
    {
      chain := chain.(renderPass := nextHandle);
      nextHandle := nextHandle + 1;
      trace := trace + [Create(RenderPass, [chain.renderPass])];
    }

    method CreateGraphicsPipeline()
      modifies this`chain, this`nextHandle, this`trace
      ensures chain == old(chain).(pipelineLayout := old(nextHandle), pipeline := old(nextHandle) + 1)
      ensures nextHandle == old(nextHandle) + 2
      ensures trace == old(trace) + [Create(PipelineLayout, [chain.pipelineLayout]), Create(GraphicsPipeline, [chain.pipeline])]
    {
      chain := chain.(pipelineLayout := nextHandle, pipeline := nextHandle + 1);
      nextHandle := nextHandle + 2;
      trace := trace + [Create(PipelineLayout, [chain.pipelineLayout]), Create(GraphicsPipeline, [chain.pipeline])];
    }

    /** createFrameBuffers: one framebuffer per image view. */
    method CreateFrameBuffers()
      modifies this`chain, this`nextHandle, this`trace
      ensures |chain.framebuffers| == |chain.views| && HandlesIn(chain.framebuffers, old(nextHandle), nextHandle)
      ensures nextHandle == old(nextHandle) + |chain.views|
      ensures chain == old(chain).(framebuffers := chain.framebuffers)
      ensures trace == old(trace) + [Create(Framebuffers, chain.framebuffers)]
    {
      var framebuffers := AllocateHandles(|chain.views|);
      chain := chain.(framebuffers := framebuffers);
      trace := trace + [Create(Framebuffers, framebuffers)];
    }

    /** createUniformBuffers (renderer.h): a buffer and its memory per
        image. */
    method CreateUniformBuffers()
      modifies this`chain, this`nextHandle, this`trace
      ensures |chain.uniformBuffers| == |chain.images| && HandlesIn(chain.uniformBuffers, old(nextHandle), nextHandle)
      ensures |chain.uniformBuffersMemory| == |chain.images|
      ensures HandlesIn(chain.uniformBuffersMemory, old(nextHandle) + |chain.images|, nextHandle)
      ensures nextHandle == old(nextHandle) + 2 * |chain.images|
      ensures chain == old(chain).(uniformBuffers := chain.uniformBuffers, uniformBuffersMemory := chain.uniformBuffersMemory)
      ensures trace == old(trace) + [Create(UniformBuffers, chain.uniformBuffers),
                                     Create(UniformBuffersMemory, chain.uniformBuffersMemory)]
    {
      var buffers := AllocateHandles(|chain.images|);
      var memory := AllocateHandles(|chain.images|);
      chain := chain.(uniformBuffers := buffers, uniformBuffersMemory := memory);
      trace := trace + [Create(UniformBuffers, buffers), Create(UniformBuffersMemory, memory)];
    }

    method CreateDescriptorPool()
      modifies this`chain, this`nextHandle, this`trace
      ensures chain == old(chain).(descriptorPool := old(nextHandle)) && nextHandle == old(nextHandle) + 1
      ensures trace == old(trace) + [Create(DescriptorPool, [chain.descriptorPool])]
    {
      chain := chain.(descriptorPool := nextHandle);
      nextHandle := nextHandle + 1;
      trace := trace + [Create(DescriptorPool, [chain.descriptorPool])];
    }

    /** createDescriptorSets (renderer.h): one set per image. */
    method CreateDescriptorSets()
      modifies this`chain, this`nextHandle, this`trace
      ensures |chain.descriptorSets| == |chain.images| && HandlesIn(chain.descriptorSets, old(nextHandle), nextHandle)
      ensures nextHandle == old(nextHandle) + |chain.images|
      ensures chain == old(chain).(descriptorSets := chain.descriptorSets)
      ensures trace == old(trace) + [Create(DescriptorSets, chain.descriptorSets)]
    {
      var sets := AllocateHandles(|chain.images|);
      chain := chain.(descriptorSets := sets);
      trace := trace + [Create(DescriptorSets, sets)];
    }

    /** createCommandBuffers: one command buffer per framebuffer. */
    method CreateCommandBuffers()
      modifies this`chain, this`nextHandle, this`trace
      ensures |chain.commandBuffers| == |chain.framebuffers| && HandlesIn(chain.commandBuffers, old(nextHandle), nextHandle)
      ensures nextHandle == old(nextHandle) + |chain.framebuffers|
      ensures chain == old(chain).(commandBuffers := chain.commandBuffers)
      ensures trace == old(trace) + [Create(CommandBuffers, chain.commandBuffers)]
    {
      var buffers := AllocateHandles(|chain.framebuffers|);
      chain := chain.(commandBuffers := buffers);
      trace := trace + [Create(CommandBuffers, buffers)];
    }

    /** The creation sequence shared by initVulkan and recreateSwapChain:
        afterwards every per-image sequence has one entry per image. The
        earlier revision has no uniform buffers or descriptor sets; they
        stay empty. */
    method BuildSwapChain()
      requires DeviceReady()
      requires earlier ==> chain.uniformBuffers == [] && chain.uniformBuffersMemory == [] && chain.descriptorSets == []
      modifies this`supportAnswers, this`chain, this`nextHandle, this`trace
      ensures DeviceReady() && PerImageSized(earlier, chain)
      ensures ChainPlanned(chain, NextSupport(old(supportAnswers), device.support), FramebufferSize(window.Input()), indices)
      ensures supportAnswers == LaterAnswers(old(supportAnswers))
      ensures trace == old(trace) + CreationEffects(earlier, chain)
      ensures old(nextHandle) <= nextHandle
    {
      BuildChain();
      BuildImageResources();
    }

    /** The first half of the creation sequence. */
    method BuildChain()
      requires DeviceReady()
      modifies this`supportAnswers, this`chain, this`nextHandle, this`trace
      ensures DeviceReady()
      ensures ChainPlanned(chain, NextSupport(old(supportAnswers), device.support), FramebufferSize(window.Input()), indices)
      ensures supportAnswers == LaterAnswers(old(supportAnswers))
      ensures |chain.views| == |chain.images| && |chain.framebuffers| == |chain.images|
      ensures chain.uniformBuffers == old(chain.uniformBuffers) && chain.uniformBuffersMemory == old(chain.uniformBuffersMemory)
      ensures chain.descriptorSets == old(chain.descriptorSets)
      ensures trace == old(trace) + ChainCreationEffects(chain)
      ensures old(nextHandle) <= nextHandle
    {
      CreateSwapChain();
      CreateSwapChainImageViews();
      CreateRenderPass();
      CreateGraphicsPipeline();
      CreateFrameBuffers();
    }

    /** The second half of the creation sequence: the per-image resources. */
    method BuildImageResources()
      requires |chain.views| == |chain.images| && |chain.framebuffers| == |chain.images|
      requires earlier ==> chain.uniformBuffers == [] && chain.uniformBuffersMemory == [] && chain.descriptorSets == []
      modifies this`chain, this`nextHandle, this`trace
      ensures PerImageSized(earlier, chain)
      ensures chain.createInfo == old(chain.createInfo) && chain.images == old(chain.images)
      ensures chain.imageFormat == old(chain.imageFormat) && chain.extent == old(chain.extent)
      ensures ChainCreationEffects(chain) == ChainCreationEffects(old(chain))
      ensures trace == old(trace) + ImageResourceCreationEffects(earlier, chain)
      ensures old(nextHandle) <= nextHandle
    {
      if !earlier {
        CreateUniformBuffers();
        CreateDescriptorPool();
        CreateDescriptorSets();
      }
      CreateCommandBuffers();
    }

    /** createSyncObjects: two semaphores and a signalled fence per frame
        slot; imagesInFlight_ resized to the image count, new entries null. */
    method CreateSyncObjects()
      modifies this`imageAvailable, this`renderFinished, this`inFlightFences, this`signalled,
               this`imagesInFlight, this`nextHandle, this`trace
      ensures |imageAvailable| == MAX_FRAMES_IN_FLIGHT && |renderFinished| == MAX_FRAMES_IN_FLIGHT
      ensures |inFlightFences| == MAX_FRAMES_IN_FLIGHT && inFlightFences[0] != inFlightFences[1]
      ensures HandlesIn(inFlightFences, old(nextHandle) + 2 * MAX_FRAMES_IN_FLIGHT, nextHandle)
      ensures signalled == old(signalled) + {inFlightFences[0], inFlightFences[1]}
      ensures imagesInFlight == Resized(old(imagesInFlight), |chain.images|, None)
      ensures old(imagesInFlight) == [] ==> forall k :: 0 <= k < |imagesInFlight| ==> imagesInFlight[k].None?
      ensures nextHandle == old(nextHandle) + 3 * MAX_FRAMES_IN_FLIGHT
      ensures trace == old(trace)
        + [Create(ImageAvailableSemaphores, imageAvailable), Create(RenderFinishedSemaphores, renderFinished),
           Create(InFlightFences, inFlightFences)]
    {
      imagesInFlight := Resized(imagesInFlight, |chain.images|, None);
      imageAvailable := AllocateHandles(MAX_FRAMES_IN_FLIGHT);
      renderFinished := AllocateHandles(MAX_FRAMES_IN_FLIGHT);
      inFlightFences := AllocateHandles(MAX_FRAMES_IN_FLIGHT);
      signalled := signalled + {inFlightFences[0], inFlightFences[1]};
      trace := trace + [Create(ImageAvailableSemaphores, imageAvailable), Create(RenderFinishedSemaphores, renderFinished),
                        Create(InFlightFences, inFlightFences)];
    }

    // -------------------------------------------------------------------
    // Rebuild
    // -------------------------------------------------------------------

    /** cleanupSwapChain: destroys every swap chain object; the members keep
        the stale handles until they are recreated. */
    method CleanupSwapChain()
      modifies this`trace
      ensures trace == old(trace) + CleanupEffects(earlier, chain)
    {
      trace := trace + [Destroy(Framebuffers, chain.framebuffers), Destroy(CommandBuffers, chain.commandBuffers),
                        Destroy(GraphicsPipeline, [chain.pipeline]), Destroy(PipelineLayout, [chain.pipelineLayout]),
                        Destroy(RenderPass, [chain.renderPass]), Destroy(ImageViews, chain.views),
                        Destroy(SwapChainObject, [chain.swapChain])];
      if !earlier {
        trace := trace + [Destroy(UniformBuffers, chain.uniformBuffers),
                          Destroy(UniformBuffersMemory, chain.uniformBuffersMemory),
                          Destroy(DescriptorPool, [chain.descriptorPool])];
      }
    }

    /** The calls of one round of the minimized-window wait: the size query
        and the wait. */
    method LogWaitRound(ghost prior: seq<Effect>, ghost sizes: seq<(int, int)>, size: (int, int))
      requires |sizes| >= 1 && trace == prior + WaitLoopEffects(sizes)
      modifies this`trace
      ensures trace == prior + WaitLoopEffects(sizes + [size])
    {
      trace := trace + [QueryFramebufferSize(size.0, size.1), WaitEvents];
      WaitLoopEffectsSnoc(sizes, size);
    }

    /** One round of the minimized-window wait: read the size again, then
        wait for events. `sizes` are the sizes read so far, from window
        state `start` with `batches` to come. */
    method WaitRound(ghost start: InputState, ghost batches: seq<seq<WindowEvent>>, ghost sizes: seq<(int, int)>,
                     ghost prior: seq<Effect>)
      returns (size: (int, int), woke: bool, ghost read: seq<(int, int)>)
      requires |sizes| >= 1
      requires WaitProgress(window.earlier, start, batches, sizes, |sizes| - 1, window.Input(), window.pendingBatches)
      requires Minimized(sizes[|sizes| - 1])
      requires trace == prior + WaitLoopEffects(sizes)
      modifies this`trace, window
      ensures read == sizes + [size]
      ensures trace == prior + WaitLoopEffects(read)
      ensures woke ==> WaitProgress(window.earlier, start, batches, read, |sizes|, window.Input(), window.pendingBatches)
      ensures !woke ==> WaitOver(window.earlier, start, batches, read, false, |batches|, window.Input(), window.pendingBatches)
    {
      size := window.GetFramebufferWidthHeight();
      SizesReadSnoc(window.earlier, start, batches, sizes, size);
      read := sizes + [size];
      LogWaitRound(prior, sizes, size);
      ghost var before := window.Input();
      woke := window.WaitEvents();
      if woke {
        assert window.Input() == DispatchAll(window.earlier, before, batches[|sizes| - 1]);
        AfterBatchesSnoc(window.earlier, start, batches, |sizes| - 1);
      } else {
        assert batches[..|sizes| - 1] == batches[..|batches|];
      }
    }

    /** The minimized-window wait of recreateSwapChain: reads the size, and
        while it has a zero dimension reads it again and waits for events.
        `sizes` are the sizes read and `consumed` the batches of events
        handled, as MinimizedWait relates them to the window. The wait
        follows every read inside the loop, so one more batch of events is
        handled after the size first reads non-zero. `woke` is false when a
        wait never returns. */
    method WaitWhileMinimized() returns (woke: bool, ghost sizes: seq<(int, int)>, ghost consumed: nat)
      modifies this`trace, window
      ensures WaitOver(window.earlier, old(window.Input()), old(window.pendingBatches), sizes, woke, consumed,
                       window.Input(), window.pendingBatches)
      ensures trace == old(trace) + WaitLoopEffects(sizes)
    {
      ghost var start, batches := window.Input(), window.pendingBatches;
      var size := window.GetFramebufferWidthHeight();
      sizes, consumed := [size], 0;
      trace := trace + [QueryFramebufferSize(size.0, size.1)];
      WaitStarts(window.earlier, start, batches);
      while Minimized(size)
        invariant WaitProgress(window.earlier, start, batches, sizes, consumed, window.Input(), window.pendingBatches)
        invariant size == sizes[|sizes| - 1]
        invariant trace == old(trace) + WaitLoopEffects(sizes)
        decreases |batches| - consumed
      {
        size, woke, sizes := WaitRound(start, batches, sizes, old(trace));
        if !woke {
          consumed := |batches|;
          return;
        }
        consumed := consumed + 1;
      }
      woke := true;
      WaitEnds(window.earlier, start, batches, sizes, consumed, window.Input(), window.pendingBatches);
    }

    /** vkDeviceWaitIdle: all submitted work completes, so both slot fences
        are signalled. */
    method WaitDeviceIdle()
      requires |inFlightFences| == MAX_FRAMES_IN_FLIGHT
      modifies this`trace, this`signalled
      ensures trace == old(trace) + [Effect.DeviceWaitIdle]
      ensures signalled == old(signalled) + {inFlightFences[0], inFlightFences[1]}
    {
      trace := trace + [Effect.DeviceWaitIdle];
      signalled := signalled + {inFlightFences[0], inFlightFences[1]};
    }

    /** The part of recreateSwapChain after the minimized-window wait: the
        device wait, cleanupSwapChain, and the creation sequence. */
    method Rebuild()
      requires Valid()
      modifies this`supportAnswers, this`chain, this`nextHandle, this`trace, this`signalled
      ensures Valid()
      ensures ChainPlanned(chain, NextSupport(old(supportAnswers), device.support), FramebufferSize(window.Input()), indices)
      ensures supportAnswers == LaterAnswers(old(supportAnswers))
      ensures trace == old(trace) + ([Effect.DeviceWaitIdle] + CleanupEffects(earlier, old(chain)) + CreationEffects(earlier, chain))
      ensures signalled == old(signalled) + {inFlightFences[0], inFlightFences[1]}
    {
      WaitDeviceIdle();
      CleanupSwapChain();
      ghost var destroyed := trace;
      BuildSwapChain();
      assert trace == destroyed + CreationEffects(earlier, chain);
    }

    /** recreateSwapChain: waits while the window is minimized, then waits
        for the device, destroys and recreates every swap chain object. The
        new swap chain is planned from the next support answer and the
        framebuffer size the window reports after the wait. The frame
        slots, currentFrame_ and imagesInFlight_ are not touched. */
    method RecreateSwapChain(reason: string) returns (outcome: Outcome, ghost sizes: seq<(int, int)>, ghost consumed: nat)
      requires Valid()
      modifies this`supportAnswers, this`chain, this`nextHandle, this`trace, this`signalled, window
      ensures Valid()
      ensures outcome == Returned || outcome == Blocked
      ensures WaitOver(earlier, old(window.Input()), old(window.pendingBatches), sizes, outcome == Returned, consumed,
                       window.Input(), window.pendingBatches)
      ensures outcome == Blocked ==> chain == old(chain) && supportAnswers == old(supportAnswers)
      ensures outcome == Returned ==>
        && ChainPlanned(chain, NextSupport(old(supportAnswers), device.support), FramebufferSize(window.Input()), indices)
        && supportAnswers == LaterAnswers(old(supportAnswers))
      ensures trace == old(trace) + [Recreate(reason)] + WaitLoopEffects(sizes)
                       + if outcome == Returned then [Effect.DeviceWaitIdle] + CleanupEffects(earlier, old(chain)) + CreationEffects(earlier, chain)
                         else []
      ensures RecreatedAfter(old(trace), reason, trace)
      ensures signalled == if outcome == Returned then old(signalled) + {inFlightFences[0], inFlightFences[1]}
                           else old(signalled)
    {
      trace := trace + [Recreate(reason)];
      var woke;
      woke, sizes, consumed := WaitWhileMinimized();
      if !woke {
        RecreatedAfterParts(old(trace), reason, WaitLoopEffects(sizes), []);
        return Blocked, sizes, consumed;
      }
      Rebuild();
      outcome := Returned;
      RebuildCallsOnly(earlier, old(chain), chain);
      RecreatedAfterParts(old(trace), reason, WaitLoopEffects(sizes),
                          [Effect.DeviceWaitIdle] + CleanupEffects(earlier, old(chain)) + CreationEffects(earlier, chain));
    }

    // -------------------------------------------------------------------
    // Frames
    // -------------------------------------------------------------------

    /** vkWaitForFences on one fence: afterwards it is signalled. */
    method WaitOnFence(fence: Handle)
      modifies this`trace, this`signalled
      ensures trace == old(trace) + [Effect.WaitForFence(fence)]
      ensures signalled == old(signalled) + {fence}
    {
      trace := trace + [Effect.WaitForFence(fence)];
      signalled := signalled + {fence};
    }

    /** vkResetFences on one fence. */
    method ResetOneFence(fence: Handle)
      modifies this`trace, this`signalled
      ensures trace == old(trace) + [Effect.ResetFence(fence)]
      ensures signalled == old(signalled) - {fence}
    {
      trace := trace + [Effect.ResetFence(fence)];
      signalled := signalled - {fence};
    }

    /** The start of drawFrame: the slot fence wait, the vertex copy of the
        earlier revision, and the acquire. */
    method BeginFrame()
      requires Valid()
      modifies this`trace, this`signalled
      ensures Valid()
      ensures trace == old(trace) + AcquireCalls(earlier, CurrentSlot())
      ensures signalled == old(signalled) + {inFlightFences[currentFrame]}
    {
      WaitOnFence(inFlightFences[currentFrame]);
      if earlier {
        trace := trace + [CopyVertices];
      }
      trace := trace + [AcquireImage(imageAvailable[currentFrame])];
    }

    /** The image guard of drawFrame: wait for the image's previous owner,
        record the slot fence as its owner, and update the uniform buffer
        (renderer.h). */
    method GuardImage(imageIndex: nat)
      requires Valid() && imageIndex < |imagesInFlight|
      modifies this`trace, this`signalled, this`imagesInFlight
      ensures Valid()
      ensures imagesInFlight == old(imagesInFlight)[imageIndex := Some(inFlightFences[currentFrame])]
      ensures trace == old(trace) + GuardCalls(earlier, imageIndex, old(imagesInFlight)[imageIndex])
      ensures var owner := old(imagesInFlight)[imageIndex];
        signalled == old(signalled) + if owner.Some? then {owner.value} else {}
    {
      var owner := imagesInFlight[imageIndex];
      if owner.Some? {
        WaitOnFence(owner.value);
      }
      OwnedBySlotsRecord(imagesInFlight, inFlightFences, imageIndex, currentFrame);
      imagesInFlight := imagesInFlight[imageIndex := Some(inFlightFences[currentFrame])];
      if !earlier {
        trace := trace + [UpdateUniformBuffer(imageIndex)];
      }
    }

    /** The part of drawFrame from the image guard to the submit: the guard,
        then the reset of the slot fence and the submit. */
    method SubmitImage(imageIndex: nat)
      requires Valid() && imageIndex < |imagesInFlight|
      modifies this`trace, this`signalled, this`imagesInFlight
      ensures Valid()
      ensures imagesInFlight == old(imagesInFlight)[imageIndex := Some(inFlightFences[currentFrame])]
      ensures trace == old(trace) + SubmitCalls(earlier, CurrentSlot(), imageIndex, old(imagesInFlight)[imageIndex])
      ensures signalled == FencesAfterSubmit(old(signalled), inFlightFences, currentFrame, true, old(imagesInFlight)[imageIndex])
    {
      ghost var guard := GuardCalls(earlier, imageIndex, imagesInFlight[imageIndex]);
      GuardImage(imageIndex);
      var fence := inFlightFences[currentFrame];
      ResetOneFence(fence);
      var submit := Submit(imageIndex, imageAvailable[currentFrame], renderFinished[currentFrame], fence);
      trace := trace + [submit];
      assert trace == old(trace) + (guard + [ResetFence(fence), submit]);
    }

    /** recreateSwapChain as drawFrame sees it: a rebuild for `reason` that
        handled the first `consumed` batches of events. */
    method RecreateForFrame(reason: string) returns (outcome: Outcome, ghost consumed: nat)
      requires Valid()
      modifies this`supportAnswers, this`chain, this`nextHandle, this`trace, this`signalled, window
      ensures Valid()
      ensures RecreatedAfter(old(trace), reason, trace)
      ensures outcome == Returned || outcome == Blocked
      ensures signalled == SignalledAfterRebuild(old(signalled), inFlightFences, outcome == Returned)
      ensures consumed <= |old(window.pendingBatches)|
      ensures window.pendingBatches == old(window.pendingBatches)[consumed..]
      ensures window.Input() == AfterBatches(earlier, old(window.Input()), old(window.pendingBatches)[..consumed])
      ensures ChainAfter(old(chain), old(supportAnswers), chain, supportAnswers, device.support,
                         FramebufferSize(window.Input()), indices, outcome == Returned)
    {
      ghost var sizes;
      outcome, sizes, consumed := RecreateSwapChain(reason);
    }

    /** The resize or out-of-date rebuild after a present: clear the resize
        flag, then recreate the swap chain. `consumed` is the number of
        batches of events the recreate handled. */
    method RecreateAfterPresent(reason: string) returns (outcome: Outcome, ghost consumed: nat)
      requires Valid()
      modifies this`supportAnswers, this`chain, this`nextHandle, this`trace, this`signalled, window
      ensures Valid()
      ensures RecreatedAfter(old(trace) + [ClearResizedFlag], reason, trace)
      ensures outcome == Returned || outcome == Blocked
      ensures signalled == SignalledAfterRebuild(old(signalled), inFlightFences, outcome == Returned)
      ensures consumed <= |old(window.pendingBatches)|
      ensures window.pendingBatches == old(window.pendingBatches)[consumed..]
      ensures window.Input() ==
        AfterBatches(earlier, old(window.Input()).(framebufferResized := false), old(window.pendingBatches)[..consumed])
      ensures ChainAfter(old(chain), old(supportAnswers), chain, supportAnswers, device.support,
                         FramebufferSize(window.Input()), indices, outcome == Returned)
    {
      window.ResetFramebufferResized();
      trace := trace + [ClearResizedFlag];
      outcome, consumed := RecreateForFrame(reason);
    }

    /** The end of drawFrame after a successful submit: present, then either
        clear the resize flag and recreate the swap chain, throw, or advance
        to the next frame slot. The window changes only through the rebuild:
        the flag clear, then the `consumed` batches of events the recreate
        handled. */
    method PresentImage(imageIndex: nat, presentResult: VkResult) returns (outcome: Outcome, ghost consumed: nat)
      requires Valid()
      modifies this`supportAnswers, this`chain, this`nextHandle, this`trace, this`signalled,
               this`currentFrame, window
      ensures Valid()
      ensures FrameDrawn(PresentFrame(imageIndex, old(CurrentSlot()), old(imagesInFlight), presentResult,
                                      old(window.framebufferResized)),
                         earlier, inFlightFences, old(currentFrame), true, old(signalled),
                         old(window.Input()), old(window.pendingBatches), old(trace),
                         trace, outcome, imagesInFlight, currentFrame, signalled, window.Input(), window.pendingBatches,
                         consumed, old(chain), old(supportAnswers), chain, supportAnswers, device.support, indices)
    {
      ghost var q := PresentFrame(imageIndex, CurrentSlot(), imagesInFlight, presentResult, window.framebufferResized);
      consumed := 0;
      assert window.pendingBatches[..0] == [];
      var present := Present(imageIndex, renderFinished[currentFrame]);
      trace := trace + [present];
      if presentResult == ErrorOutOfDate || presentResult == Suboptimal || window.FramebufferWasResized() {
        var reason := if window.FramebufferWasResized() then ResizedReason else PresentOutOfDateReason;
        assert q.calls == [present, ClearResizedFlag] && q.rebuild == Some(reason);
        assert trace + [ClearResizedFlag] == old(trace) + q.calls;
        outcome, consumed := RecreateAfterPresent(reason);
        assert inFlightFences == old(inFlightFences) && imagesInFlight == old(imagesInFlight)
               && currentFrame == old(currentFrame);
      } else {
        assert q.calls == [present];
        if presentResult != Success {
          return Threw(AcquireFailedMessage), consumed;
        }
        outcome := Returned;
      }
      if outcome == Returned {
        AdvanceFrame();
        assert inFlightFences == old(inFlightFences) && imagesInFlight == old(imagesInFlight);
      }
    }

    /** currentFrame_ = (currentFrame_ + 1) % MAX_FRAMES_IN_FLIGHT. */
    method AdvanceFrame()
      requires Valid()
      modifies this`currentFrame
      ensures Valid()
      ensures currentFrame == NextFrame(old(currentFrame))
    {
      currentFrame := NextFrame(currentFrame);
    }

    /** drawFrame once an image was acquired: the submit, then the present
        unless the submit failed. */
    method RenderImage(imageIndex: nat, submitResult: VkResult, presentResult: VkResult)
      returns (outcome: Outcome, ghost consumed: nat)
      requires Valid() && imageIndex < |imagesInFlight|
      modifies this`supportAnswers, this`chain, this`nextHandle, this`trace, this`signalled,
               this`currentFrame, this`imagesInFlight, window
      ensures Valid()
      ensures FrameDrawn(SubmitFrame(earlier, old(CurrentSlot()), old(imagesInFlight), imageIndex,
                                     submitResult, presentResult, old(window.framebufferResized)),
                         earlier, inFlightFences, old(currentFrame), true,
                         FencesAfterSubmit(old(signalled), inFlightFences, old(currentFrame), true, old(imagesInFlight)[imageIndex]),
                         old(window.Input()), old(window.pendingBatches), old(trace),
                         trace, outcome, imagesInFlight, currentFrame, signalled, window.Input(), window.pendingBatches,
                         consumed, old(chain), old(supportAnswers), chain, supportAnswers, device.support, indices)
    {
      ghost var slot := CurrentSlot();
      ghost var submitted := SubmitCalls(earlier, slot, imageIndex, imagesInFlight[imageIndex]);
      ghost var p := SubmitFrame(earlier, slot, imagesInFlight, imageIndex, submitResult, presentResult,
                                 window.framebufferResized);
      SubmitImage(imageIndex);
      assert window.Input() == old(window.Input()) && window.pendingBatches == old(window.pendingBatches);
      if submitResult != Success {
        assert p == FramePlan(submitted, None, Some(SubmitFailedMessage), imagesInFlight, false);
        assert window.pendingBatches[..0] == [];
        return Threw(SubmitFailedMessage), 0;
      }
      ghost var q := PresentFrame(imageIndex, slot, imagesInFlight, presentResult, window.framebufferResized);
      assert p == Prepend(submitted, q);
      ghost var settled := signalled;
      outcome, consumed := PresentImage(imageIndex, presentResult);
      FrameDrawnPrepend(submitted, q, earlier, inFlightFences, old(currentFrame), true, settled,
                        old(window.Input()), old(window.pendingBatches), old(trace),
                        trace, outcome, imagesInFlight, currentFrame, signalled, window.Input(), window.pendingBatches,
                        consumed, old(chain), old(supportAnswers), chain, supportAnswers, device.support, indices);
    }

    /** drawFrame, with the API's answers as parameters: `acquire` and
        `imageIndex` from vkAcquireNextImageKHR, `submitResult` from
        vkQueueSubmit, `presentResult` from vkQueuePresentKHR. It does what
        PlanFrame says for the current slot and the resize flag as it was on
        entry. The window changes only through a rebuild: the resize flag is
        cleared first when the present asked for it (not when the acquire
        did), then the recreate handles `consumed` batches of events. The
        acquired index must fall inside imagesInFlight_, which is sized once
        at setup and not on rebuild. */
    method DrawFrame(acquire: VkResult, imageIndex: nat, submitResult: VkResult, presentResult: VkResult)
      returns (outcome: Outcome, ghost consumed: nat)
      requires Valid()
      requires Acquired(acquire) ==> imageIndex < |imagesInFlight|
      modifies this`supportAnswers, this`chain, this`nextHandle, this`trace, this`signalled,
               this`currentFrame, this`imagesInFlight, window
      ensures Valid()
      ensures FrameDrawn(PlanFrame(earlier, old(CurrentSlot()), old(imagesInFlight), acquire, imageIndex,
                                   submitResult, presentResult, old(window.framebufferResized)),
                         earlier, inFlightFences, old(currentFrame), Acquired(acquire),
                         FencesAfterSubmit(old(signalled) + {inFlightFences[old(currentFrame)]}, inFlightFences, old(currentFrame), Acquired(acquire),
                                           if Acquired(acquire) then old(imagesInFlight)[imageIndex] else None),
                         old(window.Input()),
                         old(window.pendingBatches), old(trace),
                         trace, outcome, imagesInFlight, currentFrame, signalled, window.Input(), window.pendingBatches,
                         consumed, old(chain), old(supportAnswers), chain, supportAnswers, device.support, indices)
    {
      ghost var slot := CurrentSlot();
      ghost var rest := AfterAcquire(earlier, slot, imagesInFlight, acquire, imageIndex, submitResult, presentResult,
                                     window.framebufferResized);
      ghost var p := PlanFrame(earlier, slot, imagesInFlight, acquire, imageIndex, submitResult, presentResult,
                               window.framebufferResized);
      assert p == Prepend(AcquireCalls(earlier, slot), rest);
      BeginFrame();
      ghost var waited := signalled;
      assert currentFrame == old(currentFrame) && imagesInFlight == old(imagesInFlight) && CurrentSlot() == slot;
      assert window.Input() == old(window.Input()) && window.pendingBatches == old(window.pendingBatches);
      assert chain == old(chain) && supportAnswers == old(supportAnswers);
      outcome, consumed := FinishFrame(acquire, imageIndex, submitResult, presentResult);
      FrameDrawnPrepend(AcquireCalls(earlier, slot), rest, earlier, inFlightFences, old(currentFrame), Acquired(acquire),
                        FencesAfterSubmit(waited, inFlightFences, old(currentFrame), Acquired(acquire),
                                          if Acquired(acquire) then old(imagesInFlight)[imageIndex] else None),
                        old(window.Input()), old(window.pendingBatches), old(trace),
                        trace, outcome, imagesInFlight, currentFrame, signalled, window.Input(), window.pendingBatches,
                        consumed, old(chain), old(supportAnswers), chain, supportAnswers, device.support, indices);
    }

    /** drawFrame after the acquire: a rebuild when the swap chain is out of
        date, an exception when the acquire failed otherwise, and the
        submit and present of the acquired image else. It does what
        AfterAcquire says. */
    method FinishFrame(acquire: VkResult, imageIndex: nat, submitResult: VkResult, presentResult: VkResult)
      returns (outcome: Outcome, ghost consumed: nat)
      requires Valid()
      requires Acquired(acquire) ==> imageIndex < |imagesInFlight|
      modifies this`supportAnswers, this`chain, this`nextHandle, this`trace, this`signalled,
               this`currentFrame, this`imagesInFlight, window
      ensures Valid()
      ensures FrameDrawn(AfterAcquire(earlier, old(CurrentSlot()), old(imagesInFlight), acquire, imageIndex,
                                      submitResult, presentResult, old(window.framebufferResized)),
                         earlier, inFlightFences, old(currentFrame), Acquired(acquire),
                         FencesAfterSubmit(old(signalled), inFlightFences, old(currentFrame), Acquired(acquire),
                                           if Acquired(acquire) then old(imagesInFlight)[imageIndex] else None),
                         old(window.Input()), old(window.pendingBatches), old(trace),
                         trace, outcome, imagesInFlight, currentFrame, signalled, window.Input(), window.pendingBatches,
                         consumed, old(chain), old(supportAnswers), chain, supportAnswers, device.support, indices)
    {
      ghost var rest := AfterAcquire(earlier, CurrentSlot(), imagesInFlight, acquire, imageIndex, submitResult,
                                     presentResult, window.framebufferResized);
      if acquire == ErrorOutOfDate {
        assert rest == FramePlan([], Some(AcquireOutOfDateReason), None, imagesInFlight, false);
        outcome, consumed := RecreateForFrame(AcquireOutOfDateReason);
        assert old(trace) + rest.calls == old(trace);
      } else if !Acquired(acquire) {
        assert rest == FramePlan([], None, Some(AcquireFailedMessage), imagesInFlight, false);
        assert window.pendingBatches[..0] == [];
        assert trace == old(trace) + rest.calls;
        return Threw(AcquireFailedMessage), 0;
      } else {
        outcome, consumed := RenderImage(imageIndex, submitResult, presentResult);
      }
    }

    /** The event poll at the start of the earlier revision's draw; the
        later revision polls in its main loop, outside this model, and its
        window is left alone here. `consumed` is the number of batches
        handled: the next one, when the earlier revision polls and one is
        pending. Whether a rebuild is requested afterwards follows
        RecreateFlagAfterEvents. */
    method PollBeforeFrame() returns (ghost requested: bool, ghost consumed: nat)
      requires window.earlier == earlier
      modifies this`trace, window
      ensures requested == window.shouldRecreateSwapChain
      ensures requested == if earlier
        then old(window.shouldRecreateSwapChain)
             || (old(window.pendingBatches) != []
                 && RecreateKeyIn(old(window.pendingBatches)[0]))
        else old(window.shouldRecreateSwapChain)
      ensures consumed == if earlier && old(window.pendingBatches) != [] then 1 else 0
      ensures window.pendingBatches == old(window.pendingBatches)[consumed..]
      ensures window.Input() == AfterBatches(earlier, old(window.Input()), old(window.pendingBatches)[..consumed])
      ensures trace == old(trace) + if earlier then [PollEvents] else []
    {
      consumed := 0;
      assert window.pendingBatches[..0] == [];
      if earlier {
        trace := trace + [PollEvents];
        ghost var before := window.Input();
        ghost var batches := window.pendingBatches;
        window.PollEvents();
        if batches != [] {
          RecreateFlagAfterEvents(earlier, before, batches[0]);
          consumed := 1;
          assert batches[..1] == [batches[0]] && [batches[0]][..0] == [];
        }
      }
      requested := window.shouldRecreateSwapChain;
    }

    /** A requested rebuild before the frame: recreate the swap chain and,
        unless that blocked, clear the request flag. `consumed` is the
        number of batches of events the recreate handled. */
    method ServeRecreateRequest(reason: string) returns (blocked: bool, ghost consumed: nat)
      requires Valid()
      modifies this`supportAnswers, this`chain, this`nextHandle, this`trace, this`signalled, window
      ensures Valid()
      ensures blocked ==> old(window.shouldRecreateSwapChain)
      ensures !old(window.shouldRecreateSwapChain) ==> trace == old(trace) && consumed == 0
      ensures signalled == SignalledAfterRebuild(old(signalled), inFlightFences, old(window.shouldRecreateSwapChain) && !blocked)
      ensures blocked ==> RecreatedAfter(old(trace), reason, trace)
      ensures old(window.shouldRecreateSwapChain) && !blocked ==>
        && |trace| > |old(trace)| && trace[|trace| - 1] == ClearRecreateFlag
        && RecreatedAfter(old(trace), reason, trace[..|trace| - 1])
      ensures consumed <= |old(window.pendingBatches)|
      ensures window.pendingBatches == old(window.pendingBatches)[consumed..]
      ensures var handled := AfterBatches(earlier, old(window.Input()), old(window.pendingBatches)[..consumed]);
        window.Input() == if old(window.shouldRecreateSwapChain) && !blocked then handled.(shouldRecreateSwapChain := false)
                          else handled
      ensures !blocked ==> !window.shouldRecreateSwapChain
      ensures ChainAfter(old(chain), old(supportAnswers), chain, supportAnswers, device.support,
                         FramebufferSize(window.Input()), indices, old(window.shouldRecreateSwapChain) && !blocked)
    {
      blocked, consumed := false, 0;
      assert window.pendingBatches[..0] == [];
      if window.ShouldRecreateSwapchain() {
        var rebuilt;
        ghost var sizes;
        rebuilt, sizes, consumed := RecreateSwapChain(reason);
        if rebuilt == Blocked {
          return true, consumed;
        }
        ghost var recreated := trace;
        ClearRecreateRequest();
        assert trace[..|trace| - 1] == recreated;
      }
    }

    /** Clearing the rebuild request once the rebuild is done. */
    method ClearRecreateRequest()
      requires Valid()
      modifies this`trace, window`shouldRecreateSwapChain
      ensures Valid()
      ensures trace == old(trace) + [ClearRecreateFlag]
      ensures window.Input() == old(window.Input()).(shouldRecreateSwapChain := false)
      ensures window.pendingBatches == old(window.pendingBatches)
    {
      window.ResetShouldRecreateSwapchain();
      trace := trace + [ClearRecreateFlag];
    }

    /** The start of draw: the earlier revision polls window events; a
        requested rebuild happens, and its flag is cleared, before the frame
        is drawn. `requested` is whether a rebuild was requested at that
        point, `blocked` whether that rebuild blocked, and `consumed` the
        number of batches of events handled: the poll's, then the
        rebuild's. */
    method BeforeFrame() returns (blocked: bool, ghost requested: bool, ghost consumed: nat)
      requires Valid()
      modifies this`supportAnswers, this`chain, this`nextHandle, this`trace, this`signalled, window
      ensures Valid()
      ensures requested == if earlier
        then old(window.shouldRecreateSwapChain)
             || (old(window.pendingBatches) != []
                 && RecreateKeyIn(old(window.pendingBatches)[0]))
        else old(window.shouldRecreateSwapChain)
      ensures blocked ==> requested
      ensures FrameSetup(old(trace), earlier, requested, blocked, trace)
      ensures signalled == SignalledAfterRebuild(old(signalled), inFlightFences, requested && !blocked)
      ensures consumed <= |old(window.pendingBatches)|
      ensures window.pendingBatches == old(window.pendingBatches)[consumed..]
      ensures var handled := AfterBatches(earlier, old(window.Input()), old(window.pendingBatches)[..consumed]);
        window.Input() == if requested && !blocked then handled.(shouldRecreateSwapChain := false) else handled
      ensures window.framebufferResized <==>
        old(window.framebufferResized) || ResizeWithin(old(window.pendingBatches), consumed)
      ensures !blocked ==> !window.shouldRecreateSwapChain
      ensures ChainAfter(old(chain), old(supportAnswers), chain, supportAnswers, device.support,
                         FramebufferSize(window.Input()), indices, requested && !blocked)
    {
      ghost var start, batches := window.Input(), window.pendingBatches;
      ghost var polled;
      requested, polled := PollBeforeFrame();
      ghost var served;
      blocked, served := ServeRecreateRequest(if earlier then EarlierUserRequestedReason else UserRequestedReason);
      consumed := polled + served;
      AfterBatchesConcat(earlier, start, batches[..polled], batches[polled..][..served]);
      assert batches[..polled] + batches[polled..][..served] == batches[..consumed];
      assert batches[polled..][served..] == batches[consumed..];
      ResizedFlagAfterPrefix(earlier, start, batches, consumed);
    }

    /** draw: BeforeFrame, then drawFrame unless the requested rebuild
        blocked. `setup` is the trace BeforeFrame leaves and `ready` the
        window state it leaves, after `setupBatches` batches of events;
        `fenced`, `built` and `answersLeft` are the signalled fences, the
        swap chain and the support answers it leaves. `drawn` is whether
        the frame was drawn after it, which handled `frameBatches` more
        batches. The frame sees the resize flag raised exactly when it was
        raised on entry or a resize event came in one of the setup
        batches. */
    method Draw(acquire: VkResult, imageIndex: nat, submitResult: VkResult, presentResult: VkResult)
      returns (outcome: Outcome, ghost requested: bool, ghost drawn: bool, ghost setup: seq<Effect>,
               ghost ready: InputState, ghost setupBatches: nat, ghost frameBatches: nat, ghost fenced: set<Handle>,
               ghost built: SwapChainObjects, ghost answersLeft: seq<SwapChainSupport>)
      requires Valid()
      requires Acquired(acquire) ==> imageIndex < |imagesInFlight|
      modifies this`supportAnswers, this`chain, this`nextHandle, this`trace, this`signalled,
               this`currentFrame, this`imagesInFlight, window
      ensures Valid()
      ensures requested == if earlier
        then old(window.shouldRecreateSwapChain)
             || (old(window.pendingBatches) != []
                 && RecreateKeyIn(old(window.pendingBatches)[0]))
        else old(window.shouldRecreateSwapChain)
      ensures FrameSetup(old(trace), earlier, requested, !drawn, setup)
      ensures setupBatches + frameBatches <= |old(window.pendingBatches)|
      ensures window.pendingBatches == old(window.pendingBatches)[setupBatches..][frameBatches..]
      ensures var handled := AfterBatches(earlier, old(window.Input()), old(window.pendingBatches)[..setupBatches]);
        ready == if requested && drawn then handled.(shouldRecreateSwapChain := false) else handled
      ensures ready.framebufferResized <==>
        old(window.framebufferResized) || ResizeWithin(old(window.pendingBatches), setupBatches)
      ensures drawn ==> !ready.shouldRecreateSwapChain
      ensures !drawn ==> trace == setup && outcome == Blocked && frameBatches == 0 && window.Input() == ready
      ensures fenced == SignalledAfterRebuild(old(signalled), inFlightFences, requested && drawn)
      ensures !drawn ==> signalled == fenced
      ensures ChainAfter(old(chain), old(supportAnswers), built, answersLeft, device.support, FramebufferSize(ready), indices,
                         requested && drawn)
      ensures !drawn ==> chain == built && supportAnswers == answersLeft
      ensures drawn ==>
        FrameDrawn(PlanFrame(earlier, old(CurrentSlot()), old(imagesInFlight), acquire, imageIndex,
                             submitResult, presentResult, ready.framebufferResized),
                   earlier, inFlightFences, old(currentFrame), Acquired(acquire),
                   FencesAfterSubmit(fenced + {inFlightFences[old(currentFrame)]}, inFlightFences, old(currentFrame), Acquired(acquire),
                                     if Acquired(acquire) then old(imagesInFlight)[imageIndex] else None),
                   ready, old(window.pendingBatches)[setupBatches..], setup,
                   trace, outcome, imagesInFlight, currentFrame, signalled, window.Input(), window.pendingBatches,
                   frameBatches, built, answersLeft, chain, supportAnswers, device.support, indices)
    {
      ghost var slot, owners, frame := CurrentSlot(), imagesInFlight, currentFrame;
      ghost var start, batches := window.Input(), window.pendingBatches;
      var blocked;
      blocked, requested, setupBatches := BeforeFrame();
      setup, ready, drawn, frameBatches, fenced := trace, window.Input(), !blocked, 0, signalled;
      built, answersLeft := chain, supportAnswers;
      assert inFlightFences == old(inFlightFences) && imageAvailable == old(imageAvailable) && renderFinished == old(renderFinished);
      assert FrameSetup(old(trace), earlier, requested, !drawn, setup);
      assert fenced == SignalledAfterRebuild(old(signalled), inFlightFences, requested && drawn);
      assert ChainAfter(old(chain), old(supportAnswers), built, answersLeft, device.support, FramebufferSize(ready), indices,
                        requested && drawn);
      assert ready.framebufferResized <==>
        old(window.framebufferResized) || ResizeWithin(old(window.pendingBatches), setupBatches);
      assert setupBatches <= |old(window.pendingBatches)| && window.pendingBatches == old(window.pendingBatches)[setupBatches..];
      assert ready == if requested && drawn
        then AfterBatches(earlier, old(window.Input()), old(window.pendingBatches)[..setupBatches]).(shouldRecreateSwapChain := false)
        else AfterBatches(earlier, old(window.Input()), old(window.pendingBatches)[..setupBatches]);
      if blocked {
        return Blocked, requested, drawn, setup, ready, setupBatches, frameBatches, fenced, built, answersLeft;
      }
      assert CurrentSlot() == slot && imagesInFlight == owners && currentFrame == frame;
      assert window.pendingBatches == batches[setupBatches..] && window.framebufferResized == ready.framebufferResized;
      assert signalled == fenced && chain == built && supportAnswers == answersLeft && window.Input() == ready;
      outcome, frameBatches := DrawFrame(acquire, imageIndex, submitResult, presentResult);
      assert inFlightFences == old(inFlightFences) && imageAvailable == old(imageAvailable) && renderFinished == old(renderFinished);
    }
  }

  /** The setup of both revisions up to the frame loop: the validation
      layer check of createInstance, device selection, then the renderer's
      objects. `availableLayers` are the names the instance reports,
      `devices` the physical devices in enumeration order. */
  method InitRenderer(earlier: bool, window: WindowHandler, availableLayers: seq<string>,
                      devices: seq<PhysicalDevice>, supportAnswers: seq<SwapChainSupport>)
    returns (r: Result<Renderer>)
    requires window.earlier == earlier
    requires forall k :: 0 <= k < |supportAnswers| ==> |supportAnswers[k].formats| > 0
    ensures r.Err? <==>
      (EnableValidationLayers && !CheckValidationLayerSupport(availableLayers))
      || PickPhysicalDevice(devices, !earlier).Err?
    ensures r.Err? && EnableValidationLayers && !CheckValidationLayerSupport(availableLayers) ==>
      r.message == "couldn't find requested validation layers"
    ensures r.Err? && CheckValidationLayerSupport(availableLayers) ==>
      r.message == PickPhysicalDevice(devices, !earlier).message
    ensures r.Ok? ==>
      && fresh(r.value)
      && r.value.Valid()
      && r.value.device == devices[PickPhysicalDevice(devices, !earlier).value]
      && r.value.currentFrame == 0
      && ChainPlanned(r.value.chain, NextSupport(supportAnswers, r.value.device.support), FramebufferSize(window.Input()),
                      FindQueueFamilies(r.value.device.queueFamilies))
      && |r.value.imagesInFlight| == |r.value.chain.images|
      && forall k :: 0 <= k < |r.value.imagesInFlight| ==> r.value.imagesInFlight[k].None?
  {
    if EnableValidationLayers && !CheckValidationLayerSupport(availableLayers) {
      return Err("couldn't find requested validation layers");
    }
    var picked := PickPhysicalDevice(devices, !earlier);
    if picked.Err? {
      return Err(picked.message);
    }
    var renderer := new Renderer(earlier, window, devices[picked.value], supportAnswers);
    return Ok(renderer);
  }
}
