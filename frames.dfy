/** The calls of the frame loop as values: the effects one drawFrame makes
    before any rebuild, how the frame ends, and the calls of the rebuild's
    minimized-window wait. Both renderer revisions are covered; `earlier`
    selects main.cpp's, otherwise renderer.h's. */
module Frames {
  import opened VkTypes

  const MAX_FRAMES_IN_FLIGHT: nat := 2

  const UserRequestedReason: string := "user requested swapchain reset"
  const EarlierUserRequestedReason: string := "user pressed the R key"
  const AcquireOutOfDateReason: string := "swap chain out of date when acquiring image"
  const ResizedReason: string := "frame buffer was resized"
  const PresentOutOfDateReason: string := "presenting image: swap chain out of date or suboptimal"

  const AcquireFailedMessage: string := "failed to acquire swap chain image"
  const SubmitFailedMessage: string := "failed to submit draw command buffer"

  /** The kinds of API objects the renderer creates and destroys. */
  datatype Resource =
    | SwapChainObject
    | ImageViews
    | RenderPass
    | PipelineLayout
    | GraphicsPipeline
    | Framebuffers
    | UniformBuffers
    | UniformBuffersMemory
    | DescriptorPool
    | DescriptorSets
    | CommandBuffers
    | ImageAvailableSemaphores
    | RenderFinishedSemaphores
    | InFlightFences

  /** The calls the renderer makes, in the order it makes them. A submit
      names the image whose command buffer it submits. */
  datatype Effect =
    | PollEvents
    | WaitForFence(fence: Handle)
    | CopyVertices
    | AcquireImage(semaphore: Handle)
    | UpdateUniformBuffer(imageIndex: nat)
    | ResetFence(fence: Handle)
    | Submit(imageIndex: nat, waitSemaphore: Handle, signalSemaphore: Handle, fence: Handle)
    | Present(imageIndex: nat, waitSemaphore: Handle)
    | ClearResizedFlag
    | ClearRecreateFlag
    | Recreate(reason: string)
    | QueryFramebufferSize(width: int, height: int)
    | WaitEvents
    | DeviceWaitIdle
    | Destroy(resource: Resource, handles: seq<Handle>)
    | Create(resource: Resource, handles: seq<Handle>)

  /** How a call ends: normally, with an exception, or never (a wait for
      window events that no event ends). */
  datatype Outcome = Returned | Threw(message: string) | Blocked

  /** The kinds of call the frame properties count. */
  datatype CallKind = SubmitCall | PresentCall | ResetCall | RecreateCall

  predicate IsKind(e: Effect, kind: CallKind) {
    match kind
    case SubmitCall => e.Submit?
    case PresentCall => e.Present?
    case ResetCall => e.ResetFence?
    case RecreateCall => e.Recreate?
  }

  /** The number of calls of kind `kind` in `t`. */
  function CountOf(t: seq<Effect>, kind: CallKind): (r: nat)
    ensures r <= |t|
    decreases |t|
  {
    if t == [] then 0
    else CountOf(t[..|t| - 1], kind) + (if IsKind(t[|t| - 1], kind) then 1 else 0)
  }

  /** Calls none of which is of kind `kind` count none. */
  lemma {:induction false} CountNothing(t: seq<Effect>, kind: CallKind)
    requires forall k :: 0 <= k < |t| ==> !IsKind(t[k], kind)
    ensures CountOf(t, kind) == 0
    decreases |t|
  {
    if t != [] {
      assert forall k :: 0 <= k < |t| - 1 ==> t[..|t| - 1][k] == t[k];
      CountNothing(t[..|t| - 1], kind);
    }
  }

  /** A single call counts once when it is of kind `kind`. */
  lemma CountSingle(e: Effect, kind: CallKind)
    ensures CountOf([e], kind) == if IsKind(e, kind) then 1 else 0
  {
    assert [e][..0] == [];
  }

  lemma {:induction false} CountConcat(a: seq<Effect>, b: seq<Effect>, kind: CallKind)
    ensures CountOf(a + b, kind) == CountOf(a, kind) + CountOf(b, kind)
    decreases |b|
  {
    if b == [] {
      assert a + b == a;
    } else {
      assert (a + b)[..|a + b| - 1] == a + b[..|b| - 1];
      CountConcat(a, b[..|b| - 1], kind);
    }
  }

  /** A reported framebuffer size with a zero dimension: the window is
      minimized. */
  predicate Minimized(size: (int, int)) {
    size.0 == 0 || size.1 == 0
  }

  /** The calls of recreateSwapChain's minimized-window wait: one size query,
      then, for every further reported size, a query followed by a wait for
      events. */
  function WaitLoopEffects(sizes: seq<(int, int)>): (r: seq<Effect>)
    requires |sizes| >= 1
    ensures |r| == 2 * |sizes| - 1
    ensures r[0] == QueryFramebufferSize(sizes[0].0, sizes[0].1)
    ensures forall k :: 0 <= k < |r| ==> r[k].QueryFramebufferSize? || r[k].WaitEvents?
    ensures forall k :: 0 < k < |sizes| ==>
      r[2 * k - 1] == QueryFramebufferSize(sizes[k].0, sizes[k].1) && r[2 * k] == WaitEvents
    decreases |sizes|
  {
    if |sizes| == 1 then [QueryFramebufferSize(sizes[0].0, sizes[0].1)]
    else
      var last := sizes[|sizes| - 1];
      WaitLoopEffects(sizes[..|sizes| - 1]) + [QueryFramebufferSize(last.0, last.1), WaitEvents]
  }

  /** One more size read adds its query and the wait after it. */
  lemma WaitLoopEffectsSnoc(sizes: seq<(int, int)>, size: (int, int))
    requires |sizes| >= 1
    ensures WaitLoopEffects(sizes + [size]) == WaitLoopEffects(sizes) + [QueryFramebufferSize(size.0, size.1), WaitEvents]
  {
    assert (sizes + [size])[..|sizes|] == sizes;
  }

  /** The calls a rebuild makes after its start: queries, waits, the idle
      wait, destruction and creation, and nothing of a frame. */
  predicate RebuildEffect(e: Effect) {
    e.QueryFramebufferSize? || e.WaitEvents? || e.DeviceWaitIdle? || e.Destroy? || e.Create?
  }

  predicate RebuildOnly(t: seq<Effect>) {
    forall k :: 0 <= k < |t| ==> RebuildEffect(t[k])
  }

  lemma RebuildOnlyConcat(a: seq<Effect>, b: seq<Effect>)
    requires RebuildOnly(a) && RebuildOnly(b)
    ensures RebuildOnly(a + b)
  {
    assert forall k :: 0 <= k < |a + b| ==> (a + b)[k] == if k < |a| then a[k] else b[k - |a|];
  }

  /** A call of the frame itself: neither part of a rebuild nor a
      Recreate. */
  predicate FrameEffect(e: Effect) {
    !RebuildEffect(e) && !e.Recreate?
  }

  predicate FrameOnly(t: seq<Effect>) {
    forall k :: 0 <= k < |t| ==> FrameEffect(t[k])
  }

  /** A frame's calls leave the rebuild to recreateSwapChain: a frame
      followed by one Recreate and a rebuild's own calls recreates exactly
      once. */
  lemma {:induction false} RecreatesOnce(calls: seq<Effect>, reason: string, rest: seq<Effect>)
    requires FrameOnly(calls)
    requires RebuildOnly(rest)
    ensures CountOf(calls + [Recreate(reason)] + rest, RecreateCall) == 1
    ensures CountOf(calls + [Recreate(reason)] + rest, SubmitCall) == CountOf(calls, SubmitCall)
    ensures CountOf(calls + [Recreate(reason)] + rest, PresentCall) == CountOf(calls, PresentCall)
  {
    CountConcat(calls, [Recreate(reason)], RecreateCall);
    CountConcat(calls + [Recreate(reason)], rest, RecreateCall);
    CountConcat(calls, [Recreate(reason)], SubmitCall);
    CountConcat(calls + [Recreate(reason)], rest, SubmitCall);
    CountConcat(calls, [Recreate(reason)], PresentCall);
    CountConcat(calls + [Recreate(reason)], rest, PresentCall);
    CountSingle(Recreate(reason), RecreateCall);
    CountSingle(Recreate(reason), SubmitCall);
    CountSingle(Recreate(reason), PresentCall);
    assert forall k :: 0 <= k < |rest| ==> !IsKind(rest[k], RecreateCall) && !IsKind(rest[k], SubmitCall) && !IsKind(rest[k], PresentCall);
    CountNothing(rest, RecreateCall);
    CountNothing(rest, SubmitCall);
    CountNothing(rest, PresentCall);
    assert forall k :: 0 <= k < |calls| ==> !IsKind(calls[k], RecreateCall);
    CountNothing(calls, RecreateCall);
  }

  /** One frame slot: its image-available and render-finished semaphores
      and its in-flight fence. */
  datatype FrameSlot = FrameSlot(imageAvailable: Handle, renderFinished: Handle, fence: Handle)

  /** The calls of one drawFrame before any rebuild; the rebuild it asks for
      (with its reason), the exception it throws, the new imagesInFlight_,
      and whether it reaches its end and advances currentFrame_. */
  datatype FramePlan = FramePlan(
    calls: seq<Effect>,
    rebuild: Option<string>,
    thrown: Option<string>,
    imagesInFlight: seq<Option<Handle>>,
    advances: bool)

  /** The frame slot after `current`: `(currentFrame_ + 1) % MAX_FRAMES_IN_FLIGHT`. */
  function NextFrame(current: nat): (r: nat)
    ensures r < MAX_FRAMES_IN_FLIGHT
    ensures current < MAX_FRAMES_IN_FLIGHT ==> r != current
  {
    (current + 1) % MAX_FRAMES_IN_FLIGHT
  }

  /** The slot after a drawFrame with plan `p` that ended with `outcome`:
      the next one when the frame reached its end, otherwise the same. */
  function SlotAfter(p: FramePlan, outcome: Outcome, current: nat): nat {
    if p.advances && outcome == Returned then NextFrame(current) else current
  }

  /** An acquire result after which drawFrame goes on: SUBOPTIMAL is still
      usable. */
  predicate Acquired(acquire: VkResult) {
    acquire == Success || acquire == Suboptimal
  }

  predicate PresentWantsRebuild(presentResult: VkResult, resized: bool) {
    presentResult == ErrorOutOfDate || presentResult == Suboptimal || resized
  }

  /** Calls that are frame calls and neither submit, reset nor present. */
  predicate Preparation(t: seq<Effect>) {
    forall k :: 0 <= k < |t| ==> FrameEffect(t[k]) && !t[k].Submit? && !t[k].ResetFence? && !t[k].Present?
  }

  /** The start of drawFrame: the slot's fence wait, the vertex copy of the
      earlier revision, and the acquire. */
  function AcquireCalls(earlier: bool, slot: FrameSlot): (r: seq<Effect>)
    ensures |r| == if earlier then 3 else 2
    ensures r[0] == WaitForFence(slot.fence) && r[|r| - 1] == AcquireImage(slot.imageAvailable)
    ensures earlier ==> r[1] == CopyVertices
  {
    [WaitForFence(slot.fence)] + (if earlier then [CopyVertices] else []) + [AcquireImage(slot.imageAvailable)]
  }

  /** The calls between the acquire and the fence reset: the wait for the
      image's previous owner, if any, and the uniform update of
      renderer.h. */
  function GuardCalls(earlier: bool, imageIndex: nat, owner: Option<Handle>): (r: seq<Effect>)
    ensures |r| == (if owner.Some? then 1 else 0) + (if earlier then 0 else 1)
    ensures owner.Some? ==> r[0] == WaitForFence(owner.value)
  {
    (if owner.Some? then [WaitForFence(owner.value)] else []) + (if earlier then [] else [UpdateUniformBuffer(imageIndex)])
  }

  /** The calls from the acquire on up to and including the submit: the
      guard, the reset of the slot fence, and the submit that waits on the
      slot's image-available semaphore and signals its render-finished
      semaphore and its fence. */
  function SubmitCalls(earlier: bool, slot: FrameSlot, imageIndex: nat, owner: Option<Handle>): (r: seq<Effect>)
    ensures |r| == |GuardCalls(earlier, imageIndex, owner)| + 2
    ensures owner.Some? ==> r[0] == WaitForFence(owner.value)
    ensures r[|r| - 2] == ResetFence(slot.fence)
    ensures r[|r| - 1] == Submit(imageIndex, slot.imageAvailable, slot.renderFinished, slot.fence)
  {
    var guard := GuardCalls(earlier, imageIndex, owner);
    guard + [ResetFence(slot.fence), Submit(imageIndex, slot.imageAvailable, slot.renderFinished, slot.fence)]
  }

  /** The position of the submit among a frame's calls. */
  function SubmitIndex(earlier: bool, owner: Option<Handle>): nat {
    |AcquireCalls(earlier, FrameSlot(0, 0, 0))| + (if owner.Some? then 1 else 0) + (if earlier then 0 else 1) + 1
  }

  /** `p` with `calls` made before its own. */
  function Prepend(calls: seq<Effect>, p: FramePlan): FramePlan {
    p.(calls := calls + p.calls)
  }

  /** The end of drawFrame after a successful submit: the present, then
      either a rebuild (with the resize flag cleared first), an exception,
      or the end of the frame. */
  function PresentFrame(imageIndex: nat, slot: FrameSlot, owners: seq<Option<Handle>>,
                        presentResult: VkResult, resized: bool): (r: FramePlan)
    ensures |r.calls| >= 1 && r.calls[0] == Present(imageIndex, slot.renderFinished)
    ensures r.calls[1..] == if PresentWantsRebuild(presentResult, resized) then [ClearResizedFlag] else []
    ensures r.rebuild.Some? <==> PresentWantsRebuild(presentResult, resized)
    ensures r.rebuild.Some? ==> r.rebuild.value == if resized then ResizedReason else PresentOutOfDateReason
    ensures r.thrown.Some? <==> !PresentWantsRebuild(presentResult, resized) && presentResult != Success
    ensures r.thrown.Some? ==> r.thrown.value == AcquireFailedMessage
    ensures r.advances <==> r.thrown.None?
    ensures r.imagesInFlight == owners
  {
    var ending := if PresentWantsRebuild(presentResult, resized) then [ClearResizedFlag] else [];
    var presented := [Present(imageIndex, slot.renderFinished)] + ending;
    if PresentWantsRebuild(presentResult, resized) then
      FramePlan(presented, Some(if resized then ResizedReason else PresentOutOfDateReason), None, owners, true)
    else if presentResult != Success then
      FramePlan(presented, None, Some(AcquireFailedMessage), owners, false)
    else
      FramePlan(presented, None, None, owners, true)
  }

  /** drawFrame after an image was acquired: the guard on the image's
      previous owner, the owner record, the fence reset and the submit,
      then the present phase unless the submit failed. */
  function SubmitFrame(earlier: bool, slot: FrameSlot, imagesInFlight: seq<Option<Handle>>, imageIndex: nat,
                       submitResult: VkResult, presentResult: VkResult, resized: bool): (r: FramePlan)
    requires imageIndex < |imagesInFlight|
    ensures r.imagesInFlight == imagesInFlight[imageIndex := Some(slot.fence)]
    ensures submitResult != Success ==> r.thrown == Some(SubmitFailedMessage) && r.rebuild.None? && !r.advances
  {
    var submitted := SubmitCalls(earlier, slot, imageIndex, imagesInFlight[imageIndex]);
    var owners := imagesInFlight[imageIndex := Some(slot.fence)];
    if submitResult != Success then
      FramePlan(submitted, None, Some(SubmitFailedMessage), owners, false)
    else
      Prepend(submitted, PresentFrame(imageIndex, slot, owners, presentResult, resized))
  }

  /** drawFrame after the acquire returned `acquire`. */
  function AfterAcquire(earlier: bool, slot: FrameSlot, imagesInFlight: seq<Option<Handle>>,
                        acquire: VkResult, imageIndex: nat, submitResult: VkResult, presentResult: VkResult,
                        resized: bool): (r: FramePlan)
    requires Acquired(acquire) ==> imageIndex < |imagesInFlight|
    ensures !Acquired(acquire) ==> r.calls == [] && r.imagesInFlight == imagesInFlight && !r.advances
  {
    if acquire == ErrorOutOfDate then
      FramePlan([], Some(AcquireOutOfDateReason), None, imagesInFlight, false)
    else if !Acquired(acquire) then
      FramePlan([], None, Some(AcquireFailedMessage), imagesInFlight, false)
    else
      SubmitFrame(earlier, slot, imagesInFlight, imageIndex, submitResult, presentResult, resized)
  }

  /** drawFrame for frame slot `slot`, given the results of acquire, submit
      and present, the acquired image index and the window's resize flag as
      it reads at present time. How the frame ends is PlanFrameEnds. */
  function PlanFrame(earlier: bool, slot: FrameSlot, imagesInFlight: seq<Option<Handle>>,
                     acquire: VkResult, imageIndex: nat, submitResult: VkResult, presentResult: VkResult,
                     resized: bool): (r: FramePlan)
    requires Acquired(acquire) ==> imageIndex < |imagesInFlight|
    // the slot's fence is waited on first; the earlier revision copies the
    // vertices between that wait and the acquire
    ensures CallsStart(earlier, slot, r.calls)
  {
    var r := Prepend(AcquireCalls(earlier, slot),
                     AfterAcquire(earlier, slot, imagesInFlight, acquire, imageIndex, submitResult, presentResult, resized));
    assert r.calls[..|AcquireCalls(earlier, slot)|] == AcquireCalls(earlier, slot);
    r
  }

  /** The first calls of every frame. */
  predicate CallsStart(earlier: bool, slot: FrameSlot, calls: seq<Effect>) {
    && |calls| >= |AcquireCalls(earlier, slot)|
    && calls[..|AcquireCalls(earlier, slot)|] == AcquireCalls(earlier, slot)
  }

  /** How a frame ends: a rebuild when the acquire reports the swap chain
      out of date, or when the present does or the window was resized; an
      exception for any other failed acquire, a failed submit, or a failed
      present; the slot advances when the frame reaches its end; the image
      is recorded as owned by the slot fence once acquired. */
  lemma PlanFrameEnds(earlier: bool, slot: FrameSlot, imagesInFlight: seq<Option<Handle>>,
                      acquire: VkResult, imageIndex: nat, submitResult: VkResult, presentResult: VkResult,
                      resized: bool)
    requires Acquired(acquire) ==> imageIndex < |imagesInFlight|
    ensures var r := PlanFrame(earlier, slot, imagesInFlight, acquire, imageIndex, submitResult, presentResult, resized);
      && (r.rebuild.Some? <==>
            acquire == ErrorOutOfDate || (Acquired(acquire) && submitResult == Success && PresentWantsRebuild(presentResult, resized)))
      && (acquire == ErrorOutOfDate ==> r.rebuild == Some(AcquireOutOfDateReason))
      && (Acquired(acquire) && r.rebuild.Some? ==>
            r.rebuild.value == if resized then ResizedReason else PresentOutOfDateReason)
      && (r.thrown.Some? <==>
            || (!Acquired(acquire) && acquire != ErrorOutOfDate)
            || (Acquired(acquire) && submitResult != Success)
            || (Acquired(acquire) && submitResult == Success && !PresentWantsRebuild(presentResult, resized) && presentResult != Success))
      && (Acquired(acquire) && submitResult != Success ==> r.thrown == Some(SubmitFailedMessage))
      && (r.thrown.Some? && !(Acquired(acquire) && submitResult != Success) ==> r.thrown == Some(AcquireFailedMessage))
      && (r.rebuild.Some? ==> r.thrown.None?)
      && (r.advances <==> Acquired(acquire) && submitResult == Success && r.thrown.None?)
      && r.imagesInFlight == (if Acquired(acquire) then imagesInFlight[imageIndex := Some(slot.fence)] else imagesInFlight)
      && (!Acquired(acquire) ==> r.calls == AcquireCalls(earlier, slot))
  {
    if !Acquired(acquire) {
      assert AcquireCalls(earlier, slot) + [] == AcquireCalls(earlier, slot);
    }
  }

  /** The calls before the fence reset prepare the frame: they neither
      submit, reset nor present, and belong to no rebuild. */
  lemma PreparationCalls(earlier: bool, slot: FrameSlot, imageIndex: nat, owner: Option<Handle>)
    ensures Preparation(AcquireCalls(earlier, slot))
    ensures Preparation(GuardCalls(earlier, imageIndex, owner))
  {
  }

  /** Calls that do not submit, reset or present count none of those. */
  lemma PreparationCountsNothing(t: seq<Effect>)
    requires Preparation(t)
    ensures CountOf(t, SubmitCall) == 0 && CountOf(t, ResetCall) == 0 && CountOf(t, PresentCall) == 0
  {
    assert forall k :: 0 <= k < |t| ==> !IsKind(t[k], SubmitCall) && !IsKind(t[k], ResetCall) && !IsKind(t[k], PresentCall);
    CountNothing(t, SubmitCall);
    CountNothing(t, ResetCall);
    CountNothing(t, PresentCall);
  }

  /** The fence reset and the submit after it: one reset, one submit, no
      present. */
  lemma {:induction false} ResetSubmitCounts(reset: Effect, submit: Effect)
    requires reset.ResetFence? && submit.Submit?
    ensures var t := [reset] + [submit];
      CountOf(t, SubmitCall) == 1 && CountOf(t, ResetCall) == 1 && CountOf(t, PresentCall) == 0
  {
    CountSingle(reset, SubmitCall);
    CountSingle(reset, ResetCall);
    CountSingle(reset, PresentCall);
    CountSingle(submit, SubmitCall);
    CountSingle(submit, ResetCall);
    CountSingle(submit, PresentCall);
    CountConcat([reset], [submit], SubmitCall);
    CountConcat([reset], [submit], ResetCall);
    CountConcat([reset], [submit], PresentCall);
  }

  /** The calls of the submit phase hold one reset and one submit, and no
      present. */
  lemma {:induction false} SubmitCallsCounts(earlier: bool, slot: FrameSlot, imageIndex: nat, owner: Option<Handle>)
    ensures var t := SubmitCalls(earlier, slot, imageIndex, owner);
      CountOf(t, SubmitCall) == 1 && CountOf(t, ResetCall) == 1 && CountOf(t, PresentCall) == 0
  {
    var guard := GuardCalls(earlier, imageIndex, owner);
    PreparationCalls(earlier, slot, imageIndex, owner);
    var reset := ResetFence(slot.fence);
    var submit := Submit(imageIndex, slot.imageAvailable, slot.renderFinished, slot.fence);
    var tail := [reset] + [submit];
    assert SubmitCalls(earlier, slot, imageIndex, owner) == guard + tail;
    PreparationCountsNothing(guard);
    ResetSubmitCounts(reset, submit);
    CountConcat(guard, tail, SubmitCall);
    CountConcat(guard, tail, ResetCall);
    CountConcat(guard, tail, PresentCall);
  }

  /** The present phase presents once and neither submits nor resets. */
  lemma {:induction false} PresentCounts(imageIndex: nat, slot: FrameSlot, owners: seq<Option<Handle>>,
                                         presentResult: VkResult, resized: bool)
    ensures var q := PresentFrame(imageIndex, slot, owners, presentResult, resized);
      CountOf(q.calls, SubmitCall) == 0 && CountOf(q.calls, ResetCall) == 0 && CountOf(q.calls, PresentCall) == 1
  {
    var q := PresentFrame(imageIndex, slot, owners, presentResult, resized);
    var presented := Present(imageIndex, slot.renderFinished);
    var present := [presented];
    var ending := q.calls[1..];
    assert q.calls == present + ending;
    assert forall k :: 0 <= k < |ending| ==> !IsKind(ending[k], SubmitCall) && !IsKind(ending[k], ResetCall) && !IsKind(ending[k], PresentCall);
    CountNothing(ending, SubmitCall);
    CountNothing(ending, ResetCall);
    CountNothing(ending, PresentCall);
    CountSingle(presented, SubmitCall);
    CountSingle(presented, ResetCall);
    CountSingle(presented, PresentCall);
    CountConcat(present, ending, SubmitCall);
    CountConcat(present, ending, ResetCall);
    CountConcat(present, ending, PresentCall);
  }

  /** After an acquired image, the frame submits and resets once, and
      presents once when the submit succeeded. */
  lemma {:induction false} SubmitFrameCounts(earlier: bool, slot: FrameSlot, imagesInFlight: seq<Option<Handle>>,
                                             imageIndex: nat, submitResult: VkResult, presentResult: VkResult,
                                             resized: bool)
    requires imageIndex < |imagesInFlight|
    ensures var t := SubmitFrame(earlier, slot, imagesInFlight, imageIndex, submitResult, presentResult, resized).calls;
      && CountOf(t, SubmitCall) == 1
      && CountOf(t, ResetCall) == 1
      && CountOf(t, PresentCall) == (if submitResult == Success then 1 else 0)
  {
    var submitted := SubmitCalls(earlier, slot, imageIndex, imagesInFlight[imageIndex]);
    SubmitCallsCounts(earlier, slot, imageIndex, imagesInFlight[imageIndex]);
    if submitResult == Success {
      var owners := imagesInFlight[imageIndex := Some(slot.fence)];
      var q := PresentFrame(imageIndex, slot, owners, presentResult, resized);
      assert SubmitFrame(earlier, slot, imagesInFlight, imageIndex, submitResult, presentResult, resized).calls
        == submitted + q.calls;
      PresentCounts(imageIndex, slot, owners, presentResult, resized);
      CountConcat(submitted, q.calls, SubmitCall);
      CountConcat(submitted, q.calls, ResetCall);
      CountConcat(submitted, q.calls, PresentCall);
    }
  }

  /** The calls after the acquire submit and reset once when an image was
      acquired, and present once when the submit also succeeded. */
  lemma {:induction false} AfterAcquireCounts(earlier: bool, slot: FrameSlot, imagesInFlight: seq<Option<Handle>>,
                                              acquire: VkResult, imageIndex: nat, submitResult: VkResult,
                                              presentResult: VkResult, resized: bool)
    requires Acquired(acquire) ==> imageIndex < |imagesInFlight|
    ensures var t := AfterAcquire(earlier, slot, imagesInFlight, acquire, imageIndex, submitResult, presentResult, resized).calls;
      && CountOf(t, SubmitCall) == (if Acquired(acquire) then 1 else 0)
      && CountOf(t, ResetCall) == (if Acquired(acquire) then 1 else 0)
      && CountOf(t, PresentCall) == (if Acquired(acquire) && submitResult == Success then 1 else 0)
  {
    if Acquired(acquire) {
      SubmitFrameCounts(earlier, slot, imagesInFlight, imageIndex, submitResult, presentResult, resized);
    }
  }

  /** A frame submits and resets a fence exactly once when it acquired an
      image, and never otherwise; it presents exactly once when the submit
      also succeeded. SUBOPTIMAL counts as acquired. */
  lemma {:induction false} FrameSubmitsOnce(earlier: bool, slot: FrameSlot, imagesInFlight: seq<Option<Handle>>,
                                            acquire: VkResult, imageIndex: nat, submitResult: VkResult,
                                            presentResult: VkResult, resized: bool)
    requires Acquired(acquire) ==> imageIndex < |imagesInFlight|
    ensures var r := PlanFrame(earlier, slot, imagesInFlight, acquire, imageIndex, submitResult, presentResult, resized);
      && CountOf(r.calls, SubmitCall) == (if Acquired(acquire) then 1 else 0)
      && CountOf(r.calls, ResetCall) == (if Acquired(acquire) then 1 else 0)
      && CountOf(r.calls, PresentCall) == (if Acquired(acquire) && submitResult == Success then 1 else 0)
  {
    var acquired := AcquireCalls(earlier, slot);
    var rest := AfterAcquire(earlier, slot, imagesInFlight, acquire, imageIndex, submitResult, presentResult, resized).calls;
    PreparationCalls(earlier, slot, imageIndex, None);
    PreparationCountsNothing(acquired);
    AfterAcquireCounts(earlier, slot, imagesInFlight, acquire, imageIndex, submitResult, presentResult, resized);
    CountConcat(acquired, rest, SubmitCall);
    CountConcat(acquired, rest, ResetCall);
    CountConcat(acquired, rest, PresentCall);
  }

  /** The order of the calls after an acquired image: the guard, the reset
      of the slot fence, the submit, then the present and its ending when
      the submit succeeded. */
  lemma {:induction false} SubmitFrameOrder(earlier: bool, slot: FrameSlot, imagesInFlight: seq<Option<Handle>>,
                                            imageIndex: nat, submitResult: VkResult, presentResult: VkResult,
                                            resized: bool)
    requires imageIndex < |imagesInFlight|
    ensures var r := SubmitFrame(earlier, slot, imagesInFlight, imageIndex, submitResult, presentResult, resized).calls;
      var owner := imagesInFlight[imageIndex];
      var g := |GuardCalls(earlier, imageIndex, owner)|;
      && g + 1 < |r|
      && Preparation(r[..g])
      && (owner.Some? ==> r[0] == WaitForFence(owner.value))
      && r[g] == ResetFence(slot.fence)
      && r[g + 1] == Submit(imageIndex, slot.imageAvailable, slot.renderFinished, slot.fence)
      && (submitResult != Success ==> |r| == g + 2)
      && (submitResult == Success ==>
            && g + 2 < |r| && r[g + 2] == Present(imageIndex, slot.renderFinished)
            && r[g + 3..] == if PresentWantsRebuild(presentResult, resized) then [ClearResizedFlag] else [])
  {
    var owner := imagesInFlight[imageIndex];
    var guard := GuardCalls(earlier, imageIndex, owner);
    var g := |guard|;
    var submitted := SubmitCalls(earlier, slot, imageIndex, owner);
    PreparationCalls(earlier, slot, imageIndex, owner);
    assert submitted[..g] == guard;
    if submitResult == Success {
      var q := PresentFrame(imageIndex, slot, imagesInFlight[imageIndex := Some(slot.fence)], presentResult, resized).calls;
      var r := submitted + q;
      assert SubmitFrame(earlier, slot, imagesInFlight, imageIndex, submitResult, presentResult, resized).calls == r;
      AppendOrder(submitted, q, g);
    } else {
      assert SubmitFrame(earlier, slot, imagesInFlight, imageIndex, submitResult, presentResult, resized).calls == submitted;
    }
  }

  /** The order of a frame that acquired an image: the wait for the image's
      previous owner right after the acquire, the slot fence reset right
      before the submit that signals it, and the present right after the
      submit, waiting on the semaphore the submit signals. */
  lemma {:induction false} FrameOrder(earlier: bool, slot: FrameSlot, imagesInFlight: seq<Option<Handle>>,
                                      acquire: VkResult, imageIndex: nat, submitResult: VkResult,
                                      presentResult: VkResult, resized: bool)
    requires Acquired(acquire) && imageIndex < |imagesInFlight|
    ensures var r := PlanFrame(earlier, slot, imagesInFlight, acquire, imageIndex, submitResult, presentResult, resized);
      var s := SubmitIndex(earlier, imagesInFlight[imageIndex]);
      && s < |r.calls|
      && Preparation(r.calls[..s - 1])
      && r.calls[s - 1] == ResetFence(slot.fence)
      && r.calls[s] == Submit(imageIndex, slot.imageAvailable, slot.renderFinished, slot.fence)
      && (imagesInFlight[imageIndex].Some? ==>
            r.calls[|AcquireCalls(earlier, slot)|] == WaitForFence(imagesInFlight[imageIndex].value))
      && (submitResult != Success ==> |r.calls| == s + 1)
      && (submitResult == Success ==>
            && s + 1 < |r.calls| && r.calls[s + 1] == Present(imageIndex, slot.renderFinished)
            && r.calls[s + 2..] == if PresentWantsRebuild(presentResult, resized) then [ClearResizedFlag] else [])
  {
    var acquired := AcquireCalls(earlier, slot);
    var sub := SubmitFrame(earlier, slot, imagesInFlight, imageIndex, submitResult, presentResult, resized).calls;
    PlanAcquiredCalls(earlier, slot, imagesInFlight, acquire, imageIndex, submitResult, presentResult, resized);
    var g := |GuardCalls(earlier, imageIndex, imagesInFlight[imageIndex])|;
    assert |acquired| + g + 1 == SubmitIndex(earlier, imagesInFlight[imageIndex]);
    SubmitFrameOrder(earlier, slot, imagesInFlight, imageIndex, submitResult, presentResult, resized);
    PreparationCalls(earlier, slot, imageIndex, None);
    PrependOrder(acquired, sub, g);
  }

  /** A frame that acquired an image makes the acquire calls, then those
      of SubmitFrame. */
  lemma PlanAcquiredCalls(earlier: bool, slot: FrameSlot, imagesInFlight: seq<Option<Handle>>,
                          acquire: VkResult, imageIndex: nat, submitResult: VkResult,
                          presentResult: VkResult, resized: bool)
    requires Acquired(acquire) && imageIndex < |imagesInFlight|
    ensures PlanFrame(earlier, slot, imagesInFlight, acquire, imageIndex, submitResult, presentResult, resized).calls
         == AcquireCalls(earlier, slot) + SubmitFrame(earlier, slot, imagesInFlight, imageIndex, submitResult, presentResult, resized).calls
  {
  }

  /** Preparation calls made before `b` keep `b`'s order, shifted by their
      number. */
  lemma PrependOrder(a: seq<Effect>, b: seq<Effect>, g: nat)
    requires Preparation(a) && g + 1 < |b| && Preparation(b[..g])
    ensures Preparation((a + b)[..|a| + g])
    ensures (a + b)[|a|] == b[0] && (a + b)[|a| + g] == b[g] && (a + b)[|a| + g + 1] == b[g + 1]
    ensures |a + b| == |a| + |b|
    ensures g + 2 < |b| ==> (a + b)[|a| + g + 2] == b[g + 2] && (a + b)[|a| + g + 3..] == b[g + 3..]
  {
    TakeConcat(a, b, g);
    PreparationConcat(a, b[..g]);
    if g + 2 < |b| {
      DropConcat(a, b, g + 3);
    }
  }

  /** Calls made after the `g + 2` calls of `a` keep `a` in front. */
  lemma AppendOrder(a: seq<Effect>, b: seq<Effect>, g: nat)
    requires |a| == g + 2 && 0 < |b|
    ensures (a + b)[..g] == a[..g]
    ensures (a + b)[g] == a[g] && (a + b)[g + 1] == a[g + 1] && (a + b)[g + 2] == b[0]
    ensures (a + b)[g + 3..] == b[1..]
  {
    assert (a + b)[g + 3..] == (a + b)[|a| + 1..];
    DropConcat(a, b, 1);
  }

  lemma TakeConcat(a: seq<Effect>, b: seq<Effect>, n: nat)
    requires n <= |b|
    ensures (a + b)[..|a| + n] == a + b[..n]
  {
  }

  lemma DropConcat(a: seq<Effect>, b: seq<Effect>, n: nat)
    requires n <= |b|
    ensures (a + b)[|a| + n..] == b[n..]
  {
  }

  lemma PreparationConcat(a: seq<Effect>, b: seq<Effect>)
    requires Preparation(a) && Preparation(b)
    ensures Preparation(a + b)
  {
    assert forall k :: 0 <= k < |a + b| ==> (a + b)[k] == if k < |a| then a[k] else b[k - |a|];
  }

  /** A frame's preparation calls are frame calls. */
  lemma PreparationFrameOnly(t: seq<Effect>)
    requires Preparation(t)
    ensures FrameOnly(t)
  {
  }

  /** None of the calls after an acquired image belongs to a rebuild. */
  lemma {:induction false} SubmitFrameOnly(earlier: bool, slot: FrameSlot, imagesInFlight: seq<Option<Handle>>,
                                           imageIndex: nat, submitResult: VkResult, presentResult: VkResult,
                                           resized: bool)
    requires imageIndex < |imagesInFlight|
    ensures FrameOnly(SubmitFrame(earlier, slot, imagesInFlight, imageIndex, submitResult, presentResult, resized).calls)
  {
    var owner := imagesInFlight[imageIndex];
    var guard := GuardCalls(earlier, imageIndex, owner);
    var tail := [ResetFence(slot.fence), Submit(imageIndex, slot.imageAvailable, slot.renderFinished, slot.fence)];
    PreparationCalls(earlier, slot, imageIndex, owner);
    PreparationFrameOnly(guard);
    assert FrameOnly(tail);
    FrameOnlyConcat(guard, tail);
    assert SubmitCalls(earlier, slot, imageIndex, owner) == guard + tail;
    if submitResult == Success {
      var q := PresentFrame(imageIndex, slot, imagesInFlight[imageIndex := Some(slot.fence)], presentResult, resized);
      var ending := q.calls[1..];
      assert q.calls == [q.calls[0]] + ending;
      assert FrameOnly([q.calls[0]]) && FrameOnly(ending);
      FrameOnlyConcat([q.calls[0]], ending);
      FrameOnlyConcat(guard + tail, q.calls);
    }
  }

  /** None of a frame's own calls belongs to a rebuild. */
  lemma {:induction false} PlanFrameOnly(earlier: bool, slot: FrameSlot, imagesInFlight: seq<Option<Handle>>,
                                         acquire: VkResult, imageIndex: nat, submitResult: VkResult,
                                         presentResult: VkResult, resized: bool)
    requires Acquired(acquire) ==> imageIndex < |imagesInFlight|
    ensures FrameOnly(PlanFrame(earlier, slot, imagesInFlight, acquire, imageIndex, submitResult, presentResult, resized).calls)
  {
    var acquired := AcquireCalls(earlier, slot);
    var rest := AfterAcquire(earlier, slot, imagesInFlight, acquire, imageIndex, submitResult, presentResult, resized).calls;
    if Acquired(acquire) {
      SubmitFrameOnly(earlier, slot, imagesInFlight, imageIndex, submitResult, presentResult, resized);
    }
    PreparationCalls(earlier, slot, imageIndex, None);
    PreparationFrameOnly(acquired);
    FrameOnlyConcat(acquired, rest);
  }

  lemma FrameOnlyConcat(a: seq<Effect>, b: seq<Effect>)
    requires FrameOnly(a) && FrameOnly(b)
    ensures FrameOnly(a + b)
  {
    assert forall k :: 0 <= k < |a + b| ==> (a + b)[k] == if k < |a| then a[k] else b[k - |a|];
  }

  /** A plan realised after `prefix + calls` is the plan with `calls`
      prepended realised after `prefix`. */
  lemma RealisesPrepend(prefix: seq<Effect>, calls: seq<Effect>, p: FramePlan, t: seq<Effect>, outcome: Outcome)
    requires Realises(prefix + calls, p, t, outcome)
    ensures Realises(prefix, Prepend(calls, p), t, outcome)
  {
    assert prefix + calls + p.calls == prefix + (calls + p.calls);
  }

  /** `t` continues `prefix` with one Recreate for `reason`, followed only by
      calls of the rebuild itself. */
  predicate RecreatedAfter(prefix: seq<Effect>, reason: string, t: seq<Effect>) {
    && |t| > |prefix|
    && t[..|prefix| + 1] == prefix + [Recreate(reason)]
    && RebuildOnly(t[|prefix| + 1..])
  }

  /** A Recreate followed by rebuild calls only, in two parts. */
  lemma RecreatedAfterParts(prefix: seq<Effect>, reason: string, waited: seq<Effect>, rebuilt: seq<Effect>)
    requires RebuildOnly(waited) && RebuildOnly(rebuilt)
    ensures RecreatedAfter(prefix, reason, prefix + [Recreate(reason)] + waited + rebuilt)
  {
    var t := prefix + [Recreate(reason)] + waited + rebuilt;
    assert t[..|prefix| + 1] == prefix + [Recreate(reason)];
    assert t[|prefix| + 1..] == waited + rebuilt;
    RebuildOnlyConcat(waited, rebuilt);
  }

  /** The trace `t` and the outcome are what plan `p` says a drawFrame
      starting after `prefix` does: the plan's calls, then either one
      recreateSwapChain (which returns, or blocks in its wait), or the end of
      the call with the plan's exception, if any. */
  predicate Realises(prefix: seq<Effect>, p: FramePlan, t: seq<Effect>, outcome: Outcome) {
    if p.rebuild.Some? then
      RecreatedAfter(prefix + p.calls, p.rebuild.value, t) && (outcome == Returned || outcome == Blocked)
    else
      t == prefix + p.calls && outcome == if p.thrown.Some? then Threw(p.thrown.value) else Returned
  }

  /** What the start of draw leaves after `start`: the earlier revision
      polls events; a requested rebuild follows, and when it returns the
      request flag is cleared. `blocked` says the rebuild blocked. */
  predicate FrameSetup(start: seq<Effect>, earlier: bool, requested: bool, blocked: bool, t: seq<Effect>) {
    var polled := start + (if earlier then [PollEvents] else []);
    var reason := if earlier then EarlierUserRequestedReason else UserRequestedReason;
    && (blocked ==> requested)
    && (!requested ==> t == polled)
    && (blocked ==> RecreatedAfter(polled, reason, t))
    && (requested && !blocked ==>
          && |t| > |polled| && t[|t| - 1] == ClearRecreateFlag
          && RecreatedAfter(polled, reason, t[..|t| - 1]))
  }

  /** A realised plan continues its prefix with at least one call. */
  lemma RealisesPrefix(prefix: seq<Effect>, p: FramePlan, t: seq<Effect>, outcome: Outcome)
    requires Realises(prefix, p, t, outcome)
    requires |p.calls| > 0
    ensures |t| > |prefix| && t[..|prefix|] == prefix
  {
    if p.rebuild.Some? {
      assert t[..|prefix| + |p.calls| + 1][..|prefix|] == prefix;
    }
  }

  /** A realised plan whose calls are all frame calls recreates exactly
      when the plan asks for it, and submits and presents as often as the
      plan's calls do. */
  lemma {:induction false} RealisedCounts(prefix: seq<Effect>, p: FramePlan, t: seq<Effect>, outcome: Outcome)
    requires FrameOnly(p.calls)
    requires Realises(prefix, p, t, outcome)
    ensures |t| >= |prefix| && t[..|prefix|] == prefix
    ensures CountOf(t[|prefix|..], RecreateCall) == if p.rebuild.Some? then 1 else 0
    ensures CountOf(t[|prefix|..], SubmitCall) == CountOf(p.calls, SubmitCall)
    ensures CountOf(t[|prefix|..], PresentCall) == CountOf(p.calls, PresentCall)
  {
    var n := |prefix| + |p.calls|;
    if p.rebuild.Some? {
      var rest := t[n + 1..];
      assert t[..n] == prefix + p.calls;
      assert t[|prefix|..] == p.calls + [Recreate(p.rebuild.value)] + rest;
      RecreatesOnce(p.calls, p.rebuild.value, rest);
    } else {
      assert t[|prefix|..] == p.calls;
      assert forall k :: 0 <= k < |p.calls| ==> !IsKind(p.calls[k], RecreateCall);
      CountNothing(p.calls, RecreateCall);
    }
  }

  /** A whole frame, rebuild included: it recreates the swap chain at most
      once, exactly when the plan asks for it; it submits once when it
      acquired an image and presents once when the submit also succeeded. */
  lemma {:induction false} RealisedFrameCounts(prefix: seq<Effect>, earlier: bool, slot: FrameSlot,
                                               imagesInFlight: seq<Option<Handle>>, acquire: VkResult,
                                               imageIndex: nat, submitResult: VkResult, presentResult: VkResult,
                                               resized: bool, t: seq<Effect>, outcome: Outcome)
    requires Acquired(acquire) ==> imageIndex < |imagesInFlight|
    requires Realises(prefix, PlanFrame(earlier, slot, imagesInFlight, acquire, imageIndex, submitResult,
                                        presentResult, resized), t, outcome)
    ensures |t| >= |prefix| && t[..|prefix|] == prefix
    ensures var p := PlanFrame(earlier, slot, imagesInFlight, acquire, imageIndex, submitResult, presentResult, resized);
      && CountOf(t[|prefix|..], RecreateCall) == (if p.rebuild.Some? then 1 else 0)
      && CountOf(t[|prefix|..], SubmitCall) == (if Acquired(acquire) then 1 else 0)
      && CountOf(t[|prefix|..], PresentCall) == (if Acquired(acquire) && submitResult == Success then 1 else 0)
  {
    var p := PlanFrame(earlier, slot, imagesInFlight, acquire, imageIndex, submitResult, presentResult, resized);
    FrameSubmitsOnce(earlier, slot, imagesInFlight, acquire, imageIndex, submitResult, presentResult, resized);
    PlanFrameOnly(earlier, slot, imagesInFlight, acquire, imageIndex, submitResult, presentResult, resized);
    RealisedCounts(prefix, p, t, outcome);
  }

  /** A recreateSwapChain after `prefix`, blocked or not, recreates once and
      neither submits nor presents. */
  lemma RecreatedAfterCounts(prefix: seq<Effect>, reason: string, t: seq<Effect>)
    requires RecreatedAfter(prefix, reason, t)
    ensures t[..|prefix|] == prefix
    ensures CountOf(t[|prefix|..], RecreateCall) == 1
    ensures CountOf(t[|prefix|..], SubmitCall) == 0 && CountOf(t[|prefix|..], PresentCall) == 0
  {
    var rest := t[|prefix| + 1..];
    assert t[..|prefix|] == t[..|prefix| + 1][..|prefix|];
    assert t[|prefix|..] == [] + [Recreate(reason)] + rest;
    RecreatesOnce([], reason, rest);
    assert CountOf([], SubmitCall) == 0 && CountOf([], PresentCall) == 0;
  }

  /** Calls of none of the counted kinds: the earlier revision's poll and
      the flag clears. */
  predicate Uncounted(t: seq<Effect>) {
    forall k :: 0 <= k < |t| ==> t[k].PollEvents? || t[k].ClearRecreateFlag? || t[k].ClearResizedFlag?
  }

  lemma UncountedCounts(t: seq<Effect>)
    requires Uncounted(t)
    ensures CountOf(t, RecreateCall) == 0 && CountOf(t, SubmitCall) == 0 && CountOf(t, PresentCall) == 0
  {
    CountNothing(t, RecreateCall);
    CountNothing(t, SubmitCall);
    CountNothing(t, PresentCall);
  }

  /** Counts over `start` followed by `mid` add up. */
  lemma {:induction false} CountsAfter(start: seq<Effect>, mid: seq<Effect>, t: seq<Effect>, kind: CallKind)
    requires |mid| >= |start| && mid[..|start|] == start
    requires |t| >= |mid| && t[..|mid|] == mid
    ensures t[..|start|] == start
    ensures CountOf(t[|start|..], kind) == CountOf(mid[|start|..], kind) + CountOf(t[|mid|..], kind)
  {
    assert t[..|start|] == t[..|mid|][..|start|];
    assert t[|start|..] == mid[|start|..] + t[|mid|..];
    CountConcat(mid[|start|..], t[|mid|..], kind);
  }

  /** A recreate between uncounted calls counts one recreate and no
      submit or present. */
  lemma {:induction false} RecreatedBetween(start: seq<Effect>, poll: seq<Effect>, reason: string,
                                            u: seq<Effect>, tail: seq<Effect>)
    requires Uncounted(poll) && Uncounted(tail)
    requires RecreatedAfter(start + poll, reason, u)
    ensures (u + tail)[..|start|] == start
    ensures CountOf((u + tail)[|start|..], RecreateCall) == 1
    ensures CountOf((u + tail)[|start|..], SubmitCall) == 0 && CountOf((u + tail)[|start|..], PresentCall) == 0
  {
    RecreatedAfterCounts(start + poll, reason, u);
    UncountedCounts(poll);
    UncountedCounts(tail);
    var mid := u[|start + poll|..];
    assert u == start + poll + mid;
    assert u + tail == start + (poll + mid + tail);
    assert (u + tail)[|start|..] == poll + mid + tail;
    assert (u + tail)[..|start|] == start;
    forall kind
      ensures CountOf(poll + mid + tail, kind) == CountOf(poll, kind) + CountOf(mid, kind) + CountOf(tail, kind)
    {
      CountConcat(poll, mid, kind);
      CountConcat(poll + mid, tail, kind);
    }
  }

  /** The start of draw recreates exactly once when a rebuild was
      requested, never otherwise, and neither submits nor presents. */
  lemma {:induction false} SetupCounts(start: seq<Effect>, earlier: bool, requested: bool, blocked: bool, t: seq<Effect>)
    requires FrameSetup(start, earlier, requested, blocked, t)
    ensures |t| >= |start| && t[..|start|] == start
    ensures CountOf(t[|start|..], RecreateCall) == if requested then 1 else 0
    ensures CountOf(t[|start|..], SubmitCall) == 0 && CountOf(t[|start|..], PresentCall) == 0
  {
    var poll: seq<Effect> := if earlier then [PollEvents] else [];
    var reason := if earlier then EarlierUserRequestedReason else UserRequestedReason;
    if !requested {
      assert t == start + poll;
      assert t[|start|..] == poll;
      UncountedCounts(poll);
    } else if blocked {
      RecreatedBetween(start, poll, reason, t, []);
      assert t + [] == t;
    } else {
      var u := t[..|t| - 1];
      assert t == u + [ClearRecreateFlag];
      RecreatedBetween(start, poll, reason, u, [ClearRecreateFlag]);
    }
  }

  /** A whole draw: the requested rebuild, if any, and the frame's own
      rebuild, if it was drawn and asked for one, are the only recreates;
      a drawn frame submits once when it acquired an image and presents
      once when the submit also succeeded; a draw whose first rebuild
      blocked submits and presents nothing. */
  lemma {:induction false} DrawCounts(start: seq<Effect>, earlier: bool, requested: bool, drawn: bool, setup: seq<Effect>,
                                      slot: FrameSlot, imagesInFlight: seq<Option<Handle>>, acquire: VkResult,
                                      imageIndex: nat, submitResult: VkResult, presentResult: VkResult,
                                      resized: bool, t: seq<Effect>, outcome: Outcome)
    requires Acquired(acquire) ==> imageIndex < |imagesInFlight|
    requires FrameSetup(start, earlier, requested, !drawn, setup)
    requires !drawn ==> t == setup
    requires drawn ==> Realises(setup, PlanFrame(earlier, slot, imagesInFlight, acquire, imageIndex, submitResult,
                                                 presentResult, resized), t, outcome)
    ensures |t| >= |start| && t[..|start|] == start
    ensures var p := PlanFrame(earlier, slot, imagesInFlight, acquire, imageIndex, submitResult, presentResult, resized);
      && CountOf(t[|start|..], RecreateCall) == (if requested then 1 else 0) + (if drawn && p.rebuild.Some? then 1 else 0)
      && CountOf(t[|start|..], SubmitCall) == (if drawn && Acquired(acquire) then 1 else 0)
      && CountOf(t[|start|..], PresentCall) == (if drawn && Acquired(acquire) && submitResult == Success then 1 else 0)
  {
    SetupCounts(start, earlier, requested, !drawn, setup);
    if drawn {
      RealisedFrameCounts(setup, earlier, slot, imagesInFlight, acquire, imageIndex, submitResult, presentResult,
                          resized, t, outcome);
      CountsAfter(start, setup, t, RecreateCall);
      CountsAfter(start, setup, t, SubmitCall);
      CountsAfter(start, setup, t, PresentCall);
    }
  }
}
