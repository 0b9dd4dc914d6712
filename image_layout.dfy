/** The access masks and pipeline stages that transitionImageLayout puts
    into its image memory barrier, for the two layout transitions the
    texture upload needs. */
module ImageLayoutTransition {
  import opened VkTypes

  /** The parts of VkImageMemoryBarrier and of vkCmdPipelineBarrier's
      arguments that depend on the layouts. */
  datatype Barrier = Barrier(
    oldLayout: ImageLayout,
    newLayout: ImageLayout,
    srcAccessMask: bv32,
    dstAccessMask: bv32,
    sourceStage: bv32,
    destinationStage: bv32)

  /** The transition table of transitionImageLayout: UNDEFINED to
      TRANSFER_DST (nothing to wait for, transfers wait) and TRANSFER_DST to
      SHADER_READ_ONLY (after transfer writes, fragment shader reads wait);
      every other pair throws std::invalid_argument. */
  function LayoutTransition(oldLayout: ImageLayout, newLayout: ImageLayout): (r: Result<Barrier>)
    ensures r.Ok? <==>
      || (oldLayout == Undefined && newLayout == TransferDstOptimal)
      || (oldLayout == TransferDstOptimal && newLayout == ShaderReadOnlyOptimal)
    ensures r.Err? ==> r.message == "unsupported layer transition"
    ensures r.Ok? ==> r.value.oldLayout == oldLayout && r.value.newLayout == newLayout
    ensures r.Ok? && oldLayout == Undefined ==>
      && r.value.srcAccessMask == VK_ACCESS_NONE
      && r.value.sourceStage == VK_PIPELINE_STAGE_TOP_OF_PIPE_BIT
      && r.value.dstAccessMask == VK_ACCESS_TRANSFER_WRITE_BIT
      && r.value.destinationStage == VK_PIPELINE_STAGE_TRANSFER_BIT
    ensures r.Ok? && oldLayout == TransferDstOptimal ==>
      && r.value.srcAccessMask == VK_ACCESS_TRANSFER_WRITE_BIT
      && r.value.sourceStage == VK_PIPELINE_STAGE_TRANSFER_BIT
      && r.value.dstAccessMask == VK_ACCESS_SHADER_READ_BIT
      && r.value.destinationStage == VK_PIPELINE_STAGE_FRAGMENT_SHADER_BIT
  {
    if oldLayout == Undefined && newLayout == TransferDstOptimal then
      Ok(Barrier(oldLayout, newLayout,
                 VK_ACCESS_NONE, VK_ACCESS_TRANSFER_WRITE_BIT,
                 VK_PIPELINE_STAGE_TOP_OF_PIPE_BIT, VK_PIPELINE_STAGE_TRANSFER_BIT))
    else if oldLayout == TransferDstOptimal && newLayout == ShaderReadOnlyOptimal then
      Ok(Barrier(oldLayout, newLayout,
                 VK_ACCESS_TRANSFER_WRITE_BIT, VK_ACCESS_SHADER_READ_BIT,
                 VK_PIPELINE_STAGE_TRANSFER_BIT, VK_PIPELINE_STAGE_FRAGMENT_SHADER_BIT))
    else
      Err("unsupported layer transition")
  }

  /** The two transitions of createTextureImage, applied to `targets` in
      order: each must be in the table, and each must start where the
      previous one ended. */
  function TransitionChain(start: ImageLayout, targets: seq<ImageLayout>): (r: Result<seq<Barrier>>)
    ensures r.Ok? ==> |r.value| == |targets|
    ensures r.Ok? ==> forall k :: 0 <= k < |targets| ==> r.value[k].newLayout == targets[k]
    ensures r.Ok? && |targets| > 0 ==> r.value[0].oldLayout == start
    ensures r.Ok? ==> forall k :: 0 < k < |targets| ==> r.value[k].oldLayout == targets[k - 1]
    decreases |targets|
  {
    if targets == [] then Ok([])
    else
      match LayoutTransition(start, targets[0])
      case Err(message) => Err(message)
      case Ok(barrier) =>
        match TransitionChain(targets[0], targets[1..])
        case Err(message) => Err(message)
        case Ok(rest) => Ok([barrier] + rest)
  }

  /** The layout the k-th transition of a chain starts from: the start for
      the first, the previous target for the others. */
  function ChainSource(start: ImageLayout, targets: seq<ImageLayout>, k: nat): ImageLayout
    requires k < |targets|
  {
    if k == 0 then start else targets[k - 1]
  }

  /** A chain succeeds exactly when every step is in the table, and then
      its k-th barrier is the table's barrier for that step, access masks
      and stages included; a failing chain fails with the table's message. */
  lemma {:induction false} TransitionChainSteps(start: ImageLayout, targets: seq<ImageLayout>)
    ensures TransitionChain(start, targets).Ok? <==>
      forall k :: 0 <= k < |targets| ==> LayoutTransition(ChainSource(start, targets, k), targets[k]).Ok?
    ensures TransitionChain(start, targets).Ok? ==>
      forall k :: 0 <= k < |targets| ==>
        LayoutTransition(ChainSource(start, targets, k), targets[k]) == Ok(TransitionChain(start, targets).value[k])
    ensures TransitionChain(start, targets).Err? ==> TransitionChain(start, targets).message == "unsupported layer transition"
    decreases |targets|
  {
    if targets != [] {
      var tail := targets[1..];
      TransitionChainSteps(targets[0], tail);
      assert forall k :: 1 <= k < |targets| ==> ChainSource(start, targets, k) == ChainSource(targets[0], tail, k - 1);
      if TransitionChain(start, targets).Ok? {
        var r := TransitionChain(start, targets).value;
        assert r == [LayoutTransition(start, targets[0]).value] + TransitionChain(targets[0], tail).value;
        forall k | 0 <= k < |targets|
          ensures LayoutTransition(ChainSource(start, targets, k), targets[k]) == Ok(r[k])
        {
          if k > 0 {
            assert targets[k] == tail[k - 1];
          }
        }
      } else if LayoutTransition(start, targets[0]).Ok? {
        var k :| 0 <= k < |tail| && !LayoutTransition(ChainSource(targets[0], tail, k), tail[k]).Ok?;
        assert !LayoutTransition(ChainSource(start, targets, k + 1), targets[k + 1]).Ok?;
      } else {
        assert !LayoutTransition(ChainSource(start, targets, 0), targets[0]).Ok?;
      }
    }
  }

  /** The texture upload of createTextureImage (UNDEFINED, then
      TRANSFER_DST for the copy, then SHADER_READ_ONLY for sampling) never
      reaches the invalid_argument case; the transfer write of the first
      barrier is what the second one waits for. */
  lemma {:induction false} TextureUploadTransitionsSucceed()
    ensures TransitionChain(Undefined, [TransferDstOptimal, ShaderReadOnlyOptimal]).Ok?
    ensures var barriers := TransitionChain(Undefined, [TransferDstOptimal, ShaderReadOnlyOptimal]).value;
      && barriers[0].dstAccessMask == barriers[1].srcAccessMask
      && barriers[0].destinationStage == barriers[1].sourceStage
  {
    var second := [ShaderReadOnlyOptimal];
    assert [TransferDstOptimal, ShaderReadOnlyOptimal][1..] == second;
    assert second[1..] == [];
  }
}
