// The order of one iteration of Application::Run (Skateboard/Application.cpp):
// the upload buffers' shadows are replayed by MemoryManager::Update, the
// renderer begins the frame (OnBeginSceneRender advances the slot and waits
// for it), and the frame is presented. Layers, ImGui and the platform are not
// part of this model.
module FrameLoop {
  import opened FrameResources
  import opened GraphicsContext
  import opened MemoryManager
  import Api = RenderingApi
  import opened D3DBuffer
  import opened DirtyCountdown
  import opened Buffer

  /**
   * MemoryManager::Update into the current slot, allowed only when every
   * piece of work recorded through that slot has completed on the GPU, so
   * the bytes it writes are not being read.
   */
  method UpdateIdleSlot(mm: MemoryManager, ctx: GraphicsContext)
    requires mm.Valid() && ctx.Valid() && ctx.SlotIdle(ctx.frames.index)
    requires forall id :: id in mm.dirty ==> mm.buffers[id].desc.accessFlag != AccessGpuOnly
    modifies mm`dirty, mm.MappedArrays()
    ensures mm.Valid() && mm.buffers == old(mm.buffers) && mm.shadows == old(mm.shadows)
    ensures mm.dirty == Tick(old(mm.dirty))
    ensures forall id :: 0 <= id < |mm.buffers| && id in old(mm.dirty) ==>
      IsReplayOf(mm.buffers[id], mm.buffers[id].mapped[..], old(mm.buffers[id].mapped[..]), mm.shadows[id], ctx.frames.index)
  {
    mm.Update(ctx.frames.index);
  }

  /** Renderer::Begin, then Present: the slot advances and is waited for, and the frame is submitted through it. */
  method FinishFrame(api: Api.RenderingApi, ctx: GraphicsContext)
    requires ctx.Valid()
    modifies ctx`backBuffer, ctx`currentFence, ctx`submitted, ctx.frames`index, ctx.frames`allocatorResets, ctx.frames.fences, ctx.fence
    ensures ctx.Valid() && ctx.frames.index == NextIndex(old(ctx.frames.index))
    ensures ctx.submitted == old(ctx.submitted) + [Submission(ctx.frames.index, ctx.currentFence)]
  {
    api.OnBeginSceneRender(ctx);
    ctx.Present();
  }

  /** The replay into the idle current slot, then Present. */
  method UpdateAndPresent(mm: MemoryManager, ctx: GraphicsContext)
    requires mm.Valid() && ctx.Valid() && ctx.SlotIdle(ctx.frames.index)
    requires forall id :: id in mm.dirty ==> mm.buffers[id].desc.accessFlag != AccessGpuOnly
    modifies mm`dirty, mm.MappedArrays()
    modifies ctx`backBuffer, ctx`currentFence, ctx`submitted, ctx.frames.fences, ctx.fence
    ensures mm.Valid() && ctx.Valid() && mm.buffers == old(mm.buffers) && mm.shadows == old(mm.shadows)
    ensures mm.dirty == Tick(old(mm.dirty))
    ensures forall id :: 0 <= id < |mm.buffers| && id in old(mm.dirty) ==>
      IsReplayOf(mm.buffers[id], mm.buffers[id].mapped[..], old(mm.buffers[id].mapped[..]), mm.shadows[id], ctx.frames.index)
    ensures ctx.frames.index == old(ctx.frames.index)
    ensures ctx.submitted == old(ctx.submitted) + [Submission(ctx.frames.index, ctx.currentFence)]
  {
    UpdateIdleSlot(mm, ctx);
    ctx.Present();
  }

  /**
   * One frame as Application::Run orders it: Update first, then
   * Renderer::Begin, then Present. The replay lands in the slot the previous
   * frame was recorded through, not in the slot this frame renders with.
   */
  method RunFrameAsWritten(mm: MemoryManager, ctx: GraphicsContext, api: Api.RenderingApi)
    requires mm.Valid() && ctx.Valid()
    requires forall id :: id in mm.dirty ==> mm.buffers[id].desc.accessFlag != AccessGpuOnly
    modifies mm`dirty, mm.MappedArrays()
    modifies ctx`backBuffer, ctx`currentFence, ctx`submitted, ctx.frames`index, ctx.frames`allocatorResets, ctx.frames.fences, ctx.fence
    ensures mm.Valid() && ctx.Valid() && mm.buffers == old(mm.buffers) && mm.shadows == old(mm.shadows)
    ensures mm.dirty == Tick(old(mm.dirty))
    ensures forall id :: 0 <= id < |mm.buffers| && id in old(mm.dirty) ==>
      IsReplayOf(mm.buffers[id], mm.buffers[id].mapped[..], old(mm.buffers[id].mapped[..]), mm.shadows[id], old(ctx.frames.index))
    ensures ctx.frames.index == NextIndex(old(ctx.frames.index))
    ensures ctx.submitted == old(ctx.submitted) + [Submission(ctx.frames.index, ctx.currentFence)]
  {
    mm.Update(ctx.frames.index);
    FinishFrame(api, ctx);
  }

  /**
   * After the first frame, with the GPU not yet done with it, the slot the
   * next RunFrameAsWritten replays into still has that frame's work in flight:
   * the context starts at fence 2 (its construction flushes twice), the
   * frame is submitted with fence 3, and the GPU has completed only 2.
   */
  method UpdateRacesAfterFirstFrame() returns (ctx: GraphicsContext)
    ensures ctx.Valid() && !ctx.SlotIdle(ctx.frames.index)
    ensures ctx.frames.fences[ctx.frames.index] == 3 && ctx.fence.completed == 2
  {
    ctx := new GraphicsContext();
    var api := new Api.RenderingApi();
    api.OnBeginSceneRender(ctx);
    ctx.Present();
    assert ctx.submitted[|ctx.submitted| - 1] == Submission(ctx.frames.index, 3);
  }

  /**
   * One frame with the replay moved after Renderer::Begin: the slot is
   * advanced and waited for first, so the replay lands in the slot this
   * frame renders with, once the GPU is done with it.
   */
  method RunFrame(mm: MemoryManager, ctx: GraphicsContext, api: Api.RenderingApi)
    requires mm.Valid() && ctx.Valid()
    requires forall id :: id in mm.dirty ==> mm.buffers[id].desc.accessFlag != AccessGpuOnly
    modifies mm`dirty, mm.MappedArrays()
    modifies ctx`backBuffer, ctx`currentFence, ctx`submitted, ctx.frames`index, ctx.frames`allocatorResets, ctx.frames.fences, ctx.fence
    ensures mm.Valid() && ctx.Valid() && mm.buffers == old(mm.buffers) && mm.shadows == old(mm.shadows)
    ensures mm.dirty == Tick(old(mm.dirty))
    ensures forall id :: 0 <= id < |mm.buffers| && id in old(mm.dirty) ==>
      IsReplayOf(mm.buffers[id], mm.buffers[id].mapped[..], old(mm.buffers[id].mapped[..]), mm.shadows[id], ctx.frames.index)
    ensures ctx.frames.index == NextIndex(old(ctx.frames.index))
    ensures ctx.submitted == old(ctx.submitted) + [Submission(ctx.frames.index, ctx.currentFence)]
  {
    api.OnBeginSceneRender(ctx);
    UpdateAndPresent(mm, ctx);
  }
}
