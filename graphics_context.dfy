// The frame/fence protocol and the per-slot deferred releases of
// Platform/DirectX12/D3DGraphicsContext.cpp.
module GraphicsContext {
  import opened FrameResources

  /** GRAPHICS_SETTINGS_SWAPCHAINBUFFERS: the swap chain is double buffered. */
  const SwapChainBufferCount: nat := 2

  /** The four descriptor heaps the context owns. */
  datatype HeapKind = RwSrvHeap | SrvHeap | RtvHeap | DsvHeap

  /** A ProcessDeferredFree call on one heap for one slot. */
  datatype HeapFree = HeapFree(heap: HeapKind, slot: nat)

  /** The four calls ProcessDeferrals(frame) makes, in order. */
  function DeferredFreesOf(frame: nat): (calls: seq<HeapFree>)
    ensures |calls| == 4 && forall k :: 0 <= k < 4 ==> calls[k].slot == frame
    ensures forall j, k :: 0 <= j < k < 4 ==> calls[j].heap != calls[k].heap
  {
    [HeapFree(RwSrvHeap, frame), HeapFree(SrvHeap, frame), HeapFree(RtvHeap, frame), HeapFree(DsvHeap, frame)]
  }

  /** The work recorded through one slot's command allocator, covered by one fence value. */
  datatype Submission = Submission(slot: nat, fence: nat)

  /**
   * The GPU fence. Its completed value is read by the CPU and advanced only by
   * the GPU (GpuProgress); the value last signalled on the command queue bounds it.
   */
  class Fence {
    var completed: nat
    ghost var signalled: nat

    ghost predicate Valid()
      reads this
    {
      completed <= signalled
    }

    constructor ()
      ensures Valid() && completed == 0 && signalled == 0
    {
      completed := 0;
      signalled := 0;
    }

    /** ID3D12CommandQueue::Signal: the GPU will reach v after the work queued so far. */
    method Signal(v: nat)
      requires Valid() && signalled <= v
      modifies this
      ensures Valid() && signalled == v && completed == old(completed)
    {
      signalled := v;
    }

    /** A step of the GPU: it completes work up to some already signalled value. */
    method GpuProgress(v: nat)
      requires Valid() && completed <= v <= signalled
      modifies this
      ensures Valid() && completed == v && signalled == old(signalled)
    {
      completed := v;
    }

    /**
     * SetEventOnCompletion(v) followed by WaitForSingleObject: returns once the
     * GPU has reached v, which it does because v was signalled.
     */
    method WaitFor(v: nat)
      requires Valid() && v <= signalled
      modifies this
      ensures Valid() && signalled == old(signalled)
      ensures completed >= v && completed >= old(completed)
    {
      if completed < v {
        completed := v;
      }
    }
  }

  class GraphicsContext {
    const frames: FrameResources
    const fence: Fence
    var currentFence: nat
    var backBuffer: nat
    var clientResized: bool
    const deferredReleases: array<seq<nat>>
    const deferredFlags: array<nat>
    var heapFrees: seq<HeapFree>
    ghost var submitted: seq<Submission>

    ghost predicate Valid()
      reads this, frames, frames.fences, fence
    {
      frames.Valid() && fence.Valid()
      && deferredReleases.Length == NumFrameResources
      && deferredFlags.Length == NumFrameResources
      && deferredFlags != frames.fences
      && fence.signalled == currentFence
      && backBuffer < SwapChainBufferCount
      && (forall s :: 0 <= s < NumFrameResources ==> frames.fences[s] <= currentFence)
      && (forall k :: 0 <= k < |submitted| ==>
            submitted[k].slot < NumFrameResources
            && 0 < submitted[k].fence <= frames.fences[submitted[k].slot])
    }

    /** Every piece of work recorded through slot s has completed on the GPU. */
    ghost predicate SlotIdle(s: nat)
      reads this, fence
    {
      forall k :: 0 <= k < |submitted| && submitted[k].slot == s ==> submitted[k].fence <= fence.completed
    }

    /**
     * m_CurrentFence(0), m_CurrentBackBuffer(0) and m_ClientResized(true)
     * (D3DGraphicsContext.cpp:58-64), then OnResized (:112): the output
     * buffers are created with two flushes, so a new context has fence 2,
     * reached by the GPU, and no resize pending.
     */
    constructor ()
      ensures Valid()
      ensures fresh(frames) && fresh(frames.fences) && fresh(fence)
      ensures fresh(deferredReleases) && fresh(deferredFlags)
      ensures currentFence == 2 && fence.completed == 2 && backBuffer == 0 && !clientResized
      ensures frames.index == 0 && frames.allocatorResets == []
      ensures forall s :: 0 <= s < NumFrameResources ==> frames.fences[s] == 0
      ensures heapFrees == [] && submitted == []
      ensures forall s :: 0 <= s < NumFrameResources ==> deferredReleases[s] == [] && deferredFlags[s] == 0
    {
      frames := new FrameResources();
      fence := new Fence();
      currentFence := 0;
      backBuffer := 0;
      clientResized := true;
      deferredReleases := new seq<nat>[NumFrameResources](_ => []);
      deferredFlags := new nat[NumFrameResources](_ => 0);
      heapFrees := [];
      submitted := [];
      new;
      OnResized();
    }

    /**
     * StartDraw: advance to the next slot, wait for the GPU only if that slot's
     * fence is non-zero and not yet reached, then reset the slot's allocator.
     * When the allocator is reset, everything recorded through it has completed.
     */
    method StartDraw()
      requires Valid()
      modifies frames`index, frames`allocatorResets, fence
      ensures Valid()
      ensures frames.index == NextIndex(old(frames.index))
      ensures frames.allocatorResets == old(frames.allocatorResets) + [frames.index]
      ensures fence.completed >= frames.fences[frames.index]
      ensures SlotIdle(frames.index)
      ensures frames.fences[frames.index] == 0 || old(fence.completed) >= frames.fences[frames.index]
        ==> fence.completed == old(fence.completed)
      ensures frames.fences[..] == old(frames.fences[..]) && currentFence == old(currentFence)
    {
      frames.NextFrameResource();
      var slotFence := frames.GetCurrentFence();
      if slotFence != 0 && fence.completed < slotFence {
        fence.WaitFor(slotFence);
      }
      frames.ResetCurrentAllocator();
    }

    /** Present / EndDraw: flip the back buffer, then store and signal a fresh fence for the current slot. */
    method Present()
      requires Valid()
      modifies this`backBuffer, this`currentFence, this`submitted, frames.fences, fence
      ensures Valid()
      ensures backBuffer == (old(backBuffer) + 1) % SwapChainBufferCount
      ensures currentFence == old(currentFence) + 1
      ensures frames.fences[..] == old(frames.fences[..])[frames.index := currentFence]
      ensures submitted == old(submitted) + [Submission(frames.index, currentFence)]
      ensures fence.signalled == currentFence && fence.completed == old(fence.completed)
    {
      backBuffer := (backBuffer + 1) % SwapChainBufferCount;
      currentFence := currentFence + 1;
      frames.SetCurrentFence(currentFence);
      submitted := submitted + [Submission(frames.index, currentFence)];
      fence.Signal(currentFence);
    }

    /** EndDraw ends with the same back-buffer flip and fence step as Present. */
    method EndDraw()
      requires Valid()
      modifies this`backBuffer, this`currentFence, this`submitted, frames.fences, fence
      ensures Valid()
      ensures backBuffer == (old(backBuffer) + 1) % SwapChainBufferCount
      ensures currentFence == old(currentFence) + 1
      ensures frames.fences[..] == old(frames.fences[..])[frames.index := currentFence]
      ensures submitted == old(submitted) + [Submission(frames.index, currentFence)]
      ensures fence.signalled == currentFence && fence.completed == old(fence.completed)
    {
      Present();
    }

    /**
     * WaitUntilIdle: signal a fresh fence value and return once the GPU
     * reached it; the signalled value bounds the completed one, so the GPU
     * stands exactly at the new fence.
     */
    method WaitUntilIdle()
      requires Valid()
      modifies this`currentFence, fence
      ensures Valid()
      ensures currentFence == old(currentFence) + 1
      ensures fence.completed == currentFence
      ensures forall s :: 0 <= s < NumFrameResources ==> SlotIdle(s)
    {
      currentFence := currentFence + 1;
      fence.Signal(currentFence);
      if fence.completed < currentFence {
        fence.WaitFor(currentFence);
      }
    }

    /** Resize: the new client size is stored and a resize is pending. */
    method Resize()
      modifies this`clientResized
      ensures clientResized
    {
      clientResized := true;
    }

    /**
     * OnResized: nothing happens unless a resize is pending. Otherwise the GPU
     * is flushed, the back buffers are rebuilt starting again from back
     * buffer 0, the resize commands are flushed again, and the resize is done.
     */
    method OnResized()
      requires Valid()
      modifies this`backBuffer, this`currentFence, this`clientResized, fence
      ensures Valid()
      ensures !old(clientResized) ==>
        backBuffer == old(backBuffer) && currentFence == old(currentFence) && !clientResized
        && fence.completed == old(fence.completed)
      ensures old(clientResized) ==>
        backBuffer == 0 && currentFence == old(currentFence) + 2 && !clientResized
        && fence.completed == currentFence
        && forall s :: 0 <= s < NumFrameResources ==> SlotIdle(s)
    {
      if !clientResized {
        return;
      }
      WaitUntilIdle();
      backBuffer := 0;
      WaitUntilIdle();
      clientResized := false;
    }

    /** SetDeferredReleasesFlag: raise the current slot's flag. */
    method SetDeferredReleasesFlag()
      requires Valid()
      modifies deferredFlags
      ensures Valid()
      ensures deferredFlags[..] == old(deferredFlags[..])[frames.index := 1]
    {
      deferredFlags[frames.index] := 1;
    }

    /** DeferredRelease: queue the resource on the current slot's list and raise that slot's flag. */
    method DeferredRelease(resource: nat)
      requires Valid()
      modifies deferredReleases, deferredFlags
      ensures Valid()
      ensures deferredReleases[..] == old(deferredReleases[..])[frames.index := old(deferredReleases[frames.index]) + [resource]]
      ensures deferredFlags[..] == old(deferredFlags[..])[frames.index := 1]
    {
      deferredReleases[frames.index] := deferredReleases[frames.index] + [resource];
      SetDeferredReleasesFlag();
    }

    /**
     * ProcessDeferrals(frame): lower the slot's flag, run ProcessDeferredFree(frame)
     * on the four heaps and empty the slot's list (the objects are not released).
     */
    method ProcessDeferrals(frame: nat)
      requires Valid() && frame < NumFrameResources
      modifies this`heapFrees, deferredReleases, deferredFlags
      ensures Valid()
      ensures deferredFlags[..] == old(deferredFlags[..])[frame := 0]
      ensures deferredReleases[..] == old(deferredReleases[..])[frame := []]
      ensures heapFrees == old(heapFrees) + DeferredFreesOf(frame)
    {
      deferredFlags[frame] := 0;
      heapFrees := heapFrees + DeferredFreesOf(frame);
      deferredReleases[frame] := [];
    }

    /** Clean: process the deferrals of slots 0, 1 and 2, leaving every list empty and every flag low. */
    method Clean()
      requires Valid()
      modifies this`heapFrees, deferredReleases, deferredFlags
      ensures Valid()
      ensures forall s :: 0 <= s < NumFrameResources ==> deferredReleases[s] == [] && deferredFlags[s] == 0
      ensures heapFrees == old(heapFrees) + DeferredFreesOf(0) + DeferredFreesOf(1) + DeferredFreesOf(2)
    {
      ProcessDeferrals(0);
      ProcessDeferrals(1);
      ProcessDeferrals(2);
    }

    /** The destructor processes only the current slot's deferrals. */
    method Destroy()
      requires Valid()
      modifies this`heapFrees, deferredReleases, deferredFlags
      ensures Valid()
      ensures deferredFlags[..] == old(deferredFlags[..])[frames.index := 0]
      ensures deferredReleases[..] == old(deferredReleases[..])[frames.index := []]
      ensures heapFrees == old(heapFrees) + DeferredFreesOf(frames.index)
    {
      ProcessDeferrals(frames.index);
    }
  }
}
