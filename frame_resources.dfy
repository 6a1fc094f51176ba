// The ring of per-frame resources: Skateboard/Renderer/FrameResources.h (the
// slot count and the current slot index) and Platform/DirectX12/D3DFrameResources.h
// (one fence value and one command allocator per slot).
module FrameResources {

  /** SKTBD_SETTINGS_NUMFRAMERESOURCES: the number of frame slots. */
  const NumFrameResources: nat := 3

  /** Constant-buffer structs are declared with alignas(256). */
  const ConstantBufferAlignment: nat := 256

  /**
   * The slot that follows slot i. The body of NextFrameResource is not part of
   * this model; it is taken to be the ring advance the slot count implies.
   */
  function NextIndex(i: nat): nat
    requires i < NumFrameResources
  {
    (i + 1) % NumFrameResources
  }

  /** The slot reached from slot i after k calls of NextFrameResource. */
  function Advance(i: nat, k: nat): (j: nat)
    requires i < NumFrameResources
    ensures j < NumFrameResources
  {
    if k == 0 then i else NextIndex(Advance(i, k - 1))
  }

  /** k advances from slot i land on slot (i + k) mod N. */
  lemma {:induction false} AdvanceIsModular(i: nat, k: nat)
    requires i < NumFrameResources
    ensures Advance(i, k) == (i + k) % NumFrameResources
  {
    if k > 0 {
      AdvanceIsModular(i, k - 1);
    }
  }

  /**
   * N consecutive advances from any slot visit every slot exactly once and
   * come back to the start.
   */
  lemma AdvanceVisitsEverySlot(i: nat)
    requires i < NumFrameResources
    ensures Advance(i, NumFrameResources) == i
    ensures multiset{Advance(i, 0), Advance(i, 1), Advance(i, 2)} == multiset{0, 1, 2}
  {
    AdvanceIsModular(i, 0);
    AdvanceIsModular(i, 1);
    AdvanceIsModular(i, 2);
    AdvanceIsModular(i, 3);
  }

  /**
   * D3DFrameResources: the current slot index, one fence value per slot
   * (a_Fences) and the command allocator of each slot, of which the model keeps
   * only the order in which they were reset.
   */
  class FrameResources {
    var index: nat
    const fences: array<nat>
    var allocatorResets: seq<nat>

    ghost predicate Valid()
      reads this
    {
      fences.Length == NumFrameResources && index < NumFrameResources
    }

    /** Slot 0 is current and every fence starts at 0 (FrameResources.h:11, D3DFrameResources.h:10). */
    constructor ()
      ensures Valid() && fresh(fences)
      ensures index == 0 && allocatorResets == []
      ensures forall s :: 0 <= s < NumFrameResources ==> fences[s] == 0
    {
      index := 0;
      fences := new nat[NumFrameResources](_ => 0);
      allocatorResets := [];
    }

    /** GetCurrentFrameResourceIndex: the current slot, always a valid slot. */
    function GetCurrentFrameResourceIndex(): (i: nat)
      reads this
      requires Valid()
      ensures i < NumFrameResources && i == index
    {
      index
    }

    /** GetCurrentFence: the fence value stored for the current slot. */
    function GetCurrentFence(): (f: nat)
      reads this, fences
      requires Valid()
      ensures f == fences[index]
    {
      fences[index]
    }

    /** NextFrameResource: moves to the next slot of the ring; the fences stay. */
    method NextFrameResource()
      requires Valid()
      modifies this`index
      ensures Valid()
      ensures index == NextIndex(old(index))
    {
      index := NextIndex(index);
    }

    /** SetCurrentFence: stores v for the current slot only. */
    method SetCurrentFence(v: nat)
      requires Valid()
      modifies fences
      ensures Valid()
      ensures fences[..] == old(fences[..])[index := v]
    {
      fences[index] := v;
    }

    /** Resetting the current slot's command allocator (its memory is reused). */
    method ResetCurrentAllocator()
      requires Valid()
      modifies this`allocatorResets
      ensures Valid()
      ensures allocatorResets == old(allocatorResets) + [index]
    {
      allocatorResets := allocatorResets + [index];
    }
  }
}
