// Skateboard/Memory/MemoryManager: every upload buffer has a CPU shadow copy
// of its elements. UploadData writes the shadow and marks the buffer dirty for
// N frames; Update, once per frame, replays each dirty shadow into the current
// frame slot of its upload buffer and counts the buffer down.
module MemoryManager {
  import opened D3DBuffer
  import opened DirtyCountdown
  import opened Buffer
  import opened GraphicsContext
  import opened FrameResources

  // ---------------------------------------------------------------------------
  // Shadows and their replay into one frame slot
  // ---------------------------------------------------------------------------

  /** calloc(count, size): a zero-filled shadow. */
  function ZeroShadow(count: nat, size: nat): (s: seq<byte>)
    ensures |s| == count * size && forall k :: 0 <= k < |s| ==> s[k] == 0
  {
    seq(count * size, _ => 0)
  }

  /** Element i of a packed array of count elements of size bytes lies inside it. */
  lemma {:induction false} PackedElementInBounds(count: nat, size: nat, i: nat)
    requires i < count
    ensures i * size + size <= count * size
  {
    MulMonotone(i + 1, count, size);
    assert (i + 1) * size == i * size + size;
  }

  /** The bytes of element i of a packed shadow. */
  function ShadowElement(shadow: seq<byte>, count: nat, size: nat, i: nat): (e: seq<byte>)
    requires i < count && |shadow| == count * size
    ensures |e| == size
  {
    PackedElementInBounds(count, size, i);
    shadow[i * size .. i * size + size]
  }

  /** Element i of slot frame lies inside that slot's count * chunk bytes. */
  lemma {:induction false} ElementInSlot(frame: nat, count: nat, i: nat, chunk: nat, size: nat)
    requires i < count && size <= chunk
    ensures frame * count * chunk <= ElementOffset(frame, count, i, chunk)
    ensures ElementOffset(frame, count, i, chunk) + size <= (frame + 1) * count * chunk
  {
    assert ElementOffset(frame, count, i, chunk) == frame * count * chunk + i * chunk;
    MulMonotone(i + 1, count, chunk);
    assert (i + 1) * chunk == i * chunk + chunk;
    assert (frame + 1) * count * chunk == frame * count * chunk + count * chunk;
  }

  /**
   * The mapped memory after the first n elements of shadow have been copied,
   * in index order, into slot frame of an upload buffer of count elements of
   * size bytes spaced chunk bytes apart.
   */
  function Replayed(mem: seq<byte>, shadow: seq<byte>, frame: nat, count: nat, chunk: nat, size: nat, n: nat): (r: seq<byte>)
    requires n <= count && frame < NumFrameResources && size <= chunk
    requires |mem| == chunk * count * NumFrameResources && |shadow| == count * size
    ensures |r| == |mem|
    decreases n
  {
    if n == 0 then mem
    else
      ElementRangeInBounds(frame, NumFrameResources, count, n - 1, chunk, size);
      Overwrite(Replayed(mem, shadow, frame, count, chunk, size, n - 1),
                ElementOffset(frame, count, n - 1, chunk), ShadowElement(shadow, count, size, n - 1))
  }

  /** After the replay of n elements, each of them sits at its place in slot frame. */
  lemma {:induction false} ReplayedElement(mem: seq<byte>, shadow: seq<byte>, frame: nat, count: nat, chunk: nat, size: nat, n: nat, i: nat)
    requires i < n <= count && frame < NumFrameResources && size <= chunk
    requires |mem| == chunk * count * NumFrameResources && |shadow| == count * size
    ensures ElementOffset(frame, count, i, chunk) + size <= |mem|
    ensures var off := ElementOffset(frame, count, i, chunk);
      Replayed(mem, shadow, frame, count, chunk, size, n)[off .. off + size] == ShadowElement(shadow, count, size, i)
    decreases n
  {
    var off, last := ElementOffset(frame, count, i, chunk), ElementOffset(frame, count, n - 1, chunk);
    ElementRangeInBounds(frame, NumFrameResources, count, i, chunk, size);
    ElementRangeInBounds(frame, NumFrameResources, count, n - 1, chunk, size);
    var prev := Replayed(mem, shadow, frame, count, chunk, size, n - 1);
    var elem := ShadowElement(shadow, count, size, n - 1);
    var r := Replayed(mem, shadow, frame, count, chunk, size, n);
    assert r == Overwrite(prev, last, elem);
    if i < n - 1 {
      ReplayedElement(mem, shadow, frame, count, chunk, size, n - 1, i);
      ElementRangesDisjoint(frame, i, frame, n - 1, count, chunk, size);
      OverwriteKeepsRange(prev, last, elem, off, size);
      assert r[off .. off + size] == prev[off .. off + size];
    } else {
      assert off == last;
      OverwriteReadsBack(prev, last, elem);
      assert r[off .. off + size] == elem;
    }
  }

  /** A replay into slot frame leaves every byte of the other slots as it was. */
  lemma {:induction false} ReplayedKeepsOtherSlots(mem: seq<byte>, shadow: seq<byte>, frame: nat, count: nat, chunk: nat, size: nat, n: nat)
    requires n <= count && frame < NumFrameResources && size <= chunk
    requires |mem| == chunk * count * NumFrameResources && |shadow| == count * size
    ensures var r := Replayed(mem, shadow, frame, count, chunk, size, n);
      forall k :: 0 <= k < |mem| && (k < frame * count * chunk || (frame + 1) * count * chunk <= k) ==> r[k] == mem[k]
    decreases n
  {
    if n > 0 {
      ReplayedKeepsOtherSlots(mem, shadow, frame, count, chunk, size, n - 1);
      ElementInSlot(frame, count, n - 1, chunk, size);
      ElementRangeInBounds(frame, NumFrameResources, count, n - 1, chunk, size);
      OverwriteBytes(Replayed(mem, shadow, frame, count, chunk, size, n - 1),
                     ElementOffset(frame, count, n - 1, chunk), ShadowElement(shadow, count, size, n - 1));
    }
  }

  // ---------------------------------------------------------------------------
  // The manager
  // ---------------------------------------------------------------------------

  /**
   * UploadData's write: element e of the shadow becomes data and every other
   * element keeps its bytes.
   */
  lemma {:induction false} OverwriteOneElement(shadow: seq<byte>, count: nat, size: nat, e: nat, data: seq<byte>)
    requires e < count && |shadow| == count * size && |data| == size
    ensures e * size + size <= |shadow|
    ensures var s := Overwrite(shadow, e * size, data);
      ShadowElement(s, count, size, e) == data
      && forall j :: 0 <= j < count && j != e ==> ShadowElement(s, count, size, j) == ShadowElement(shadow, count, size, j)
  {
    PackedElementInBounds(count, size, e);
    var s := Overwrite(shadow, e * size, data);
    OverwriteReadsBack(shadow, e * size, data);
    assert ShadowElement(s, count, size, e) == data;
    forall j | 0 <= j < count && j != e
      ensures ShadowElement(s, count, size, j) == ShadowElement(shadow, count, size, j)
    {
      PackedElementInBounds(count, size, j);
      ElementRangesDisjoint(0, j, 0, e, count, size, size);
      OverwriteKeepsRange(shadow, e * size, data, j * size, size);
      assert ShadowElement(s, count, size, j) == ShadowElement(shadow, count, size, j);
    }
  }

  /**
   * What UploadData writes reaches the GPU memory: after the next replay of
   * the shadow into a slot, element e of that slot holds exactly data (the
   * other slots are as they were, by ReplayedKeepsOtherSlots).
   */
  lemma {:induction false} UploadReachesSlot(mem: seq<byte>, shadow: seq<byte>, frame: nat, count: nat, chunk: nat, size: nat, e: nat, data: seq<byte>)
    requires e < count && frame < NumFrameResources && size <= chunk
    requires |mem| == chunk * count * NumFrameResources && |shadow| == count * size && |data| == size
    ensures e * size + size <= |shadow|
    ensures var off := ElementOffset(frame, count, e, chunk);
      off + size <= |mem|
      && Replayed(mem, Overwrite(shadow, e * size, data), frame, count, chunk, size, count)[off .. off + size] == data
  {
    OverwriteOneElement(shadow, count, size, e, data);
    ReplayedElement(mem, Overwrite(shadow, e * size, data), frame, count, chunk, size, count, e);
  }

  /** The upload buffers' resource identities, in creation order. */
  function ResourcesOf(bs: seq<UploadBuffer>): (rs: seq<nat>)
    ensures |rs| == |bs| && forall i :: 0 <= i < |bs| ==> rs[i] == bs[i].resource
  {
    if bs == [] then [] else ResourcesOf(bs[..|bs| - 1]) + [bs[|bs| - 1].resource]
  }

  /** Update's replay of a whole shadow into slot frame of one upload buffer. */
  function ReplayedBuffer(b: UploadBuffer, mem: seq<byte>, shadow: seq<byte>, frame: nat): (r: seq<byte>)
    requires b.Valid() && frame < NumFrameResources
    requires |mem| == b.mapped.Length && |shadow| == b.desc.elementCount * b.desc.elementSize
    ensures |r| == |mem|
  {
    Replayed(mem, shadow, frame, b.desc.elementCount, b.chunk, b.desc.elementSize, b.desc.elementCount)
  }

  /** now is the memory of b after Update's replay of shadow into slot frame of the memory before. */
  ghost predicate IsReplayOf(b: UploadBuffer, now: seq<byte>, before: seq<byte>, shadow: seq<byte>, frame: nat)
  {
    b.Valid() && frame < NumFrameResources
    && |before| == b.mapped.Length && |shadow| == b.desc.elementCount * b.desc.elementSize
    && now == ReplayedBuffer(b, before, shadow, frame)
  }

  /**
   * The countdown half of Update's loop: each entry in turn drops by one
   * and is erased when it reaches 0, which is one Tick of the whole map
   * whatever order the entries are visited in.
   */
  method CountDownAll(counts: DirtyMap) returns (next: DirtyMap)
    requires forall id :: id in counts ==> counts[id] > 0
    ensures next == Tick(counts)
  {
    next := counts;
    var todo := counts.Keys;
    PartialTickEnds(counts);
    while todo != {}
      invariant todo <= counts.Keys
      invariant next == PartialTick(counts, todo)
      decreases todo
    {
      var id :| id in todo;
      PartialTickStep(counts, todo, id);
      var numFramesDirty := next[id] - 1;
      if numFramesDirty == 0 {
        next := next - {id};
      } else {
        next := next[id := numFramesDirty];
      }
      todo := todo - {id};
    }
  }

  /**
   * MemoryManagerData: the upload buffers, their shadows, the element size
   * each shadow was allocated with, and the dirty countdowns
   * (bufferID -> number of frames still dirty).
   */
  class MemoryManager {
    var buffers: seq<UploadBuffer>
    var shadows: seq<seq<byte>>
    var shadowSizes: seq<nat>
    var dirty: DirtyMap

    /** The mapped memories of all the upload buffers. */
    ghost function MappedArrays(): set<array<byte>>
      reads this`buffers
    {
      set i | 0 <= i < |buffers| :: buffers[i].mapped
    }

    /**
     * One buffer, one shadow and one shadow size per ID; each shadow holds
     * ElementCount elements of ElementSize bytes; the buffers do not share
     * memory.
     */
    ghost predicate BuffersValid()
      reads this`buffers, this`shadows, this`shadowSizes
    {
      |shadows| == |buffers| && |shadowSizes| == |buffers|
      && (forall id :: 0 <= id < |buffers| ==>
            buffers[id].Valid()
            && |shadows[id]| == buffers[id].desc.elementCount * buffers[id].desc.elementSize
            && shadowSizes[id] == buffers[id].desc.elementSize)
      && (forall i, j :: 0 <= i < j < |buffers| ==> buffers[i].mapped != buffers[j].mapped)
    }

    /** The buffers are consistent, and only existing IDs are dirty, each for 1 to N frames. */
    ghost predicate Valid()
      reads this
    {
      BuffersValid()
      && (forall id :: id in dirty ==> id < |buffers|)
      && CountdownsValid(dirty)
    }

    constructor ()
      ensures Valid() && buffers == [] && shadows == [] && shadowSizes == [] && dirty == map[]
    {
      buffers, shadows, shadowSizes, dirty := [], [], [], map[];
    }

    /**
     * CreateUploadBuffer: the new ID is the number of buffers before the
     * call; one buffer and one zero-filled shadow of ElementCount *
     * ElementSize bytes are appended. The resource and its GPU address are
     * what the device hands out.
     */
    method CreateUploadBuffer(debugName: string, desc: UploadBufferDesc, resource: nat, baseAddress: nat)
      returns (id: nat)
      requires Valid() && |shadows| != 0xFFFF_FFFF
      modifies this`buffers, this`shadows, this`shadowSizes
      ensures Valid()
      ensures id == old(|buffers|) && |buffers| == id + 1
      ensures buffers[..id] == old(buffers) && fresh(buffers[id]) && fresh(buffers[id].mapped)
      ensures buffers[id].debugName == debugName && buffers[id].desc == desc.(width := UploadWidth(desc))
      ensures buffers[id].hasShaderResourceView <==> desc.accessFlag != AccessCpuWriteableAligned
      ensures shadows == old(shadows) + [ZeroShadow(desc.elementCount, desc.elementSize)]
      ensures shadowSizes == old(shadowSizes) + [desc.elementSize]
      ensures dirty == old(dirty)
    {
      id := |shadows|;
      var b := new UploadBuffer(debugName, desc, resource, baseAddress);
      buffers := buffers + [b];
      shadows := shadows + [ZeroShadow(desc.elementCount, desc.elementSize)];
      shadowSizes := shadowSizes + [desc.elementSize];
    }

    /** CreateConstantBuffer: an upload buffer of 256-byte aligned elements. */
    method CreateConstantBuffer(debugName: string, elementCount: nat, dataSize: nat, resource: nat, baseAddress: nat)
      returns (id: nat)
      requires Valid() && |shadows| != 0xFFFF_FFFF
      modifies this`buffers, this`shadows, this`shadowSizes
      ensures Valid() && id == old(|buffers|) && |buffers| == id + 1 && buffers[..id] == old(buffers)
      ensures buffers[id].desc.accessFlag == AccessCpuWriteableAligned && buffers[id].hasShaderResourceView == false
      ensures buffers[id].desc.elementCount == elementCount && buffers[id].desc.elementSize == dataSize
      ensures shadows == old(shadows) + [ZeroShadow(elementCount, dataSize)] && dirty == old(dirty)
    {
      id := CreateUploadBuffer(debugName, InitUploadBufferDesc(true, elementCount, dataSize), resource, baseAddress);
    }

    /** CreateStructuredBuffer: an upload buffer of 16-byte aligned elements with a shader resource view. */
    method CreateStructuredBuffer(debugName: string, elementCount: nat, dataSize: nat, resource: nat, baseAddress: nat)
      returns (id: nat)
      requires Valid() && |shadows| != 0xFFFF_FFFF
      modifies this`buffers, this`shadows, this`shadowSizes
      ensures Valid() && id == old(|buffers|) && |buffers| == id + 1 && buffers[..id] == old(buffers)
      ensures buffers[id].desc.accessFlag == AccessCpuWriteable && buffers[id].hasShaderResourceView
      ensures buffers[id].desc.elementCount == elementCount && buffers[id].desc.elementSize == dataSize
      ensures shadows == old(shadows) + [ZeroShadow(elementCount, dataSize)] && dirty == old(dirty)
    {
      id := CreateUploadBuffer(debugName, InitUploadBufferDesc(false, elementCount, dataSize), resource, baseAddress);
    }

    /**
     * UploadData: the shadow bytes of element elementIndex become data, and
     * the buffer is dirty for exactly N frames whether or not it already was.
     * Neither the GPU memory nor any other shadow changes.
     */
    method UploadData(id: nat, elementIndex: nat, data: seq<byte>)
      requires Valid()
      requires id < |shadows| && id < |buffers| && elementIndex < buffers[id].desc.elementCount
      requires |data| == shadowSizes[id]
      modifies this`shadows, this`dirty
      ensures Valid()
      ensures elementIndex * buffers[id].desc.elementSize + |data| <= |old(shadows[id])|
      ensures shadows == old(shadows)[id := Overwrite(old(shadows[id]), elementIndex * buffers[id].desc.elementSize, data)]
      ensures dirty == MarkDirty(old(dirty), id)
    {
      var size := buffers[id].desc.elementSize;
      PackedElementInBounds(buffers[id].desc.elementCount, size, elementIndex);
      shadows := shadows[id := Overwrite(shadows[id], elementIndex * size, data)];
      MarkDirtyValid(dirty, id);
      dirty := dirty[id := NumFrameResources];
    }

    /** The inner loop of Update: every element of the shadow, in index order, through CopyData. */
    method ReplayShadow(b: UploadBuffer, shadow: seq<byte>, size: nat, frame: nat)
      requires b.Valid() && b.desc.accessFlag != AccessGpuOnly && frame < NumFrameResources
      requires size == b.desc.elementSize && |shadow| == b.desc.elementCount * size
      modifies b.mapped
      ensures b.mapped[..] == ReplayedBuffer(b, old(b.mapped[..]), shadow, frame)
    {
      var count := b.desc.elementCount;
      var i := 0;
      while i < count
        invariant 0 <= i <= count
        invariant b.mapped[..] == Replayed(old(b.mapped[..]), shadow, frame, count, b.chunk, size, i)
      {
        var element := ShadowElement(shadow, count, size, i);
        b.CopyData(frame, i, element);
        assert b.SlotElementOffset(frame, i) == ElementOffset(frame, count, i, b.chunk);
        i := i + 1;
      }
    }

    /**
     * The replay half of one iteration of Update's loop: the buffer's whole
     * shadow goes into slot frame of its mapped memory, and no other buffer's
     * memory changes.
     */
    method ReplayBuffer(id: nat, frame: nat)
      requires BuffersValid() && id < |buffers| && frame < NumFrameResources
      requires buffers[id].desc.accessFlag != AccessGpuOnly
      modifies buffers[id].mapped
      ensures IsReplayOf(buffers[id], buffers[id].mapped[..], old(buffers[id].mapped[..]), shadows[id], frame)
      ensures forall k :: 0 <= k < |buffers| && k != id ==> buffers[k].mapped[..] == old(buffers[k].mapped[..])
    {
      assert forall k :: 0 <= k < |buffers| && k != id ==> buffers[k].mapped != buffers[id].mapped;
      ReplayShadow(buffers[id], shadows[id], shadowSizes[id], frame);
    }

    /**
     * Update's loop over the dirty entries, replaying each buffer in turn:
     * the buffers of ids are replayed into slot frame, the others are left
     * alone, whatever order the entries are visited in.
     */
    method ReplayBuffers(ids: set<nat>, frame: nat)
      requires BuffersValid() && frame < NumFrameResources
      requires forall id :: id in ids ==> id < |buffers| && buffers[id].desc.accessFlag != AccessGpuOnly
      modifies MappedArrays()
      ensures forall id :: 0 <= id < |buffers| && id in ids ==>
        IsReplayOf(buffers[id], buffers[id].mapped[..], old(buffers[id].mapped[..]), shadows[id], frame)
      ensures forall id :: 0 <= id < |buffers| && id !in ids ==> buffers[id].mapped[..] == old(buffers[id].mapped[..])
    {
      var todo := ids;
      while todo != {}
        invariant todo <= ids
        invariant forall id :: 0 <= id < |buffers| && id in ids && id !in todo ==>
          IsReplayOf(buffers[id], buffers[id].mapped[..], old(buffers[id].mapped[..]), shadows[id], frame)
        invariant forall id :: 0 <= id < |buffers| && (id !in ids || id in todo) ==>
          buffers[id].mapped[..] == old(buffers[id].mapped[..])
        decreases todo
      {
        var id :| id in todo;
        assert buffers[id].mapped in MappedArrays();
        ReplayBuffer(id, frame);
        todo := todo - {id};
      }
    }

    /**
     * Update: every dirty buffer's whole shadow is replayed into slot frame
     * of its mapped memory, and every countdown drops by one, the ones
     * reaching 0 being erased. Clean buffers are not touched. The source
     * does both halves entry by entry in one loop; neither half reads what
     * the other writes, so the model runs the replays, then the countdowns.
     */
    method Update(frame: nat)
      requires Valid() && frame < NumFrameResources
      requires forall id :: id in dirty ==> buffers[id].desc.accessFlag != AccessGpuOnly
      modifies this`dirty, MappedArrays()
      ensures Valid() && buffers == old(buffers) && shadows == old(shadows)
      ensures dirty == Tick(old(dirty))
      ensures forall id :: 0 <= id < |buffers| && id in old(dirty) ==>
        IsReplayOf(buffers[id], buffers[id].mapped[..], old(buffers[id].mapped[..]), shadows[id], frame)
      ensures forall id :: 0 <= id < |buffers| && id !in old(dirty) ==> buffers[id].mapped[..] == old(buffers[id].mapped[..])
    {
      ReplayBuffers(dirty.Keys, frame);
      TickValid(dirty);
      dirty := CountDownAll(dirty);
    }

    /**
     * ResetUploadBuffer as the source writes it: the buffer is rebuilt with
     * the new count and size, keeping its kind and debug name, but the shadow,
     * its element size and the dirty map are kept. The manager's invariant
     * then survives exactly when the old shadow happens to have the new shape.
     */
    method ResetUploadBufferAsWritten(id: nat, elementCount: nat, dataSize: nat, resource: nat, baseAddress: nat)
      requires Valid() && id < |buffers|
      modifies this`buffers
      ensures |buffers| == old(|buffers|) && fresh(buffers[id]) && fresh(buffers[id].mapped)
      ensures forall k :: 0 <= k < |buffers| && k != id ==> buffers[k] == old(buffers[k])
      ensures buffers[id].debugName == old(buffers[id].debugName)
      ensures var d := InitUploadBufferDesc(old(buffers[id].desc.accessFlag) == AccessCpuWriteableAligned, elementCount, dataSize);
        buffers[id].desc == d.(width := UploadWidth(d))
      ensures shadows == old(shadows) && shadowSizes == old(shadowSizes) && dirty == old(dirty)
      ensures Valid() <==> |shadows[id]| == elementCount * dataSize && shadowSizes[id] == dataSize
    {
      var b := buffers[id];
      var isConstant := b.desc.accessFlag == AccessCpuWriteableAligned;
      var desc := InitUploadBufferDesc(isConstant, elementCount, dataSize);
      var nb := new UploadBuffer(b.debugName, desc, resource, baseAddress);
      buffers := buffers[id := nb];
    }

    /**
     * ResetUploadBuffer, with the shadow reallocated for the new shape: the
     * buffer is rebuilt with the new count and size, keeping its kind and
     * debug name; its shadow is a zero-filled one of the new size; the dirty
     * map is kept.
     */
    method ResetUploadBuffer(id: nat, elementCount: nat, dataSize: nat, resource: nat, baseAddress: nat)
      requires Valid() && id < |buffers|
      modifies this`buffers, this`shadows, this`shadowSizes
      ensures Valid()
      ensures |buffers| == old(|buffers|) && fresh(buffers[id]) && fresh(buffers[id].mapped)
      ensures forall k :: 0 <= k < |buffers| && k != id ==> buffers[k] == old(buffers[k])
      ensures buffers[id].debugName == old(buffers[id].debugName)
      ensures var d := InitUploadBufferDesc(old(buffers[id].desc.accessFlag) == AccessCpuWriteableAligned, elementCount, dataSize);
        buffers[id].desc == d.(width := UploadWidth(d))
      ensures shadows == old(shadows)[id := ZeroShadow(elementCount, dataSize)]
      ensures shadowSizes == old(shadowSizes)[id := dataSize] && dirty == old(dirty)
    {
      var b := buffers[id];
      var isConstant := b.desc.accessFlag == AccessCpuWriteableAligned;
      var desc := InitUploadBufferDesc(isConstant, elementCount, dataSize);
      var nb := new UploadBuffer(b.debugName, desc, resource, baseAddress);
      buffers := buffers[id := nb];
      shadows := shadows[id := ZeroShadow(elementCount, dataSize)];
      shadowSizes := shadowSizes[id := dataSize];
    }

    /** GetUploadBuffer: the buffer of an existing ID, whose shadow has its shape. */
    function GetUploadBuffer(id: nat): (b: UploadBuffer)
      reads this
      requires Valid() && id < |buffers|
      ensures b.Valid() && b.mapped in MappedArrays()
      ensures |shadows[id]| == b.desc.elementCount * b.desc.elementSize
    {
      buffers[id]
    }

    /**
     * Clean: every buffer is released in creation order, so their resources
     * join the current slot's deferred-release list and the slot is flagged
     * when there is at least one buffer.
     */
    method Clean(ctx: GraphicsContext)
      requires ctx.Valid()
      modifies ctx.deferredReleases, ctx.deferredFlags
      ensures ctx.Valid()
      ensures ctx.deferredReleases[..] == old(ctx.deferredReleases[..])[ctx.frames.index := old(ctx.deferredReleases[ctx.frames.index]) + ResourcesOf(buffers)]
      ensures |buffers| > 0 ==> ctx.deferredFlags[..] == old(ctx.deferredFlags[..])[ctx.frames.index := 1]
      ensures |buffers| == 0 ==> ctx.deferredFlags[..] == old(ctx.deferredFlags[..])
    {
      ghost var slot := ctx.frames.index;
      ghost var releases := ctx.deferredReleases[..];
      ghost var flags := ctx.deferredFlags[..];
      assert buffers[..0] == [] && releases[slot] + [] == releases[slot];
      assert releases[slot := releases[slot] + ResourcesOf(buffers[..0])] == releases;
      var i := 0;
      while i < |buffers|
        invariant 0 <= i <= |buffers|
        invariant ctx.Valid() && ctx.frames.index == slot
        invariant ctx.deferredReleases[..] == releases[slot := releases[slot] + ResourcesOf(buffers[..i])]
        invariant ctx.deferredFlags[..] == if i == 0 then flags else flags[slot := 1]
      {
        buffers[i].Release(ctx);
        assert buffers[..i + 1][..i] == buffers[..i];
        assert ResourcesOf(buffers[..i + 1]) == ResourcesOf(buffers[..i]) + [buffers[i].resource];
        assert (releases[slot] + ResourcesOf(buffers[..i])) + [buffers[i].resource]
            == releases[slot] + ResourcesOf(buffers[..i + 1]);
        i := i + 1;
      }
      assert buffers[..i] == buffers;
    }
  }
}
