// GPU buffers of Platform/DirectX12/D3DBuffer.cpp: the sizing of default,
// upload and byte-address buffers, the per-slot layout of an upload buffer and
// its CopyData, the UAV view dimension, and TransitionToType.
module D3DBuffer {
  import opened D3D
  import opened InternalFormats
  import opened Buffer
  import opened FrameResources
  import opened GraphicsContext

  newtype byte = x: int | 0 <= x < 256

  /** D3D12_CONSTANT_BUFFER_DATA_PLACEMENT_ALIGNMENT and D3D12_RAW_UAV_SRV_BYTE_ALIGNMENT. */
  const ConstantBufferPlacementAlignment: nat := 256
  const RawUavSrvByteAlignment: nat := 16

  lemma AlignmentsArePowersOfTwo()
    ensures IsPowerOfTwo(ConstantBufferPlacementAlignment) && IsPowerOfTwo(RawUavSrvByteAlignment)
  {
    assert IsPowerOfTwo(1) && IsPowerOfTwo(2) && IsPowerOfTwo(4) && IsPowerOfTwo(8);
    assert IsPowerOfTwo(16) && IsPowerOfTwo(32) && IsPowerOfTwo(64) && IsPowerOfTwo(128);
  }

  // ---------------------------------------------------------------------------
  // Arithmetic of the per-slot layout
  // ---------------------------------------------------------------------------

  lemma MulMonotone(a: nat, b: nat, c: nat)
    requires a <= b
    ensures a * c <= b * c
  {
    assert b * c == a * c + (b - a) * c;
  }

  /** The byte offset of element i of slot frame: (frame * count + i) * chunk. */
  function ElementOffset(frame: nat, count: nat, i: nat, chunk: nat): nat
  {
    (frame * count + i) * chunk
  }

  /**
   * For a slot below the slot count and an element below the element count,
   * the size bytes written at the element's offset lie inside
   * chunk * count * slots bytes.
   */
  lemma {:induction false} ElementRangeInBounds(frame: nat, slots: nat, count: nat, i: nat, chunk: nat, size: nat)
    requires frame < slots && i < count && size <= chunk
    ensures ElementOffset(frame, count, i, chunk) + size <= chunk * count * slots
  {
    var l := frame * count + i;
    MulMonotone(frame + 1, slots, count);
    assert l + 1 <= slots * count;
    MulMonotone(l + 1, slots * count, chunk);
    assert (l + 1) * chunk == l * chunk + chunk;
    assert chunk * count * slots == slots * count * chunk;
  }

  /** Two (slot, element) pairs with the same linear position are the same pair. */
  lemma {:induction false} LinearPositionInjective(f1: nat, i1: nat, f2: nat, i2: nat, count: nat)
    requires i1 < count && i2 < count
    requires f1 * count + i1 == f2 * count + i2
    ensures f1 == f2 && i1 == i2
  {
    var x := f1 * count + i1;
    DivModUnique(x, count, f1, i1);
    DivModUnique(x, count, f2, i2);
  }

  /** Distinct (slot, element) pairs get byte ranges that do not overlap. */
  lemma {:induction false} ElementRangesDisjoint(f1: nat, i1: nat, f2: nat, i2: nat, count: nat, chunk: nat, size: nat)
    requires i1 < count && i2 < count && size <= chunk
    requires f1 != f2 || i1 != i2
    ensures ElementOffset(f1, count, i1, chunk) + size <= ElementOffset(f2, count, i2, chunk)
         || ElementOffset(f2, count, i2, chunk) + size <= ElementOffset(f1, count, i1, chunk)
  {
    var l1, l2 := f1 * count + i1, f2 * count + i2;
    if l1 == l2 {
      LinearPositionInjective(f1, i1, f2, i2, count);
      assert false;
    }
    if l1 < l2 {
      MulMonotone(l1 + 1, l2, chunk);
      assert (l1 + 1) * chunk == l1 * chunk + chunk;
    } else {
      MulMonotone(l2 + 1, l1, chunk);
      assert (l2 + 1) * chunk == l2 * chunk + chunk;
    }
  }

  // ---------------------------------------------------------------------------
  // Buffer sizing
  // ---------------------------------------------------------------------------

  /** An upload buffer's chunk: 256-byte aligned for constant buffers, 16-byte aligned otherwise. */
  function UploadChunkSize(desc: UploadBufferDesc): nat
  {
    AlignmentsArePowersOfTwo();
    if desc.accessFlag == AccessCpuWriteableAligned
    then RoundUp(desc.elementSize, ConstantBufferPlacementAlignment)
    else RoundUp(desc.elementSize, RawUavSrvByteAlignment)
  }

  /** An upload buffer holds every element once per frame slot. */
  function UploadWidth(desc: UploadBufferDesc): nat
  {
    UploadChunkSize(desc) * desc.elementCount * NumFrameResources
  }

  /** The chunk is the least aligned size that holds an element. */
  lemma UploadChunkSizeBounds(desc: UploadBufferDesc)
    ensures var a := if desc.accessFlag == AccessCpuWriteableAligned then ConstantBufferPlacementAlignment else RawUavSrvByteAlignment;
      UploadChunkSize(desc) % a == 0
      && desc.elementSize <= UploadChunkSize(desc) < desc.elementSize + a
  {
    AlignmentsArePowersOfTwo();
    RoundUpBounds(desc.elementSize, ConstantBufferPlacementAlignment);
    RoundUpBounds(desc.elementSize, RawUavSrvByteAlignment);
  }

  /** A default buffer is packed: the chunk is the element size. */
  function DefaultChunkSize(desc: DefaultBufferDesc): nat { desc.elementSize }
  function DefaultWidth(desc: DefaultBufferDesc): nat { desc.elementCount * desc.elementSize }

  /** A byte-address buffer rounds its elements up to 16 bytes and has a single copy. */
  function ByteAddressChunkSize(desc: ByteAddressBufferDesc): nat
  {
    AlignmentsArePowersOfTwo();
    RoundUp(desc.elementSize, RawUavSrvByteAlignment)
  }

  function ByteAddressWidth(desc: ByteAddressBufferDesc): nat
  {
    ByteAddressChunkSize(desc) * desc.elementCount
  }

  /**
   * Every element of a default or byte-address buffer fits in the buffer at
   * index * chunk; the byte-address elements Init builds take 16 bytes each.
   */
  lemma {:induction false} SingleCopySizing(d: DefaultBufferDesc, b: ByteAddressBufferDesc, i: nat, j: nat)
    requires i < d.elementCount && j < b.elementCount
    ensures i * DefaultChunkSize(d) + d.elementSize <= DefaultWidth(d)
    ensures j * ByteAddressChunkSize(b) + b.elementSize <= ByteAddressWidth(b)
    ensures ByteAddressChunkSize(b) % RawUavSrvByteAlignment == 0
    ensures b.elementSize == 4 ==> ByteAddressChunkSize(b) == 16
  {
    AlignmentsArePowersOfTwo();
    RoundUpBounds(b.elementSize, RawUavSrvByteAlignment);
    ElementRangeInBounds(0, 1, d.elementCount, i, d.elementSize, d.elementSize);
    ElementRangeInBounds(0, 1, b.elementCount, j, ByteAddressChunkSize(b), b.elementSize);
    assert d.elementCount * d.elementSize == d.elementSize * d.elementCount * 1;
    if b.elementSize == 4 {
      RoundUpIsLeastMultiple(4, RawUavSrvByteAlignment, 16);
    }
  }

  // ---------------------------------------------------------------------------
  // Upload buffers
  // ---------------------------------------------------------------------------

  /** mem with the bytes from off onwards replaced by data. */
  function Overwrite(mem: seq<byte>, off: nat, data: seq<byte>): (r: seq<byte>)
    requires off + |data| <= |mem|
    ensures |r| == |mem|
  {
    mem[..off] + data + mem[off + |data|..]
  }

  /** Byte by byte: the range from off holds data and every other byte is unchanged. */
  lemma OverwriteBytes(mem: seq<byte>, off: nat, data: seq<byte>)
    requires off + |data| <= |mem|
    ensures var r := Overwrite(mem, off, data);
      (forall k :: off <= k < off + |data| ==> r[k] == data[k - off])
      && forall k :: 0 <= k < |mem| && !(off <= k < off + |data|) ==> r[k] == mem[k]
  {
  }

  /** Reading back the bytes an Overwrite wrote gives the data. */
  lemma OverwriteReadsBack(mem: seq<byte>, off: nat, data: seq<byte>)
    requires off + |data| <= |mem|
    ensures Overwrite(mem, off, data)[off .. off + |data|] == data
  {
    OverwriteBytes(mem, off, data);
    var w := Overwrite(mem, off, data)[off .. off + |data|];
    assert forall k :: 0 <= k < |data| ==> w[k] == data[k];
  }

  /** An Overwrite leaves any range it does not touch as it was. */
  lemma OverwriteKeepsRange(mem: seq<byte>, off: nat, data: seq<byte>, lo: nat, n: nat)
    requires off + |data| <= |mem| && lo + n <= |mem|
    requires lo + n <= off || off + |data| <= lo
    ensures Overwrite(mem, off, data)[lo .. lo + n] == mem[lo .. lo + n]
  {
    OverwriteBytes(mem, off, data);
    var w, v := Overwrite(mem, off, data)[lo .. lo + n], mem[lo .. lo + n];
    assert forall k :: 0 <= k < n ==> w[k] == v[k];
  }

  /**
   * D3DUploadBuffer: the description (with its width filled in), the chunk
   * size, the persistently mapped memory of all N slots, and the identity and
   * GPU address of the committed resource. Structured (non-constant) buffers
   * also get a shader resource view.
   */
  class UploadBuffer {
    const debugName: string
    const desc: UploadBufferDesc
    const chunk: nat
    const mapped: array<byte>
    const resource: nat
    const baseAddress: nat
    const hasShaderResourceView: bool

    // Every field is constant, so the functions below read no mutable state.
    ghost predicate Valid()
    {
      chunk == UploadChunkSize(desc)
      && desc.width == UploadWidth(desc)
      && mapped.Length == desc.width == chunk * desc.elementCount * NumFrameResources
      && desc.elementSize <= chunk
    }

    /** The constructor sizes the buffer from the description and maps it once. */
    constructor (debugName: string, d: UploadBufferDesc, resource: nat, baseAddress: nat)
      ensures Valid() && fresh(mapped)
      ensures this.debugName == debugName && desc == d.(width := UploadWidth(d))
      ensures this.resource == resource && this.baseAddress == baseAddress
      ensures hasShaderResourceView <==> d.accessFlag != AccessCpuWriteableAligned
    {
      UploadChunkSizeBounds(d);
      this.debugName := debugName;
      chunk := UploadChunkSize(d);
      desc := d.(width := UploadWidth(d));
      mapped := new byte[UploadWidth(d)];
      this.resource := resource;
      this.baseAddress := baseAddress;
      hasShaderResourceView := d.accessFlag != AccessCpuWriteableAligned;
    }

    /** Where element i of slot frame lives in the mapped memory. */
    function SlotElementOffset(frame: nat, i: nat): nat
    {
      ElementOffset(frame, desc.elementCount, i, chunk)
    }

    /**
     * GetGPUVirtualAddress(i), with the current slot as a parameter: the
     * element's address lies inside the resource and a whole element fits
     * there without reaching the next element.
     */
    function GetGPUVirtualAddress(frame: nat, i: nat): (address: nat)
      requires Valid() && frame < NumFrameResources && i < desc.elementCount
      ensures address == baseAddress + SlotElementOffset(frame, i)
      ensures baseAddress <= address && address + chunk <= baseAddress + desc.width
      ensures desc.elementSize <= chunk
    {
      UploadChunkSizeBounds(desc);
      ElementRangeInBounds(frame, NumFrameResources, desc.elementCount, i, chunk, chunk);
      baseAddress + SlotElementOffset(frame, i)
    }

    /**
     * CopyData(i, data), with the current slot as a parameter: the element's
     * bytes in that slot become data; every other byte is unchanged.
     */
    method CopyData(frame: nat, i: nat, data: seq<byte>)
      requires Valid() && desc.accessFlag != AccessGpuOnly
      requires i < desc.elementCount && frame < NumFrameResources
      requires |data| == desc.elementSize
      modifies mapped
      ensures SlotElementOffset(frame, i) + |data| <= mapped.Length
      ensures mapped[..] == Overwrite(old(mapped[..]), SlotElementOffset(frame, i), data)
    {
      var off := SlotElementOffset(frame, i);
      UploadChunkSizeBounds(desc);
      ElementRangeInBounds(frame, NumFrameResources, desc.elementCount, i, chunk, desc.elementSize);
      forall k | 0 <= k < |data| {
        mapped[off + k] := data[k];
      }
      OverwriteBytes(old(mapped[..]), off, data);
      assert mapped[..] == Overwrite(old(mapped[..]), off, data);
    }

    /** Release: the resource goes on the current slot's deferred-release list and the slot is flagged. */
    method Release(ctx: GraphicsContext)
      requires ctx.Valid()
      modifies ctx.deferredReleases, ctx.deferredFlags
      ensures ctx.Valid()
      ensures ctx.deferredReleases[..] == old(ctx.deferredReleases[..])[ctx.frames.index := old(ctx.deferredReleases[ctx.frames.index]) + [resource]]
      ensures ctx.deferredFlags[..] == old(ctx.deferredFlags[..])[ctx.frames.index := 1]
    {
      ctx.DeferredRelease(resource);
      ctx.SetDeferredReleasesFlag();
    }
  }

  /**
   * Two CopyData calls on different (slot, element) pairs write disjoint byte
   * ranges of the mapped memory, so replaying one slot never disturbs another.
   */
  lemma {:induction false} CopyDataTargetsDisjoint(b: UploadBuffer, f1: nat, i1: nat, f2: nat, i2: nat)
    requires b.Valid() && i1 < b.desc.elementCount && i2 < b.desc.elementCount
    requires f1 != f2 || i1 != i2
    ensures b.SlotElementOffset(f1, i1) + b.desc.elementSize <= b.SlotElementOffset(f2, i2)
         || b.SlotElementOffset(f2, i2) + b.desc.elementSize <= b.SlotElementOffset(f1, i1)
  {
    UploadChunkSizeBounds(b.desc);
    ElementRangesDisjoint(f1, i1, f2, i2, b.desc.elementCount, b.chunk, b.desc.elementSize);
  }

  // ---------------------------------------------------------------------------
  // Unordered-access buffers
  // ---------------------------------------------------------------------------

  datatype UavDimension = Texture1D | Texture2D | Texture3D

  /** The UAV view: 3D when height and depth both exceed 1, 2D when only height does, 1D otherwise. */
  function UavViewDimension(height: nat, depth: nat): UavDimension
  {
    if height > 1 && depth > 1 then Texture3D
    else if height > 1 then Texture2D
    else Texture1D
  }

  /** Each dimension is chosen exactly in its case; a depth above 1 is ignored when the height is 1. */
  lemma UavViewDimensionCases(height: nat, depth: nat)
    ensures UavViewDimension(height, depth) == Texture3D <==> height > 1 && depth > 1
    ensures UavViewDimension(height, depth) == Texture2D <==> height > 1 && depth <= 1
    ensures UavViewDimension(height, depth) == Texture1D <==> height <= 1
  {
  }

  /**
   * D3DUnorderedAccessBuffer: its description, its view dimension, the
   * resource type it is currently in, and the barriers it has recorded.
   */
  class UnorderedAccessBuffer {
    var desc: UnorderedAccessBufferDesc
    var viewDimension: UavDimension
    var resourceType: uint32
    const resource: nat
    var barriers: seq<ResourceBarrier>

    ghost predicate Valid()
      reads this
    {
      viewDimension == UavViewDimension(desc.height, desc.depth)
    }

    /** The constructor builds the resource in the unordered-access type with the view its shape calls for. */
    constructor (d: UnorderedAccessBufferDesc, resource: nat)
      ensures Valid() && desc == d && resourceType == ResourceUnorderedAccessBuffer
      ensures this.resource == resource && barriers == []
    {
      desc := d;
      viewDimension := UavViewDimension(d.height, d.depth);
      resourceType := ResourceUnorderedAccessBuffer;
      this.resource := resource;
      barriers := [];
    }

    /** Resize: new extents, and the view is rebuilt for them. */
    method Resize(width: nat, height: nat, depth: nat)
      requires Valid()
      modifies this`desc, this`viewDimension
      ensures Valid()
      ensures desc == old(desc).(width := width, height := height, depth := depth)
    {
      desc := desc.(width := width, height := height, depth := depth);
      viewDimension := UavViewDimension(height, depth);
    }

    /**
     * TransitionToType: nothing happens when the type is unchanged; otherwise
     * a transition barrier from the old type's state to the new type's state is
     * recorded and the type changes.
     */
    method TransitionToType(newType: uint32)
      requires Valid()
      requires resourceType != newType ==> HasResourceState(resourceType) && HasResourceState(newType)
      modifies this`resourceType, this`barriers
      ensures Valid() && resourceType == newType
      ensures old(resourceType) == newType ==> barriers == old(barriers)
      ensures old(resourceType) != newType ==>
        barriers == old(barriers) + [TransitionBarrier(resource, ResourceTypeToStateD3D(old(resourceType)), ResourceTypeToStateD3D(newType))]
    {
      if resourceType == newType {
        return;
      }
      var barrier := TransitionBarrier(resource, ResourceTypeToStateD3D(resourceType), ResourceTypeToStateD3D(newType));
      barriers := barriers + [barrier];
      resourceType := newType;
    }
  }
}
