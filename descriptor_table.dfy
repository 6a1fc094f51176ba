// Descriptor handles and heaps of Platform/DirectX12/Memory/D3DMemoryAllocator.h,
// and the two table allocators of Platform/DirectX12/Memory/D3DTableAllocator.cpp:
// D3DDescriptorTable keeps one physical copy of its descriptors per frame slot
// and propagates a changed descriptor to every copy over N frames, the way the
// memory manager propagates a changed upload buffer; D3DTableAllocator hands out
// the handles of a sub-range one after the other.
module DescriptorTable {
  import opened FrameResources
  import opened DirtyCountdown

  /** UINT32_MAX, the index of a handle that has not been given one. */
  const NoIndex: nat := 0xFFFF_FFFF

  /** A descriptor pointer cast from -1: all 64 bits set. */
  const InvalidPointer: nat := 0xFFFF_FFFF_FFFF_FFFF

  /** D3DDescriptorHandle: a CPU and a GPU descriptor pointer, a validity flag and an index. */
  datatype DescriptorHandle = DescriptorHandle(cpu: nat, gpu: nat, isValid: bool, index: nat)

  /** The default constructor: an invalid handle whose pointers are -1 and whose index is UINT32_MAX. */
  function DefaultHandle(): (h: DescriptorHandle)
    ensures !h.isValid && h.cpu == InvalidPointer && h.gpu == InvalidPointer && h.index == NoIndex
  {
    DescriptorHandle(InvalidPointer, InvalidPointer, false, NoIndex)
  }

  /** The constructor from a CPU and a GPU handle: a valid handle without an index. */
  function HandleOf(cpu: nat, gpu: nat): (h: DescriptorHandle)
    ensures h.isValid && h.cpu == cpu && h.gpu == gpu && h.index == NoIndex
  {
    DescriptorHandle(cpu, gpu, true, NoIndex)
  }

  /**
   * handle + offset. The body of D3DDescriptorHandle::operator+ is not part of
   * this model; it is taken to advance both descriptor pointers by offset bytes.
   */
  function Offset(h: DescriptorHandle, offset: nat): (r: DescriptorHandle)
    ensures r.cpu - h.cpu == offset && r.gpu - h.gpu == offset
    ensures r.isValid == h.isValid && r.index == h.index
  {
    h.(cpu := h.cpu + offset, gpu := h.gpu + offset)
  }

  /** Offsetting twice is offsetting once by the sum. */
  lemma OffsetTwice(h: DescriptorHandle, a: nat, b: nat)
    ensures Offset(Offset(h, a), b) == Offset(h, a + b)
  {
  }

  /** A call a client makes on a descriptor heap. */
  datatype HeapCall = AllocateCall(count: nat) | FreeCall(handle: DescriptorHandle)

  /**
   * D3DDescriptorHeap: its counters, one deferred-available index list per
   * frame slot, and shader visibility. The bodies of Allocate, Free and
   * ProcessDeferredFree are not part of this model: Allocate answers with the
   * handle the heap hands out (a parameter), and every call is recorded in
   * calls so that the tables' use of the heap can be stated.
   */
  class DescriptorHeap {
    var incrementSize: nat
    var freeCount: nat
    var heapSize: nat
    var capacity: nat
    var count: nat
    const deferredAvailable: array<seq<nat>>
    var shaderVisible: bool
    var calls: seq<HeapCall>

    /** A fresh heap: every counter 0, one empty deferred list per slot, shader visible (D3DMemoryAllocator.h:46, 68-79). */
    constructor ()
      ensures incrementSize == 0 && freeCount == 0
      ensures heapSize == 0 && capacity == 0 && count == 0
      ensures deferredAvailable.Length == NumFrameResources && fresh(deferredAvailable)
      ensures forall s :: 0 <= s < NumFrameResources ==> deferredAvailable[s] == []
      ensures shaderVisible && calls == []
    {
      incrementSize, freeCount := 0, 0;
      heapSize, capacity, count := 0, 0, 0;
      deferredAvailable := new seq<nat>[NumFrameResources](_ => []);
      shaderVisible := true;
      calls := [];
    }

    /** Allocate(count): answers with handed, the start of the range the heap hands out. */
    method Allocate(n: nat, handed: DescriptorHandle) returns (h: DescriptorHandle)
      modifies this`calls
      ensures h == handed && calls == old(calls) + [AllocateCall(n)]
    {
      h := handed;
      calls := calls + [AllocateCall(n)];
    }

    /** Free(handle). */
    method Free(h: DescriptorHandle)
      modifies this`calls
      ensures calls == old(calls) + [FreeCall(h)]
    {
      calls := calls + [FreeCall(h)];
    }
  }

  // ---------------------------------------------------------------------------
  // D3DDescriptorTable
  // ---------------------------------------------------------------------------

  /**
   * One physical copy of a table after the pending descriptors of ids have
   * been copied into it: those positions hold their pending descriptor, the
   * others keep what they held.
   */
  function CopiedInto(copy: map<nat, DescriptorHandle>, pending: seq<DescriptorHandle>, ids: set<nat>): (r: map<nat, DescriptorHandle>)
    requires forall id :: id in ids ==> id < |pending|
    ensures r.Keys == copy.Keys + ids
    ensures forall id :: id in ids ==> r[id] == pending[id]
    ensures forall id :: id in copy && id !in ids ==> r[id] == copy[id]
  {
    map id | id in copy.Keys + ids :: if id in ids then pending[id] else copy[id]
  }

  /** Copying one more ID is a single CopyDescriptorsSimple into its position. */
  lemma CopiedIntoStep(copy: map<nat, DescriptorHandle>, pending: seq<DescriptorHandle>, ids: set<nat>, id: nat)
    requires forall k :: k in ids ==> k < |pending|
    requires id < |pending|
    ensures CopiedInto(copy, pending, ids)[id := pending[id]] == CopiedInto(copy, pending, ids + {id})
  {
  }

  /** Copying no ID leaves a copy as it was. */
  lemma CopiedIntoNothing(copy: map<nat, DescriptorHandle>, pending: seq<DescriptorHandle>)
    ensures CopiedInto(copy, pending, {}) == copy
  {
  }

  /**
   * The loop of Update over one slot's copy: every dirty position gets its
   * pending descriptor and its countdown drops by one, the ones reaching 0
   * being erased, whatever order the entries are visited in.
   */
  method CopyPass(copy: map<nat, DescriptorHandle>, pending: seq<DescriptorHandle>, counts: DirtyMap)
    returns (copied: map<nat, DescriptorHandle>, next: DirtyMap)
    requires forall id :: id in counts ==> id < |pending| && counts[id] > 0
    ensures copied == CopiedInto(copy, pending, counts.Keys)
    ensures next == Tick(counts)
  {
    copied, next := copy, counts;
    var todo := counts.Keys;
    PartialTickEnds(counts);
    CopiedIntoNothing(copy, pending);
    assert counts.Keys - todo == {};
    while todo != {}
      invariant todo <= counts.Keys
      invariant next == PartialTick(counts, todo)
      invariant copied == CopiedInto(copy, pending, counts.Keys - todo)
      decreases todo
    {
      var id :| id in todo;
      PartialTickStep(counts, todo, id);
      CopiedIntoStep(copy, pending, counts.Keys - todo, id);
      assert counts.Keys - (todo - {id}) == (counts.Keys - todo) + {id};
      copied := copied[id := pending[id]];
      var numFramesDirty := next[id] - 1;
      if numFramesDirty == 0 {
        next := next - {id};
      } else {
        next := next[id := numFramesDirty];
      }
      todo := todo - {id};
    }
    assert counts.Keys - todo == counts.Keys;
  }

  /**
   * D3DDescriptorTable: the heap it was carved from (null before Init), the
   * start of each slot's copy, the increment between descriptors, the
   * capacity and the bump counter, the dirty countdowns and the pending
   * descriptor of every position. The copies the GPU reads are the ranges the
   * starts point to; the model keeps their contents as one map per slot from
   * position to the descriptor copied there.
   */
  class D3DDescriptorTable {
    var heap: DescriptorHeap?
    var tableType: nat
    const starts: array<DescriptorHandle>
    const copies: array<map<nat, DescriptorHandle>>
    var incrementSize: nat
    var capacity: nat
    var count: nat
    var dirty: DirtyMap
    var pending: seq<DescriptorHandle>
    var hasAllocatedSubRange: bool

    /**
     * One start and one copy per slot; one pending descriptor per position;
     * the table is initialised exactly when it has a heap, and then the bump
     * counter stays below the capacity; only positions are dirty, each for 1
     * to N frames.
     */
    ghost predicate Valid()
      reads this
    {
      starts.Length == NumFrameResources && copies.Length == NumFrameResources
      && |pending| == capacity
      && (hasAllocatedSubRange <==> heap != null)
      && (heap != null ==> 0 < capacity && count < capacity)
      && (heap == null ==> count == 0 && capacity == 0)
      && (forall id :: id in dirty ==> id < capacity)
      && CountdownsValid(dirty)
    }

    /** The default constructor: no heap, no capacity, nothing allocated (D3DTableAllocator.cpp:59-67). */
    constructor ()
      ensures Valid() && fresh(starts) && fresh(copies)
      ensures heap == null && !hasAllocatedSubRange && incrementSize == 0 && capacity == 0 && count == 0
      ensures dirty == map[] && pending == []
      ensures forall s :: 0 <= s < NumFrameResources ==> copies[s] == map[]
    {
      heap := null;
      tableType := 0;
      starts := new DescriptorHandle[NumFrameResources](_ => DefaultHandle());
      copies := new map<nat, DescriptorHandle>[NumFrameResources](_ => map[]);
      incrementSize, capacity, count := 0, 0, 0;
      dirty := map[];
      pending := [];
      hasAllocatedSubRange := false;
    }

    /**
     * Init: the heap must be given, the capacity non-zero and the table not
     * yet initialised. The pending list grows to capacity default handles and
     * the heap hands out one range of capacity descriptors per slot, in slot
     * order; handed holds the starts it answers with.
     */
    method Init(h: DescriptorHeap, cap: nat, kind: nat, handed: seq<DescriptorHandle>)
      requires Valid() && heap == null && cap != 0
      requires |handed| == NumFrameResources
      modifies this`heap, this`tableType, this`capacity, this`pending, this`incrementSize, this`hasAllocatedSubRange
      modifies starts, h`calls
      ensures Valid() && hasAllocatedSubRange && heap == h && tableType == kind
      ensures capacity == cap && incrementSize == h.incrementSize
      ensures |pending| == cap && forall k :: 0 <= k < cap ==> pending[k] == DefaultHandle()
      ensures starts[..] == handed
      ensures h.calls == old(h.calls) + [AllocateCall(cap), AllocateCall(cap), AllocateCall(cap)]
      ensures count == old(count) && dirty == old(dirty) && copies[..] == old(copies[..])
    {
      tableType := kind;
      heap := h;
      capacity := cap;
      pending := seq(cap, _ => DefaultHandle());
      incrementSize := h.incrementSize;
      var i := 0;
      while i < NumFrameResources
        invariant 0 <= i <= NumFrameResources
        invariant heap == h && tableType == kind && capacity == cap && incrementSize == h.incrementSize
        invariant pending == seq(cap, _ => DefaultHandle()) && !hasAllocatedSubRange
        invariant starts[..i] == handed[..i]
        invariant h.calls == old(h.calls) + seq(i, _ => AllocateCall(cap))
      {
        var start := h.Allocate(cap, handed[i]);
        starts[i] := start;
        assert seq(i + 1, _ => AllocateCall(cap)) == seq(i, _ => AllocateCall(cap)) + [AllocateCall(cap)];
        i := i + 1;
      }
      assert starts[..] == starts[..NumFrameResources];
      assert seq(3, _ => AllocateCall(cap)) == [AllocateCall(cap), AllocateCall(cap), AllocateCall(cap)];
      hasAllocatedSubRange := true;
    }

    /**
     * Update(frame): the pending descriptor of every dirty position is copied
     * into that position of slot frame's copy, and every countdown drops by
     * one, the ones reaching 0 being erased. The other copies and the clean
     * positions are not touched, whatever order the entries are visited in.
     */
    method Update(frame: nat)
      requires Valid() && frame < NumFrameResources
      modifies this`dirty, copies
      ensures Valid()
      ensures dirty == Tick(old(dirty))
      ensures copies[frame] == CopiedInto(old(copies[frame]), pending, old(dirty).Keys)
      ensures forall s :: 0 <= s < NumFrameResources && s != frame ==> copies[s] == old(copies[s])
    {
      ghost var counts := dirty;
      var copied, next := CopyPass(copies[frame], pending, dirty);
      copies[frame] := copied;
      dirty := next;
      TickValid(counts);
    }

    /**
     * UpdateAll: Update(0), Update(1), Update(2). Copy f receives the
     * positions still dirty after f passes, and the dirty map ends empty.
     */
    method UpdateAll()
      requires Valid()
      modifies this`dirty, copies
      ensures Valid() && dirty == map[]
      ensures TickN(old(dirty), 1).Keys <= old(dirty).Keys && TickN(old(dirty), 2).Keys <= old(dirty).Keys
      ensures copies[0] == CopiedInto(old(copies[0]), pending, old(dirty).Keys)
      ensures copies[1] == CopiedInto(old(copies[1]), pending, TickN(old(dirty), 1).Keys)
      ensures copies[2] == CopiedInto(old(copies[2]), pending, TickN(old(dirty), 2).Keys)
    {
      ghost var d := dirty;
      ghost var c2 := copies[2];
      TickNKeys(d, 1);
      TickNKeys(d, 2);
      Update(0);
      assert dirty == TickN(d, 1);
      ghost var c0 := copies[0];
      assert copies[2] == c2;
      Update(1);
      assert dirty == TickN(d, 2);
      ghost var c1 := copies[1];
      assert copies[0] == c0 && copies[2] == c2;
      Update(2);
      assert dirty == TickN(d, 3);
      assert copies[0] == c0 && copies[1] == c1;
      ValidMapEmptiesAfterNUpdates(d);
    }

    /**
     * Allocate(n): the IDs from the counter on are handed out. The source's
     * assertion is the strict count + n < capacity, so the last position is
     * never handed out.
     */
    method Allocate(n: nat) returns (id: nat)
      requires Valid() && count + n < capacity
      modifies this`count
      ensures Valid()
      ensures id == old(count) && count == old(count) + n && count < capacity
    {
      id := count;
      count := count + n;
    }

    /**
     * CopyDescriptor(id, src): the pending descriptor of id becomes src and id
     * is dirty for exactly N frames, whether or not it already was.
     */
    method CopyDescriptor(id: nat, src: DescriptorHandle)
      requires Valid() && id < |pending|
      modifies this`dirty, this`pending
      ensures Valid()
      ensures pending == old(pending)[id := src]
      ensures dirty == MarkDirty(old(dirty), id)
    {
      MarkDirtyValid(dirty, id);
      dirty := dirty[id := NumFrameResources];
      pending := pending[id := src];
    }

    /**
     * Free(id): frees, in the heap, the descriptor at position id of the
     * current slot's copy only. The current slot is a parameter.
     */
    method Free(id: nat, frame: nat)
      requires Valid() && heap != null && frame < NumFrameResources
      modifies heap`calls
      ensures heap.calls == old(heap.calls) + [FreeCall(Offset(starts[frame], incrementSize * id))]
      ensures count == old(count) && pending == old(pending) && dirty == old(dirty)
    {
      var handleToRemove := Offset(starts[frame], incrementSize * id);
      heap.Free(handleToRemove);
    }

    /** GetGPUHandle: the GPU start of the copy the current slot reads. */
    function GetGPUHandle(frame: nat): (g: nat)
      reads starts
      requires starts.Length == NumFrameResources && frame < NumFrameResources
      ensures g == starts[frame].gpu
    {
      starts[frame].gpu
    }

    /** GetDescriptorCount: the bump counter. */
    function GetDescriptorCount(): (c: nat)
      reads this
      requires Valid()
      ensures c == count && (heap != null ==> c < capacity)
    {
      count
    }
  }

  /**
   * Descriptor-table propagation over several frames: after CopyDescriptor(id,
   * src), the N following Update passes cover the N slots, each copying src
   * into position id of its copy, and id is clean afterwards. Here it is stated
   * on the dirty map: the written entry takes part in exactly the first N passes.
   */
  lemma {:induction false} CopyReachesEverySlot(m: DirtyMap, id: nat, f: nat)
    ensures id in TickN(MarkDirty(m, id), f) <==> f < NumFrameResources
  {
    WriteIsCleanAfterNUpdates(m, id, f);
  }

  /**
   * UpdateAll after a CopyDescriptor (D3DAssetManager's use): every slot's
   * copy holds the new descriptor at its position, since the entry is dirty
   * for each of the three passes.
   */
  lemma {:induction false} UpdateAllAfterCopyFillsEveryCopy(
    copies: seq<map<nat, DescriptorHandle>>, pending: seq<DescriptorHandle>, m: DirtyMap, id: nat)
    requires |copies| == NumFrameResources && id < |pending|
    requires forall k :: k in m ==> k < |pending|
    ensures forall f :: 0 <= f < NumFrameResources ==>
      (forall k :: k in TickN(MarkDirty(m, id), f) ==> k < |pending|)
      && id in CopiedInto(copies[f], pending, TickN(MarkDirty(m, id), f).Keys)
      && CopiedInto(copies[f], pending, TickN(MarkDirty(m, id), f).Keys)[id] == pending[id]
  {
    forall f | 0 <= f < NumFrameResources
      ensures (forall k :: k in TickN(MarkDirty(m, id), f) ==> k < |pending|)
      ensures id in TickN(MarkDirty(m, id), f)
    {
      CopyReachesEverySlot(m, id, f);
      TickNKeys(MarkDirty(m, id), f);
    }
  }

  // ---------------------------------------------------------------------------
  // D3DTableAllocator
  // ---------------------------------------------------------------------------

  /** The capacity check D3DTableAllocator::Allocate is written with: count > capacity. */
  predicate AllocateGuardAsWritten(count: nat, capacity: nat)
  {
    count > capacity
  }

  /** The capacity check it evidently means: there is room for one more handle. */
  predicate AllocateGuard(count: nat, capacity: nat)
  {
    count < capacity
  }

  /**
   * The written check rejects every allocation while there is room (a fresh
   * allocator fails it on its first call) and admits only allocations that
   * start at or past the end of the sub-range.
   */
  lemma AllocateGuardAsWrittenIsInverted(size: nat, count: nat, capacity: nat)
    ensures count < capacity ==> !AllocateGuardAsWritten(count, capacity)
    ensures AllocateGuardAsWritten(count, capacity) ==> size * capacity <= size * count
  {
    if count > capacity {
      StepsMonotone(size, capacity, count);
    }
  }

  /** The evident check admits exactly the allocations whose handle lies inside the sub-range. */
  lemma AllocateGuardKeepsInRange(size: nat, count: nat, capacity: nat)
    requires size > 0
    ensures AllocateGuard(count, capacity) <==> size * count + size <= size * capacity
  {
    assert size * (count + 1) == size * count + size;
    if count < capacity {
      StepsMonotone(size, count + 1, capacity);
    } else {
      StepsMonotone(size, capacity, count);
    }
  }

  /** More steps of the same size reach no nearer. */
  lemma StepsMonotone(size: nat, a: nat, b: nat)
    requires a <= b
    ensures size * a <= size * b
  {
    assert size * b == size * a + size * (b - a);
  }

  /**
   * D3DTableAllocator: a sub-range of capacity descriptors carved from a heap
   * at construction, handed out one after the other. The distance between two
   * handles, m_SubRangeSize, is the heap's size. m_OffsetFromHeapStart is never
   * initialised, so the model leaves its value unconstrained.
   */
  class D3DTableAllocator {
    const heap: DescriptorHeap
    const begin: DescriptorHandle
    const end: DescriptorHandle
    var next: DescriptorHandle
    const size: nat
    const capacity: nat
    var count: nat
    var offsetFromHeapStart: nat
    const hasAllocatedSubRange: bool

    /** The next handle lies count steps of size past the beginning. */
    ghost predicate Valid()
      reads this
    {
      next == Offset(begin, size * count) && end == Offset(begin, size * capacity)
    }

    /**
     * The constructor: the capacity must be non-zero; the heap hands out the
     * sub-range (handed), which ends capacity steps further on.
     */
    constructor (h: DescriptorHeap, cap: nat, handed: DescriptorHandle)
      requires cap != 0
      modifies h`calls
      ensures Valid() && heap == h && capacity == cap && size == h.heapSize && count == 0
      ensures begin == handed && next == handed && end == Offset(handed, h.heapSize * cap)
      ensures !hasAllocatedSubRange
      ensures h.calls == old(h.calls) + [AllocateCall(cap)]
    {
      heap := h;
      size := h.heapSize;
      capacity := cap;
      count := 0;
      hasAllocatedSubRange := false;
      var start := h.Allocate(cap, handed);
      begin := start;
      end := Offset(start, h.heapSize * cap);
      next := start;
    }

    /**
     * Allocate as the source writes it: its precondition is the inverted
     * check count > capacity. The handle handed out is the next one, indexed
     * by the (unspecified) offset plus the count; the next handle moves one
     * step on.
     */
    method AllocateAsWritten() returns (ret: DescriptorHandle)
      requires Valid() && AllocateGuardAsWritten(count, capacity)
      modifies this`next, this`count
      ensures Valid() && count == old(count) + 1
      ensures ret == old(next).(index := offsetFromHeapStart + old(count))
      ensures end.cpu <= ret.cpu
    {
      AllocateGuardAsWrittenIsInverted(size, count, capacity);
      ret := next.(index := offsetFromHeapStart + count);
      OffsetTwice(begin, size * count, size);
      next := Offset(next, size);
      count := count + 1;
    }

    /**
     * Allocate with the check it evidently means: while there is room, the
     * next handle is handed out, and the whole descriptor it points to lies
     * inside the sub-range.
     */
    method Allocate() returns (ret: DescriptorHandle)
      requires Valid() && AllocateGuard(count, capacity)
      modifies this`next, this`count
      ensures Valid() && count == old(count) + 1 && count <= capacity
      ensures ret == old(next).(index := offsetFromHeapStart + old(count))
      ensures begin.cpu <= ret.cpu && ret.cpu + size <= end.cpu
    {
      if size > 0 {
        AllocateGuardKeepsInRange(size, count, capacity);
      }
      ret := next.(index := offsetFromHeapStart + count);
      OffsetTwice(begin, size * count, size);
      next := Offset(next, size);
      count := count + 1;
    }

    /** Free(handle): hands the handle back to the heap. */
    method Free(h: DescriptorHandle)
      modifies heap`calls
      ensures heap.calls == old(heap.calls) + [FreeCall(h)]
    {
      heap.Free(h);
    }
  }
}
