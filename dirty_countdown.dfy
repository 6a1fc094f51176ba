// The "dirty for N frames" bookkeeping shared by MemoryManager (v_BuffersDirty)
// and D3DDescriptorTable (v_DescriptorsDirty): a map from an ID to the number of
// frame slots that still hold a stale copy of it.
module DirtyCountdown {
  import opened FrameResources

  /** pair<ID, numFramesDirty>. */
  type DirtyMap = map<nat, nat>

  /** Every countdown in the map is between 1 and N: entries that reach 0 are erased. */
  predicate CountdownsValid(m: DirtyMap)
  {
    forall id :: id in m ==> 0 < m[id] <= NumFrameResources
  }

  /** A write: the entry is set to N whether or not it was present. */
  function MarkDirty(m: DirtyMap, id: nat): DirtyMap
  {
    m[id := NumFrameResources]
  }

  /** One Update pass: every countdown drops by one and the entries reaching 0 are erased. */
  function Tick(m: DirtyMap): DirtyMap
  {
    map id | id in m && m[id] > 1 :: m[id] - 1
  }

  /** k Update passes with no write in between. */
  function TickN(m: DirtyMap, k: nat): DirtyMap
  {
    if k == 0 then m else Tick(TickN(m, k - 1))
  }

  /** A write keeps the countdowns valid and makes the written entry exactly N. */
  lemma MarkDirtyValid(m: DirtyMap, id: nat)
    requires CountdownsValid(m)
    ensures CountdownsValid(MarkDirty(m, id))
    ensures id in MarkDirty(m, id) && MarkDirty(m, id)[id] == NumFrameResources
    ensures forall other :: other != id ==> (other in MarkDirty(m, id) <==> other in m)
  {
  }

  /** An Update pass keeps the countdowns valid and never adds an entry. */
  lemma TickValid(m: DirtyMap)
    requires CountdownsValid(m)
    ensures CountdownsValid(Tick(m))
    ensures Tick(m).Keys <= m.Keys
  {
  }

  /**
   * After k passes an entry is present exactly when its countdown exceeded k,
   * and then it has dropped by k.
   */
  lemma {:induction false} TickNValue(m: DirtyMap, k: nat, id: nat)
    requires id in m ==> m[id] > 0
    ensures id in TickN(m, k) <==> id in m && m[id] > k
    ensures id in TickN(m, k) ==> TickN(m, k)[id] == m[id] - k
  {
    if k > 0 {
      TickNValue(m, k - 1, id);
      var prev := TickN(m, k - 1);
      assert TickN(m, k) == Tick(prev);
      assert id in Tick(prev) <==> id in prev && prev[id] > 1;
    }
  }

  /** Passes never add an entry. */
  lemma {:induction false} TickNKeys(m: DirtyMap, k: nat)
    ensures TickN(m, k).Keys <= m.Keys
  {
    if k > 0 {
      TickNKeys(m, k - 1);
    }
  }

  /**
   * One write followed by N passes with no further write leaves the entry
   * clean, and it stays dirty through every earlier pass.
   */
  lemma {:induction false} WriteIsCleanAfterNUpdates(m: DirtyMap, id: nat, k: nat)
    ensures id in TickN(MarkDirty(m, id), k) <==> k < NumFrameResources
    ensures k < NumFrameResources ==> TickN(MarkDirty(m, id), k)[id] == NumFrameResources - k
  {
    TickNValue(MarkDirty(m, id), k, id);
  }

  /** Any valid dirty map is empty after N passes with no write. */
  lemma {:induction false} ValidMapEmptiesAfterNUpdates(m: DirtyMap)
    requires CountdownsValid(m)
    ensures TickN(m, NumFrameResources) == map[]
  {
    forall id | id in TickN(m, NumFrameResources)
      ensures false
    {
      TickNValue(m, NumFrameResources, id);
    }
  }

  /** A write in the middle of the countdown restarts it: N more passes are then needed. */
  lemma {:induction false} WriteRestartsCountdown(m: DirtyMap, id: nat, j: nat, k: nat)
    ensures id in TickN(MarkDirty(TickN(MarkDirty(m, id), j), id), k) <==> k < NumFrameResources
  {
    WriteIsCleanAfterNUpdates(TickN(MarkDirty(m, id), j), id, k);
  }

  /**
   * An Update pass part-way through: the entries in todo are not yet visited
   * and keep their countdown; the others have been ticked (or erased).
   */
  function PartialTick(m: DirtyMap, todo: set<nat>): DirtyMap
  {
    map id | id in m && (id in todo || m[id] > 1) :: if id in todo then m[id] else m[id] - 1
  }

  /** The visit of one entry in an Update pass: decrement it, and erase it when it reaches 0. */
  function CountDownEntry(m: DirtyMap, id: nat): DirtyMap
    requires id in m && m[id] > 0
  {
    if m[id] - 1 == 0 then m - {id} else m[id := m[id] - 1]
  }

  /** Visiting one not-yet-visited entry of a valid map moves the partial pass one entry on. */
  lemma PartialTickStep(m: DirtyMap, todo: set<nat>, id: nat)
    requires id in todo && todo <= m.Keys && m[id] > 0
    ensures id in PartialTick(m, todo)
    ensures PartialTick(m, todo - {id}) == CountDownEntry(PartialTick(m, todo), id)
  {
  }

  /** Before the first visit the map is untouched; after the last it has had one whole pass. */
  lemma PartialTickEnds(m: DirtyMap)
    ensures PartialTick(m, m.Keys) == m && PartialTick(m, {}) == Tick(m)
  {
  }
}
