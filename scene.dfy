// The registries and mesh tables of Skateboard/Scene/Scene.cpp: the pipelines
// and meshlet models a scene keeps by name, the per-mesh start locations and
// index counts the scene builder fills in, the instance structured buffer, and
// the tag of a new entity. The entt registry and SceneInstanceData are not part
// of this model: what the scene asks SceneInstanceData is answered by parameters,
// and the calls it makes on it are recorded.
module Scene {
  import opened MeshEngine
  import opened MemoryManager
  import opened D3DBuffer
  import opened Buffer

  /** UINT32_MAX: no instance buffer yet, no mesh, no instance. */
  const NoID: nat := 0xFFFF_FFFF

  /** A pipeline object, known by its identity. */
  type PipelineRef = nat

  // ---------------------------------------------------------------------------
  // Registries keyed by name
  // ---------------------------------------------------------------------------

  /** What a lookup by name answers: the stored value, or null for an absent name. */
  function Lookup<V>(m: map<string, V>, name: string): (r: Option<V>)
    ensures r.Some? <==> name in m
    ensures r.Some? ==> r.value == m[name]
  {
    if name in m then Some(m[name]) else None
  }

  /** Registering under a name that is taken changes nothing; a new name is added. */
  function AddIfAbsent<V>(m: map<string, V>, name: string, v: V): (r: map<string, V>)
    ensures name in m ==> r == m
    ensures Lookup(r, name) == if name in m then Some(m[name]) else Some(v)
    ensures forall n :: n != name ==> Lookup(r, n) == Lookup(m, n)
  {
    if name in m then m else m[name := v]
  }

  /** Removing an absent name changes nothing; a present one is erased. */
  function RemoveIfPresent<V>(m: map<string, V>, name: string): (r: map<string, V>)
    ensures name !in m ==> r == m
    ensures Lookup(r, name) == None
    ensures forall n :: n != name ==> Lookup(r, n) == Lookup(m, n)
  {
    if name in m then m - {name} else m
  }

  /** Adding a new name and removing it again gives back the registry it started from. */
  lemma RemoveUndoesAdd<V>(m: map<string, V>, name: string, v: V)
    requires name !in m
    ensures RemoveIfPresent(AddIfAbsent(m, name, v), name) == m
  {
    var r := RemoveIfPresent(AddIfAbsent(m, name, v), name);
    assert forall n :: n in r <==> n in m;
  }

  /** Adding under a name that is taken never replaces what the name holds. */
  lemma AddNeverOverwrites<V>(m: map<string, V>, name: string, v: V)
    ensures Lookup(m, name).Some? ==> Lookup(AddIfAbsent(m, name, v), name) == Lookup(m, name)
    ensures Lookup(AddIfAbsent(m, name, v), name).Some?
  {
  }

  /** A lookup after a removal and an add of the same name sees the added value. */
  lemma LookupAfterRemoveAdd<V>(m: map<string, V>, name: string, v: V)
    ensures Lookup(AddIfAbsent(RemoveIfPresent(m, name), name, v), name) == Some(v)
  {
  }

  // ---------------------------------------------------------------------------
  // Entities and instances
  // ---------------------------------------------------------------------------

  /** CreateEntity's tag: the name, or "Entity" when the name is empty; never empty. */
  function EntityTag(name: string): (tag: string)
    ensures |tag| > 0
    ensures |name| > 0 ==> tag == name
    ensures |name| == 0 ==> tag == "Entity"
  {
    if |name| == 0 then "Entity" else name
  }

  /** StaticMeshInstanceComponent: the mesh, the instance within it and the material. */
  datatype StaticMeshInstance = StaticMeshInstance(meshId: nat, instanceId: nat, materialId: int)

  /** A call the scene makes on its SceneInstanceData. */
  datatype InstanceCall = RemoveInstance(mesh: nat, instance: nat) | AddInstance(mesh: nat)

  /** What a function answers: a value, or nothing when control falls off its end. */
  datatype Returned<T> = Value(v: T) | NoValue

  /**
   * Scene: its rasterization and meshlet pipelines by name, its meshlet and
   * mesh banks (held by the SceneRenderer in the source), the ID of its
   * instance structured buffer, the start vertex, start index and index count
   * of each mesh, and the calls made on its instance data.
   */
  class Scene {
    var rasterPipelines: map<string, PipelineRef>
    var meshletPipelines: map<string, PipelineRef>
    const meshletBank: ModelBank
    const meshBank: ModelBank
    var instanceBufferID: nat
    var startVertexLocations: seq<nat>
    var startIndexLocations: seq<nat>
    var indexCounts: seq<nat>
    var instanceCalls: seq<InstanceCall>

    /** A new scene: no buffer yet (UINT32_MAX), empty registries and tables (Scene.cpp:16-20). */
    constructor ()
      ensures instanceBufferID == NoID && rasterPipelines == map[] && meshletPipelines == map[]
      ensures fresh(meshletBank) && fresh(meshBank) && meshletBank != meshBank
      ensures meshletBank.models == map[] && meshBank.models == map[]
      ensures startVertexLocations == [] && startIndexLocations == [] && indexCounts == []
      ensures instanceCalls == []
    {
      rasterPipelines, meshletPipelines := map[], map[];
      meshletBank := new ModelBank();
      meshBank := new ModelBank();
      instanceBufferID := NoID;
      startVertexLocations, startIndexLocations, indexCounts := [], [], [];
      instanceCalls := [];
    }

    /**
     * AddPipeline: a taken name leaves the registry and the caller's pointer
     * alone; a new name takes the pipeline (the caller's unique_ptr is moved from).
     */
    method AddPipeline(name: string, pipeline: PipelineRef) returns (taken: bool)
      modifies this`rasterPipelines
      ensures taken <==> name !in old(rasterPipelines)
      ensures rasterPipelines == AddIfAbsent(old(rasterPipelines), name, pipeline)
    {
      if name in rasterPipelines {
        return false;
      }
      rasterPipelines := rasterPipelines[name := pipeline];
      return true;
    }

    /** RemovePipeline: nothing for an absent name, the entry erased otherwise. */
    method RemovePipeline(name: string)
      modifies this`rasterPipelines
      ensures rasterPipelines == RemoveIfPresent(old(rasterPipelines), name)
    {
      if name !in rasterPipelines {
        return;
      }
      rasterPipelines := rasterPipelines - {name};
    }

    /** GetPipeline: null for an absent name, the stored pipeline otherwise. */
    function GetPipeline(name: string): (r: Option<PipelineRef>)
      reads this
      ensures r == Lookup(rasterPipelines, name)
      ensures r.Some? <==> name in rasterPipelines
    {
      if name !in rasterPipelines then None else Some(rasterPipelines[name])
    }

    /** AddMeshletPipeline: as AddPipeline, on the meshlet pipelines. */
    method AddMeshletPipeline(name: string, pipeline: PipelineRef) returns (taken: bool)
      modifies this`meshletPipelines
      ensures taken <==> name !in old(meshletPipelines)
      ensures meshletPipelines == AddIfAbsent(old(meshletPipelines), name, pipeline)
    {
      if name in meshletPipelines {
        return false;
      }
      meshletPipelines := meshletPipelines[name := pipeline];
      return true;
    }

    /** RemoveMeshletPipeline: as RemovePipeline, on the meshlet pipelines. */
    method RemoveMeshletPipeline(name: string)
      modifies this`meshletPipelines
      ensures meshletPipelines == RemoveIfPresent(old(meshletPipelines), name)
    {
      if name !in meshletPipelines {
        return;
      }
      meshletPipelines := meshletPipelines - {name};
    }

    /** GetMeshletPipeline: as GetPipeline, on the meshlet pipelines. */
    function GetMeshletPipeline(name: string): (r: Option<PipelineRef>)
      reads this
      ensures r == Lookup(meshletPipelines, name)
      ensures r.Some? <==> name in meshletPipelines
    {
      if name !in meshletPipelines then None else Some(meshletPipelines[name])
    }

    /**
     * AddMeshletModel as the source writes it: a new name goes to the meshlet
     * bank, whose answer is returned; on a name the bank already holds it
     * warns and falls off the end of the function without returning a value.
     */
    method AddMeshletModelAsWritten(name: string, model: ModelRef) returns (r: Returned<ModelRef>)
      modifies meshletBank`models
      ensures r == NoValue <==> old(meshletBank.Contains(name))
      ensures r.Value? ==> meshletBank.models == old(meshletBank.models)[name := model] && r.v == model
      ensures r == NoValue ==> meshletBank.models == old(meshletBank.models)
    {
      if !meshletBank.Contains(name) {
        var m, _ := meshletBank.Add(name, model);
        return Value(m);
      }
      return NoValue;
    }

    /**
     * AddMeshletModel with a value on every path: on a name the bank already
     * holds, the model registered under it is returned, as the bank's own
     * AddMeshletModel does. The answer is always what the bank now holds.
     */
    method AddMeshletModel(name: string, model: ModelRef) returns (r: ModelRef)
      modifies meshletBank`models
      ensures meshletBank.models == AddIfAbsent(old(meshletBank.models), name, model)
      ensures meshletBank.Get(name) == Some(r)
      ensures old(meshletBank.Contains(name)) ==> r == old(meshletBank.models[name])
    {
      if !meshletBank.Contains(name) {
        var m, _ := meshletBank.Add(name, model);
        return m;
      }
      return meshletBank.models[name];
    }

    /** RemoveMeshletModel: nothing for an absent name; otherwise the bank releases the model. */
    method RemoveMeshletModel(name: string)
      modifies meshletBank
      ensures meshletBank.models == RemoveIfPresent(old(meshletBank.models), name)
      ensures old(meshletBank.Contains(name)) ==> meshletBank.released == old(meshletBank.released) + [old(meshletBank.models[name])]
      ensures !old(meshletBank.Contains(name)) ==> meshletBank.released == old(meshletBank.released)
    {
      if !meshletBank.Contains(name) {
        return;
      }
      var _ := meshletBank.ReleaseModel(name);
    }

    /** GetMeshletModel: null for an absent name, the bank's model otherwise. */
    function GetMeshletModel(name: string): (r: Option<ModelRef>)
      reads this, meshletBank
      ensures r == Lookup(meshletBank.models, name)
    {
      if !meshletBank.Contains(name) then None else meshletBank.Get(name)
    }

    /** AddMesh is a stub: it registers nothing and answers null. */
    method AddMesh(name: string, model: ModelRef) returns (r: Option<ModelRef>)
      ensures r == None
    {
      r := None;
    }

    /** GetMesh: what the mesh bank holds under the name. */
    function GetMesh(name: string): (r: Option<ModelRef>)
      reads this, meshBank
      ensures r == Lookup(meshBank.models, name)
    {
      meshBank.Get(name)
    }

    /**
     * BuildInstanceStructuredBuffer: with no buffer yet, a structured buffer
     * of totalInstanceCount elements of instanceBufferSize bytes is created
     * and its ID kept. The source asserts before rebuilding an existing one,
     * so a second call is excluded. totalInstanceCount is what
     * SceneInstanceData answers.
     */
    method BuildInstanceStructuredBuffer(mm: MemoryManager, totalInstanceCount: nat, instanceBufferSize: nat, resource: nat, baseAddress: nat)
      requires instanceBufferID == NoID
      requires mm.Valid() && |mm.shadows| != 0xFFFF_FFFF
      modifies this`instanceBufferID, mm`buffers, mm`shadows, mm`shadowSizes
      ensures mm.Valid() && instanceBufferID == old(|mm.buffers|) && instanceBufferID < |mm.buffers|
      ensures mm.buffers[..instanceBufferID] == old(mm.buffers)
      ensures mm.buffers[instanceBufferID].desc.elementCount == totalInstanceCount
      ensures mm.buffers[instanceBufferID].desc.elementSize == instanceBufferSize
      ensures mm.buffers[instanceBufferID].hasShaderResourceView
      ensures mm.shadows == old(mm.shadows) + [ZeroShadow(totalInstanceCount, instanceBufferSize)]
      ensures mm.dirty == old(mm.dirty)
    {
      instanceBufferID := mm.CreateStructuredBuffer("Instance Structured Buffer", totalInstanceCount, instanceBufferSize, resource, baseAddress);
    }

    /** GetInstanceStructuredBuffer: the memory manager's buffer under the kept ID. */
    function GetInstanceStructuredBuffer(mm: MemoryManager): (b: UploadBuffer)
      reads this, mm
      requires mm.Valid() && instanceBufferID < |mm.buffers|
      ensures b == mm.buffers[instanceBufferID] && b.Valid()
    {
      mm.GetUploadBuffer(instanceBufferID)
    }

    /**
     * ChangeInstanceMeshID: the instance leaves its old mesh and a new one is
     * added under the new mesh; the component then names the new mesh and the
     * instance SceneInstanceData answered with (newInstance).
     */
    method ChangeInstanceMeshID(c: StaticMeshInstance, newMeshID: nat, newInstance: nat) returns (r: StaticMeshInstance)
      modifies this`instanceCalls
      ensures r == c.(meshId := newMeshID, instanceId := newInstance)
      ensures instanceCalls == old(instanceCalls) + [RemoveInstance(c.meshId, c.instanceId), AddInstance(newMeshID)]
    {
      instanceCalls := instanceCalls + [RemoveInstance(c.meshId, c.instanceId)];
      instanceCalls := instanceCalls + [AddInstance(newMeshID)];
      r := c.(instanceId := newInstance);
      r := r.(meshId := newMeshID);
    }

    /** GetMeshStartVertexLocation: the ID must index the table. */
    function GetMeshStartVertexLocation(meshID: nat): (v: nat)
      reads this
      requires meshID < |startVertexLocations|
      ensures v == startVertexLocations[meshID]
    {
      startVertexLocations[meshID]
    }

    /** GetMeshStartIndexLocation: the ID must index the table. */
    function GetMeshStartIndexLocation(meshID: nat): (i: nat)
      reads this
      requires meshID < |startIndexLocations|
      ensures i == startIndexLocations[meshID]
    {
      startIndexLocations[meshID]
    }

    /** GetMeshIndexCount: the ID must index the table. */
    function GetMeshIndexCount(meshID: nat): (n: nat)
      reads this
      requires meshID < |indexCounts|
      ensures n == indexCounts[meshID]
    {
      indexCounts[meshID]
    }
  }
}
