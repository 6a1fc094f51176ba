// The D3D12 rendering API of Platform/DirectX12/Api/D3DRenderingApi.cpp:
// the constant-buffer size alignment and the rounding-up division, the
// frame-slot wait at the start of a scene render, the active scene, and the
// draw calls it records. Command-list work other than the draw calls
// (barriers, clears, viewports, render targets) is not part of this model.
module RenderingApi {
  import opened D3D
  import opened FrameResources
  import opened GraphicsContext
  import opened Buffer
  import opened Scene
  import opened SceneBuilder
  import opened MeshEngine

  // ---------------------------------------------------------------------------
  // Size arithmetic
  // ---------------------------------------------------------------------------

  /** D3D12_CONSTANT_BUFFER_DATA_PLACEMENT_ALIGNMENT. */
  const PlacementAlignment: nat := 256

  lemma PlacementAlignmentIsPowerOfTwo()
    ensures IsPowerOfTwo(PlacementAlignment)
  {
    assert IsPowerOfTwo(1);
    assert IsPowerOfTwo(2);
    assert IsPowerOfTwo(4);
    assert IsPowerOfTwo(8);
    assert IsPowerOfTwo(16);
    assert IsPowerOfTwo(32);
    assert IsPowerOfTwo(64);
    assert IsPowerOfTwo(128);
  }

  /**
   * GetAlignedSize: (size + alignment - 1) & ~(alignment - 1) with the
   * 256-byte placement alignment, i.e. ROUND_UP(size, 256).
   */
  function GetAlignedSize(size: nat): nat
  {
    PlacementAlignmentIsPowerOfTwo();
    RoundUp(size, PlacementAlignment)
  }

  /** GetAlignedSize(size) is the least multiple of 256 that is at least size. */
  lemma GetAlignedSizeIsLeastMultiple(size: nat, m: nat)
    ensures GetAlignedSize(size) % 256 == 0 && size <= GetAlignedSize(size) < size + 256
    ensures m % 256 == 0 && size <= m ==> GetAlignedSize(size) <= m
  {
    PlacementAlignmentIsPowerOfTwo();
    RoundUpBounds(size, PlacementAlignment);
    if m % 256 == 0 && size <= m {
      RoundUpIsLeastMultiple(size, PlacementAlignment, m);
    }
  }

  /** DivRoundUp: (value + divisor - 1) / divisor, an integer ceil(value / divisor). */
  function DivRoundUp(value: nat, divisor: nat): nat
    requires divisor > 0
  {
    (value + divisor - 1) / divisor
  }

  /**
   * DivRoundUp(value, divisor) is the least q with q * divisor >= value:
   * it covers value, and one less does not.
   */
  lemma DivRoundUpIsCeiling(value: nat, divisor: nat)
    requires divisor > 0
    ensures DivRoundUp(value, divisor) * divisor >= value
    ensures DivRoundUp(value, divisor) > 0 ==> (DivRoundUp(value, divisor) - 1) * divisor < value
  {
    var x := value + divisor - 1;
    var q, r := x / divisor, x % divisor;
    DivModSplit(x, divisor);
    assert q * divisor == x - r;
    if q > 0 {
      assert (q - 1) * divisor == q * divisor - divisor;
    }
  }

  /** The aligned size is the number of 256-byte blocks the size needs, times 256. */
  lemma AlignedSizeCountsBlocks(size: nat)
    ensures GetAlignedSize(size) == DivRoundUp(size, 256) * 256
  {
    var q := DivRoundUp(size, 256);
    var g := GetAlignedSize(size);
    DivRoundUpIsCeiling(size, 256);
    GetAlignedSizeIsLeastMultiple(size, q * 256);
    DivModUnique(q * 256, 256, q, 0);
    DivModSplit(g, 256);
  }

  // ---------------------------------------------------------------------------
  // The rendering API
  // ---------------------------------------------------------------------------

  /** The draw calls the API records on the graphics command list. */
  datatype Command =
    | DrawInstanced(vertexCountPerInstance: nat, instanceCount: nat, startVertexLocation: nat, startInstanceLocation: nat)
    | DrawIndexedInstanced(indexCountPerInstance: nat, instanceCount: nat, startIndexLocation: nat,
                           baseVertexLocation: nat, startInstanceLocation: nat)
    /** pipeline->Bind(geoID): the pipeline is bound with the given instance offset. */
    | BindPipeline(geoID: nat)

  class RenderingApi {
    var activeScene: Option<Scene>
    var commands: seq<Command>

    /** p_ActiveScene(nullptr): no scene, nothing recorded. */
    constructor ()
      ensures activeScene == None && commands == []
    {
      activeScene := None;
      commands := [];
    }

    /**
     * OnBeginSceneRender repeats StartDraw's wait: advance to the next slot,
     * wait for the GPU only if that slot's fence is non-zero and not yet
     * reached, then reset the slot's allocator, whose recorded work has
     * then all completed.
     */
    method OnBeginSceneRender(ctx: GraphicsContext)
      requires ctx.Valid()
      modifies ctx.frames`index, ctx.frames`allocatorResets, ctx.fence
      ensures ctx.Valid()
      ensures ctx.frames.index == NextIndex(old(ctx.frames.index))
      ensures ctx.frames.allocatorResets == old(ctx.frames.allocatorResets) + [ctx.frames.index]
      ensures ctx.fence.completed >= ctx.frames.fences[ctx.frames.index]
      ensures ctx.SlotIdle(ctx.frames.index)
      ensures ctx.frames.fences[ctx.frames.index] == 0 || old(ctx.fence.completed) >= ctx.frames.fences[ctx.frames.index]
        ==> ctx.fence.completed == old(ctx.fence.completed)
    {
      ctx.frames.NextFrameResource();
      var currentFence := ctx.frames.GetCurrentFence();
      if currentFence != 0 && ctx.fence.completed < currentFence {
        ctx.fence.WaitFor(currentFence);
      }
      ctx.frames.ResetCurrentAllocator();
    }

    /** BeginScene: the scene becomes the active one. */
    method BeginScene(scene: Scene)
      modifies this`activeScene
      ensures activeScene == Some(scene)
    {
      activeScene := Some(scene);
    }

    /** EndScene: no scene is active any more. */
    method EndScene()
      modifies this`activeScene
      ensures activeScene == None
    {
      activeScene := None;
    }

    /** Draw: one instance of all the vertex buffer's elements, without an index buffer. */
    method Draw(vertexBuffer: DefaultBufferDesc)
      modifies this`commands
      ensures commands == old(commands) + [BindPipeline(0), DrawInstanced(vertexBuffer.elementCount, 1, 0, 0)]
    {
      commands := commands + [BindPipeline(0)];
      commands := commands + [DrawInstanced(vertexBuffer.elementCount, 1, 0, 0)];
    }

    /** DrawIndexed: one instance of all the index buffer's indices (its GetIndexCount). */
    method DrawIndexed(indexCount: nat)
      modifies this`commands
      ensures commands == old(commands) + [BindPipeline(0), Command.DrawIndexedInstanced(indexCount, 1, 0, 0, 0)]
    {
      commands := commands + [BindPipeline(0)];
      commands := commands + [Command.DrawIndexedInstanced(indexCount, 1, 0, 0, 0)];
    }

    /**
     * DrawIndexedInstanced: a scene must be active. A mesh the scene's
     * instance data calls invalid records nothing; otherwise the pipeline is
     * bound with the mesh's first instance and the mesh's index range is
     * drawn from its start vertex, once per instance. Whether the mesh is
     * valid, its instance count and its first instance are what
     * SceneInstanceData answers.
     */
    method DrawIndexedInstanced(meshID: nat, meshValid: bool, instanceCount: nat, startInstanceLocation: nat)
      requires activeScene.Some?
      requires meshValid ==>
        meshID < |activeScene.value.indexCounts| && meshID < |activeScene.value.startIndexLocations| && meshID < |activeScene.value.startVertexLocations|
      modifies this`commands
      ensures !meshValid ==> commands == old(commands)
      ensures meshValid ==> commands == old(commands) + [BindPipeline(startInstanceLocation),
        Command.DrawIndexedInstanced(activeScene.value.indexCounts[meshID], instanceCount,
          activeScene.value.startIndexLocations[meshID], activeScene.value.startVertexLocations[meshID], 0)]
    {
      if !meshValid {
        return;
      }
      var scene := activeScene.value;
      var indexCount := scene.GetMeshIndexCount(meshID);
      var startIndexLocation := scene.GetMeshStartIndexLocation(meshID);
      var startVertexLocation := scene.GetMeshStartVertexLocation(meshID);
      commands := commands + [BindPipeline(startInstanceLocation)];
      commands := commands + [Command.DrawIndexedInstanced(indexCount, instanceCount, startIndexLocation, startVertexLocation, 0)];
    }
  }

  /**
   * A draw of a generated mesh stays inside that mesh: with the tables
   * GenerateBuffers leaves, the draw DrawIndexedInstanced records for a
   * recognised mesh k reads exactly the mesh's own indices from the shared
   * index buffer, and every vertex it fetches (start vertex plus index) is
   * one of the mesh's vertices in the shared vertex buffer.
   */
  lemma GeneratedDrawStaysInMesh(tags: seq<string>, vertexTable: seq<nat>, indexTable: seq<nat>, countTable: seq<nat>, k: nat)
    requires |vertexTable| == |indexTable| == |countTable| == |tags|
    requires k < |tags| && MeshFor(tags[k], GeneratedResolution).Some?
    ensures var ms := Meshes(tags, GeneratedResolution);
      var mesh := MeshFor(tags[k], GeneratedResolution).value;
      var base := TableAfter(ms, vertexTable, |tags|, StartVertexLocations)[k];
      var start := TableAfter(ms, indexTable, |tags|, StartIndexLocations)[k];
      var count := TableAfter(ms, countTable, |tags|, IndexCounts)[k];
      var buffer := GeneratedIndices(ms);
      count == |mesh.indices| && start + count <= |buffer| && buffer[start..start + count] == mesh.indices
      && base + mesh.vertexCount <= GeneratedVertexCount(ms)
      && forall j :: start <= j < start + count ==> base <= base + buffer[j] < base + mesh.vertexCount
  {
    var ms := Meshes(tags, GeneratedResolution);
    MeshForInRange(tags[k], GeneratedResolution);
    assert ms[k] == MeshFor(tags[k], GeneratedResolution);
    DrawStaysInMesh(ms, vertexTable, indexTable, countTable, k);
  }

  /** The same over any sequence of built meshes whose own indices are in range. */
  lemma DrawStaysInMesh(ms: seq<Option<MeshData>>, vertexTable: seq<nat>, indexTable: seq<nat>, countTable: seq<nat>, k: nat)
    requires |vertexTable| == |indexTable| == |countTable| == |ms|
    requires k < |ms| && ms[k].Some? && IndicesInRange(ms[k].value.indices, ms[k].value.vertexCount)
    ensures var mesh := ms[k].value;
      var base := TableAfter(ms, vertexTable, |ms|, StartVertexLocations)[k];
      var start := TableAfter(ms, indexTable, |ms|, StartIndexLocations)[k];
      var count := TableAfter(ms, countTable, |ms|, IndexCounts)[k];
      var buffer := GeneratedIndices(ms);
      count == |mesh.indices| && start + count <= |buffer| && buffer[start..start + count] == mesh.indices
      && base + mesh.vertexCount <= GeneratedVertexCount(ms)
      && forall j :: start <= j < start + count ==> base <= base + buffer[j] < base + mesh.vertexCount
  {
    TableAfterEntries(ms, vertexTable, |ms|, StartVertexLocations);
    TableAfterEntries(ms, indexTable, |ms|, StartIndexLocations);
    TableAfterEntries(ms, countTable, |ms|, IndexCounts);
    GeneratedMeshInBuffers(ms, k);
  }
}
