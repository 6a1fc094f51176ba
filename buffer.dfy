// Vertex layouts and buffer descriptions: Skateboard/Renderer/Buffer.h and
// the descriptor presets of Buffer.cpp.
module Buffer {
  import opened InternalFormats

  // ---------------------------------------------------------------------------
  // Elements and component counts
  // ---------------------------------------------------------------------------

  /** One vertex attribute: its semantic, shader type, input slot, byte size and byte offset. */
  datatype BufferElement = BufferElement(
    semanticName: string, dataType: ShaderDataType, inputSlot: nat, size: nat, offset: nat)

  /** BufferElement(name, type, inputSlot): the size comes from the shader type and the offset starts at 0. */
  function MakeBufferElement(name: string, dataType: ShaderDataType, inputSlot: nat := 0): (e: BufferElement)
    ensures e.semanticName == name && e.dataType == dataType && e.inputSlot == inputSlot
    ensures e.size == ShaderDataTypeSizeInBytes(dataType) && e.offset == 0
  {
    BufferElement(name, dataType, inputSlot, ShaderDataTypeSizeInBytes(dataType), 0)
  }

  /** GetComponentCount: 0 for None, 1 for scalars (Bool included), n for n-vectors. */
  function GetComponentCount(t: ShaderDataType): nat
  {
    match t
    case None => 0
    case Bool | Int | Uint | Float => 1
    case Int2 | Uint2 | Float2 => 2
    case Int3 | Uint3 | Float3 => 3
    case Int4 | Uint4 | Float4 => 4
  }

  /**
   * The two tables agree: every component of a non-Bool type is four bytes
   * wide, a Bool is a single one-byte component, and only None is empty.
   */
  lemma SizeIsFourBytesPerComponent(t: ShaderDataType)
    ensures t != Bool ==> ShaderDataTypeSizeInBytes(t) == 4 * GetComponentCount(t)
    ensures t == Bool ==> ShaderDataTypeSizeInBytes(t) == 1 && GetComponentCount(t) == 1
    ensures GetComponentCount(t) == 0 <==> t == None
    ensures GetComponentCount(t) <= 4
  {
  }

  // ---------------------------------------------------------------------------
  // Layouts
  // ---------------------------------------------------------------------------

  /** A BufferLayout is copied by value: its elements and the stride of one vertex. */
  datatype BufferLayout = BufferLayout(elements: seq<BufferElement>, stride: nat)

  /** The total size of the first k elements. */
  function PrefixSize(es: seq<BufferElement>, k: nat): nat
    requires k <= |es|
  {
    if k == 0 then 0 else PrefixSize(es, k - 1) + es[k - 1].size
  }

  /** The total size of all the elements. */
  function TotalSize(es: seq<BufferElement>): nat
  {
    PrefixSize(es, |es|)
  }

  /** The construction assertion: a POSITION element must be a Float3. */
  predicate PositionIsFloat3(es: seq<BufferElement>)
  {
    forall k :: 0 <= k < |es| && es[k].semanticName == "POSITION" ==> es[k].dataType == Float3
  }

  /** The first n elements of laid are those of es, each at the total size of the elements before it. */
  predicate LaidOutUpTo(es: seq<BufferElement>, laid: seq<BufferElement>, n: nat)
    requires n <= |es|
  {
    |laid| == n
    && forall k :: 0 <= k < n ==> laid[k] == es[k].(offset := PrefixSize(es, k))
  }

  predicate IsLaidOut(es: seq<BufferElement>, laid: seq<BufferElement>)
  {
    LaidOutUpTo(es, laid, |es|)
  }

  /** Appending element n at the total size of the elements before it lays out one more element. */
  lemma LaidOutStep(es: seq<BufferElement>, laid: seq<BufferElement>, n: nat)
    requires n < |es| && LaidOutUpTo(es, laid, n)
    ensures LaidOutUpTo(es, laid + [es[n].(offset := PrefixSize(es, n))], n + 1)
  {
    var next := laid + [es[n].(offset := PrefixSize(es, n))];
    assert forall k :: 0 <= k < n ==> next[k] == laid[k];
  }

  /**
   * CalculateOffsetsAndStride: a running offset gives each element the sum of
   * the sizes before it, and the stride grows by every size.
   */
  method CalculateOffsetsAndStride(es: seq<BufferElement>) returns (laid: seq<BufferElement>, stride: nat)
    requires PositionIsFloat3(es)
    ensures IsLaidOut(es, laid)
    ensures stride == TotalSize(es)
  {
    var offset: nat := 0;
    stride := 0;
    laid := [];
    var i := 0;
    while i < |es|
      invariant 0 <= i <= |es|
      invariant offset == PrefixSize(es, i) && stride == offset
      invariant LaidOutUpTo(es, laid, i)
    {
      LaidOutStep(es, laid, i);
      laid := laid + [es[i].(offset := offset)];
      offset := offset + es[i].size;
      stride := stride + es[i].size;
      i := i + 1;
    }
  }

  /** BufferLayout(elements): the elements with their offsets filled in, and their stride. */
  method NewBufferLayout(es: seq<BufferElement>) returns (layout: BufferLayout)
    requires PositionIsFloat3(es)
    ensures IsLaidOut(es, layout.elements) && layout.stride == TotalSize(es)
  {
    var laid, stride := CalculateOffsetsAndStride(es);
    layout := BufferLayout(laid, stride);
  }

  /** A prefix is never larger than a longer prefix. */
  lemma {:induction false} PrefixSizeMonotone(es: seq<BufferElement>, j: nat, k: nat)
    requires j <= k <= |es|
    ensures PrefixSize(es, j) <= PrefixSize(es, k)
    decreases k
  {
    if j < k {
      PrefixSizeMonotone(es, j, k - 1);
    }
  }

  /** Element j ends no later than where element k starts, and every element ends within the total. */
  lemma {:induction false} ElementEndsInOrder(es: seq<BufferElement>, j: nat, k: nat)
    requires j < k <= |es|
    ensures PrefixSize(es, j) + es[j].size <= PrefixSize(es, k)
    ensures PrefixSize(es, k) <= TotalSize(es)
  {
    assert PrefixSize(es, j + 1) == PrefixSize(es, j) + es[j].size;
    PrefixSizeMonotone(es, j + 1, k);
    PrefixSizeMonotone(es, k, |es|);
  }

  /**
   * In a laid-out vertex the element byte ranges do not overlap, keep their
   * order, and all lie within the stride.
   */
  lemma {:induction false} LaidOutElementsDisjoint(es: seq<BufferElement>, laid: seq<BufferElement>, j: nat, k: nat)
    requires IsLaidOut(es, laid)
    requires j < k < |es|
    ensures laid[j].offset + laid[j].size <= laid[k].offset
    ensures laid[k].offset + laid[k].size <= TotalSize(es)
  {
    assert laid[j] == es[j].(offset := PrefixSize(es, j));
    assert laid[k] == es[k].(offset := PrefixSize(es, k));
    ElementEndsInOrder(es, j, k);
    ElementEndsInOrder(es, k, k + 1);
  }

  /** GetDefaultLayout: POSITION, TEXCOORD, NORMAL, TANGENT and BITANGENT. */
  method GetDefaultLayout() returns (layout: BufferLayout)
    ensures layout.stride == 56
    ensures |layout.elements| == 5
    ensures layout.elements[0].offset == 0 && layout.elements[1].offset == 12
    ensures layout.elements[2].offset == 20 && layout.elements[3].offset == 32
    ensures layout.elements[4].offset == 44
    ensures layout.elements[0].semanticName == "POSITION" && layout.elements[0].dataType == Float3
  {
    var es := [
      MakeBufferElement("POSITION", Float3),
      MakeBufferElement("TEXCOORD", Float2),
      MakeBufferElement("NORMAL", Float3),
      MakeBufferElement("TANGENT", Float3),
      MakeBufferElement("BITANGENT", Float3)];
    assert PrefixSize(es, 1) == 12 && PrefixSize(es, 2) == 20 && PrefixSize(es, 3) == 32;
    assert PrefixSize(es, 4) == 44 && PrefixSize(es, 5) == 56;
    layout := NewBufferLayout(es);
  }

  /** The vertex-position format of every layout is R32G32B32_FLOAT, the format of Float3. */
  const VertexPositionFormat: BufferFormat := FormatR32G32B32Float

  /** Index buffers always hold 32-bit indices. */
  const IndexBufferStride: nat := 4
  const IndexBufferFormat: BufferFormat := FormatR32Uint

  /** The index buffer's stride and format are those of the Uint shader type; positions are Float3. */
  lemma IndexAndPositionFormats()
    ensures IndexBufferStride == ShaderDataTypeSizeInBytes(Uint)
    ensures IndexBufferFormat == ShaderDataTypeToD3D(Uint)
    ensures VertexPositionFormat == ShaderDataTypeToD3D(Float3)
  {
  }

  // ---------------------------------------------------------------------------
  // Buffer descriptions
  // ---------------------------------------------------------------------------

  /** BufferAccessFlag_. */
  const AccessGpuOnly: uint32 := 0
  const AccessCpuWriteable: uint32 := 1
  const AccessCpuWriteableAligned: uint32 := 2

  /** A CPU pointer handed to a description; the model keeps only its identity. */
  type Pointer = nat

  datatype DefaultBufferDesc = DefaultBufferDesc(
    format: BufferFormat, elementCount: nat, elementSize: nat, dataToTransfer: Pointer,
    width: nat, bufferStride: nat, overrideStride: bool)

  datatype UploadBufferDesc = UploadBufferDesc(
    accessFlag: uint32, format: BufferFormat, elementCount: nat, elementSize: nat,
    width: nat, forceStaticData: bool)

  datatype UnorderedAccessBufferDesc = UnorderedAccessBufferDesc(
    accessFlag: uint32, format: BufferFormat, width: nat, height: nat, depth: nat)

  datatype ByteAddressBufferDesc = ByteAddressBufferDesc(
    accessFlag: uint32, format: BufferFormat, elementCount: nat, elementSize: nat,
    dataToTransfer: Pointer, width: nat)

  /** DefaultBufferDesc::Init: count, size and data; format UNKNOWN and every other field zero. */
  function InitDefaultBufferDesc(data: Pointer, elementCount: nat, elementSize: nat): (d: DefaultBufferDesc)
    ensures d.format == FormatUnknown && d.elementCount == elementCount && d.elementSize == elementSize
    ensures d.dataToTransfer == data && d.width == 0 && !d.overrideStride
  {
    DefaultBufferDesc(FormatUnknown, elementCount, elementSize, data, 0, 0, false)
  }

  /** UploadBufferDesc::Init: constant buffers are CPU-writable with 256-byte alignment, others plain CPU-writable. */
  function InitUploadBufferDesc(isConstantBuffer: bool, elementCount: nat, elementSize: nat): (d: UploadBufferDesc)
    ensures d.accessFlag == (if isConstantBuffer then AccessCpuWriteableAligned else AccessCpuWriteable)
    ensures d.format == FormatUnknown && d.elementCount == elementCount && d.elementSize == elementSize
    ensures d.width == 0 && !d.forceStaticData
  {
    UploadBufferDesc(
      if isConstantBuffer then AccessCpuWriteableAligned else AccessCpuWriteable,
      FormatUnknown, elementCount, elementSize, 0, false)
  }

  /** UnorderedAccessBufferDesc::Init: GPU-only unless asked to be CPU-writable. */
  function InitUnorderedAccessBufferDesc(width: nat, height: nat, depth: nat, cpuWritable: bool := false,
                                         format: BufferFormat := DefaultBackBufferFormat): (d: UnorderedAccessBufferDesc)
    ensures d.accessFlag == (if cpuWritable then AccessCpuWriteable else AccessGpuOnly)
    ensures d.format == format && d.width == width && d.height == height && d.depth == depth
  {
    UnorderedAccessBufferDesc(if cpuWritable then AccessCpuWriteable else AccessGpuOnly, format, width, height, depth)
  }

  /** ByteAddressBufferDesc::Init: four-byte elements, CPU-writable, format UNKNOWN. */
  function InitByteAddressBufferDesc(data: Pointer, elementCount: nat): (d: ByteAddressBufferDesc)
    ensures d.elementCount == elementCount && d.elementSize == 4 && d.accessFlag == AccessCpuWriteable
    ensures d.dataToTransfer == data && d.format == FormatUnknown && d.width == 0
  {
    ByteAddressBufferDesc(AccessCpuWriteable, FormatUnknown, elementCount, 4, data, 0)
  }

  /**
   * Every upload description the engine builds can be written from the CPU,
   * and only the constant-buffer one asks for 256-byte alignment.
   */
  lemma UploadPresetsAreCpuWriteable(isConstantBuffer: bool, n: nat, s: nat, data: Pointer)
    ensures InitUploadBufferDesc(isConstantBuffer, n, s).accessFlag != AccessGpuOnly
    ensures InitUploadBufferDesc(isConstantBuffer, n, s).accessFlag == AccessCpuWriteableAligned <==> isConstantBuffer
    ensures InitByteAddressBufferDesc(data, n).accessFlag != AccessGpuOnly
    ensures InitUnorderedAccessBufferDesc(n, s, 1, false).accessFlag == AccessGpuOnly
  {
  }

  // ---------------------------------------------------------------------------
  // Frame buffers
  // ---------------------------------------------------------------------------

  /** The union of a target description: a clear colour or a depth/stencil clear value (all zero when unset). */
  datatype ClearValue = ZeroClear | DefaultClearColour | DepthStencilClear(depth: real, stencil: nat)

  datatype TargetDesc = TargetDesc(format: BufferFormat, cubeMapTarget: bool, clear: ClearValue)

  datatype FrameBufferDesc = FrameBufferDesc(
    width: nat, height: nat, renderTarget: TargetDesc, depthStencilTarget: TargetDesc, numRenderTargets: nat)

  const UnsetTarget: TargetDesc := TargetDesc(FormatUnknown, false, ZeroClear)

  function DepthStencilTarget(format: BufferFormat): TargetDesc
  {
    TargetDesc(format, false, DepthStencilClear(1.0, 0))
  }

  /** InitAsFullRenderTarget: one colour target with the default clear colour, and a depth target. */
  function InitAsFullRenderTarget(width: nat, height: nat, rtvFormat: BufferFormat := DefaultBackBufferFormat,
                                  dsvFormat: BufferFormat := DefaultDepthStencilFormat): (d: FrameBufferDesc)
    ensures d.numRenderTargets == 1 && d.renderTarget.format == rtvFormat
    ensures d.depthStencilTarget == DepthStencilTarget(dsvFormat)
  {
    FrameBufferDesc(width, height, TargetDesc(rtvFormat, false, DefaultClearColour), DepthStencilTarget(dsvFormat), 1)
  }

  /** InitAsDepthStencilTargetOnly: no colour target at all. */
  function InitAsDepthStencilTargetOnly(width: nat, height: nat, format: BufferFormat := DefaultDepthStencilFormat): (d: FrameBufferDesc)
    ensures d.numRenderTargets == 0 && d.renderTarget == UnsetTarget
    ensures d.depthStencilTarget == DepthStencilTarget(format)
  {
    FrameBufferDesc(width, height, UnsetTarget, DepthStencilTarget(format), 0)
  }

  /** InitAsCubeMap: like a full render target, with one target per cube face. */
  function InitAsCubeMap(width: nat, height: nat, rtvFormat: BufferFormat := DefaultBackBufferFormat,
                         dsvFormat: BufferFormat := DefaultDepthStencilFormat): (d: FrameBufferDesc)
    ensures d.numRenderTargets == 6 && d.renderTarget.format == rtvFormat
    ensures d.depthStencilTarget == DepthStencilTarget(dsvFormat)
  {
    FrameBufferDesc(width, height, TargetDesc(rtvFormat, false, DefaultClearColour), DepthStencilTarget(dsvFormat), 6)
  }

  /**
   * The three presets share their depth target (cleared to depth 1, stencil 0)
   * and differ only in the number of colour targets: 1, 0 and 6.
   */
  lemma FrameBufferPresetsAgree(w: nat, h: nat, rtv: BufferFormat, dsv: BufferFormat)
    ensures InitAsCubeMap(w, h, rtv, dsv) == InitAsFullRenderTarget(w, h, rtv, dsv).(numRenderTargets := 6)
    ensures InitAsDepthStencilTargetOnly(w, h, dsv).depthStencilTarget == InitAsFullRenderTarget(w, h, rtv, dsv).depthStencilTarget
    ensures InitAsFullRenderTarget(w, h, rtv, dsv).depthStencilTarget.clear == DepthStencilClear(1.0, 0)
  {
  }
}
