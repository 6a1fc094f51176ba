// The engine's enumerations (Skateboard/Renderer/InternalFormats.h) and the
// switch tables that translate them to Direct3D 12 (InternalFormats.cpp).
// Enumerations that the tables switch on with a `default` branch are kept as
// 32-bit numbers, so that values outside the named constants take that branch.
module InternalFormats {
  import opened D3D

  newtype uint32 = x: int | 0 <= x < 0x1_0000_0000

  // ---------------------------------------------------------------------------
  // Geometry and shader-visibility flags
  // ---------------------------------------------------------------------------

  /** GeometryType_ is an 8-bit flag set. */
  const GeometryNoneNoTrace: bv8 := 0
  const GeometryTriangles: bv8 := 1
  const GeometryProceduralAnalytics: bv8 := 2
  const GeometryProceduralVolumetrics: bv8 := 4
  const GeometryProceduralSDFs: bv8 := 8
  /** The procedural mask is the AND, not the OR, of the three procedural flags. */
  const GeometryProceduralMask: bv8 := GeometryProceduralAnalytics & GeometryProceduralVolumetrics & GeometryProceduralSDFs

  predicate IsSingleBit8(g: bv8) { g != 0 && g & (g - 1) == 0 }

  /** The four geometry flags are single bits and pairwise disjoint; the procedural mask is empty. */
  lemma GeometryFlagsAreDistinctBits()
    ensures IsSingleBit8(GeometryTriangles) && IsSingleBit8(GeometryProceduralAnalytics)
    ensures IsSingleBit8(GeometryProceduralVolumetrics) && IsSingleBit8(GeometryProceduralSDFs)
    ensures GeometryTriangles & GeometryProceduralAnalytics == 0
    ensures GeometryTriangles & GeometryProceduralVolumetrics == 0
    ensures GeometryTriangles & GeometryProceduralSDFs == 0
    ensures GeometryProceduralAnalytics & GeometryProceduralVolumetrics == 0
    ensures GeometryProceduralAnalytics & GeometryProceduralSDFs == 0
    ensures GeometryProceduralVolumetrics & GeometryProceduralSDFs == 0
    ensures GeometryProceduralMask == 0
  {
  }

  /** ShaderVisibility_ is a 32-bit flag set; All has every bit set. */
  const VisibilityVertex: bv32 := 1
  const VisibilityHull: bv32 := 2
  const VisibilityDomain: bv32 := 4
  const VisibilityGeometry: bv32 := 8
  const VisibilityPixel: bv32 := 16
  const VisibilityAll: bv32 := 0xFFFF_FFFF
  const RaytracingVisibilityGlobal: bv32 := 1 << 5
  const RaytracingVisibilityRayGen: bv32 := 1 << 6
  const RaytracingVisibilityHitgroup: bv32 := 1 << 7
  const RaytracingVisibilityMiss: bv32 := 1 << 8
  const RaytracingVisibilityCallable: bv32 := 1 << 9
  const RaytracingVisibilityMask: bv32 :=
    RaytracingVisibilityGlobal & RaytracingVisibilityRayGen & RaytracingVisibilityHitgroup
    & RaytracingVisibilityMiss & RaytracingVisibilityCallable

  /** The raytracing visibility mask, an AND of five distinct bits, is empty; All contains every stage bit. */
  lemma VisibilityMasks()
    ensures RaytracingVisibilityMask == 0
    ensures VisibilityAll == !0
    ensures VisibilityAll & VisibilityPixel == VisibilityPixel
    ensures VisibilityAll & RaytracingVisibilityCallable == RaytracingVisibilityCallable
  {
  }

  // ---------------------------------------------------------------------------
  // Direct3D 12 enumerations the tables produce
  // ---------------------------------------------------------------------------

  datatype RaytracingGeometryType = TrianglesGeometry | ProceduralPrimitiveAabbs
  datatype HitGroupType = TrianglesHitGroup | ProceduralPrimitiveHitGroup
  datatype D3DShaderVisibility = VisAll | VisVertex | VisHull | VisDomain | VisGeometry | VisPixel
  datatype DescriptorRangeType = RangeSrv | RangeUav | RangeCbv | RangeSampler
  datatype TextureAddressMode = Wrap | Mirror | Clamp | Border | MirrorOnce
  datatype StaticBorderColor = TransparentBlack | OpaqueBlack | OpaqueWhite
  datatype ComparisonFunc = Never | Less | Equal | LessEqual | Greater | NotEqual | GreaterEqual | Always

  /** D3D12_FILTER: a reduction, and either min/mag/mip filters or anisotropic filtering. */
  datatype FilterType = Point | Linear
  datatype FilterReduction = Standard | Comparison | Minimum | Maximum
  datatype BasicFilter = Basic(min: FilterType, mag: FilterType, mip: FilterType) | Anisotropic
  datatype D3DFilter = D3DFilter(reduction: FilterReduction, basic: BasicFilter)

  // ---------------------------------------------------------------------------
  // Shader data types
  // ---------------------------------------------------------------------------

  /** ShaderDataType_ is an enum class: no value outside the list can be named. */
  datatype ShaderDataType =
    | None | Bool
    | Int | Int2 | Int3 | Int4
    | Uint | Uint2 | Uint3 | Uint4
    | Float | Float2 | Float3 | Float4

  /** ShaderDataTypeSizeInBytes: 0 for None, sizeof(bool) = 1 for Bool, four bytes per 32-bit component. */
  function ShaderDataTypeSizeInBytes(t: ShaderDataType): nat
  {
    match t
    case None => 0
    case Bool => 1
    case Int => 4
    case Int2 => 8
    case Int3 => 12
    case Int4 => 16
    case Uint => 4
    case Uint2 => 8
    case Uint3 => 12
    case Uint4 => 16
    case Float => 4
    case Float2 => 8
    case Float3 => 12
    case Float4 => 16
  }

  // ---------------------------------------------------------------------------
  // Buffer formats
  // ---------------------------------------------------------------------------

  /** BufferFormat_ and DXGI_FORMAT: 32-bit enumerations with the same numbering. */
  type BufferFormat = uint32
  type DxgiFormat = uint32

  const FormatUnknown: uint32 := 0
  const FormatR32G32B32A32Float: uint32 := 2
  const FormatR32G32B32A32Uint: uint32 := 3
  const FormatR32G32B32A32Sint: uint32 := 4
  const FormatR32G32B32Float: uint32 := 6
  const FormatR32G32B32Uint: uint32 := 7
  const FormatR32G32B32Sint: uint32 := 8
  const FormatR32G32Float: uint32 := 16
  const FormatR32G32Uint: uint32 := 17
  const FormatR32G32Sint: uint32 := 18
  const FormatD32FloatS8X24Uint: uint32 := 20
  const FormatR32FloatX8X24Typeless: uint32 := 21
  const FormatR8G8B8A8Unorm: uint32 := 28
  const FormatD32Float: uint32 := 40
  const FormatR32Float: uint32 := 41
  const FormatR32Uint: uint32 := 42
  const FormatR32Sint: uint32 := 43
  const FormatD24UnormS8Uint: uint32 := 45
  const FormatR24UnormX8Typeless: uint32 := 46
  const FormatD16Unorm: uint32 := 55
  const FormatR16Unorm: uint32 := 56
  const FormatR8Unorm: uint32 := 61
  const FormatForceUint: uint32 := 0xffff_ffff

  /** BufferFormat_DEFAULT_BACKBUFFER and BufferFormat_DEFAULT_DEPTHSTENCIL. */
  const DefaultBackBufferFormat: BufferFormat := FormatR8G8B8A8Unorm
  const DefaultDepthStencilFormat: BufferFormat := FormatD24UnormS8Uint

  /** The named buffer formats: 0 to 115, 130 to 132 and 189 to 190. */
  predicate IsNamedFormat(f: uint32)
  {
    f <= 115 || 130 <= f <= 132 || 189 <= f <= 190
  }

  /**
   * BufferFormatToD3D: every named format has a case returning the DXGI format
   * of the same name (hence the same number); any other value, FORCE_UINT
   * included, takes the default branch.
   */
  function BufferFormatToD3D(f: BufferFormat): DxgiFormat
  {
    if IsNamedFormat(f) then f else FormatForceUint
  }

  /** D3DBufferFormatToSkateboard: the inverse table, with the same default. */
  function D3DBufferFormatToSkateboard(d: DxgiFormat): BufferFormat
  {
    if IsNamedFormat(d) then d else FormatForceUint
  }

  /**
   * A buffer format survives the trip through DXGI exactly when it is named or
   * is FORCE_UINT itself; the same holds for the trip from DXGI and back.
   */
  lemma BufferFormatRoundTrip(f: uint32)
    ensures D3DBufferFormatToSkateboard(BufferFormatToD3D(f)) == f <==> IsNamedFormat(f) || f == FormatForceUint
    ensures BufferFormatToD3D(D3DBufferFormatToSkateboard(f)) == f <==> IsNamedFormat(f) || f == FormatForceUint
  {
  }

  /** Two different named formats never translate to the same DXGI format, in either direction. */
  lemma BufferFormatTablesInjective(f: uint32, g: uint32)
    requires IsNamedFormat(f) && IsNamedFormat(g) && f != g
    ensures BufferFormatToD3D(f) != BufferFormatToD3D(g)
    ensures D3DBufferFormatToSkateboard(f) != D3DBufferFormatToSkateboard(g)
  {
  }

  /** The default back-buffer and depth-stencil formats are named, and neither is FORCE_UINT. */
  lemma DefaultFormatsAreNamed()
    ensures IsNamedFormat(DefaultBackBufferFormat) && IsNamedFormat(DefaultDepthStencilFormat)
    ensures BufferFormatToD3D(DefaultBackBufferFormat) == FormatR8G8B8A8Unorm
    ensures BufferFormatToD3D(DefaultDepthStencilFormat) == FormatD24UnormS8Uint
  {
  }

  /** ShaderDataTypeToD3D: the vertex-attribute DXGI format of a shader data type. */
  function ShaderDataTypeToD3D(t: ShaderDataType): DxgiFormat
  {
    match t
    case None => FormatUnknown
    case Bool => FormatR8Unorm
    case Int => FormatR32Sint
    case Int2 => FormatR32G32Sint
    case Int3 => FormatR32G32B32Sint
    case Int4 => FormatR32G32B32A32Sint
    case Uint => FormatR32Uint
    case Uint2 => FormatR32G32Uint
    case Uint3 => FormatR32G32B32Uint
    case Uint4 => FormatR32G32B32A32Uint
    case Float => FormatR32Float
    case Float2 => FormatR32G32Float
    case Float3 => FormatR32G32B32Float
    case Float4 => FormatR32G32B32A32Float
  }

  /**
   * Distinct shader data types get distinct named DXGI formats, and only None
   * gets UNKNOWN.
   */
  lemma ShaderDataTypeToD3DInjective(s: ShaderDataType, t: ShaderDataType)
    ensures IsNamedFormat(ShaderDataTypeToD3D(s))
    ensures ShaderDataTypeToD3D(s) == FormatUnknown <==> s == None
    ensures s != t ==> ShaderDataTypeToD3D(s) != ShaderDataTypeToD3D(t)
  {
  }

  /** The four depth formats DepthStencilToSRVD3D accepts. */
  predicate IsDepthFormat(f: BufferFormat)
  {
    f == FormatD32FloatS8X24Uint || f == FormatD32Float || f == FormatD24UnormS8Uint || f == FormatD16Unorm
  }

  /** DepthStencilToSRVD3D: the format a shader reads a depth buffer through; other formats are rejected by an assertion. */
  function DepthStencilToSRVD3D(f: BufferFormat): DxgiFormat
    requires IsDepthFormat(f)
  {
    if f == FormatD32FloatS8X24Uint then FormatR32FloatX8X24Typeless
    else if f == FormatD32Float then FormatR32Float
    else if f == FormatD24UnormS8Uint then FormatR24UnormX8Typeless
    else FormatR16Unorm
  }

  /**
   * The shader-readable format of each depth format is the DXGI format that
   * immediately follows it, which is never itself a depth format.
   */
  lemma DepthStencilSrvFollowsDepthFormat(f: BufferFormat)
    requires IsDepthFormat(f)
    ensures DepthStencilToSRVD3D(f) as int == f as int + 1
    ensures !IsDepthFormat(DepthStencilToSRVD3D(f)) && IsNamedFormat(DepthStencilToSRVD3D(f))
  {
  }

  // ---------------------------------------------------------------------------
  // Raytracing, visibility and descriptor tables
  // ---------------------------------------------------------------------------

  /** RaytracingHitGroupType_: Triangles 0, Procedural 1 (Count is not a hit group). */
  function RaytracingHitGroupTypeToD3D(t: uint32): HitGroupType
    requires t < 2
  {
    if t == 0 then TrianglesHitGroup else ProceduralPrimitiveHitGroup
  }

  /** GeometryTypeToD3D is defined on the four single flags; None_NoTrace and combinations assert. */
  predicate IsGeometryFlag(g: bv8)
  {
    g == GeometryTriangles || g == GeometryProceduralAnalytics
    || g == GeometryProceduralVolumetrics || g == GeometryProceduralSDFs
  }

  function GeometryTypeToD3D(g: bv8): RaytracingGeometryType
    requires IsGeometryFlag(g)
  {
    if g == GeometryTriangles then TrianglesGeometry else ProceduralPrimitiveAabbs
  }

  /** Triangles become triangle geometry and each procedural kind becomes AABB geometry; hit groups agree. */
  lemma GeometryTypeToD3DSplitsTriangles(g: bv8)
    requires IsGeometryFlag(g)
    ensures GeometryTypeToD3D(g) == TrianglesGeometry <==> g == GeometryTriangles
    ensures GeometryTypeToD3D(g) == ProceduralPrimitiveAabbs <==> g & GeometryTriangles == 0
    ensures (GeometryTypeToD3D(g) == TrianglesGeometry) == (RaytracingHitGroupTypeToD3D(if g == GeometryTriangles then 0 else 1) == TrianglesHitGroup)
  {
  }

  /** ShaderVisibilityToD3D: each single stage maps to itself; All and any other value map to ALL. */
  function ShaderVisibilityToD3D(v: bv32): D3DShaderVisibility
  {
    if v == VisibilityAll then VisAll
    else if v == VisibilityVertex then VisVertex
    else if v == VisibilityHull then VisHull
    else if v == VisibilityDomain then VisDomain
    else if v == VisibilityGeometry then VisGeometry
    else if v == VisibilityPixel then VisPixel
    else VisAll
  }

  /** Stage visibilities keep apart; a combination of stages, or a raytracing flag, is widened to ALL. */
  lemma ShaderVisibilityToD3DCases(v: bv32)
    ensures ShaderVisibilityToD3D(v) == VisPixel <==> v == VisibilityPixel
    ensures ShaderVisibilityToD3D(v) == VisVertex <==> v == VisibilityVertex
    ensures ShaderVisibilityToD3D(v) == VisAll <==>
      !(v == VisibilityVertex || v == VisibilityHull || v == VisibilityDomain || v == VisibilityGeometry || v == VisibilityPixel)
    ensures ShaderVisibilityToD3D(VisibilityVertex | VisibilityPixel) == VisAll
  {
  }

  /** ShaderDescriptorTableType_: SRV 0, UAV 1, CBV 2, Sampler 3; anything else warns and is taken as SRV. */
  function ShaderDescriptorTableTypeToD3D(t: uint32): DescriptorRangeType
  {
    if t == 0 then RangeSrv
    else if t == 1 then RangeUav
    else if t == 2 then RangeCbv
    else if t == 3 then RangeSampler
    else RangeSrv
  }

  // ---------------------------------------------------------------------------
  // Samplers
  // ---------------------------------------------------------------------------

  /** SamplerFilter_: 36 values in four groups of nine (standard, comparison, minimum, maximum). */
  type SamplerFilter = uint32
  const SamplerFilterMinMagMipPoint: SamplerFilter := 0
  const SamplerFilterMinMagLinearMipPoint: SamplerFilter := 6
  const SamplerFilterMinMagMipLinear: SamplerFilter := 7
  const SamplerFilterAnisotropic: SamplerFilter := 8
  /** Named Minimum_Min_Point_Mag_Mip_Point and Maximum_Min_Point_Mag_Mip_Point in the header. */
  const SamplerFilterMinimumPosition4: SamplerFilter := 22
  const SamplerFilterMaximumPosition4: SamplerFilter := 31
  const SamplerFilterCount: nat := 36

  /** The reduction of group g: the nine standard filters, then comparison, minimum and maximum. */
  function ReductionOfGroup(g: nat): FilterReduction
    requires g < 4
  {
    if g == 0 then Standard else if g == 1 then Comparison else if g == 2 then Minimum else Maximum
  }

  /**
   * The filter at position p of a group, in the order every group lists its
   * cases: MIN_MAG_MIP_POINT, MIN_MAG_POINT_MIP_LINEAR, MIN_POINT_MAG_LINEAR_MIP_POINT,
   * MIN_POINT_MAG_MIP_LINEAR, MIN_LINEAR_MAG_MIP_POINT, MIN_LINEAR_MAG_POINT_MIP_LINEAR,
   * MIN_MAG_LINEAR_MIP_POINT, MIN_MAG_MIP_LINEAR, ANISOTROPIC.
   */
  function BasicOfPosition(p: nat): BasicFilter
    requires p < 9
  {
    if p == 0 then Basic(Point, Point, Point)
    else if p == 1 then Basic(Point, Point, Linear)
    else if p == 2 then Basic(Point, Linear, Point)
    else if p == 3 then Basic(Point, Linear, Linear)
    else if p == 4 then Basic(Linear, Point, Point)
    else if p == 5 then Basic(Linear, Point, Linear)
    else if p == 6 then Basic(Linear, Linear, Point)
    else if p == 7 then Basic(Linear, Linear, Linear)
    else Anisotropic
  }

  /**
   * SamplerFilterToD3D: the 36 cases of the switch, each mapping the filter at
   * position p of group g to the D3D filter at the same position and group;
   * any other value gives MIN_MAG_MIP_LINEAR.
   */
  function SamplerFilterToD3D(f: SamplerFilter): D3DFilter
  {
    if (f as int) < SamplerFilterCount then
      D3DFilter(ReductionOfGroup(f as int / 9), BasicOfPosition(f as int % 9))
    else D3DFilter(Standard, Basic(Linear, Linear, Linear))
  }

  /** Positions within a group give different basic filters. */
  lemma BasicOfPositionInjective(p: nat, q: nat)
    requires p < 9 && q < 9 && BasicOfPosition(p) == BasicOfPosition(q)
    ensures p == q
  {
  }

  /**
   * No two of the 36 named filters translate to the same D3D filter, and every
   * out-of-range value falls back to MIN_MAG_MIP_LINEAR.
   */
  lemma SamplerFilterToD3DInjective(f: SamplerFilter, h: SamplerFilter)
    requires (f as int) < SamplerFilterCount && (h as int) < SamplerFilterCount
    requires SamplerFilterToD3D(f) == SamplerFilterToD3D(h)
    ensures f == h
  {
    var a, b := f as int, h as int;
    assert ReductionOfGroup(a / 9) == ReductionOfGroup(b / 9);
    assert a / 9 == b / 9;
    BasicOfPositionInjective(a % 9, b % 9);
    assert a == 9 * (a / 9) + a % 9;
    assert b == 9 * (b / 9) + b % 9;
  }

  /**
   * The fallback, and what the table makes of the two entries the header names
   * Min_Point_Mag_Mip_Point in the minimum and maximum groups: they take
   * position 4 and so give min LINEAR, mag and mip POINT.
   */
  lemma SamplerFilterToD3DSpecialCases(f: SamplerFilter)
    ensures (f as int) >= SamplerFilterCount ==> SamplerFilterToD3D(f) == SamplerFilterToD3D(SamplerFilterMinMagMipLinear)
    ensures SamplerFilterToD3D(SamplerFilterMinimumPosition4) == D3DFilter(Minimum, Basic(Linear, Point, Point))
    ensures SamplerFilterToD3D(SamplerFilterMaximumPosition4) == D3DFilter(Maximum, Basic(Linear, Point, Point))
    ensures SamplerFilterToD3D(SamplerFilterMinimumPosition4) != D3DFilter(Minimum, Basic(Point, Point, Point))
  {
  }

  /** SamplerMode_: Warp 0, Mirror, Clamp, Border, Mirror_Once; anything else wraps. */
  function SamplerModeToD3D(m: uint32): TextureAddressMode
  {
    if m == 0 then Wrap
    else if m == 1 then Mirror
    else if m == 2 then Clamp
    else if m == 3 then Border
    else if m == 4 then MirrorOnce
    else Wrap
  }

  /** SamplerComparisonFunction_: Never 0 ... Always 7, in D3D order; anything else is LESS_EQUAL. */
  function SamplerComparisonFunctionToD3D(c: uint32): ComparisonFunc
  {
    if c == 0 then Never
    else if c == 1 then Less
    else if c == 2 then Equal
    else if c == 3 then LessEqual
    else if c == 4 then Greater
    else if c == 5 then NotEqual
    else if c == 6 then GreaterEqual
    else if c == 7 then Always
    else LessEqual
  }

  /** SamplerBorderColour_: TransparentBlack 0, White 1, Black 2; anything else is OPAQUE_BLACK. */
  function SamplerBorderColourToD3D(c: uint32): StaticBorderColor
  {
    if c == 0 then TransparentBlack
    else if c == 1 then OpaqueWhite
    else if c == 2 then OpaqueBlack
    else OpaqueBlack
  }

  /**
   * The small sampler and descriptor tables are injective on their named
   * values, and every other value gets the documented fallback.
   */
  lemma SmallTablesInjectiveWithFallback(a: uint32, b: uint32)
    ensures a < 8 && b < 8 && a != b ==> SamplerComparisonFunctionToD3D(a) != SamplerComparisonFunctionToD3D(b)
    ensures a >= 8 ==> SamplerComparisonFunctionToD3D(a) == LessEqual
    ensures a < 5 && b < 5 && a != b ==> SamplerModeToD3D(a) != SamplerModeToD3D(b)
    ensures a >= 5 ==> SamplerModeToD3D(a) == Wrap
    ensures a < 3 && b < 3 && a != b ==> SamplerBorderColourToD3D(a) != SamplerBorderColourToD3D(b)
    ensures a >= 3 ==> SamplerBorderColourToD3D(a) == OpaqueBlack
    ensures a < 4 && b < 4 && a != b ==> ShaderDescriptorTableTypeToD3D(a) != ShaderDescriptorTableTypeToD3D(b)
    ensures a >= 4 ==> ShaderDescriptorTableTypeToD3D(a) == RangeSrv
  {
  }

  // ---------------------------------------------------------------------------
  // Resource states
  // ---------------------------------------------------------------------------

  /** GPUResourceType_: DefaultBuffer 0, UploadBuffer, UnorderedAccessBuffer, FrameBuffer, Texture2D, Texture3D, BLAS, TLAS, ByteAddress. */
  const ResourceDefaultBuffer: uint32 := 0
  const ResourceUploadBuffer: uint32 := 1
  const ResourceUnorderedAccessBuffer: uint32 := 2
  const ResourceFrameBuffer: uint32 := 3
  const ResourceTexture2D: uint32 := 4
  const ResourceTexture3D: uint32 := 5
  const ResourceByteAddress: uint32 := 8

  /** The resource types ResourceTypeToStateD3D accepts; the others assert. */
  predicate HasResourceState(t: uint32)
  {
    t == ResourceDefaultBuffer || t == ResourceTexture2D || t == ResourceTexture3D || t == ResourceUnorderedAccessBuffer
  }

  function ResourceTypeToStateD3D(t: uint32): ResourceState
    requires HasResourceState(t)
  {
    if t == ResourceDefaultBuffer then GenericRead
    else if t == ResourceUnorderedAccessBuffer then UnorderedAccess
    else AllShaderResource
  }

  /** Only the unordered-access type is writable by shaders; textures share the shader-resource state. */
  lemma ResourceTypeToStateCases(t: uint32)
    requires HasResourceState(t)
    ensures ResourceTypeToStateD3D(t) == UnorderedAccess <==> t == ResourceUnorderedAccessBuffer
    ensures ResourceTypeToStateD3D(t) == GenericRead <==> t == ResourceDefaultBuffer
    ensures ResourceTypeToStateD3D(t) == AllShaderResource <==> t == ResourceTexture2D || t == ResourceTexture3D
    ensures ResourceTypeToStateD3D(t) != Common
  {
  }
}
