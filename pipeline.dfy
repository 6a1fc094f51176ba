// The descriptions a pipeline is built from (Skateboard/Renderer/Pipeline.h
// and Pipeline.cpp): the two default static samplers, PipelineDesc's lists of
// shader resources, and MeshletPipelineDesc's root parameters, which are
// numbered in the order they are added. Turning a description into a D3D12
// root signature and pipeline state is not part of this model.
module Pipeline {
  import opened InternalFormats

  // ---------------------------------------------------------------------------
  // Static samplers
  // ---------------------------------------------------------------------------

  /** The SamplerMode_, SamplerComparisonFunction_ and SamplerBorderColour_ values the defaults use. */
  const SamplerModeWarp: uint32 := 0
  const SamplerModeBorder: uint32 := 3
  const SamplerComparisonLessEqual: uint32 := 3
  const SamplerBorderWhite: uint32 := 1
  const SamplerBorderBlack: uint32 := 2

  /** D3D12_FLOAT32_MAX, 3.402823466e+38. */
  const Float32Max: real := 340282346600000000000000000000000000000.0

  /** SamplerDesc; the three mip-level bounds are single-precision floats in the engine. */
  datatype SamplerDesc = SamplerDesc(
    shaderRegister: uint32, shaderRegisterSpace: uint32, visibility: bv32,
    filter: SamplerFilter, mode: uint32,
    mipMapLevelOffset: real, mipMapMinSampleLevel: real, mipMapMaxSampleLevel: real,
    maxAnisotropy: uint32, comparisonFunction: uint32, borderColour: uint32)

  /** InitAsDefaultTextureSampler: trilinear, wrapping, white border. */
  function DefaultTextureSampler(shaderRegister: uint32, shaderRegisterSpace: uint32, visibility: bv32): SamplerDesc
  {
    SamplerDesc(shaderRegister, shaderRegisterSpace, visibility,
      SamplerFilterMinMagMipLinear, SamplerModeWarp, 0.0, 0.0, Float32Max,
      16, SamplerComparisonLessEqual, SamplerBorderWhite)
  }

  /** InitAsDefaultShadowSampler: linear min/mag with point mips, clamped to a black border. */
  function DefaultShadowSampler(shaderRegister: uint32, shaderRegisterSpace: uint32, visibility: bv32): SamplerDesc
  {
    SamplerDesc(shaderRegister, shaderRegisterSpace, visibility,
      SamplerFilterMinMagLinearMipPoint, SamplerModeBorder, 0.0, 0.0, Float32Max,
      16, SamplerComparisonLessEqual, SamplerBorderBlack)
  }

  /**
   * What Direct3D 12 receives for the two defaults through the sampler
   * tables: the texture sampler is MIN_MAG_MIP_LINEAR with WRAP addressing
   * and an opaque white border, the shadow sampler MIN_MAG_LINEAR_MIP_POINT
   * with BORDER addressing and an opaque black border; both compare with
   * LESS_EQUAL, allow anisotropy 16 and the whole mip range, and keep the
   * register, space and visibility they were given.
   */
  lemma DefaultSamplersInD3D(shaderRegister: uint32, shaderRegisterSpace: uint32, visibility: bv32)
    ensures var t := DefaultTextureSampler(shaderRegister, shaderRegisterSpace, visibility);
      SamplerFilterToD3D(t.filter) == D3DFilter(Standard, Basic(Linear, Linear, Linear))
      && SamplerModeToD3D(t.mode) == Wrap && SamplerBorderColourToD3D(t.borderColour) == OpaqueWhite
      && SamplerComparisonFunctionToD3D(t.comparisonFunction) == LessEqual
    ensures var s := DefaultShadowSampler(shaderRegister, shaderRegisterSpace, visibility);
      SamplerFilterToD3D(s.filter) == D3DFilter(Standard, Basic(Linear, Linear, Point))
      && SamplerModeToD3D(s.mode) == Border && SamplerBorderColourToD3D(s.borderColour) == OpaqueBlack
      && SamplerComparisonFunctionToD3D(s.comparisonFunction) == LessEqual
    ensures forall d :: (d == DefaultTextureSampler(shaderRegister, shaderRegisterSpace, visibility)
                      || d == DefaultShadowSampler(shaderRegister, shaderRegisterSpace, visibility)) ==>
      d.shaderRegister == shaderRegister && d.shaderRegisterSpace == shaderRegisterSpace && d.visibility == visibility
      && d.maxAnisotropy == 16 && d.mipMapLevelOffset == 0.0 && d.mipMapMinSampleLevel == 0.0 && d.mipMapMaxSampleLevel == Float32Max
  {
  }

  /** The shadow sampler is the texture sampler with another filter, addressing mode and border colour. */
  lemma DefaultSamplersDifferInFilterModeBorder(shaderRegister: uint32, shaderRegisterSpace: uint32, visibility: bv32)
    ensures DefaultShadowSampler(shaderRegister, shaderRegisterSpace, visibility)
      == DefaultTextureSampler(shaderRegister, shaderRegisterSpace, visibility)
         .(filter := SamplerFilterMinMagLinearMipPoint, mode := SamplerModeBorder, borderColour := SamplerBorderBlack)
    ensures DefaultShadowSampler(shaderRegister, shaderRegisterSpace, visibility)
      != DefaultTextureSampler(shaderRegister, shaderRegisterSpace, visibility)
  {
  }

  // ---------------------------------------------------------------------------
  // Shader resource descriptions
  // ---------------------------------------------------------------------------

  /** ShaderElementType_, in its declared order. */
  datatype ShaderElementType = RootConstant | ConstantBufferView | ShaderResourceView | UnorderedAccessView | DescriptorTable

  /** The description's pointer union: null, a GPU resource or a descriptor table, each by identity. */
  datatype Target = Null | Resource(resource: nat) | Table(table: nat)

  datatype ShaderResourceDesc = ShaderResourceDesc(
    shaderRegister: uint32, shaderRegisterSpace: uint32,
    numOf32BitConstants: uint32, constant32BitSrc: uint32, constant32BitOffset: uint32,
    numOfShaderResources: uint32, rootIndex: uint32,
    elementType: ShaderElementType, visibility: bv32, target: Target)

  /**
   * ShaderResourceDesc desc = {}: every field zero (the element type zero is
   * RootConstant, the pointer null) except NumOfShaderResources, whose member
   * initialiser is 1.
   */
  const EmptyDesc := ShaderResourceDesc(0, 0, 0, 0, 0, 1, 0, RootConstant, 0, Null)

  /** PipelineDesc::CreateDesc: one shader resource of the given kind, no root constants. */
  function CreateDesc(target: Target, t: ShaderElementType, shaderRegister: uint32, shaderRegisterSpace: uint32,
                      visibility: bv32): ShaderResourceDesc
  {
    EmptyDesc.(target := target, elementType := t, shaderRegister := shaderRegister,
      shaderRegisterSpace := shaderRegisterSpace, visibility := visibility,
      numOfShaderResources := 1, numOf32BitConstants := 0)
  }

  /** MeshletPipelineDesc::CreateDesc: as above, but with the given number of 32-bit constants. */
  function MeshletCreateDesc(target: Target, t: ShaderElementType, shaderRegister: uint32, shaderRegisterSpace: uint32,
                             visibility: bv32, numOf32BitConstants: uint32): ShaderResourceDesc
  {
    EmptyDesc.(target := target, elementType := t, shaderRegister := shaderRegister,
      shaderRegisterSpace := shaderRegisterSpace, visibility := visibility,
      numOf32BitConstants := numOf32BitConstants)
  }

  /**
   * The two CreateDesc functions agree when no constants are asked for, and
   * either one leaves the source, offset and root index at zero and counts
   * one shader resource.
   */
  lemma CreateDescsAgree(target: Target, t: ShaderElementType, shaderRegister: uint32, shaderRegisterSpace: uint32,
                         visibility: bv32, n: uint32)
    ensures MeshletCreateDesc(target, t, shaderRegister, shaderRegisterSpace, visibility, 0)
         == CreateDesc(target, t, shaderRegister, shaderRegisterSpace, visibility)
    ensures var d := MeshletCreateDesc(target, t, shaderRegister, shaderRegisterSpace, visibility, n);
      d.numOf32BitConstants == n && d.numOfShaderResources == 1 && d.rootIndex == 0
      && d.constant32BitSrc == 0 && d.constant32BitOffset == 0
      && d.target == target && d.elementType == t && d.shaderRegister == shaderRegister
      && d.shaderRegisterSpace == shaderRegisterSpace && d.visibility == visibility
  {
  }

  /** Every description of a list is one shader resource of kind t, without root constants. */
  predicate AllOfKind(s: seq<ShaderResourceDesc>, t: ShaderElementType)
  {
    forall i :: 0 <= i < |s| ==> s[i].elementType == t && s[i].numOfShaderResources == 1 && s[i].numOf32BitConstants == 0
  }

  /** PipelineDesc: the views, descriptor tables and static samplers of a rasterisation, compute or raytracing pipeline. */
  class PipelineDesc {
    var vCBV: seq<ShaderResourceDesc>
    var vSRV: seq<ShaderResourceDesc>
    var vUAV: seq<ShaderResourceDesc>
    var vDescriptorTables: seq<ShaderResourceDesc>
    var vStaticSamplers: seq<SamplerDesc>

    /** Each list holds only descriptions of its own kind. */
    ghost predicate Valid()
      reads this
    {
      AllOfKind(vCBV, ConstantBufferView) && AllOfKind(vSRV, ShaderResourceView)
      && AllOfKind(vUAV, UnorderedAccessView) && AllOfKind(vDescriptorTables, DescriptorTable)
      && forall i :: 0 <= i < |vDescriptorTables| ==> vDescriptorTables[i].target.Table?
    }

    constructor ()
      ensures Valid()
      ensures vCBV == [] && vSRV == [] && vUAV == [] && vDescriptorTables == [] && vStaticSamplers == []
    {
      vCBV, vSRV, vUAV, vDescriptorTables, vStaticSamplers := [], [], [], [], [];
    }

    /** AddConstantBufferView: one constant-buffer view of the resource joins vCBV. */
    method AddConstantBufferView(resource: nat, shaderRegister: uint32, shaderRegisterSpace: uint32, visibility: bv32)
      requires Valid()
      modifies this`vCBV
      ensures Valid()
      ensures vCBV == old(vCBV) + [CreateDesc(Resource(resource), ConstantBufferView, shaderRegister, shaderRegisterSpace, visibility)]
    {
      vCBV := vCBV + [CreateDesc(Resource(resource), ConstantBufferView, shaderRegister, shaderRegisterSpace, visibility)];
    }

    /** AddShaderResourceView: one shader-resource view of the resource joins vSRV. */
    method AddShaderResourceView(resource: nat, shaderRegister: uint32, shaderRegisterSpace: uint32, visibility: bv32)
      requires Valid()
      modifies this`vSRV
      ensures Valid()
      ensures vSRV == old(vSRV) + [CreateDesc(Resource(resource), ShaderResourceView, shaderRegister, shaderRegisterSpace, visibility)]
    {
      vSRV := vSRV + [CreateDesc(Resource(resource), ShaderResourceView, shaderRegister, shaderRegisterSpace, visibility)];
    }

    /** AddUnorderedAccessView: one unordered-access view of the resource joins vUAV. */
    method AddUnorderedAccessView(resource: nat, shaderRegister: uint32, shaderRegisterSpace: uint32, visibility: bv32)
      requires Valid()
      modifies this`vUAV
      ensures Valid()
      ensures vUAV == old(vUAV) + [CreateDesc(Resource(resource), UnorderedAccessView, shaderRegister, shaderRegisterSpace, visibility)]
    {
      vUAV := vUAV + [CreateDesc(Resource(resource), UnorderedAccessView, shaderRegister, shaderRegisterSpace, visibility)];
    }

    /** AddDescriptorTable: a zero-initialised description of the table, of kind DescriptorTable, joins vDescriptorTables. */
    method AddDescriptorTable(table: nat, shaderRegister: uint32, shaderRegisterSpace: uint32, visibility: bv32)
      requires Valid()
      modifies this`vDescriptorTables
      ensures Valid()
      ensures vDescriptorTables == old(vDescriptorTables) + [EmptyDesc.(target := Table(table), elementType := DescriptorTable,
        shaderRegister := shaderRegister, shaderRegisterSpace := shaderRegisterSpace, visibility := visibility)]
    {
      var desc := EmptyDesc.(target := Table(table), elementType := DescriptorTable,
        shaderRegister := shaderRegister, shaderRegisterSpace := shaderRegisterSpace, visibility := visibility);
      vDescriptorTables := vDescriptorTables + [desc];
    }

    /** AddSampler: the sampler joins vStaticSamplers unchanged. */
    method AddSampler(desc: SamplerDesc)
      modifies this`vStaticSamplers
      ensures vStaticSamplers == old(vStaticSamplers) + [desc]
    {
      vStaticSamplers := vStaticSamplers + [desc];
    }
  }

  // ---------------------------------------------------------------------------
  // Root parameter numbering of a meshlet pipeline
  // ---------------------------------------------------------------------------

  /** static_cast<uint32_t> of a count. */
  function Wrap32(n: nat): (r: uint32)
    ensures n < 0x1_0000_0000 ==> r as int == n
  {
    (n % 0x1_0000_0000) as uint32
  }

  /** The descriptions of kind t, in order. */
  function OfKind(s: seq<ShaderResourceDesc>, t: ShaderElementType): (r: seq<ShaderResourceDesc>)
    ensures |r| <= |s|
    ensures forall i :: 0 <= i < |r| ==> r[i].elementType == t && r[i] in s
  {
    if s == [] then []
    else OfKind(s[..|s| - 1], t) + (if s[|s| - 1].elementType == t then [s[|s| - 1]] else [])
  }

  lemma OfKindAppend(s: seq<ShaderResourceDesc>, d: ShaderResourceDesc, t: ShaderElementType)
    ensures OfKind(s + [d], t) == OfKind(s, t) + (if d.elementType == t then [d] else [])
  {
    assert (s + [d])[..|s|] == s;
  }

  /** A root parameter is a view or a root constant; descriptor tables are not numbered. */
  predicate IsRootParameterKind(t: ShaderElementType)
  {
    t != DescriptorTable
  }

  /** The k-th root parameter of s carries root index k. */
  predicate NumberedInOrder(s: seq<ShaderResourceDesc>)
  {
    forall k :: 0 <= k < |s| ==> s[k].rootIndex as int == k && IsRootParameterKind(s[k].elementType)
  }

  /** Split by kind, a sequence of root parameters loses none of them. */
  lemma {:induction false} OfKindSplitsAll(s: seq<ShaderResourceDesc>)
    requires forall i :: 0 <= i < |s| ==> IsRootParameterKind(s[i].elementType)
    ensures |OfKind(s, ConstantBufferView)| + |OfKind(s, RootConstant)| + |OfKind(s, ShaderResourceView)|
            + |OfKind(s, UnorderedAccessView)| == |s|
  {
    if s != [] {
      OfKindSplitsAll(s[..|s| - 1]);
    }
  }

  /** MeshletPipelineDesc: root parameters in four lists, and static samplers. */
  class MeshletPipelineDesc {
    var vCBV: seq<ShaderResourceDesc>
    var vSRV: seq<ShaderResourceDesc>
    var vUAV: seq<ShaderResourceDesc>
    var v32bitConstants: seq<ShaderResourceDesc>
    var vStaticSamplers: seq<SamplerDesc>
    var isWireFrame: bool
    /** The root parameters in the order they were added. */
    ghost var added: seq<ShaderResourceDesc>

    /** The number of root parameters added so far, the sum of the four list sizes. */
    function RootParameterCount(): nat
      reads this
    {
      |vCBV| + |v32bitConstants| + |vSRV| + |vUAV|
    }

    /**
     * The four lists are the root parameters in the order they were added,
     * split by kind, and the k-th parameter added carries root index k.
     */
    ghost predicate Valid()
      reads this
    {
      NumberedInOrder(added)
      && vCBV == OfKind(added, ConstantBufferView) && v32bitConstants == OfKind(added, RootConstant)
      && vSRV == OfKind(added, ShaderResourceView) && vUAV == OfKind(added, UnorderedAccessView)
    }

    /** The constructor: no root parameters, no samplers, not wire-frame. */
    constructor ()
      ensures Valid()
      ensures vCBV == [] && vSRV == [] && vUAV == [] && v32bitConstants == [] && vStaticSamplers == [] && !isWireFrame
    {
      vCBV, vSRV, vUAV, v32bitConstants, vStaticSamplers := [], [], [], [], [];
      isWireFrame := false;
      added := [];
    }

    /** In a valid description the count of root parameters is the number added. */
    lemma CountIsAdded()
      requires Valid()
      ensures RootParameterCount() == |added|
    {
      OfKindSplitsAll(added);
    }

    /** SetWireFrame. */
    method SetWireFrame(isWire: bool)
      modifies this`isWireFrame
      ensures isWireFrame == isWire
    {
      isWireFrame := isWire;
    }

    /**
     * The step every Add method shares: desc, numbered with the count of root
     * parameters before it, joins the parameters added, which stay valid
     * while fewer than 2^32 have been added.
     */
    ghost method Record(desc: ShaderResourceDesc)
      requires Valid() && IsRootParameterKind(desc.elementType)
      requires desc.rootIndex == Wrap32(RootParameterCount()) && RootParameterCount() < 0x1_0000_0000
      modifies this`added
      ensures added == old(added) + [desc] && NumberedInOrder(added)
      ensures forall t :: OfKind(added, t) == OfKind(old(added), t) + (if desc.elementType == t then [desc] else [])
    {
      CountIsAdded();
      added := added + [desc];
      forall t {
        OfKindAppend(old(added), desc, t);
      }
    }

    /**
     * AddConstantBuffer, with a buffer (Resource) or without one (Null): a
     * constant-buffer view numbered with the count of root parameters before
     * it joins vCBV.
     */
    method AddConstantBuffer(target: Target, shaderRegister: uint32, shaderRegisterSpace: uint32, visibility: bv32)
      requires !target.Table?
      modifies this`vCBV, this`added
      ensures vCBV == old(vCBV) + [MeshletCreateDesc(target, ConstantBufferView, shaderRegister, shaderRegisterSpace, visibility, 0)
                                     .(rootIndex := Wrap32(old(RootParameterCount())))]
      ensures old(Valid()) && old(RootParameterCount()) < 0x1_0000_0000 ==> Valid() && added == old(added) + [vCBV[|vCBV| - 1]]
    {
      var desc := MeshletCreateDesc(target, ConstantBufferView, shaderRegister, shaderRegisterSpace, visibility, 0);
      desc := desc.(rootIndex := Wrap32(|vCBV| + |v32bitConstants| + |vSRV| + |vUAV|));
      if Valid() && RootParameterCount() < 0x1_0000_0000 {
        Record(desc);
      }
      vCBV := vCBV + [desc];
    }

    /** AddShaderResource, with a buffer or without one: a shader-resource view, numbered the same way, joins vSRV. */
    method AddShaderResource(target: Target, shaderRegister: uint32, shaderRegisterSpace: uint32, visibility: bv32)
      requires !target.Table?
      modifies this`vSRV, this`added
      ensures vSRV == old(vSRV) + [MeshletCreateDesc(target, ShaderResourceView, shaderRegister, shaderRegisterSpace, visibility, 0)
                                     .(rootIndex := Wrap32(old(RootParameterCount())))]
      ensures old(Valid()) && old(RootParameterCount()) < 0x1_0000_0000 ==> Valid() && added == old(added) + [vSRV[|vSRV| - 1]]
    {
      var desc := MeshletCreateDesc(target, ShaderResourceView, shaderRegister, shaderRegisterSpace, visibility, 0);
      desc := desc.(rootIndex := Wrap32(|vCBV| + |v32bitConstants| + |vSRV| + |vUAV|));
      if Valid() && RootParameterCount() < 0x1_0000_0000 {
        Record(desc);
      }
      vSRV := vSRV + [desc];
    }

    /** AddUnorderedAccess, with a buffer or without one: an unordered-access view, numbered the same way, joins vUAV. */
    method AddUnorderedAccess(target: Target, shaderRegister: uint32, shaderRegisterSpace: uint32, visibility: bv32)
      requires !target.Table?
      modifies this`vUAV, this`added
      ensures vUAV == old(vUAV) + [MeshletCreateDesc(target, UnorderedAccessView, shaderRegister, shaderRegisterSpace, visibility, 0)
                                     .(rootIndex := Wrap32(old(RootParameterCount())))]
      ensures old(Valid()) && old(RootParameterCount()) < 0x1_0000_0000 ==> Valid() && added == old(added) + [vUAV[|vUAV| - 1]]
    {
      var desc := MeshletCreateDesc(target, UnorderedAccessView, shaderRegister, shaderRegisterSpace, visibility, 0);
      desc := desc.(rootIndex := Wrap32(|vCBV| + |v32bitConstants| + |vSRV| + |vUAV|));
      if Valid() && RootParameterCount() < 0x1_0000_0000 {
        Record(desc);
      }
      vUAV := vUAV + [desc];
    }

    /**
     * Add32BitConstant: a root constant of numOf32BitConstants values, with
     * no resource behind it and numbered the same way, joins v32bitConstants.
     */
    method Add32BitConstant(numOf32BitConstants: uint32, shaderRegister: uint32, shaderRegisterSpace: uint32, visibility: bv32)
      modifies this`v32bitConstants, this`added
      ensures v32bitConstants == old(v32bitConstants)
        + [MeshletCreateDesc(Null, RootConstant, shaderRegister, shaderRegisterSpace, visibility, numOf32BitConstants)
             .(rootIndex := Wrap32(old(RootParameterCount())))]
      ensures old(Valid()) && old(RootParameterCount()) < 0x1_0000_0000 ==>
        Valid() && added == old(added) + [v32bitConstants[|v32bitConstants| - 1]]
    {
      var desc := MeshletCreateDesc(Null, RootConstant, shaderRegister, shaderRegisterSpace, visibility, numOf32BitConstants);
      desc := desc.(rootIndex := Wrap32(|vCBV| + |v32bitConstants| + |vSRV| + |vUAV|));
      if Valid() && RootParameterCount() < 0x1_0000_0000 {
        Record(desc);
      }
      v32bitConstants := v32bitConstants + [desc];
    }

    /** AddSampler: the sampler joins vStaticSamplers unchanged; it is not a root parameter. */
    method AddSampler(desc: SamplerDesc)
      modifies this`vStaticSamplers
      ensures vStaticSamplers == old(vStaticSamplers) + [desc]
      ensures old(Valid()) ==> Valid()
    {
      vStaticSamplers := vStaticSamplers + [desc];
    }

    /**
     * In a valid description every root parameter of the four lists is one
     * of those added, with a root index below the count, and no two
     * parameters share a root index.
     */
    lemma RootIndicesOneToOne()
      requires Valid()
      ensures forall d :: d in vCBV + v32bitConstants + vSRV + vUAV ==> d in added && (d.rootIndex as int) < RootParameterCount()
      ensures forall i, j :: 0 <= i < j < |added| ==> added[i].rootIndex != added[j].rootIndex
    {
      CountIsAdded();
      forall d | d in vCBV + v32bitConstants + vSRV + vUAV
        ensures d in added && (d.rootIndex as int) < RootParameterCount()
      {
        var k :| 0 <= k < |added| && added[k] == d;
      }
    }
  }
}
