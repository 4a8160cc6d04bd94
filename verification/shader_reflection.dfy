/** spirv_cross's description of a SPIR-V type, as far as the reflection
    step reads it: the base type and the number of matrix columns. */
module Spirv {
  /** spirv_cross::SPIRType::BaseType */
  datatype BaseType =
    | Unknown | Void | Boolean | SByte | UByte | Short | UShort | Int | UInt
    | Int64 | UInt64 | AtomicCounter | Half | Float | Double | Struct | Image
    | SampledImage | Sampler | AccelerationStructure | RayQuery
    | ControlPointArray | Interpolant | Char

  datatype SpirType = SpirType(baseType: BaseType, columns: nat)
}

/** Shader reflection post-processing: each uniform-buffer member's SPIR-V
    type becomes a member kind, the kind's size comes from a fixed table and
    the member's offset is the running sum of the sizes before it. */
module ShaderReflection {
  import opened Common
  import opened Vk
  import Spirv
  import opened ShaderSource
  import MemoryType

  /** ShaderMemberType; MemberNone is the enumerator None = -1. */
  datatype MemberType = MemberNone | Int8 | Int16 | Int32 | UInt32 | Float | Bool | Mat4 | SampledImage

  /** The base types the conversion switch has a case for; any other base
      type runs off the end of the function without a return value. */
  predicate Mappable(t: Spirv.SpirType)
  {
    t.baseType.Char? || t.baseType.Short? || t.baseType.Int? || t.baseType.Float? || t.baseType.SampledImage?
  }

  /** The SPIR-V base type a member kind stands for. */
  function BaseTypeOf(m: MemberType): Spirv.BaseType
  {
    match m
    case Int8 => Spirv.Char
    case Int16 => Spirv.Short
    case Int32 => Spirv.Int
    case Float | Mat4 => Spirv.Float
    case SampledImage => Spirv.SampledImage
    case Bool => Spirv.Boolean
    case UInt32 => Spirv.UInt
    case MemberNone => Spirv.Unknown
  }

  /** Utils::FromSpirVTypeToShaderMemberType: the kind keeps the base type,
      and a float type is a Mat4 exactly when it has four columns. */
  function FromSpirvType(t: Spirv.SpirType): (m: MemberType)
    requires Mappable(t)
    ensures BaseTypeOf(m) == t.baseType
    ensures m == Mat4 <==> t.baseType == Spirv.Float && t.columns == 4
    ensures m != MemberNone && m != Bool && m != UInt32
  {
    match t.baseType
    case Char => Int8
    case Short => Int16
    case Int => Int32
    case Float => if t.columns == 4 then Mat4 else Float
    case SampledImage => SampledImage
  }

  /** The kinds the size switch has a case for. */
  predicate HasByteSize(m: MemberType)
  {
    m.Bool? || m.Float? || m.Int16? || m.Int32? || m.Mat4?
  }

  /** Bytes of one scalar component of a kind. */
  function ComponentBytes(m: MemberType): nat
  {
    match m
    case Bool | Int8 => 1
    case Int16 => 2
    case _ => 4
  }

  /** Scalar components of a kind: sixteen for a 4x4 matrix, one otherwise. */
  function Components(m: MemberType): nat
  {
    if m == Mat4 then 16 else 1
  }

  /** Utils::ShaderTypeToBytes: a kind's size is its component size times
      its component count. */
  function TypeBytes(m: MemberType): (bytes: nat)
    requires HasByteSize(m)
    ensures bytes == ComponentBytes(m) * Components(m)
    ensures 1 <= bytes <= 64
  {
    match m
    case Bool => 1
    case Float => 4
    case Int16 => 2
    case Int32 => 4
    case Mat4 => 4 * 4 * 4
  }

  /** A member as spirv_cross reports it: its name and its SPIR-V type. */
  datatype MemberInput = MemberInput(name: string, spirType: Spirv.SpirType)

  /** ShaderMember */
  datatype Member = Member(name: string, size: nat, offset: nat, memberType: MemberType)

  /** Both switches have a case for this member's type. */
  predicate Reflectable(m: MemberInput)
  {
    Mappable(m.spirType) && HasByteSize(FromSpirvType(m.spirType))
  }

  predicate AllReflectable(ms: seq<MemberInput>)
  {
    forall i :: 0 <= i < |ms| ==> Reflectable(ms[i])
  }

  function MemberBytes(m: MemberInput): nat
    requires Reflectable(m)
  {
    TypeBytes(FromSpirvType(m.spirType))
  }

  /** Total size of the first i members. */
  function PrefixBytes(ms: seq<MemberInput>, i: nat): nat
    requires AllReflectable(ms)
    requires i <= |ms|
  {
    if i == 0 then 0 else PrefixBytes(ms, i - 1) + MemberBytes(ms[i - 1])
  }

  /** Member i as reflection should describe it: its kind, that kind's size,
      and the sizes of the members before it as offset, in uint32 arithmetic. */
  function ExpectedMember(ms: seq<MemberInput>, i: nat): Member
    requires AllReflectable(ms)
    requires i < |ms|
  {
    var t := FromSpirvType(ms[i].spirType);
    Member(ms[i].name, TypeBytes(t), ToUint32(PrefixBytes(ms, i)), t)
  }

  /** The member loop of Shader::Reflect with its running uint32 offset. */
  method ReflectMembers(ms: seq<MemberInput>) returns (out: seq<Member>)
    requires AllReflectable(ms)
    ensures |out| == |ms|
    ensures forall i :: 0 <= i < |ms| ==> out[i] == ExpectedMember(ms, i)
  {
    out := [];
    var offset: nat := 0;
    var i := 0;
    while i < |ms|
      invariant 0 <= i <= |ms|
      invariant |out| == i
      invariant offset == ToUint32(PrefixBytes(ms, i))
      invariant forall j :: 0 <= j < i ==> out[j] == ExpectedMember(ms, j)
    {
      var t := FromSpirvType(ms[i].spirType);
      var size := TypeBytes(t);
      out := out + [Member(ms[i].name, size, offset, t)];
      OffsetStep(ms, i);
      offset := ToUint32(offset + size);
      i := i + 1;
    }
  }

  /** One step of the running offset: adding a member's size to the
      wrapped offset so far gives the wrapped offset of the next member. */
  lemma OffsetStep(ms: seq<MemberInput>, i: nat)
    requires AllReflectable(ms)
    requires i < |ms|
    ensures ToUint32(ToUint32(PrefixBytes(ms, i)) + TypeBytes(FromSpirvType(ms[i].spirType))) == ToUint32(PrefixBytes(ms, i + 1))
  {
    WrapAdd(PrefixBytes(ms, i), MemberBytes(ms[i]));
  }

  lemma {:induction false} PrefixBytesMonotone(ms: seq<MemberInput>, i: nat, j: nat)
    requires AllReflectable(ms)
    requires i <= j <= |ms|
    ensures PrefixBytes(ms, i) <= PrefixBytes(ms, j)
    decreases j - i
  {
    if i < j {
      PrefixBytesMonotone(ms, i, j - 1);
    }
  }

  /** While the members' total size fits in a uint32, the members are laid
      out back to back from offset 0: each begins where the previous ends,
      and the last ends at the total size. */
  lemma MembersPacked(ms: seq<MemberInput>)
    requires AllReflectable(ms)
    requires PrefixBytes(ms, |ms|) < UINT32_LIMIT
    ensures |ms| > 0 ==> ExpectedMember(ms, 0).offset == 0
    ensures forall i :: 0 < i < |ms| ==>
              ExpectedMember(ms, i).offset == ExpectedMember(ms, i - 1).offset + ExpectedMember(ms, i - 1).size
    ensures |ms| > 0 ==>
              ExpectedMember(ms, |ms| - 1).offset + ExpectedMember(ms, |ms| - 1).size == PrefixBytes(ms, |ms|)
  {
    forall i | 0 <= i < |ms|
      ensures ExpectedMember(ms, i).offset == PrefixBytes(ms, i)
    {
      PrefixBytesMonotone(ms, i, |ms|);
    }
  }

  /** A uniform block as spirv_cross reports it. */
  datatype UboInput = UboInput(declaredSize: nat, binding: nat, members: seq<MemberInput>)

  /** What spirv_cross reports for one compiled stage. */
  datatype StageInput = StageInput(uniformBuffers: seq<UboInput>, sampledImages: nat)

  /** ShaderUniformBuffer; MemberSize and BufferSize are uint32. */
  datatype ReflectedUbo = ReflectedUbo(bufferSize: nat, binding: nat, memberSize: nat, members: seq<Member>)

  /** ShaderResource */
  datatype Resource = Resource(name: string, uniformBufferSize: nat, imageBufferSize: nat, ubos: seq<ReflectedUbo>)

  predicate StageReflectable(input: StageInput)
  {
    forall k :: 0 <= k < |input.uniformBuffers| ==> AllReflectable(input.uniformBuffers[k].members)
  }

  /** u is the reflection of uniform block b. */
  predicate Describes(u: ReflectedUbo, b: UboInput)
  {
    && AllReflectable(b.members)
    && u.bufferSize == ToUint32(b.declaredSize)
    && u.binding == b.binding
    && u.memberSize == ToUint32(|b.members|)
    && |u.members| == |b.members|
    && forall i :: 0 <= i < |b.members| ==> u.members[i] == ExpectedMember(b.members, i)
  }

  /** Utils::FromShaderTypeToString */
  function StageName(stage: Stage): string
  {
    match stage
    case Vertex => "vertex"
    case Pixel => "pixel"
  }

  /** The name of a stage is a marker word that selects that stage again when
      the splitter reads it after "#type ". */
  lemma StageNameSelectsStage(stage: Stage, current: Stage)
    ensures IsMarker("#type " + StageName(stage))
    ensures Select("#type " + StageName(stage), current) == stage
  {
    var line := "#type " + StageName(stage);
    assert OccursAt(line, "#type", 0);
    if stage == Vertex {
      assert OccursAt(line, "vertex", 6);
    } else {
      assert OccursAt(line, "pixel", 6);
      forall i: nat | i <= |line| ensures !OccursAt(line, "vertex", i) {
        if i + 6 <= |line| {
          assert line[i..i + 6][0] == line[i];
        }
      }
    }
  }

  /** Shader::Reflect for one compiled stage. */
  method Reflect(shaderName: string, stage: Stage, input: StageInput) returns (res: Resource)
    requires StageReflectable(input)
    ensures res.name == shaderName + "::" + StageName(stage)
    ensures res.uniformBufferSize == |input.uniformBuffers| == |res.ubos|
    ensures res.imageBufferSize == input.sampledImages
    ensures forall k :: 0 <= k < |res.ubos| ==> Describes(res.ubos[k], input.uniformBuffers[k])
  {
    var ubos: seq<ReflectedUbo> := [];
    var k := 0;
    while k < |input.uniformBuffers|
      invariant 0 <= k <= |input.uniformBuffers|
      invariant |ubos| == k
      invariant forall j :: 0 <= j < k ==> Describes(ubos[j], input.uniformBuffers[j])
    {
      var b := input.uniformBuffers[k];
      var members := ReflectMembers(b.members);
      ubos := ubos + [ReflectedUbo(ToUint32(b.declaredSize), b.binding, ToUint32(|b.members|), members)];
      k := k + 1;
    }
    res := Resource(shaderName + "::" + StageName(stage), |input.uniformBuffers|, input.sampledImages, ubos);
  }

  // ---------------------------------------------------------------------
  // CreateUniformBuffers

  /** A resource as Reflect leaves it: its count matches its list. */
  predicate WellFormed(r: Resource)
  {
    r.uniformBufferSize == |r.ubos|
  }

  /** Total of the reported uniform-buffer counts of the resources. */
  function UboCount(resources: seq<Resource>): nat
  {
    if |resources| == 0 then 0
    else UboCount(resources[..|resources| - 1]) + resources[|resources| - 1].uniformBufferSize
  }

  /** One vkCreateBuffer / vkAllocateMemory pair. */
  datatype BufferRequest = BufferRequest(size: nat, usage: Flags, sharing: SharingMode, memoryTypeIndex: nat)

  /** Every uniform buffer is created with the same usage and flags, so the
      Vulkan specification guarantees the same memoryTypeBits for all of
      them: one requirement mask stands for every buffer. */
  function RequestFor(u: ReflectedUbo, typeBits: Flags, typeFlags: seq<Flags>): BufferRequest
    requires |typeFlags| <= MemoryType.MAX_MEMORY_TYPES
  {
    BufferRequest(u.bufferSize, BUFFER_USAGE_UNIFORM_BUFFER, Exclusive,
                  MemoryType.FindMemoryType(typeBits, typeFlags, MemoryType.HOST_VISIBLE_COHERENT))
  }

  /** Shader::CreateUniformBuffers: the buffers of every resource's blocks,
      resource by resource and block by block. */
  function UniformBufferRequests(resources: seq<Resource>, typeBits: Flags, typeFlags: seq<Flags>): (reqs: seq<BufferRequest>)
    requires |typeFlags| <= MemoryType.MAX_MEMORY_TYPES
    ensures (forall r :: 0 <= r < |resources| ==> WellFormed(resources[r])) ==> |reqs| == UboCount(resources)
    ensures forall j :: 0 <= j < |reqs| ==>
              reqs[j].usage == BUFFER_USAGE_UNIFORM_BUFFER && reqs[j].sharing == Exclusive
    ensures (exists i: nat :: MemoryType.Suitable(typeBits, typeFlags, MemoryType.HOST_VISIBLE_COHERENT, i)) ==>
              forall j :: 0 <= j < |reqs| ==>
                MemoryType.Suitable(typeBits, typeFlags, MemoryType.HOST_VISIBLE_COHERENT, reqs[j].memoryTypeIndex)
  {
    if |resources| == 0 then []
    else
      var last := resources[|resources| - 1];
      UniformBufferRequests(resources[..|resources| - 1], typeBits, typeFlags)
        + seq(|last.ubos|, k requires 0 <= k < |last.ubos| => RequestFor(last.ubos[k], typeBits, typeFlags))
  }

  /** Block k of resource r gets the buffer at position (blocks of the
      resources before r) + k, sized to that block. */
  lemma {:induction false} RequestPosition(resources: seq<Resource>, typeBits: Flags, typeFlags: seq<Flags>, r: nat, k: nat)
    requires |typeFlags| <= MemoryType.MAX_MEMORY_TYPES
    requires forall i :: 0 <= i < |resources| ==> WellFormed(resources[i])
    requires r < |resources| && k < |resources[r].ubos|
    ensures UboCount(resources[..r]) + k < |UniformBufferRequests(resources, typeBits, typeFlags)|
    ensures UniformBufferRequests(resources, typeBits, typeFlags)[UboCount(resources[..r]) + k].size
         == resources[r].ubos[k].bufferSize
    decreases |resources|
  {
    var n := |resources|;
    var init := resources[..n - 1];
    var last := resources[n - 1];
    assert forall i :: 0 <= i < |init| ==> WellFormed(init[i]);
    var before := UniformBufferRequests(init, typeBits, typeFlags);
    var tail := seq(|last.ubos|, j requires 0 <= j < |last.ubos| => RequestFor(last.ubos[j], typeBits, typeFlags));
    assert UniformBufferRequests(resources, typeBits, typeFlags) == before + tail;
    assert |before| == UboCount(init);
    if r == n - 1 {
      assert resources[..r] == init;
      assert (before + tail)[|before| + k] == tail[k];
    } else {
      assert resources[..r] == init[..r];
      RequestPosition(init, typeBits, typeFlags, r, k);
      assert (before + tail)[UboCount(init[..r]) + k] == before[UboCount(init[..r]) + k];
    }
  }
}
