/** VertexData: a 2-float position followed by a 3-float colour, and the
    vertex-input binding and attribute descriptions derived from it. */
module VertexLayout {
  import opened Vk

  /** Size and alignment of one float; glm vectors are arrays of floats. */
  const FLOAT_BYTES: nat := 4

  /** Float counts of the members of VertexData, in declaration order. */
  const MEMBER_FLOATS: seq<nat> := [2, 3]

  /** offsetof of member i: every member is float-aligned, so a member starts
      where the previous one ends. */
  function MemberOffset(floats: seq<nat>, i: nat): nat
    requires i <= |floats|
  {
    if i == 0 then 0 else MemberOffset(floats, i - 1) + FLOAT_BYTES * floats[i - 1]
  }

  /** sizeof(VertexData): the end of the last member, already a multiple of the float alignment. */
  function VertexStride(): (stride: nat)
    ensures stride % FLOAT_BYTES == 0
    ensures stride == FLOAT_BYTES * (MEMBER_FLOATS[0] + MEMBER_FLOATS[1])
  {
    MemberOffset(MEMBER_FLOATS, |MEMBER_FLOATS|)
  }

  datatype InputRate = PerVertex | PerInstance

  /** VkVertexInputBindingDescription */
  datatype BindingDescription = BindingDescription(binding: nat, stride: nat, inputRate: InputRate)

  /** VkVertexInputAttributeDescription */
  datatype AttributeDescription = AttributeDescription(location: nat, binding: nat, format: Format, offset: nat)

  /** VertexData::GetBindingDescription: binding 0, advanced per vertex by one VertexData. */
  function GetBindingDescription(): (b: BindingDescription)
    ensures b.binding == 0 && b.inputRate == PerVertex
    ensures b.stride == VertexStride()
  {
    BindingDescription(0, VertexStride(), PerVertex)
  }

  /** The attribute reads the whole of member i and nothing else. */
  predicate ReadsMember(a: AttributeDescription, i: nat)
    requires i < |MEMBER_FLOATS|
  {
    a.offset == MemberOffset(MEMBER_FLOATS, i) && FormatSize(a.format) == FLOAT_BYTES * MEMBER_FLOATS[i]
  }

  /** VertexData::GetAttributeDescription: location i reads member i from
      binding 0; every attribute lies inside the stride and no two overlap. */
  function GetAttributeDescription(): (attrs: seq<AttributeDescription>)
    ensures |attrs| == |MEMBER_FLOATS| == 2
    ensures forall i :: 0 <= i < |attrs| ==>
              attrs[i].location == i && attrs[i].binding == GetBindingDescription().binding && ReadsMember(attrs[i], i)
    ensures forall i :: 0 <= i < |attrs| ==> attrs[i].offset + FormatSize(attrs[i].format) <= GetBindingDescription().stride
    ensures forall i, j :: 0 <= i < j < |attrs| ==>
              attrs[i].offset + FormatSize(attrs[i].format) <= attrs[j].offset
  {
    [AttributeDescription(0, 0, R32G32Sfloat, MemberOffset(MEMBER_FLOATS, 0)),
     AttributeDescription(1, 0, R32G32B32Sfloat, MemberOffset(MEMBER_FLOATS, 1))]
  }
}
