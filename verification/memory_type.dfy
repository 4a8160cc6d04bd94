/** The memory-type search repeated in the swapchain, the application driver,
    the vertex, index and uniform buffers: scan the device's memory types in
    index order and take the first one the resource allows whose property
    flags contain a required filter; fall back to type 0 when none qualifies. */
module MemoryType {
  import opened Vk

  /** VK_MAX_MEMORY_TYPES: the length of VkPhysicalDeviceMemoryProperties::memoryTypes. */
  const MAX_MEMORY_TYPES: nat := 32

  /** Bit i of VkMemoryRequirements::memoryTypeBits, checked as `bits & (1 << i)`. */
  predicate Allowed(typeBits: Flags, i: nat)
    requires i < MAX_MEMORY_TYPES
  {
    typeBits & ((1 as bv32) << i) != 0
  }

  /** `(flags & filter) == filter`: every filter bit is set in flags. */
  predicate HasAll(flags: Flags, filter: Flags)
  {
    flags & filter == filter
  }

  /** Memory type i exists, is allowed by the requirement bits and has every filter flag. */
  predicate Suitable(typeBits: Flags, typeFlags: seq<Flags>, filter: Flags, i: nat)
    requires |typeFlags| <= MAX_MEMORY_TYPES
  {
    i < |typeFlags| && Allowed(typeBits, i) && HasAll(typeFlags[i], filter)
  }

  /** The scan from index `from` on; the source's loop is the case from == 0. */
  function FindMemoryTypeFrom(typeBits: Flags, typeFlags: seq<Flags>, filter: Flags, from: nat): (index: nat)
    requires |typeFlags| <= MAX_MEMORY_TYPES
    requires from <= |typeFlags|
    ensures (exists j: nat :: from <= j && Suitable(typeBits, typeFlags, filter, j)) ==>
              from <= index && Suitable(typeBits, typeFlags, filter, index)
              && forall j: nat :: from <= j < index ==> !Suitable(typeBits, typeFlags, filter, j)
    ensures (forall j: nat :: from <= j ==> !Suitable(typeBits, typeFlags, filter, j)) ==> index == 0
    decreases |typeFlags| - from
  {
    if from == |typeFlags| then 0
    else if Suitable(typeBits, typeFlags, filter, from) then from
    else FindMemoryTypeFrom(typeBits, typeFlags, filter, from + 1)
  }

  /** memTypeIndex: the lowest suitable index, or 0 when no index is suitable. */
  function FindMemoryType(typeBits: Flags, typeFlags: seq<Flags>, filter: Flags): (index: nat)
    requires |typeFlags| <= MAX_MEMORY_TYPES
    ensures Suitable(typeBits, typeFlags, filter, index) <==>
              exists j: nat :: Suitable(typeBits, typeFlags, filter, j)
    ensures forall j: nat :: j < index ==> !Suitable(typeBits, typeFlags, filter, j)
    ensures !Suitable(typeBits, typeFlags, filter, index) ==> index == 0
  {
    FindMemoryTypeFrom(typeBits, typeFlags, filter, 0)
  }

  /** The filter HOST_VISIBLE | HOST_COHERENT used for CPU-written buffers. */
  const HOST_VISIBLE_COHERENT: Flags := MEMORY_PROPERTY_HOST_VISIBLE | MEMORY_PROPERTY_HOST_COHERENT

  /** A memory type picked for host-written data can be mapped and needs no flush. */
  lemma {:induction false} HostFilterPicksMappableMemory(typeBits: Flags, typeFlags: seq<Flags>)
    requires |typeFlags| <= MAX_MEMORY_TYPES
    requires exists j: nat :: Suitable(typeBits, typeFlags, HOST_VISIBLE_COHERENT, j)
    ensures var i := FindMemoryType(typeBits, typeFlags, HOST_VISIBLE_COHERENT);
            i < |typeFlags|
            && typeFlags[i] & MEMORY_PROPERTY_HOST_VISIBLE != 0
            && typeFlags[i] & MEMORY_PROPERTY_HOST_COHERENT != 0
  {
    var i := FindMemoryType(typeBits, typeFlags, HOST_VISIBLE_COHERENT);
    assert HasAll(typeFlags[i], HOST_VISIBLE_COHERENT);
  }
}
