/** What VertexBuffer and IndexBuffer share: a Vulkan buffer with its own
    host-visible allocation, the freed flag that guards the destructor, the
    bytes SetData writes, and the create/destroy calls on both handles. */
module BufferResource {
  import opened Common
  import opened Vk
  import opened Lifecycle
  import MemoryType
  import HostMemory

  /** The two handles a buffer object owns; each RecreateBuffer gets a new
      pair, numbered by `id`. */
  datatype BufferObject = BufferHandle(id: nat) | MemoryHandle(id: nat)

  /** vkBindBufferMemory of a pair, and the map/copy/unmap of SetData. */
  datatype BufferAction = BindMemory(id: nat) | WriteData(id: nat, size: nat)

  type BufferEvent = Event<BufferObject, BufferAction>

  /** What the device reports when the buffer is created: the allowed
      memory types of the buffer, the flags of each memory type, and the
      allocation's initial contents (its length is the allocation size). */
  datatype MemoryEnvironment = MemoryEnvironment(typeBits: Flags, typeFlags: seq<Flags>, initialContents: seq<byte>)

  /** The object's fields: m_Size, m_IsFreed, the buffer's usage, the
      current handle pair, the memory type, the allocation's bytes; plus
      the id of the next handle pair and every call made so far. */
  datatype BufferState = BufferState(
    size: nat, freed: bool, usage: Flags, id: nat, memoryTypeIndex: nat,
    contents: seq<byte>, nextId: nat, events: seq<BufferEvent>)

  /** The object before the constructor body runs: m_Size set from the
      initialiser list, m_IsFreed false, no handles yet. */
  function Fresh(size: nat, nextId: nat): (s: BufferState)
    ensures s.size == size && !s.freed && s.events == [] && s.nextId == nextId
  {
    BufferState(size, false, 0, 0, 0, [], nextId, [])
  }

  /** The body of RecreateBuffer that both classes share: create a buffer
      of m_Size bytes, pick the lowest allowed HOST_VISIBLE|HOST_COHERENT
      memory type (else 0), allocate. The previous handles are overwritten,
      not released. */
  function Allocate(s: BufferState, usage: Flags, env: MemoryEnvironment): (r: BufferState)
    requires |env.typeFlags| <= MemoryType.MAX_MEMORY_TYPES
    ensures r.size == s.size && r.freed == s.freed && r.usage == usage
    ensures r.id == s.nextId && r.nextId == s.nextId + 1
    ensures r.contents == env.initialContents
    ensures r.events == s.events + [Create(BufferHandle(s.nextId)), Create(MemoryHandle(s.nextId))]
    ensures (exists j: nat :: MemoryType.Suitable(env.typeBits, env.typeFlags, MemoryType.HOST_VISIBLE_COHERENT, j)) ==>
              MemoryType.Suitable(env.typeBits, env.typeFlags, MemoryType.HOST_VISIBLE_COHERENT, r.memoryTypeIndex)
              && forall j: nat :: j < r.memoryTypeIndex ==> !MemoryType.Suitable(env.typeBits, env.typeFlags, MemoryType.HOST_VISIBLE_COHERENT, j)
    ensures (forall j: nat :: !MemoryType.Suitable(env.typeBits, env.typeFlags, MemoryType.HOST_VISIBLE_COHERENT, j)) ==> r.memoryTypeIndex == 0
  {
    s.(usage := usage, id := s.nextId, nextId := s.nextId + 1,
       memoryTypeIndex := MemoryType.FindMemoryType(env.typeBits, env.typeFlags, MemoryType.HOST_VISIBLE_COHERENT),
       contents := env.initialContents,
       events := s.events + [Create(BufferHandle(s.nextId)), Create(MemoryHandle(s.nextId))])
  }

  /** Bind: vkBindBufferMemory of the current pair. */
  function Bind(s: BufferState): (r: BufferState)
    ensures r == s.(events := s.events + [Act(BindMemory(s.id))])
  {
    s.(events := s.events + [Act(BindMemory(s.id))])
  }

  /** SetData(data, size): m_Size becomes size and the first size bytes of
      the allocation become data's. memcpy reads size bytes of data and the
      mapped range must lie inside the allocation. */
  function SetData(s: BufferState, data: seq<byte>, size: nat): (r: BufferState)
    requires size <= |data| && size <= |s.contents|
    ensures r.size == size && r.freed == s.freed && r.id == s.id && r.nextId == s.nextId
    ensures r.events == s.events + [Act(WriteData(s.id, size))]
    ensures |r.contents| == |s.contents|
    ensures HostMemory.ReadBack(r.contents, size) == data[..size]
    ensures forall i :: size <= i < |s.contents| ==> r.contents[i] == s.contents[i]
  {
    s.(size := size, contents := HostMemory.CopyIn(s.contents, data, size),
       events := s.events + [Act(WriteData(s.id, size))])
  }

  /** FreeMemory: set the flag and destroy the current pair, whether or not
      it was already destroyed. */
  function FreeMemory(s: BufferState): (r: BufferState)
    ensures r.freed && r.id == s.id && r.nextId == s.nextId
    ensures r.events == s.events + [Destroy(BufferHandle(s.id)), Destroy(MemoryHandle(s.id))]
  {
    s.(freed := true, events := s.events + [Destroy(BufferHandle(s.id)), Destroy(MemoryHandle(s.id))])
  }

  /** The destructor: FreeMemory unless the flag is set. */
  function Destruct(s: BufferState): (r: BufferState)
    ensures s.freed ==> r == s
    ensures !s.freed ==> r == FreeMemory(s)
  {
    if s.freed then s else FreeMemory(s)
  }

  /** The net effect of a create or destroy pair on the handle counts. */
  lemma NetOfPair(trace: seq<BufferEvent>, id: nat, create: bool, o: BufferObject)
    ensures var pair: seq<BufferEvent> := if create then [Create(BufferHandle(id)), Create(MemoryHandle(id))]
                                          else [Destroy(BufferHandle(id)), Destroy(MemoryHandle(id))];
            Net(trace + pair, o) == Net(trace, o) + (if o.id == id then (if create then 1 else -1) else 0)
  {
    var a: BufferEvent := if create then Create(BufferHandle(id)) else Destroy(BufferHandle(id));
    var b: BufferEvent := if create then Create(MemoryHandle(id)) else Destroy(MemoryHandle(id));
    NetSingle(a, o);
    NetSingle(b, o);
    NetAppend([a], [b], o);
    assert [a] + [b] == [a, b];
    NetAppend(trace, [a, b], o);
  }

  lemma NetOfAct(trace: seq<BufferEvent>, act: BufferAction, o: BufferObject)
    ensures Net(trace + [Act(act)], o) == Net(trace, o)
  {
    NetSingle<BufferObject, BufferAction>(Act(act), o);
    NetAppend(trace, [Act(act)], o);
  }

  /** Explicit FreeMemory followed by destruction releases each handle
      once: the destructor sees the flag and does nothing. */
  lemma FreeThenDestructReleasesOnce(s: BufferState, o: BufferObject)
    ensures Destruct(FreeMemory(s)).events == FreeMemory(s).events
    ensures Net(Destruct(FreeMemory(s)).events, o) == Net(s.events, o) - (if o.id == s.id then 1 else 0)
  {
    NetOfPair(s.events, s.id, false, o);
  }

  /** FreeMemory does not look at the flag: calling it twice destroys the
      pair twice. */
  lemma DoubleFreeDestroysTwice(s: BufferState, o: BufferObject)
    ensures Net(FreeMemory(FreeMemory(s)).events, o) == Net(s.events, o) - (if o.id == s.id then 2 else 0)
  {
    NetOfPair(s.events, s.id, false, o);
    NetOfPair(FreeMemory(s).events, s.id, false, o);
  }
}
