/** VertexBuffer: a host-visible buffer with VERTEX_BUFFER usage. Its
    RecreateBuffer clears the freed flag. */
module VertexBuffer {
  import opened Common
  import opened Vk
  import opened Lifecycle
  import MemoryType
  import HostMemory
  import opened BufferResource

  /** RecreateBuffer: clear the flag, then create and allocate a new pair. */
  function RecreateBuffer(s: BufferState, env: MemoryEnvironment): (r: BufferState)
    requires |env.typeFlags| <= MemoryType.MAX_MEMORY_TYPES
    ensures !r.freed && r.usage == BUFFER_USAGE_VERTEX_BUFFER && r.size == s.size
    ensures r.id == s.nextId && r.nextId == s.nextId + 1 && r.contents == env.initialContents
    ensures r.events == s.events + [Create(BufferHandle(s.nextId)), Create(MemoryHandle(s.nextId))]
  {
    Allocate(s.(freed := false), BUFFER_USAGE_VERTEX_BUFFER, env)
  }

  /** VertexBuffer(data, size): RecreateBuffer, Bind, SetData. */
  function ConstructWithData(data: seq<byte>, size: nat, nextId: nat, env: MemoryEnvironment): (r: BufferState)
    requires |env.typeFlags| <= MemoryType.MAX_MEMORY_TYPES
    requires size <= |data| && size <= |env.initialContents|
    ensures !r.freed && r.size == size && r.id == nextId && r.nextId == nextId + 1 && r.usage == BUFFER_USAGE_VERTEX_BUFFER
    ensures r.events == [Create(BufferHandle(nextId)), Create(MemoryHandle(nextId)),
                         Act(BindMemory(nextId)), Act(WriteData(nextId, size))]
    ensures |r.contents| == |env.initialContents|
    ensures HostMemory.ReadBack(r.contents, size) == data[..size]
  {
    SetData(Bind(RecreateBuffer(Fresh(size, nextId), env)), data, size)
  }

  /** VertexBuffer(size): RecreateBuffer only; nothing bound, nothing written. */
  function ConstructWithSize(size: nat, nextId: nat, env: MemoryEnvironment): (r: BufferState)
    requires |env.typeFlags| <= MemoryType.MAX_MEMORY_TYPES
    ensures !r.freed && r.size == size && r.id == nextId && r.nextId == nextId + 1 && r.usage == BUFFER_USAGE_VERTEX_BUFFER
    ensures r.events == [Create(BufferHandle(nextId)), Create(MemoryHandle(nextId))]
    ensures r.contents == env.initialContents
  {
    RecreateBuffer(Fresh(size, nextId), env)
  }

  /** A buffer built with data and then destroyed releases both handles it
      created, once each, with or without an explicit FreeMemory first. */
  lemma ConstructThenDestroyBalanced(data: seq<byte>, size: nat, nextId: nat, env: MemoryEnvironment, freeFirst: bool)
    requires |env.typeFlags| <= MemoryType.MAX_MEMORY_TYPES
    requires size <= |data| && size <= |env.initialContents|
    ensures var s := ConstructWithData(data, size, nextId, env);
            Balanced(Destruct(if freeFirst then FreeMemory(s) else s).events)
  {
    var s := ConstructWithData(data, size, nextId, env);
    var e0: seq<BufferEvent> := [];
    var e1 := e0 + [Create(BufferHandle(nextId)), Create(MemoryHandle(nextId))];
    var e2 := e1 + [Act(BindMemory(nextId))];
    assert s.events == e2 + [Act(WriteData(nextId, size))];
    var d := Destruct(if freeFirst then FreeMemory(s) else s);
    assert d.events == s.events + [Destroy(BufferHandle(nextId)), Destroy(MemoryHandle(nextId))];
    forall o: BufferObject ensures Net(d.events, o) == 0 {
      NetOfPair(e0, nextId, true, o);
      NetOfAct(e1, BindMemory(nextId), o);
      NetOfAct(e2, WriteData(nextId, size), o);
      NetOfPair(s.events, nextId, false, o);
    }
  }

  /** RecreateBuffer on a live buffer overwrites the handles: destruction
      then releases only the new pair, and the old pair stays live.
      RecreateBuffer is private and only the constructors call it, so no
      caller outside the class reaches this state; the lemma shows what the
      method would do if one did. */
  lemma RecreateLeaksPreviousPair(size: nat, nextId: nat, env: MemoryEnvironment, env2: MemoryEnvironment)
    requires |env.typeFlags| <= MemoryType.MAX_MEMORY_TYPES && |env2.typeFlags| <= MemoryType.MAX_MEMORY_TYPES
    ensures var r := Destruct(RecreateBuffer(ConstructWithSize(size, nextId, env), env2));
            forall o :: Net(r.events, o) == (if o.id == nextId then 1 else 0)
  {
    var s := ConstructWithSize(size, nextId, env);
    var t := RecreateBuffer(s, env2);
    var d := Destruct(t);
    var e0: seq<BufferEvent> := [];
    assert s.events == e0 + [Create(BufferHandle(nextId)), Create(MemoryHandle(nextId))];
    assert t.events == s.events + [Create(BufferHandle(nextId + 1)), Create(MemoryHandle(nextId + 1))];
    assert d.events == t.events + [Destroy(BufferHandle(nextId + 1)), Destroy(MemoryHandle(nextId + 1))];
    forall o: BufferObject ensures Net(d.events, o) == (if o.id == nextId then 1 else 0) {
      NetOfPair(e0, nextId, true, o);
      NetOfPair(s.events, nextId + 1, true, o);
      NetOfPair(t.events, nextId + 1, false, o);
    }
  }

  /** Because RecreateBuffer clears the flag, a buffer freed and then
      recreated is released again by its destructor.
      RecreateBuffer is private and only the constructors call it, so no
      caller outside the class reaches this state; the lemma shows what the
      method would do if one did. */
  lemma RecreateAfterFreeIsReleased(size: nat, nextId: nat, env: MemoryEnvironment, env2: MemoryEnvironment)
    requires |env.typeFlags| <= MemoryType.MAX_MEMORY_TYPES && |env2.typeFlags| <= MemoryType.MAX_MEMORY_TYPES
    ensures Balanced(Destruct(RecreateBuffer(FreeMemory(ConstructWithSize(size, nextId, env)), env2)).events)
  {
    var s := ConstructWithSize(size, nextId, env);
    var f := FreeMemory(s);
    var t := RecreateBuffer(f, env2);
    var d := Destruct(t);
    var e0: seq<BufferEvent> := [];
    assert s.events == e0 + [Create(BufferHandle(nextId)), Create(MemoryHandle(nextId))];
    assert d.events == t.events + [Destroy(BufferHandle(nextId + 1)), Destroy(MemoryHandle(nextId + 1))];
    forall o: BufferObject ensures Net(d.events, o) == 0 {
      NetOfPair(e0, nextId, true, o);
      NetOfPair(s.events, nextId, false, o);
      NetOfPair(f.events, nextId + 1, true, o);
      NetOfPair(t.events, nextId + 1, false, o);
    }
  }
}
