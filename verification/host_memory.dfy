/** Host-visible device memory as a byte sequence, and the map / memcpy /
    unmap upload that every buffer in the renderer performs. */
module HostMemory {
  import opened Common

  /** vkMapMemory, memcpy of `size` bytes from `src`, vkUnmapMemory on a
      host-coherent allocation: the first `size` bytes become the source's
      and the rest of the allocation is untouched. */
  function CopyIn(memory: seq<byte>, src: seq<byte>, size: nat): (m: seq<byte>)
    requires size <= |memory| && size <= |src|
    ensures |m| == |memory|
    ensures forall i :: 0 <= i < size ==> m[i] == src[i]
    ensures forall i :: size <= i < |memory| ==> m[i] == memory[i]
  {
    src[..size] + memory[size..]
  }

  /** Mapping the allocation again and reading `n` bytes. */
  function ReadBack(memory: seq<byte>, n: nat): (bytes: seq<byte>)
    requires n <= |memory|
    ensures |bytes| == n
    ensures forall i :: 0 <= i < n ==> bytes[i] == memory[i]
  {
    memory[..n]
  }

  /** Reading back what was just copied returns the copied bytes. */
  lemma CopyThenReadBack(memory: seq<byte>, src: seq<byte>, size: nat)
    requires size <= |memory| && size <= |src|
    ensures ReadBack(CopyIn(memory, src, size), size) == src[..size]
  {
  }
}
