/** VKMemAllocator: the wrapper around the Vulkan Memory Allocator that
    counts live buffer and image allocations and reports leaks at shutdown.
    The allocator calls themselves are opaque; only the counters, the
    null-output checks and the shutdown report are modelled. */
module MemAllocator {
  /** The two counters of VKMemAllocations. Nothing keeps them from going
      below zero, so they are plain integers. */
  datatype Allocations = Allocations(bufferAllocs: int, imageAllocs: int)

  /** VKMemAllocator::AllocateBuffer; a null output pointer is an ASSERT. */
  function AllocateBuffer(a: Allocations, outBufferIsNull: bool): (r: Allocations)
    requires !outBufferIsNull
    ensures r.bufferAllocs == a.bufferAllocs + 1 && r.imageAllocs == a.imageAllocs
  {
    a.(bufferAllocs := a.bufferAllocs + 1)
  }

  /** VKMemAllocator::AllocateImage; a null output pointer is an ASSERT. */
  function AllocateImage(a: Allocations, outImageIsNull: bool): (r: Allocations)
    requires !outImageIsNull
    ensures r.imageAllocs == a.imageAllocs + 1 && r.bufferAllocs == a.bufferAllocs
  {
    a.(imageAllocs := a.imageAllocs + 1)
  }

  /** VKMemAllocator::Free for a buffer: no check against zero. */
  function FreeBuffer(a: Allocations): (r: Allocations)
    ensures r.bufferAllocs == a.bufferAllocs - 1 && r.imageAllocs == a.imageAllocs
  {
    a.(bufferAllocs := a.bufferAllocs - 1)
  }

  /** VKMemAllocator::Free for an image: no check against zero. */
  function FreeImage(a: Allocations): (r: Allocations)
    ensures r.imageAllocs == a.imageAllocs - 1 && r.bufferAllocs == a.bufferAllocs
  {
    a.(imageAllocs := a.imageAllocs - 1)
  }

  /** Freeing with nothing allocated drives the counter negative. */
  lemma FreeWithoutAllocationGoesNegative()
    ensures FreeBuffer(Allocations(0, 0)).bufferAllocs == -1
    ensures FreeImage(Allocations(0, 0)).imageAllocs == -1
  {
  }

  /** A call on the allocator; allocations carry whether the caller passed a
      null output pointer. */
  datatype AllocatorCall = AllocBuffer(nullOut: bool) | AllocImage(nullOut: bool) | FreeBufferCall | FreeImageCall

  predicate NoNullOutput(calls: seq<AllocatorCall>)
  {
    forall k :: 0 <= k < |calls| ==> !(calls[k].AllocBuffer? && calls[k].nullOut) && !(calls[k].AllocImage? && calls[k].nullOut)
  }

  function Apply(a: Allocations, call: AllocatorCall): Allocations
    requires !(call.AllocBuffer? && call.nullOut) && !(call.AllocImage? && call.nullOut)
  {
    match call
    case AllocBuffer(n) => AllocateBuffer(a, n)
    case AllocImage(n) => AllocateImage(a, n)
    case FreeBufferCall => FreeBuffer(a)
    case FreeImageCall => FreeImage(a)
  }

  /** The counters after a sequence of calls. */
  function ApplyAll(a: Allocations, calls: seq<AllocatorCall>): Allocations
    requires NoNullOutput(calls)
    decreases |calls|
  {
    if |calls| == 0 then a
    else ApplyAll(Apply(a, calls[0]), calls[1..])
  }

  /** How many calls of each kind the sequence holds. */
  function CountBufferAllocs(calls: seq<AllocatorCall>): nat
  {
    if |calls| == 0 then 0 else (if calls[0].AllocBuffer? then 1 else 0) + CountBufferAllocs(calls[1..])
  }

  function CountImageAllocs(calls: seq<AllocatorCall>): nat
  {
    if |calls| == 0 then 0 else (if calls[0].AllocImage? then 1 else 0) + CountImageAllocs(calls[1..])
  }

  function CountBufferFrees(calls: seq<AllocatorCall>): nat
  {
    if |calls| == 0 then 0 else (if calls[0].FreeBufferCall? then 1 else 0) + CountBufferFrees(calls[1..])
  }

  function CountImageFrees(calls: seq<AllocatorCall>): nat
  {
    if |calls| == 0 then 0 else (if calls[0].FreeImageCall? then 1 else 0) + CountImageFrees(calls[1..])
  }

  /** Each counter moves by its allocations minus its frees, whatever the
      order of the calls. */
  lemma {:induction false} CountersTrackCalls(a: Allocations, calls: seq<AllocatorCall>)
    requires NoNullOutput(calls)
    ensures ApplyAll(a, calls).bufferAllocs == a.bufferAllocs + CountBufferAllocs(calls) - CountBufferFrees(calls)
    ensures ApplyAll(a, calls).imageAllocs == a.imageAllocs + CountImageAllocs(calls) - CountImageFrees(calls)
    decreases |calls|
  {
    if |calls| > 0 {
      assert NoNullOutput(calls[1..]) by {
        forall k | 0 <= k < |calls[1..]| ensures !(calls[1..][k].AllocBuffer? && calls[1..][k].nullOut) && !(calls[1..][k].AllocImage? && calls[1..][k].nullOut) {
          assert calls[1..][k] == calls[k + 1];
        }
      }
      CountersTrackCalls(Apply(a, calls[0]), calls[1..]);
    }
  }

  /** Any sequence that frees as many buffers and images as it allocates
      leaves both counters where they started. */
  lemma BalancedCallsRestoreCounters(a: Allocations, calls: seq<AllocatorCall>)
    requires NoNullOutput(calls)
    requires CountBufferAllocs(calls) == CountBufferFrees(calls)
    requires CountImageAllocs(calls) == CountImageFrees(calls)
    ensures ApplyAll(a, calls) == a
  {
    CountersTrackCalls(a, calls);
  }

  /** A line of the shutdown report. */
  datatype LeakReport = BufferLeak(count: int) | ImageLeak(count: int)

  /** VKMemAllocator::Shutdown: a line for each non-zero counter, buffers
      first; the allocator is destroyed either way. */
  function Shutdown(a: Allocations): (report: seq<LeakReport>)
    ensures BufferLeak(a.bufferAllocs) in report <==> a.bufferAllocs != 0
    ensures ImageLeak(a.imageAllocs) in report <==> a.imageAllocs != 0
    ensures |report| == (if a.bufferAllocs != 0 then 1 else 0) + (if a.imageAllocs != 0 then 1 else 0)
    ensures |report| == 2 ==> report[0].BufferLeak? && report[1].ImageLeak?
  {
    (if a.bufferAllocs != 0 then [BufferLeak(a.bufferAllocs)] else [])
    + (if a.imageAllocs != 0 then [ImageLeak(a.imageAllocs)] else [])
  }

  /** Starting from zero, balanced calls leave nothing to report. */
  lemma BalancedRunReportsNoLeak(calls: seq<AllocatorCall>)
    requires NoNullOutput(calls)
    requires CountBufferAllocs(calls) == CountBufferFrees(calls)
    requires CountImageAllocs(calls) == CountImageFrees(calls)
    ensures Shutdown(ApplyAll(Allocations(0, 0), calls)) == []
  {
    BalancedCallsRestoreCounters(Allocations(0, 0), calls);
  }
}
