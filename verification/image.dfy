/** Image: a sampled 2D image allocated through VKMemAllocator, its views,
    the layout-transition barrier it builds, and the freed flag that guards
    the destructor. */
module Image {
  import opened Common
  import opened Vk
  import opened Lifecycle
  import MemAllocator

  /** The fields of VkImageCreateInfo the constructor sets. */
  datatype ImageCreateInfo = ImageCreateInfo(
    width: nat, height: nat, depth: nat, mipLevels: nat, arrayLayers: nat,
    format: Format, initialLayout: ImageLayout, usage: Flags, sharingMode: SharingMode, samples: nat)

  datatype ImageObject = ImageHandle | ViewHandle(id: nat)

  /** Binding and freeing the allocation, with the allocation handle used
      (None when it was never assigned). */
  datatype ImageAction = BindImageMemory(allocation: Option<nat>) | FreeAllocation(allocation: Option<nat>)

  type ImageEvent = Event<ImageObject, ImageAction>

  /** The object's state: m_IsFreed, the create info, m_MemoryAllocation,
      m_ImageViews (None for a VK_NULL_HANDLE slot), the next view id, the
      allocator's counters, and the calls made so far. */
  datatype ImageState = ImageState(
    freed: bool, info: ImageCreateInfo, allocation: Option<nat>, views: seq<Option<nat>>,
    nextView: nat, allocs: MemAllocator.Allocations, events: seq<ImageEvent>)

  /** Image(width, height) as written: the allocation AllocateImage returns
      is dropped, so m_MemoryAllocation is never assigned and the bind uses
      the unassigned handle. */
  function Construct(width: int, height: int, allocs: MemAllocator.Allocations): (s: ImageState)
    ensures !s.freed && s.views == []
    ensures s.info == ImageCreateInfo(ToUint32(width), ToUint32(height), 1, 1, 1, R8G8B8A8Srgb, LayoutUndefined,
                                      IMAGE_USAGE_TRANSFER_DST | IMAGE_USAGE_SAMPLED, Exclusive, 1)
    ensures s.allocs == MemAllocator.AllocateImage(allocs, false)
    ensures s.allocation.None?
    ensures s.events == [Create(ImageHandle), Act(BindImageMemory(None))]
  {
    var info := ImageCreateInfo(ToUint32(width), ToUint32(height), 1, 1, 1, R8G8B8A8Srgb, LayoutUndefined,
                                IMAGE_USAGE_TRANSFER_DST | IMAGE_USAGE_SAMPLED, Exclusive, 1);
    ImageState(false, info, None, [], 0, MemAllocator.AllocateImage(allocs, false),
               [Create(ImageHandle), Act(BindImageMemory(None))])
  }

  /** The constructor with the returned allocation stored: the same image,
      bound to the allocation the allocator handed back. */
  function ConstructCorrected(width: int, height: int, allocs: MemAllocator.Allocations, allocation: nat): (s: ImageState)
    ensures !s.freed && s.views == []
    ensures s.info == Construct(width, height, allocs).info && s.allocs == Construct(width, height, allocs).allocs
    ensures s.allocation == Some(allocation)
    ensures s.events == [Create(ImageHandle), Act(BindImageMemory(s.allocation))]
  {
    Construct(width, height, allocs).(allocation := Some(allocation),
                                      events := [Create(ImageHandle), Act(BindImageMemory(Some(allocation)))])
  }

  /** As written, the bind and, later, the free both use a handle that was
      never assigned; corrected, both use the allocation the allocator
      returned. */
  lemma AllocationHandleNeverStored(width: int, height: int, allocs: MemAllocator.Allocations, allocation: nat)
    ensures Construct(width, height, allocs).events[1] == Act(BindImageMemory(None))
    ensures DestroyImage(Construct(width, height, allocs)).events[2] == Act(FreeAllocation(None))
    ensures ConstructCorrected(width, height, allocs, allocation).events[1] == Act(BindImageMemory(Some(allocation)))
    ensures DestroyImage(ConstructCorrected(width, height, allocs, allocation)).events[2] == Act(FreeAllocation(Some(allocation)))
  {
  }

  // ---------------------------------------------------------------------
  // Layout transitions

  /** The VkImageMemoryBarrier and the two stage masks TransitionLayout
      passes to vkCmdPipelineBarrier. */
  datatype Barrier = Barrier(
    oldLayout: ImageLayout, newLayout: ImageLayout, srcAccess: Flags, dstAccess: Flags,
    srcStage: Flags, dstStage: Flags, srcQueueFamily: nat, dstQueueFamily: nat,
    aspect: Flags, baseMipLevel: nat, levelCount: nat, baseArrayLayer: nat, layerCount: nat)

  /** Image::TransitionLayout's decision table. */
  function TransitionLayout(oldLayout: ImageLayout, newLayout: ImageLayout): (b: Barrier)
    ensures b.oldLayout == oldLayout && b.newLayout == newLayout
    ensures b.srcQueueFamily == QUEUE_FAMILY_IGNORED && b.dstQueueFamily == QUEUE_FAMILY_IGNORED
    ensures b.aspect == IMAGE_ASPECT_COLOR && b.baseMipLevel == 0 && b.levelCount == 1
            && b.baseArrayLayer == 0 && b.layerCount == 1
    ensures oldLayout == LayoutUndefined && newLayout == TransferDstOptimal ==>
              b.srcAccess == 0 && b.dstAccess == ACCESS_TRANSFER_WRITE
              && b.srcStage == PIPELINE_STAGE_TOP_OF_PIPE && b.dstStage == PIPELINE_STAGE_TRANSFER
    ensures oldLayout == TransferDstOptimal && newLayout == ShaderReadOnlyOptimal ==>
              b.srcAccess == ACCESS_TRANSFER_WRITE && b.dstAccess == ACCESS_SHADER_READ
              && b.srcStage == PIPELINE_STAGE_TRANSFER && b.dstStage == PIPELINE_STAGE_FRAGMENT_SHADER
    ensures b.dstStage != 0 <==> (oldLayout, newLayout) in {(LayoutUndefined, TransferDstOptimal), (TransferDstOptimal, ShaderReadOnlyOptimal)}
    ensures b.dstStage == 0 ==> b.srcAccess == 0 && b.dstAccess == 0 && b.srcStage == 0
  {
    var base := Barrier(oldLayout, newLayout, 0, 0, 0, 0, QUEUE_FAMILY_IGNORED, QUEUE_FAMILY_IGNORED,
                        IMAGE_ASPECT_COLOR, 0, 1, 0, 1);
    if oldLayout == LayoutUndefined && newLayout == TransferDstOptimal then
      base.(dstAccess := ACCESS_TRANSFER_WRITE, srcStage := PIPELINE_STAGE_TOP_OF_PIPE, dstStage := PIPELINE_STAGE_TRANSFER)
    else if oldLayout == TransferDstOptimal && newLayout == ShaderReadOnlyOptimal then
      base.(srcAccess := ACCESS_TRANSFER_WRITE, dstAccess := ACCESS_SHADER_READ,
            srcStage := PIPELINE_STAGE_TRANSFER, dstStage := PIPELINE_STAGE_FRAGMENT_SHADER)
    else base
  }

  /** The two transitions of an upload chain: the second waits on the stage
      and access the first makes available, and the layouts line up. */
  lemma UploadTransitionsChain()
    ensures var first := TransitionLayout(LayoutUndefined, TransferDstOptimal);
            var second := TransitionLayout(TransferDstOptimal, ShaderReadOnlyOptimal);
            first.newLayout == second.oldLayout
            && first.dstStage == second.srcStage && first.dstAccess == second.srcAccess
            && second.dstAccess == ACCESS_SHADER_READ
  {
  }

  // ---------------------------------------------------------------------
  // Buffer-to-image copy

  /** The VkBufferImageCopy region CopyBufferToImage records, with the
      destination layout the copy command names. */
  datatype CopyRegion = CopyRegion(
    bufferOffset: nat, bufferRowLength: nat, bufferImageHeight: nat,
    aspect: Flags, mipLevel: nat, baseArrayLayer: nat, layerCount: nat,
    offsetX: int, offsetY: int, offsetZ: int,
    width: nat, height: nat, depth: nat, dstLayout: ImageLayout)

  /** Image::CopyBufferToImage: the whole extent of mip level 0 from offset
      0 of a tightly packed buffer (row length and image height 0), into an
      image in TRANSFER_DST_OPTIMAL; the int extent converts to uint32. */
  function CopyBufferToImage(width: int, height: int): (r: CopyRegion)
    ensures r.bufferOffset == 0 && r.bufferRowLength == 0 && r.bufferImageHeight == 0
    ensures r.aspect == IMAGE_ASPECT_COLOR && r.mipLevel == 0 && r.baseArrayLayer == 0 && r.layerCount == 1
    ensures r.offsetX == 0 && r.offsetY == 0 && r.offsetZ == 0
    ensures r.width == ToUint32(width) && r.height == ToUint32(height) && r.depth == 1
    ensures r.dstLayout == TransferDstOptimal
  {
    CopyRegion(0, 0, 0, IMAGE_ASPECT_COLOR, 0, 0, 1, 0, 0, 0, ToUint32(width), ToUint32(height), 1, TransferDstOptimal)
  }

  /** One past the last buffer byte a region with a non-empty extent reads,
      by vkCmdCopyBufferToImage's addressing rule: a row length or image
      height of 0 means the extent's width or height, and texel (x, y, z)
      starts at offset + ((z * imageHeight + y) * rowLength + x) * texelSize. */
  function RegionEnd(r: CopyRegion, texelSize: nat): (end: nat)
    requires r.width > 0 && r.height > 0 && r.depth > 0
  {
    var rowLength := if r.bufferRowLength == 0 then r.width else r.bufferRowLength;
    var imageHeight := if r.bufferImageHeight == 0 then r.height else r.bufferImageHeight;
    r.bufferOffset + (((r.depth - 1) * imageHeight + (r.height - 1)) * rowLength + (r.width - 1) + 1) * texelSize
  }

  /** For dimensions that fit in uint32, the copy reads exactly width *
      height texels of the buffer, starting at byte 0. */
  lemma CopyReadsWholeExtent(width: int, height: int, texelSize: nat)
    requires 0 < width < UINT32_LIMIT && 0 < height < UINT32_LIMIT
    ensures RegionEnd(CopyBufferToImage(width, height), texelSize) == width * height * texelSize
  {
    var r := CopyBufferToImage(width, height);
    assert ((r.height - 1) * r.width + (r.width - 1) + 1) == height * width;
  }

  // ---------------------------------------------------------------------
  // Views

  /** The loop of CreateImageViews as written, after k iterations from a
      list resized to `amount` null slots: the index and the list length. */
  datatype ViewLoop = ViewLoop(i: nat, views: seq<Option<nat>>)

  function ViewLoopAfter(amount: nat, firstId: nat, k: nat): (l: ViewLoop)
    ensures l.i == k && |l.views| == amount + k
    ensures forall j :: 0 <= j < amount ==> l.views[j].None?
    ensures forall j :: amount <= j < amount + k ==> l.views[j] == Some(firstId + j - amount)
  {
    if k == 0 then ViewLoop(0, seq(amount, _ => None))
    else
      var prev := ViewLoopAfter(amount, firstId, k - 1);
      ViewLoop(prev.i + 1, prev.views + [Some(firstId + k - 1)])
  }

  /** The guard i < m_ImageViews.size() reads the list the body appends to,
      so for any amount >= 1 it holds after every number of iterations: the
      loop never exits. */
  lemma {:induction false} CreateImageViewsNeverExits(amount: nat, firstId: nat, k: nat)
    requires amount >= 1
    ensures ViewLoopAfter(amount, firstId, k).i < |ViewLoopAfter(amount, firstId, k).views|
  {
  }

  /** CreateImageViews with the n created views written into the n slots of
      the resized list; amount 0 is an ASSERT. */
  function CreateImageViewsCorrected(s: ImageState, amount: nat): (r: ImageState)
    requires amount >= 1
    ensures |r.views| == amount
    ensures forall j :: 0 <= j < amount ==> r.views[j] == Some(s.nextView + j)
    ensures r.nextView == s.nextView + amount
    ensures r.events == s.events + CreatesOf(ViewIds(s.nextView, amount))
    ensures r.freed == s.freed && r.allocs == s.allocs && r.allocation == s.allocation && r.info == s.info
  {
    s.(views := seq(amount, j requires 0 <= j < amount => Some(s.nextView + j)),
       nextView := s.nextView + amount,
       events := s.events + CreatesOf(ViewIds(s.nextView, amount)))
  }

  function ViewIds(first: nat, n: nat): (ids: seq<ImageObject>)
    ensures |ids| == n && forall j :: 0 <= j < n ==> ids[j] == ViewHandle(first + j)
  {
    seq(n, j requires 0 <= j < n => ViewHandle(first + j))
  }

  /** The stored views that are real handles, in order. */
  function LiveViews(views: seq<Option<nat>>): (ids: seq<ImageObject>)
    ensures |ids| <= |views|
  {
    if |views| == 0 then []
    else (if views[0].Some? then [ViewHandle(views[0].value)] else []) + LiveViews(views[1..])
  }

  // ---------------------------------------------------------------------
  // Destroy

  /** Image::Destroy: set the flag, destroy every stored view (a null slot
      destroys nothing), free the allocation and the image. */
  function DestroyImage(s: ImageState): (r: ImageState)
    ensures r.freed && r.views == s.views && r.allocation == s.allocation
    ensures r.allocs == MemAllocator.FreeImage(s.allocs)
    ensures r.events == s.events + DestroysOf(LiveViews(s.views)) + [Act(FreeAllocation(s.allocation)), Destroy(ImageHandle)]
  {
    s.(freed := true, allocs := MemAllocator.FreeImage(s.allocs),
       events := s.events + DestroysOf(LiveViews(s.views)) + [Act(FreeAllocation(s.allocation)), Destroy(ImageHandle)])
  }

  /** The destructor: Destroy unless the flag is set. */
  function Destruct(s: ImageState): (r: ImageState)
    ensures s.freed ==> r == s
    ensures !s.freed ==> r == DestroyImage(s)
  {
    if s.freed then s else DestroyImage(s)
  }

  lemma {:induction false} LiveViewsOfCreated(first: nat, n: nat)
    ensures LiveViews(seq(n, j requires 0 <= j < n => Some(first + j))) == ViewIds(first, n)
    decreases n
  {
    if n > 0 {
      var vs := seq(n, j requires 0 <= j < n => Some(first + j));
      assert vs[1..] == seq(n - 1, j requires 0 <= j < n - 1 => Some(first + 1 + j));
      LiveViewsOfCreated(first + 1, n - 1);
      assert ViewIds(first, n) == [ViewHandle(first)] + ViewIds(first + 1, n - 1);
    }
  }

  lemma {:induction false} CountViewIds(first: nat, n: nat, o: ImageObject)
    ensures Count(ViewIds(first, n), o) == (if o.ViewHandle? && first <= o.id < first + n then 1 else 0)
    decreases n
  {
    if n > 0 {
      CountViewIds(first, n - 1, o);
      assert ViewIds(first, n) == ViewIds(first, n - 1) + [ViewHandle(first + n - 1)];
      assert ViewIds(first, n)[..n - 1] == ViewIds(first, n - 1);
    }
  }

  /** Building an image with the corrected constructor and n views, then
      destroying it (explicitly or through the destructor), releases the
      image and every view exactly once and returns the allocator's image
      counter to where it was. */
  lemma ImageLifetimeBalanced(width: int, height: int, allocs: MemAllocator.Allocations, allocation: nat, n: nat)
    requires n >= 1
    ensures var r := Destruct(CreateImageViewsCorrected(ConstructCorrected(width, height, allocs, allocation), n));
            r.freed && Balanced(r.events) && r.allocs == allocs
  {
    var c := ConstructCorrected(width, height, allocs, allocation);
    var v := CreateImageViewsCorrected(c, n);
    var r := Destruct(v);
    assert r == DestroyImage(v);
    var ids := ViewIds(0, n);
    LiveViewsOfCreated(0, n);
    var e0: seq<ImageEvent> := [Create(ImageHandle), Act(BindImageMemory(Some(allocation)))];
    var tail: seq<ImageEvent> := [Act(FreeAllocation(Some(allocation))), Destroy(ImageHandle)];
    assert r.events == e0 + CreatesOf(ids) + DestroysOf(ids) + tail;
    forall o: ImageObject ensures Net(r.events, o) == 0 {
      NetCreates<ImageObject, ImageAction>(ids, o);
      NetDestroys<ImageObject, ImageAction>(ids, o);
      assert e0 == [Create(ImageHandle)] + [Act(BindImageMemory(Some(allocation)))];
      assert tail == [Act(FreeAllocation(Some(allocation)))] + [Destroy(ImageHandle)];
      NetSingle<ImageObject, ImageAction>(Create(ImageHandle), o);
      NetSingle<ImageObject, ImageAction>(Act(BindImageMemory(Some(allocation))), o);
      NetSingle<ImageObject, ImageAction>(Act(FreeAllocation(Some(allocation))), o);
      NetSingle<ImageObject, ImageAction>(Destroy(ImageHandle), o);
      NetAppend<ImageObject, ImageAction>([Create(ImageHandle)], [Act(BindImageMemory(Some(allocation)))], o);
      NetAppend<ImageObject, ImageAction>([Act(FreeAllocation(Some(allocation)))], [Destroy(ImageHandle)], o);
      NetAppend(e0, CreatesOf<ImageObject, ImageAction>(ids), o);
      NetAppend(e0 + CreatesOf(ids), DestroysOf<ImageObject, ImageAction>(ids), o);
      NetAppend(e0 + CreatesOf(ids) + DestroysOf(ids), tail, o);
    }
  }

  /** Explicit Destroy followed by destruction destroys nothing twice. */
  lemma DestroyThenDestructIsIdle(s: ImageState)
    ensures Destruct(DestroyImage(s)) == DestroyImage(s)
  {
  }
}
