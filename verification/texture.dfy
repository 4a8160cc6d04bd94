/** Texture2D: a texture decoded from an image file, uploaded through a
    staging buffer into an Image, and the sampler that reads it. The image
    decoder and the device are parameters: the decoded pixels (or their
    absence), the allocation the allocator hands out, and the device's
    anisotropy limit. */
module Texture {
  import opened Common
  import opened Vk
  import opened Lifecycle
  import MemAllocator
  import Image
  import RendererContext

  /** What stbi_load returns when asked for four channels: the width, the
      height and the decoded bytes. */
  datatype Decoded = Decoded(width: int, height: int, pixels: seq<byte>)

  /** stbi_load's promise for a non-null result: positive dimensions and
      four bytes for every pixel. */
  predicate Loaded(d: Decoded)
  {
    d.width > 0 && d.height > 0 && |d.pixels| == d.width * d.height * 4
  }

  // ---------------------------------------------------------------------
  // Sampler

  datatype Filter = Nearest | Linear

  datatype AddressMode = Repeat | MirroredRepeat | ClampToEdge | ClampToBorder

  datatype BorderColor =
    | FloatTransparentBlack | IntTransparentBlack | FloatOpaqueBlack
    | IntOpaqueBlack | FloatOpaqueWhite | IntOpaqueWhite

  datatype CompareOp = Never | Less | Equal | LessOrEqual | Greater | NotEqual | GreaterOrEqual | Always

  datatype MipmapMode = MipmapNearest | MipmapLinear

  /** The fields of VkSamplerCreateInfo that CreateSampler sets. */
  datatype SamplerInfo = SamplerInfo(
    magFilter: Filter, minFilter: Filter,
    addressModeU: AddressMode, addressModeV: AddressMode, addressModeW: AddressMode,
    anisotropyEnable: bool, maxAnisotropy: real, unnormalizedCoordinates: bool,
    borderColor: BorderColor, compareEnable: bool, compareOp: CompareOp,
    mipmapMode: MipmapMode, mipLodBias: real, minLod: real, maxLod: real)

  /** Texture2D::CreateSampler, given the device's maxSamplerAnisotropy. */
  function CreateSampler(maxSamplerAnisotropy: real): (info: SamplerInfo)
    ensures info.magFilter == Linear && info.minFilter == Linear
    ensures info.addressModeU == Repeat && info.addressModeV == Repeat && info.addressModeW == Repeat
    ensures info.anisotropyEnable && info.maxAnisotropy == maxSamplerAnisotropy
    ensures !info.unnormalizedCoordinates && !info.compareEnable
    ensures info.mipLodBias == 0.0 && info.minLod == 0.0 && info.maxLod == 0.0
  {
    SamplerInfo(Linear, Linear, Repeat, Repeat, Repeat, true, maxSamplerAnisotropy, false,
                IntOpaqueBlack, false, Always, MipmapLinear, 0.0, 0.0, 0.0)
  }

  /** The valid-usage rules of VkSamplerCreateInfo that these fields touch:
      anisotropy needs the samplerAnisotropy feature and a maximum between
      1 and the device limit; minLod <= maxLod; unnormalized coordinates
      rule out anisotropy and comparison and need equal filters, clamped
      addressing and a LOD of 0. */
  predicate ValidSampler(info: SamplerInfo, features: RendererContext.FeatureSet, limit: real)
  {
    (info.anisotropyEnable ==> features(RendererContext.SamplerAnisotropy) && 1.0 <= info.maxAnisotropy <= limit)
    && info.minLod <= info.maxLod
    && (info.unnormalizedCoordinates ==>
          !info.anisotropyEnable && !info.compareEnable && info.minFilter == info.magFilter
          && info.minLod == 0.0 && info.maxLod == 0.0
          && info.addressModeU in {ClampToEdge, ClampToBorder} && info.addressModeV in {ClampToEdge, ClampToBorder})
  }

  /** The sampler is valid on the logical device the renderer creates, whose
      anisotropy limit Vulkan guarantees to be at least 1. */
  lemma SamplerValidOnRendererDevice(limit: real)
    requires limit >= 1.0
    ensures ValidSampler(CreateSampler(limit), RendererContext.EnabledFeatures(), limit)
  {
  }

  /** An anisotropy limit below 1, which no conforming device reports, is
      exactly what would make the sampler invalid there. */
  lemma SamplerValidIffLimitAtLeastOne(limit: real)
    ensures ValidSampler(CreateSampler(limit), RendererContext.EnabledFeatures(), limit) <==> limit >= 1.0
  {
  }

  // ---------------------------------------------------------------------
  // Construction

  datatype TextureObject = StagingBuffer | SamplerHandle

  /** The calls between creating and destroying the staging buffer and the
      sampler: the memcpy into the mapped staging memory, the two layout
      transitions and the copy, freeing the decoded pixels, and creating the
      views. */
  datatype TextureAction =
    | CopyToStaging(bytes: seq<byte>)
    | Transition(barrier: Image.Barrier)
    | CopyToImage(region: Image.CopyRegion)
    | FreePixels
    | CreateViews(amount: nat)

  type TextureEvent = Event<TextureObject, TextureAction>

  /** The object's state: m_IsFreed, m_Image (None while it is a null
      shared pointer), m_Sampler's create info (None while unassigned), the
      allocator's counters, and the calls made so far. The image carries its
      own copy of the counters, kept equal to these. */
  datatype TextureState = TextureState(
    freed: bool, image: Option<Image.ImageState>, sampler: Option<SamplerInfo>,
    allocs: MemAllocator.Allocations, events: seq<TextureEvent>)

  /** `size` in the constructor: the int product width * height * 4 stored
      into a uint32_t. */
  function StagingSize(d: Decoded): (size: nat)
    requires Loaded(d)
    ensures size <= |d.pixels|
    ensures d.width * d.height * 4 < UINT32_LIMIT ==> size == |d.pixels|
  {
    ToUint32(d.width * d.height * 4)
  }

  /** The calls a successful construction makes before its view loop, in
      source order: the staging buffer and its memcpy, the two transitions
      around the copy, releasing the staging buffer and the pixels. */
  function UploadPrefix(d: Decoded): (trace: seq<TextureEvent>)
    requires Loaded(d)
  {
    [Create(StagingBuffer), Act(CopyToStaging(d.pixels[..StagingSize(d)]))]
    + [Act(Transition(Image.TransitionLayout(LayoutUndefined, TransferDstOptimal))),
       Act(CopyToImage(Image.CopyBufferToImage(d.width, d.height))),
       Act(Transition(Image.TransitionLayout(TransferDstOptimal, ShaderReadOnlyOptimal)))]
    + [Destroy(StagingBuffer), Act(FreePixels)]
  }

  /** The calls of a construction that gets past the view loop: the prefix,
      the one view, then the sampler. */
  function UploadEvents(d: Decoded): (trace: seq<TextureEvent>)
    requires Loaded(d)
  {
    UploadPrefix(d) + [Act(CreateViews(1)), Create(SamplerHandle)]
  }

  /** How the constructor ends: it returns the object, or it never returns
      because a call it makes does not terminate; `t` is then the state at
      the moment that call starts. */
  datatype Construction = Returned(t: TextureState) | Hangs(t: TextureState)

  /** Texture2D(filepath) as written. The flag is cleared before decoding,
      so a file that fails to decode returns an object whose destructor will
      run Destroy. A decoded file builds the image with Image's constructor
      as written (its allocation dropped), uploads, and then calls
      CreateImageViews with the default amount 1, whose loop never exits:
      the constructor hangs there and CreateSampler is never reached. */
  function Construct(loaded: Option<Decoded>, allocs: MemAllocator.Allocations): (c: Construction)
    requires loaded.Some? ==> Loaded(loaded.value)
    ensures !c.t.freed && c.t.sampler.None?
    ensures c.Returned? <==> loaded.None?
    ensures loaded.None? ==> c.t.image.None? && c.t.allocs == allocs && c.t.events == []
    ensures loaded.Some? ==>
              c.t.image.Some? && c.t.image.value.allocs == c.t.allocs
              && c.t.image.value.allocation.None? && c.t.image.value.views == []
              && c.t.events == UploadPrefix(loaded.value)
    ensures loaded.Some? ==>
              c.t.allocs.bufferAllocs == allocs.bufferAllocs && c.t.allocs.imageAllocs == allocs.imageAllocs + 1
  {
    match loaded
    case None => Returned(TextureState(false, None, None, allocs, []))
    case Some(d) =>
      var img := Image.Construct(d.width, d.height, MemAllocator.AllocateBuffer(allocs, false));
      var counters := MemAllocator.FreeBuffer(img.allocs);
      Hangs(TextureState(false, Some(img.(allocs := counters)), None, counters, UploadPrefix(d)))
  }

  /** Why a decoded file hangs: the view loop CreateImageViews(format)
      starts on the image as built, and its guard holds after every number
      of iterations. By then the staging buffer has been created and
      destroyed, and no sampler has been created. */
  lemma ConstructHangsInViewLoop(d: Decoded, allocs: MemAllocator.Allocations)
    requires Loaded(d)
    ensures var c := Construct(Some(d), allocs);
            c.Hangs?
            && forall k: nat :: Image.ViewLoopAfter(1, c.t.image.value.nextView, k).i
                                < |Image.ViewLoopAfter(1, c.t.image.value.nextView, k).views|
    ensures var c := Construct(Some(d), allocs);
            Net(c.t.events, StagingBuffer) == 0 && Create(SamplerHandle) !in c.t.events
  {
    var c := Construct(Some(d), allocs);
    forall k: nat
      ensures Image.ViewLoopAfter(1, c.t.image.value.nextView, k).i < |Image.ViewLoopAfter(1, c.t.image.value.nextView, k).views|
    {
      Image.CreateImageViewsNeverExits(1, c.t.image.value.nextView, k);
    }
    PrefixReleasesStaging(d);
  }

  lemma PrefixReleasesStaging(d: Decoded)
    requires Loaded(d)
    ensures Net(UploadPrefix(d), StagingBuffer) == 0 && Create(SamplerHandle) !in UploadPrefix(d)
  {
    var trace := UploadPrefix(d);
    assert trace[0] == Create(StagingBuffer) && trace[5] == Destroy(StagingBuffer);
    PrefixDistinct(d);
    CountDistinct(trace, Create(StagingBuffer));
    CountDistinct(trace, Destroy(StagingBuffer));
  }

  /** The image a construction that gets past the view loop builds: the
      constructor with its allocation stored, and the one requested view
      written into its slot (the corrections of Image's constructor and
      view loop), on the counters after the staging allocation. */
  function UploadedImage(d: Decoded, allocs: MemAllocator.Allocations, allocation: nat): (img: Image.ImageState)
  {
    Image.CreateImageViewsCorrected(
      Image.ConstructCorrected(d.width, d.height, MemAllocator.AllocateBuffer(allocs, false), allocation), 1)
  }

  /** The constructor with three corrections: the early return sets the
      flag, so that an object holding nothing releases nothing, and the
      image is built with Image's corrected constructor and view loop, so
      that construction goes on to the views and the sampler. */
  function ConstructCorrected(loaded: Option<Decoded>, allocs: MemAllocator.Allocations, allocation: nat,
                              maxSamplerAnisotropy: real): (t: TextureState)
    requires loaded.Some? ==> Loaded(loaded.value)
    ensures t.freed <==> loaded.None?
    ensures loaded.None? ==> t == Construct(loaded, allocs).t.(freed := true)
    ensures loaded.Some? ==>
              t.image.Some? && t.image.value.allocs == t.allocs
              && t.image.value.allocation == Some(allocation) && |t.image.value.views| == 1
              && t.sampler == Some(CreateSampler(maxSamplerAnisotropy))
              && t.events == Construct(loaded, allocs).t.events + [Act(CreateViews(1)), Create(SamplerHandle)]
    ensures loaded.Some? ==> t.allocs == Construct(loaded, allocs).t.allocs
  {
    match loaded
    case None => TextureState(true, None, None, allocs, [])
    case Some(d) =>
      var img := UploadedImage(d, allocs, allocation);
      var counters := MemAllocator.FreeBuffer(img.allocs);
      TextureState(false, Some(img.(allocs := counters)), Some(CreateSampler(maxSamplerAnisotropy)),
                   counters, UploadEvents(d))
  }

  // ---------------------------------------------------------------------
  // Layouts along the upload

  /** Replays the calls against the image's layout: a transition must start
      from the current layout and moves it, a copy must name the current
      layout; any other call leaves it alone. None when a call does not
      match the layout the image is in. */
  function Replay(trace: seq<TextureEvent>, layout: ImageLayout): (r: Option<ImageLayout>)
    decreases |trace|
  {
    if |trace| == 0 then Some(layout)
    else match trace[0]
      case Act(Transition(b)) => if b.oldLayout == layout then Replay(trace[1..], b.newLayout) else None
      case Act(CopyToImage(region)) => if region.dstLayout == layout then Replay(trace[1..], layout) else None
      case _ => Replay(trace[1..], layout)
  }

  lemma {:induction false} ReplayAppend(a: seq<TextureEvent>, b: seq<TextureEvent>, layout: ImageLayout)
    ensures Replay(a, layout).None? ==> Replay(a + b, layout).None?
    ensures Replay(a, layout).Some? ==> Replay(a + b, layout) == Replay(b, Replay(a, layout).value)
    decreases |a|
  {
    if |a| > 0 {
      assert (a + b)[0] == a[0];
      assert (a + b)[1..] == a[1..] + b;
      match a[0]
      case Act(Transition(bar)) => ReplayAppend(a[1..], b, bar.newLayout);
      case Act(CopyToImage(region)) => ReplayAppend(a[1..], b, layout);
      case _ => ReplayAppend(a[1..], b, layout);
    } else {
      assert a + b == b;
    }
  }

  /** The upload starts from the image's initial layout, every transition
      and the copy find the image in the layout they name, and the image
      ends in SHADER_READ_ONLY_OPTIMAL, both where the constructor as
      written stops and after the views and the sampler. */
  lemma UploadLeavesImageShaderReadable(d: Decoded, allocs: MemAllocator.Allocations)
    requires Loaded(d)
    ensures Construct(Some(d), allocs).t.image.value.info.initialLayout == LayoutUndefined
    ensures Replay(UploadPrefix(d), LayoutUndefined) == Some(ShaderReadOnlyOptimal)
    ensures Replay(UploadEvents(d), LayoutUndefined) == Some(ShaderReadOnlyOptimal)
  {
    var toTransfer := Image.TransitionLayout(LayoutUndefined, TransferDstOptimal);
    var toShader := Image.TransitionLayout(TransferDstOptimal, ShaderReadOnlyOptimal);
    var region := Image.CopyBufferToImage(d.width, d.height);
    var staged: seq<TextureEvent> := [Create(StagingBuffer), Act(CopyToStaging(d.pixels[..StagingSize(d)]))];
    var uploaded: seq<TextureEvent> := [Act(Transition(toTransfer)), Act(CopyToImage(region)), Act(Transition(toShader))];
    var released: seq<TextureEvent> := [Destroy(StagingBuffer), Act(FreePixels)];
    var finished: seq<TextureEvent> := [Act(CreateViews(1)), Create(SamplerHandle)];
    assert UploadPrefix(d) == staged + uploaded + released;
    ReplayStaged(staged);
    ReplayUploaded(toTransfer, region, toShader);
    ReplayUntouched(released);
    ReplayUntouched(finished);
    ReplayAppend(staged, uploaded, LayoutUndefined);
    ReplayAppend(staged + uploaded, released, LayoutUndefined);
    ReplayAppend(UploadPrefix(d), finished, LayoutUndefined);
  }

  lemma ReplayStaged(staged: seq<TextureEvent>)
    requires |staged| == 2 && staged[0] == Create(StagingBuffer) && staged[1].Act? && staged[1].action.CopyToStaging?
    ensures Replay(staged, LayoutUndefined) == Some(LayoutUndefined)
  {
    assert staged[1..][1..] == [];
    assert Replay(staged[1..], LayoutUndefined) == Some(LayoutUndefined);
  }

  lemma ReplayUploaded(toTransfer: Image.Barrier, region: Image.CopyRegion, toShader: Image.Barrier)
    requires toTransfer == Image.TransitionLayout(LayoutUndefined, TransferDstOptimal)
    requires toShader == Image.TransitionLayout(TransferDstOptimal, ShaderReadOnlyOptimal)
    requires region.dstLayout == TransferDstOptimal
    ensures Replay([Act(Transition(toTransfer)), Act(CopyToImage(region)), Act(Transition(toShader))], LayoutUndefined)
            == Some(ShaderReadOnlyOptimal)
  {
    var u: seq<TextureEvent> := [Act(Transition(toTransfer)), Act(CopyToImage(region)), Act(Transition(toShader))];
    assert u[1..][1..][1..] == [];
    assert Replay(u[1..][1..], TransferDstOptimal) == Some(ShaderReadOnlyOptimal);
  }

  /** Two calls that neither transition nor copy leave the layout alone. */
  lemma ReplayUntouched(calls: seq<TextureEvent>)
    requires calls == [Destroy(StagingBuffer), Act(FreePixels)] || calls == [Act(CreateViews(1)), Create(SamplerHandle)]
    ensures Replay(calls, ShaderReadOnlyOptimal) == Some(ShaderReadOnlyOptimal)
  {
    assert calls[1..][1..] == [];
    assert Replay(calls[1..], ShaderReadOnlyOptimal) == Some(ShaderReadOnlyOptimal);
  }

  /** For an image whose byte size fits in uint32, the staging buffer holds
      every decoded byte and the copy reads exactly the staging buffer. */
  lemma StagingCoversImage(d: Decoded)
    requires Loaded(d) && d.width * d.height * 4 < UINT32_LIMIT
    ensures d.pixels[..StagingSize(d)] == d.pixels
    ensures Image.RegionEnd(Image.CopyBufferToImage(d.width, d.height), FormatSize(R8G8B8A8Srgb)) == StagingSize(d)
  {
    assert d.width <= d.width * d.height;
    assert d.height <= d.width * d.height;
    Image.CopyReadsWholeExtent(d.width, d.height, 4);
  }

  // ---------------------------------------------------------------------
  // Destroy

  /** Texture2D::Destroy: set the flag, destroy the sampler, destroy the
      image. None when m_Image is a null shared pointer: the call
      dereferences it. */
  function DestroyTexture(t: TextureState): (r: Option<TextureState>)
    ensures r.None? <==> t.image.None?
    ensures r.Some? ==>
              r.value.freed && r.value.image == Some(Image.DestroyImage(t.image.value))
              && r.value.allocs == MemAllocator.FreeImage(t.image.value.allocs)
              && r.value.events == t.events + [Destroy(SamplerHandle)]
  {
    match t.image
    case None => None
    case Some(img) =>
      var destroyed := Image.DestroyImage(img);
      Some(t.(freed := true, image := Some(destroyed), allocs := destroyed.allocs,
              events := t.events + [Destroy(SamplerHandle)]))
  }

  /** ~Texture2D: Destroy unless the flag is set. The shared Image's own
      destructor then finds its flag set as well. */
  function Destruct(t: TextureState): (r: Option<TextureState>)
    ensures t.freed ==> r == Some(t)
    ensures !t.freed ==> r == DestroyTexture(t)
  {
    if t.freed then Some(t) else DestroyTexture(t)
  }

  /** As written, destroying a texture whose file failed to decode
      dereferences the null image pointer. */
  lemma FailedLoadDestructorDereferencesNull(allocs: MemAllocator.Allocations)
    ensures Construct(None, allocs).Returned?
    ensures Destruct(Construct(None, allocs).t).None?
  {
  }

  lemma PrefixDistinct(d: Decoded)
    requires Loaded(d)
    ensures Distinct(UploadPrefix(d))
  {
    var t := UploadPrefix(d);
    assert Image.TransitionLayout(LayoutUndefined, TransferDstOptimal).oldLayout
        != Image.TransitionLayout(TransferDstOptimal, ShaderReadOnlyOptimal).oldLayout;
    forall i, j | 0 <= i < j < |t| ensures t[i] != t[j] {
    }
  }

  lemma FullTraceDistinct(d: Decoded)
    requires Loaded(d)
    ensures Distinct(UploadEvents(d) + [Destroy(SamplerHandle)])
  {
    var t := UploadEvents(d) + [Destroy(SamplerHandle)];
    assert Image.TransitionLayout(LayoutUndefined, TransferDstOptimal).oldLayout
        != Image.TransitionLayout(TransferDstOptimal, ShaderReadOnlyOptimal).oldLayout;
    forall i, j | 0 <= i < j < |t| ensures t[i] != t[j] {
    }
  }

  /** The texture's own calls, from a construction that gets past the view
      loop (the corrected one) to Destroy, create and destroy the staging
      buffer and the sampler once each. As written, construction never
      gets that far: see ConstructHangsInViewLoop. */
  lemma TextureTraceBalanced(d: Decoded)
    requires Loaded(d)
    ensures Balanced(UploadEvents(d) + [Destroy(SamplerHandle)])
  {
    var trace := UploadEvents(d) + [Destroy(SamplerHandle)];
    FullTraceDistinct(d);
    assert trace[0] == Create(StagingBuffer) && trace[5] == Destroy(StagingBuffer);
    assert trace[8] == Create(SamplerHandle) && trace[9] == Destroy(SamplerHandle);
    forall o: TextureObject ensures Net(trace, o) == 0 {
      CountDistinct(trace, Create(o));
      CountDistinct(trace, Destroy(o));
    }
  }

  /** With the corrections (the flag on the early return, and Image's
      corrected constructor and view loop), destruction never faults: a
      texture that failed
      to load releases nothing, and a loaded one creates and destroys the
      staging buffer and the sampler once each, creates and destroys its
      image and view once each, and leaves the allocator's counters where
      they were; a second destruction does nothing. */
  lemma CorrectedTextureLifetime(loaded: Option<Decoded>, allocs: MemAllocator.Allocations, allocation: nat, limit: real)
    requires loaded.Some? ==> Loaded(loaded.value)
    ensures var r := Destruct(ConstructCorrected(loaded, allocs, allocation, limit));
            r.Some? && r.value.freed && r.value.allocs == allocs && Destruct(r.value) == r
    ensures var r := Destruct(ConstructCorrected(loaded, allocs, allocation, limit));
            r.Some? && Balanced(r.value.events)
            && (r.value.image.Some? ==> Balanced(r.value.image.value.events))
  {
    var c := ConstructCorrected(loaded, allocs, allocation, limit);
    if loaded.Some? {
      var d := loaded.value;
      var img := UploadedImage(d, allocs, allocation);
      Image.ImageLifetimeBalanced(d.width, d.height, MemAllocator.AllocateBuffer(allocs, false), allocation, 1);
      TextureTraceBalanced(d);
      assert c.image.value.events == img.events;
      assert !img.freed;
    } else {
      assert c.events == [];
      forall o: TextureObject ensures Net(c.events, o) == 0 {
      }
    }
  }
}
