/** PhysicalRenderingDevice's device and queue-family selection and
    LogicalRenderingDevice's flush and shutdown, as pure functions over the
    values the Vulkan queries return. */
module RenderDevice {
  import opened Common
  import opened Vk
  import opened Lifecycle

  // ---------------------------------------------------------------------
  // Physical device

  datatype DeviceType = Other | IntegratedGpu | DiscreteGpu | VirtualGpu | Cpu

  /** The properties vkGetPhysicalDeviceProperties reports for one device. */
  datatype DeviceProperties = DeviceProperties(deviceType: DeviceType, deviceId: nat)

  /** The device loop of the PhysicalRenderingDevice constructor: the first
      discrete GPU, else the last device. The properties member is
      overwritten for every device the loop visits, so it ends holding the
      selected device's properties either way. */
  method SelectPhysicalDevice(devices: seq<DeviceProperties>) returns (selected: nat, props: DeviceProperties)
    requires |devices| > 0
    ensures selected < |devices| && props == devices[selected]
    ensures forall j :: 0 <= j < selected ==> devices[j].deviceType != DiscreteGpu
    ensures devices[selected].deviceType == DiscreteGpu || selected == |devices| - 1
    ensures (exists j :: 0 <= j < |devices| && devices[j].deviceType == DiscreteGpu) <==>
              devices[selected].deviceType == DiscreteGpu
  {
    props := devices[0];
    var i := 0;
    while i < |devices|
      invariant 0 <= i <= |devices|
      invariant forall j :: 0 <= j < i ==> devices[j].deviceType != DiscreteGpu
      invariant i > 0 ==> props == devices[i - 1]
    {
      props := devices[i];
      if props.deviceType == DiscreteGpu {
        return i, props;
      }
      i := i + 1;
    }
    selected := |devices| - 1;
  }

  // ---------------------------------------------------------------------
  // Queue families

  predicate HasBit(queueFlags: Flags, bit: Flags)
  {
    queueFlags & bit != 0
  }

  /** The largest index below n whose family has the bit. */
  function LastWith(fs: seq<Flags>, bit: Flags, n: nat): (r: Option<nat>)
    requires n <= |fs|
    ensures r.Some? ==> r.value < n && HasBit(fs[r.value], bit)
                        && forall j :: r.value < j < n ==> !HasBit(fs[j], bit)
    ensures r.None? ==> forall j :: 0 <= j < n ==> !HasBit(fs[j], bit)
  {
    if n == 0 then None
    else if HasBit(fs[n - 1], bit) then Some(n - 1)
    else LastWith(fs, bit, n - 1)
  }

  /** Index k stops the scan: its family can transfer and a graphics family
      occurs at or before k. */
  predicate TransferStop(fs: seq<Flags>, k: nat)
    requires k < |fs|
  {
    HasBit(fs[k], QUEUE_TRANSFER) && exists j :: 0 <= j <= k && HasBit(fs[j], QUEUE_GRAPHICS)
  }

  /** The queue-family loop of the PhysicalRenderingDevice constructor with
      `found` as the state: 0 before any graphics family, 1 after one, 2 (and
      the loop stops) when a transfer family is met in state 1. The queue
      indices are left unassigned (None) when never set. */
  method ScanQueueFamilies(fs: seq<Flags>) returns (graphics: Option<nat>, transfer: Option<nat>)
    ensures transfer.Some? ==> transfer.value < |fs| && TransferStop(fs, transfer.value)
    ensures transfer.Some? ==> forall k :: 0 <= k < transfer.value ==> !TransferStop(fs, k)
    ensures transfer.None? ==> forall k :: 0 <= k < |fs| ==> !TransferStop(fs, k)
    ensures graphics == LastWith(fs, QUEUE_GRAPHICS, if transfer.Some? then transfer.value + 1 else |fs|)
  {
    graphics, transfer := None, None;
    var found := 0;
    var i := 0;
    while i < |fs|
      invariant 0 <= i <= |fs|
      invariant graphics == LastWith(fs, QUEUE_GRAPHICS, i)
      invariant found == (if graphics.Some? then 1 else 0)
      invariant transfer.None?
      invariant forall k :: 0 <= k < i ==> !TransferStop(fs, k)
    {
      if HasBit(fs[i], QUEUE_GRAPHICS) {
        graphics := Some(i);
        found := 1;
      }
      if HasBit(fs[i], QUEUE_TRANSFER) && found == 1 {
        transfer := Some(i);
        found := 2;
      }
      if found == 2 {
        return;
      }
      if HasBit(fs[i], QUEUE_TRANSFER) {
        assert graphics.None?;
        forall j | 0 <= j <= i ensures !HasBit(fs[j], QUEUE_GRAPHICS) {
          if j < i {
            assert LastWith(fs, QUEUE_GRAPHICS, i).None?;
          }
        }
      }
      i := i + 1;
    }
  }

  /** When the device has a family that does both graphics and transfer, the
      scan stops at or before it and both indices are assigned. */
  lemma ScanStopsByCombinedFamily(fs: seq<Flags>, c: nat, graphics: Option<nat>, transfer: Option<nat>)
    requires c < |fs| && HasBit(fs[c], QUEUE_GRAPHICS) && HasBit(fs[c], QUEUE_TRANSFER)
    requires transfer.Some? ==> transfer.value < |fs| && TransferStop(fs, transfer.value)
    requires transfer.None? ==> forall k :: 0 <= k < |fs| ==> !TransferStop(fs, k)
    requires transfer.Some? ==> forall k :: 0 <= k < transfer.value ==> !TransferStop(fs, k)
    requires graphics == LastWith(fs, QUEUE_GRAPHICS, if transfer.Some? then transfer.value + 1 else |fs|)
    ensures transfer.Some? && transfer.value <= c && graphics.Some?
  {
    assert TransferStop(fs, c);
    if transfer.Some? {
      var t := transfer.value;
      var g :| 0 <= g <= t && HasBit(fs[g], QUEUE_GRAPHICS);
      assert LastWith(fs, QUEUE_GRAPHICS, t + 1).Some?;
    }
  }

  /** VkDeviceQueueCreateInfo: family, queue count and priority. */
  datatype QueueCreateInfo = QueueCreateInfo(queueFamilyIndex: int, queueCount: nat, priority: real)

  /** The two create-infos the constructor fills in after the scan; they
      are local to their blocks and reach no device creation, so the
      constructor's observable result holds none of them. */
  function QueueCreateInfos(graphics: int, transfer: int): (infos: seq<QueueCreateInfo>)
    ensures |infos| == 2
    ensures infos[0].queueFamilyIndex == graphics && infos[1].queueFamilyIndex == transfer
    ensures forall k :: 0 <= k < 2 ==> infos[k].queueCount == 1 && infos[k].priority == 1.0
  {
    [QueueCreateInfo(graphics, 1, 1.0), QueueCreateInfo(transfer, 1, 1.0)]
  }

  // ---------------------------------------------------------------------
  // Logical device

  datatype DeviceObject = ImageReadySemaphore | RenderFinishedSemaphore | FlushFence | CommandPool | LogicalDevice

  datatype DeviceAction = Submit | WaitForFence | WaitIdle

  type DeviceEvent = Event<DeviceObject, DeviceAction>

  const FLUSH_SYNC: seq<DeviceObject> := [ImageReadySemaphore, RenderFinishedSemaphore, FlushFence]

  /** LogicalRenderingDevice::FlushOntoScreen */
  function FlushEvents(): seq<DeviceEvent>
  {
    CreatesOf(FLUSH_SYNC) + [Act(Submit), Act(WaitForFence)] + DestroysOf(FLUSH_SYNC)
  }

  /** A flush leaves no semaphore or fence behind, and it submits only once
      all three exist and destroys them only after the wait. */
  lemma FlushIsBalanced()
    ensures Balanced(FlushEvents())
    ensures FlushEvents()[3] == Act(Submit) && FlushEvents()[4] == Act(WaitForFence)
    ensures forall k :: 0 <= k < 3 ==> FlushEvents()[k].Create?
    ensures forall k :: 5 <= k < |FlushEvents()| ==> FlushEvents()[k].Destroy?
  {
    forall o: DeviceObject ensures Net(FlushEvents(), o) == 0 {
      var a := CreatesOf<DeviceObject, DeviceAction>(FLUSH_SYNC);
      var b: seq<DeviceEvent> := [Act(Submit), Act(WaitForFence)];
      var c := DestroysOf<DeviceObject, DeviceAction>(FLUSH_SYNC);
      assert FlushEvents() == a + b + c;
      NetCreates<DeviceObject, DeviceAction>(FLUSH_SYNC, o);
      NetDestroys<DeviceObject, DeviceAction>(FLUSH_SYNC, o);
      assert b == [Act(Submit)] + [Act(WaitForFence)];
      NetSingle<DeviceObject, DeviceAction>(Act(Submit), o);
      NetSingle<DeviceObject, DeviceAction>(Act(WaitForFence), o);
      NetAppend<DeviceObject, DeviceAction>([Act(Submit)], [Act(WaitForFence)], o);
      NetAppend(a, b, o);
      NetAppend(a + b, c, o);
    }
  }

  /** The flush's synchronisation calls, with the parameters that matter for
      validity: whether the fence is created signaled and whether the
      submission waits on the image-ready semaphore. */
  datatype FlushCall = CreateSync(fenceSignaled: bool) | SubmitBatch(waitsOnImageReady: bool) | WaitFence | DestroySync

  /** Whether the sync objects exist, the fence, whether the image-ready
      semaphore has a signal pending, and whether a submitted batch may
      still be executing. */
  datatype FlushState = FlushState(created: bool, fence: FenceState, imageReadySignaled: bool, inFlight: bool)

  const FLUSH_START: FlushState := FlushState(false, Unsignaled, false, false)

  /** One call; None when it breaks a valid-usage rule of the Vulkan
      specification: vkQueueSubmit needs an unsignaled fence and a pending
      signal on every binary semaphore it waits on, vkWaitForFences on an
      unsignaled fence with nothing pending never returns, and objects in
      use by a batch may not be destroyed before it completes. */
  function FlushStep(s: FlushState, call: FlushCall): Option<FlushState>
  {
    match call
    case CreateSync(sig) =>
      if s.created then None
      else Some(FlushState(true, if sig then Signaled else Unsignaled, false, false))
    case SubmitBatch(waits) =>
      if !s.created || s.fence != Unsignaled || (waits && !s.imageReadySignaled) then None
      else Some(s.(fence := SignalPending, imageReadySignaled := false, inFlight := true))
    case WaitFence =>
      if !s.created || s.fence == Unsignaled then None
      else if s.fence == SignalPending then Some(s.(fence := Signaled, inFlight := false))
      else Some(s)
    case DestroySync =>
      if !s.created || s.inFlight then None else Some(s.(created := false))
  }

  function FlushRun(s: FlushState, calls: seq<FlushCall>): Option<FlushState>
    decreases |calls|
  {
    if |calls| == 0 then Some(s)
    else match FlushStep(s, calls[0])
      case None => None
      case Some(t) => FlushRun(t, calls[1..])
  }

  /** FlushOntoScreen as written: the fence is created signaled and the
      submission waits on a semaphore nothing signals. */
  const FLUSH_AS_WRITTEN: seq<FlushCall> := [CreateSync(true), SubmitBatch(true), WaitFence, DestroySync]

  /** The submission is invalid on both counts, and the fence wait would
      return at once, before the batch had finished. */
  lemma FlushAsWrittenIsInvalid()
    ensures FlushRun(FLUSH_START, FLUSH_AS_WRITTEN) == None
    ensures FlushStep(FlushState(true, Signaled, true, false), SubmitBatch(true)).None?
    ensures FlushStep(FlushState(true, Unsignaled, false, false), SubmitBatch(true)).None?
    ensures FlushStep(FlushState(true, Signaled, false, true), WaitFence) == Some(FlushState(true, Signaled, false, true))
  {
  }

  /** The flush with an unsignaled fence and no wait on the unsignaled
      semaphore. */
  const FLUSH_CORRECTED: seq<FlushCall> := [CreateSync(false), SubmitBatch(false), WaitFence, DestroySync]

  /** It runs to the end, and the objects are destroyed only after the batch
      has completed. */
  lemma FlushCorrectedCompletes()
    ensures FlushRun(FLUSH_START, FLUSH_CORRECTED) == Some(FlushState(false, Signaled, false, false))
  {
  }

  /** The LogicalRenderingDevice constructor records nothing. */
  function LogicalConstructorEvents(): seq<DeviceEvent>
  {
    []
  }

  /** LogicalRenderingDevice::Shutdown */
  function ShutdownEvents(): seq<DeviceEvent>
  {
    [Destroy(CommandPool), Act(WaitIdle), Destroy(LogicalDevice)]
  }

  /** Shutdown releases the pool before the device, but it waits for the
      device to go idle only after the pool is gone; and since the
      constructor creates nothing, the pair destroys two objects it never
      created. */
  lemma ShutdownOrder()
    ensures ShutdownEvents()[0] == Destroy(CommandPool) && ShutdownEvents()[2] == Destroy(LogicalDevice)
    ensures ShutdownEvents()[1] == Act(WaitIdle)
    ensures forall o :: Net(LogicalConstructorEvents() + ShutdownEvents(), o)
                        == (if o in {CommandPool, LogicalDevice} then -1 else 0)
  {
    forall o ensures Net(LogicalConstructorEvents() + ShutdownEvents(), o)
                     == (if o in {CommandPool, LogicalDevice} then -1 else 0)
    {
      assert LogicalConstructorEvents() + ShutdownEvents() == [Destroy(CommandPool)] + [Act(WaitIdle)] + [Destroy(LogicalDevice)];
      NetSingle<DeviceObject, DeviceAction>(Destroy(CommandPool), o);
      NetSingle<DeviceObject, DeviceAction>(Act(WaitIdle), o);
      NetSingle<DeviceObject, DeviceAction>(Destroy(LogicalDevice), o);
      NetAppend<DeviceObject, DeviceAction>([Destroy(CommandPool)], [Act(WaitIdle)], o);
      NetAppend<DeviceObject, DeviceAction>([Destroy(CommandPool)] + [Act(WaitIdle)], [Destroy(LogicalDevice)], o);
    }
  }
}
