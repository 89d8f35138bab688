/** Lifecycle actions, resize, boot-volume expansion and reinstall against a cloud that
    may answer anything at any time. Times are in nanoseconds. */
module InstanceActions {
  import opened Text

  const SECOND: int := 1000000000
  const MINUTE: int := 60 * SECOND

  datatype Volume = Volume(sizeInGBs: Option<int>, vpusPerGB: Option<int>, available: bool, hydrated: Option<bool>)

  datatype Attachment = Attachment(leaving: bool, bootVolumeId: Option<string>)

  datatype UpdateDetails = UpdateDetails(sizeInGBs: Option<int>, vpusPerGB: Option<int>)

  /** An update request and the volume as it had last been seen. */
  datatype SentUpdate = SentUpdate(seen: Option<Volume>, details: UpdateDetails)

  /** The states that actions wait for, and any other. */
  datatype InstanceState = Running | Stopped | Terminated | OtherState(name: string)

  const UNKNOWN := OtherState("")

  datatype ShapeConfig = ShapeConfig(ocpus: Option<real>, memoryInGBs: Option<real>)

  datatype Instance = Instance(
    shape: string, config: Option<ShapeConfig>, state: InstanceState, availabilityDomain: string, compartmentId: string)

  /** The power actions by what they do; the soft ones ask the operating system first. */
  datatype PowerAction = PowerOn | PowerOff | SoftStop | Reset | SoftReset

  /** A request that changes the instance as a whole. */
  datatype InstanceChange =
    | Power(action: PowerAction)
    | Termination(preserveBootVolume: bool)
    | Reshape(shape: string, sizes: Option<(int, int)>)
    | Reimage(imageId: string, preserveBootVolume: bool, bootVolumeGB: Option<int>)

  function OrZero(value: Option<int>): int {
    if value.Some? then value.value else 0
  }

  predicate Ready(volume: Volume) {
    volume.available && (volume.hydrated.None? || volume.hydrated.value)
  }

  predicate AtTarget(volume: Volume, targetGB: int, targetVPUs: int) {
    && volume.available && volume.hydrated != Some(false)
    && OrZero(volume.sizeInGBs) >= targetGB
    && (targetVPUs <= 0 || OrZero(volume.vpusPerGB) == targetVPUs)
  }

  /** The answers are arbitrary; the clock only moves forward, and by at least the
      duration of an undisturbed sleep. Ghost fields record the run. */
  class Cloud {
    var clock: int
    ghost var polls: nat           // requests about the boot volume
    ghost var instancePolls: nat   // requests about the instance's state
    ghost var lastSeen: Option<Volume>
    ghost var lastListed: seq<Attachment>
    ghost var updates: seq<SentUpdate>
    ghost var changes: seq<InstanceChange>
    ghost var readings: seq<Instance>  // the instance as it was answered, time after time
    ghost var troubles: nat            // error answers and sleeps cut short

    constructor (clock: int)
      ensures this.clock == clock && polls == instancePolls == 0 && lastSeen == None && lastListed == [] && updates == []
      ensures changes == [] && readings == [] && troubles == 0
    {
      this.clock, polls, instancePolls, lastSeen, lastListed, updates := clock, 0, 0, None, [], [];
      changes, readings, troubles := [], [], 0;
    }

    method Elapse()
      modifies this`clock
      ensures clock >= old(clock)
    {
      var now: int := *;
      if now > clock {
        clock := now;
      }
    }

    method GetBootVolume() returns (answer: Option<Volume>)
      modifies this`clock, this`polls, this`lastSeen, this`troubles
      ensures troubles == old(troubles) + if answer.None? then 1 else 0
      ensures clock >= old(clock) && polls == old(polls) + 1
      ensures lastSeen == if answer.Some? then answer else old(lastSeen)
    {
      answer := *;
      if answer.Some? {
        lastSeen := answer;
      }
      troubles := troubles + if answer.None? then 1 else 0;
      polls := polls + 1;
      Elapse();
    }

    method ListAttachments() returns (answer: Option<seq<Attachment>>)
      modifies this`clock, this`polls, this`lastListed, this`troubles
      ensures troubles == old(troubles) + if answer.None? then 1 else 0
      ensures clock >= old(clock) && polls == old(polls) + 1
      ensures lastListed == if answer.Some? then answer.value else old(lastListed)
    {
      answer := *;
      if answer.Some? {
        lastListed := answer.value;
      }
      troubles := troubles + if answer.None? then 1 else 0;
      polls := polls + 1;
      Elapse();
    }

    /** Cut short when the caller's context ends. */
    method Sleep(duration: int) returns (cancelled: bool)
      modifies this`clock, this`troubles
      ensures troubles == old(troubles) + if cancelled then 1 else 0
      ensures clock >= old(clock) && (!cancelled ==> clock >= old(clock) + duration)
    {
      cancelled := *;
      troubles := troubles + if cancelled then 1 else 0;
      if !cancelled && duration > 0 {
        clock := clock + duration;
      }
      Elapse();
    }

    method UpdateBootVolume(details: UpdateDetails) returns (ok: bool)
      modifies this`clock, this`updates, this`troubles
      ensures troubles == old(troubles) + if ok then 0 else 1
      ensures clock >= old(clock) && updates == old(updates) + [SentUpdate(lastSeen, details)]
    {
      updates := updates + [SentUpdate(lastSeen, details)];
      ok := *;
      troubles := troubles + if ok then 0 else 1;
      Elapse();
    }

    method GetInstance() returns (answer: Option<Instance>)
      modifies this`clock, this`instancePolls, this`readings, this`troubles
      ensures clock >= old(clock) && instancePolls == old(instancePolls) + 1
      ensures readings == old(readings) + if answer.Some? then [answer.value] else []
      ensures troubles == old(troubles) + if answer.None? then 1 else 0
    {
      answer := *;
      readings := readings + if answer.Some? then [answer.value] else [];
      troubles := troubles + if answer.None? then 1 else 0;
      instancePolls := instancePolls + 1;
      Elapse();
    }

    method ChangeInstance(change: InstanceChange) returns (ok: bool)
      modifies this`clock, this`changes, this`troubles
      ensures clock >= old(clock) && changes == old(changes) + [change]
      ensures troubles == old(troubles) + if ok then 0 else 1
    {
      ok := *;
      changes := changes + [change];
      troubles := troubles + if ok then 0 else 1;
      Elapse();
    }
  }

  // Polling -----------------------------------------------------------------------------

  ghost predicate Extends(before: seq<Instance>, after: seq<Instance>) {
    |after| >= |before| && after[..|before|] == before
  }

  /** What is read first stays first. */
  lemma FirstReading(before: seq<Instance>, first: Instance, after: seq<Instance>)
    requires Extends(before + [first], after)
    ensures |after| > |before| && after[|before|] == first
  {
    assert after[..|before + [first]|][|before|] == first;
  }

  /** A request was answered with an error, a sleep was cut short, or a time limit has passed. */
  ghost predicate Troubled(cloud: Cloud, troubles: nat, clock: int, timeout: int)
    reads cloud
  {
    cloud.troubles > troubles || cloud.clock > clock + timeout
  }

  /** Polls until the volume is ready; errors are retried until the deadline. */
  method WaitBootVolumeReady(cloud: Cloud, timeout: int) returns (volume: Option<Volume>)
    requires timeout >= 0
    modifies cloud`clock, cloud`polls, cloud`lastSeen, cloud`troubles
    ensures volume.None? ==> Troubled(cloud, old(cloud.troubles), old(cloud.clock), timeout)
    ensures cloud.clock >= old(cloud.clock) && cloud.troubles >= old(cloud.troubles)
    ensures volume.Some? ==>
      && Ready(volume.value) && cloud.lastSeen == volume
      && volume.value.available && volume.value.hydrated != Some(false)
    ensures cloud.polls - old(cloud.polls) <= timeout / (15 * SECOND) + 2
  {
    ghost var start := cloud.clock;
    var deadline := cloud.clock + timeout;
    while true
      invariant cloud.clock >= start + 15 * SECOND * (cloud.polls - old(cloud.polls))
      invariant cloud.polls - old(cloud.polls) <= timeout / (15 * SECOND) + 1
      invariant cloud.polls >= old(cloud.polls)
      invariant cloud.clock >= start && cloud.troubles >= old(cloud.troubles)
      decreases deadline - cloud.clock
    {
      var answer := cloud.GetBootVolume();
      if answer.Some? && Ready(answer.value) {
        return answer;
      }
      if cloud.clock > deadline {
        return None;
      }
      var cancelled := cloud.Sleep(15 * SECOND);
      if cancelled {
        return None;
      }
    }
  }

  /** An attachment that is not being undone and names its volume. */
  predicate IsAttached(item: Attachment) {
    !item.leaving && item.bootVolumeId.Some? && item.bootVolumeId.value != ""
  }

  /** The volume of the first such attachment. */
  predicate IsFirstAttached(items: seq<Attachment>, id: string) {
    exists i :: 0 <= i < |items| && IsAttached(items[i]) && items[i].bootVolumeId.value == id
      && forall j :: 0 <= j < i ==> !IsAttached(items[j])
  }

  method FirstAttachedBootVolume(items: seq<Attachment>) returns (id: string)
    ensures id != "" ==> IsFirstAttached(items, id)
    ensures id == "" ==> forall i :: 0 <= i < |items| ==> !IsAttached(items[i])
  {
    for i := 0 to |items|
      invariant forall j :: 0 <= j < i ==> !IsAttached(items[j])
    {
      if !items[i].leaving && items[i].bootVolumeId.Some? && items[i].bootVolumeId.value != "" {
        return items[i].bootVolumeId.value;
      }
    }
    return "";
  }

  /** Polls until a boot volume is attached; an error ends the wait. */
  method WaitBootVolumeAttachment(cloud: Cloud, timeout: int) returns (id: string)
    requires timeout >= 0
    modifies cloud`clock, cloud`polls, cloud`lastListed, cloud`troubles
    ensures id == "" ==> Troubled(cloud, old(cloud.troubles), old(cloud.clock), timeout)
    ensures cloud.clock >= old(cloud.clock) && cloud.troubles >= old(cloud.troubles)
    ensures id != "" ==> IsFirstAttached(cloud.lastListed, id)
    ensures cloud.polls - old(cloud.polls) <= timeout / (10 * SECOND) + 2
  {
    ghost var start := cloud.clock;
    var deadline := cloud.clock + timeout;
    while true
      invariant cloud.clock >= start + 10 * SECOND * (cloud.polls - old(cloud.polls))
      invariant cloud.polls - old(cloud.polls) <= timeout / (10 * SECOND) + 1
      invariant cloud.polls >= old(cloud.polls)
      invariant cloud.clock >= start && cloud.troubles >= old(cloud.troubles)
      decreases deadline - cloud.clock
    {
      var answer := cloud.ListAttachments();
      if answer.None? {
        return "";
      }
      id := FirstAttachedBootVolume(answer.value);
      if id != "" {
        return;
      }
      if cloud.clock > deadline {
        return "";
      }
      var cancelled := cloud.Sleep(10 * SECOND);
      if cancelled {
        return "";
      }
    }
  }

  /** Polls until the volume has the size and performance asked for. */
  method WaitBootVolumeTarget(cloud: Cloud, targetGB: int, targetVPUs: int, timeout: int) returns (ok: bool)
    requires timeout >= 0
    modifies cloud`clock, cloud`polls, cloud`lastSeen, cloud`troubles
    ensures !ok ==> Troubled(cloud, old(cloud.troubles), old(cloud.clock), timeout)
    ensures cloud.clock >= old(cloud.clock) && cloud.troubles >= old(cloud.troubles)
    ensures ok ==> cloud.lastSeen.Some? && AtTarget(cloud.lastSeen.value, targetGB, targetVPUs)
    ensures cloud.polls - old(cloud.polls) <= timeout / (10 * SECOND) + 2
  {
    ghost var start := cloud.clock;
    var deadline := cloud.clock + timeout;
    while true
      invariant cloud.clock >= start + 10 * SECOND * (cloud.polls - old(cloud.polls))
      invariant cloud.polls - old(cloud.polls) <= timeout / (10 * SECOND) + 1
      invariant cloud.polls >= old(cloud.polls)
      invariant cloud.clock >= start && cloud.troubles >= old(cloud.troubles)
      decreases deadline - cloud.clock
    {
      var answer := cloud.GetBootVolume();
      if answer.None? {
        return false;
      }
      var currentGB := OrZero(answer.value.sizeInGBs);
      var currentVPUs := OrZero(answer.value.vpusPerGB);
      var vpusReady := targetVPUs <= 0 || currentVPUs == targetVPUs;
      if currentGB >= targetGB && vpusReady && Ready(answer.value) {
        return true;
      }
      if cloud.clock > deadline {
        return false;
      }
      var cancelled := cloud.Sleep(10 * SECOND);
      if cancelled {
        return false;
      }
    }
  }

  /** Polls until the instance is in an accepted state; an error ends the wait. */
  method WaitInstanceState(cloud: Cloud, accepted: seq<InstanceState>, timeout: int) returns (state: InstanceState, ok: bool)
    requires timeout >= 0
    modifies cloud`clock, cloud`instancePolls, cloud`readings, cloud`troubles
    ensures !ok ==> Troubled(cloud, old(cloud.troubles), old(cloud.clock), timeout)
    ensures cloud.clock >= old(cloud.clock) && cloud.troubles >= old(cloud.troubles)
    ensures ok ==> state in accepted && cloud.readings != [] && cloud.readings[|cloud.readings| - 1].state == state
    ensures Extends(old(cloud.readings), cloud.readings)
    ensures cloud.instancePolls - old(cloud.instancePolls) <= timeout / (15 * SECOND) + 2
  {
    ghost var start := cloud.clock;
    var deadline := cloud.clock + timeout;
    while true
      invariant cloud.clock >= start + 15 * SECOND * (cloud.instancePolls - old(cloud.instancePolls))
      invariant cloud.instancePolls - old(cloud.instancePolls) <= timeout / (15 * SECOND) + 1
      invariant cloud.instancePolls >= old(cloud.instancePolls)
      invariant cloud.clock >= start && cloud.troubles >= old(cloud.troubles)
      invariant Extends(old(cloud.readings), cloud.readings)
      decreases deadline - cloud.clock
    {
      var answer := cloud.GetInstance();
      if answer.None? {
        return UNKNOWN, false;
      }
      if answer.value.state in accepted {
        return answer.value.state, true;
      }
      if cloud.clock > deadline {
        return answer.value.state, false;
      }
      var cancelled := cloud.Sleep(15 * SECOND);
      if cancelled {
        return answer.value.state, false;
      }
    }
  }

  // Requests and results -------------------------------------------------------------------

  /** The error codes of a result; the source spells them with an `OCI_` prefix. */
  datatype ErrorCode =
    | NoError | BootVolumeCannotShrink | BootVolumeVpusInvalid | UpdateBootVolumeFailed
    | WaitBootVolumeSizeFailed | BootVolumeContextMissing | ListBootVolumeAttachmentsFailed
    | BootVolumeAttachmentNotFound | WaitBootVolumeReadyFailed | WaitInstanceStateFailed
    | ResizeTargetShapeRequired | ResizeShapeConfigRequired | UpdateInstanceFailed | NotReady
    | InstanceIdRequired | ClientInitFailed | GetInstanceFailed | InstanceActionFailed
    | TerminateInstanceFailed | ActionUnsupported | ReinstallImageRequired | ReinstallBackupNotImplemented
    | ReinstallInstanceFailed | WaitReinstalledInstanceFailed

  datatype Action = Start | Stop | Reboot | Terminate | Resize | Other

  datatype Request = Request(
    instanceId: string, action: Action, targetShape: string, targetOCPUs: int, targetMemoryGB: int,
    targetBootVolumeGB: int, targetBootVolumeVPUs: int, expandBootVolume: bool,
    graceful: bool, preserveBootVolume: bool)

  datatype Result = Result(
    verified: bool, errorCode: ErrorCode, finalState: InstanceState,
    currentGB: int, currentVPUs: int, targetGB: int, targetVPUs: int, expanded: bool, performanceChanged: bool)

  /** Verified and without error code, or the reverse. */
  predicate Consistent(r: Result) {
    r.verified <==> r.errorCode == NoError
  }

  function Failure(r: Result, code: ErrorCode): Result {
    r.(verified := false, errorCode := code)
  }

  function ResolvedVPUs(requested: int, current: int): int {
    if requested > 0 then requested else if current > 0 then current else 10
  }

  /** An update worth sending: it sets something, only grows the volume that was read, and
      keeps the performance within the limits of the service. */
  predicate SoundUpdate(sent: SentUpdate, req: Request) {
    && sent.seen.Some? && Ready(sent.seen.value)
    && (sent.details.sizeInGBs.Some? || sent.details.vpusPerGB.Some?)
    && (sent.details.sizeInGBs.Some? ==>
          sent.details.sizeInGBs.value == req.targetBootVolumeGB > OrZero(sent.seen.value.sizeInGBs))
    && (sent.details.vpusPerGB.Some? ==>
          && 10 <= sent.details.vpusPerGB.value <= 120
          && sent.details.vpusPerGB.value == ResolvedVPUs(req.targetBootVolumeVPUs, OrZero(sent.seen.value.vpusPerGB))
          && sent.details.vpusPerGB.value != OrZero(sent.seen.value.vpusPerGB))
  }

  /** At most one update went out, and it was sound. */
  ghost predicate UpdatedSoundly(before: seq<SentUpdate>, after: seq<SentUpdate>, req: Request) {
    || after == before
    || (|after| == |before| + 1 && after[..|before|] == before && SoundUpdate(after[|before|], req))
  }

  /** The volume last seen is ready, large enough and at the resolved performance. */
  ghost predicate VolumeAsAsked(cloud: Cloud, before: seq<SentUpdate>, req: Request, r: Result)
    reads cloud
  {
    && cloud.lastSeen.Some?
    && AtTarget(cloud.lastSeen.value, req.targetBootVolumeGB, r.targetVPUs)
    && 10 <= r.targetVPUs <= 120 && r.targetGB == req.targetBootVolumeGB
    && (req.targetBootVolumeVPUs > 0 ==> r.targetVPUs == req.targetBootVolumeVPUs)
    && (cloud.updates == before ==>
          && !r.expanded && !r.performanceChanged
          && OrZero(cloud.lastSeen.value.sizeInGBs) == req.targetBootVolumeGB)
    && (cloud.updates != before ==>
          && cloud.updates != []
          && r.expanded == cloud.updates[|cloud.updates| - 1].details.sizeInGBs.Some?
          && r.performanceChanged == cloud.updates[|cloud.updates| - 1].details.vpusPerGB.Some?)
  }

  ghost predicate VolumeUntouched(cloud: Cloud, updates: seq<SentUpdate>, lastSeen: Option<Volume>, polls: nat)
    reads cloud
  {
    cloud.updates == updates && cloud.lastSeen == lastSeen && cloud.polls == polls
  }

  /** What a verified result means for the volume. A target size is what makes the volume
      step happen at all: without one, even a requested performance change is skipped. */
  ghost predicate VolumeOutcome(
    cloud: Cloud, updates: seq<SentUpdate>, lastSeen: Option<Volume>, polls: nat, req: Request, r: Result)
    reads cloud
  {
    if req.targetBootVolumeGB > 0 && (req.expandBootVolume || req.targetBootVolumeVPUs > 0)
    then VolumeAsAsked(cloud, updates, req, r)
    else VolumeUntouched(cloud, updates, lastSeen, polls)
  }

  /** Why the volume step refuses or fails a request. */
  ghost predicate VolumeFailure(
    cloud: Cloud, req: Request, instance: Instance, code: ErrorCode, troubles: nat, clock: int)
    reads cloud
  {
    match code
    case BootVolumeContextMissing => TrimSpace(instance.availabilityDomain) == "" || TrimSpace(instance.compartmentId) == ""
    case BootVolumeCannotShrink => cloud.lastSeen.Some? && OrZero(cloud.lastSeen.value.sizeInGBs) > req.targetBootVolumeGB
    case BootVolumeVpusInvalid =>
      && cloud.lastSeen.Some?
      && !(10 <= ResolvedVPUs(req.targetBootVolumeVPUs, OrZero(cloud.lastSeen.value.vpusPerGB)) <= 120)
    case _ => Troubled(cloud, troubles, clock, 10 * MINUTE)
  }

  /** One listing, then 62 waiting for an attachment, 82 for readiness and 62 for the target. */
  const MAX_EXPANSION_POLLS: nat := 207

  /** The second half of an expansion, once the volume is ready. */
  method UpdateReadyVolume(cloud: Cloud, req: Request, before: Result, ghost instance: Instance, volume: Volume) returns (r: Result)
    requires before.verified && before.errorCode == NoError && before.currentGB == before.currentVPUs == 0
    requires !before.expanded && !before.performanceChanged
    requires req.targetBootVolumeGB > 0 && Ready(volume) && cloud.lastSeen == Some(volume)
    modifies cloud`clock, cloud`polls, cloud`lastSeen, cloud`updates, cloud`troubles
    ensures !r.verified ==> VolumeFailure(cloud, req, instance, r.errorCode, old(cloud.troubles), old(cloud.clock))
    ensures cloud.clock >= old(cloud.clock) && cloud.troubles >= old(cloud.troubles)
    ensures Consistent(r) && r.finalState == before.finalState
    ensures r.verified ==> VolumeAsAsked(cloud, old(cloud.updates), req, r)
    ensures UpdatedSoundly(old(cloud.updates), cloud.updates, req)
    ensures cloud.polls - old(cloud.polls) <= 62
  {
    r := before;
    if volume.sizeInGBs.Some? {
      r := r.(currentGB := volume.sizeInGBs.value);
    }
    if volume.vpusPerGB.Some? {
      r := r.(currentVPUs := volume.vpusPerGB.value);
    }
    var targetGB := req.targetBootVolumeGB;
    if r.currentGB > targetGB {
      return Failure(r, BootVolumeCannotShrink);
    }
    var targetVPUs := req.targetBootVolumeVPUs;
    if targetVPUs <= 0 {
      targetVPUs := r.currentVPUs;
    }
    if targetVPUs <= 0 {
      targetVPUs := 10;
    }
    assert targetVPUs == ResolvedVPUs(req.targetBootVolumeVPUs, OrZero(volume.vpusPerGB));
    if targetVPUs < 10 || targetVPUs > 120 {
      return Failure(r, BootVolumeVpusInvalid);
    }
    r := r.(targetVPUs := targetVPUs);
    if r.currentGB == targetGB && r.currentVPUs == targetVPUs {
      return r.(targetGB := r.currentGB);
    }
    var details := UpdateDetails(
      if r.currentGB != targetGB then Some(targetGB) else None,
      if r.currentVPUs != targetVPUs then Some(targetVPUs) else None);
    var ok := cloud.UpdateBootVolume(details);
    assert SoundUpdate(cloud.updates[|old(cloud.updates)|], req);
    hide SoundUpdate;
    if !ok {
      return Failure(r, UpdateBootVolumeFailed);
    }
    r := r.(expanded := targetGB > r.currentGB, performanceChanged := r.currentVPUs != targetVPUs, targetGB := targetGB);
    ok := WaitBootVolumeTarget(cloud, targetGB, targetVPUs, 10 * MINUTE);
    if !ok {
      return Failure(r, WaitBootVolumeSizeFailed);
    }
  }

  method ExpandBootVolume(cloud: Cloud, req: Request, before: Result, instance: Instance) returns (r: Result)
    requires before.verified && before.errorCode == NoError && before.currentGB == before.currentVPUs == 0
    requires !before.expanded && !before.performanceChanged
    modifies cloud`clock, cloud`polls, cloud`lastSeen, cloud`lastListed, cloud`updates, cloud`troubles
    ensures !r.verified ==> VolumeFailure(cloud, req, instance, r.errorCode, old(cloud.troubles), old(cloud.clock))
    ensures cloud.clock >= old(cloud.clock) && cloud.troubles >= old(cloud.troubles)
    ensures Consistent(r)
    ensures r.finalState == before.finalState
    ensures req.targetBootVolumeGB <= 0 ==> r == before && VolumeUntouched(cloud, old(cloud.updates), old(cloud.lastSeen), old(cloud.polls))
    ensures req.targetBootVolumeGB > 0 && r.verified ==> VolumeAsAsked(cloud, old(cloud.updates), req, r)
    ensures UpdatedSoundly(old(cloud.updates), cloud.updates, req)
    ensures cloud.polls - old(cloud.polls) <= MAX_EXPANSION_POLLS
  {
    hide TrimSpace, VolumeAsAsked;
    r := before;
    if req.targetBootVolumeGB <= 0 {
      return;
    }
    if TrimSpace(instance.availabilityDomain) == "" || TrimSpace(instance.compartmentId) == "" {
      return Failure(r, BootVolumeContextMissing);
    }
    var attachments := cloud.ListAttachments();
    if attachments.None? {
      return Failure(r, ListBootVolumeAttachmentsFailed);
    }
    var id := FirstAttachedBootVolume(attachments.value);
    if id == "" {
      id := WaitBootVolumeAttachment(cloud, 10 * MINUTE);
      if id == "" {
        return Failure(r, BootVolumeAttachmentNotFound);
      }
    }
    var ready := WaitBootVolumeReady(cloud, 20 * MINUTE);
    if ready.None? {
      return Failure(r, WaitBootVolumeReadyFailed);
    }
    r := UpdateReadyVolume(cloud, req, r, instance, ready.value);
  }

  // Resize ------------------------------------------------------------------------------------

  predicate IsFlexible(shape: string) {
    var s := ToLower(TrimSpace(shape));
    |s| >= 5 && s[|s| - 5..] == ".flex"
  }

  /** Go's conversion of a float to an integer; an absent one counts as zero. */
  function Truncated(value: Option<real>): int {
    if value.None? then 0 else if value.value >= 0.0 then value.value.Floor else -((-value.value).Floor)
  }

  predicate ResizeRequired(instance: Instance, req: Request) {
    if TrimSpace(instance.shape) != TrimSpace(req.targetShape) then true
    else if !IsFlexible(req.targetShape) then false
    else
      || instance.config.None?
      || Truncated(instance.config.value.ocpus) != req.targetOCPUs
      || Truncated(instance.config.value.memoryInGBs) != req.targetMemoryGB
  }

  /** The name of a shape whose sizes are chosen. */
  ghost predicate HasChosenSizes(shape: string) {
    exists stem: string :: ToLower(TrimSpace(shape)) == stem + ".flex"
  }

  /** An amount between a whole number and the next. */
  predicate HasWholePart(value: Option<real>, n: int) {
    value.Some? && n as real <= value.value < n as real + 1.0
  }

  /** The instance already has the shape, and the sizes if they are chosen. */
  ghost predicate AlreadyShaped(instance: Instance, req: Request) {
    && TrimSpace(instance.shape) == TrimSpace(req.targetShape)
    && (HasChosenSizes(req.targetShape) ==>
          && instance.config.Some?
          && HasWholePart(instance.config.value.ocpus, req.targetOCPUs)
          && HasWholePart(instance.config.value.memoryInGBs, req.targetMemoryGB))
  }

  /** The update that a resize has to send, if any. */
  ghost function ChangesFor(instance: Instance, req: Request): seq<InstanceChange> {
    if AlreadyShaped(instance, req) then []
    else [Reshape(req.targetShape, if HasChosenSizes(req.targetShape) then Some((req.targetOCPUs, req.targetMemoryGB)) else None)]
  }

  lemma FlexibleMeansChosenSizes(shape: string)
    ensures IsFlexible(shape) <==> HasChosenSizes(shape)
  {
    hide ToLower, TrimSpace;
    var s := ToLower(TrimSpace(shape));
    if IsFlexible(shape) {
      assert s == s[..|s| - 5] + ".flex";
    }
    if stem: string :| s == stem + ".flex" {
      assert s[|s| - 5..] == ".flex";
    }
  }

  /** A resize is required exactly when there is something to change. */
  lemma ResizeRequiredExactlyWhen(instance: Instance, req: Request)
    requires IsFlexible(req.targetShape) ==> req.targetOCPUs > 0 && req.targetMemoryGB > 0
    ensures ResizeRequired(instance, req) <==> !AlreadyShaped(instance, req)
  {
    hide ToLower, TrimSpace, IsFlexible;
    FlexibleMeansChosenSizes(req.targetShape);
    hide HasChosenSizes;
  }

  method WaitForActionState(cloud: Cloud, before: Result, accepted: seq<InstanceState>) returns (r: Result)
    requires !before.verified && before.errorCode == NoError
    modifies cloud`clock, cloud`instancePolls, cloud`readings, cloud`troubles
    ensures !r.verified ==>
      r.errorCode == WaitInstanceStateFailed && Troubled(cloud, old(cloud.troubles), old(cloud.clock), 10 * MINUTE)
    ensures cloud.clock >= old(cloud.clock) && cloud.troubles >= old(cloud.troubles)
    ensures Extends(old(cloud.readings), cloud.readings)
    ensures Consistent(r) && r == before.(verified := r.verified, errorCode := r.errorCode, finalState := r.finalState)
    ensures r.verified ==> r.finalState in accepted
    ensures cloud.instancePolls - old(cloud.instancePolls) <= 42
  {
    var state, ok := WaitInstanceState(cloud, accepted, 10 * MINUTE);
    r := before.(finalState := state);
    if !ok {
      return r.(errorCode := WaitInstanceStateFailed);
    }
    r := r.(verified := true);
  }

  lemma NothingUpdated(updates: seq<SentUpdate>, req: Request)
    ensures UpdatedSoundly(updates, updates, req)
  {
  }

  /** Why a resize is rejected, refused or fails. */
  ghost predicate ResizeFailure(
    cloud: Cloud, req: Request, instance: Instance, code: ErrorCode, troubles: nat, clock: int)
    reads cloud
  {
    if TrimSpace(req.targetShape) == "" then code == ResizeTargetShapeRequired
    else if HasChosenSizes(req.targetShape) && (req.targetOCPUs <= 0 || req.targetMemoryGB <= 0) then code == ResizeShapeConfigRequired
    else VolumeFailure(cloud, req, instance, code, troubles, clock)
  }

  /** Brings the instance into the shape asked for, sending an update exactly when it is not,
      and then the volume. */
  method ExecuteResize(cloud: Cloud, req: Request, before: Result, instance: Instance) returns (r: Result)
    requires !before.verified && before.errorCode == NoError && before.currentGB == before.currentVPUs == 0
    requires !before.expanded && !before.performanceChanged
    modifies cloud
    ensures Consistent(r)
    ensures r.verified ==>
      && TrimSpace(req.targetShape) != ""
      && (HasChosenSizes(req.targetShape) ==> req.targetOCPUs > 0 && req.targetMemoryGB > 0)
      && cloud.changes == old(cloud.changes) + ChangesFor(instance, req)
      && (if AlreadyShaped(instance, req) then r.finalState == instance.state else r.finalState in [Running, Stopped])
      && VolumeOutcome(cloud, old(cloud.updates), old(cloud.lastSeen), old(cloud.polls), req, r)
    ensures !r.verified ==>
      && ResizeFailure(cloud, req, instance, r.errorCode, old(cloud.troubles), old(cloud.clock))
      && (cloud.changes == old(cloud.changes) || cloud.changes == old(cloud.changes) + ChangesFor(instance, req))
    ensures UpdatedSoundly(old(cloud.updates), cloud.updates, req)
    ensures cloud.polls - old(cloud.polls) <= MAX_EXPANSION_POLLS && cloud.instancePolls - old(cloud.instancePolls) <= 42
    ensures Extends(old(cloud.readings), cloud.readings)
  {
    hide TrimSpace, ToLower, IsFlexible, ResizeRequired, HasChosenSizes, AlreadyShaped, VolumeAsAsked, SoundUpdate;
    FlexibleMeansChosenSizes(req.targetShape);
    r := before;
    if TrimSpace(req.targetShape) == "" {
      return Failure(r, ResizeTargetShapeRequired);
    }
    if IsFlexible(req.targetShape) && (req.targetOCPUs <= 0 || req.targetMemoryGB <= 0) {
      return Failure(r, ResizeShapeConfigRequired);
    }
    ResizeRequiredExactlyWhen(instance, req);
    if !ResizeRequired(instance, req) {
      r := r.(finalState := instance.state, verified := true);
      if req.expandBootVolume || req.targetBootVolumeVPUs > 0 {
        r := ExpandBootVolume(cloud, req, r, instance);
      }
      return;
    }
    var sizes := if IsFlexible(req.targetShape) then Some((req.targetOCPUs, req.targetMemoryGB)) else None;
    var ok := cloud.ChangeInstance(Reshape(req.targetShape, sizes));
    if !ok {
      return Failure(r, UpdateInstanceFailed);
    }
    r := WaitForActionState(cloud, r, [Running, Stopped]);
    if !r.verified {
      return;
    }
    if req.expandBootVolume || req.targetBootVolumeVPUs > 0 {
      ghost var troubles, clock := cloud.troubles, cloud.clock;
      r := ExpandBootVolume(cloud, req, r, instance);
      LaterTrouble(cloud, req, instance, r.errorCode, troubles, clock, old(cloud.troubles), old(cloud.clock));
    }
  }

  // Lifecycle actions ---------------------------------------------------------------------------

  function NewResult(req: Request): Result {
    Result(false, NoError, UNKNOWN, 0, 0, req.targetBootVolumeGB, req.targetBootVolumeVPUs, false, false)
  }

  /** The state that a power action or termination has to reach. */
  function Target(action: Action): InstanceState {
    match action
    case Stop => Stopped
    case Terminate => Terminated
    case _ => Running
  }

  /** The request that a power action or termination sends. */
  function ChangeFor(req: Request): InstanceChange {
    match req.action
    case Start => Power(PowerOn)
    case Stop => Power(if req.graceful then SoftStop else PowerOff)
    case Reboot => Power(if req.graceful then SoftReset else Reset)
    case _ => Termination(req.preserveBootVolume)
  }

  /** What a verified action has sent, and the state it ends in; `instance` is as first read. */
  ghost predicate ActionDone(req: Request, instance: Instance, sent: seq<InstanceChange>, finalState: InstanceState) {
    match req.action
    case Start => sent == [Power(PowerOn)] && finalState == Running
    case Stop => sent == [Power(if req.graceful then SoftStop else PowerOff)] && finalState == Stopped
    case Reboot => sent == [Power(if req.graceful then SoftReset else Reset)] && finalState == Running
    case Terminate => sent == [Termination(req.preserveBootVolume)] && finalState == Terminated
    case Resize =>
      && sent == ChangesFor(instance, req)
      && if AlreadyShaped(instance, req) then finalState == instance.state else finalState in [Running, Stopped]
    case Other => false
  }

  /** A power action or a termination: one request, then a wait for the state it leads to. */
  method ExecutePowerAction(cloud: Cloud, req: Request, before: Result) returns (r: Result)
    requires !req.action.Resize? && !req.action.Other?
    requires !before.verified && before.errorCode == NoError
    modifies cloud`clock, cloud`instancePolls, cloud`readings, cloud`troubles, cloud`changes
    ensures Consistent(r)
    ensures cloud.changes == old(cloud.changes) + [ChangeFor(req)]
    ensures r.verified ==> r.finalState == Target(req.action)
    ensures !r.verified ==> Troubled(cloud, old(cloud.troubles), old(cloud.clock), 10 * MINUTE)
    ensures Extends(old(cloud.readings), cloud.readings)
    ensures cloud.instancePolls - old(cloud.instancePolls) <= 42
  {
    hide Target, ChangeFor, Extends;
    r := before;
    NothingReadYet(cloud.readings);
    var ok := cloud.ChangeInstance(ChangeFor(req));
    if !ok {
      return Failure(r, if req.action.Terminate? then TerminateInstanceFailed else InstanceActionFailed);
    }
    r := WaitForActionState(cloud, r, [Target(req.action)]);
  }

  lemma NothingReadYet(readings: seq<Instance>)
    ensures Extends(readings, readings)
  {
  }

  /** Why an action that got as far as the cloud fails. */
  ghost predicate ActionFailure(
    cloud: Cloud, req: Request, readings: seq<Instance>, code: ErrorCode, troubles: nat, clock: int)
    reads cloud
  {
    || Troubled(cloud, troubles, clock, 10 * MINUTE)
    || (req.action.Other? && code == ActionUnsupported)
    || (&& req.action.Resize? && |cloud.readings| > |readings|
        && ResizeFailure(cloud, req, cloud.readings[|readings|], code, troubles, clock))
  }

  /** Every path ends verified without an error code, or unverified with one. Only a resize
      ever reaches the boot volume. */
  method ExecuteLifecycleAction(cloud: Cloud, req: Request, ready: bool, clientsReady: bool) returns (r: Result)
    modifies cloud
    ensures Consistent(r)
    ensures r.verified ==> ready && clientsReady && TrimSpace(req.instanceId) != ""
    ensures r.verified ==>
      && |cloud.readings| > |old(cloud.readings)| && |cloud.changes| >= |old(cloud.changes)|
      && cloud.changes[..|old(cloud.changes)|] == old(cloud.changes)
      && ActionDone(req, cloud.readings[|old(cloud.readings)|], cloud.changes[|old(cloud.changes)|..], r.finalState)
    ensures !r.verified && ready && clientsReady && TrimSpace(req.instanceId) != "" ==>
      ActionFailure(cloud, req, old(cloud.readings), r.errorCode, old(cloud.troubles), old(cloud.clock))
    ensures r.verified && req.action.Resize? ==> VolumeOutcome(cloud, old(cloud.updates), old(cloud.lastSeen), old(cloud.polls), req, r)
    ensures !req.action.Resize? ==> VolumeUntouched(cloud, old(cloud.updates), old(cloud.lastSeen), old(cloud.polls))
    ensures UpdatedSoundly(old(cloud.updates), cloud.updates, req)
    ensures cloud.polls - old(cloud.polls) <= MAX_EXPANSION_POLLS && cloud.instancePolls - old(cloud.instancePolls) <= 43
  {
    hide UpdatedSoundly, TrimSpace, IsFlexible, ChangesFor, AlreadyShaped, VolumeOutcome, SoundUpdate, HasChosenSizes, ResizeFailure, VolumeFailure, Extends;
    NothingUpdated(cloud.updates, req);
    r := NewResult(req);
    if !ready {
      return Failure(r, NotReady);
    }
    if TrimSpace(req.instanceId) == "" {
      return Failure(r, InstanceIdRequired);
    }
    if !clientsReady {
      return Failure(r, ClientInitFailed);
    }
    var current := cloud.GetInstance();
    if current.None? {
      return Failure(r, GetInstanceFailed);
    }
    ghost var troubles, clock := cloud.troubles, cloud.clock;
    match req.action {
      case Start | Stop | Reboot | Terminate =>
        r := ExecutePowerAction(cloud, req, r);
        FirstReading(old(cloud.readings), current.value, cloud.readings);
      case Resize =>
        r := ExecuteResize(cloud, req, r, current.value);
        FirstReading(old(cloud.readings), current.value, cloud.readings);
        LaterClock(cloud, req, current.value, r.errorCode, troubles, clock, old(cloud.clock));
      case Other =>
        return Failure(r, ActionUnsupported);
    }
  }

  /** What has gone wrong since a moment has gone wrong since any earlier one. */
  lemma LaterClock(cloud: Cloud, req: Request, instance: Instance, code: ErrorCode, troubles: nat, clock: int, earlier: int)
    requires earlier <= clock
    ensures ResizeFailure(cloud, req, instance, code, troubles, clock) ==> ResizeFailure(cloud, req, instance, code, troubles, earlier)
    ensures VolumeFailure(cloud, req, instance, code, troubles, clock) ==> VolumeFailure(cloud, req, instance, code, troubles, earlier)
  {
    hide TrimSpace, HasChosenSizes, ResolvedVPUs;
  }

  // Reinstall -------------------------------------------------------------------------------------

  datatype ReinstallRequest = ReinstallRequest(
    instanceId: string, imageId: string, bootVolumeSizeGB: int, bootVolumeVPUs: int, createBackup: bool,
    preserveOldBootVolume: bool)

  datatype ReinstallResult = ReinstallResult(verified: bool, errorCode: ErrorCode, finalState: InstanceState, targetGB: int, targetVPUs: int)

  /** The volume step of a reinstall, as an expansion request. */
  function VolumeRequest(req: ReinstallRequest): Request {
    Request(req.instanceId, Other, "", 0, 0, req.bootVolumeSizeGB, req.bootVolumeVPUs, true, false, false)
  }

  function StepResult(req: ReinstallRequest, finalState: InstanceState): Result {
    Result(true, NoError, finalState, 0, 0, req.bootVolumeSizeGB, req.bootVolumeVPUs, false, false)
  }

  /** What a verified reinstall means for the volume: brought to the requested size and
      performance when both are given, and never looked at otherwise. */
  ghost predicate ReinstallVolumeOutcome(
    cloud: Cloud, updates: seq<SentUpdate>, lastSeen: Option<Volume>, polls: nat, req: ReinstallRequest, r: ReinstallResult)
    reads cloud
  {
    if req.bootVolumeVPUs > 0 && req.bootVolumeSizeGB > 0 then
      && cloud.lastSeen.Some?
      && AtTarget(cloud.lastSeen.value, req.bootVolumeSizeGB, req.bootVolumeVPUs)
      && r.targetGB == req.bootVolumeSizeGB && r.targetVPUs == req.bootVolumeVPUs
    else
      && VolumeUntouched(cloud, updates, lastSeen, polls)
      && r.targetGB == req.bootVolumeSizeGB && r.targetVPUs == req.bootVolumeVPUs
  }

  method ExecuteReinstall(cloud: Cloud, req: ReinstallRequest, ready: bool, clientsReady: bool) returns (r: ReinstallResult)
    modifies cloud
    ensures r.verified <==> r.errorCode == NoError
    ensures r.verified ==> ready && clientsReady && TrimSpace(req.instanceId) != "" && TrimSpace(req.imageId) != "" && !req.createBackup
    ensures r.verified ==>
      && cloud.changes == old(cloud.changes)
           + [Reimage(TrimSpace(req.imageId), req.preserveOldBootVolume,
                      if req.bootVolumeSizeGB > 0 then Some(req.bootVolumeSizeGB) else None)]
      && r.finalState in [Running, Stopped]
    ensures !r.verified && ready && clientsReady && TrimSpace(req.instanceId) != "" && TrimSpace(req.imageId) != "" && !req.createBackup ==>
      || Troubled(cloud, old(cloud.troubles), old(cloud.clock), 10 * MINUTE)
      || (&& |cloud.readings| > |old(cloud.readings)|
          && VolumeFailure(cloud, VolumeRequest(req), cloud.readings[|old(cloud.readings)|], r.errorCode, old(cloud.troubles), old(cloud.clock)))
    ensures r.verified ==> ReinstallVolumeOutcome(cloud, old(cloud.updates), old(cloud.lastSeen), old(cloud.polls), req, r)
    ensures UpdatedSoundly(old(cloud.updates), cloud.updates, VolumeRequest(req))
    ensures cloud.polls - old(cloud.polls) <= MAX_EXPANSION_POLLS && cloud.instancePolls - old(cloud.instancePolls) <= 63
  {
    hide ReinstallVolumeOutcome, TrimSpace, VolumeAsAsked, UpdatedSoundly, ResolvedVPUs, AtTarget, VolumeFailure, Extends;
    NothingUpdated(cloud.updates, VolumeRequest(req));
    r := ReinstallResult(false, NoError, UNKNOWN, req.bootVolumeSizeGB, req.bootVolumeVPUs);
    if !ready {
      return r.(errorCode := NotReady);
    }
    if TrimSpace(req.instanceId) == "" {
      return r.(errorCode := InstanceIdRequired);
    }
    if TrimSpace(req.imageId) == "" {
      return r.(errorCode := ReinstallImageRequired);
    }
    if req.createBackup {
      return r.(errorCode := ReinstallBackupNotImplemented);
    }
    if !clientsReady {
      return r.(errorCode := ClientInitFailed);
    }
    var current := cloud.GetInstance();
    if current.None? {
      return r.(errorCode := GetInstanceFailed);
    }
    var ok := cloud.ChangeInstance(
      Reimage(TrimSpace(req.imageId), req.preserveOldBootVolume, if req.bootVolumeSizeGB > 0 then Some(req.bootVolumeSizeGB) else None));
    if !ok {
      return r.(errorCode := ReinstallInstanceFailed);
    }
    var state;
    state, ok := WaitInstanceState(cloud, [Running, Stopped], 15 * MINUTE);
    FirstReading(old(cloud.readings), current.value, cloud.readings);
    r := r.(finalState := state);
    if !ok {
      return r.(errorCode := WaitReinstalledInstanceFailed);
    }
    r := r.(verified := true);
    if req.bootVolumeVPUs > 0 {
      ghost var troubles, clock := cloud.troubles, cloud.clock;
      var step := ExpandBootVolume(cloud, VolumeRequest(req), StepResult(req, r.finalState), current.value);
      LaterTrouble(cloud, VolumeRequest(req), current.value, step.errorCode, troubles, clock, old(cloud.troubles), old(cloud.clock));
      r := r.(targetGB := step.targetGB, targetVPUs := step.targetVPUs);
      if step.verified {
        StepBringsVolume(cloud, old(cloud.updates), old(cloud.lastSeen), old(cloud.polls), req, step, r);
      } else {
        r := r.(verified := false, errorCode := step.errorCode);
      }
    } else {
      NoVolumeStep(cloud, old(cloud.updates), old(cloud.lastSeen), old(cloud.polls), req, r);
    }
  }

  /** What the volume step means for the result that takes over its targets. */
  lemma StepBringsVolume(
    cloud: Cloud, updates: seq<SentUpdate>, lastSeen: Option<Volume>, polls: nat, req: ReinstallRequest, step: Result, r: ReinstallResult)
    requires req.bootVolumeVPUs > 0 && r.targetGB == step.targetGB && r.targetVPUs == step.targetVPUs
    requires if req.bootVolumeSizeGB <= 0 then step == StepResult(req, step.finalState) && VolumeUntouched(cloud, updates, lastSeen, polls)
             else VolumeAsAsked(cloud, updates, VolumeRequest(req), step)
    ensures ReinstallVolumeOutcome(cloud, updates, lastSeen, polls, req, r)
  {
  }

  lemma NoVolumeStep(
    cloud: Cloud, updates: seq<SentUpdate>, lastSeen: Option<Volume>, polls: nat, req: ReinstallRequest, r: ReinstallResult)
    requires req.bootVolumeVPUs <= 0 && r.targetGB == req.bootVolumeSizeGB && r.targetVPUs == req.bootVolumeVPUs
    requires cloud.updates == updates && cloud.lastSeen == lastSeen && cloud.polls == polls
    ensures ReinstallVolumeOutcome(cloud, updates, lastSeen, polls, req, r)
  {
  }

  lemma LaterTrouble(
    cloud: Cloud, req: Request, instance: Instance, code: ErrorCode, troubles: nat, clock: int, fewer: nat, earlier: int)
    requires earlier <= clock && fewer <= troubles
    ensures VolumeFailure(cloud, req, instance, code, troubles, clock) ==> VolumeFailure(cloud, req, instance, code, fewer, earlier)
  {
    hide TrimSpace, ResolvedVPUs;
  }
}
