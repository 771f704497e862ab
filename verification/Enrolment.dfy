/**
 Provisioning and MASQUE enrolment as a protocol with crashes.

 The registrar keeps one key per device, and a PATCH replaces the WireGuard key for good.
 A world is what the registrar holds, the PATCH requests it may still apply, the durable
 store, the identity files, and the operation in flight with its copy of the store in
 memory. Every durable effect is an action of its own, a crash may come between any two,
 and a request that was sent may be applied at any later time, also after a crash.
 */
module Enrolment {
  import opened Wrappers
  import opened Registration
  import opened IdentityStore
  import opened IdentityLaws

  /** What follows once `record` has written the store and then the file. */
  datatype After = Finish | RecordAgain | Enrol | Annotate

  datatype Op =
    | Idle
    /** `load` has computed a store; `rewrite` says it must be saved. */
    | Loading(slot: Slot, mem: StoreState, rewrite: bool)
    | Ready(slot: Slot, mem: StoreState)
    | Provisioning(slot: Slot, mem: StoreState)
    | Registered(slot: Slot, mem: StoreState, identity: Identity)
    /** `record` has updated the store in memory and must save it. */
    | Recording(slot: Slot, mem: StoreState, identity: Identity, after: After)
    /** The store is saved; the identity file is next. */
    | Filing(slot: Slot, mem: StoreState, identity: Identity, after: After)
    /** The marker is set in memory and must be saved before the request goes out. */
    | Marking(slot: Slot, mem: StoreState, identity: Identity, resumed: bool)
    | Asking(slot: Slot, mem: StoreState, identity: Identity, resumed: bool)
    | Annotating(slot: Slot, mem: StoreState, identity: Identity)

  /** Where each slot's identity file lives. */
  datatype Layout = Layout(wireguard: Path, wireguardInner: Path, masque: Path, masqueInner: Path) {
    function At(slot: Slot): Path {
      match slot
      case Wireguard => wireguard
      case WireguardInner => wireguardInner
      case Masque => masque
      case MasqueInner => masqueInner
    }
  }

  datatype World = World(
    layout: Layout,
    server: map<DeviceId, TunnelType>,
    inflight: set<DeviceId>,
    disk: Option<Persisted>,
    files: map<Path, Identity>,
    op: Op)

  /** One durable effect, one message, or one decision of the code between two of them. */
  datatype Action =
    | Crash
    | ServerApplies(id: DeviceId)
    | Load(load: LoadAction)
    | Choose(choice: ChoiceAction)
    | Provision(provision: ProvisionAction)
    | Record(record: RecordAction)
    | Enrolment(enrol: EnrolAction)

  datatype LoadAction = Begin(slot: Slot) | SaveLoaded

  /** What the code does with what it found in the slot. */
  datatype ChoiceAction =
    | Reuse(seen: set<Path>, profile: Profile, refused: bool, now: nat)
    | ReuseRefused(now: nat, reprovision: bool)
    | NeedAccount(seen: set<Path>)
    | Resume(now: nat)

  datatype ProvisionAction =
    | OnHold(now: nat)
    | Register(id: DeviceId, profile: Profile, now: nat)
    | RegisterFails(now: nat, reason: string, retryAfter: Option<nat>)
    | RecordNew(now: nat)

  datatype RecordAction =
    | SaveStore
    | SaveFile
    | SaveFileThenRecord(profile: Profile, refused: bool, now: nat)
    | SaveFileThenMark(now: nat)

  datatype EnrolAction =
    | SaveMarker
    | SendPatch
    | Answered(certPem: string, keyPem: string, issuedAt: nat, profile: Profile, refused: bool, now: nat)
    | KeepCertificate(profile: Profile, refused: bool, now: nat)
    | EnrolRefused(now: nat, reprovision: bool)
    | EnrolFails
    | AnnotateFile(path: Path)
    | AnnotateDone

  // ---------------------------------------------------------------- the code's functions

  function Legacy(layout: Layout): seq<(Slot, Path)> {
    [(Slot.Wireguard, layout.wireguard), (Slot.WireguardInner, layout.wireguardInner),
     (Slot.Masque, layout.masque), (Slot.MasqueInner, layout.masqueInner)]
  }

  function Entries(w: World): seq<Entry> {
    Readable(Legacy(w.layout), w.files)
  }

  /** The store on disk, if there is one this build reads. */
  function OnDisk(w: World): Option<StoreState> {
    match w.disk
    case None => None
    case Some(p) => match Parse(p) case Ok(s) => Some(s) case Err(_) => None
  }

  /** The store a load would hand out now. */
  function LoadNow(w: World): StoreState {
    Loaded(OnDisk(w), Entries(w))
  }

  /** Whether a load saves what it built: it migrated, adopted something, or repaired something. */
  predicate Rewrites(w: World) {
    || OnDisk(w).None?
    || News(OnDisk(w).value, Entries(w)) != []
    || !RepairReport(Reconciled(OnDisk(w).value, Entries(w))).IsEmpty()
  }

  /** `record`: the identity's device, keeping what only the store knows, in its slot. */
  function RecordedDevice(mem: StoreState, identity: Identity, now: nat): Device {
    var device := DeviceFrom(identity, now);
    if identity.deviceId !in mem.devices then device
    else
      var existing := mem.devices[identity.deviceId];
      device.(
        registeredAt := if existing.registeredAt != 0 then existing.registeredAt else now,
        refusedAt := existing.refusedAt,
        enrolmentPendingSince := if device.HasCertificate() then 0 else existing.enrolmentPendingSince)
  }

  function Recorded(mem: StoreState, slot: Slot, identity: Identity, now: nat): StoreState {
    mem.(devices := mem.devices[identity.deviceId := RecordedDevice(mem, identity, now)],
         slots := mem.slots[slot := identity.deviceId])
  }

  function WithMarker(mem: StoreState, id: DeviceId, now: nat): StoreState {
    if id in mem.devices then mem.(devices := mem.devices[id := mem.devices[id].(enrolmentPendingSince := now)])
    else mem
  }

  function WithRefusal(mem: StoreState, id: DeviceId, now: nat): StoreState {
    if id in mem.devices then mem.(devices := mem.devices[id := mem.devices[id].(refusedAt := now)])
    else mem
  }

  /** Whether one of the files the sweep managed to read shows the device enrolled. */
  predicate EnrolledElsewhere(w: World, slot: Slot, seen: set<Path>, id: DeviceId) {
    exists path :: path in seen && path in w.files && w.files[path].deviceId == id && w.files[path].certPem != ""
                   && path != w.layout.At(slot)
  }

  /** The registrar has replaced the device's WireGuard key. */
  predicate Enrolled(w: World, id: DeviceId) {
    id in w.server && w.server[id] == TunnelType.Masque
  }

  // ---------------------------------------------------------------- the actions

  ghost predicate Acts(w: World, a: Action, w': World) {
    match a
    case Crash => w' == w.(op := Idle)
    case ServerApplies(id) => id in w.inflight && w' == w.(server := w.server[id := TunnelType.Masque])
    case Load(load) => Loads(w, load, w')
    case Choose(choice) => Chooses(w, choice, w')
    case Provision(provision) => Provisions(w, provision, w')
    case Record(record) => Records(w, record, w')
    case Enrolment(enrol) => Enrols(w, enrol, w')
  }

  ghost predicate Loads(w: World, a: LoadAction, w': World) {
    match a
    case Begin(slot) => w.op.Idle? && w' == w.(op := Loading(slot, LoadNow(w), Rewrites(w)))
    case SaveLoaded =>
      && w.op.Loading?
      && w' == w.(disk := if w.op.rewrite then Some(ToPersisted(w.op.mem)) else w.disk,
                  op := Ready(w.op.slot, w.op.mem))
  }

  ghost predicate Chooses(w: World, a: ChoiceAction, w': World) {
    && w.op.Ready?
    && var slot, mem, held := w.op.slot, w.op.mem, TakeUsable(w.op.mem, w.op.slot);
    match a
    case Reuse(seen, profile, refused, now) => Reuses(w, seen, profile, refused, now, w')
    case ReuseRefused(now, reprovision) =>
      && FamilyOf(slot) == Family.Masque && held.Some? && held.value.1.HasCertificate()
      && w' == w.(op := if reprovision then Provisioning(slot, WithRefusal(mem, held.value.0, now)) else Idle)
    case NeedAccount(seen) =>
      && (held.None? || (FamilyOf(slot) == Family.Wireguard && EnrolledElsewhere(w, slot, seen, held.value.0)))
      && w' == w.(op := Provisioning(slot, mem))
    case Resume(now) =>
      && FamilyOf(slot) == Family.Masque && held.Some?
      && w' == w.(op := Marking(slot, WithMarker(mem, held.value.0, now),
                                IdentityFrom(held.value.0, held.value.1), true))
  }

  ghost predicate Provisions(w: World, a: ProvisionAction, w': World) {
    match a
    case OnHold(now) => w.op.Provisioning? && !MayAttempt(w.op.mem.registration, now) && w' == w.(op := Idle)
    case Register(id, profile, now) =>
      && w.op.Provisioning? && MayAttempt(w.op.mem.registration, now) && NewId(w, id)
      && w' == w.(server := w.server[id := TunnelType.Wireguard],
                  op := Registered(w.op.slot, w.op.mem.(registration := Succeeded(now)),
                                   Identity(id, profile, "", "", 0, false)))
    case RegisterFails(now, reason, retryAfter) =>
      && w.op.Provisioning? && MayAttempt(w.op.mem.registration, now)
      && var spent := Failed(w.op.mem.registration, now, reason, retryAfter);
         w' == w.(disk := Some(ToPersisted(w.op.mem.(registration := spent))), op := Idle)
    case RecordNew(now) =>
      && w.op.Registered?
      && w' == w.(op := Recording(w.op.slot, Recorded(w.op.mem, w.op.slot, w.op.identity, now), w.op.identity,
                                  if FamilyOf(w.op.slot) == Family.Wireguard then RecordAgain else Enrol))
  }

  ghost predicate Records(w: World, a: RecordAction, w': World) {
    match a
    case SaveStore =>
      && w.op.Recording?
      && w' == w.(disk := Some(ToPersisted(w.op.mem)), op := Filing(w.op.slot, w.op.mem, w.op.identity, w.op.after))
    case SaveFile =>
      && w.op.Filing? && (w.op.after.Finish? || w.op.after.Annotate?)
      && w' == Filed(w).(op := if w.op.after.Finish? then Idle else Annotating(w.op.slot, w.op.mem, w.op.identity))
    case SaveFileThenRecord(profile, refused, now) =>
      && w.op.Filing? && w.op.after.RecordAgain?
      && var identity := w.op.identity.(profile := profile, refused := refused);
         w' == Filed(w).(op := Recording(w.op.slot, Recorded(w.op.mem, w.op.slot, identity, now), identity, Finish))
    case SaveFileThenMark(now) =>
      && w.op.Filing? && w.op.after.Enrol?
      && w' == Filed(w).(op := Marking(w.op.slot, WithMarker(w.op.mem, w.op.identity.deviceId, now),
                                       w.op.identity, false))
  }

  ghost predicate Enrols(w: World, a: EnrolAction, w': World) {
    match a
    case SaveMarker =>
      && w.op.Marking?
      && w' == w.(disk := Some(ToPersisted(w.op.mem)), op := Asking(w.op.slot, w.op.mem, w.op.identity, w.op.resumed))
    case SendPatch => w.op.Asking? && w' == w.(inflight := w.inflight + {w.op.identity.deviceId})
    case Answered(certPem, keyPem, issuedAt, profile, refused, now) =>
      && w.op.Asking? && certPem != "" && keyPem != ""
      && w.op.identity.deviceId in w.inflight && Enrolled(w, w.op.identity.deviceId)
      && var identity := w.op.identity.(certPem := certPem, keyPem := keyPem, certIssuedAt := issuedAt,
                                        profile := profile, refused := refused);
         w' == w.(op := Recording(w.op.slot, Recorded(w.op.mem, w.op.slot, identity, now), identity, Annotate))
    case KeepCertificate(profile, refused, now) =>
      && w.op.Asking? && w.op.identity.certPem != "" && w.op.identity.keyPem != ""
      && var identity := w.op.identity.(profile := profile, refused := refused);
         w' == w.(op := Recording(w.op.slot, Recorded(w.op.mem, w.op.slot, identity, now), identity, Annotate))
    case EnrolRefused(now, reprovision) =>
      && w.op.Asking? && w.op.resumed
      && w' == w.(op := if !reprovision then Idle
                        else Provisioning(w.op.slot, WithRefusal(w.op.mem, w.op.identity.deviceId, now)))
    case EnrolFails => w.op.Asking? && w' == w.(op := Idle)
    case AnnotateFile(path) =>
      && w.op.Annotating? && path in w.files && path != w.layout.At(w.op.slot)
      && w.files[path].deviceId == w.op.identity.deviceId && w.files[path].certPem == ""
      && w' == w.(files := w.files[path := w.files[path].(certPem := w.op.identity.certPem, keyPem := "",
                                                         certIssuedAt := w.op.identity.certIssuedAt)])
    case AnnotateDone => w.op.Annotating? && w' == w.(op := Idle)
  }

  /** An account that is loaded and used again: its profile is refreshed and recorded. */
  ghost predicate Reuses(w: World, seen: set<Path>, profile: Profile, refused: bool, now: nat, w': World) {
    && w.op.Ready? && TakeUsable(w.op.mem, w.op.slot).Some?
    && (var (id, device) := TakeUsable(w.op.mem, w.op.slot).value;
        && (if FamilyOf(w.op.slot) == Family.Wireguard then !EnrolledElsewhere(w, w.op.slot, seen, id)
            else device.HasCertificate() && !refused)
        && (var identity := IdentityFrom(id, device).(profile := profile, refused := refused);
            w' == w.(op := Recording(w.op.slot, Recorded(w.op.mem, w.op.slot, identity, now), identity, Finish))))
  }

  /** The world once the identity in flight is in its slot's file. */
  function Filed(w: World): World
    requires w.op.Filing?
  {
    w.(files := w.files[w.layout.At(w.op.slot) := w.op.identity.(refused := false)])
  }

  /** An id no store, file, request or registrar record mentions yet. */
  ghost predicate NewId(w: World, id: DeviceId) {
    && id != "" && id !in w.server && id !in w.inflight
    && (OnDisk(w).Some? ==> id !in OnDisk(w).value.devices && id !in OnDisk(w).value.slots.Values)
    && (forall path :: path in w.files ==> w.files[path].deviceId != id)
    && (w.op.Provisioning? ==> id !in w.op.mem.devices && id !in w.op.mem.slots.Values)
  }

  /** The clock behind a marker is set; `now_unix` answers zero when it is not. */
  predicate ClockSet(a: Action) {
    match a
    case Record(SaveFileThenMark(now)) => now > 0
    case Choose(Resume(now)) => now > 0
    case _ => true
  }
}
