/** What every run of the enrolment protocol keeps, whatever crashes and however late requests land. */
module EnrolmentSafety {
  import opened Wrappers
  import opened Registration
  import opened IdentityStore
  import opened IdentityLaws
  import opened Enrolment

  /** The WireGuard key is gone, or a request that will replace it may still be applied. */
  predicate Overwritten(w: World, id: DeviceId) {
    Enrolled(w, id) || id in w.inflight
  }

  ghost predicate StoreKnows(w: World, s: StoreState) {
    forall id :: id in s.devices && Overwritten(w, id) ==> Marked(s.devices[id])
  }

  /** What the files say of a device the registrar re-keyed is enough for the next load to notice. */
  ghost predicate FilesKnow(w: World) {
    forall e :: e in Entries(w) && Overwritten(w, e.identity.deviceId) ==>
      match OnDisk(w)
      case None => ShowsEnrolment(Entries(w), e.identity.deviceId)
      case Some(s) => e.identity.deviceId in s.devices || e.identity.certPem != ""
  }

  /** The disk's knowledge covers the registrar's hidden state. */
  ghost predicate Known(w: World) {
    && (w.disk.Some? ==> OnDisk(w).Some? && StoreKnows(w, OnDisk(w).value))
    && FilesKnow(w)
  }

  /** The disk holds the devices of `mem`, and of its slots those that name a device at all. */
  ghost predicate SavedAs(w: World, mem: StoreState) {
    && OnDisk(w).Some?
    && OnDisk(w).value.devices == mem.devices
    && SomeOf(OnDisk(w).value.slots, mem.slots)
  }

  ghost predicate SomeOf(some: map<Slot, DeviceId>, all: map<Slot, DeviceId>) {
    forall slot :: slot in some ==> slot in all && some[slot] == all[slot]
  }

  /** The store in memory forgets no device the disk or, before the first save, a file knows. */
  ghost predicate Covers(w: World, mem: StoreState) {
    && (OnDisk(w).Some? ==> OnDisk(w).value.devices.Keys <= mem.devices.Keys)
    && (OnDisk(w).None? ==> Ids(Entries(w)) <= mem.devices.Keys)
  }

  /** What each stage of an operation has established so far. */
  ghost predicate Stage(w: World) {
    match w.op
    case Idle => true
    case Loading(slot, mem, rewrite) => rewrite || SavedAs(w, mem)
    case Ready(slot, mem) => w.disk.Some?
    case Provisioning(slot, mem) => w.disk.Some?
    case Registered(slot, mem, identity) =>
      && w.disk.Some? && identity.certPem == "" && identity.deviceId !in mem.devices
      && !Overwritten(w, identity.deviceId)
    case Recording(slot, mem, identity, after) => w.disk.Some? && RecordStage(w, mem, identity, after)
    case Filing(slot, mem, identity, after) => SavedAs(w, mem) && RecordStage(w, mem, identity, after)
    case Marking(slot, mem, identity, resumed) =>
      w.disk.Some? && identity.deviceId in mem.devices && Marked(mem.devices[identity.deviceId])
    case Asking(slot, mem, identity, resumed) =>
      SavedAs(w, mem) && identity.deviceId in mem.devices && Marked(mem.devices[identity.deviceId])
    case Annotating(slot, mem, identity) => w.disk.Some? && identity.certPem != ""
  }

  ghost predicate RecordStage(w: World, mem: StoreState, identity: Identity, after: After) {
    && identity.deviceId in mem.devices
    && (after.RecordAgain? ==> identity.certPem == "" && !Overwritten(w, identity.deviceId))
    && (after.Annotate? ==> identity.certPem != "")
  }

  ghost predicate Inv(w: World) {
    && Known(w)
    && Stage(w)
    && (!w.op.Idle? ==> StoreKnows(w, w.op.mem) && Covers(w, w.op.mem))
  }

  // ---------------------------------------------------------------- lemmas about files and loading

  function FileOf(w: World, slot: Slot): seq<Entry> {
    if w.layout.At(slot) in w.files then [Entry(slot, w.files[w.layout.At(slot)])] else []
  }

  lemma EntriesShape(w: World)
    ensures Entries(w) == FileOf(w, Slot.Wireguard) + FileOf(w, Slot.WireguardInner)
                          + FileOf(w, Slot.Masque) + FileOf(w, Slot.MasqueInner)
  {
    var l := Legacy(w.layout);
    var f := w.files;
    assert l[..3][..2] == l[..2] && l[..2][..1] == l[..1] && l[..1][..0] == [];
    assert Readable(l[..1], f) == FileOf(w, Slot.Wireguard);
    assert Readable(l[..2], f) == FileOf(w, Slot.Wireguard) + FileOf(w, Slot.WireguardInner);
    assert Readable(l[..3], f) == FileOf(w, Slot.Wireguard) + FileOf(w, Slot.WireguardInner) + FileOf(w, Slot.Masque);
  }

  /** The entries of a world are its slots' files, one for each slot at most. */
  lemma EntriesMembers(w: World, e: Entry)
    ensures e in Entries(w) <==> w.layout.At(e.slot) in w.files && e.identity == w.files[w.layout.At(e.slot)]
  {
    EntriesShape(w);
  }

  lemma OneEntryPerSlot(w: World)
    ensures OneFilePerSlot(Entries(w))
  {
    EntriesShape(w);
  }

  lemma SavedRoundTrip(s: StoreState)
    ensures Parse(ToPersisted(s)).Ok?
    ensures Parse(ToPersisted(s)).value.devices == s.devices
    ensures SomeOf(Parse(ToPersisted(s)).value.slots, s.slots)
  {
    PersistedRoundTrip(s);
  }

  /** A load from a disk that knows enough hands out a store that knows enough. */
  lemma LoadKnows(w: World)
    requires Known(w)
    ensures StoreKnows(w, LoadNow(w)) && Covers(w, LoadNow(w))
  {
    var entries := Entries(w);
    match OnDisk(w) {
      case None =>
        forall id | id in Ids(entries) && Overwritten(w, id)
          ensures Marked(Migrated(entries).devices[id])
        {
          var e :| e in entries && e.identity.deviceId == id;
          MigrationKnowledge(entries, id);
        }
      case Some(s) =>
        forall id | id in Reconciled(s, entries).devices && Overwritten(w, id)
          ensures Marked(Reconciled(s, entries).devices[id])
        {
          ReconcileKnowledge(s, entries, id);
          if id !in s.devices {
            NewDeviceHasNews(s, entries, id);
          }
        }
    }
  }

  lemma NewDeviceHasNews(s: StoreState, entries: seq<Entry>, id: DeviceId)
    requires id in Reconciled(s, entries).devices && id !in s.devices
    ensures exists e :: e in entries && !Held(s, e) && e.Names(id)
  {
    var news := News(s, entries);
    assert id in Ids(news);
    var e :| e in news && e.Names(id);
    NewsMembers(s, entries, e);
  }

  // ---------------------------------------------------------------- one step

  /** Worlds that agree on everything an invariant about stored knowledge reads. */
  ghost predicate SameRecords(w: World, w': World) {
    && w'.layout == w.layout && w'.disk == w.disk && w'.files == w.files
    && forall id :: Overwritten(w', id) <==> Overwritten(w, id)
  }

  lemma SameRecordsKeep(w: World, w': World)
    requires SameRecords(w, w') && Known(w)
    ensures Known(w')
    ensures forall mem :: StoreKnows(w, mem) ==> StoreKnows(w', mem)
    ensures forall mem :: Covers(w, mem) ==> Covers(w', mem)
    ensures forall mem :: SavedAs(w, mem) ==> SavedAs(w', mem)
  {
    assert Entries(w') == Entries(w) && OnDisk(w') == OnDisk(w);
    forall e | e in Entries(w') && Overwritten(w', e.identity.deviceId)
      ensures match OnDisk(w')
              case None => ShowsEnrolment(Entries(w'), e.identity.deviceId)
              case Some(s) => e.identity.deviceId in s.devices || e.identity.certPem != ""
    {
      assert Overwritten(w, e.identity.deviceId);
    }
  }

  lemma SavedDisk(mem: StoreState, w': World)
    requires w'.disk == Some(ToPersisted(mem))
    ensures SavedAs(w', mem)
  {
    SavedRoundTrip(mem);
    var p := w'.disk.value;
    assert OnDisk(w') == Some(Parse(p).value);
  }

  lemma SavedFilesKnow(w: World, mem: StoreState, e: Entry)
    requires Known(w) && Covers(w, mem) && e in Entries(w) && Overwritten(w, e.identity.deviceId)
    ensures e.identity.deviceId in mem.devices || e.identity.certPem != ""
  {
  }

  lemma SaveKeeps(w: World, mem: StoreState, w': World)
    requires Known(w) && StoreKnows(w, mem) && Covers(w, mem)
    requires w' == w.(disk := Some(ToPersisted(mem)), op := w'.op)
    ensures Known(w') && StoreKnows(w', mem) && Covers(w', mem) && SavedAs(w', mem)
  {
    SavedDisk(mem, w');
    assert Entries(w') == Entries(w);
    assert forall id :: Overwritten(w', id) <==> Overwritten(w, id);
    forall e | e in Entries(w') && Overwritten(w', e.identity.deviceId)
      ensures e.identity.deviceId in mem.devices || e.identity.certPem != ""
    {
      SavedFilesKnow(w, mem, e);
    }
  }

  /** Writing a file about a device the disk holds, or one that shows its certificate, hides nothing. */
  lemma FileKeeps(w: World, path: Path, identity: Identity, w': World)
    requires Known(w) && OnDisk(w).Some?
    requires identity.deviceId in OnDisk(w).value.devices || identity.certPem != ""
    requires w' == w.(files := w.files[path := identity], op := w'.op)
    ensures Known(w')
    ensures forall mem :: StoreKnows(w, mem) ==> StoreKnows(w', mem)
    ensures forall mem :: Covers(w, mem) ==> Covers(w', mem)
    ensures forall mem :: SavedAs(w, mem) ==> SavedAs(w', mem)
  {
    forall e | e in Entries(w') && Overwritten(w', e.identity.deviceId)
      ensures e.identity.deviceId in OnDisk(w').value.devices || e.identity.certPem != ""
    {
      EntriesMembers(w', e);
      EntriesMembers(w, e);
      assert Overwritten(w, e.identity.deviceId);
    }
  }

  lemma RecordKeeps(w: World, mem: StoreState, slot: Slot, identity: Identity, now: nat)
    requires StoreKnows(w, mem) && Covers(w, mem)
    requires identity.certPem != "" || !Overwritten(w, identity.deviceId)
    ensures StoreKnows(w, Recorded(mem, slot, identity, now)) && Covers(w, Recorded(mem, slot, identity, now))
  {
  }

  /** A WireGuard slot never offers a device whose key the registrar replaced, or may yet replace. */
  lemma WireguardOfferIsSound(w: World, mem: StoreState, slot: Slot)
    requires StoreKnows(w, mem) && FamilyOf(slot) == Family.Wireguard && TakeUsable(mem, slot).Some?
    ensures !Overwritten(w, TakeUsable(mem, slot).value.0)
  {
  }

  lemma BeginStep(w: World, slot: Slot, w': World)
    requires Inv(w) && Loads(w, Begin(slot), w')
    ensures Inv(w')
  {
    hide Repaired, Reconciled, Loaded;
    LoadKnows(w);
    SameRecordsKeep(w, w');
    if !Rewrites(w) {
      UnchangedLoad(w);
    }
  }

  lemma UnchangedLoad(w: World)
    requires !Rewrites(w)
    ensures OnDisk(w) == Some(LoadNow(w))
  {
    AdoptedNothing(OnDisk(w).value);
    RepairKeepsSound(OnDisk(w).value);
  }

  lemma LoadStep(w: World, a: LoadAction, w': World)
    requires Inv(w) && Loads(w, a, w')
    ensures Inv(w')
  {
    if a.Begin? {
      BeginStep(w, a.slot, w');
    } else if w.op.rewrite {
      SaveKeeps(w, w.op.mem, w');
    } else {
      SameRecordsKeep(w, w');
    }
  }

  lemma ChoiceStep(w: World, a: ChoiceAction, w': World)
    requires Inv(w) && Chooses(w, a, w') && (a.Resume? ==> a.now > 0)
    ensures Inv(w')
  {
    SameRecordsKeep(w, w');
    if a.Reuse? {
      if FamilyOf(w.op.slot) == Family.Wireguard {
        WireguardOfferIsSound(w, w.op.mem, w.op.slot);
      }
      RecordKeeps(w, w.op.mem, w.op.slot, w'.op.identity, a.now);
    }
  }

  lemma ProvisionStep(w: World, a: ProvisionAction, w': World)
    requires Inv(w) && Provisions(w, a, w')
    ensures Inv(w')
  {
    match a {
      case OnHold(_) => SameRecordsKeep(w, w');
      case Register(_, _, _) => SameRecordsKeep(w, w');
      case RegisterFails(now, reason, retryAfter) =>
        SaveKeeps(w, w.op.mem.(registration := Failed(w.op.mem.registration, now, reason, retryAfter)), w');
      case RecordNew(now) =>
        SameRecordsKeep(w, w');
        RecordKeeps(w, w.op.mem, w.op.slot, w'.op.identity, now);
    }
  }

  lemma RecordStep(w: World, a: RecordAction, w': World)
    requires Inv(w) && Records(w, a, w') && (a.SaveFileThenMark? ==> a.now > 0)
    ensures Inv(w')
  {
    match a {
      case SaveStore => SaveKeeps(w, w.op.mem, w');
      case SaveFile =>
        FileKeeps(w, w.layout.At(w.op.slot), w.op.identity.(refused := false), w');
      case SaveFileThenRecord(profile, refused, now) =>
        FileKeeps(w, w.layout.At(w.op.slot), w.op.identity.(refused := false), w');
        RecordKeeps(w', w.op.mem, w.op.slot, w'.op.identity, now);
      case SaveFileThenMark(now) =>
        FileKeeps(w, w.layout.At(w.op.slot), w.op.identity.(refused := false), w');
    }
  }

  /** The marker reaches the disk before the request leaves, so the request surprises no one. */
  lemma SendStep(w: World, w': World)
    requires Inv(w) && Enrols(w, SendPatch, w')
    ensures Inv(w')
  {
    var id := w.op.identity.deviceId;
    forall x | Overwritten(w', x)
      ensures Overwritten(w, x) || x == id
    {
    }
    assert Entries(w') == Entries(w) && OnDisk(w') == OnDisk(w);
    forall e | e in Entries(w') && Overwritten(w', e.identity.deviceId)
      ensures e.identity.deviceId in OnDisk(w').value.devices || e.identity.certPem != ""
    {
      assert e.identity.deviceId == id || Overwritten(w, e.identity.deviceId);
    }
  }

  lemma EnrolStep(w: World, a: EnrolAction, w': World)
    requires Inv(w) && Enrols(w, a, w')
    ensures Inv(w')
  {
    match a {
      case SaveMarker => SaveKeeps(w, w.op.mem, w');
      case SendPatch => SendStep(w, w');
      case Answered(_, _, _, _, _, now) =>
        SameRecordsKeep(w, w');
        RecordKeeps(w, w.op.mem, w.op.slot, w'.op.identity, now);
      case KeepCertificate(_, _, now) =>
        SameRecordsKeep(w, w');
        RecordKeeps(w, w.op.mem, w.op.slot, w'.op.identity, now);
      case AnnotateFile(path) => FileKeeps(w, path, w'.files[path], w');
      case EnrolRefused(_, _) => SameRecordsKeep(w, w');
      case EnrolFails => SameRecordsKeep(w, w');
      case AnnotateDone => SameRecordsKeep(w, w');
    }
  }

  lemma StepKeepsInv(w: World, a: Action, w': World)
    requires Inv(w) && Acts(w, a, w') && ClockSet(a)
    ensures Inv(w')
  {
    hide Loads, Chooses, Provisions, Records, Enrols;
    match a {
      case Crash => SameRecordsKeep(w, w');
      case ServerApplies(_) => SameRecordsKeep(w, w');
      case Load(load) => LoadStep(w, load, w');
      case Choose(choice) => ChoiceStep(w, choice, w');
      case Provision(provision) => ProvisionStep(w, provision, w');
      case Record(record) => RecordStep(w, record, w');
      case Enrolment(enrol) => EnrolStep(w, enrol, w');
    }
  }

  // ---------------------------------------------------------------- every run

  /** A start: no operation, no request outstanding, and a disk that knows what the registrar holds. */
  ghost predicate Start(w: World) {
    w.op.Idle? && w.inflight == {} && Known(w)
  }

  /** A sequence of actions whose clocks may be unset. */
  ghost predicate Follows(worlds: seq<World>, actions: seq<Action>) {
    && |worlds| == |actions| + 1
    && forall i :: 0 <= i < |actions| ==> Acts(worlds[i], actions[i], worlds[i + 1])
  }

  ghost predicate ClocksSet(actions: seq<Action>) {
    forall i :: 0 <= i < |actions| ==> ClockSet(actions[i])
  }

  ghost predicate IsRun(worlds: seq<World>, actions: seq<Action>) {
    Follows(worlds, actions) && Start(worlds[0]) && ClocksSet(actions)
  }

  lemma {:induction false} RunKeepsInv(worlds: seq<World>, actions: seq<Action>, i: nat)
    requires IsRun(worlds, actions) && i < |worlds|
    ensures Inv(worlds[i])
  {
    if i > 0 {
      RunKeepsInv(worlds, actions, i - 1);
      StepKeepsInv(worlds[i - 1], actions[i - 1], worlds[i]);
    }
  }

  /**
   In every run, at every point, every stored device whose key the registrar replaced or may yet
   replace is marked; so neither the operation in flight nor a load after a crash at that very
   point offers such a device to a WireGuard slot.
   */
  lemma CrashSafeEnrolment(worlds: seq<World>, actions: seq<Action>, i: nat)
    requires IsRun(worlds, actions) && i < |worlds|
    ensures var w := worlds[i];
            && (OnDisk(w).Some? ==> StoreKnows(w, OnDisk(w).value))
            && (!w.op.Idle? ==> StoreKnows(w, w.op.mem))
            && (forall slot :: FamilyOf(slot) == Family.Wireguard && TakeUsable(LoadNow(w), slot).Some? ==>
                  !Overwritten(w, TakeUsable(LoadNow(w), slot).value.0))
            && (!w.op.Idle? ==>
                  forall slot :: FamilyOf(slot) == Family.Wireguard && TakeUsable(w.op.mem, slot).Some? ==>
                    !Overwritten(w, TakeUsable(w.op.mem, slot).value.0))
  {
    RunKeepsInv(worlds, actions, i);
    LoadKnows(worlds[i]);
  }

  /** An install with no store and no files is a start, whatever the registrar holds for others. */
  lemma FreshInstallStarts(layout: Layout, server: map<DeviceId, TunnelType>)
    ensures Start(World(layout, server, {}, None, map[], Idle))
  {
    var w := World(layout, server, {}, None, map[], Idle);
    forall e: Entry { EntriesMembers(w, e); }
  }

  /** Setting a marker marks a device exactly when the clock is set or the device was marked already. */
  lemma MarkerNeedsClock(mem: StoreState, id: DeviceId, now: nat)
    requires id in mem.devices
    ensures Marked(WithMarker(mem, id, now).devices[id]) <==>
              now != 0 || mem.devices[id].tunnelType == TunnelType.Masque
    ensures WithMarker(mem, id, now).devices.Keys == mem.devices.Keys
  {
  }

  // ---------------------------------------------------------------- the clock assumption is needed

  lemma EmptyLoad(w: World)
    requires w.disk.None? && w.files == map[]
    ensures LoadNow(w) == EMPTY && Rewrites(w)
  {
    EntriesShape(w);
    assert Entries(w) == [];
    assert Migrated([]) == EMPTY;
    assert Repaired(EMPTY).slots == map[];
  }

  /** A fresh install asks for an account for a slot. */
  lemma ReachProvisioning(layout: Layout, slot: Slot) returns (worlds: seq<World>, actions: seq<Action>)
    ensures Follows(worlds, actions) && ClocksSet(actions)
    ensures Start(worlds[0]) && worlds[0] == World(layout, map[], {}, None, map[], Idle)
    ensures worlds[|actions|] == World(layout, map[], {}, Some(ToPersisted(EMPTY)), map[], Provisioning(slot, EMPTY))
  {
    hide ToPersisted, Known, RepairReport;
    var w0 := World(layout, map[], {}, None, map[], Idle);
    FreshInstallStarts(layout, map[]);
    EmptyLoad(w0);
    var w1 := w0.(op := Loading(slot, EMPTY, true));
    var w2 := w1.(disk := Some(ToPersisted(EMPTY)), op := Ready(slot, EMPTY));
    var w3 := w2.(op := Provisioning(slot, EMPTY));
    assert Loads(w0, Begin(slot), w1);
    assert Chooses(w2, NeedAccount({}), w3);
    worlds, actions := [w0, w1, w2, w3], [Load(Begin(slot)), Load(SaveLoaded), Choose(NeedAccount({}))];
  }

  /** The identity and the store in memory once a fresh install has registered its first device. */
  function FirstIdentity(id: DeviceId, profile: Profile): Identity {
    Identity(id, profile, "", "", 0, false)
  }

  const REGISTERED_STORE: StoreState := EMPTY.(registration := Succeeded(1))

  lemma ReachRegistered(w0: World, id: DeviceId, profile: Profile) returns (worlds: seq<World>, actions: seq<Action>)
    requires w0.op.Provisioning? && w0.op.mem == EMPTY && w0.disk == Some(ToPersisted(EMPTY)) && id != ""
    requires w0.server == map[] && w0.inflight == {} && w0.files == map[]
    ensures Follows(worlds, actions) && ClocksSet(actions) && worlds[0] == w0
    ensures worlds[|actions|] ==
              w0.(server := map[id := TunnelType.Wireguard],
                  op := Registered(w0.op.slot, REGISTERED_STORE, FirstIdentity(id, profile)))
  {
    var w1 := w0.(server := map[id := TunnelType.Wireguard],
                  op := Registered(w0.op.slot, REGISTERED_STORE, FirstIdentity(id, profile)));
    SavedDisk(EMPTY, w0);
    assert NewId(w0, id);
    assert Provisions(w0, Register(id, profile, 1), w1);
    worlds, actions := [w0, w1], [Provision(Register(id, profile, 1))];
  }

  /** From a registration to a request about to leave, the marker's clock reading `clock`. */
  lemma ReachAsking(w0: World, clock: nat) returns (worlds: seq<World>, actions: seq<Action>)
    requires w0.op.Registered? && FamilyOf(w0.op.slot) == Family.Masque && !w0.op.identity.refused
    ensures Follows(worlds, actions) && worlds[0] == w0 && (clock > 0 ==> ClocksSet(actions))
    ensures var mem := Recorded(w0.op.mem, w0.op.slot, w0.op.identity, 1);
            var marked := WithMarker(mem, w0.op.identity.deviceId, clock);
            worlds[|actions|] ==
              w0.(disk := Some(ToPersisted(marked)), files := w0.files[w0.layout.At(w0.op.slot) := w0.op.identity],
                  op := Asking(w0.op.slot, marked, w0.op.identity, false))
  {
    hide ToPersisted, Recorded, WithMarker;
    var slot, identity := w0.op.slot, w0.op.identity;
    var mem := Recorded(w0.op.mem, slot, identity, 1);
    var marked := WithMarker(mem, identity.deviceId, clock);
    var w1 := w0.(op := Recording(slot, mem, identity, Enrol));
    var w2 := w1.(disk := Some(ToPersisted(mem)), op := Filing(slot, mem, identity, Enrol));
    var w3 := Filed(w2).(op := Marking(slot, marked, identity, false));
    var w4 := w3.(disk := Some(ToPersisted(marked)), op := Asking(slot, marked, identity, false));
    worlds := [w0, w1, w2, w3, w4];
    actions := [Provision(RecordNew(1)), Record(SaveStore), Record(SaveFileThenMark(clock)), Enrolment(SaveMarker)];
  }

  /** The request leaves, the registrar applies it, and the process dies before the answer. */
  lemma ReachCrash(w0: World) returns (worlds: seq<World>, actions: seq<Action>)
    requires w0.op.Asking?
    ensures Follows(worlds, actions) && ClocksSet(actions) && worlds[0] == w0
    ensures var id := w0.op.identity.deviceId;
            worlds[|actions|] ==
              w0.(inflight := w0.inflight + {id}, server := w0.server[id := TunnelType.Masque], op := Idle)
  {
    var id := w0.op.identity.deviceId;
    var w1 := w0.(inflight := w0.inflight + {id});
    var w2 := w1.(server := w1.server[id := TunnelType.Masque]);
    worlds, actions := [w0, w1, w2, w2.(op := Idle)], [Enrolment(SendPatch), ServerApplies(id), Crash];
  }

  lemma JoinRuns(worlds: seq<World>, actions: seq<Action>, more: seq<World>, after: seq<Action>)
    requires Follows(worlds, actions) && Follows(more, after) && worlds[|actions|] == more[0]
    ensures Follows(worlds + more[1..], actions + after)
    ensures (worlds + more[1..])[|actions + after|] == more[|after|] && (worlds + more[1..])[0] == worlds[0]
    ensures ClocksSet(actions) && ClocksSet(after) ==> ClocksSet(actions + after)
  {
    var all, acts := worlds + more[1..], actions + after;
    forall i | 0 <= i < |acts|
      ensures Acts(all[i], acts[i], all[i + 1])
    {
      if i >= |actions| {
        assert all[i] == more[i - |actions|] && all[i + 1] == more[i + 1 - |actions|];
      }
    }
  }

  /** After the crash the disk holds the one device as marking left it. */
  lemma CrashedDisk(w: World, identity: Identity, marked: StoreState)
    requires w.disk == Some(ToPersisted(marked)) && w.op.Idle? && w.files.Values <= {identity}
    requires marked.devices.Keys == {identity.deviceId} && w.inflight == {identity.deviceId}
    ensures Known(w) <==> Marked(marked.devices[identity.deviceId])
  {
    hide ToPersisted, Entries, Marked;
    SavedDisk(marked, w);
    forall e | e in Entries(w)
      ensures e.identity.deviceId == identity.deviceId
    {
      EntriesMembers(w, e);
      assert e.identity in w.files.Values;
    }
  }

  /** The store in memory once the first device is recorded in a slot and marked at `clock`. */
  function FirstMarked(slot: Slot, id: DeviceId, profile: Profile, clock: nat): StoreState {
    WithMarker(Recorded(REGISTERED_STORE, slot, FirstIdentity(id, profile), 1), id, clock)
  }

  /** A fresh install, up to the request that is about to leave for its first MASQUE device. */
  lemma ReachFirstRequest(layout: Layout, slot: Slot, profile: Profile, id: DeviceId, clock: nat)
    returns (worlds: seq<World>, actions: seq<Action>)
    requires id != "" && FamilyOf(slot) == Family.Masque
    ensures Follows(worlds, actions) && Start(worlds[0]) && (clock > 0 ==> ClocksSet(actions))
    ensures worlds[0] == World(layout, map[], {}, None, map[], Idle)
    ensures var identity, marked := FirstIdentity(id, profile), FirstMarked(slot, id, profile, clock);
            worlds[|actions|] ==
              World(layout, map[id := TunnelType.Wireguard], {}, Some(ToPersisted(marked)),
                    map[layout.At(slot) := identity], Asking(slot, marked, identity, false))
  {
    hide Acts, WithMarker, Recorded, ToPersisted, Start, ClockSet;
    worlds, actions := ReachProvisioning(layout, slot);
    var more, after := ReachRegistered(worlds[|actions|], id, profile);
    JoinRuns(worlds, actions, more, after);
    worlds, actions := worlds + more[1..], actions + after;
    more, after := ReachAsking(worlds[|actions|], clock);
    JoinRuns(worlds, actions, more, after);
    worlds, actions := worlds + more[1..], actions + after;
  }

  /**
   One run of a fresh install, up to a request that lands just before a crash: the disk knows of the
   enrolment exactly when the clock behind the marker was set.
   */
  lemma ClockDecides(layout: Layout, profile: Profile, id: DeviceId, clock: nat)
    returns (worlds: seq<World>, actions: seq<Action>)
    requires id != ""
    ensures Follows(worlds, actions) && Start(worlds[0])
    ensures Enrolled(worlds[|actions|], id) && worlds[|actions|].op.Idle?
    ensures Known(worlds[|actions|]) <==> clock > 0
  {
    hide Acts, WithMarker, Recorded, ToPersisted, Known;
    var identity := FirstIdentity(id, profile);
    worlds, actions := ReachFirstRequest(layout, Slot.Masque, profile, id, clock);
    var more, after := ReachCrash(worlds[|actions|]);
    JoinRuns(worlds, actions, more, after);
    worlds, actions := worlds + more[1..], actions + after;
    FirstMarkedIff(Slot.Masque, id, profile, clock);
    CrashedDisk(worlds[|actions|], identity, FirstMarked(Slot.Masque, id, profile, clock));
  }

  lemma FirstMarkedIff(slot: Slot, id: DeviceId, profile: Profile, clock: nat)
    ensures FirstMarked(slot, id, profile, clock).devices.Keys == {id}
    ensures FirstMarked(slot, id, profile, clock).devices[id].tunnelType == TunnelType.Wireguard
    ensures Marked(FirstMarked(slot, id, profile, clock).devices[id]) <==> clock > 0
  {
    var mem := Recorded(REGISTERED_STORE, slot, FirstIdentity(id, profile), 1);
    MarkerNeedsClock(mem, id, clock);
  }
}
