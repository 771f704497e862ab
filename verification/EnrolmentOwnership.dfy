/** No request to replace a device's key is ever outstanding for a device a WireGuard slot names. */
module EnrolmentOwnership {
  import opened Wrappers
  import opened Registration
  import opened IdentityStore
  import opened IdentityLaws
  import opened Enrolment
  import opened EnrolmentSafety

  /** No WireGuard slot keeps its identity file where a MASQUE slot keeps its own. */
  ghost predicate FamiliesApart(layout: Layout) {
    forall a: Slot, b: Slot :: layout.At(a) == layout.At(b) ==> FamilyOf(a) == FamilyOf(b)
  }

  ghost predicate WireguardFree(s: StoreState, id: DeviceId) {
    forall slot :: slot in s.slots && FamilyOf(slot) == Family.Wireguard ==> s.slots[slot] != id
  }

  predicate IsMasque(s: StoreState, id: DeviceId) {
    id in s.devices && s.devices[id].tunnelType == TunnelType.Masque
  }

  /** A device with a request outstanding is stored, in no WireGuard slot, and no file can put it back in one. */
  ghost predicate DiskApart(w: World) {
    forall id :: id in w.inflight ==>
      && OnDisk(w).Some? && id in OnDisk(w).value.devices && WireguardFree(OnDisk(w).value, id)
      && forall e :: e in Entries(w) && FamilyOf(e.slot) == Family.Wireguard && e.Names(id) ==>
          IsMasque(OnDisk(w).value, id)
  }

  ghost predicate MemApart(w: World, mem: StoreState) {
    forall id :: id in w.inflight ==>
      && id in mem.devices && WireguardFree(mem, id)
      && (OnDisk(w).Some? && IsMasque(OnDisk(w).value, id) ==> IsMasque(mem, id))
  }

  ghost predicate Separate(mem: StoreState) {
    forall a, b :: a in mem.slots && b in mem.slots && FamilyOf(a) != FamilyOf(b) ==> mem.slots[a] != mem.slots[b]
  }

  /** A WireGuard file's device is in its slot, or is not stored, or is known to be enrolled. */
  ghost predicate Listed(w: World, mem: StoreState) {
    forall e :: e in Entries(w) && FamilyOf(e.slot) == Family.Wireguard ==>
      Held(mem, e) || e.identity.deviceId !in mem.devices || IsMasque(mem, e.identity.deviceId)
  }

  ghost predicate StageApart(w: World) {
    match w.op
    case Idle => true
    case Loading(slot, mem, _) => MasqueListed(w, slot, mem)
    case Ready(slot, mem) => MasqueListed(w, slot, mem)
    case Provisioning(slot, mem) => MasqueListed(w, slot, mem)
    case Registered(slot, mem, identity) =>
      && MasqueListed(w, slot, mem)
      && identity.deviceId !in w.inflight && WireguardFree(mem, identity.deviceId)
      && identity.deviceId !in mem.slots.Values && identity.deviceId !in Ids(Entries(w))
    case Recording(slot, mem, identity, after) => RecordApart(w, slot, mem, identity, after)
    case Filing(slot, mem, identity, after) => RecordApart(w, slot, mem, identity, after)
    case Marking(slot, mem, identity, _) => AskApart(w, slot, mem, identity)
    case Asking(slot, mem, identity, _) => AskApart(w, slot, mem, identity)
    case Annotating(slot, mem, _) => FamilyOf(slot) == Family.Masque
  }

  ghost predicate MasqueListed(w: World, slot: Slot, mem: StoreState) {
    FamilyOf(slot) == Family.Masque ==> Listed(w, mem)
  }

  ghost predicate RecordApart(w: World, slot: Slot, mem: StoreState, identity: Identity, after: After) {
    && MasqueListed(w, slot, mem)
    && slot in mem.slots && mem.slots[slot] == identity.deviceId
    && (FamilyOf(slot) == Family.Wireguard <== after.RecordAgain?)
    && (FamilyOf(slot) == Family.Masque <== after.Enrol? || after.Annotate?)
    && (FamilyOf(slot) == Family.Wireguard ==> identity.deviceId !in w.inflight)
  }

  ghost predicate AskApart(w: World, slot: Slot, mem: StoreState, identity: Identity) {
    FamilyOf(slot) == Family.Masque && Listed(w, mem) && slot in mem.slots && mem.slots[slot] == identity.deviceId
  }

  ghost predicate Apart(w: World) {
    && FamiliesApart(w.layout)
    && DiskApart(w)
    && StageApart(w)
    && (!w.op.Idle? ==> MemApart(w, w.op.mem) && Separate(w.op.mem))
  }

  /** Every file's slot holds its device until repair, which drops a WireGuard slot only for cause. */
  lemma LoadLists(w: World)
    ensures Separate(LoadNow(w)) && Listed(w, LoadNow(w))
  {
    hide Readable, Parse, Adopted, News;
    var entries := Entries(w);
    OneEntryPerSlot(w);
    var raw := match OnDisk(w) case None => Migrated(entries) case Some(s) => Reconciled(s, entries);
    RepairedIsSound(raw);
    forall e | e in entries
      ensures e.slot in raw.slots && e.Names(raw.slots[e.slot])
    {
      SlotMapUnique(entries, e);
      if OnDisk(w).Some? { ReconciledSlots(OnDisk(w).value, entries); }
    }
  }

  /** What a load hands out keeps outstanding requests away from WireGuard slots. */
  lemma LoadApart(w: World)
    requires DiskApart(w)
    ensures MemApart(w, LoadNow(w)) && Separate(LoadNow(w)) && Listed(w, LoadNow(w))
  {
    hide LoadNow, Listed, Separate, Readable;
    LoadLists(w);
    var mem := LoadNow(w);
    forall id | id in w.inflight
      ensures id in mem.devices && WireguardFree(mem, id)
      ensures IsMasque(OnDisk(w).value, id) ==> IsMasque(mem, id)
    {
      LoadApartFrom(w, id);
    }
  }

  lemma LoadApartFrom(w: World, id: DeviceId)
    requires DiskApart(w) && id in w.inflight
    ensures id in LoadNow(w).devices && WireguardFree(LoadNow(w), id)
    ensures IsMasque(OnDisk(w).value, id) ==> IsMasque(LoadNow(w), id)
  {
    var s, entries := OnDisk(w).value, Entries(w);
    var raw := Reconciled(s, entries);
    OneEntryPerSlot(w);
    ReconciledSlots(s, entries);
    ReconcileKnowledge(s, entries, id);
    forall slot | slot in Repaired(raw).slots && FamilyOf(slot) == Family.Wireguard
      ensures raw.slots[slot] != id
    {
      SlotMapMembers(entries, slot);
    }
  }

  /** A store in memory that keeps clear of every outstanding request. */
  ghost predicate Clear(w: World, slot: Slot, mem: StoreState) {
    MemApart(w, mem) && Separate(mem) && MasqueListed(w, slot, mem)
  }

  lemma RecordKeepsListed(w: World, mem: StoreState, slot: Slot, identity: Identity, now: nat)
    requires Listed(w, mem) && FamilyOf(slot) == Family.Masque
    requires identity.certPem != "" || identity.deviceId !in Ids(Entries(w))
    ensures Listed(w, Recorded(mem, slot, identity, now))
  {
    hide OnDisk, Entries;
    forall e | e in Entries(w) && FamilyOf(e.slot) == Family.Wireguard
      ensures var now' := Recorded(mem, slot, identity, now);
              Held(now', e) || e.identity.deviceId !in now'.devices || IsMasque(now', e.identity.deviceId)
    {
      assert e.identity.deviceId in Ids(Entries(w));
    }
  }

  lemma RecordKeepsApart(w: World, mem: StoreState, slot: Slot, identity: Identity, now: nat)
    requires Clear(w, slot, mem)
    requires (slot in mem.slots && mem.slots[slot] == identity.deviceId)
             || (identity.deviceId !in mem.slots.Values && identity.deviceId !in Ids(Entries(w)))
    requires identity.certPem != "" || identity.deviceId !in w.inflight
    requires FamilyOf(slot) == Family.Wireguard ==> identity.deviceId !in w.inflight
    requires FamilyOf(slot) == Family.Masque ==> identity.certPem != "" || identity.deviceId !in Ids(Entries(w))
    ensures Clear(w, slot, Recorded(mem, slot, identity, now))
    ensures Recorded(mem, slot, identity, now).slots == mem.slots[slot := identity.deviceId]
  {
    hide OnDisk, Entries, Listed;
    assert forall other :: other in mem.slots ==> mem.slots[other] in mem.slots.Values;
    if FamilyOf(slot) == Family.Masque {
      RecordKeepsListed(w, mem, slot, identity, now);
    }
  }

  /** A marker, a refusal or a change of budget moves no slot and forgets no enrolment. */
  lemma NotesKeepApart(w: World, slot: Slot, mem: StoreState, id: DeviceId, now: nat, budget: BudgetState)
    requires Clear(w, slot, mem)
    ensures Clear(w, slot, WithMarker(mem, id, now)) && WithMarker(mem, id, now).slots == mem.slots
    ensures Clear(w, slot, WithRefusal(mem, id, now)) && WithRefusal(mem, id, now).slots == mem.slots
    ensures Clear(w, slot, mem.(registration := budget))
  {
    hide Readable, OnDisk;
  }

  /** Worlds with the same records and the same requests outstanding are equally clear of them. */
  lemma SameApart(w: World, w': World, slot: Slot, mem: StoreState)
    requires w'.layout == w.layout && w'.disk == w.disk && w'.files == w.files && w'.inflight == w.inflight
    ensures DiskApart(w') <==> DiskApart(w)
    ensures Clear(w', slot, mem) <==> Clear(w, slot, mem)
    ensures Entries(w') == Entries(w) && OnDisk(w') == OnDisk(w)
  {
    hide Readable, Parse;
    assert Entries(w') == Entries(w) && OnDisk(w') == OnDisk(w);
  }

  // ---------------------------------------------------------------- one step

  /** Files written under an operation's own slot leave the other family's files alone. */
  lemma FiledEntries(w: World, e: Entry)
    requires w.op.Filing? && FamiliesApart(w.layout)
    ensures e in Entries(Filed(w)) <==>
              if w.layout.At(e.slot) == w.layout.At(w.op.slot) then e.identity == w.op.identity.(refused := false)
                  else e in Entries(w)
  {
    EntriesMembers(w, e);
    EntriesMembers(Filed(w), e);
  }

  lemma FiledKeepsApart(w: World)
    requires FamiliesApart(w.layout) && DiskApart(w) && w.op.Filing? && Clear(w, w.op.slot, w.op.mem)
    requires FamilyOf(w.op.slot) == Family.Wireguard ==> w.op.identity.deviceId !in w.inflight
    ensures DiskApart(Filed(w)) && Clear(Filed(w), w.op.slot, w.op.mem)
  {
    hide Entries;
    var w' := Filed(w);
    forall e: Entry { FiledEntries(w, e); }
    assert OnDisk(w') == OnDisk(w);
  }

  /** Saving the store in memory keeps outstanding requests away from the disk's WireGuard slots. */
  lemma SaveKeepsApart(w: World, slot: Slot, mem: StoreState, w': World)
    requires DiskApart(w) && Clear(w, slot, mem) && w'.disk == Some(ToPersisted(mem))
    requires w'.inflight == w.inflight && w'.files == w.files && w'.layout == w.layout
    ensures DiskApart(w') && Clear(w', slot, mem)
  {
    hide Readable, Parse, ToPersisted;
    SavedDisk(mem, w');
    assert Entries(w') == Entries(w);
  }

  lemma AnnotatedKeepsApart(w: World, path: Path, w': World)
    requires Apart(w) && Enrols(w, AnnotateFile(path), w')
    ensures Apart(w')
  {
    assert OnDisk(w') == OnDisk(w);
    forall id, e | id in w'.inflight && e in Entries(w') && FamilyOf(e.slot) == Family.Wireguard && e.Names(id)
      ensures IsMasque(OnDisk(w').value, id)
    {
      EntriesMembers(w', e);
      var before := Entry(e.slot, w.files[w.layout.At(e.slot)]);
      EntriesMembers(w, before);
      assert before in Entries(w) && before.Names(id);
    }
  }

  /** A request leaves only for a device no WireGuard slot names and none can come to name. */
  lemma SendKeepsApart(w: World, w': World)
    requires Inv(w) && Apart(w) && Enrols(w, SendPatch, w')
    ensures Apart(w')
    ensures WireguardFree(OnDisk(w).value, w.op.identity.deviceId) && WireguardFree(w.op.mem, w.op.identity.deviceId)
  {
    var id, mem := w.op.identity.deviceId, w.op.mem;
    assert OnDisk(w') == OnDisk(w) && Entries(w') == Entries(w);
    assert WireguardFree(mem, id);
    forall e | e in Entries(w) && FamilyOf(e.slot) == Family.Wireguard && e.Names(id)
      ensures IsMasque(mem, id)
    {
      assert !Held(mem, e);
    }
  }

  lemma NewIdIsNowhere(w: World, id: DeviceId)
    requires NewId(w, id) && w.op.Provisioning?
    ensures id !in w.inflight && WireguardFree(w.op.mem, id) && id !in w.op.mem.slots.Values && id !in Ids(Entries(w))
  {
    forall e: Entry { EntriesMembers(w, e); }
    assert forall slot :: slot in w.op.mem.slots ==> w.op.mem.slots[slot] in w.op.mem.slots.Values;
  }

  lemma LoadStepApart(w: World, a: LoadAction, w': World)
    requires Apart(w) && Loads(w, a, w') && (a.SaveLoaded? && !w.op.rewrite ==> w.disk.Some?)
    ensures Apart(w')
  {
    hide DiskApart, MemApart, Separate, Listed, Rewrites, LoadNow, Entries, ToPersisted;
    match a {
      case Begin(slot) =>
        LoadApart(w);
        SameApart(w, w', slot, LoadNow(w));
      case SaveLoaded =>
        if w.op.rewrite {
          SaveKeepsApart(w, w.op.slot, w.op.mem, w');
        } else {
          SameApart(w, w', w.op.slot, w.op.mem);
        }
    }
  }

  lemma ReuseApart(w: World, seen: set<Path>, profile: Profile, refused: bool, now: nat, w': World)
    requires Inv(w) && Apart(w) && w.op.Ready? && Reuses(w, seen, profile, refused, now, w')
    ensures Apart(w')
  {
    hide DiskApart, MemApart, Separate, Listed, Entries, OnDisk, Recorded, EnrolledElsewhere;
    if FamilyOf(w.op.slot) == Family.Wireguard {
      WireguardOfferIsSound(w, w.op.mem, w.op.slot);
    }
    RecordKeepsApart(w, w.op.mem, w.op.slot, w'.op.identity, now);
    SameApart(w, w', w.op.slot, w'.op.mem);
  }

  lemma ChoiceStepApart(w: World, a: ChoiceAction, w': World)
    requires Inv(w) && Apart(w) && Chooses(w, a, w')
    ensures Apart(w')
  {
    hide DiskApart, MemApart, Separate, Listed, Entries, OnDisk, WithMarker, WithRefusal, EnrolledElsewhere, Inv,
        Reuses;
    var slot, mem := w.op.slot, w.op.mem;
    match a {
      case Reuse(seen, profile, refused, now) => ReuseApart(w, seen, profile, refused, now, w');
      case ReuseRefused(now, _) =>
        NotesKeepApart(w, slot, mem, TakeUsable(mem, slot).value.0, now, CLEAN);
        SameApart(w, w', slot, WithRefusal(mem, TakeUsable(mem, slot).value.0, now));
      case NeedAccount(_) => SameApart(w, w', slot, mem);
      case Resume(now) =>
        NotesKeepApart(w, slot, mem, TakeUsable(mem, slot).value.0, now, CLEAN);
        SameApart(w, w', slot, WithMarker(mem, TakeUsable(mem, slot).value.0, now));
    }
  }

  lemma ProvisionStepApart(w: World, a: ProvisionAction, w': World)
    requires Apart(w) && Provisions(w, a, w')
    ensures Apart(w')
  {
    hide DiskApart, MemApart, Separate, Listed, Entries, OnDisk, Recorded, ToPersisted, Failed, Succeeded, NewId;
    var slot, mem := w.op.slot, w.op.mem;
    match a {
      case OnHold(_) => SameApart(w, w', slot, mem);
      case Register(id, _, now) =>
        NewIdIsNowhere(w, id);
        NotesKeepApart(w, slot, mem, id, now, Succeeded(now));
        SameApart(w, w', slot, w'.op.mem);
      case RegisterFails(now, reason, retryAfter) =>
        var after := mem.(registration := Failed(mem.registration, now, reason, retryAfter));
        NotesKeepApart(w, slot, mem, "", now, after.registration);
        SaveKeepsApart(w, slot, after, w');
      case RecordNew(now) =>
        RecordKeepsApart(w, mem, slot, w.op.identity, now);
        SameApart(w, w', slot, w'.op.mem);
    }
  }

  lemma RecordStepApart(w: World, a: RecordAction, w': World)
    requires Apart(w) && Stage(w) && Records(w, a, w')
    ensures Apart(w')
  {
    hide DiskApart, MemApart, Separate, Listed, Entries, OnDisk, Recorded, ToPersisted, WithMarker, SavedAs, Filed;
    var slot, mem := w.op.slot, w.op.mem;
    if a.SaveStore? {
      SaveKeepsApart(w, slot, mem, w');
    } else {
      FiledKeepsApart(w);
      var filed := Filed(w);
      assert filed.layout == w.layout && filed.inflight == w.inflight by { FiledLeaves(w); }
      match a {
        case SaveFile => SameApart(filed, w', slot, mem);
        case SaveFileThenRecord(_, _, now) =>
          RecordKeepsApart(filed, mem, slot, w'.op.identity, now);
          SameApart(filed, w', slot, w'.op.mem);
        case SaveFileThenMark(now) =>
          NotesKeepApart(filed, slot, mem, w.op.identity.deviceId, now, CLEAN);
          SameApart(filed, w', slot, w'.op.mem);
      }
    }
  }

  lemma FiledLeaves(w: World)
    requires w.op.Filing?
    ensures Filed(w).layout == w.layout && Filed(w).inflight == w.inflight
  {
  }

  lemma EnrolStepApart(w: World, a: EnrolAction, w': World)
    requires Inv(w) && Apart(w) && Enrols(w, a, w')
    ensures Apart(w')
  {
    hide DiskApart, MemApart, Separate, Listed, Entries, OnDisk, Recorded, ToPersisted, WithRefusal, Inv;
    var slot, mem := w.op.slot, w.op.mem;
    match a {
      case SaveMarker => SaveKeepsApart(w, slot, mem, w');
      case SendPatch => SendKeepsApart(w, w');
      case Answered(_, _, _, _, _, now) =>
        RecordKeepsApart(w, mem, slot, w'.op.identity, now);
        SameApart(w, w', slot, w'.op.mem);
      case KeepCertificate(_, _, now) =>
        RecordKeepsApart(w, mem, slot, w'.op.identity, now);
        SameApart(w, w', slot, w'.op.mem);
      case AnnotateFile(path) => AnnotatedKeepsApart(w, path, w');
      case EnrolRefused(now, _) =>
        NotesKeepApart(w, slot, mem, w.op.identity.deviceId, now, CLEAN);
        SameApart(w, w', slot, WithRefusal(mem, w.op.identity.deviceId, now));
      case EnrolFails => SameApart(w, w', slot, mem);
      case AnnotateDone => SameApart(w, w', slot, mem);
    }
  }

  lemma StepKeepsApart(w: World, a: Action, w': World)
    requires Inv(w) && Apart(w) && Acts(w, a, w')
    ensures Apart(w')
  {
    hide Loads, Chooses, Provisions, Records, Enrols, DiskApart, Clear, Entries, OnDisk;
    match a {
      case Crash => SameApart(w, w', Slot.Masque, EMPTY);
      case ServerApplies(_) => ServedApart(w, w');
      case Load(load) => SavedLoad(w, load, w'); LoadStepApart(w, load, w');
      case Choose(choice) => ChoiceStepApart(w, choice, w');
      case Provision(provision) => ProvisionStepApart(w, provision, w');
      case Record(record) => RecordStepApart(w, record, w');
      case Enrolment(enrol) => EnrolStepApart(w, enrol, w');
    }
  }

  lemma SavedLoad(w: World, a: LoadAction, w': World)
    requires Inv(w) && Loads(w, a, w')
    ensures a.SaveLoaded? && !w.op.rewrite ==> w.disk.Some?
  {
  }

  lemma ServedApart(w: World, w': World)
    requires Apart(w) && w' == w.(server := w'.server)
    ensures Apart(w')
  {
    hide Readable, Parse;
    assert Entries(w') == Entries(w) && OnDisk(w') == OnDisk(w);
  }

  // ---------------------------------------------------------------- every run

  lemma {:induction false} RunKeepsApart(worlds: seq<World>, actions: seq<Action>, i: nat)
    requires IsRun(worlds, actions) && i < |worlds| && FamiliesApart(worlds[0].layout)
    ensures Apart(worlds[i])
  {
    if i > 0 {
      RunKeepsApart(worlds, actions, i - 1);
      RunKeepsInv(worlds, actions, i - 1);
      StepKeepsApart(worlds[i - 1], actions[i - 1], worlds[i]);
    }
  }

  /** No WireGuard slot names `id`: not on disk, not in memory, and not in the store a load would build now. */
  ghost predicate Spared(w: World, id: DeviceId) {
    && OnDisk(w).Some? && WireguardFree(OnDisk(w).value, id)
    && (!w.op.Idle? ==> WireguardFree(w.op.mem, id))
    && WireguardFree(LoadNow(w), id)
  }

  /**
   The registrar never replaces the key of a device a WireGuard slot names: whenever it applies a
   request, however late, the device is spared, provided the two families keep separate files.
   */
  lemma PatchSparesWireguard(worlds: seq<World>, actions: seq<Action>, i: nat, id: DeviceId)
    requires IsRun(worlds, actions) && i < |actions| && FamiliesApart(worlds[0].layout)
    requires actions[i] == ServerApplies(id)
    ensures Spared(worlds[i], id)
  {
    RunKeepsApart(worlds, actions, i);
    RunKeepsInv(worlds, actions, i);
    assert Acts(worlds[i], actions[i], worlds[i + 1]);
    LoadApartFrom(worlds[i], id);
  }

  // ---------------------------------------------------------------- separate files are needed

  /** A store naming one device that is not known to be enrolled, beside that device's file alone. */
  ghost predicate OnlyDevice(w: World, id: DeviceId, slot: Slot) {
    && OnDisk(w).Some? && OnDisk(w).value.devices.Keys == {id} && !IsMasque(OnDisk(w).value, id)
    && w.layout.At(slot) in w.files && w.files[w.layout.At(slot)].deviceId == id
    && forall path :: path in w.files ==> w.files[path].deviceId == id && w.files[path].certPem == ""
  }

  /** A WireGuard slot reading that file takes the device, and repair lets it keep it. */
  lemma LoadTakesFile(w: World, id: DeviceId, slot: Slot)
    requires OnlyDevice(w, id, slot) && FamilyOf(slot) == Family.Wireguard
    ensures slot in LoadNow(w).slots && LoadNow(w).slots[slot] == id
  {
    var entries, e := Entries(w), Entry(slot, w.files[w.layout.At(slot)]);
    var raw := Reconciled(OnDisk(w).value, entries);
    OneEntryPerSlot(w);
    EntriesMembers(w, e);
    ReconciledSlots(OnDisk(w).value, entries);
    SlotMapUnique(entries, e);
    forall f | f in entries ensures !f.Enrols(id) { EntriesMembers(w, f); }
    ReconcileKnowledge(OnDisk(w).value, entries, id);
    assert WireguardSurvives(raw, slot);
  }

  /**
   One run of a fresh install whose MASQUE slot shares its file with a WireGuard slot: when the registrar applies
   the enrolment, a load would put the very device into the WireGuard slot.
   */
  lemma SharedFileIsNotSpared(layout: Layout, shared: Slot, slot: Slot, profile: Profile, id: DeviceId)
    returns (worlds: seq<World>, actions: seq<Action>, i: nat)
    requires FamilyOf(shared) == Family.Wireguard && FamilyOf(slot) == Family.Masque
    requires layout.At(shared) == layout.At(slot) && id != ""
    ensures IsRun(worlds, actions) && worlds[0] == World(layout, map[], {}, None, map[], Idle)
    ensures i < |actions| && actions[i] == ServerApplies(id)
    ensures shared in LoadNow(worlds[i]).slots && LoadNow(worlds[i]).slots[shared] == id
    ensures !Spared(worlds[i], id)
  {
    hide Acts, Start, ClockSet, LoadNow, OnDisk, FirstMarked, ToPersisted;
    worlds, actions := ReachFirstRequest(layout, slot, profile, id, 1);
    var asking := worlds[|actions|];
    var more, after := ReachApplied(asking);
    i := |actions| + 1;
    JoinRuns(worlds, actions, more, after);
    worlds, actions := worlds + more[1..], actions + after;
    FirstDeviceOnly(worlds[i], shared, slot, profile, id);
    LoadTakesFile(worlds[i], id, shared);
  }

  /** The request leaves and the registrar applies it. */
  lemma ReachApplied(w0: World) returns (worlds: seq<World>, actions: seq<Action>)
    requires w0.op.Asking?
    ensures Follows(worlds, actions) && ClocksSet(actions) && worlds[0] == w0
    ensures |actions| == 2 && actions[1] == ServerApplies(w0.op.identity.deviceId)
    ensures worlds[1] == w0.(inflight := w0.inflight + {w0.op.identity.deviceId})
  {
    var id := w0.op.identity.deviceId;
    var w1 := w0.(inflight := w0.inflight + {id});
    worlds, actions := [w0, w1, w1.(server := w1.server[id := TunnelType.Masque])],
        [Enrolment(SendPatch), ServerApplies(id)];
  }

  lemma FirstDeviceOnly(w: World, shared: Slot, slot: Slot, profile: Profile, id: DeviceId)
    requires w.disk == Some(ToPersisted(FirstMarked(slot, id, profile, 1)))
    requires w.files == map[w.layout.At(slot) := FirstIdentity(id, profile)] && w.layout.At(shared) == w.layout.At(slot)
    ensures OnlyDevice(w, id, shared)
  {
    hide ToPersisted, FirstMarked, OnDisk, Start;
    SavedDisk(FirstMarked(slot, id, profile, 1), w);
    FirstMarkedIff(slot, id, profile, 1);
  }

  /** A run over `layout` in which step `i` is the registrar applying a request for `id`. */
  ghost predicate Applies(layout: Layout, worlds: seq<World>, actions: seq<Action>, i: nat, id: DeviceId) {
    IsRun(worlds, actions) && worlds[0].layout == layout && i < |actions| && actions[i] == ServerApplies(id)
  }

  /** Every run over `layout` spares the devices of its WireGuard slots. */
  ghost predicate SparesWireguard(layout: Layout) {
    forall worlds: seq<World>, actions: seq<Action>, i: nat, id: DeviceId ::
      Applies(layout, worlds, actions, i, id) ==> Spared(worlds[i], id)
  }

  /** Exactly the layouts that keep the families' files apart are safe in every run. */
  lemma PatchSparesWireguardIff(layout: Layout)
    ensures SparesWireguard(layout) <==> FamiliesApart(layout)
  {
    hide Spared, FamiliesApart, Start, Acts, ClockSet;
    if FamiliesApart(layout) {
      forall worlds: seq<World>, actions: seq<Action>, i: nat, id: DeviceId | Applies(layout, worlds, actions, i, id)
        ensures Spared(worlds[i], id)
      {
        PatchSparesWireguard(worlds, actions, i, id);
      }
    } else {
      var shared, slot := SharedPath(layout);
      var profile := Profile("", "", "", "", "", "", "", "", "");
      var worlds, actions, i := SharedFileIsNotSpared(layout, shared, slot, profile, "d");
      assert Applies(layout, worlds, actions, i, "d");
    }
  }

  lemma SharedPath(layout: Layout) returns (shared: Slot, slot: Slot)
    requires !FamiliesApart(layout)
    ensures FamilyOf(shared) == Family.Wireguard && FamilyOf(slot) == Family.Masque &&
        layout.At(shared) == layout.At(slot)
  {
    var a: Slot, b: Slot :| layout.At(a) == layout.At(b) && FamilyOf(a) != FamilyOf(b);
    shared, slot := if FamilyOf(a) == Family.Wireguard then a else b, if FamilyOf(a) == Family.Wireguard then b else a;
  }
}
