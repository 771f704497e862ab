/**
 The identity store: a record for each registered device, and which device fills each slot.

 `StoreState` is the store as a value. What repair, migration and reconciliation promise
 is stated on it as closed rules (`Repaired`, `Migrated`, `Reconciled`), none of which
 mentions the order a loop visits slots or files in. The class `Store` is the record the
 engine updates in place; its loops are proved to compute those rules.
 */
module IdentityStore {
  import opened Wrappers
  import opened Registration

  type DeviceId = string
  type Path = string

  /** Whose key the registrar keeps for a device, by this install's knowledge. */
  datatype TunnelType = Wireguard | Masque

  datatype Family = Wireguard | Masque

  datatype Slot = Wireguard | WireguardInner | Masque | MasqueInner

  const SLOTS: seq<Slot> := [Slot.Wireguard, Slot.WireguardInner, Slot.Masque, Slot.MasqueInner]

  function FamilyOf(slot: Slot): Family {
    match slot
    case Wireguard | WireguardInner => Family.Wireguard
    case Masque | MasqueInner => Family.Masque
  }

  function Key(slot: Slot): string {
    match slot
    case Wireguard => "wireguard"
    case WireguardInner => "wireguard_inner"
    case Masque => "masque"
    case MasqueInner => "masque_inner"
  }

  /** The part of a device that enrolment does not touch; its key texts are already encoded. */
  datatype Profile = Profile(
    accessToken: string, ipv4: string, ipv6: string,
    wgPrivateKey: string, wgPeerPublicKey: string, clientId: string,
    organization: string, gatewayProxy: string, assignedEndpoint: string)

  datatype Device = Device(
    profile: Profile,
    registeredAt: nat,
    tunnelType: TunnelType,
    enrolmentPendingSince: nat,
    certPem: string,
    keyPem: string,
    certIssuedAt: nat,
    refusedAt: nat)
  {
    predicate WireguardIsTrustworthy() {
      tunnelType == TunnelType.Wireguard && enrolmentPendingSince == 0 && refusedAt == 0
    }

    predicate HasCertificate() {
      certPem != "" && keyPem != ""
    }
  }

  /** An identity as the engine dials with it, and as an identity file holds it. */
  datatype Identity = Identity(
    deviceId: DeviceId,
    profile: Profile,
    certPem: string,
    keyPem: string,
    certIssuedAt: nat,
    refused: bool)

  function DeviceFrom(identity: Identity, registeredAt: nat): Device {
    Device(
      identity.profile, registeredAt,
      if identity.certPem == "" then TunnelType.Wireguard else TunnelType.Masque,
      0, identity.certPem, identity.keyPem, identity.certIssuedAt, 0)
  }

  function IdentityFrom(id: DeviceId, device: Device): Identity {
    Identity(id, device.profile, device.certPem, device.keyPem, device.certIssuedAt, false)
  }

  datatype StoreState = StoreState(
    devices: map<DeviceId, Device>,
    slots: map<Slot, DeviceId>,
    registration: BudgetState)

  const EMPTY := StoreState(map[], map[], CLEAN)

  /** What a slot offers: its device, unless the slot is WireGuard's and the device's WireGuard key is in doubt. */
  function TakeUsable(s: StoreState, slot: Slot): Option<(DeviceId, Device)> {
    if slot !in s.slots || s.slots[slot] !in s.devices then None
    else
      var device := s.devices[s.slots[slot]];
      if FamilyOf(slot) == Family.Wireguard && !device.WireguardIsTrustworthy() then None
      else Some((s.slots[slot], device))
  }

  // ---------------------------------------------------------------- repair

  predicate Dangling(s: StoreState, slot: Slot) {
    slot in s.slots && s.slots[slot] !in s.devices
  }

  predicate Revoked(s: StoreState, slot: Slot) {
    && slot in s.slots && s.slots[slot] in s.devices
    && FamilyOf(slot) == Family.Wireguard
    && s.devices[s.slots[slot]].tunnelType == TunnelType.Masque
  }

  /** A MASQUE slot whose device a surviving WireGuard slot also names. */
  predicate Shared(s: StoreState, slot: Slot) {
    && slot in s.slots && FamilyOf(slot) == Family.Masque
    && exists other :: other in s.slots && FamilyOf(other) == Family.Wireguard
                       && s.slots[other] == s.slots[slot] && WireguardSurvives(s, other)
  }

  predicate WireguardSurvives(s: StoreState, slot: Slot) {
    slot in s.slots && !Dangling(s, slot) && !Revoked(s, slot)
  }

  predicate Survives(s: StoreState, slot: Slot) {
    slot in s.slots && !Dangling(s, slot) && !Revoked(s, slot) && !Shared(s, slot)
  }

  function Repaired(s: StoreState): StoreState {
    s.(slots := map slot | slot in s.slots && Survives(s, slot) :: s.slots[slot])
  }

  datatype Repairs = Repairs(dangling: seq<Slot>, revoked: seq<Slot>, shared: seq<Slot>) {
    predicate IsEmpty() {
      dangling == [] && revoked == [] && shared == []
    }
  }

  /** The slots among `order` that `p` picks, in that order. */
  function Picked(order: seq<Slot>, p: Slot -> bool): seq<Slot> {
    if order == [] then []
    else
      var last := order[|order| - 1];
      Picked(order[..|order| - 1], p) + if p(last) then [last] else []
  }

  function RepairReport(s: StoreState): Repairs {
    Repairs(
      Picked(SLOTS, slot => Dangling(s, slot)),
      Picked(SLOTS, slot => Revoked(s, slot)),
      Picked(SLOTS, slot => Shared(s, slot)))
  }

  lemma PickedStep(order: seq<Slot>, p: Slot -> bool, i: nat)
    requires i < |order|
    ensures Picked(order[..i + 1], p) == if p(order[i]) then Picked(order[..i], p) + [order[i]]
        else Picked(order[..i], p)
  {
    assert order[..i + 1][..i] == order[..i];
  }

  lemma {:induction false} PickedMembers(order: seq<Slot>, p: Slot -> bool, slot: Slot)
    ensures slot in Picked(order, p) <==> slot in order && p(slot)
  {
    if order != [] {
      var init, last := order[..|order| - 1], order[|order| - 1];
      assert order == init + [last];
      PickedMembers(init, p, slot);
    }
  }

  lemma {:induction false} PickedNone(order: seq<Slot>, p: Slot -> bool)
    requires forall slot :: slot in order ==> !p(slot)
    ensures Picked(order, p) == []
  {
    if order != [] {
      PickedNone(order[..|order| - 1], p);
    }
  }

  lemma EverySlotListed(slot: Slot)
    ensures slot in SLOTS
  {
    match slot
    case Wireguard => assert SLOTS[0] == slot;
    case WireguardInner => assert SLOTS[1] == slot;
    case Masque => assert SLOTS[2] == slot;
    case MasqueInner => assert SLOTS[3] == slot;
  }

  /** Every slot repair removes is in exactly one list of the report, and no other slot is in any. */
  lemma ReportIsExact(s: StoreState, slot: Slot)
    ensures slot in RepairReport(s).dangling <==> Dangling(s, slot)
    ensures slot in RepairReport(s).revoked <==> Revoked(s, slot)
    ensures slot in RepairReport(s).shared <==> Shared(s, slot)
    ensures slot in s.slots && slot !in Repaired(s).slots <==>
            slot in RepairReport(s).dangling || slot in RepairReport(s).revoked || slot in RepairReport(s).shared
    ensures !(slot in RepairReport(s).dangling && slot in RepairReport(s).revoked)
    ensures !(slot in RepairReport(s).dangling && slot in RepairReport(s).shared)
    ensures !(slot in RepairReport(s).revoked && slot in RepairReport(s).shared)
  {
    EverySlotListed(slot);
    PickedMembers(SLOTS, x => Dangling(s, x), slot);
    PickedMembers(SLOTS, x => Revoked(s, x), slot);
    PickedMembers(SLOTS, x => Shared(s, x), slot);
  }

  /** In a repaired store no device serves both families and no WireGuard slot holds an enrolled one. */
  ghost predicate Sound(s: StoreState) {
    && (forall slot :: slot in s.slots ==> s.slots[slot] in s.devices)
    && (forall slot :: slot in s.slots && FamilyOf(slot) == Family.Wireguard ==>
          s.devices[s.slots[slot]].tunnelType == TunnelType.Wireguard)
    && (forall w, m :: w in s.slots && m in s.slots && FamilyOf(w) != FamilyOf(m) ==> s.slots[w] != s.slots[m])
  }

  lemma RepairedIsSound(s: StoreState)
    ensures Sound(Repaired(s))
  {
    var r := Repaired(s);
    forall w, m | w in r.slots && m in r.slots && FamilyOf(w) == Family.Wireguard && FamilyOf(m) == Family.Masque
      ensures r.slots[w] != r.slots[m]
    {
      assert !Shared(s, m);
    }
  }

  /** Repair changes a store only when it is unsound, so repairing twice reports nothing. */
  lemma RepairKeepsSound(s: StoreState)
    ensures Sound(s) <==> RepairReport(s).IsEmpty()
    ensures Sound(s) ==> Repaired(s) == s
  {
    forall slot: Slot {
      ReportIsExact(s, slot);
    }
    RepairedIsSound(s);
    assert Sound(s) || RepairReport(s).IsEmpty() ==> Repaired(s).slots == s.slots;
    if Sound(s) {
      PickedNone(SLOTS, slot => Dangling(s, slot));
      PickedNone(SLOTS, slot => Revoked(s, slot));
      PickedNone(SLOTS, slot => Shared(s, slot));
    }
  }

  lemma RepairIdempotent(s: StoreState)
    ensures Repaired(Repaired(s)) == Repaired(s)
    ensures RepairReport(Repaired(s)).IsEmpty()
    ensures Repaired(s).devices == s.devices
    ensures forall slot :: slot in Repaired(s).slots ==> slot in s.slots && Repaired(s).slots[slot] == s.slots[slot]
  {
    RepairedIsSound(s);
    RepairKeepsSound(Repaired(s));
  }

  // ---------------------------------------------------------------- identity files

  /** What an identity file that could be read says about one slot. */
  datatype Entry = Entry(slot: Slot, identity: Identity) {
    predicate Names(id: DeviceId) {
      identity.deviceId == id
    }

    predicate Enrols(id: DeviceId) {
      Names(id) && identity.certPem != ""
    }
  }

  /** The readable files among `legacy`, in order; `files` holds what reading each path yields. */
  function Readable(legacy: seq<(Slot, Path)>, files: map<Path, Identity>): seq<Entry> {
    if legacy == [] then []
    else
      var (slot, path) := legacy[|legacy| - 1];
      Readable(legacy[..|legacy| - 1], files) +
      if path in files then [Entry(slot, files[path])] else []
  }

  ghost predicate OneFilePerSlot(entries: seq<Entry>) {
    forall i, j :: 0 <= i < j < |entries| ==> entries[i].slot != entries[j].slot
  }

  function Ids(entries: seq<Entry>): set<DeviceId> {
    set e | e in entries :: e.identity.deviceId
  }

  predicate ShowsEnrolment(entries: seq<Entry>, id: DeviceId) {
    exists e :: e in entries && e.Enrols(id)
  }

  lemma OneMoreEntry(seen: seq<Entry>, entry: Entry)
    ensures Ids(seen + [entry]) == Ids(seen) + {entry.identity.deviceId}
    ensures forall x :: ShowsEnrolment(seen + [entry], x) <==> ShowsEnrolment(seen, x) || entry.Enrols(x)
  {
    assert forall e :: e in seen + [entry] <==> e in seen || e == entry;
  }

  /** The first entry naming `id`. */
  function FirstNaming(entries: seq<Entry>, id: DeviceId): (r: Option<Identity>)
    ensures r.Some? <==> id in Ids(entries)
    ensures r.Some? ==> r.value.deviceId == id
  {
    if entries == [] then None
    else
      var init, last := entries[..|entries| - 1], entries[|entries| - 1];
      assert entries == init + [last];
      var earlier := FirstNaming(init, id);
      if earlier.Some? then earlier
      else if last.Names(id) then Some(last.identity)
      else None
  }

  /** The first entry showing a certificate for `id`. */
  function FirstEnrolling(entries: seq<Entry>, id: DeviceId): (r: Option<Identity>)
    ensures r.Some? <==> ShowsEnrolment(entries, id)
    ensures r.Some? ==> r.value.deviceId == id && r.value.certPem != ""
  {
    if entries == [] then None
    else
      var init, last := entries[..|entries| - 1], entries[|entries| - 1];
      assert entries == init + [last];
      var earlier := FirstEnrolling(init, id);
      if earlier.Some? then earlier
      else if last.Enrols(id) then Some(last.identity)
      else None
  }

  /** The device each slot is given; a later entry for a slot replaces an earlier one. */
  function SlotMap(entries: seq<Entry>): map<Slot, DeviceId> {
    if entries == [] then map[]
    else
      var last := entries[|entries| - 1];
      SlotMap(entries[..|entries| - 1])[last.slot := last.identity.deviceId]
  }

  /** The record migration keeps for a device: its first copy, and the first certificate any copy shows. */
  function MergedDevice(entries: seq<Entry>, id: DeviceId): Device
    requires id in Ids(entries)
  {
    var first := DeviceFrom(FirstNaming(entries, id).value, 0);
    match FirstEnrolling(entries, id)
    case None => first
    case Some(enrolled) =>
      first.(tunnelType := TunnelType.Masque, certPem := enrolled.certPem,
             keyPem := enrolled.keyPem, certIssuedAt := enrolled.certIssuedAt)
  }

  function Migrated(entries: seq<Entry>): StoreState {
    StoreState(map id | id in Ids(entries) :: MergedDevice(entries, id), SlotMap(entries), CLEAN)
  }

  /** The entries that tell the store something: their slot does not already hold their device. */
  function News(s: StoreState, entries: seq<Entry>): seq<Entry> {
    if entries == [] then []
    else
      var last := entries[|entries| - 1];
      News(s, entries[..|entries| - 1]) +
      if last.slot in s.slots && last.Names(s.slots[last.slot]) then [] else [last]
  }

  function AdoptedDevice(s: StoreState, news: seq<Entry>, id: DeviceId): Device
    requires id in s.devices || id in Ids(news)
  {
    var base := if id in s.devices then s.devices[id] else DeviceFrom(FirstNaming(news, id).value, 0);
    if ShowsEnrolment(news, id) then base.(tunnelType := TunnelType.Masque) else base
  }

  function Adopted(s: StoreState, news: seq<Entry>): StoreState {
    StoreState(
      map id | id in s.devices.Keys + Ids(news) :: AdoptedDevice(s, news, id),
      s.slots + SlotMap(news),
      s.registration)
  }

  lemma AdoptedNothing(s: StoreState)
    ensures Adopted(s, []) == s
  {
    assert Adopted(s, []).devices == s.devices;
  }

  function Reconciled(s: StoreState, entries: seq<Entry>): StoreState {
    Adopted(s, News(s, entries))
  }

  function SlotsOf(entries: seq<Entry>): seq<Slot> {
    if entries == [] then [] else SlotsOf(entries[..|entries| - 1]) + [entries[|entries| - 1].slot]
  }

  /** The store a load hands out: read or migrated, reconciled with the files, then repaired. */
  function Loaded(existing: Option<StoreState>, entries: seq<Entry>): StoreState {
    match existing
    case None => Repaired(Migrated(entries))
    case Some(s) => Repaired(Reconciled(s, entries))
  }

  // ---------------------------------------------------------------- persistence

  const STORE_VERSION: nat := 1

  datatype Persisted = Persisted(
    version: nat,
    devices: map<DeviceId, Device>,
    slots: map<string, DeviceId>,
    registration: BudgetState)

  function ToPersisted(s: StoreState): Persisted {
    Persisted(STORE_VERSION, s.devices,
              map slot | slot in s.slots :: Key(slot) := s.slots[slot], s.registration)
  }

  function FromPersisted(p: Persisted): StoreState {
    StoreState(p.devices,
               map slot: Slot | Key(slot) in p.slots && p.slots[Key(slot)] != "" :: p.slots[Key(slot)],
               p.registration)
  }

  function Parse(p: Persisted): Result<StoreState, ()> {
    if p.version == 0 || p.version > STORE_VERSION then Err(()) else Ok(FromPersisted(p))
  }

  lemma KeysDiffer(a: Slot, b: Slot)
    requires Key(a) == Key(b)
    ensures a == b
  {
    assert |Key(a)| == |Key(b)|;
  }

  lemma PersistedSlot(s: StoreState, slot: Slot)
    ensures Key(slot) in ToPersisted(s).slots <==> slot in s.slots
    ensures slot in s.slots ==> ToPersisted(s).slots[Key(slot)] == s.slots[slot]
  {
    forall other: Slot | Key(other) == Key(slot)
      ensures other == slot
    {
      KeysDiffer(other, slot);
    }
  }

  /** A store survives its file except for slots naming the empty id, which are dropped. */
  lemma PersistedRoundTrip(s: StoreState)
    ensures Parse(ToPersisted(s)).Ok?
    ensures Parse(ToPersisted(s)).value.devices == s.devices
    ensures Parse(ToPersisted(s)).value.slots == map slot | slot in s.slots && s.slots[slot] != "" :: s.slots[slot]
    ensures Parse(ToPersisted(s)) == Ok(s) <==> "" !in s.slots.Values
  {
    forall slot: Slot {
      PersistedSlot(s, slot);
    }
    var kept := map slot | slot in s.slots && s.slots[slot] != "" :: s.slots[slot];
    assert FromPersisted(ToPersisted(s)).slots == kept;
    if "" in s.slots.Values {
      var slot :| slot in s.slots && s.slots[slot] == "";
      assert slot !in kept;
    } else {
      assert forall slot :: slot in s.slots ==> s.slots[slot] in s.slots.Values;
      assert kept == s.slots;
    }
  }
}
