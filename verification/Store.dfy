/** The identity store as the engine holds it: maps updated in place, slot by slot and file by file. */
module MutableStore {
  import opened Wrappers
  import opened Registration
  import opened IdentityStore
  import opened IdentityLaws

  class Store {
    var devices: map<DeviceId, Device>
    var slots: map<Slot, DeviceId>
    var registration: BudgetState

    function State(): StoreState
      reads this
    {
      StoreState(devices, slots, registration)
    }

    constructor (s: StoreState)
      ensures State() == s
    {
      devices, slots, registration := s.devices, s.slots, s.registration;
    }

    /** Fills a slot with a stored device; an id the store does not know is an error and changes nothing. */
    method Assign(slot: Slot, id: DeviceId) returns (r: Result<(), string>)
      modifies this`slots
      ensures r.Ok? <==> id in devices
      ensures slots == if id in devices then old(slots)[slot := id] else old(slots)
    {
      if id !in devices {
        return Err("cannot fill the " + Key(slot) + " slot with unknown device " + id);
      }
      slots := slots[slot := id];
      return Ok(());
    }

    /** Brings the store back to what the invariants allow, in two passes over the slots. */
    method Repair() returns (repairs: Repairs)
      modifies this`slots
      ensures State() == Repaired(old(State()))
      ensures repairs == RepairReport(old(State()))
    {
      ghost var before := State();
      var dangling, revoked := DropBroken();
      var shared := DropShared(before);
      assert slots == Repaired(before).slots;
      repairs := Repairs(dangling, revoked, shared);
    }

    /** What is left of `before` once the broken slots and the shared ones among `done` are gone. */
    ghost predicate Pruned(before: StoreState, done: seq<Slot>)
      reads this
    {
      && devices == before.devices
      && (forall slot :: slot in slots <==> WireguardSurvives(before, slot) && !(slot in done && Shared(before, slot)))
      && (forall slot :: slot in slots ==> slots[slot] == before.slots[slot])
    }

    /** Second pass: of two families naming one device, its own tunnel type says which keeps it. */
    method DropShared(ghost before: StoreState) returns (shared: seq<Slot>)
      requires Pruned(before, [])
      modifies this`slots
      ensures Pruned(before, SLOTS)
      ensures forall slot :: slot in slots <==> Survives(before, slot)
      ensures shared == RepairReport(before).shared
    {
      hide Picked, Shared, ClashIn;
      ghost var shares := (slot: Slot) => Shared(before, slot);
      shared := [];
      PickedNone([], shares);
      assert SLOTS[..0] == [];
      for i := 0 to |SLOTS|
        invariant Pruned(before, SLOTS[..i])
        invariant shared == Picked(SLOTS[..i], shares)
      {
        var slot := SLOTS[i];
        assert SLOTS[..i + 1] == SLOTS[..i] + [slot];
        PickedStep(SLOTS, shares, i);
        if slot in slots {
          var clash := Clash(slot);
          ClashMeansShared(before, SLOTS[..i], slot);
          if clash {
            var deviceIsMasque := slots[slot] in devices && devices[slots[slot]].tunnelType == TunnelType.Masque;
            var keepsIt := if deviceIsMasque then FamilyOf(slot) == Family.Masque
                           else FamilyOf(slot) == Family.Wireguard;
            if !keepsIt {
              slots := slots - {slot};
              shared := shared + [slot];
            }
          }
        } else {
          assert !Shared(before, slot) by { AbsentNotShared(before, i); }
        }
      }
      assert SLOTS[..|SLOTS|] == SLOTS;
      EndsAsSurvivors(before);
    }

    lemma EndsAsSurvivors(before: StoreState)
      requires Pruned(before, SLOTS)
      ensures forall slot :: slot in slots <==> Survives(before, slot)
    {
      forall slot: Slot { EverySlotListed(slot); }
    }

    /** A slot already gone when the second pass reaches it was broken, not shared. */
    lemma AbsentNotShared(before: StoreState, i: nat)
      requires i < |SLOTS| && Pruned(before, SLOTS[..i]) && SLOTS[i] !in slots
      ensures !Shared(before, SLOTS[i])
    {
      assert SLOTS[i] !in SLOTS[..i];
      assert !WireguardSurvives(before, SLOTS[i]);
    }

    lemma ClashMeansShared(before: StoreState, done: seq<Slot>, slot: Slot)
      requires Pruned(before, done) && slot in slots
      ensures Shared(before, slot) <==> FamilyOf(slot) == Family.Masque && ClashIn(State(), slot)
      ensures ClashIn(State(), slot) ==>
                slots[slot] in devices && devices[slots[slot]].tunnelType == TunnelType.Wireguard
    {
      if FamilyOf(slot) == Family.Masque && Shared(before, slot) {
        var other :| other in before.slots && FamilyOf(other) == Family.Wireguard
                     && before.slots[other] == before.slots[slot] && WireguardSurvives(before, other);
        assert other in slots;
      }
      if ClashIn(State(), slot) {
        var other :| other in slots && FamilyOf(other) != FamilyOf(slot) && slots[other] == slots[slot];
        assert WireguardSurvives(before, other) && WireguardSurvives(before, slot);
      }
    }

    /** What is left of `before` once the broken slots among `done` are gone. */
    ghost predicate Kept(before: StoreState, done: seq<Slot>)
      reads this
    {
      && devices == before.devices
      && (forall slot :: slot in slots <==> slot in before.slots && !(slot in done && Broken(before, slot)))
      && (forall slot :: slot in slots ==> slots[slot] == before.slots[slot])
    }

    static predicate Broken(s: StoreState, slot: Slot) {
      Dangling(s, slot) || Revoked(s, slot)
    }

    /** First pass: slots naming no device, and WireGuard slots naming an enrolled one. */
    method DropBroken() returns (dangling: seq<Slot>, revoked: seq<Slot>)
      modifies this`slots
      ensures forall slot :: slot in slots <==> WireguardSurvives(old(State()), slot)
      ensures forall slot :: slot in slots ==> slot in old(slots) && slots[slot] == old(slots)[slot]
      ensures dangling == RepairReport(old(State())).dangling
      ensures revoked == RepairReport(old(State())).revoked
    {
      hide Picked;
      ghost var before := State();
      ghost var dangles, revokes := (slot: Slot) => Dangling(before, slot), (slot: Slot) => Revoked(before, slot);
      dangling, revoked := [], [];
      PickedNone([], dangles);
      PickedNone([], revokes);
      assert SLOTS[..0] == [];
      for i := 0 to |SLOTS|
        invariant Kept(before, SLOTS[..i])
        invariant dangling == Picked(SLOTS[..i], dangles) && revoked == Picked(SLOTS[..i], revokes)
      {
        var slot := SLOTS[i];
        assert SLOTS[..i + 1] == SLOTS[..i] + [slot];
        PickedStep(SLOTS, dangles, i);
        PickedStep(SLOTS, revokes, i);
        SlotsDistinct(i);
        assert slot in slots <==> slot in before.slots;
        if slot in slots {
          if slots[slot] !in devices {
            slots := slots - {slot};
            dangling := dangling + [slot];
          } else if FamilyOf(slot) == Family.Wireguard && devices[slots[slot]].tunnelType == TunnelType.Masque {
            slots := slots - {slot};
            revoked := revoked + [slot];
          }
        }
      }
      assert SLOTS[..|SLOTS|] == SLOTS;
      forall slot: Slot { EverySlotListed(slot); }
    }

    static ghost predicate ClashIn(s: StoreState, slot: Slot) {
      && slot in s.slots
      && exists other :: other in s.slots && FamilyOf(other) != FamilyOf(slot) && s.slots[other] == s.slots[slot]
    }

    /** Whether a slot of the other family holds the same device. */
    method Clash(slot: Slot) returns (clash: bool)
      requires slot in slots
      ensures clash <==> ClashIn(State(), slot)
    {
      clash := false;
      for i := 0 to |SLOTS|
        invariant clash <==> exists other :: other in SLOTS[..i] && other in slots
                                             && FamilyOf(other) != FamilyOf(slot) && slots[other] == slots[slot]
      {
        var other := SLOTS[i];
        assert SLOTS[..i + 1] == SLOTS[..i] + [other];
        if other != slot && FamilyOf(other) != FamilyOf(slot) && other in slots && slots[other] == slots[slot] {
          clash := true;
        }
      }
      assert SLOTS[..|SLOTS|] == SLOTS;
      forall other: Slot { EverySlotListed(other); }
    }

    /** Takes one older file into a store being built. */
    method AbsorbFile(slot: Slot, identity: Identity)
      modifies this`devices, this`slots
      ensures State() == MigrateOne(old(State()), Entry(slot, identity))
    {
      var id, incoming := identity.deviceId, DeviceFrom(identity, 0);
      if id in devices {
        if incoming.tunnelType == TunnelType.Masque {
          var existing := devices[id].(tunnelType := TunnelType.Masque);
          if existing.certPem == "" {
            existing := existing.(certPem := incoming.certPem, keyPem := incoming.keyPem,
                                  certIssuedAt := incoming.certIssuedAt);
          }
          devices := devices[id := existing];
        }
      } else {
        devices := devices[id := incoming];
      }
      slots := slots[slot := id];
      assert devices == MigrateOne(old(State()), Entry(slot, identity)).devices;
    }

    /** A new store holding what the identity files tell, read in order. */
    static method MigrateFromLegacy(legacy: seq<(Slot, Path)>, files: map<Path, Identity>) returns (store: Store)
      ensures fresh(store)
      ensures store.State() == Migrated(Readable(legacy, files))
    {
      hide Migrated, MigrateOne;
      store := new Store(EMPTY);
      MigratedNothing();
      for i := 0 to |legacy|
        invariant fresh(store)
        invariant store.State() == Migrated(Readable(legacy[..i], files))
      {
        var (slot, path) := legacy[i];
        ReadableStep(legacy, files, i);
        if path in files {
          MigratedStep(Readable(legacy[..i], files), Entry(slot, files[path]));
          store.AbsorbFile(slot, files[path]);
        }
      }
      assert legacy[..|legacy|] == legacy;
    }

    /** Takes one file's device into the store and its slot. */
    method AdoptFile(slot: Slot, identity: Identity)
      modifies this`devices, this`slots
      ensures State() == AdoptOne(old(State()), Entry(slot, identity))
    {
      var id, incoming := identity.deviceId, DeviceFrom(identity, 0);
      if id in devices {
        if incoming.tunnelType == TunnelType.Masque {
          devices := devices[id := devices[id].(tunnelType := TunnelType.Masque)];
        }
      } else {
        devices := devices[id := incoming];
      }
      slots := slots[slot := id];
      assert devices == AdoptOne(old(State()), Entry(slot, identity)).devices;
    }

    /** Takes in every file whose slot does not hold its device, and lists those slots. */
    method ReconcileWithLegacy(legacy: seq<(Slot, Path)>, files: map<Path, Identity>) returns (adopted: seq<Slot>)
      requires forall i, j :: 0 <= i < j < |legacy| ==> legacy[i].0 != legacy[j].0
      modifies this`devices, this`slots
      ensures State() == Reconciled(old(State()), Readable(legacy, files))
      ensures adopted == SlotsOf(News(old(State()), Readable(legacy, files)))
    {
      ghost var before := State();
      ghost var news: seq<Entry> := [];
      adopted := [];
      AdoptedNothing(before);
      for i := 0 to |legacy|
        invariant news == News(before, Readable(legacy[..i], files))
        invariant State() == Adopted(before, news)
        invariant forall k :: i <= k < |legacy| ==>
                    (legacy[k].0 in slots <==> legacy[k].0 in before.slots) &&
                    (legacy[k].0 in slots ==> slots[legacy[k].0] == before.slots[legacy[k].0])
        invariant adopted == SlotsOf(news)
      {
        var (slot, path) := legacy[i];
        ReadableStep(legacy, files, i);
        if path in files {
          ghost var entry := Entry(slot, files[path]);
          NewsStep(before, Readable(legacy[..i], files), entry);
          if slot !in slots || slots[slot] != files[path].deviceId {
            AdoptedStep(before, news, entry);
            AdoptFile(slot, files[path]);
            adopted := adopted + [slot];
            assert (news + [entry])[..|news|] == news;
            news := news + [entry];
          }
        }
      }
      assert legacy[..|legacy|] == legacy;
    }

    /** Merges the sections of a backup into the store, one by one. */
    method ImportSections(sections: seq<Entry>, now: nat)
      modifies this`devices, this`slots
      ensures State() == Imported(old(State()), sections, now)
    {
      ghost var before := State();
      for i := 0 to |sections|
        invariant State() == Imported(before, sections[..i], now)
      {
        assert sections[..i + 1][..i] == sections[..i];
        var identity := sections[i].identity;
        var id, incoming := identity.deviceId, DeviceFrom(identity, now);
        var merged := incoming;
        if id in devices && devices[id].tunnelType == TunnelType.Masque && !incoming.HasCertificate() {
          var existing := devices[id];
          merged := incoming.(tunnelType := TunnelType.Masque, certPem := existing.certPem,
                              keyPem := existing.keyPem, certIssuedAt := existing.certIssuedAt);
        }
        devices := devices[id := merged];
        slots := slots[sections[i].slot := id];
      }
      assert sections[..|sections|] == sections;
    }

    /**
     The store a start works with, and what is then in the store's file: a store that changed on the way in is
     saved, and `saves` is whether that save is written and reads back. A file that cannot be parsed is moved
     away, one that could not be written is removed.
     */
    static method Load(existing: Option<Persisted>, legacy: seq<(Slot, Path)>, files: map<Path, Identity>, saves: bool)
      returns (store: Store, repairs: Repairs, migrated: bool, rewrite: bool, file: Option<Persisted>)
      requires forall i, j :: 0 <= i < j < |legacy| ==> legacy[i].0 != legacy[j].0
      ensures fresh(store)
      ensures migrated <==> existing.None? || Parse(existing.value).Err?
      ensures var found := if migrated then None else Some(Parse(existing.value).value);
              store.State() == Loaded(found, Readable(legacy, files))
      ensures rewrite <==>
                migrated || News(Parse(existing.value).value, Readable(legacy, files)) != [] || !repairs.IsEmpty()
      ensures !rewrite ==> existing.Some? && Parse(existing.value) == Ok(store.State())
      ensures file == if !rewrite then existing else if saves then Some(ToPersisted(store.State())) else None
    {
      var parsed := match existing case None => Err(()) case Some(p) => Parse(p);
      migrated := parsed.Err?;
      var adopted := [];
      if migrated {
        store := MigrateFromLegacy(legacy, files);
      } else {
        store := new Store(parsed.value);
        adopted := store.ReconcileWithLegacy(legacy, files);
      }
      ghost var before := store.State();
      repairs := store.Repair();
      rewrite := migrated || !repairs.IsEmpty() || adopted != [];
      if !rewrite {
        AdoptedNothing(parsed.value);
        assert News(parsed.value, Readable(legacy, files)) == [];
        RepairKeepsSound(before);
      }
      file := if parsed.Ok? then existing else None;
      if rewrite {
        file := if saves then Some(ToPersisted(store.State())) else None;
      }
    }
  }

  lemma SlotsDistinct(i: nat)
    requires i < |SLOTS|
    ensures SLOTS[i] !in SLOTS[..i]
  {
  }

  /** A store after migration has read one more file. */
  function MigrateOne(s: StoreState, entry: Entry): StoreState {
    var id, incoming := entry.identity.deviceId, DeviceFrom(entry.identity, 0);
    var record := if id !in s.devices then incoming
                  else if incoming.tunnelType != TunnelType.Masque then s.devices[id]
                  else if s.devices[id].certPem != "" then s.devices[id].(tunnelType := TunnelType.Masque)
                  else s.devices[id].(tunnelType := TunnelType.Masque, certPem := incoming.certPem,
                                      keyPem := incoming.keyPem, certIssuedAt := incoming.certIssuedAt);
    s.(devices := s.devices[id := record], slots := s.slots[entry.slot := id])
  }

  lemma MigratedNothing()
    ensures Migrated([]) == EMPTY
  {
    assert Migrated([]).devices == map[];
  }

  /** What one more file does to the merged record of one device. */
  lemma MergedStep(seen: seq<Entry>, entry: Entry, x: DeviceId)
    requires x in Ids(seen + [entry])
    ensures x in Ids(seen) || entry.Names(x)
    ensures MergedDevice(seen + [entry], x) ==
              if x !in Ids(seen) then DeviceFrom(entry.identity, 0)
              else if !entry.Enrols(x) then MergedDevice(seen, x)
              else if MergedDevice(seen, x).certPem != "" then MergedDevice(seen, x).(tunnelType := TunnelType.Masque)
              else MergedDevice(seen, x).(tunnelType := TunnelType.Masque, certPem := entry.identity.certPem,
                     keyPem := entry.identity.keyPem, certIssuedAt := entry.identity.certIssuedAt)
  {
    var all := seen + [entry];
    assert all[..|seen|] == seen;
    OneMoreEntry(seen, entry);
    if !ShowsEnrolment(seen, x) {
      NotEnrolledHasNoCertificate(seen, x);
    }
  }

  lemma MigratedStep(seen: seq<Entry>, entry: Entry)
    ensures Migrated(seen + [entry]) == MigrateOne(Migrated(seen), entry)
  {
    hide MergedDevice, Ids;
    var all := seen + [entry];
    assert all[..|seen|] == seen;
    OneMoreEntry(seen, entry);
    var now := Migrated(all).devices;
    forall x | x in now
      ensures now[x] == MigrateOne(Migrated(seen), entry).devices[x]
    {
      MergedStep(seen, entry, x);
    }
    assert now == MigrateOne(Migrated(seen), entry).devices;
  }

  /** Without an enrolling entry, the first copy of a device carries no certificate. */
  lemma NotEnrolledHasNoCertificate(entries: seq<Entry>, id: DeviceId)
    requires !ShowsEnrolment(entries, id)
    ensures FirstNaming(entries, id).Some? ==> FirstNaming(entries, id).value.certPem == ""
  {
    if entries != [] {
      var init := entries[..|entries| - 1];
      assert entries == init + [entries[|entries| - 1]];
      NotEnrolledHasNoCertificate(init, id);
    }
  }

  /** What adopting one more entry does to the record of one device. */
  lemma AdoptedDeviceStep(s: StoreState, news: seq<Entry>, entry: Entry, x: DeviceId)
    requires x in s.devices || x in Ids(news + [entry])
    ensures x in s.devices || x in Ids(news) || entry.Names(x)
    ensures AdoptedDevice(s, news + [entry], x) ==
            if x !in s.devices && x !in Ids(news) then DeviceFrom(entry.identity, 0)
            else if entry.Enrols(x) then AdoptedDevice(s, news, x).(tunnelType := TunnelType.Masque)
            else AdoptedDevice(s, news, x)
  {
    var all := news + [entry];
    assert all[..|news|] == news;
    OneMoreEntry(news, entry);
    if x !in s.devices && x !in Ids(news) {
      assert !ShowsEnrolment(news, x);
    }
  }

  /** A store after taking in one file's device and pointing the file's slot at it. */
  function AdoptOne(s: StoreState, entry: Entry): StoreState {
    var id, incoming := entry.identity.deviceId, DeviceFrom(entry.identity, 0);
    var record := if id !in s.devices then incoming
                  else if incoming.tunnelType != TunnelType.Masque then s.devices[id]
                  else s.devices[id].(tunnelType := TunnelType.Masque);
    s.(devices := s.devices[id := record], slots := s.slots[entry.slot := id])
  }

  lemma AdoptedKeys(s: StoreState, news: seq<Entry>, entry: Entry)
    ensures Adopted(s, news + [entry]).devices.Keys == Adopted(s, news).devices.Keys + {entry.identity.deviceId}
  {
    OneMoreEntry(news, entry);
  }

  lemma AdoptedSlots(s: StoreState, news: seq<Entry>, entry: Entry)
    ensures Adopted(s, news + [entry]).slots == Adopted(s, news).slots[entry.slot := entry.identity.deviceId]
  {
    hide AdoptedDevice, Ids;
    assert (news + [entry])[..|news|] == news;
  }

  lemma AdoptedStep(s: StoreState, news: seq<Entry>, entry: Entry)
    ensures Adopted(s, news + [entry]) == AdoptOne(Adopted(s, news), entry)
  {
    hide AdoptedDevice, Ids, SlotMap;
    AdoptedSlots(s, news, entry);
    AdoptedKeys(s, news, entry);
    var now := Adopted(s, news + [entry]).devices;
    forall x | x in now
      ensures now[x] == AdoptOne(Adopted(s, news), entry).devices[x]
    {
      AdoptedDeviceStep(s, news, entry, x);
    }
    assert now == AdoptOne(Adopted(s, news), entry).devices;
  }

  lemma NewsStep(s: StoreState, seen: seq<Entry>, entry: Entry)
    ensures News(s, seen + [entry]) ==
              if entry.slot in s.slots && entry.Names(s.slots[entry.slot]) then News(s, seen)
              else News(s, seen) + [entry]
  {
    assert (seen + [entry])[..|seen|] == seen;
  }

  lemma ReadableStep(legacy: seq<(Slot, Path)>, files: map<Path, Identity>, i: nat)
    requires i < |legacy|
    ensures Readable(legacy[..i + 1], files) ==
              if legacy[i].1 in files then Readable(legacy[..i], files) + [Entry(legacy[i].0, files[legacy[i].1])]
              else Readable(legacy[..i], files)
  {
    assert legacy[..i + 1][..i] == legacy[..i];
  }
}
