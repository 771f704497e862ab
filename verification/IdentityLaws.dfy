/**
 What repair, migration, reconciliation and import promise together: loading settles, and
 knowledge of an enrolment is never lost.
 */
module IdentityLaws {
  import opened Wrappers
  import opened Registration
  import opened IdentityStore

  // ---------------------------------------------------------------- loading settles

  predicate Held(s: StoreState, e: Entry) {
    e.slot in s.slots && e.Names(s.slots[e.slot])
  }

  lemma {:induction false} NewsMembers(s: StoreState, entries: seq<Entry>, e: Entry)
    ensures e in News(s, entries) <==> e in entries && !Held(s, e)
  {
    if entries != [] {
      var init, last := entries[..|entries| - 1], entries[|entries| - 1];
      assert entries == init + [last];
      NewsMembers(s, init, e);
    }
  }

  lemma {:induction false} SlotMapMembers(entries: seq<Entry>, slot: Slot)
    ensures slot in SlotMap(entries) <==> exists e :: e in entries && e.slot == slot
    ensures slot in SlotMap(entries) ==> exists e :: e in entries && e.slot == slot && e.Names(SlotMap(entries)[slot])
  {
    if entries != [] {
      var init, last := entries[..|entries| - 1], entries[|entries| - 1];
      assert entries == init + [last];
      SlotMapMembers(init, slot);
      if slot == last.slot {
        assert last in entries && last.Names(SlotMap(entries)[slot]);
      } else if slot in SlotMap(init) {
        var e :| e in init && e.slot == slot && e.Names(SlotMap(init)[slot]);
        assert e in entries;
      }
    }
  }

  lemma {:induction false} SlotMapUnique(entries: seq<Entry>, e: Entry)
    requires OneFilePerSlot(entries) && e in entries
    ensures e.slot in SlotMap(entries) && e.Names(SlotMap(entries)[e.slot])
  {
    SlotMapMembers(entries, e.slot);
    var other :| other in entries && other.slot == e.slot && other.Names(SlotMap(entries)[e.slot]);
    var i :| 0 <= i < |entries| && entries[i] == e;
    var j :| 0 <= j < |entries| && entries[j] == other;
    assert i == j;
  }

  lemma {:induction false} NewsOnePerSlot(s: StoreState, entries: seq<Entry>)
    requires OneFilePerSlot(entries)
    ensures OneFilePerSlot(News(s, entries))
  {
    if entries != [] {
      var init, last := entries[..|entries| - 1], entries[|entries| - 1];
      assert entries == init + [last];
      NewsOnePerSlot(s, init);
      var earlier := News(s, init);
      forall i | 0 <= i < |earlier|
        ensures earlier[i].slot != last.slot
      {
        NewsMembers(s, init, earlier[i]);
        assert earlier[i] in init;
      }
    }
  }

  /** After reconciling, every slot a file speaks for holds that file's device. */
  lemma ReconciledSlots(s: StoreState, entries: seq<Entry>)
    requires OneFilePerSlot(entries)
    ensures Reconciled(s, entries).slots == s.slots + SlotMap(entries)
  {
    var news := News(s, entries);
    NewsOnePerSlot(s, entries);
    forall slot: Slot
      ensures slot in SlotMap(news) ==> slot in SlotMap(entries) && SlotMap(news)[slot] == SlotMap(entries)[slot]
      ensures slot in SlotMap(entries) && slot !in SlotMap(news) ==>
                slot in s.slots && s.slots[slot] == SlotMap(entries)[slot]
    {
      SlotMapMembers(entries, slot);
      SlotMapMembers(news, slot);
      if slot in SlotMap(news) {
        var e :| e in news && e.slot == slot && e.Names(SlotMap(news)[slot]);
        NewsMembers(s, entries, e);
        SlotMapUnique(entries, e);
      } else if slot in SlotMap(entries) {
        var e :| e in entries && e.slot == slot && e.Names(SlotMap(entries)[slot]);
        NewsMembers(s, entries, e);
      }
    }
  }

  /** Reconciling leaves the devices alone exactly when the entries it acts on say nothing new of them. */
  ghost predicate NothingNew(s: StoreState, news: seq<Entry>) {
    forall e :: e in news ==>
      && e.identity.deviceId in s.devices
      && (e.identity.certPem != "" ==> s.devices[e.identity.deviceId].tunnelType == TunnelType.Masque)
  }

  lemma DevicesUnchangedIff(s: StoreState, news: seq<Entry>)
    ensures Adopted(s, news).devices == s.devices <==> NothingNew(s, news)
  {
    var now := Adopted(s, news).devices;
    if NothingNew(s, news) {
      assert Ids(news) <= s.devices.Keys;
      assert now == s.devices;
    } else {
      var e :| e in news && !(
        && e.identity.deviceId in s.devices
        && (e.identity.certPem != "" ==> s.devices[e.identity.deviceId].tunnelType == TunnelType.Masque));
      var id := e.identity.deviceId;
      assert id in Ids(news) && id in now;
      if id in s.devices {
        assert e.Enrols(id);
        assert now[id].tunnelType == TunnelType.Masque;
      }
    }
  }

  /** Putting back any of the slots repair dropped does not change what repair keeps. */
  lemma RepairStable(r: StoreState, between: StoreState)
    requires between.devices == r.devices && between.registration == r.registration
    requires forall slot :: slot in between.slots ==> slot in r.slots && between.slots[slot] == r.slots[slot]
    requires forall slot :: slot in Repaired(r).slots ==> slot in between.slots
    ensures Repaired(between) == Repaired(r)
  {
    forall slot: Slot
      ensures WireguardSurvives(between, slot) && FamilyOf(slot) == Family.Wireguard <==>
              WireguardSurvives(r, slot) && FamilyOf(slot) == Family.Wireguard
    {
    }
    forall slot: Slot
      ensures Survives(between, slot) <==> Survives(r, slot)
    {
      if slot in between.slots && Shared(r, slot) {
        var w :| w in r.slots && FamilyOf(w) == Family.Wireguard && r.slots[w] == r.slots[slot] &&
            WireguardSurvives(r, w);
        assert WireguardSurvives(between, w);
      }
    }
    assert Repaired(between).slots == Repaired(r).slots;
  }

  lemma Relisted(r: StoreState, base: StoreState, entries: seq<Entry>)
    requires OneFilePerSlot(entries)
    requires r.slots == base.slots + SlotMap(entries)
    ensures var again := Reconciled(Repaired(r), entries);
            && (forall slot :: slot in again.slots ==> slot in r.slots && again.slots[slot] == r.slots[slot])
            && (forall slot :: slot in Repaired(r).slots ==> slot in again.slots)
  {
    ReconciledSlots(Repaired(r), entries);
  }

  /** Loading what a migration saved, beside the same files, gives back the migrated store and so itself. */
  lemma MigrationFixpoint(entries: seq<Entry>)
    requires OneFilePerSlot(entries)
    ensures Reconciled(Repaired(Migrated(entries)), entries) == Migrated(entries)
    ensures Loaded(Some(Loaded(None, entries)), entries) == Loaded(None, entries)
  {
    hide News, SlotMap, Shared, Revoked, Dangling, FirstNaming;
    var raw := Migrated(entries);
    var saved := Repaired(raw);
    var news := News(saved, entries);
    forall e | e in news
      ensures e.identity.deviceId in saved.devices
      ensures e.identity.certPem != "" ==> saved.devices[e.identity.deviceId].tunnelType == TunnelType.Masque
    {
      NewsMembers(saved, entries, e);
      var id := e.identity.deviceId;
      assert id in Ids(entries);
      if e.identity.certPem != "" {
        assert e.Enrols(id);
      }
    }
    DevicesUnchangedIff(saved, news);
    ReconciledSlots(saved, entries);
    assert Reconciled(saved, entries).slots == raw.slots;
  }

  /** Some file the store does not skip names the device. */
  ghost predicate Introduced(s: StoreState, entries: seq<Entry>, id: DeviceId) {
    exists e :: e in entries && !Held(s, e) && e.Names(id)
  }

  /** The store, or a certificate in some file it does not skip, says the device is enrolled. */
  ghost predicate SaidEnrolled(s: StoreState, entries: seq<Entry>, id: DeviceId) {
    || (id in s.devices && s.devices[id].tunnelType == TunnelType.Masque)
    || exists e :: e in entries && !Held(s, e) && e.Enrols(id)
  }

  /** The slot's file names the device, or the slot has no file and holds the device already. */
  ghost predicate Given(s: StoreState, entries: seq<Entry>, slot: Slot, id: DeviceId) {
    || (exists e :: e in entries && e.slot == slot && e.Names(id))
    || (slot in s.slots && s.slots[slot] == id && forall e :: e in entries ==> e.slot != slot)
  }

  /**
   The condition under which one load settles a store. It is about the files whose device their slot holds
   already, which reconciliation skips: such a device must be stored or named by another file, and if the file is
   a MASQUE slot's and shows a certificate, then no WireGuard slot may be given the device unless something
   besides skipped files says it is enrolled.
   */
  ghost predicate Settled(s: StoreState, entries: seq<Entry>) {
    forall e :: e in entries && Held(s, e) ==>
      var id := e.identity.deviceId;
      && (id in s.devices || Introduced(s, entries, id))
      && (e.identity.certPem != "" && FamilyOf(e.slot) == Family.Masque
          && (exists slot :: FamilyOf(slot) == Family.Wireguard && Given(s, entries, slot, id)) ==>
            SaidEnrolled(s, entries, id))
  }

  /** The same of one file, in terms of the store reconciliation leaves. */
  ghost predicate Lasts(s: StoreState, entries: seq<Entry>, e: Entry) {
    var r := Reconciled(s, entries);
    Held(s, e) ==> !Dangling(r, e.slot) && !(e.identity.certPem != "" && Shared(r, e.slot))
  }

  /** What reconciliation leaves in a slot, told from the store and the files. */
  lemma GivenIsHeld(s: StoreState, entries: seq<Entry>, slot: Slot, id: DeviceId)
    requires OneFilePerSlot(entries)
    ensures var r := Reconciled(s, entries);
            slot in r.slots && r.slots[slot] == id <==> Given(s, entries, slot, id)
  {
    hide Reconciled, SlotMap;
    ReconciledSlots(s, entries);
    SlotMapMembers(entries, slot);
    forall e | e in entries && e.slot == slot ensures e.Names(SlotMap(entries)[slot]) { SlotMapUnique(entries, e); }
  }

  lemma DeviceAfterReconcile(s: StoreState, entries: seq<Entry>, id: DeviceId)
    ensures var r := Reconciled(s, entries);
            && (id in r.devices <==> id in s.devices || Introduced(s, entries, id))
            && (id in r.devices ==> (r.devices[id].tunnelType == TunnelType.Masque <==> SaidEnrolled(s, entries, id)))
  {
    forall e { NewsMembers(s, entries, e); }
    if id in Reconciled(s, entries).devices {
      ReconcileKnowledge(s, entries, id);
    }
  }

  /** A store is settled exactly when every skipped file lasts through reconciliation and repair. */
  lemma SettledMeansLasting(s: StoreState, entries: seq<Entry>)
    requires OneFilePerSlot(entries)
    ensures Settled(s, entries) <==> forall e :: e in entries ==> Lasts(s, entries, e)
  {
    hide Reconciled, Given, Introduced, SaidEnrolled;
    var r := Reconciled(s, entries);
    forall e | e in entries && Held(s, e)
      ensures var id := e.identity.deviceId;
              Lasts(s, entries, e) <==>
                && (id in s.devices || Introduced(s, entries, id))
                && (e.identity.certPem != "" && FamilyOf(e.slot) == Family.Masque
                    && (exists slot :: FamilyOf(slot) == Family.Wireguard && Given(s, entries, slot, id)) ==>
                      SaidEnrolled(s, entries, id))
    {
      var id := e.identity.deviceId;
      DeviceAfterReconcile(s, entries, id);
      forall slot { GivenIsHeld(s, entries, slot, id); }
      assert Given(s, entries, e.slot, id) by { HeldIsGiven(s, entries, e); }
    }
  }

  lemma HeldIsGiven(s: StoreState, entries: seq<Entry>, e: Entry)
    requires e in entries
    ensures Given(s, entries, e.slot, e.identity.deviceId)
  {
  }

  /** What the first load made of one file. */
  lemma AfterOneLoad(s: StoreState, entries: seq<Entry>, e: Entry)
    requires OneFilePerSlot(entries) && e in entries
    ensures var r, id := Reconciled(s, entries), e.identity.deviceId;
            && e.slot in r.slots && r.slots[e.slot] == id
            && (e in News(Repaired(r), entries) <==> !Survives(r, e.slot))
            && (!Held(s, e) ==> id in r.devices)
            && (!Held(s, e) && e.identity.certPem != "" ==> r.devices[id].tunnelType == TunnelType.Masque)
  {
    hide SlotMap, News;
    var r, id := Reconciled(s, entries), e.identity.deviceId;
    ReconciledSlots(s, entries);
    SlotMapUnique(entries, e);
    NewsMembers(Repaired(r), entries, e);
    if !Held(s, e) {
      NewsMembers(s, entries, e);
      assert id in Ids(News(s, entries));
      if e.identity.certPem != "" { assert e.Enrols(id); }
    }
  }

  /** Whether the second load would find one file saying something new. */
  lemma SettledEntry(s: StoreState, entries: seq<Entry>, e: Entry)
    requires OneFilePerSlot(entries) && e in entries
    ensures var r, id := Reconciled(s, entries), e.identity.deviceId;
            Lasts(s, entries, e) <==>
            (e in News(Repaired(r), entries) ==>
               id in r.devices && (e.identity.certPem != "" ==> r.devices[id].tunnelType == TunnelType.Masque))
  {
    AfterOneLoad(s, entries, e);
  }

  lemma SettledMeansNothingNew(s: StoreState, entries: seq<Entry>)
    requires OneFilePerSlot(entries)
    ensures var saved := Loaded(Some(s), entries);
            Settled(s, entries) <==> NothingNew(saved, News(saved, entries))
  {
    hide Lasts, Settled;
    var saved := Loaded(Some(s), entries);
    SettledMeansLasting(s, entries);
    forall e | e in entries { SettledEntry(s, entries, e); }
    forall e: Entry { NewsMembers(saved, entries, e); }
  }

  /** Loading twice gives what loading once gives exactly when the store was settled. */
  lemma LoadIdempotentIff(s: StoreState, entries: seq<Entry>)
    requires OneFilePerSlot(entries)
    ensures var once := Loaded(Some(s), entries);
            Loaded(Some(once), entries) == once <==> Settled(s, entries)
  {
    var r := Reconciled(s, entries);
    var once := Repaired(r);
    ReconciledSlots(s, entries);
    Relisted(r, s, entries);
    SettledMeansNothingNew(s, entries);
    DevicesUnchangedIff(once, News(once, entries));
    if Settled(s, entries) {
      RepairStable(r, Reconciled(once, entries));
    }
  }

  /** A MASQUE slot that survived one load is not found shared by the next. */
  lemma SurvivorNotShared(r: StoreState, again: StoreState, slot: Slot)
    requires Survives(r, slot)
    requires forall w :: w in again.slots ==> w in r.slots && again.slots[w] == r.slots[w]
    requires slot in again.slots && r.slots[slot] in again.devices
    requires r.devices[r.slots[slot]].tunnelType == TunnelType.Masque ==>
               again.devices[r.slots[slot]].tunnelType == TunnelType.Masque
    ensures !Dangling(again, slot) && !Shared(again, slot)
  {
    var id := r.slots[slot];
    if FamilyOf(slot) == Family.Masque {
      forall w | w in again.slots && FamilyOf(w) == Family.Wireguard && again.slots[w] == id
        ensures Revoked(again, w)
      {
        assert !WireguardSurvives(r, w);
      }
    }
  }

  /** One load always leaves a settled store behind, so the second load is the last to change anything. */
  lemma LoadSettlesInTwo(s: StoreState, entries: seq<Entry>)
    requires OneFilePerSlot(entries)
    ensures Settled(Loaded(Some(s), entries), entries)
    ensures var twice := Loaded(Some(Loaded(Some(s), entries)), entries);
            Loaded(Some(twice), entries) == twice
  {
    var r := Reconciled(s, entries);
    var once := Repaired(r);
    var again := Reconciled(once, entries);
    ReconciledSlots(s, entries);
    Relisted(r, s, entries);
    forall e | e in entries && Held(once, e)
      ensures Lasts(once, entries, e)
    {
      assert r.slots[e.slot] in again.devices;
      SurvivorNotShared(r, again, e.slot);
    }
    SettledMeansLasting(once, entries);
    LoadIdempotentIff(once, entries);
  }

  /** A store one load does not settle: its MASQUE file shows an enrolment both its slots make it skip. */
  lemma LoadNotIdempotent(profile: Profile)
    ensures var d := Device(profile, 1, TunnelType.Wireguard, 0, "", "", 0, 0);
            var s := StoreState(map["d" := d], map[Slot.Wireguard := "d", Slot.Masque := "d"], CLEAN);
            var file := Entry(Slot.Masque, Identity("d", profile, "cert", "key", 1, false));
            var once := Loaded(Some(s), [file]);
            var twice := Loaded(Some(once), [file]);
            && Slot.Wireguard in once.slots && Slot.Masque !in once.slots
            && Slot.Wireguard !in twice.slots && Slot.Masque in twice.slots
  {
    var d := Device(profile, 1, TunnelType.Wireguard, 0, "", "", 0, 0);
    var s := StoreState(map["d" := d], map[Slot.Wireguard := "d", Slot.Masque := "d"], CLEAN);
    var file := Entry(Slot.Masque, Identity("d", profile, "cert", "key", 1, false));
    Unsettling(s, file);
  }

  lemma Unsettling(s: StoreState, file: Entry)
    requires file.slot == Slot.Masque && Held(s, file) && file.identity.certPem != ""
    requires s.slots == map[Slot.Wireguard := file.identity.deviceId, Slot.Masque := file.identity.deviceId]
    requires file.identity.deviceId in s.devices
    requires s.devices[file.identity.deviceId].tunnelType == TunnelType.Wireguard
    ensures Loaded(Some(s), [file]).slots == map[Slot.Wireguard := file.identity.deviceId]
    ensures Loaded(Some(Loaded(Some(s), [file])), [file]).slots == map[Slot.Masque := file.identity.deviceId]
  {
    UnsettledOnce(s, file);
    UnsettledTwice(Loaded(Some(s), [file]), file);
  }

  lemma UnsettledOnce(s: StoreState, file: Entry)
    requires file.slot == Slot.Masque && Held(s, file)
    requires s.slots == map[Slot.Wireguard := file.identity.deviceId, Slot.Masque := file.identity.deviceId]
    requires file.identity.deviceId in s.devices
    requires s.devices[file.identity.deviceId].tunnelType == TunnelType.Wireguard
    ensures Loaded(Some(s), [file]) == s.(slots := map[Slot.Wireguard := file.identity.deviceId])
  {
    var r := Reconciled(s, [file]);
    assert News(s, [file]) == [];
    assert r == s by { AdoptedNothing(s); }
    assert WireguardSurvives(r, Slot.Wireguard) && Shared(r, Slot.Masque);
  }

  lemma UnsettledTwice(once: StoreState, file: Entry)
    requires file.slot == Slot.Masque && file.identity.certPem != ""
    requires once.slots == map[Slot.Wireguard := file.identity.deviceId] && file.identity.deviceId in once.devices
    ensures Loaded(Some(once), [file]).slots == map[Slot.Masque := file.identity.deviceId]
  {
    hide Reconciled, News, SlotMap;
    var id, again := file.identity.deviceId, Reconciled(once, [file]);
    ReconciledSlots(once, [file]);
    SlotMapUnique([file], file);
    forall slot | slot in SlotMap([file]) ensures slot == Slot.Masque { SlotMapMembers([file], slot); }
    assert file in [file];
    assert again.slots == map[Slot.Wireguard := id, Slot.Masque := id];
    assert id in again.devices && again.devices[id].tunnelType == TunnelType.Masque by {
      DeviceAfterReconcile(once, [file], id);
      assert file in [file] && !Held(once, file) && file.Enrols(id);
    }
    assert Revoked(again, Slot.Wireguard) && !Shared(again, Slot.Masque);
  }

  // ---------------------------------------------------------------- knowledge only grows

  /** Migration marks a device enrolled exactly when some file shows its certificate. */
  lemma MigrationKnowledge(entries: seq<Entry>, id: DeviceId)
    ensures id in Migrated(entries).devices <==> id in Ids(entries)
    ensures id in Ids(entries) ==>
              (Migrated(entries).devices[id].tunnelType == TunnelType.Masque <==> ShowsEnrolment(entries, id))
  {
    if id in Ids(entries) && !ShowsEnrolment(entries, id) {
      FirstIsAMember(entries, id);
    }
  }

  lemma {:induction false} FirstIsAMember(entries: seq<Entry>, id: DeviceId)
    requires id in Ids(entries)
    ensures exists e :: e in entries && e.identity == FirstNaming(entries, id).value
  {
    var init, last := entries[..|entries| - 1], entries[|entries| - 1];
    assert entries == init + [last];
    if id in Ids(init) {
      FirstIsAMember(init, id);
      var e :| e in init && e.identity == FirstNaming(init, id).value;
      assert e in entries;
    } else {
      assert last in entries;
    }
  }

  /** Reconciliation: enrolled exactly when the store or a file it acted on said so; nothing else changes. */
  lemma ReconcileKnowledge(s: StoreState, entries: seq<Entry>, id: DeviceId)
    requires id in Reconciled(s, entries).devices
    ensures Reconciled(s, entries).devices[id].tunnelType == TunnelType.Masque <==>
              (id in s.devices && s.devices[id].tunnelType == TunnelType.Masque) ||
              exists e :: e in entries && !Held(s, e) && e.Enrols(id)
    ensures id in s.devices ==>
              Reconciled(s, entries).devices[id].(tunnelType := s.devices[id].tunnelType) == s.devices[id]
  {
    var news := News(s, entries);
    forall e: Entry { NewsMembers(s, entries, e); }
    if id !in s.devices && !ShowsEnrolment(news, id) {
      FirstIsAMember(news, id);
    }
  }

  /** How importing one section of a backup merges with what the store holds. */
  function ImportMerged(existing: Option<Device>, incoming: Device): Device {
    if existing.Some? && existing.value.tunnelType == TunnelType.Masque && !incoming.HasCertificate() then
      incoming.(tunnelType := TunnelType.Masque, certPem := existing.value.certPem,
                keyPem := existing.value.keyPem, certIssuedAt := existing.value.certIssuedAt)
    else incoming
  }

  function Imported(s: StoreState, sections: seq<Entry>, now: nat): StoreState {
    if sections == [] then s
    else
      var last := sections[|sections| - 1];
      var id := last.identity.deviceId;
      var before := Imported(s, sections[..|sections| - 1], now);
      var existing := if id in before.devices then Some(before.devices[id]) else None;
      before.(devices := before.devices[id := ImportMerged(existing, DeviceFrom(last.identity, now))],
              slots := before.slots[last.slot := id])
  }

  /** Import: enrolled exactly when the store or some section said so. */
  lemma {:induction false} ImportKnowledge(s: StoreState, sections: seq<Entry>, now: nat, id: DeviceId)
    ensures id in Imported(s, sections, now).devices <==> id in s.devices || id in Ids(sections)
    ensures id in Imported(s, sections, now).devices ==>
              (Imported(s, sections, now).devices[id].tunnelType == TunnelType.Masque <==>
                 (id in s.devices && s.devices[id].tunnelType == TunnelType.Masque) || ShowsEnrolment(sections, id))
  {
    if sections != [] {
      var init, last := sections[..|sections| - 1], sections[|sections| - 1];
      assert sections == init + [last];
      ImportKnowledge(s, init, now, id);
      OneMoreEntry(init, last);
    }
  }

  /** Whichever order a backup lists its sections in, the same devices end up enrolled. */
  lemma ImportOrderIrrelevant(s: StoreState, one: seq<Entry>, other: seq<Entry>, now: nat, id: DeviceId)
    requires multiset(one) == multiset(other)
    requires id in Imported(s, one, now).devices
    ensures id in Imported(s, other, now).devices
    ensures Imported(s, one, now).devices[id].tunnelType == Imported(s, other, now).devices[id].tunnelType
  {
    assert forall e :: e in one <==> e in multiset(one);
    assert forall e :: e in other <==> e in multiset(other);
    ImportKnowledge(s, one, now, id);
    ImportKnowledge(s, other, now, id);
  }

  /** A record saying the registrar may no longer hold the device's WireGuard key. */
  predicate Marked(d: Device) {
    d.tunnelType == TunnelType.Masque || d.enrolmentPendingSince != 0
  }

  /**
   Import rebuilds a record without its pending marker. A marked device stays marked exactly when no
   section names it, or the store or a section knows of a finished enrolment.
   */
  lemma {:induction false} ImportKeepsMarkIff(s: StoreState, sections: seq<Entry>, now: nat, id: DeviceId)
    requires id in s.devices && Marked(s.devices[id])
    ensures id in Imported(s, sections, now).devices
    ensures Marked(Imported(s, sections, now).devices[id]) <==>
              id !in Ids(sections) || s.devices[id].tunnelType == TunnelType.Masque || ShowsEnrolment(sections, id)
  {
    ImportKnowledge(s, sections, now, id);
    ImportClearsMarker(s, sections, now, id);
  }

  /** A device marked pending, and a backup of it taken before its enrolment: importing it loses the mark. */
  lemma ImportLosesMark(profile: Profile)
    ensures var pending := Device(profile, 1, TunnelType.Wireguard, 7, "", "", 0, 0);
            var s := StoreState(map["d" := pending], map[Slot.Masque := "d"], CLEAN);
            var section := Entry(Slot.Masque, Identity("d", profile, "", "", 0, false));
            && Marked(pending)
            && "d" in Imported(s, [section], 9).devices && !Marked(Imported(s, [section], 9).devices["d"])
  {
    var pending := Device(profile, 1, TunnelType.Wireguard, 7, "", "", 0, 0);
    var s := StoreState(map["d" := pending], map[Slot.Masque := "d"], CLEAN);
    var section := Entry(Slot.Masque, Identity("d", profile, "", "", 0, false));
    assert section in [section];
    ImportKeepsMarkIff(s, [section], 9, "d");
  }

  lemma {:induction false} ImportClearsMarker(s: StoreState, sections: seq<Entry>, now: nat, id: DeviceId)
    requires id in s.devices
    ensures id in Imported(s, sections, now).devices
    ensures Imported(s, sections, now).devices[id].enrolmentPendingSince ==
              if id in Ids(sections) then 0 else s.devices[id].enrolmentPendingSince
  {
    if sections != [] {
      var init, last := sections[..|sections| - 1], sections[|sections| - 1];
      assert sections == init + [last];
      ImportClearsMarker(s, init, now, id);
      OneMoreEntry(init, last);
    }
  }
}
