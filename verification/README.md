# Aether engine: model and proofs

A Dafny model of the parts of the Aether engine whose correctness depends on more than one function,
and proofs of what they keep over every input and every run. `dafny verify dfyconfig.toml` checks it all.

**Identities and enrolment** (`Registration`, `IdentityStore`, `Store`, `IdentityLaws`, `Enrolment`,
`EnrolmentSafety`, `EnrolmentOwnership`). One record per Cloudflare device and four slots pointing at the
records. Enrolling a device for MASQUE destroys its WireGuard key at the registrar. Repair, migration,
reconciliation and import are in-place methods of the class `Store`, proved against closed rules that do not
mention the order of any loop; `IdentityLaws` is about how they compose. `Enrolment` is a transition system:
the registrar's hidden key types, requests under way, the store file, the identity files and the operation in
progress, with a crash possible after every durable effect and a request applied at any later time.
`EnrolmentSafety` proves that the disk's knowledge always covers the registrar's hidden state;
`EnrolmentOwnership` proves that no request ever destroys the key of a device a WireGuard slot names, in every
run over a given layout of identity files exactly when no WireGuard slot shares its file with a MASQUE slot.

**The tunnel's byte stream** (`Varint`, `Capsules`, `Datagrams`, `Stream`, `Checksum`). Variable-length
integers (section 16 of RFC 9000), capsules (section 3.2 of RFC 9297), the incremental capsule parser, the
batching sender and the receiver that guesses whether a context id is present, joined into one end-to-end
theorem; and the IPv4 header checksum (section 3.1 of RFC 791).

**The userspace network stack** (`Netstack`, `NetstackSafety`). Connection tables, socket ownership, bounded
buffers, the deferred queue and teardown are methods of the class `NetStack`; the TCP/IP library underneath is
an environment that moves sockets between phases as it likes. The safety proofs are about every run.

**Bridges** (`Bridges`, `BridgePlan`). Which Tor bridge lines are kept after probing, which transport programs
are launched for them, and the waves the lines are tried in.

**Small parsers and schedulers** (`Dns`, `Chunked`, `Interleave`, `WarpInWarp`). The bootstrap resolver's
query, reply check and ECH parsing; chunked decoding (section 7.1 of RFC 9112); the interleaving that makes a
deadline cut all profiles alike; the loop that finds and keeps two separate edges for a tunnel in a tunnel.

## Main results

- Identities: `CrashSafeEnrolment`, `PatchSparesWireguardIff`, `RepairIdempotent` with `ReportIsExact`,
  `MigrationFixpoint`, `LoadIdempotentIff` with `LoadSettlesInTwo`, `ReconcileKnowledge`, `ImportOrderIrrelevant`,
  `LongRunRate`.
- Byte stream: `ChunkingIndependence`, `ReceiveConserves`, `QueueToQueue`, `ContextDisambiguation`, `ChecksumVerifies`.
- Network stack: `BytesConserved`, `ClosedOnlyBehindData`, `OneOwnerEach`, `RequestsAnsweredOnce`.
- Bridges: `ReachableByKind`, `PlanExact`, `WavesAreRunnable`, `EveryUsableLineIsTried`.
- Parsers and schedulers: `EchOfWellFormed`, `EchoAcceptedIff`, `DechunkInverts` with `DecodedPrefix`,
  `EveryPrefixIsFair`, `RunIsSound`.

## Where the code and its own words differ

- The comment on `RegistrationBudget::failed` says the registrar's Retry-After always wins over the ladder; the
  code takes the larger of the two. `RetryAfterDecidesIff` says exactly when each decides, and
  `RetryAfterPassedOver` is a failure whose Retry-After does not.
- Identity files are meant to be one for each slot, and the comment on `masque_config_path` says why MASQUE must
  not share WireGuard's. The path settings can still name one file for both. `PatchSparesWireguardIff` shows that
  the promise to WireGuard slots then fails in some run, `SharedFileIsNotSpared` gives the run, and
  `CrashSafeEnrolment`, which needs no such condition, still holds.
- Loading the store twice is not always the same as loading it once. `LoadIdempotentIff` gives the exact
  condition, `LoadNotIdempotent` an input that fails it, `LoadSettlesInTwo` shows that two loads always settle.
  A store just migrated settles at once (`MigrationFixpoint`).
- The pending marker is a time in seconds, and zero means "no marker"; `now_unix` answers zero when the clock
  is before 1970. Runs therefore assume a set clock, and `ClockDecides` shows a run where the guarantee holds
  exactly when the clock is not zero.
- `import_identity` rebuilds records without the pending marker. `ImportKeepsMarkIff` says exactly when a
  device that was marked stays so, `ImportLosesMark` an input on which it does not.
- `build_query` writes the low byte of a label's length. `EchoAcceptedIff` shows that a reply echoing the
  question is accepted exactly when no label is longer than 255 bytes, which covers every legal name;
  `LongLabelRefused` is a name it fails for.
- A bare payload whose first bytes are `40 00` before something that looks like a packet is taken for a context
  id. `BarePacketIff` states that exception and `BarePacketLosesTwoBytes` shows it; no packet with a legal IPv4
  header length meets it.

## Model

| member | source | states |
|---|---|---|
| `Registration.RegistrationBudget.constructor` | native/aether/aether/src/identity.rs:142-152 | a new budget is clean, the state every run of failures is counted from |
| `Registration.RegistrationBudget.TryAttempt` | native/aether/aether/src/identity.rs:162-169 | an attempt is refused exactly while the wait lasts, and the wait reported is the least one after which it is allowed |
| `Registration.RegistrationBudget.RecordFailure` | native/aether/aether/src/identity.rs:171-183 | the four fields after a failure: saturating count, times, reason, and the longer of the ladder step and what the registrar asked for |
| `Registration.RegistrationBudget.RecordSuccess` | native/aether/aether/src/identity.rs:185-191 | a kept registration clears count, wait and reason |
| `Registration.AttemptsCounted` | native/aether/aether/src/identity.rs:176-182 | over any run of failures the stored count is the number of failures, saturated at 2^32-1 |
| `Registration.OneWait` | native/aether/aether/src/identity.rs:160-182 | in every run that obeys the budget, consecutive attempts start at least a ladder step apart |
| `Registration.RateBound` | native/aether/aether/src/identity.rs:160-182 | in every such run attempt n starts no earlier than the first plus the sum of all ladder waits before it |
| `Registration.LadderClosedForm` | native/aether/aether/src/identity.rs:160-160 | the sum of the ladder waits from the seventh attempt on is 2910 + 3600(n-6) |
| `Registration.LongRunRate` | native/aether/aether/src/lib.rs:2510-2540 | in every run of failing provisions the k-th attempt, k >= 7, comes at least 2910 + 3600(k-7) seconds after the first |
| `Registration.RetryAfterDecidesIff` | native/aether/aether/src/identity.rs:171-183 | what the registrar asks for decides the wait exactly when it is at least the ladder step of this failure; a shorter one changes nothing, and no answer shortens the wait |
| `Registration.RetryAfterPassedOver` | native/aether/aether/src/identity.rs:171-183 | a first failure answered with one second still waits thirty |
| `IdentityStore.ReportIsExact` | native/aether/aether/src/identity.rs:303-354 | each list of the repair report holds exactly the slots its rule names; a removed slot is in exactly one list, a kept slot in none |
| `IdentityStore.RepairedIsSound` | native/aether/aether/src/identity.rs:303-354 | after repair no slot dangles, no WireGuard slot holds an enrolled device, no device serves both families |
| `IdentityStore.RepairKeepsSound` | native/aether/aether/src/identity.rs:303-354 | repair reports nothing exactly when the store is already sound, and then changes nothing |
| `IdentityStore.RepairIdempotent` | native/aether/aether/src/identity.rs:303-354 | a second repair changes and reports nothing; devices are untouched and no slot is re-pointed |
| `IdentityStore.PersistedRoundTrip` | native/aether/aether/src/identity.rs:356-400 | a saved store parses back to itself exactly when no slot names the empty id; otherwise only those slots are lost |
| `MutableStore.Store.Assign` | native/aether/aether/src/identity.rs:269-278 | a slot is pointed at a device only if the device is in the store; otherwise nothing changes |
| `MutableStore.Store.Repair` | native/aether/aether/src/identity.rs:303-354 | the two in-place passes leave exactly the store, and report exactly the slots, of the order-free rule |
| `MutableStore.Store.DropBroken` | native/aether/aether/src/identity.rs:303-328 | the first pass keeps exactly the slots that name a stored device and, for WireGuard, one not enrolled |
| `MutableStore.Store.DropShared` | native/aether/aether/src/identity.rs:330-352 | the second pass ends with exactly the surviving slots and reports exactly the shared MASQUE ones |
| `MutableStore.Store.Clash` | native/aether/aether/src/identity.rs:330-345 | whether a slot of the other family holds the same device |
| `MutableStore.Store.AbsorbFile` | native/aether/aether/src/identity.rs:506-532 | one legacy file taken into the store under construction, field by field |
| `MutableStore.Store.MigrateFromLegacy` | native/aether/aether/src/identity.rs:498-535 | the loop over the legacy files builds the store of the closed rule: every id once, first copy kept, enrolment and first certificate merged, last file of a slot wins |
| `MutableStore.Store.AdoptFile` | native/aether/aether/src/identity.rs:556-572 | one file that disagrees with the store taken in |
| `MutableStore.Store.ReconcileWithLegacy` | native/aether/aether/src/identity.rs:543-578 | the loop over the files adopts exactly those whose slot did not already hold their device, and reports their slots |
| `MutableStore.Store.ImportSections` | native/aether/aether/src/lib.rs:800-825 | the loop over a backup's sections merges them one by one as the closed rule says |
| `MutableStore.Store.Load` | native/aether/aether/src/identity.rs:585-672 | load hands out the migrated or reconciled store after repair; it saves exactly when it migrated, adopted or repaired something; the file then holds the store, or nothing if the save failed, and otherwise already held it |
| `IdentityLaws.ReconciledSlots` | native/aether/aether/src/identity.rs:543-578 | after reconciling, every slot some file speaks for holds that file's device and the other slots are as they were |
| `IdentityLaws.MigrationFixpoint` | native/aether/aether/src/identity.rs:498-578 | for all legacy contents, reconciling the repaired migrated store with the same files gives back the raw migrated store, so the second load yields the identical store |
| `IdentityLaws.SettledMeansLasting` | native/aether/aether/src/identity.rs:546-578 | the condition on store and files below says exactly that every file reconciliation skips keeps its slot, or is not news when read again |
| `IdentityLaws.LoadIdempotentIff` | native/aether/aether/src/identity.rs:585-672 | a second load yields the same store exactly when, of every file whose slot already held its device, the device is stored or named by another file, and, if that file shows a certificate in a MASQUE slot, no WireGuard slot is given the device unless something else says it is enrolled |
| `IdentityLaws.LoadSettlesInTwo` | native/aether/aether/src/identity.rs:585-672 | every store is settled after one load, so the second load is always the last to change anything |
| `IdentityLaws.LoadNotIdempotent` | native/aether/aether/src/identity.rs:546-578 | a store and a file for which two loads in a row give different stores |
| `IdentityLaws.Unsettling` | native/aether/aether/src/identity.rs:546-578 | the whole family of that example: a skipped MASQUE file whose device a WireGuard slot shares moves the device on the second load |
| `IdentityLaws.MigrationKnowledge` | native/aether/aether/src/identity.rs:508-524 | migration stores exactly the devices the files name, Masque exactly when some file shows a certificate |
| `IdentityLaws.ReconcileKnowledge` | native/aether/aether/src/identity.rs:546-575 | after reconciling a device is Masque exactly when the store or an adopted file said so; every other field of a stored device is untouched |
| `IdentityLaws.ImportKnowledge` | native/aether/aether/src/lib.rs:800-825 | after an import a device is Masque exactly when the store or any section said so, and no device is dropped |
| `IdentityLaws.ImportOrderIrrelevant` | native/aether/aether/src/lib.rs:805-811 | the order in which a backup lists its sections does not change which devices end as Masque |
| `IdentityLaws.ImportKeepsMarkIff` | native/aether/aether/src/lib.rs:800-825 | an import keeps a device marked exactly when no section names it, it was Masque, or a section shows its certificate; otherwise the pending marker is lost |
| `IdentityLaws.ImportClearsMarker` | native/aether/aether/src/lib.rs:800-825 | the pending marker survives an import exactly for devices no section names |
| `IdentityLaws.ImportLosesMark` | native/aether/aether/src/lib.rs:800-825 | a pending device and a backup with one section for it without a certificate: the import leaves it unmarked |
| `EnrolmentSafety.LoadKnows` | native/aether/aether/src/identity.rs:585-672 | a load from a disk that covers the registrar's hidden state hands out a store that covers it |
| `EnrolmentSafety.RecordKeeps` | native/aether/aether/src/lib.rs:664-692 | recording an identity forgets no enrolled or pending device |
| `EnrolmentSafety.SaveKeeps` | native/aether/aether/src/lib.rs:664-692 | writing the store leaves the disk covering the registrar's state |
| `EnrolmentSafety.FileKeeps` | native/aether/aether/src/lib.rs:664-692 | writing an identity file about a stored device, or one with its certificate, hides nothing from the next load |
| `EnrolmentSafety.WireguardOfferIsSound` | native/aether/aether/src/identity.rs:259-266 | a store that knows enough never offers a WireGuard slot a device whose key is replaced or may yet be |
| `EnrolmentSafety.SendStep` | native/aether/aether/src/lib.rs:2588-2621 | the request leaves only after the marker is on disk, so the disk covers it however late it is applied |
| `EnrolmentSafety.EnrolStep` | native/aether/aether/src/lib.rs:2588-2621 | every enrolment step - marking, sending, answer, refusal, recording the certificate - keeps the invariant |
| `EnrolmentSafety.StepKeepsInv` | native/aether/aether/src/lib.rs:2542-2689 | every action, including a crash at any point and a request applied late, keeps the disk's knowledge covering the registrar |
| `EnrolmentSafety.RunKeepsInv` | native/aether/aether/src/lib.rs:2542-2689 | the invariant holds in every world of every run with a set clock |
| `EnrolmentSafety.CrashSafeEnrolment` | native/aether/aether/src/lib.rs:2542-2689 | in every run every stored device whose key is replaced, or may be by a request still out, is Masque or pending, and no WireGuard slot offers it, on disk, in memory, or after the next load |
| `EnrolmentSafety.FreshInstallStarts` | native/aether/aether/src/identity.rs:585-622 | an install with no store and no files satisfies the runs' starting condition |
| `EnrolmentSafety.MarkerNeedsClock` | native/aether/aether/src/lib.rs:2596-2606 | setting the marker marks the device exactly when the clock is not zero or it was Masque already |
| `EnrolmentSafety.ClockDecides` | native/aether/aether/src/account.rs:897-902 | a complete run ending in a crash after the registrar applied the request: the disk still knows exactly when the marker's clock was not zero |
| `EnrolmentOwnership.LoadApart` | native/aether/aether/src/identity.rs:585-672 | what a load hands out keeps every outstanding request away from WireGuard slots |
| `EnrolmentOwnership.SendKeepsApart` | native/aether/aether/src/lib.rs:2588-2621 | a request leaves only for a device no WireGuard slot names, in memory or on disk, and none can come to name |
| `EnrolmentOwnership.StepKeepsApart` | native/aether/aether/src/lib.rs:2542-2689 | every action keeps devices with outstanding requests apart from WireGuard slots |
| `EnrolmentOwnership.RunKeepsApart` | native/aether/aether/src/lib.rs:2542-2689 | so does every run over a layout that keeps the two families' files apart |
| `EnrolmentOwnership.PatchSparesWireguard` | native/aether/aether/src/account.rs:923-972 | in every run over such a layout, whenever the registrar applies an enrolment, no WireGuard slot on disk, in memory or after a load names that device |
| `EnrolmentOwnership.SharedFileIsNotSpared` | native/aether/aether/src/lib.rs:2305-2338 | over any layout with a WireGuard and a MASQUE slot on one path, a complete run of a fresh install after which a load would put the device being enrolled into the WireGuard slot |
| `EnrolmentOwnership.PatchSparesWireguardIff` | native/aether/aether/src/lib.rs:2305-2338 | every run over a layout spares the WireGuard slots' devices exactly when no WireGuard slot shares a path with a MASQUE slot |
| `Varint.VarintRoundTrip` | native/aether/quiche/octets/src/lib.rs:187-209 | every value below 2^62 decodes from its shortest encoding, whatever follows, and takes exactly its length |
| `Varint.VarintPrefix` | native/aether/quiche/octets/src/lib.rs:187-209 | bytes behind a whole varint do not change how it reads |
| `Capsules.EncodeCapsule` | native/aether/aether/src/masque.rs:91-111 | a capsule takes the length of its two varints and its value |
| `Capsules.FrameRoundTrip` | native/aether/aether/src/masque.rs:103-111 | an appended capsule is read back whole and takes exactly its bytes, whatever follows |
| `Capsules.FramePrefix` | native/aether/aether/src/masque.rs:184-206 | a whole capsule reads the same however many bytes have arrived behind it |
| `Capsules.ParseAddressAssign` | native/aether/aether/src/masque.rs:226-250 | the cursor loop yields exactly the entries of the recursive reading, or its first error |
| `Capsules.ParseRouteAdvertisement` | native/aether/aether/src/masque.rs:252-276 | the cursor loop yields exactly the entries of the recursive reading, or its first error |
| `Capsules.AddressesRoundTrip` | native/aether/aether/src/masque.rs:226-250 | every list of well-formed address entries parses back from its encoding |
| `Capsules.RoutesRoundTrip` | native/aether/aether/src/masque.rs:252-276 | every list of well-formed routes parses back from its encoding (section 4.7.3 of RFC 9484) |
| `Capsules.CapsuleParser.Push` | native/aether/aether/src/masque.rs:175-182 | a chunk is appended unless it would overflow the cap, when everything held is dropped |
| `Capsules.CapsuleParser.Next` | native/aether/aether/src/masque.rs:184-217 | a call takes exactly one capsule's bytes, malformed or not, and returns what its value means; it returns nothing exactly when no whole capsule is there |
| `Capsules.CapsuleParser.Capsule` | native/aether/aether/src/masque.rs:205-217 | the value of a capsule is read by its type |
| `Capsules.ResultsAppend` | native/aether/aether/src/masque.rs:184-217 | later bytes only add results, and only to what was left over |
| `Capsules.BufferBounded` | native/aether/aether/src/masque.rs:168-182 | in every run of pushes and calls the buffer holds at most 256 KiB |
| `Capsules.ChunkingIndependence` | native/aether/aether/src/masque.rs:168-217 | in every run, what was handed out followed by what the buffer still holds is the reading of the whole stream, however it was cut |
| `Capsules.DrainedRunsAgree` | native/aether/aether/src/masque.rs:168-217 | two drained runs over the same bytes hand out the same capsules and errors in the same order and hold the same rest |
| `Datagrams.DatagramRoundTrip` | native/aether/aether/src/masque.rs:52-89 | a datagram decodes to its packet on its own stream and to nothing on any other |
| `Datagrams.BarePacketStartsWithTwoByteVarint` | native/aether/aether/src/masque.rs:157-162 | the version nibble of a bare packet announces a two-byte varint, and this is its value |
| `Datagrams.BarePacketIff` | native/aether/aether/src/masque.rs:133-155 | a bare packet comes back whole exactly when it does not read as context 0 before another packet |
| `Datagrams.BarePacketLosesTwoBytes` | native/aether/aether/src/masque.rs:133-155 | the bytes 40 00 before any packet pass for a bare packet, and lose those two bytes |
| `Datagrams.FramedPacket` | native/aether/aether/src/masque.rs:133-155 | behind context id 0, in any of its encodings, a packet comes back whole |
| `Datagrams.ContextDisambiguation` | native/aether/aether/src/masque.rs:133-162 | every IPv6 packet, and every IPv4 packet with a legal header length, of at least 20 bytes comes back whole both bare and behind context id 0 |
| `Stream.FillBatch` | native/aether/aether/src/masque_h2.rs:666-675 | a batch holds the packets taken off the queue, in order and framed, and ends below its limit only when the queue is empty |
| `Stream.PumpOutbound` | native/aether/aether/src/masque_h2.rs:639-703 | for every interleaving of control messages and queue arrivals, and whichever send fails first, the bytes on the wire are the framed items in order; only the items of a failed send are lost, the rest of the queue is kept |
| `Stream.DrainCapsules` | native/aether/aether/src/masque_h2.rs:705-755 | the loop offers packets and assigned addresses as the source does, whatever the queue answers, and reports data exactly when it offered a packet |
| `Stream.DrainConserves` | native/aether/aether/src/masque_h2.rs:705-755 | for every buffer and every answer of the queue, closed included: packets offered and then those still in the buffer are the buffer's, and the queue holds exactly those it accepted |
| `Stream.DrainEmpties` | native/aether/aether/src/masque_h2.rs:705-755 | a drain that meets nothing malformed and no closed queue leaves only what is incomplete |
| `Stream.ReceiveBody` | native/aether/aether/src/masque_h2.rs:582-587 | the push-and-drain loop over the body's chunks |
| `Stream.ReceiveConserves` | native/aether/aether/src/masque_h2.rs:582-587 | for every chunking that never overflows, malformed capsules and any answers of the queue included: packets offered so far and then those still in the buffer are the stream's, in order |
| `Stream.ReceiveDeliversAll` | native/aether/aether/src/masque_h2.rs:582-587 | with nothing malformed and the queue not closed, every packet of the stream is offered, the queue holds those it accepted, and only the incomplete rest is kept |
| `Stream.CarriedResults` | native/aether/aether/src/masque_h2.rs:639-683 | the stream the sender writes for valid packets reads back as exactly those packets with nothing left |
| `Stream.ItemsCarry` | native/aether/aether/src/masque_h2.rs:602-606 | what the send loop takes, queued packets and probe capsules, is a stream of such packets |
| `Stream.EndToEnd` | native/aether/aether/src/masque_h2.rs:582-755 | however packets are batched and however the bytes are cut, exactly the packets sent are offered, in order, and the buffer ends empty |
| `Stream.QueueToQueue` | native/aether/aether/src/masque_h2.rs:582-755 | from the sender's queue to the receiver's: without probes and with an emptied queue the receiver holds exactly the packets that arrived at the sender, in order; with probes, those among the probes |
| `Checksum.Ipv4HeaderChecksum` | native/aether/aether/src/masque.rs:342-356 | the fold loop ends without overflow and returns the complement of the one's-complement sum |
| `Checksum.ChecksumVerifies` | native/aether/aether/src/masque.rs:301-313 | every header stamped with its own checksum has folded sum 0xffff |
| `Netstack.SendPending` | native/aether/aether/src/netstack.rs:846-861 | what the socket takes and what stays waiting together are what was waiting, in order |
| `Netstack.EstablishedTurn` | native/aether/aether/src/netstack.rs:846-932 | a turn of a live connection moves bytes from waiting to handed over and changes nothing else about them |
| `Netstack.ServiceConn` | native/aether/aether/src/netstack.rs:789-933 | a turn that keeps a connection keeps its handle, its half-close and its bytes |
| `Netstack.NetStack.constructor` | native/aether/aether/src/netstack.rs:526-536 | a stack starts with no connection, id 1 and port 49152 |
| `Netstack.NetStack.TryHandleData` | native/aether/aether/src/netstack.rs:744-782 | one item of app data: taken whole, taken in part with exactly the rest returned, or dropped if its connection is gone |
| `Netstack.NetStack.OpenTcpConnection` | native/aether/aether/src/netstack.rs:660-700 | a TCP open adds one connection holding its responder and socket, or answers a failure and adds nothing |
| `Netstack.NetStack.OpenUdpConnection` | native/aether/aether/src/netstack.rs:701-734 | a UDP open adds one socket and answers, or answers a failure |
| `Netstack.NetStack.ServiceUdpConnection` | native/aether/aether/src/netstack.rs:938-986 | a UDP socket goes, with its entry, exactly when its app has gone |
| `Netstack.NetStack.ReceiveInto` | native/aether/aether/src/netstack.rs:871-901 | the app gets received chunks in order while it has room, at most the tick's limit |
| `Netstack.NetStack.FinishTurn` | native/aether/aether/src/netstack.rs:917-932 | the peer's close and a finished connection as the source treats them |
| `Netstack.NetStack.ServiceConnection` | native/aether/aether/src/netstack.rs:789-933 | the in-place turn of one connection computes the step function the runs are built from |
| `Netstack.NetStack.TakeConnectingTurn` | native/aether/aether/src/netstack.rs:820-844 | a connection that is not up is refused, given up at its deadline or by its opener, or left alone |
| `Netstack.NetStack.TakeEstablishedTurn` | native/aether/aether/src/netstack.rs:846-932 | the in-place turn of an established connection: flush, close if done, receive, tidy up |
| `Netstack.NetStack.TakeOrphanTurn` | native/aether/aether/src/netstack.rs:903-915 | a connection whose app vanished lingers within its limit and is then aborted |
| `Netstack.NetStack.Flush` | native/aether/aether/src/netstack.rs:846-861 | the bytes the socket accepts leave the waiting buffer and no others |
| `Netstack.NetStack.ServiceTcp` | native/aether/aether/src/netstack.rs:784-936 | every connection present gets exactly one turn, in whatever order the map yields them |
| `Netstack.ServiceOneOwned` | native/aether/aether/src/netstack.rs:784-936 | a turn keeps ownership and touches no other connection |
| `Netstack.EventLoop.RetryDeferred` | native/aether/aether/src/netstack.rs:581-586 | the deferred item is retried until it does not fit, and put back in front |
| `Netstack.EventLoop.TakeData` | native/aether/aether/src/netstack.rs:629-646 | the queue is read until an item does not fit; at most one item is deferred and nothing behind it is read |
| `Netstack.PortCycle` | native/aether/aether/src/netstack.rs:543-547 | the n-th port handed out, in closed form: ports cycle through 49152..65000 |
| `Netstack.PortReuse` | native/aether/aether/src/netstack.rs:543-547 | two allocations get the same port exactly when a multiple of 15849 allocations lies between them |
| `NetstackSafety.ClosingCauses` | native/aether/aether/src/netstack.rs:862-932 | a turn first closes a socket only because the app finished and nothing waits, the app is gone, or the peer closed |
| `NetstackSafety.TurnStep` | native/aether/aether/src/netstack.rs:784-936 | a TCP turn keeps every claim about every connection |
| `NetstackSafety.StepKeepsInv` | native/aether/aether/src/netstack.rs:549-651 | every step of the event loop and every event from outside keeps the invariant |
| `NetstackSafety.RunKeepsInv` | native/aether/aether/src/netstack.rs:549-651 | the invariant holds in every state of every run |
| `NetstackSafety.BytesConserved` | native/aether/aether/src/netstack.rs:744-782 | in every run, for every live connection, handed over ++ waiting ++ deferred ++ queued is what the app sent; waiting stays under its cap; at most one item is deferred |
| `NetstackSafety.ClosedOnlyBehindData` | native/aether/aether/src/netstack.rs:862-869 | in every run a socket closed because the app finished has been handed every byte sent before the app's first close |
| `NetstackSafety.OneOwnerEach` | native/aether/aether/src/netstack.rs:660-986 | in every run handles in the socket set and connection entries are in bijection, kind by kind |
| `NetstackSafety.RequestsAnsweredOnce` | native/aether/aether/src/netstack.rs:660-844 | in every run every open request was answered exactly once, or its connection is not yet up and still holds its responder |
| `Bridges.KeepReachable` | native/aether/aether/src/bridges.rs:622-687 | the three loops with their counting maps keep exactly the lines of the kept-lines rule |
| `Bridges.ReachableByKind` | native/aether/aether/src/bridges.rs:643-687 | of every kind the first six answering lines are kept in order, or the first six of all when none answers: at most six per kind, no kind lost, a dead line kept only if its kind is silent |
| `Bridges.ReachableInOrder` | native/aether/aether/src/bridges.rs:668-687 | the output is a subsequence of the input |
| `BridgePlan.FreshOnes` | native/aether/aether/src/bridges.rs:782-787 | the filter that claims as it goes keeps each unclaimed protocol once |
| `BridgePlan.Retain` | native/aether/aether/src/bridges.rs:808-814 | the two pruning passes keep exactly the transports that speak something used, cut down to it |
| `BridgePlan.PlanWith` | native/aether/aether/src/bridges.rs:770-822 | the loops over extras, discovered transports and lines build the plan of the closed rule |
| `BridgePlan.RestrictIsTight` | native/aether/aether/src/bridges.rs:808-814 | no kept transport is idle and none speaks something unused |
| `BridgePlan.PlanExact` | native/aether/aether/src/bridges.rs:770-822 | a protocol is launched exactly when a line names it and something offers it, by its first offerer and once unless given more often by hand; the sorted missing list holds exactly those named and offered by nothing |
| `BridgePlan.SpeakableExact` | native/aether/aether/src/bridges.rs:796-806 | exactly the lines nothing can speak are struck out, the rest keeping number and order |
| `BridgePlan.StrictOrder` | native/aether/aether/src/bridges.rs:721-730 | by name alone, and remembered first, then preferred, then by name, are strict total orders |
| `BridgePlan.OrderIsUnique` | native/aether/aether/src/bridges.rs:720-730 | only one list of the same kinds is in that order |
| `BridgePlan.SortedNames` | native/aether/aether/src/bridges.rs:720-730 | the kinds come sorted, each once |
| `BridgePlan.MissingExact` | native/aether/aether/src/bridges.rs:796-821 | the missing transports come sorted by name, each once |
| `BridgePlan.GroupByKind` | native/aether/aether/src/bridges.rs:711-715 | every kind's group holds exactly its lines, in order |
| `BridgePlan.Waves` | native/aether/aether/src/bridges.rs:710-764 | no waves for fewer than two kinds, otherwise one wave per kind in order, each with its lines and transports |
| `BridgePlan.SplitIsUnique` | native/aether/aether/src/bridges.rs:710-764 | that specification leaves exactly one possible list of waves |
| `BridgePlan.RememberedGoesFirst` | native/aether/aether/src/bridges.rs:721-730 | the remembered transport, if it has lines, is the first wave |
| `BridgePlan.WavesLoseNothing` | native/aether/aether/src/bridges.rs:710-764 | every line occurs in the waves exactly as often as in the plan |
| `BridgePlan.WavesAreRunnable` | native/aether/aether/src/bridges.rs:710-822 | after planning, every wave but the plain one has lines and transports, each transport speaks only the wave's protocol, and its first offerer is launched |
| `BridgePlan.EveryUsableLineIsTried` | native/aether/aether/src/bridges.rs:710-822 | from the lines given to the waves tried, every line something can speak occurs as often as it was given and no other occurs |
| `Dns.BuildQuery` | native/aether/aether/src/dns.rs:115-133 | the query is its header and the question of its name and type |
| `Dns.ResponseMatches` | native/aether/aether/src/dns.rs:61-113 | a message is accepted exactly when header, labels, root byte, type and room for the class are as the query had them |
| `Dns.LabelsFoundIff` | native/aether/aether/src/dns.rs:81-101 | encoded labels are found where they stand exactly when every label fits its length byte |
| `Dns.EchoAcceptedIff` | native/aether/aether/src/dns.rs:61-133 | a reply that echoes the query's question is accepted exactly when no label is longer than 255 bytes, so for every legal name |
| `Dns.LongLabelRefused` | native/aether/aether/src/dns.rs:122-128 | a name of one 256-byte label: the echo of its own query is refused |
| `Dns.TruncationRejected` | native/aether/aether/src/dns.rs:61-113 | no message shorter than header and question is accepted, whatever the name |
| `Dns.SkipName` | native/aether/aether/src/dns.rs:191-202 | skipping a name ends, moves forward, and passes the end of the buffer by at most the second byte of a pointer |
| `Dns.SkipNameFrom` | native/aether/aether/src/dns.rs:191-202 | the loop computes that function |
| `Dns.ParseSvcParamsEch` | native/aether/aether/src/dns.rs:169-189 | the loop over service parameters stays inside the record |
| `Dns.ParseHttpsEch` | native/aether/aether/src/dns.rs:135-167 | the two loops over questions and answers stay inside every message and end |
| `Dns.SkipsName` | native/aether/aether/src/dns.rs:191-202 | on a well-formed name, compressed or not, skipping ends right behind it |
| `Dns.FindsEchParam` | native/aether/aether/src/dns.rs:169-189 | on well-formed parameters the first key-5 value is found |
| `Dns.FindsEchInAnswers` | native/aether/aether/src/dns.rs:135-167 | on well-formed answers the first HTTPS record with a key-5 parameter decides |
| `Dns.EchOfWellFormed` | native/aether/aether/src/dns.rs:135-189 | on every well-formed reply the parser returns the first key-5 value of the first HTTPS record that has one |
| `Chunked.FirstCrlf` | native/aether/aether/src/apifront.rs:224-226 | the first CRLF is found, and none only if there is none |
| `Chunked.Dechunk` | native/aether/aether/src/apifront.rs:220-248 | the cursor loop computes the recursive decoding on every byte string |
| `Chunked.NextChunkPrefix` | native/aether/aether/src/apifront.rs:220-248 | more bytes never change a chunk that was whole |
| `Chunked.DecodedPrefix` | native/aether/aether/src/apifront.rs:220-248 | for every byte string, well-formed or not, decoding a prefix gives a prefix of decoding the whole |
| `Chunked.SizeOfHeader` | native/aether/aether/src/apifront.rs:227-237 | a header with digits in either case, blanks and an extension reads as its digits' value |
| `Chunked.DechunkInverts` | native/aether/aether/src/apifront.rs:220-248 | every chunked encoding of every body, with any extensions and trailer, decodes to the body |
| `Interleave.InterleaveGroups` | native/aether/aether/src/lib.rs:3997-4011 | the nested loops pick the items at the places of the offset-by-offset order |
| `Interleave.InterleavingPermutes` | native/aether/aether/src/lib.rs:3997-4011 | for every stride the result is a permutation of the items |
| `Interleave.RoundRobin` | native/aether/aether/src/lib.rs:3997-4011 | with whole groups the p-th item taken is from group p modulo the number of groups |
| `Interleave.EveryPrefixIsFair` | native/aether/aether/src/lib.rs:3988-4011 | with whole groups every prefix takes each group as often as any other, give or take one |
| `WarpInWarp.Pinned` | native/aether/aether/src/lib.rs:395-470 | each hop is the first of its own setting, its place in the list and, the outer always and the inner only when nothing else names an outer, its place in the older settings; two hops on one address are refused |
| `WarpInWarp.DistinctAreFastest` | native/aether/aether/src/wg_prober.rs:389-395 | one result is left for every address that answered, its fastest, fastest first |
| `WarpInWarp.SelectionIsApart` | native/aether/aether/src/lib.rs:2748-2821 | a selection names between one and the wanted number of endpoints, on separate addresses, none of them to avoid |
| `WarpInWarp.RunGool` | native/aether/aether/src/lib.rs:1966-2094 | the loop with its failure counter makes exactly the attempts of the step function |
| `WarpInWarp.RunIsSound` | native/aether/aether/src/lib.rs:1966-2094 | in every run both hops of every attempt are on different addresses, pinned hops are always used, scanned ones come from that round's scan, and each scan serves exactly two attempts |

## Left out

- Sockets, TLS, QUIC, h2 and the TCP/IP library: foreign code; in the network stack a poll may move any socket to any phase and fill its receive buffer, but takes nothing from what the app handed over.
- The JNI bridge, the TUN pump and the chain library loader: foreign calls.
- Store write failure and the recovery of an unreadable store in the runs of `Enrolment`: these paths discard markers, so the runs assume a store that reads and writes; `MutableStore.Store.Load` says what each leaves behind.
- The library entry points `open_identity` and `attach_masque_cert` (native/aether/aether/src/api.rs:303-330): they send the enrolment request with no marker and no store, so nothing proved about runs covers a caller of theirs.
- `import_identity` as a step of the crash runs: it drops the pending marker, as `ImportKeepsMarkIff` states exactly.
- That a saved registration is never abandoned: a crash between the store write and the file write lets reconciliation take the older file's device back.
- The provisioning functions as imperative code: they are actions of `Enrolment`, one for each durable effect, since a crash may fall between any two.
- The growing output buffer of `append_capsule`: a batch is the concatenation of its encoded capsules.
- HTTP account calls, Retry-After parsing and the contents of refusals: registrar answers are choices of the environment; a fresh registration returns an id nothing mentions yet.
- Text formats: TOML and base64 are taken as injective encodings, so `identity_from` cannot fail here and a store file is the `Persisted` value it spells.
- Registration.LongRunRate: seconds do not wrap at 2^64, and the clock does not run back, as the rate promise itself assumes.
- Checksum.Ipv4HeaderChecksum: headers longer than 128 KiB, for which the 32-bit sum could wrap, are excluded; an IPv4 header has at most 60 bytes.
- Capsules.CapsuleParser.Next: a capsule length is not truncated to a 32-bit `usize`; the model is of a 64-bit build.
- Stream.ReceiveConserves: needs that no chunk overflows the parser's 256 KiB cap, where the code drops what it holds; so do `Stream.ReceiveDeliversAll`, `Stream.EndToEnd` and `Stream.QueueToQueue`.
- Stream.DrainCapsules: what the address channel does with an address offered to it is not modelled; the code ignores its answer.
- The h2 sender's wait for capacity and how a send fails: `Stream.PumpOutbound` takes the outcome of each send as an input.
- The encoder of address requests: nothing in the engine decodes one.
- Delivery of waiting bytes after the peer half-closes: the code closes at once in that phase, and `NetstackSafety.ClosingCauses` says so.
- Netstack.NetStack.TryHandleData: a UDP item's payload is handed to the socket and forgotten; its transmission is not modelled.
- Netstack.NetStack.ServiceUdpConnection: only the ownership of UDP sockets is modelled, not the delivery of the datagrams they receive.
- Address changes in the network stack, the timing of its event loop, its transmit queue and dropped outbound packets.
- Bridges.KeepReachable: the outcome of each probe, and whether a line names an address to probe, is an input; counting the lines of each kind for a log message is not modelled.
- Discovering transport programs, fetching and caching bridge lines, and shuffling a wave.
- Dns.BuildQuery: the random id is an argument; sending, retrying and the choice of servers are left out.
- Interleave.EveryPrefixIsFair: stated for a whole number of groups, where it is promised; with a short last group its later offsets are missing by design.
- WarpInWarp.RunGool: what each scan verifies is an input; parsing of endpoint texts, prompts, delays and the tunnel itself are left out.
- Exclusion of failing WireGuard endpoints over whole runs: one of the scan passes does not receive the excluded set, so the engine does not establish it.
- Noise and obfuscation profiles, probing, prompts, command-line flags, profile user interface: input, output or randomness.
