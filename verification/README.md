# A verified model of Tincan

Tincan builds a WireGuard mesh without a coordination server. Its members share one signed
directory through an untrusted drop, and each of them decides alone which directory to accept,
which peers to route through a relay, which endpoints to push or publish, and what to write into
a hosts file. This project models those decisions in Dafny and proves that they fit together.

What is proved, in order of weight:

- **No rollback.** A step system with one publishing machine, any number of machines and syncing
  processes, crashes between any two file writes, uploads with unknown outcome, forced publishes
  and a drop that may serve any earlier upload: a machine that has installed directory `d` with
  serial `s` later installs only `d` itself or something above `s`; no serial ever names two
  uploads; the three state files stay in order at every crash point.
- **Whole-mesh delivery.** With one valid directory applied everywhere and any controller states,
  every path has at most two hops, and source checks pass in both directions for every pair,
  except two endpointless members that disagree about their mode. Paths follow the kernel tables
  that Apply leaves, from any earlier kernel state. When the hub itself is a plain WireGuard member
  the claim is false; the exact condition is proved.
- **Bech32** is a bijection on what it accepts, at every length, through the `uint32` accumulator
  and the polymod; one replaced data character is always detected.
- **Admin edits.** Over any run of transactions the working copy is the fold of all edits
  that took effect, each upload is that fold at its moment, and observation leaves a staged edit alone.
- **The kernel table after Apply**, **observed endpoints over a daemon's life**, the **discovery
  store**, and the **mode state machine** have their run-level guarantees.
- **DNS chunks** reassemble from any permutation among foreign values; both write paths meet one
  specification, and the record-by-record path is safe and restartable at every point.
- **NIP-01 serialization** is injective, without any condition on the public key, and the event a
  reader selects does not depend on the order in which relays answer.
- **The hosts file** rewriter touches nothing but its own interface's block.
- **The IPv4 allocator** returns the lowest usable free address and looks at no more addresses
  than it must.

Code that updates state is modelled by methods and classes proved against functions; the theorems
are lemmas about those functions. Keys and tunnel addresses are opaque numbers, times are integers
with 0 for Go's zero time, and a signed blob is the directory value it opens to.

`dafny verify dfyconfig.toml` checks the whole project.

## Claims that fail, and exactly when

- `internal/relay/controller.go:74` says a spoke is never a relay candidate. The code only asks
  for an endpoint, and a plain WireGuard member may publish one. `Mesh.PlainHubMesh` is a mesh of
  three nodes in which a member then cannot be reached; `Mesh.HubCondition` and
  `Directory.HubIsTarget` state exactly when the claims that rely on the comment hold.
- A crash between the serial write and the cache write leaves the cache below the high-water mark.
  The order of the writes is meant to prevent a rollback, and does, but an offline sync then fails
  until the drop answers, unless the same serial was cached before: `StateDir.OfflineAfterCrash`,
  with a disk in `StateDir.CrashStopsOfflineSync`.
- In `internal/drop/dns.go:289-344` the total `-1` doubles as "no chunk seen yet", so chunks that
  claim different totals can reassemble: `Chunks.MixedTotalsReassemble`. All chunks of a
  reassembled blob claim their own number if and only if the first does not claim `-1`
  (`Chunks.TotalsExactly`); each index from 0 on is used once in any case.
- `internal/drop/dns.go:154-162` flushes a staging provider only if this call made an edit. When
  the Flush is lost after the last edit, another Put of the same blob finds nothing to do and
  reports success while the zone goes on serving the old set: `DnsPut.LostFlush`.
  `DnsPut.PutRecords` states exactly when a successful Put is also served. The one caller seals
  anew under a higher serial each time, so its next Put has other chunks and does flush.
- A publish can report an error although the edit is out. If the bootstrap file, the last step
  (`internal/cli/helpers.go:153-155`), is what fails, all else is in place; this happens exactly when
  the publish would otherwise have succeeded (`AdminEdits.DoneWithErrorExactly`, with an input in
  `AdminEdits.FirstPublishReportsError`). If the drop's answer is lost, or a file write between the
  upload and the working copy fails, the upload is out and the working copy does not know;
  `AdminEdits.TornExactly` states exactly when, and `AdminEdits.LostAcknowledgement` what follows.
- An endpoint that the daemon pushed can be published as observed if a peer leaves the directory,
  an Apply fails so that the kernel keeps the peer, and the peer returns: the stamp of the push is
  pruned all the same (`internal/cli/up.go:424-427`). `Observation.ReturningPeer` is such a run;
  `Observation.ObservedFromWire` shows that it takes such a return, in a daemon that
  starts with no pushed endpoint in the kernel and whose clock does not run back.

## Model

| member | source | states |
|---|---|---|
| `SerialProtocol.NeverRollsBack` | internal/cli/sync.go:94-148 | in every run of the step system, a later acceptance on a machine is the same directory or has a higher serial |
| `SerialProtocol.SerialsNeverReused` | internal/cache/publish.go:23-41 | no two different directories are ever uploaded under one serial, whatever crashed or was forced |
| `SerialProtocol.FilesStayOrdered` | internal/cache/cache.go:41-84 | at every point of every run, crash points included: state.json serial <= cache serial <= serial file |
| `SerialProtocol.StepKeeps` | internal/cli/helpers.go:116-157 | each of the thirteen steps keeps the invariant: unique serials, the reservation covers every upload, locks exclude, writers are past their check |
| `SerialProtocol.StepAdvances` | internal/cache/cache.go:46-84 | no step lowers a serial file or forgets an acceptance |
| `SerialProtocol.MarksOnlyRise` | internal/cache/cache.go:99-116 | the same over any stretch of a run, floor writes included |
| `SerialProtocol.FailedUploadHarmless` | internal/cli/helpers.go:132-147 | reserving and failing to upload change none of serial, cache and state, so offline syncing works after it exactly if it worked before |
| `SerialProtocol.StepsAreWrite` | internal/cache/cache.go:46-84 | undisturbed, the protocol's steps take the disk through the very trail of the cache.Write method |
| `Undisturbed.StepsArePublish` | internal/cli/helpers.go:132-157 | undisturbed, the nine steps of a publish leave the disk and the drop as the publish transaction does, and nothing else changed |
| `Undisturbed.StepsAreSync` | internal/cli/sync.go:94-148 | undisturbed, the steps of a sync install what the drop served whenever the high-water mark allows it, and change nothing else |
| `StateDir.StateDirectory.Write` | internal/cache/cache.go:41-84 | writes serial, cache, state in this order, or nothing when the mark is above the directory or unreadable |
| `StateDir.StateDirectory.WriteFiles` | internal/cache/cache.go:64-81 | the same when only so many of its file writes succeed |
| `StateDir.StateDirectory.WriteSerialFloor` | internal/cache/cache.go:99-116 | raises the mark to at least the floor, never lowers it, keeps the files in order |
| `StateDir.StateDirectory.ReservePublishSerial` | internal/cache/publish.go:23-41 | succeeds exactly for a serial above the reserved one, and changes that file only |
| `StateDir.StateDirectory.WriteSource` | internal/cache/cache.go:189-200 | replaces the working copy and nothing else |
| `StateDir.StateDirectory.RunSyncOnce` | internal/cli/sync.go:94-148 | a fetched directory not below the mark is installed, one below it refused; with the drop empty or down the cached one is accepted exactly if it is at the mark or above; a blob that does not open changes nothing |
| `StateDir.WriteCrashSafe` | internal/cache/cache.go:46-84 | a crash after any of the three writes keeps the order of the files and the high-water mark |
| `StateDir.OfflineExactly` | internal/cli/sync.go:117-148 | with the drop down a sync succeeds if and only if the cache is at the high-water mark, and then changes nothing but state.json |
| `StateDir.OfflineAfterCrash` | internal/cache/cache.go:46-84 | after a crash behind the serial write, offline syncing works if and only if that very serial was cached before; behind the later writes it always works |
| `StateDir.CrashStopsOfflineSync` | internal/cache/cache.go:46-84 | a disk on which offline syncing works, and no longer works after such a crash |
| `Publishing.PreparePublishSerial` | internal/cli/helpers.go:97-130 | reconciles with the drop, then with both local floors, then increments and stamps |
| `Publishing.PreparedIsFresh` | internal/cli/helpers.go:116-130 | a prepared serial is above the draft, the drop's answer and both files, so reservation and cache write will accept it |
| `Publishing.PreparedIsNext` | internal/cli/helpers.go:116-130 | the serial is one more than the largest of the draft's, the drop's and those of the two files; the time is now and the content the draft's |
| `Publishing.PreparedExactly` | internal/cli/helpers.go:97-130 | the exact conditions of refusal, including the exhausted uint64 |
| `AdminEdits.AdminHost.PublishDirectory` | internal/cli/helpers.go:132-157 | seal, reserve, upload, cache, working copy, bootstrap: the state and the report after an error at any of them, a lost answer of the drop included |
| `AdminEdits.AdminHost.SaveAdminDirectory` | internal/cli/helpers.go:159-174 | a deferred edit changes the working copy only; otherwise prepare and publish |
| `AdminEdits.AdminHost.FetchAdminDirectory` | internal/cli/helpers.go:58-74 | the working copy unless the drop has a newer one, else the drop's, else the cached one |
| `AdminEdits.AdminHost.Mutate` | internal/cli/helpers.go:58-74 | fetch, edit, save |
| `AdminEdits.AdminHost.Publish` | internal/cli/publish.go:19-61 | the explicit publish transaction, forced or not |
| `AdminEdits.AdminHost.RunAdminObservation` | internal/cli/up.go:546-599 | republishes the drop's directory with merged observations, or stays out |
| `AdminEdits.OneOperation` | internal/cli/helpers.go:58-86 | unless an error strikes between upload and working copy, every transaction takes the working copy where it is meant to go and uploads exactly that, or leaves both |
| `AdminEdits.TornExactly` | internal/cli/helpers.go:141-152 | an upload the working copy does not know of is left if and only if the transaction publishes, would have succeeded, and an error strikes between the two; what is out then is the intended edit |
| `AdminEdits.DoneWithErrorExactly` | internal/cli/helpers.go:153-155 | an error is reported after full effect if and only if the publish would have succeeded and the bootstrap file fails; the state is that of a success |
| `AdminEdits.FirstPublishReportsError` | internal/cli/helpers.go:153-155 | the first publish of a network, reported as an error although it is out |
| `AdminEdits.WorkingCopyIsFold` | internal/cli/helpers.go:159-174 | over any run the working copy is the fold of all edits that took effect, deferred or published |
| `AdminEdits.UploadsAreFolds` | internal/cli/publish.go:36-54 | every upload of a run carries the fold up to the operation that made it |
| `AdminEdits.ObservationLeavesStagedEdits` | internal/cli/up.go:546-599 | while an edit is staged, observation changes nothing and uploads nothing |
| `AdminEdits.PublishSucceeds` | internal/cli/publish.go:19-61 | exactly when an explicit publish succeeds, and that it uploads the working copy under the prepared serial |
| `AdminEdits.EditSucceeds` | internal/cli/helpers.go:159-174 | exactly when a published edit succeeds, and that it uploads the edited content |
| `AdminEdits.DeferredEdit` | internal/cli/helpers.go:159-165 | exactly when a deferred edit succeeds; it keeps the serial and uploads nothing |
| `AdminEdits.ObservationPublishes` | internal/cli/up.go:546-599 | exactly when observation publishes, and that it uploads the merged content |
| `AdminEdits.LostAcknowledgement` | internal/cli/helpers.go:141-143 | why torn uploads are excluded there: afterwards the same fetch takes or drops the edit depending on the drop's answer |
| `DnsNames.ValidateLabel` | internal/directory/dnsname.go:21-40 | accepts exactly 1 to 63 letters, digits and hyphens without a hyphen at either end |
| `DnsNames.ValidateDomain` | internal/directory/dnsname.go:47-66 | accepts exactly the normalized names of at most 253 characters, not addresses, all of whose labels are valid |
| `DnsNames.DomainCharacters` | internal/directory/dnsname.go:47-66 | an accepted domain consists of label characters and dots |
| `Directory.Validate` | internal/directory/codec.go:292-366 | accepts exactly the supported schema, a parsed prefix, a valid domain if any, and nodes that pass their checks with unique names, labels, keys and addresses |
| `Directory.CheckNodes` | internal/directory/codec.go:314-365 | the loop with its sets of what was seen accepts exactly valid and pairwise distinct nodes |
| `Directory.RelayTarget` | internal/directory/directory.go:78-96 | the first reachable node marked as relay, else the first reachable node, self excluded |
| `Directory.TargetIsCandidate` | internal/directory/directory.go:78-96 | there is a target if and only if there is a candidate, and the target is one |
| `Directory.TargetIsFirst` | internal/directory/directory.go:78-96 | the choice by position: marked candidates before unmarked ones, then directory order |
| `Directory.TargetStable` | internal/directory/directory.go:78-96 | excluding any node but the chosen one leaves the choice unchanged |
| `Directory.HubIsTarget` | internal/relay/controller.go:70-90 | a spoke's hub, when not self, is self's own target if and only if that target is not the spoke |
| `Relay.Controller.Update` | internal/relay/controller.go:51-150 | one pass over the directory: new states for all nodes but self, old ones dropped, the relayed set, the target |
| `Relay.Controller.Advance` | internal/relay/controller.go:66-142 | the verdict for one node: spoke, endpoint on either side, no target, or the state machine |
| `Relay.StatesAreVerdicts` | internal/relay/controller.go:51-150 | in a valid directory the controller's map holds each node's own verdict |
| `Relay.ReturnIsWitnessed` | internal/relay/relay.go:105-136 | each return to direct after a demotion is witnessed by a strictly newer handshake |
| `Relay.EnteredOnce` | internal/relay/relay.go:105-136 | the entry time stays put while the mode is direct, over any stretch of ticks |
| `Relay.DirectStayLasts` | internal/relay/relay.go:105-136 | each direct stay, the first one of a run too, lasts at least the grace period from the time it was entered; a later one is entered by the tick that returned |
| `Relay.SettledMode` | internal/relay/relay.go:105-136 | outside grace and off the exact threshold the mode depends on the handshake's age alone |
| `Relay.EndsAgree` | internal/relay/relay.go:105-136 | two ends sharing a handshake time agree after their ticks if and only if both ticked on the same side of the threshold |
| `Relay.Hysteresis` | internal/relay/relay.go:105-136 | at the exact threshold, and relayed before any handshake, the state is kept |
| `Relay.Verdicts` | internal/relay/relay.go:105-136 | every verdict: demotion exactly after grace and a too old sign of life, or entry if there never was one; return exactly on a recent handshake; the clock restarts exactly on a change |
| `Relay.DefaultsAre` | internal/relay/relay.go:78-86 | three minutes and half a minute unless configured |
| `Relay.SilentPeerIsRelayed` | internal/relay/controller.go:117-143 | over rounds of Update, an eligible peer that is never heard is relayed once grace and limit have passed |
| `Relay.UpdateVerdicts` | internal/relay/controller.go:66-142 | for every other node, which branch decides: hub of a spoke, endpoints, target, or the state machine; and when the clock restarts |
| `Relay.StatesOfMembers` | internal/relay/controller.go:63-149 | the new map holds the other members and nobody else |
| `Relay.ControllerRuns` | internal/relay/controller.go:51-150 | over rounds of Update with changing directories, the state of a peer that stays eligible is a run of the state machine |
| `Relay.ControllerReturnIsWitnessed` | internal/relay/controller.go:51-150 | in such rounds each return to direct after a demotion has a strictly newer handshake |
| `Relay.NewPeerHasGrace` | internal/relay/controller.go:118-121 | a newly seen peer is not demoted before the grace period has passed |
| `Wireguard.BuildPeerConfigs` | internal/wg/peers.go:52-132 | the peer list in directory order, with the relayed addresses folded into the target's entry |
| `Wireguard.ConfigOf` | internal/wg/peers.go:84-121 | one entry: allowed address, endpoint and keepalive, with the exceptions for relayed peers |
| `Wireguard.BuiltClaims` | internal/wg/peers.go:61-131 | each non-self address is claimed by exactly the entry of its intended owner |
| `Wireguard.BuiltPicks` | internal/wg/peers.go:102-148 | each entry's endpoint: configured, else found on the LAN, else observed, resolved; none for a relayed spoke; and its keepalive |
| `Wireguard.PreserveLiveEndpoints` | internal/wg/manager.go:157-175 | in place: clears the endpoint of exactly those peers with a handshake inside the fresh window |
| `Wireguard.AppendDeletions` | internal/wg/manager.go:177-191 | appends a removal for each kernel peer the list does not mention |
| `Wireguard.PushedEndpointKeys` | internal/wg/manager.go:99-108 | exactly the peers whose endpoint the configuration overwrites |
| `Wireguard.MergeAgainstKernel` | internal/wg/manager.go:127-140 | explicit keepalives, preserved endpoints and removals, in place and in this order; an unreadable device gets the first only |
| `Wireguard.MergedEntry` | internal/wg/manager.go:127-175 | the merged entry keeps key and addresses, spells out the keepalive, and loses its endpoint exactly if the peer was heard within three minutes |
| `Wireguard.Apply` | internal/wg/manager.go:63-94 | build, merge, configure: the kernel state after, and exactly the endpoints it overwrote |
| `Wireguard.OwnersAfter` | internal/wg/manager.go:63-94 | under the assumed kernel rule, an address goes to its one claimant, or stays with an untouched peer |
| `Wireguard.PeersAfter` | internal/wg/manager.go:63-94 | under the assumed kernel rule, which peers exist afterwards |
| `Wireguard.ApplyExact` | internal/wg/manager.go:127-191 | from any readable kernel state: one peer per non-self node, and the owned addresses are exactly the non-self tunnel addresses, relayed ones with the target, all others with their own node |
| `Wireguard.ApplyEndpoints` | internal/wg/manager.go:63-94 | after Apply a freshly heard peer, or one not to be dialed, keeps its kernel endpoint and any other takes the pick; no handshake is touched |
| `Mesh.TableIs` | internal/wg/manager.go:63-94 | the kernel table that Apply leaves, from any state it could read, gives each address its intended owner |
| `Mesh.NextHopIs` | internal/wg/peers.go:52-132 | every entry of every member's kernel table points at the peer itself or at the hub, and which of the two |
| `Mesh.PathIs` | internal/relay/controller.go:51-150 | every path is the direct hop or the hop through the hub |
| `Mesh.DeliveryIs` | internal/relay/controller.go:51-150 | a packet passes all source checks if and only if both ends route through the hub or neither does |
| `Mesh.WholeMeshDelivery` | internal/relay/controller.go:51-150 | for all controller and earlier kernel states: at most two hops; two endpointless members reach each other exactly when they hold the same mode; every other pair always does |
| `Mesh.AgreeingEndsDeliver` | internal/relay/relay.go:105-136 | two endpointless members that judged one handshake on the same side of the threshold reach each other both ways |
| `Mesh.PlainHubUnreachable` | internal/relay/controller.go:70-90 | a plain hub cannot be reached by members that are not its own hub |
| `Mesh.HubCondition` | internal/relay/controller.go:70-90 | all pairs but endpointless ones deliver if and only if the hub runs Tincan, or the mesh is just a plain hub and its own hub |
| `Mesh.PlainHubMesh` | internal/relay/controller.go:70-90 | a mesh of three nodes, applied everywhere, whose hub is plain and out of reach for one member |
| `Observation.MergeObservations` | internal/admin/observe.go:39-95 | the merged nodes, and changed is reported exactly when a node differs |
| `Observation.ObservationBacked` | internal/admin/observe.go:60-95 | after a merge an observed endpoint stands only beside a fresh handshake, a new one beside a handshake after the last push; configured endpoints and all other fields are untouched |
| `Observation.ObservationExactly` | internal/admin/observe.go:60-93 | what becomes of a node in each case: recorded and stamped in whole seconds, left alone, or cleared |
| `Observation.WindowIs` | internal/admin/observe.go:39-42 | three minutes unless configured |
| `Observation.MergeIdempotent` | internal/admin/observe.go:39-95 | merging the same snapshot a second time changes nothing |
| `Observation.EndpointPushes.Record` | internal/cli/up.go:451-470 | stamps what was pushed and forgets who left the directory |
| `Observation.RecordedExactly` | internal/cli/up.go:451-470 | afterwards a member has the time of its latest push, and nobody else has one |
| `Observation.EventKeeps` | internal/cli/up.go:394-428 | packets, configurations, stamps, failed Applies and observations keep every endpoint of a member in the kernel vouched for, or pushed after the last handshake |
| `Observation.ObservedFromWire` | internal/cli/up.go:546-599 | over a daemon's life, failed Applies included, every endpoint newly recorded as observed was learned from the wire, from that peer, provided departed peers leave the kernel before they return |
| `Observation.ReturningPeer` | internal/cli/up.go:424-427 | for any two endpoints, a run in turn in which a departed peer returns and the pushed one is recorded as observed |
| `Observation.ReadableDevicePrunes` | internal/wg/manager.go:177-191 | when the device can be listed, Apply itself removes departed peers |
| `Discovery.Store.Lookup` | internal/discovery/store.go:90-101 | the stored endpoint exactly if it is known, young enough and not the one that failed |
| `Discovery.Store.LookupLastKnown` | internal/discovery/store.go:108-112 | the stored endpoint whatever its state |
| `Discovery.Store.Update` | internal/discovery/store.go:142-163 | the incumbent is refreshed or kept while usable, replaced otherwise; reports first sight and change |
| `Discovery.Store.MarkFailed` | internal/discovery/store.go:168-178 | blacklists the endpoint stored at that moment |
| `Discovery.Store.GC` | internal/discovery/store.go:185-198 | keeps exactly the entries of members that are not too old, unchanged, and counts the others |
| `Discovery.Store.MarkLanFailures` | internal/cli/up.go:480-490 | blacklists exactly the peers that went from direct to relayed |
| `Discovery.PinnedWhileUsable` | internal/discovery/store.go:142-163 | a stored endpoint changes only by a beacon that finds it expired or failed |
| `Discovery.LookupWasAnnounced` | internal/discovery/store.go:90-101 | in any run, a looked-up endpoint was announced for that key within the TTL |
| `Discovery.FailedStaysHidden` | internal/discovery/store.go:168-198 | a failed endpoint is not returned until another was accepted or the entry was collected |
| `Discovery.BeaconIsHeard` | internal/discovery/store.go:142-163 | after a beacon the usable incumbent is found, or else the announced endpoint unless it is the one that failed; no other key is touched |
| `Discovery.BeaconRefreshes` | internal/discovery/store.go:149-152 | an announcement of the incumbent keeps it usable for another TTL |
| `Discovery.FailHides` | internal/discovery/store.go:168-178 | a failure hides the endpoint at once, keeps it known, and touches no other key |
| `BitGroups.ConvertBits` | internal/nostr/bech32.go:66-87 | the accumulator loop, overflow included, regroups the bit string: padded with zeros, or refused unless only short zero padding is dropped |
| `BitGroups.PackDenotes` | internal/nostr/bech32.go:66-87 | packing loses nothing but an incomplete final unit |
| `BitGroups.PackUnique` | internal/nostr/bech32.go:66-87 | the units of a bit string are determined by it |
| `Polymod.Bech32Polymod` | internal/nostr/bech32.go:25-38 | the two loops compute the run of the step function from state 1 |
| `Polymod.StepInjective` | internal/nostr/bech32.go:25-38 | each step is injective on 30-bit states |
| `Polymod.RunInjective` | internal/nostr/bech32.go:25-38 | different states stay different under any further input |
| `Polymod.SingleSubstitution` | internal/nostr/bech32.go:25-38 | changing one symbol, anywhere, at any length, changes the state |
| `Polymod.ChecksumUnique` | internal/nostr/bech32.go:52-61 | the checksum is the one and only list of six symbols that brings the state to 1 |
| `Bech32.Bech32HRPExpand` | internal/nostr/bech32.go:40-50 | high bits, a zero, low bits of the prefix |
| `Bech32.Bech32Checksum` | internal/nostr/bech32.go:52-61 | the checksum symbols of the prefix and data |
| `Bech32.EncodeBech32` | internal/nostr/bech32.go:90-102 | prefix, separator and the characters of data and checksum |
| `Bech32.DecodeBech32` | internal/nostr/bech32.go:106-135 | every check in the code's order, with its own error for each |
| `Bech32.UnpadAfterPad` | internal/nostr/bech32.go:66-87 | 8 to 5 to 8 bits is the identity |
| `Bech32.PadAfterUnpad` | internal/nostr/bech32.go:66-87 | 5 to 8 to 5 bits is the identity on what is accepted |
| `Bech32.RoundTrip` | internal/nostr/bech32.go:90-135 | for lower-case ASCII prefixes, decoding an encoding returns prefix and bytes if and only if the prefix is not empty and the length limit is met |
| `Bech32.KnownVector` | internal/nostr/bech32.go:90-135 | BIP-173's valid string a12uel5l is what the encoder writes for the prefix a without data, and decodes to that |
| `Bip173.KnownAlphabet` | internal/nostr/bech32.go:90-135 | BIP-173's valid string abcdef1qpzry9x8gf2tvdw0s3jn54khce6mua7lmqqqxw decodes, and re-encodes to itself |
| `Bip173.ExpandAt` | internal/nostr/bech32.go:40-50 | each expanded value by position |
| `Bech32.Reencode` | internal/nostr/bech32.go:90-135 | re-encoding any accepted string gives its lower case |
| `Bech32.SingleErrorDetected` | internal/nostr/bech32.go:106-135 | an accepted lower-case ASCII string with one data character replaced by another of the set fails its checksum |
| `Bech32.SingleErrorAnyCase` | internal/nostr/bech32.go:106-135 | the same for any two strings that are their own lower case, ASCII or not |
| `Chunks.ChunkBlob` | internal/drop/dns.go:267-283 | the chunks of a blob, or refusal beyond the record limit |
| `Chunks.ChunkText` | internal/drop/dns.go:275-281 | each chunk's text: prefix, index, total and its 220 characters |
| `Chunks.FitsExactly` | internal/drop/dns.go:269-275 | more than 22000 characters are refused, and the number of chunks is the least that holds the text |
| `Chunks.ChunksFit` | internal/drop/dns.go:267-283 | every chunk is at most 231 bytes, within the 255 of section 3.3 of RFC 1035 |
| `Chunks.ReassembleChunks` | internal/drop/dns.go:289-344 | scan, count check, sort, index check and join, with every way to fail |
| `Chunks.RoundTrip` | internal/drop/dns.go:267-344 | any permutation of a blob's chunks among any values without the prefix gives the blob |
| `Chunks.ReassembledUsesEachOnce` | internal/drop/dns.go:289-344 | whatever reassembles used exactly one chunk for each index from 0 to total - 1, for the total the last chunk claims |
| `Chunks.ReassembledClaims` | internal/drop/dns.go:289-344 | of the chunks of a reassembled blob, a first stretch may claim -1, and all others claim their number |
| `Chunks.TotalsExactly` | internal/drop/dns.go:289-344 | they all claim their number if and only if the first does not claim -1 |
| `Chunks.MixedTotalsReassemble` | internal/drop/dns.go:289-344 | two chunks that claim -1 and 2 do reassemble |
| `Chunks.ReassemblesExactly` | internal/drop/dns.go:289-344 | exactly which values reassemble, and to which text |
| `Chunks.NotFoundExactly` | internal/drop/dns.go:289-344 | not-found means that no value carries the prefix |
| `DnsPut.SplitTxtRecords` | internal/drop/dns.go:177-206 | our records in index order, malformed ones last; foreign ones in their own order |
| `DnsPut.SortedOwnedIs` | internal/drop/dns.go:177-206 | the sorted list holds our records, each once |
| `DnsPut.OwnedOrder` | internal/drop/dns.go:192-200 | records with an index before malformed ones, lower indices first, otherwise as listed |
| `DnsPut.ChunkSeqExactly` | internal/drop/dns.go:208-222 | a chunk has an index exactly if it is well-formed with an index from 0 and a total from 1 |
| `DnsPut.MergeForeignTxtValues` | internal/drop/dns.go:166-175 | the foreign values followed by the wanted ones |
| `DnsPut.PutReplacing` | internal/drop/dns.go:113-123 | the whole-set path leaves the foreign values plus exactly the wanted chunks |
| `DnsPut.PutRecords` | internal/drop/dns.go:124-163 | the record-by-record path leaves the same; every record set on the way keeps all foreign records and at least the smaller of the old and new numbers of chunks; enough successful calls complete it from any start; on success the set is served exactly if the provider does not stage, or an edit was made, or nothing was left unflushed before |
| `DnsPut.EditRecords` | internal/drop/dns.go:124-153 | both loops; changed is reported exactly when the stored chunks differ from the wanted ones |
| `DnsPut.LostFlush` | internal/drop/dns.go:154-162 | a first Put that loses its Flush, and a second that reports success while nothing is served |
| `DnsPut.UpdateStep` | internal/drop/dns.go:141-145 | one update puts one more wanted value in place and disturbs no other |
| `DnsPut.CreateStep` | internal/drop/dns.go:136-140 | the same for a created record |
| `DnsPut.DeleteStep` | internal/drop/dns.go:148-153 | a deletion removes one surplus chunk and nothing else |
| `DnsPut.StoredChunksSort` | internal/drop/dns.go:177-222 | whatever order a blob's chunks are stored in, the sorted list is the wanted one |
| `DnsPut.PutTwice` | internal/drop/dns.go:124-163 | a set that already holds the wanted chunks, in any order, causes no call |
| `DnsPut.PutThenGet` | internal/drop/dns.go:92-164 | after either path, a reader gets the blob back in whatever order the values are listed |
| `Nip01.WriteJsonString` | internal/nostr/event.go:77-104 | appends the escaped literal |
| `Nip01.UnescapeInverts` | internal/nostr/event.go:77-104 | a reader of the escapes gets back exactly the string that was written |
| `Nip01.EscapesAre` | internal/nostr/event.go:79-101 | the escapes one by one, and every other byte from 0x20 on as it is |
| `Nip01.Serialize` | internal/nostr/event.go:44-72 | both nested loops produce the canonical text |
| `Nip01.LastLiteral` | internal/nostr/event.go:77-104 | a literal at the end of a text can be told from what stands before it |
| `Nip01.TagsReadable` | internal/nostr/event.go:53-67 | the text before the tags and all nested tags are determined by the text |
| `Nip01.SerializationInjective` | internal/nostr/event.go:44-104 | events with the same canonical text agree on public key, time, kind, tags and content, for any public key at all |
| `Nip01Reader.ReadsBack` | internal/nostr/event.go:44-72 | a reader of a JSON array finds public key, time, kind, tags and content in NIP-01's order, for every key without quote and backslash |
| `Nip01Reader.CanonicalText` | internal/nostr/event.go:44-72 | the text part by part |
| `Nip01.DTag` | internal/nostr/event.go:154-161 | the value of the first tag of at least two elements that starts with d; empty if there is none |
| `Nip01.DTagIs` | internal/nostr/event.go:154-161 | the same by position, for the function that the drop's checks use |
| `Nip01.PublishedText` | internal/drop/nostr.go:191-196 | the event that Put signs, written out to the end as compact JSON; its d tag is the identifier readers ask for |
| `NostrDrop.Get` | internal/drop/nostr.go:137-182 | the decoded content of a genuine event no other genuine event beats, or a refusal of that content, or not-found, or failure when every relay failed |
| `NostrDrop.GenuineExactly` | internal/drop/nostr.go:251-256 | what makes an event genuine |
| `NostrDrop.BestIsNewest` | internal/drop/nostr.go:154-159 | the newest genuine event, and of several the one whose id comes first |
| `NostrDrop.DecodedExactly` | internal/drop/nostr.go:174-181 | a blob is handed out exactly if it decodes to at most four mebibytes |
| `NostrDrop.HexInverts` | internal/nostr/event.go:111-124 | the id that ComputeID writes decodes to the hash |
| `NostrDrop.BestContent` | internal/drop/nostr.go:150-160 | two best events carry the same content, given that no two delivered events collide under the hash |
| `NostrDrop.OrderIndependent` | internal/drop/nostr.go:137-172 | whatever the order of the answers, the outcome is the same |
| `HostsMarkers.MarkersClassify` | internal/hosts/hosts.go:150-184 | the markers written for an interface are recognized as its own |
| `HostsMarkers.MarkerTexts` | internal/hosts/hosts.go:30-34 | the marker texts, and the unlabelled ones as tincan0's |
| `HostsMarkers.TrimsAround` | internal/hosts/hosts.go:204-204 | space around a marker does not hide it |
| `HostsMarkers.CutLines` | internal/hosts/hosts.go:189-226 | cutting between two lines cuts the text, and loses nothing |
| `Hosts.SplitAtMarkers` | internal/hosts/hosts.go:189-233 | the scanning loop rejects exactly the files that are not well-formed, and otherwise finds the text around the interface's pair |
| `Hosts.FindPair` | internal/hosts/hosts.go:189-233 | in an accepted file a pair is marker-free inside, and its interface has no marker outside it |
| `Hosts.WriteMarkedBlock` | internal/hosts/hosts.go:158-164 | appends the labelled pair with the block in it |
| `Hosts.Rewrite` | internal/hosts/hosts.go:120-148 | replaces, inserts or removes, and reports a change exactly when the text differs |
| `HostsRewrite.RejectsExactly` | internal/hosts/hosts.go:120-148 | rejection depends on the file alone, not on the interface or the block |
| `HostsRewrite.KeepsWellFormed` | internal/hosts/hosts.go:120-148 | the result is well-formed |
| `HostsRewrite.Idempotent` | internal/hosts/hosts.go:120-148 | a second rewrite with the same block changes nothing |
| `HostsRewrite.LastWriteWins` | internal/hosts/hosts.go:120-148 | of two blocks written in turn only the second shows |
| `HostsRewrite.InsertThenRemove` | internal/hosts/hosts.go:129-144 | inserting and removing restores the file up to at most two trailing newlines |
| `HostsRewrite.InsertedText` | internal/hosts/hosts.go:136-144 | a new block goes to the end, after one blank line if there is anything before it |
| `HostsRewrite.PairText` | internal/hosts/hosts.go:158-164 | begin line, block, end line |
| `HostsRewrite.OutsideKept` | internal/hosts/hosts.go:129-135 | every byte outside the pair is kept, and the pair is all that is replaced |
| `HostsRewrite.OthersKept` | internal/hosts/hosts.go:120-233 | every other interface's extracted block is what it was |
| `HostsRewrite.OwnWritten` | internal/hosts/hosts.go:120-148 | the interface's own extracted block is the one asked for |
| `HostsBlock.Block` | internal/hosts/hosts.go:53-70 | lowers the names and renders the sorted entries, or nothing without a domain |
| `HostsBlock.DirectoryHosts` | internal/directory/codec.go:292-366 | a directory that Validate accepts has distinct names and addresses that fit on a line |
| `HostsBlock.BlockLists` | internal/hosts/hosts.go:53-70 | for every directory that Validate accepts with a domain: one line per node and nothing else, by lowered name, and no line is a marker |
| `HostsBlock.LineOfNode` | internal/hosts/hosts.go:66-68 | each node's line: address, tab, lowered name, dot, domain |
| `IpAlloc.NextFreeIP` | internal/directory/ipalloc.go:9-45 | the lowest usable untaken address; fails exactly when all usable ones are taken; looks at no more than one address beyond the distinct taken ones |
| `IpAlloc.RangeIsUsable` | internal/directory/ipalloc.go:31-37 | the scanned range is exactly the addresses with the prefix's leading bits, without network and broadcast address up to /30, for all lengths 0 to 32 |
| `IpAlloc.PrefixFits` | internal/directory/ipalloc.go:17-37 | a masked prefix never reaches past the last address |
| `IpAlloc.NumberOfAddress` | internal/directory/ipalloc.go:47-54 | number to address to number is the identity |
| `IpAlloc.AddressOfNumber` | internal/directory/ipalloc.go:47-54 | address to number to address is the identity |
| `IpAlloc.OctetOrder` | internal/directory/ipalloc.go:47-50 | numbers are in the order of the octets, first octet first |

## Left out

- Cryptography: Ed25519, age, Schnorr signatures and SHA-256 are ideal; a directory value stands for its sealed blob, the signature check is a parameter, and the hash is assumed free of collisions among the events at hand.
- Library encodings: base64, msgpack, TOML, and parsing of keys, addresses and prefixes; malformed input appears as a failed parse.
- Case mapping: `strings.ToLower` and `strings.ToUpper` are parameters; what is assumed of them is that lower-case ASCII text is its own lower case and that labels are lowered letter by letter.
- Error texts, warnings and logging: errors are distinguished, not worded.
- Directory.Validate: the syntax of the prefix, and of a node's key, address, endpoints and recipient, is given by parameters, because it is the work of libraries.
- SerialProtocol: one admin machine whose state directory survives, and state files that were never edited by hand or restored from a backup; an unreadable file is modelled in the single operations only.
- AdminEdits.WorkingCopyIsFold: excludes uploads whose success is not acknowledged, and crashes or failing file writes between upload and working copy; AdminEdits.TornExactly says exactly when that happens and AdminEdits.LostAcknowledgement what it costs.
- Durations: Go saturates differences of very distant times; the integers here do not.
- Kernel: WireGuard's peer table is an assumption (peers in order, replaced allowed addresses, last claim owns), and one ConfigureDevice call is atomic.
- Mesh.WholeMeshDelivery: concerns tables and source checks, not whether an endpoint answers; a plain member's configuration is rendered once, at enrolment, and is taken to name the hub of the present directory.
- Wireguard.BuildPeerConfigs: a key or address that does not parse makes the code give up; a validated directory has none, and the model has no such value.
- BitGroups.ConvertBits: widths from 1 to 8 and units no wider than the source width, which is all its two callers pass; what the accumulator does with wider units is not described.
- DNS: listing errors, which end Put before any write, and a provider without write access.
- DnsPut.PutRecords: a failed call may or may not have taken effect; after the first failure the method stops, as the code does.
- NostrDrop.Get: relay connections and timeouts are not modelled; an answer may hold events and still have failed.
- Hosts: file locking, symbolic links, modes and atomic replacement in Apply; a file is its text, one value per character.
- HostsRewrite.KeepsWellFormed: interface names are non-empty and without newline, as the configuration default and the kernel's own rule for names ensure; blocks are complete lines without markers, which HostsBlock.BlockLists proves of every block that is rendered.
- DNS answering, beacons and their wire format, provider clients, S3, HTTP and file drops, status output, directory diffs and process control: plumbing, or decisions settled by reading them.
