# Verified model of dn42-autopeer

dn42-autopeer lets an autonomous system on DN42 create, change and delete its WireGuard and BGP peering
through an HTTP API. A PostgreSQL table of peers is the truth; the service keeps three other systems in
step with it: WireGuard interfaces, the BIRD configuration that the `current` link shows, and the
nftables set of open ports. Every row write puts an event in an outbox within the same transaction, and a
reconciler removes an event only after applying the row it points to. This project models that protocol
and the pieces around it and proves what the design depends on.

* **`Machine`** is the running service as a state machine. Each request, the reconciler, the periodic
  nftables job and startup recovery is a thread that advances by one database statement, one outside call
  or one lock acquisition. Every call may succeed, fail, or fail after it took effect. The process may crash
  at any step, the host may reboot, a client may go away, and other writers may insert rows under fresh ids,
  and change or delete rows without touching the identity columns. `Invariant` states what every reachable
  state satisfies. `Stability`, `RequestProof`, `ReconcilerProof`, `RecoveryProof` and `SystemProof` prove
  it, one kind of thread at a time: what a step may do to the shared state, and that everything other
  threads rely on survives it.
* **`Guarantees`** draws the consequences: convergence, no orphaned interface, justified removals, mutual
  exclusion, freedom from deadlock, and exactly when an nftables synchronisation leaves the set the table asks
  for. **`Progress`** bounds the steps any request and any pass of the reconciler can take, however threads are
  interleaved, and **`Convergence`** shows that a serving process gets back in step from every state it can be in.
  **`ApiOnly`** treats runs without other writers, and **`Repair`** treats recovery that is interrupted and
  started again. **`Reactivation`** says exactly which steps end the disabled state of a row, with runs that show
  it in **`Witness`**. **`Daemon`** follows what BIRD has loaded beside the run of the service.
* **`Manager`** has the same operations in the form the program has them, as methods of a class that
  change the shared state step by step, run one at a time: reservation of a port, both compensations, the
  reconciler's two passes, recovery. Their contracts say exactly what a reported success means, that without
  failed calls they succeed, and what a request leaves that was refused because of a single failed call.
* **`Calls`**, **`Alone`** and **`Passes`** join the two. A thread of `Machine` that runs while nothing else does,
  call by call and with any call failing, ends with what the contracts of `Manager` say, for requests with at most
  one failed call and for passes with any number.
* **`Bird`** opens up the calls behind one change of `current`: directories, files, the link and the daemon,
  with every file system call recorded. **`Nft`** builds the nftables script and reads it back as nft does.
* **`LinkLocal`** and **`Message`** model the text a client signs, and **`Reader`** reads it back without the
  functions that write it. **`Nonces`** is the single-use nonce table under any interleaving of requests;
  **`Challenge`** has the two operations on it as methods.

Faults are part of the statements. The safety results hold whatever calls fail. Claims about the
configuration BIRD has loaded assume that a refused reload leaves the daemon as it was. One assumption bounds
the convergence results (`Guarantees.EmptyOutboxConverged`, `Guarantees.QuietPeerSettled`, `Convergence.Converges`):
a dropped request makes no further call. In the program a rename or netlink request that is under way at that moment can
still take effect after the request's locks are free, and it leaves no event behind.

## What does not hold

* The link-local field of a signing message joins two printed addresses with a colon. Requests may use
  all of fe80::/10, and there the field is ambiguous: `fe80::1` with `fe80:fe80::2` prints like
  `fe80::1:fe80` with `fe80::2` (`LinkLocal.WiderPairsCollide`). `LinkLocal.FieldAmbiguity` and
  `Message.MessageAmbiguity` give the exact condition, which can be checked on the groups of the two
  addresses. Within fe80::/64 (section 2.5.6 of RFC 4291) the text determines the request.
* A failed BIRD reload is meant to be undone. The old target of the link is read with the error dropped
  (`src/manager.rs:659`), and a link that could not be read is treated like one that did not exist: it is
  removed, and the second reload then drops every session (`Bird.UnreadableLink`). The contract of
  `Bird.Store.Sync` says exactly when a failed synchronisation shows what was shown before.
* An empty outbox does not always mean that BIRD runs what `current` shows. A synchronisation that finds the
  files as it wants them does not reload (`src/manager.rs:636-642`), so a reload that was left out once is not made
  up for (`Daemon.MatchingFilesDoNotReload`). `Witness.LostReloadRun` is a run from a stopped service with one failed
  flush that ends so. In every run the answer is exact: after a recovery, BIRD runs what the table asks for
  with an empty outbox if and only if the link showed just that at the last load
  (`Daemon.EmptyOutboxLoadedExactly`). `Daemon.Lapses` lists the steps that can leave a reload out: a switch whose
  flush fails, a way back that fails or has nowhere to go, and a thread that ends between switch and reload.
  Without one since the last recovery the daemon is in step (`Daemon.EmptyOutboxLoaded`). Each one leaves it in step
  exactly if the link then shows what it showed before the switch, whether or not the old link could be read
  (`Daemon.UnflushedSwitch`, `Daemon.WindowLapseExactly`, `Daemon.WindowLapses`); a recovery mends it
  (`Daemon.RecoveryLoads`).
* A disabled row does not stay disabled, and a refused deletion does not put the row back as it was: on the way back
  `delete_peer` sets the row active whatever its status was (`src/manager.rs:216-232`). A deletion that was taken back
  leaves the table as it was exactly if the row was active (`Manager.RefusedDeleteExactly`), and a run of
  the service alone shows a disabled row that ends up active (`Witness.RefusedDeletionActivates`). The reconciler
  and recovery also overwrite another writer's `Disabled` that lands between their read and their status write
  (`src/manager.rs:363-365`, `src/manager.rs:303-306`; `Witness.ReconcilerOverwrites`, `Witness.RecoveryOverwrites`).
  `Reactivation.DisabledEndsExactly` gives exactly the steps that end the disabled state, and
  `Reactivation.DisabledStays` shows that without other writers only an update or delete request for that very
  peer takes one.

## Model

| member | source | states |
|---|---|---|
| Guarantees.EmptyOutboxConverged | src/manager.rs:316-390 | in every interleaving, once a recovery has succeeded, an empty outbox means that every row is active or disabled, exactly the active rows have an interface, with the row's alias, key, port, MTU and local address, and `current` shows exactly one file for each of them, naming the row's id, name and ASN, the own ASN, the interface and both link-local addresses, stale BIRD snapshots included |
| Guarantees.QuietPeerSettled | src/manager.rs:355-390 | the same for one peer: without an event for it, its row is at rest and its interface agrees |
| Guarantees.RetiredEventWasApplied | src/manager.rs:320-324 | an event leaves the outbox only when what it covers agrees or another event still covers it |
| Guarantees.NoOrphanInterface | src/manager.rs:268-298 | in every reachable state an interface has its row or a recorded DELETE event, also across crashes and outside deletions |
| Guarantees.RecoveryLeavesNoOrphan | src/manager.rs:268-298 | a successful recovery leaves only interfaces of rows wanted when it read the table, even where no alias was ever set, and `current` shows exactly those rows |
| Guarantees.RemovalJustified | src/manager.rs:355-387 | the reconciler removes an interface only while it processes an event of that very id, and only if its row is gone or unwanted or another event of it is still to come; a re-created peer is safe from old events |
| Guarantees.MutualExclusion | src/manager.rs:870-875 | at most one operation per (ASN, name) is in its critical section, and the port, nft and bird locks have one holder each |
| Guarantees.LockOrder | src/manager.rs:145-146 | a thread holds at most one peer lock and one shared lock, and waits for nothing once it holds a shared one |
| Guarantees.NoDeadlock | src/manager.rs:79-96 | as long as a thread is in flight, some thread can act |
| Convergence.Converges | src/manager.rs:316-390 | from every state a serving process can be in, whatever failed, crashed or was written from outside before, the threads in flight and two passes of the reconciler, without failed calls, end with an empty outbox and everything outside as the table asks for |
| Convergence.Drains | src/manager.rs:70-390 | as long as nothing new starts, the threads in flight take together no more steps than they had left, whatever fails and in whatever order they act |
| Convergence.PassRuns | src/manager.rs:316-352 | a pass without failed calls settles every peer, and a pass over finished rows empties the outbox |
| Progress.RequestsEnd | src/manager.rs:70-240 | in every run, whatever fails and however threads are interleaved, a request takes at most 30,200 steps of its own, three for each port it may try and 200 besides |
| Progress.PassesEnd | src/manager.rs:316-352 | a pass of the reconciler takes a bounded number of steps for each event it listed |
| Progress.OwnStep | src/manager.rs:70-390 | each step of a request, a pass or an nftables job brings it nearer to its end, whatever its outcome |
| Progress.OthersKeep | src/manager.rs:870-875 | no step of another thread or writer takes a thread back |
| Progress.RecoveryCompletes | src/manager.rs:242-314 | from whatever earlier runs left, an undisturbed recovery without failed calls gets to the end, where every row, interface, BIRD file and port is as the rows at the start ask for |
| Alone.CreateAlone | src/manager.rs:70-133 | a create thread that runs alone ends with the peer as requested on the first free port, or refused for one of four reasons, and after a single failed call with nothing left but a row whose insertion was not answered |
| Alone.UpdateAlone | src/manager.rs:136-187 | an update thread that runs alone ends with the peer as requested or finds none; a single failed call leaves nothing, the old configuration, the new row alone, or all but the last status write |
| Alone.DeleteAlone | src/manager.rs:197-240 | a delete thread that runs alone ends with the peer gone everywhere or finds none; a single failed call leaves what a refused deletion leaves |
| Passes.PassAlone | src/manager.rs:316-352 | a reconciler thread that runs alone leaves at most one listed event for each failed call; without one, every peer is settled and only events of finished rows are left |
| Passes.TurnStep | src/manager.rs:355-390 | within one turn of the reconciler each call keeps what was achieved, and the turn ends with its event applied and gone unless a call of that turn failed |
| Calls.CallProceeds | src/manager.rs:493-515 | each call of the shared procedures goes on, has achieved what the procedure is for, or fails because a call of it reported an error |
| Guarantees.NftSyncExactly | src/manager.rs:392-411 | in any run, a synchronisation of the nftables set leaves the ports of the rows it listed whatever the set was, which is what the table asks for if and only if the wanted ports are still the same |
| Reactivation.ActivatedExactly | src/manager.rs:216-232 | a disabled or deleting row becomes active exactly by a status write that takes effect at one of seven points, or an outside update that says so |
| Reactivation.SwitchedOnExactly | src/persist.rs:349-380 | it is switched on again exactly by these or by the stored configuration of an update |
| Reactivation.DisabledEndsExactly | src/manager.rs:360-387 | a disabled row stays disabled at every step except exactly the listed status writes, stored configurations, erasures and outside writes of that row |
| Reactivation.OnlyRequestsSwitchOn | src/manager.rs:136-240 | without other writers, only an update or delete request for that very (ASN, name) switches such a row on again |
| Reactivation.DisabledStays | src/manager.rs:242-390 | without other writers and such requests a disabled row stays disabled, across crashes, recoveries and failed calls |
| Reactivation.RunHeld | src/manager.rs:145-146 | without other writers, what a thread has read of the row under its lock stays true |
| Witness.RefusedDeletionActivates | src/manager.rs:216-219 | a run from a stopped service with one disabled row, in which a single failed call of a deletion leaves the row active |
| Witness.ReconcilerOverwrites | src/manager.rs:363-366 | an outside `Disabled` between the reconciler's read and its status write is overwritten with active |
| Witness.RecoveryOverwrites | src/manager.rs:303-312 | the same for the last loop of recovery |
| Daemon.EmptyOutboxLoaded | src/manager.rs:636-661 | without a lapse since a successful recovery, an empty outbox means that BIRD has loaded exactly what the table asks for |
| Daemon.StepTracks | src/manager.rs:658-679 | every step that is no lapse keeps the daemon in step with the link, except between switch and reload |
| Daemon.RecoveryLoads | src/manager.rs:261 | a successful recovery leaves the daemon in step, whatever went before |
| Daemon.UnflushedSwitch | src/manager.rs:660-661 | after a switch whose flush failed the daemon is in step exactly if the new files are those it has loaded |
| Daemon.EmptyOutboxLoadedExactly | src/manager.rs:636-642 | in every run, after a recovery, an empty outbox means that BIRD has loaded what the table asks for if and only if that is what the link showed at the last load |
| Daemon.EmptyOutboxLoadedSince | src/manager.rs:636-642 | the same from any moment at which the daemon was in step and since which nothing was loaded |
| Daemon.LastInStepExists | src/manager.rs:636-679 | every run has such a last moment after a recovery |
| Daemon.LoadedBetween | src/manager.rs:798-868 | the daemon keeps its configuration between loads |
| Daemon.LoadedInWindow | src/manager.rs:658-664 | between switch and reload the daemon has what the link showed before the switch, also when the old link could not be read |
| Daemon.WindowLapseExactly | src/manager.rs:658-679 | a request dropped, a crash, or a way back that fails or has nowhere to go leave the daemon in step exactly if the link ends up showing what it showed before the switch |
| Daemon.WindowLapses | src/manager.rs:658-679 | besides a switch whose flush fails these are all the lapses |
| Daemon.StrandedKeeps | src/manager.rs:664-674 | a thread that ends there and a failed way back keep link and daemon as they are |
| Daemon.UnlinkedShowsNone | src/manager.rs:659-676 | a removed link without a second reload shows nothing while the daemon stays as it is |
| Witness.LostReloadRun | src/manager.rs:636-661 | a complete run with one failed call that ends serving with an empty outbox and a link that shows what the table asks for, while BIRD never loaded a file |
| Daemon.MatchingFilesDoNotReload | src/manager.rs:636-642 | a later synchronisation that finds matching files leaves loaded what was loaded |
| SystemProof.RunInv | src/main.rs:71-105 | every state of every run satisfies the invariant |
| SystemProof.StepKept | src/main.rs:149-214 | every step, including faults, crashes, reboots and outside writes, keeps the invariant |
| SystemProof.ActionAllowed | src/manager.rs:70-390 | each action of each thread changes only what it is entitled to at that point |
| SystemProof.NewLocks | src/manager.rs:870-875 | an action never leaves a thread holding a lock it neither held nor waited for |
| SystemProof.LeftoverInv | src/manager.rs:242-249 | whatever external state earlier runs left, with orphans recorded, is a state recovery may start from |
| RequestProof.RequestStep | src/manager.rs:70-240 | every action of create, update and delete, with their compensations, is allowed and keeps the thread's own claims: its event stays until it is done |
| ReconcilerProof.ReconcilerStep | src/manager.rs:355-390 | the reconciler reaches the deletion of its event only with the peer settled or another event pending |
| RecoveryProof.RecoveryStep | src/manager.rs:242-314 | every action of recovery is allowed and its progress is kept |
| RecoveryProof.OutsideKept | src/persist.rs:161-188 | writers outside the service do not undo what recovery established, because every write leaves an event |
| RecoveryProof.RecoveredIsCovered | src/manager.rs:300-314 | at the end of recovery whatever disagrees with the table has an event |
| Stability.CoveredKept | src/persist.rs:161-188 | an effect leaves every disagreement covered by a pending event |
| Stability.Disjoint | src/manager.rs:870-875 | two threads inside their critical sections work on different rows |
| Repair.InterruptionsDoNotMatter | src/manager.rs:242-314 | any two ways from the same leftover state to a successful recovery, with crashes and reboots in between, end with the same rows, ports, `current` and interfaces, each stated field by field from the rows at the start |
| Repair.RepairRun | src/manager.rs:242-314 | without outside writes every interrupted attempt stays on the way to that goal, and the attempt that succeeds reaches it |
| Repair.SameGoal | src/manager.rs:300-312 | the table an interrupted recovery leaves asks for the same final rows, interfaces, ports and BIRD files |
| Repair.EndsRepaired | src/manager.rs:300-314 | the last step of a recovery leaves everything repaired |
| Repair.RepairedPlainly | src/manager.rs:242-314 | a repaired state has no row being deleted, disabled rows as they were, all others active, and an interface, a file and an open port for exactly those |
| ApiOnly.PortsFollowRows | src/manager.rs:221-238 | without outside writers, at every crash point an interface with a port has its row with that port, and no two interfaces of the service share a port |
| ApiOnly.RowsWellFormed | src/manager.rs:413-483 | such runs keep ids, names and ports unique, ports in 20000..29999, interface names equal to the id, no row for the own ASN, and different link-local addresses |
| ApiOnly.RunInvariant | src/manager.rs:70-240 | every state of such a run keeps the row, port and ownership facts |
| ApiOnly.ActionFine | src/manager.rs:372-379 | no action moves a row's port, erases a row before its interface, or gives an interface another port than its row's |
| Manager.PeerManager.ReservePeer | src/manager.rs:413-483 | tries 20,000 + ASN mod 10,000 first, then each next port and 20,000 after 29,999, none twice, takes the first one that no device and no row has, for a row with every field as requested and the id of the sequence; reports exhaustion only when all 10,000 are taken, leaves rows and events alone in test mode; without failures a fresh name gets a port or exhaustion |
| Manager.PeerManager.ScanPorts | src/manager.rs:426-456 | the loop of the reservation against one table and kernel state |
| Manager.PeerManager.TryPort | src/manager.rs:426-453 | a port is passed over only if a device or a row has it |
| Manager.PeerManager.InsertRow | src/persist.rs:290-333 | inserts unless a constraint forbids it; a test leaves nothing |
| Ports.CandidatesDiffer | src/manager.rs:423-428 | candidates are in 20000..29999 and pairwise different |
| Ports.CandidatesInOrder | src/manager.rs:423-428 | the candidates are the preferred port and then each next one, with 20,000 after 29,999 |
| Ports.ScanOrderDetermines | src/manager.rs:423-428 | that order determines every port of the scan |
| Ports.CandidatesCover | src/manager.rs:423-428 | every port of the range is a candidate |
| Ports.AllCandidatesBusy | src/manager.rs:454-456 | if every candidate is taken, no port is free |
| Manager.PeerManager.CreatePeer | src/manager.rs:70-133 | a created peer is new, active, as requested in every field, on a free port, configured, and everything else is untouched; a refused one that could be undone leaves rows and interfaces alone, and BIRD and ports as they were or as the table asks for, and after a single failed call that is every one but an insertion whose reply was lost; without failures only exhaustion refuses; other peers are never touched |
| Manager.PeerManager.UpdatePeer | src/manager.rs:136-187 | an accepted update answers with, stores, configures and activates the requested key, endpoint, MTU and link-local pair and the old id, name, ASN, interface and port; a refused one that could be undone leaves rows, interfaces, BIRD and ports alone or has that peer's old row active and configured again; after a single failed call it is undone, or only the new row is stored, or only its last status write is missing; unknown and deleting peers are not found; other peers are never touched |
| Manager.PeerManager.DeletePeer | src/manager.rs:197-240 | an accepted deletion removes row, interface, BIRD file and port of that peer; after a single failed call a refused one leaves nothing, only the mark, the row active again, or all but the erased row; other peers are never touched, however it ends |
| Manager.PeerManager.Remove | src/manager.rs:216-240 | once the row is marked, a single failed call either takes the deletion back, which makes the row active with interface and BIRD files as before or configured again, or leaves everything but the erased row done |
| Manager.RefusedDeleteExactly | src/manager.rs:216-232 | a refused deletion leaves the table as it was exactly if it was taken back from an active row, or the row was being deleted already |
| Manager.RolledBackExactly | src/manager.rs:546-582 | an update of a peer that was rolled back leaves the table as it was exactly if that row was active |
| Manager.PeerManager.Reinstate | src/manager.rs:223-233 | without failures the way back configures and activates the row again |
| Manager.PeerManager.SetUp | src/manager.rs:109-129 | a single failed call after the reservation is undone completely: no row, interface, BIRD file or open port of the peer |
| Manager.PeerManager.Reconfigure | src/manager.rs:165-183 | what a single failed call of an update leaves, and that without failures it succeeds |
| Manager.PeerManager.CompensateFailedCreate | src/manager.rs:518-543 | reporting `complete` means no row, interface, BIRD file or open port of the peer is left; without failures it is reported if the row exists, and each part is tried whatever became of the others |
| Manager.PeerManager.CompensateFailedUpdate | src/manager.rs:546-582 | reporting `complete` means row, interface and BIRD file have the old values and the row is active; the row becomes active only with them in place |
| Manager.PeerManager.RemoveExternal | src/manager.rs:584-589 | the interface is untouched until BIRD shows what the table asks for; success leaves neither file nor interface |
| Manager.PeerManager.ApplyWireguard | src/manager.rs:493-515 | success leaves key, port, MTU, alias and local address as in the row and touches no other interface |
| Manager.PeerManager.ApplyPeerChange | src/manager.rs:355-390 | whatever an event recorded, success brings the peer to what its present row asks for and finishes its status; row and ports change only once interface and BIRD are as the row asks |
| Manager.PeerManager.Process | src/manager.rs:320-324 | each processed event lowers events plus twice the unfinished rows; however it ends, the row becomes active or goes only once interface and BIRD are as it asks |
| Manager.PeerManager.SyncPending | src/manager.rs:316-352 | each listed event that is left is paid for by a failed call of its own, so a failed change does not stop the others; one pass leaves only new events of finished rows; without failures it succeeds, and a table whose disagreements are all recorded is then settled |
| Manager.PeerManager.VisitChanges | src/manager.rs:320-346 | the same for the loop, which goes on after a failure and remembers it |
| Manager.PeerManager.Visit | src/manager.rs:321-346 | a turn without a failed call removes its event and settles its peer, whatever failed before |
| Manager.PeerManager.TwoPasses | src/manager.rs:316-352 | two passes without failures empty the outbox |
| Manager.PeerManager.Recover | src/manager.rs:242-314 | success makes interfaces, ports, `current` and rows what the first table asks for, field by field, and leaves no other interface but one without alias that neither a row nor a recorded deletion accounts for; stopping anywhere leaves the table on the way, no row erased before its interface, and no wanted peer without the interface it had |
| Manager.PeerManager.PurgeDeleted | src/manager.rs:289-298 | removes interfaces of recorded deletions whose row is gone, and no others |
| Manager.PeerManager.SetStatus | src/persist.rs:382-396 | reports whether the row existed and writes its status |
| Manager.PeerManager.UpdateDesired | src/persist.rs:349-380 | writes every mutable column with status provisioning, and refuses a port another row has |
| Manager.ProcessedWork | src/manager.rs:360-387 | applying an event and dropping it lowers the work left |
| Manager.ProcessedRestless | src/manager.rs:360-379 | it finishes one row and starts no work for another |
| Manager.HiddenRow | src/manager.rs:607-635 | removing a row that is not wanted changes neither the BIRD files nor the ports |
| Manager.ActivatedRow | src/manager.rs:363-366 | activating a wanted row changes neither |
| Manager.NothingShown | src/manager.rs:518-543 | a row that is gone leaves no BIRD file and, ports being unique, no open port |
| Bird.Store.Sync | src/manager.rs:612-681 | exactly when a synchronisation succeeds; success shows and loads the wanted files and leaves no older generation that could be removed; a failure before the switch changes neither, one whose switch was undone shows and loads what was there before, any other shows the refused files or none; every crash point is safe |
| Bird.Store.Replace | src/manager.rs:644-681 | building, switching and reloading: exactly when it succeeds, and what every failure shows and has loaded |
| Bird.Store.Commit | src/manager.rs:658-681 | switch, reload and way back: what is shown and loaded in every combination of failures |
| Bird.Store.Build | src/manager.rs:644-656 | a new directory is complete before anything points to it, and what is shown does not change |
| Bird.Store.RemoveOld | src/manager.rs:717-729 | cleanup never removes the directory that `current` points to, and leaves no other but the empty one and those it could not remove |
| Bird.Store.WriteFiles | src/manager.rs:651-656 | after success the directory holds exactly the wanted files |
| Bird.Store.Switch | src/manager.rs:961-976 | the link moves in one step, also when the flush after it fails |
| Bird.Store.EnsureLayout | src/manager.rs:683-704 | a missing link is first pointed at the empty directory, and what is shown does not change |
| Bird.Store.Render | src/manager.rs:591-634 | one file per row that is neither being deleted nor disabled, naming its id, name and ASN, the own ASN, the interface and the local and remote addresses, and an error for a row with a wrong interface name |
| Bird.UnreadableLink | src/manager.rs:659-675 | an unreadable link and a refused reload cost the working configuration |
| Nft.BatchReplaces | src/manager.rs:985-998 | the script, read back and run on any set, leaves exactly the listed ports |
| Nft.PortBatch | src/manager.rs:985-998 | the builder produces that script, a flush and at most one addition |
| Nft.SyncBatch | src/manager.rs:397-411 | the script for a row list replaces any set by the ports of its wanted rows, sorted and each named once |
| Nft.SnapshotPorts | src/manager.rs:392-411 | for a whole table these are the ports the protocol counts as open |
| Nft.Sort | src/manager.rs:406 | sorted, with the same elements as often |
| Nft.Dedup | src/manager.rs:407 | strictly increasing when the input is sorted, with the same elements |
| LinkLocal.FieldAmbiguity | src/challenge.rs:312-317 | over fe80::/10, another accepted pair has the same text if and only if the groups between the two gaps can be divided elsewhere |
| LinkLocal.PrefixPairDetermined | src/challenge.rs:312-317 | within fe80::/64 the text determines both addresses |
| LinkLocal.PlainPairDetermined | src/handle.rs:436-451 | so it does whenever no later group looks like the first group of a link-local address |
| LinkLocal.AutoIsNoPair | src/challenge.rs:312-317 | `auto` is never the text of a pair |
| LinkLocal.WiderPairsCollide | src/handle.rs:436-451 | two accepted pairs with the same text |
| LinkLocal.PrintInjective | src/challenge.rs:314 | the text determines its groups and gaps |
| LinkLocal.CodeDetermines | src/challenge.rs:314 | groups and gaps determine where the address is compressed |
| LinkLocal.GapExactly | src/challenge.rs:314 | exactly the first of the longest runs of two or more zero groups is left out |
| Reader.AddressReads | src/challenge.rs:314 | reading the text of a link-local address gives the address |
| Reader.MessageReads | src/challenge.rs:266-323 | a reader that knows only the labels and keywords finds in every text the operation, ASN, name, key, endpoint action, MTU action, nonce and expiry of its request, and both link-local addresses, local first |
| Message.TextDetermines | src/challenge.rs:266-323 | two messages have the same text if and only if they are the same operation with the same ASN, name, key, endpoint action, MTU action, nonce and expiry, and link-local fields that print alike; nonces are arbitrary |
| Message.MessageInjective | src/challenge.rs:266-323 | with link-local addresses from fe80::/64 the text is the request |
| Message.MessageAmbiguity | src/challenge.rs:266-323 | another request has the same text if and only if the message carries a pair that divides elsewhere |
| Message.EndpointDetermines | src/challenge.rs:276-283 | no endpoint reads like the absence of one |
| Reader.NewEndpointReads | src/challenge.rs:296-300 | `unchanged` is read as no endpoint field, `clear` as an explicit null and `set:` as the endpoint that follows |
| Reader.NewMtuReads | src/challenge.rs:301-305 | the same for the MTU, with `default` for an explicit null |
| Message.NewEndpointDetermines | src/challenge.rs:296-300 | unchanged, cleared and set endpoints differ |
| Message.NewMtuDetermines | src/challenge.rs:302-306 | unchanged, default and set MTUs differ |
| Nonces.NoncesConserved | src/persist.rs:237-287 | in any concurrent run, nonces issued are outstanding, spent or purged |
| Nonces.AcceptedSpentOne | src/challenge.rs:75-121 | an accepted request spent exactly one nonce, issued for its ASN and expiry, at a moment not past it |
| Nonces.RefusedSpentNone | src/challenge.rs:83-106 | an expired challenge, a bad signature, a missing permit or an unknown nonce spends nothing |
| Nonces.AcceptedExactly | src/challenge.rs:75-121 | in every concurrent run a request is accepted exactly if it has passed the expiry check, the signature check, the permit, the consumption of its nonce and the registry check |
| Nonces.AdvancesExactly | src/challenge.rs:83-120 | a request goes on to the next check exactly if the present one passes, and ends otherwise |
| Nonces.PurgedExactly | src/persist.rs:244-249 | a purge removes exactly the nonces past their expiry |
| Nonces.GivenExactly | src/challenge.rs:54-66 | a nonce is given exactly when it was not in the table and its insertion succeeded, and it is then there for the ASN and expiry of the request |
| Nonces.GivenOnce | src/persist.rs:251-261 | in every concurrent run a nonce is given to no more clients than times it was recorded |
| Nonces.SingleUse | src/persist.rs:265-287 | no more requests are accepted with a nonce than times it was issued |
| Nonces.RegistryBounded | src/challenge.rs:97-101 | never more registry checks at once than permits |
| Nonces.ReactFits | src/challenge.rs:54-121 | each action spends only a matching unexpired nonce and only at the one point where a permit is held |
| Challenge.Authorizer.IssueChallenge | src/challenge.rs:54-66 | the nonce given is the first free one of four drawn, for that ASN, and expires 300 seconds from now; only expired rows disappear, and no other expired row is left; it gives up only when all four were taken |
| Challenge.Authorizer.AuthorizeRequest | src/challenge.rs:69-121 | each of the seven verdicts exactly when the check it stands for is the first that does not pass; the nonce is gone exactly if the request got as far as consuming it |
| Challenge.Authorizer.InsertNonce | src/persist.rs:237-262 | purges, then inserts unless the nonce exists |
| Challenge.Authorizer.ConsumeNonce | src/persist.rs:265-287 | removes the nonce only for its own ASN and expiry and not past it |
| Challenge.Replay | src/challenge.rs:102-106 | a request that got past the nonce check does not get past it again |
| Peers.StatusRoundTrip | src/persist.rs:598-616 | storing and reading a status keeps all the protocol decides on; only an error's detail is lost |
| Peers.StatusColumn | src/persist.rs:598-616 | which text of the status column is which status |
| Peers.DesiredShowsRows | src/manager.rs:591-634 | the wanted BIRD files are one per row that is neither being deleted nor disabled, with the fields of that row |
| Peers.DesiredOpensPorts | src/manager.rs:397-405 | the wanted ports are those of the same rows |
| Peers.NewAsRequested | src/manager.rs:413-483 | a new row has every field as requested, 1420 for an absent MTU, and fe80:: addresses carrying the own and the peer's ASN for an absent pair |
| Peers.ChangedAsChanged | src/manager.rs:159-168 | a changed row has the requested fields, the old endpoint and MTU where they are absent, none and 1420 where they are null, and the rest of the old row |
| Peers.AsnLinkLocalInjective | src/manager.rs:895-906 | automatic addresses of different ASNs differ |
| Text.IfaceName | src/manager.rs:473 | `wgp` and a number without leading zeros, which can be read back, so different ids have different names |
| Text.ConfName | src/manager.rs:633 | the same with `.conf` for the name of a BIRD file |
| Text.Decimal | src/manager.rs:990-993 | decimal text has no leading zeros and can be read back |

## Left out

- nftables equality at rest: a job that read the rows earlier may write its set last (`src/manager.rs:392-411`, `src/main.rs:82-101`), so the concurrent model claims the set only right after a synchronisation (`Guarantees.NftSyncExactly`).
- Convergence.Converges: it says that the outbox can be emptied, and `Passes.PassAlone` that any two such passes do it when nothing else runs; a process under load that never lets a pass run undisturbed is not claimed to empty it.
- Manager.PeerManager.SyncBird: the file system calls of one synchronisation are a single change of `current` there and in `Machine`; `Bird.Store.Sync` has them one by one.
- Daemon.EmptyOutboxLoaded: recovery's comparison and its forced reload are one step there, and so are the way back and the second reload.
- Bird.Store.Sync: a reload that timed out but took effect later is not modelled; a refused reload leaves the daemon as it was.
- Manager.PeerManager.ReservePeer: the other operations stand still during the scan; interleaved scans are in `Machine`, where only uniqueness and the port range are claimed.
- Manager.PeerManager.UpdatePeer: a row that another writer deletes between the read and the write is covered by `Machine`, not by this method.
- The endpoint a WireGuard peer was configured with: WireGuard replaces it when the peer roams, so an interface of the model has none.
- Local addresses are only ever added (`src/netlink.rs:136-144`), so an interface is claimed to have the row's address, not to have no other.
- Recovery's peer locks (`src/manager.rs:268-312`) are taken before anything else runs; they are never contended and are left out.
- SQL, renames and netlink calls of a dropped request that still take effect later: modelled only as calls that failed after taking effect, before the request's locks are free.
- Alone.CreateAlone: for threads of `Machine` that run alone, only what zero or one failed call leaves is compared with `Manager`; so it is in `Alone.UpdateAlone` and `Alone.DeleteAlone`.
- Temporary files, modes and flushes inside `write_atomic`, and names of temporary links: a file is written completely or not at all.
- Rendering of the BIRD template is a function of the fields it reads; the text itself and a rendering error are left out.
- Netlink, nft and BIRD socket protocols, DNS resolution, signature checks, base64 keys, URL parsing and the registry lookup: each is a map update, a failure, or a yes-or-no input. A normalised endpoint is taken to be free of line breaks and to contain a colon.
- The id sequence stops at 2^31 in the database and at 2^32 in the program; both are an allocation that fails.
- Trimming of request fields before validation, and JSON decoding.
- Debug-only switches, logging, metrics, error rendering, OpenAPI, environment parsing and deployment files.
