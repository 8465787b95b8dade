# Verified models of the wardrobe application and its release tooling

The wardrobe application is a macOS desktop program that keeps personal data local unless
the user switches outbound work on. Around it stands a Python tool chain that produces
release evidence. This project models the parts of both where correctness is hard to see
from the code, and proves what the code promises.

| file | what it models |
|---|---|
| `AuthorityState.dfy`, `AuthorityRuns.dfy` | the lease protocol that guards every outbound request, run by any number of threads, with mode changes and the Gmail disconnect on top |
| `SchedulerLatch.dfy` | the two-atomic latch that coalesces try-on wake-ups, at the grain of single atomic operations |
| `Isolation.dfy`, `IsolationRecovery.dfy` | the crash-recoverable isolation of the user's private trees during the offline smoke, with the applications it launches |
| `CargoRoles.dfy` | role propagation over the Cargo dependency graph |
| `Inventory.dfy`, `Ordering.dfy` | the merged dependency inventory and its checker |
| `InventoryGenerator.dfy` | the generator from lock files and dependency graphs to the manifest, end to end |
| `ResourceTree.dfy` | the startup check of bundled resources against declared model artifacts |
| `LiveRecords.dfy`, `LiveTrace.dfy` | the recogniser of native PhotoKit traces: the records they are made of, and the grammar of their events |
| `PhaseGraph.dfy`, `WorkPacket.dfy` | the specification harness: its dependency check and the life of a work packet |
| `PngFilters.dfy`, `PngFile.dfy`, `PngRoundTrip.dfy` | the PNG decoder, the fixture encoder, and their round trip |
| `StreamScan.dfy` | bounded capture and pattern search over chunked streams |
| `BackupListing.dfy` | listing and paging of verified backups |

A protocol is a state machine: an `Action` datatype, a predicate saying when an action is
enabled, a function giving the next state, and runs as sequences of actions. Theorems
quantify over every run, so over every interleaving and every crash point. Code that
updates variables is imperative here too, and each method is proved against a
specification function or an outright property.

## What turned out false

- The scheduler latch loses wake-ups. `SchedulerLatch.WakeCanBeLost` gives the interleaving:
  one runner, inside `finish_pass`, takes the wake of a late request after a second runner
  has passed its `begin_pass`, cannot take `active` back, and drops it.
  `SchedulerLatch.RequestUnservedIff` says exactly when a request stays unserved, and
  `SchedulerLatch.EveryRequestServed` that it never does when `finish_pass` is not
  interrupted and nothing cancels the queue.
- A drain of the outbound authority can block forever if the thread that begins a
  transition holds a lease itself. `AuthorityRuns.DrainsIffNoOwnLease` is the exact
  condition; the only caller in the application begins its transition without a lease,
  and `AuthorityRuns.NoDeadlock` covers every run that keeps to this.
- An isolation over a symbolic link is never recovered. `__enter__` writes its marker
  before it looks for links, and from then on every `recover` raises until the user does
  away with the link: `IsolationRecovery.LinkedStart` is such a start,
  `IsolationRecovery.LinkedSlotNeverRecovers` the general fact,
  `IsolationRecovery.RecoverableIffUnlinkedAtEnter` the condition at the time of
  `__enter__`, and `IsolationRecovery.RetryPossibleIff` the exact condition in any
  reachable state, with the groups that refuse to die.
- What the user does between a crash and its recovery is kept only where the tree had not
  been moved aside. `IsolationRecovery.EditKeptIffInPlace` says exactly which edits
  survive, `IsolationRecovery.NewTreeIsDeleted` shows one that does not.
- The application refuses some manifests that the generator produces: integrities other
  than one sha512 digest (`InventoryGenerator.OtherDigestRefused`) and an npm lock path
  that ends in `node_modules/` (`InventoryGenerator.EmptyNameRefused`), each shown on
  inputs for which the whole generation succeeds. `InventoryGenerator.GenerateManifest`
  states when it succeeds and when the manifest is accepted, both as if-and-only-ifs; the
  structural clauses always hold.
- Paging through backups does not work for every limit and every number of backups: limits
  above 100 are refused, every page lists all backups first, so with 10,000 or more the
  first page fails, and a damaged record stops the walk at its page.
  `BackupListing.FollowPages` is the exact condition.
- The harness combines exit codes with `max`, and a program ended by a signal is reported
  with a negative code. `WorkPacket.SignalDeathLooksLikeSuccess` shows a killed sidecar
  passing; `WorkPacket.ExitZeroIff` is the exact condition for a combined zero.

## Model

| member | source | states |
|---|---|---|
| `AuthorityState.OutboundAuthority.Acquire` | src-tauri/src/local_only.rs:91-114 | the critical section of a capability lease: each refusal exactly when its test says so, leased exactly when the door is open, the mode live and the bounded counter not full |
| `AuthorityState.OutboundAuthority.AcquireLocalCleanup` | src-tauri/src/local_only.rs:116-133 | the cleanup lease, granted in every mode: refused exactly during a transition, never as denied |
| `AuthorityState.OutboundAuthority.BeginTransition` | src-tauri/src/local_only.rs:135-157 | closes the door; refused exactly if it was closed, drains exactly if leases are live, and otherwise opens with the snapshot in force |
| `AuthorityState.OutboundAuthority.ReleaseLease` | src-tauri/src/local_only.rs:213-224 | the saturating decrement and when waiters are notified |
| `AuthorityState.OutboundTransition.Publish` | src-tauri/src/local_only.rs:161-172 | the published snapshot replaces the old one and the door opens |
| `AuthorityState.OutboundTransition.FailClosed` | src-tauri/src/local_only.rs:174-193 | local-only at the prior revision |
| `AuthorityState.OutboundTransition.Drop` | src-tauri/src/local_only.rs:196-211 | rolls back exactly when neither publish nor fail-closed ran |
| `AuthorityState.ResolveTransition` | src-tauri/src/lib.rs:1187-1226 | the snapshot left by each store outcome of a mode change, and that the queued try-on wake is cancelled exactly when a decisive outcome leaves the mode local-only |
| `AuthorityRuns.StepKeepsInv` | src-tauri/src/local_only.rs:91-224 | every action of every thread, handing a lease to another thread included, keeps the protocol invariant |
| `AuthorityRuns.AuthoritySafe` | src-tauri/src/local_only.rs:91-224 | in every interleaving: no capability lease in local-only mode, the counter equals the live leases, at most one thread drains or decides, and none holds a lease while a transition is open |
| `AuthorityRuns.ReleaseNeverSaturates` | src-tauri/src/local_only.rs:213-224 | a live lease is always counted, so the decrement never saturates |
| `AuthorityRuns.AcquireLeasesIff` | src-tauri/src/local_only.rs:91-133 | in every reachable state an acquire adds exactly one lease, with its owner and capability, if and only if the door is open, the mode allows it and the counter has room; otherwise nothing changes |
| `AuthorityRuns.BeginClosesIff` | src-tauri/src/local_only.rs:135-157 | in every reachable state beginning a transition closes an open door, and holds or drains according to the live leases; a closed door changes nothing |
| `AuthorityRuns.ModeStableDuringLease` | src-tauri/src/local_only.rs:91-211 | the published mode never changes during the lifetime of any lease |
| `AuthorityRuns.DisconnectKeepsItsMode` | src-tauri/src/lib.rs:218-236 | under the cleanup lease the completion chosen by the disconnect matches the mode in force throughout, and the revoke lease is refused only because a transition has begun, never as denied |
| `AuthorityRuns.ModeIsReplay` | src-tauri/src/lib.rs:1187-1226 | any interleaving publishes the modes its resolutions would publish one after another |
| `AuthorityRuns.ModeIsLastDecisive` | src-tauri/src/lib.rs:1187-1226 | the mode in force is the initial one or exactly what the latest outcome other than a platform failure left |
| `AuthorityRuns.LiveIffLatestAnswerLive` | src-tauri/src/lib.rs:1187-1226 | outbound work is possible if and only if that outcome was an acknowledged or proven live answer, or there was none and the process started live |
| `AuthorityRuns.UnprovenEndsClosed` | src-tauri/src/local_only.rs:174-193 | an unproven publication ends closed at the prior revision with the matching health |
| `AuthorityRuns.DrainOnlyShrinks` | src-tauri/src/local_only.rs:135-157 | while a thread drains no lease is added and every drop removes one, so the lease count bounds the drain |
| `AuthorityRuns.DrainRefusesAcquire` | src-tauri/src/local_only.rs:91-133 | an acquire during a drain, nested or not, fails at once instead of blocking |
| `AuthorityRuns.DrainCompletes` | src-tauri/src/local_only.rs:135-157 | a drain by a thread without leases ends after one drop per lease and one turn of the wait loop |
| `AuthorityRuns.DrainsIffNoOwnLease` | src-tauri/src/local_only.rs:135-157 | a drain can end if and only if the draining thread holds no lease |
| `AuthorityRuns.NoDeadlock` | src-tauri/src/lib.rs:1187-1191 | when transitions are begun without a lease in hand, every draining thread of every reachable state can still open |
| `SchedulerLatch.TryOnSchedulerLatch.RequestRun` | src-tauri/src/lib.rs:506-511 | is the two atomic steps of a request in a row; spawns exactly when no runner is active, and then the caller owns the pass loop |
| `SchedulerLatch.TryOnSchedulerLatch.FinishPass` | src-tauri/src/lib.rs:517-525 | uninterrupted, is the three atomic steps in a row; the runner stays the owner exactly when a wake was stored |
| `SchedulerLatch.TryOnSchedulerLatch.CancelQueued` | src-tauri/src/lib.rs:560-562 | requests are left without a wake exactly when the stored one was all that was in flight for them or they had none before; every activity stays where it is |
| `SchedulerLatch.MutualExclusion` | src-tauri/src/lib.rs:505-525 | between any two atomic operations `active` is up exactly while one activity owns the pass loop, and never two |
| `SchedulerLatch.LostStep` | src-tauri/src/lib.rs:505-525 | a single operation leaves a request without a wake in flight exactly when it drops the last wake or inherits the loss |
| `SchedulerLatch.RequestUnservedIff` | src-tauri/src/lib.rs:505-585 | when everything is at rest, a request is unserved if and only if the run dropped the last wake and nothing revived one |
| `SchedulerLatch.WakeCanBeLost` | src-tauri/src/lib.rs:517-525 | a run without cancellation that ends at rest with an unserved request |
| `SchedulerLatch.ServedWithoutOverlap` | src-tauri/src/lib.rs:505-585 | at single-operation grain: if no pass begins while another runner is between the operations of `finish_pass` and nothing cancels, no request is ever lost |
| `SchedulerLatch.FinishOutcome` | src-tauri/src/lib.rs:517-525 | the three operations of `finish_pass` in a row |
| `SchedulerLatch.EveryRequestServed` | src-tauri/src/lib.rs:564-585 | with an uninterrupted `finish_pass`, every run that comes to rest has begun a pass after every request |
| `SchedulerLatch.ServedWithinTwoRunnerSteps` | src-tauri/src/lib.rs:564-585 | an unserved request sees at most one step of the runner, whatever interleaves |
| `SchedulerLatch.UnservedMeansProgress` | src-tauri/src/lib.rs:564-585 | while a request is unserved some activity can move |
| `Isolation.StepKeepsInv` | tools/p09_offline_smoke.py:286-398 | every step of driver, applications, user and crashes, refused terminations included, keeps the isolation invariant |
| `Isolation.OriginalsSurvive` | tools/p09_offline_smoke.py:286-398 | after any run with crashes between or inside steps, refused terminations, user edits and any number of retries, each tree owed to the user is intact in its current or backup slot |
| `Isolation.IsolationRoundTrip` | tools/p09_offline_smoke.py:286-398 | when some recovery completes, both slots hold what is owed, exactly what they held before `__enter__` if the user left them alone, with no marker, no backup and no released application left |
| `Isolation.ReleasedIsRecorded` | tools/p09_offline_smoke.py:337-361 | an application that has passed the launch gate and is alive is in the durable marker |
| `Isolation.NoSwapUnderRunningApp` | tools/p09_offline_smoke.py:307-324 | trees are moved only while no released application is alive |
| `IsolationRecovery.PrivateAppIsolation.Recover` | tools/p09_offline_smoke.py:286-324 | completes exactly when the recorded groups can be terminated and both entries pass, and then leaves the recovered disk; a failure keeps the marker |
| `IsolationRecovery.PrivateAppIsolation.TerminateAll` | tools/p09_offline_smoke.py:307-308 | succeeds exactly when every live recorded group can be terminated, and then none is alive |
| `IsolationRecovery.PrivateAppIsolation.RecoverEntry` | tools/p09_offline_smoke.py:309-323 | one entry, with each of its refusals |
| `IsolationRecovery.RecoveredIsOriginal` | tools/p09_offline_smoke.py:286-324 | in every reachable state what `recover` leaves is what it owes: what `__enter__` found, with edits to a tree still in place |
| `IsolationRecovery.RecoverableIff` | tools/p09_offline_smoke.py:309-323 | in every reachable state the checks of `recover` come down to three conditions on the slots; the unsafe-backup check never fires |
| `IsolationRecovery.RetryCompletes` | tools/p09_offline_smoke.py:286-324 | after any history of crashes, when the live recorded groups can be terminated and those conditions hold, a retry completes and both slots hold what is owed |
| `IsolationRecovery.RetryPossibleIff` | tools/p09_offline_smoke.py:209-237 | after any history, some sequence of retries removes the marker if and only if the live recorded groups can be terminated and those conditions hold |
| `IsolationRecovery.LeaveRecovers` | tools/p09_offline_smoke.py:394-398 | from inside, after any history, leaving runs one `recover` that ends with no marker and both slots as owed, when the groups can be terminated and nothing is in the way |
| `IsolationRecovery.EndsOnlyRecovered` | tools/p09_offline_smoke.py:286-398 | in every reachable state the driver ends only by a crash, a refused termination, a failed check, or with no marker left |
| `IsolationRecovery.EnterMovesAside` | tools/p09_offline_smoke.py:363-388 | over plain slots and an unused name `__enter__` moves every tree aside and lets the smoke in |
| `IsolationRecovery.LaunchRuns` | tools/p09_offline_smoke.py:337-352 | a launch with room in the marker gets its application running, recorded and released |
| `IsolationRecovery.StopEnds` | tools/p09_offline_smoke.py:354-361 | stopping an application takes it, and it alone, out of the marker |
| `IsolationRecovery.WholeSmoke` | tools/p09_offline_smoke.py:286-398 | for every start with plain slots and an unused name, a run with two launches one after the other that ends with the slots as they were and no marker |
| `IsolationRecovery.RecoverableIffUnlinkedAtEnter` | tools/p09_offline_smoke.py:363-392 | with an unused backup name and nobody else making links, every later state is recoverable if and only if neither slot was a link when `__enter__` began |
| `IsolationRecovery.LinkedSlotNeverRecovers` | tools/p09_offline_smoke.py:379-392 | once the marker is written over a linked slot, no run removes it until the user does away with the link |
| `IsolationRecovery.LinkedStart` | tools/p09_offline_smoke.py:379-392 | a concrete start and run that ends unrecoverable |
| `IsolationRecovery.EditKeptIffInPlace` | tools/p09_offline_smoke.py:309-323 | an edit made after a crash survives recovery exactly when the tree had not been moved aside |
| `IsolationRecovery.NewTreeIsDeleted` | tools/p09_offline_smoke.py:321-323 | a tree made after a crash where there was none is deleted by recovery |
| `CargoRoles.CollectKinds` | tools/release_supply_chain.py:476-483 | the kinds of an edge without dev, and the unsupported-kind error |
| `CargoRoles.ProcessPackage` | tools/release_supply_chain.py:474-495 | the loop body settles a package and either changes nothing or assigns a missing role |
| `CargoRoles.PropagateRoles` | tools/release_supply_chain.py:466-495 | ends on every finite graph; fails exactly when a reached package has no node or an unsupported edge; otherwise lists exactly the packages reached by non-dev edges, with runtime exactly for walks of normal edges and build exactly for walks that use a build edge |
| `CargoRoles.Fixpoint` | tools/release_supply_chain.py:466-495 | an empty queue means the roles are exactly those that walks earn |
| `Inventory.MergeContributions` | tools/release_supply_chain.py:534-552 | fails exactly on inconsistent reports, otherwise one entry per identity with the union of roles and targets |
| `Inventory.FinalizeEntries` | tools/release_supply_chain.py:761-776 | sorted roles and targets, records in strict identity order |
| `Inventory.InventoryOrderIrrelevant` | tools/release_supply_chain.py:449-553 | the finished list does not depend on the order of targets or lock entries |
| `Inventory.NoDuplicates` | tools/release_supply_chain.py:922-936 | identities of the two ecosystems are pairwise distinct |
| `Inventory.BuildInventory` | tools/release_supply_chain.py:922-961 | the duplicate error never occurs, inconsistency is the only failure, the generated list meets every structural clause of the checker, and is accepted exactly when every report is identified the checker's way |
| `Inventory.ValidateInventory` | src-tauri/src/release_manifest.rs:261-345 | the checker accepts exactly the manifests with exact counts, sound input hashes, strictly increasing valid records whose source carries the right integrity, and the projected licences |
| `Inventory.AcceptedMeans` | src-tauri/src/release_manifest.rs:261-345 | an accepted manifest spelled out: strictly increasing identities, the possible role and target lists, integrities by origin, positional licences, exact counts |
| `Inventory.IdentityLessIff` | src-tauri/src/release_manifest.rs:288-296 | identities are ordered by the first of ecosystem, name, version and source in which they differ |
| `Inventory.FinishedIsValid` | src-tauri/src/release_manifest.rs:261-345 | any finished list of the generator's reports meets the structural clauses, and is accepted if and only if the reports are identified |
| `InventoryGenerator.CargoLockIndex` | tools/release_supply_chain.py:378-404 | the checksum of every registry package, or an error exactly on a foreign source, a malformed checksum or a repeated identity |
| `InventoryGenerator.TargetReports` | tools/release_supply_chain.py:449-553 | succeeds exactly when there is one root and every package it needs can be described; then one report for each of these, with exactly the roles that walks earn |
| `InventoryGenerator.CargoReports` | tools/release_supply_chain.py:449-553 | the reports of all targets |
| `InventoryGenerator.CargoReportsOk` | tools/release_supply_chain.py:466-553 | the checker's role and target clauses hold of whatever the graphs report |
| `InventoryGenerator.NpmReports` | tools/release_supply_chain.py:639-758 | one report for each package of the npm lock, or an error exactly when a package cannot be described or has drifted from its manifest, a link does not lead to the package it names, or the script allowlist is stale |
| `InventoryGenerator.LockReadsEntries` | tools/release_supply_chain.py:711-742 | an npm record is build exactly if some lock package of it is a development one and runtime exactly if some is not, is for exactly the targets its system and processor lists admit, and has the licence, script flag and integrity of the lock |
| `InventoryGenerator.AppliesIffAdmits` | tools/release_supply_chain.py:617-627 | a constraint list admits a candidate exactly if it excludes nothing like it and names it if it names any |
| `InventoryGenerator.NameOfInstalled` | tools/release_supply_chain.py:556-561 | a package installed below a `node_modules` directory is named after its own directory |
| `InventoryGenerator.ChecksumsRead` | tools/release_supply_chain.py:514-532 | a registry record carries the checksum the Cargo lock gives its name and version, a local one none |
| `InventoryGenerator.RecordReadsGraphs` | tools/release_supply_chain.py:497-553 | a finished Cargo record has a role exactly if its package earns it by a walk on some target, and a target exactly if that target's root needs it, and carries the licence of those packages |
| `InventoryGenerator.GenerateManifest` | tools/release_supply_chain.py:907-961 | from lock files and graphs to the manifest: succeeds if and only if every input can be described and none contradicts another; the manifest is always structurally valid, faithful to the graphs and the npm lock, complete, and accepted under an exact condition; an error says which input is at fault |
| `InventoryGenerator.OtherDigestRefused` | tools/release_supply_chain.py:593-601 | inputs with a sha256 integrity for which the generation succeeds and the application refuses the manifest |
| `InventoryGenerator.EmptyNameRefused` | tools/release_supply_chain.py:556-561 | inputs with a lock path of empty name for which the generation succeeds and the application refuses the manifest |
| `Ordering.NeighboursSuffice` | src-tauri/src/release_manifest.rs:534-536 | comparing neighbours is enough for a strictly sorted list |
| `Ordering.SortedUnique` | tools/release_supply_chain.py:765-775 | a strictly sorted list is determined by its elements |
| `Ordering.StringLessIff` | tools/release_supply_chain.py:765-775 | the string order is lexicographic, said without recursion |
| `ResourceTree.VisitEntry` | src-tauri/src/release_manifest.rs:401-434 | one directory entry: each refusal, the descent, and the artifact check |
| `ResourceTree.VerifyResourceTree` | src-tauri/src/release_manifest.rs:391-442 | for every finite tree and enumeration order: accepts exactly when no node is forbidden, every reviewed file is declared with matching length and digest, and every declared artifact is present |
| `ResourceTree.TreeOkIff` | src-tauri/src/release_manifest.rs:391-442 | what the check demands, node by node and without the walk: every node is allowed where it stands, and there is a file at every declared path |
| `ResourceTree.ValidateArtifacts` | src-tauri/src/release_manifest.rs:371-383 | the one-pass artifact check equals strictly increasing safe paths and well-formed records |
| `ResourceTree.UndeclaredOutsideRoot` | src-tauri/src/release_manifest.rs:432-434 | after policy validation the branch that refuses a declared file outside the model root is unreachable |
| `ResourceTree.NoArtifactShadowed` | src-tauri/src/release_manifest.rs:392-396 | validated artifacts never collide in the declared map |
| `ResourceTree.JoinInjective` | src-tauri/src/release_manifest.rs:491-499 | distinct safe relative paths name distinct resources |
| `ResourceTree.SafeRelativeIff` | src-tauri/src/release_manifest.rs:491-499 | a safe relative path is one or more proper names joined by slashes, and nothing else is |
| `LiveRecords.CheckRecord` | tools/evaluators/p00_photos.py:1220-1259 | no error exactly when the event is approved, the fields are exact and every value has its approved type, constant or range |
| `LiveRecords.PrintedIsOk` | tools/evaluators/p00_photos.py:1220-1259 | the record of a valid event passes every check and is read back as that event |
| `LiveRecords.OkIsPrinted` | tools/evaluators/p00_photos.py:1220-1259 | a record that passes every check is the record of the valid event it stands for |
| `LiveRecords.OkIsLiteral` | tools/evaluators/p00_photos.py:261-298 | what an approved record says field by field, with the literal names, flags and outcomes |
| `LiveRecords.ReadRecords` | tools/evaluators/p00_photos.py:1220-1262 | the record loop reads back the events that were printed, or fails exactly when no valid events print these records |
| `LiveRecords.ValidateRecords` | tools/evaluators/p00_photos.py:1206-1396 | on the records as they come: a proof if and only if they print an acceptable session under the nonce, numbered from one, of the inspected executable; the record names are those of the session in order, and the proof repeats the fields of every completion record |
| `LiveTrace.TakeProgress` | tools/evaluators/p00_photos.py:1329-1340 | the maximal run of progress events |
| `LiveTrace.CheckCompletion` | tools/evaluators/p00_photos.py:1349-1371 | the completion checks, as one condition |
| `LiveTrace.ParseOperation` | tools/evaluators/p00_photos.py:1290-1382 | no error exactly when an acceptable operation starts at the cursor, and then that operation |
| `LiveTrace.ValidateLiveRecords` | tools/evaluators/p00_photos.py:1261-1396 | a proof is returned if and only if the events of the valid records print an acceptable session; it certifies every completion event by its own aliases, counts and output name |
| `LiveTrace.SessionProofMatches` | tools/evaluators/p00_photos.py:1374-1396 | the proof of a session, read off its events: one completion of each residency, each repeated, the output named after the resource, every event counted |
| `LiveTrace.AcceptsIffPrinted` | tools/evaluators/p00_photos.py:1266-1396 | reading by position and printing agree |
| `LiveTrace.SessionDeterministic` | tools/evaluators/p00_photos.py:1266-1396 | a trace spells at most one session |
| `PhaseGraph.DependencySearch.Visit` | tools/harness.py:249-260 | the depth-first visit keeps its stack a path and its finished phases ordered, reports only genuine cycles, and terminates by the phases not yet seen |
| `PhaseGraph.StackClosesCycle` | tools/harness.py:250-252 | meeting a phase on the stack exhibits a cycle through it |
| `PhaseGraph.OrderedIsAcyclic` | tools/harness.py:255-260 | a finishing order of all phases rules cycles out |
| `PhaseGraph.ValidateDependencies` | tools/harness.py:239-264 | nothing is reported if and only if every dependency is known and the graph is acyclic; unknown dependencies exactly, cycles only real ones |
| `WorkPacket.ValidateEvidence` | tools/harness.py:915-974 | no error exactly when every required requirement has valid passing or properly deferred evidence |
| `WorkPacket.RunPrograms` | tools/harness.py:994-1018 | the sidecar loop and the combined exit code |
| `WorkPacket.ExitZeroIff` | tools/harness.py:1016-1018 | exactly when the combined code is zero |
| `WorkPacket.ExitIsFirstFailure` | tools/harness.py:994-1018 | the combined code is that of the first sidecar not to return zero, if it is positive, and zero otherwise |
| `WorkPacket.SignalDeathLooksLikeSuccess` | tools/harness.py:1016-1018 | a concrete sidecar death that leaves zero |
| `WorkPacket.WorkPacketFile.ReviewCommand` | tools/harness.py:574-593 | runs exactly before approval and with the frozen specifications on disk, and records the proposal on disk |
| `WorkPacket.WorkPacketFile.BuildCommand` | tools/harness.py:891-912 | runs exactly from an approved state with the frozen specifications and the reviewed proposal on disk; clears evidence and manifest and records the fingerprint it leaves |
| `WorkPacket.WorkPacketFile.EvaluateCommand` | tools/harness.py:977-1069 | runs exactly on an unchanged clean build, and publishes exactly when the programs pass, the sources are unchanged and the evidence is valid and publishable |
| `WorkPacket.ReviewFrozen` | tools/harness.py:574-593 | from approval on the review never changes again, in every run |
| `WorkPacket.StatusTellsHistory` | tools/harness.py:574-1069 | in every run an approved packet was approved by a step of the run, a cleanly built one was built with exit code zero by a later step, and a manifest exists only when evaluated |
| `WorkPacket.FindBuild` | tools/harness.py:670-674 | a recorded build comes from a step of the run after which no other build ran, and all evidence on disk was written at or after it |
| `WorkPacket.ManifestProvenance` | tools/harness.py:876-1069 | a manifest exhibits, in order, the approving review of its proposal, the clean build of its sources, and the evaluation that started with the frozen specifications and both of these, ended with the same sources and left valid evidence, none of it older than the build |
| `PngFilters.PaethPredictor` | tools/p09_offline_smoke.py:1004-1013 | the neighbour nearest to the linear estimate, with the tie order of section 6.6 of RFC 2083 |
| `PngFilters.UnfilterByte` | tools/p09_offline_smoke.py:1076-1088 | the byte each filter type rebuilds, filter by filter as section 6 of RFC 2083 has it |
| `PngFilters.UnfilteredByte` | tools/p09_offline_smoke.py:1060-1089 | every byte of the reconstructed raster is rebuilt, as its row's filter byte says, from the raster bytes one pixel to the left, one row up, and both |
| `PngFilters.UnfilterInPlace` | tools/p09_offline_smoke.py:1060-1089 | the nested loops stay in bounds, fail exactly on an unknown filter, and leave the reconstructed raster |
| `PngFilters.UnfilterInvertsFilter` | tools/p09_offline_smoke.py:1060-1089 | reconstruction undoes the filters of section 6 of RFC 2083 for every size, channel count and choice of filters |
| `PngFilters.FilterInvertsUnfilter` | tools/p09_offline_smoke.py:1060-1089 | filtering undoes reconstruction: every filtered image is the filtered form of the raster read from it, under its own filter bytes |
| `PngFile.WordRoundTrip` | spikes/p00-photokit-fixtures/generate.py:29-35 | big-endian words are read back |
| `PngFile.HeaderRoundTrip` | spikes/p00-photokit-fixtures/generate.py:96 | header fields are read back |
| `PngFile.HeaderBytes` | tools/p09_offline_smoke.py:1030-1033 | the header fields by their bytes, the words big-endian |
| `PngFile.ChunkLayout` | spikes/p00-photokit-fixtures/generate.py:29-35 | a printed chunk is its length, kind, payload and checksum, in this order, the words big-endian |
| `PngFile.WalkChunks` | tools/p09_offline_smoke.py:1020-1039 | the chunk loop |
| `PngFile.WalkPrinted` | tools/p09_offline_smoke.py:1020-1039 | walking any printed list of chunks collects exactly its header and image data, up to the end chunk |
| `PngFile.CollectIs` | tools/p09_offline_smoke.py:1024-1039 | collecting takes the one header of thirteen bytes and joins the image data before the end chunk, and fails exactly on a second or ill-sized header |
| `PngFile.ChannelsOf` | tools/p09_offline_smoke.py:1042-1052 | the channel count of each accepted colour type, by its bits |
| `PngFile.CountPixels` | tools/p09_offline_smoke.py:1090-1096 | the early-stopping count finds two distinct pixels exactly when there are two |
| `PngFile.DecodePng` | tools/p09_offline_smoke.py:1016-1097 | the decoder computes its specification, error by error |
| `PngFile.DecodedLayout` | tools/p09_offline_smoke.py:1016-1097 | what is returned starts with the tag, the header's width and height as big-endian words within the accepted range, and the channel count, followed by a raster of that size |
| `PngRoundTrip.FixtureRows` | spikes/p00-photokit-fixtures/generate.py:90-94 | the row loop of the fixture encoder |
| `PngRoundTrip.ScanlinesAreFiltered` | spikes/p00-photokit-fixtures/generate.py:90-94 | the fixture rows are the raster filtered with filter 0 |
| `PngRoundTrip.DecodeEncoded` | tools/p09_offline_smoke.py:1016-1097 | decoding an encoded image of any accepted format and any row filters gives back its pixels |
| `PngRoundTrip.DecodesIffSpelled` | tools/p09_offline_smoke.py:1058-1097 | the image stage returns a raster if and only if its input is that raster filtered with known filters and the raster has two distinct pixels |
| `PngRoundTrip.FixtureRoundTrip` | spikes/p00-photokit-fixtures/generate.py:89-102 | a fixture image that is not one flat colour decodes to its own pixels |
| `StreamScan.ScanStep` | tools/evaluators/p00_openai.py:452-456 | one tail-carrying step agrees with searching everything read so far |
| `StreamScan.RunBoundedCapture` | tools/evaluators/p00_openai.py:442-474 | for every chunking: a leak is reported if and only if a variant occurs in the whole output, the capture is the longest prefix within the limit, and truncation is reported exactly when the limit is exceeded |
| `StreamScan.MarkerInBlocks` | tools/p09_supply_chain_smoke.py:366-376 | the 64-byte-overlap scan agrees with a search of the whole file |
| `BackupListing.ListAllVerified` | src-tauri/src/lib.rs:1466-1483 | the complete list in order if and only if it has fewer than 10,000 entries |
| `BackupListing.ListBackups` | src-tauri/src/lib.rs:1370-1418 | one page, cut from a complete listing: each refusal and when it comes, the total, and the cursor after the last backup shown |
| `BackupListing.FollowPages` | src-tauri/src/lib.rs:1370-1418 | following the cursors visits every backup once, in order, if and only if the limit is in range, there are fewer than 10,000 backups and all are sound; otherwise exactly what is shown before the failure |

## Left out

- Weak memory ordering of the latch's atomics and of the authority's mutex: steps are sequentially consistent.
- Bodies of the mode store, the connectors and the maintenance coordinator: their outcomes are arbitrary parameters of a step.
- Power loss under `fsync`: the isolation model crashes processes, with durable writes in program order.
- The random backup token is taken not to name a backup that an existing tree would overwrite; process ids are taken to be fresh while recorded.
- BackupListing.ListBackups: record validation is a parameter, and the maintenance permit the handler takes is not modelled.
- Isolation.StepKeepsInv: the user edits only while no smoke process runs; edits between a crash and its recovery are modelled, edits under a running driver are not.
- AuthorityRuns.DrainsIffNoOwnLease: a lease is held by a thread, which may hand it to another running thread; a lease parked where no running thread can drop it is not modelled.
- Applications under isolation are taken to write only to their two current slots; the sandbox that confines them is not modelled.
- Malformed recovery markers and entry names: only markers the program itself wrote are on the modelled disk.
- Isolation: `__enter__`, `__exit__` and the launch workflow are steps on values, because a crash may fall between any two of them; only `recover` is also given in place.
- The version, registry-address and path tests of the npm lock are parameters, as are the paths and hashes of `input_hashes`; a lock or manifest that is not well-formed JSON is not modelled.
- InventoryGenerator.TargetReports: all packages of a target are reported before any is merged, so which of several errors comes first is not modelled.
- Inventory.SortByIdentity: sorts by key and looks records up, so it does not model stability, which distinct keys make invisible.
- LiveRecords.ValidateRecords: field names outside the approved ones are not told apart by spelling, and an event field that is itself a list or an object is not modelled.
- Wording and order of error lists, except where a contract says which errors are reported.
- File name extensions and executable magic numbers of resources are parameters of the resource policy.
- zlib, CRC-32 and SHA-256 are parameters or stand for the contents they digest.
- UTF-8 decoding of captured output, time-outs and process control of `run_bounded_command`.
- The release-identity and remote-service checks of the release manifest, and the source-marker evaluators: fixed tables with little to prove.
- Crashes inside a harness command: a command's state file, manifest and log writes are taken together.
