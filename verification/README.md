# Agent lifecycle of the bunker daemon, modelled in Dafny

Bunker is a daemon that gives each agent a Linux user, a range of ports and a rootless Docker daemon on a shared
host. This project models the part of `internal/agent` that decides who owns which ports, when a user may be
deleted, and how long the daemon keeps trying. Nothing is executed: the host is a record of answers (process
probes, `tar`, `userdel`, `useradd`, clock readings, registry writes, contexts) and every theorem holds for all of
them.

`dafny verify dfyconfig.toml` checks the whole project.

| file | what it is about |
|---|---|
| `PortPool.dfy` | the port allocator: sub-ranges, exact reservations, conservation of capacity |
| `SweepRace.dfy` | every interleaving of spawns, rollbacks, adoptions, destroys and the drift sweep |
| `Records.dfy` | the tracker and the durable registry |
| `Reap.dfy` | the bounded TERM, wait, KILL escalation |
| `Archive.dfy` | archiving a home and pruning the archive directory |
| `Lifecycle.dfy` | one destroy, from the live-process gate to the registry |
| `DestroyCases.dfy` | two destroys that do not end as the comments promise |
| `Reconciliation.dfy` | the replay walk, restoring and adopting at startup |
| `OrphanSweep.dfy` | the orphan walk and a whole reconciliation pass |
| `PassOutcome.dfy` | when a replay destroys nobody, and whom adopt mode destroys |
| `Reaper.dfy` | exponential backoff of refused destroys |
| `OrphanUid.dfy` | the batch classifier of orphaned uids against the single probe |
| `LingerCache.dfy` | the cache of user lookups under concurrent probes |
| `UidWalk.dfy` | the walk over uid candidates at spawn |
| `DockerdWait.dfy` | the dockerd readiness waits and their shared counter |
| `UserManager.dfy` | the user-manager readiness wait, its one-shot recovery, enable-linger |
| `ShellWords.dfy` | shell quoting against a reader of POSIX words |
| `RegistryScan.dfy` | the last-wins scan over rotated registry files |

## Where the code and its comments disagree

The model follows the code. Each disagreement has a lemma or method with the exact condition.

- `ValidateRange` accepts the clipped tail of a pool, which `Reserve` can never hand out (`PortPool.AcceptsExactly`, `PortPool.ReserveTail`, `PortPool.TailExists`).
- The drift sweep is safe exactly under seven habits (`SweepRace.SweepSafeExactly`). The reaper's 30 s grace breaks one while an adoption holds an unmarked reservation (`SweepRace.StealAdopting`). A second spawn of an id that is still being spawned breaks another: it is refused the range and clears the mark of the first (`SweepRace.StealRetried`).
- The sweep guard looks at the raw mode string. A configuration that fails validation, such as adopt mode with a negative limit, walks in destroy mode with the guard off (`Reconciliation.GuardCoversDestroyModeExactly`, `Reconciliation.NegativeLimitDisarmsGuard`).
- Adopt mode is said to delete nothing, yet an orphan whose adoption fails is destroyed, and the guard does not look at that mode. `PassOutcome.AdoptModeDestroysExactly` says which are destroyed, and `PassOutcome.AdoptOverLimit` is a host where all are, above any limit.
- A retried userdel that answers "does not exist" is reported as userdel_failed, and that status forgets the agent, so the reaper does not come back for it. `Lifecycle.FailedYetGoneExactly` says when the user is gone all the same, and `DestroyCases.GoneYetFailed` is such a destroy.
- The newest archive is not always the one the destroy relies on: one with a later time stamp already on file can push the fresh archive out before userdel. `Lifecycle.PrunedExactly` says when, `Lifecycle.AgentManager.Destroy` carries it, and `DestroyCases.PrunedBeforeDelete` is such a destroy.
- A refusal with an unparseable time stamp is never retried (`Reaper.ComesBackExactly`).
- A Uid line with fewer than three fields is invisible to the single probe and counted by the batch (`OrphanUid.BatchAgreesExactly`).
- The cache's staleness bound holds for the probe's clock reading, not for the moment of serving (`LingerCache.AgeBoundedExactly`).
- A walk over uid candidates repeats a uid when the host ignores `useradd -u` (`UidWalk.RefusedIncreaseExactly`).
- Rotated registry files are scanned newest first, so a spawn in an older file hides a destroy in a newer one (`RegistryScan.ScanIsLatestExactly`, `RegistryScan.DestroyedYetFound`), and a trailing heartbeat hides a spawn (`RegistryScan.HeartbeatHidesSpawn`). `RegistryScan.RecordIsReplayedExactly` says when the scan still yields what a replay keeps.
- A readiness wait past its caller's deadline never sees a later cancel. `UserManager.CancelHeardExactly` says when a cancel is seen, and `UserManager.LateCancelUnseen` is a wait that runs on past one.
- `enableLinger` can succeed without having seen the marker (`UserManager.EnableUnmarked`, `UserManager.LingersUnseen`).

## Model

| member | source | states |
|---|---|---|
| PortPool.PortAllocator.New | internal/resource/portalloc.go:41-67 | fails exactly for an empty pool, a zero size or a pool smaller than one sub-range in 32-bit arithmetic; otherwise nothing is held and the books balance |
| PortPool.PortAllocator.NewFreeList | internal/resource/portalloc.go:69-80 | one entry per sub-range, the first allocation starts at the pool's start |
| PortPool.PortAllocator.Allocate | internal/resource/portalloc.go:108-132 | refuses exactly a second allocation or an exhausted pool; a granted range is a whole free sub-range, nobody else's books move |
| PortPool.PortAllocator.Free | internal/resource/portalloc.go:140-152 | idempotent; forgets exactly this agent and keeps the books balanced |
| PortPool.PortAllocator.Reserve | internal/resource/portalloc.go:219-246 | succeeds exactly for the agent's own start or a whole free sub-range, and changes nothing otherwise |
| PortPool.PortAllocator.ReconcileFrom | internal/resource/portalloc.go:335-357 | releases exactly the held ids the oracle disowns, keeping the books balanced |
| PortPool.AcceptsExactly | internal/resource/portalloc.go:184-204 | a range passes validation exactly when it is a whole sub-range or the clipped tail |
| PortPool.ReserveTail | internal/resource/portalloc.go:178-246 | the tail passes validation and is refused in every pool; any other range that passes can be reserved when nothing is held |
| PortPool.TailExists | internal/resource/portalloc.go:184-204 | a pool of ten ports in threes has a tail that passes validation |
| PortPool.SlotInPool | internal/resource/portalloc.go:154-160 | a sub-range lies inside the pool, unclipped |
| PortPool.SlotRangesDisjoint | internal/resource/portalloc.go:69-80 | two sub-ranges share no port |
| PortPool.HeldRangesDisjoint | internal/resource/portalloc.go:108-132 | in balanced books two agents never share a port |
| PortPool.CapacityConserved | internal/resource/portalloc.go:360-362 | free and held sub-ranges always add up to the capacity |
| SweepRace.SweepSafeExactly | internal/agent/reconcile.go:535-580 | over all runs the sweep never reaches a verdict to release the range of a live or mid-spawn agent, if and only if spawns mark before allocating, register before clearing, Register succeeds, the oracle reads in-flight first, the lock is held, no sweep overlaps an adoption, and no second spawn of an id is tried while one is under way |
| SweepRace.StealBetweenReads | internal/agent/reconcile.go:563-568 | reading the tracker first lets a spawn slip between the two reads |
| SweepRace.StealUnmarked | internal/agent/manager_spawn.go:178-198 | allocating before marking loses the range to the sweep |
| SweepRace.StealClearedEarly | internal/agent/manager_spawn.go:1018-1037 | clearing the mark before registering loses the range |
| SweepRace.StealUnregistered | internal/agent/manager_spawn.go:1018-1025 | a Register that fails and is only logged loses the range |
| SweepRace.StealRespawned | internal/agent/reconcile.go:535-556 | without the allocator lock a verdict about a finished agent hits its successor |
| SweepRace.StealRetried | internal/agent/manager_spawn.go:187-191 | a second spawn of an id marks again, is refused, and clears the mark of the first, whose range is then lost |
| SweepRace.StealAdopting | internal/agent/manager.go:349-370 | a sweep after the reaper's grace takes the range of an adoption under way |
| SweepRace.PortsExclusiveExactly | internal/agent/manager_spawn.go:226-277 | with those seven habits kept, no two running agents ever use one sub-range, if and only if no destroy overlaps a spawn or adoption of the same id |
| SweepRace.CollideOverlapping | internal/agent/manager_destroy.go:1284-1302 | a destroy that overlaps a spawn of its id frees a range in use, which is then handed out again |
| SweepRace.LiveRangesDisjoint | internal/agent/reconcile.go:535-580 | with the seven habits kept and destroys apart from spawns of their id, in reachable states of a pool with at least the machine's slots, the ports of two running agents are disjoint |
| Records.Tracker.Register | internal/resource/tracker.go:86-98 | succeeds exactly for a new id below capacity |
| Records.Tracker.Unregister | internal/resource/tracker.go:101-106 | drops this id and no other |
| Records.Tracker.UpdateStatus | internal/resource/tracker.go:109-115 | changes the status of a tracked id and nothing else |
| Records.Store.AppendSpawn | internal/registry/registry.go:568-613 | a written spawn replaces the record and clears any refusal |
| Records.Store.AppendDestroy | internal/registry/registry.go:642-668 | idempotent; drops the live record and remembers the id |
| Records.Store.AppendRefusal | internal/registry/registry.go:677-702 | folds into a live record only, and only its refusal |
| Reap.ReapBounded | internal/agent/df_bunker_63.go:271-358 | at most 102 scans; every target outside the pid window gets TERM, every survivor KILL, nobody else a signal, no KILL before a TERM, none into the window |
| Reap.AwaitTerm | internal/agent/df_bunker_63.go:271-358 | survivors are those of the last scan, or everyone when it failed, after at most 51 scans |
| Reap.SignalAll | internal/agent/df_bunker_63.go:271-358 | one signal per target, in order, skipping the window |
| Archive.ArchiveDir.ArchiveHome | internal/agent/manager_destroy.go:193-241 | succeeds exactly for a new, non-empty tarball that lists an entry; a failure leaves the directory as it was once the partial file is gone, so archives stay whole |
| Archive.ArchiveDir.Prune | internal/agent/manager_destroy.go:255-343 | whatever the listing order, removes exactly what ranks after the longest newest-first prefix within both limits, or after the newest archive when none fits |
| Archive.SortNewest | internal/agent/manager_destroy.go:255-343 | newest first with the name as tie-break, same archives |
| Archive.RankingUnique | internal/agent/manager_destroy.go:255-343 | the ranking does not depend on the order of the listing |
| Archive.LongestUnique | internal/agent/manager_destroy.go:255-343 | the limits determine the number kept |
| Archive.PruneTwice | internal/agent/manager_destroy.go:255-343 | a second prune, in any listing order, removes nothing |
| Archive.NewestSurvives | internal/agent/manager_destroy.go:255-343 | an archive survives exactly when it is the newest or its prefix fits |
| Lifecycle.AgentManager.Destroy | internal/agent/manager_destroy.go:564-1303 | the status is decided by gate, archive and userdel answers; from the gate on every userdel follows a clean probe and, under the archive policy, a verified archive; refusals keep user, home, range, record and tracker entry; every other exit forgets the agent and only it; user and home at the end are exactly what the userdel answers leave; the archive is in the directory at the end exactly when it outlives the prune; counters move by exactly this outcome and stay balanced |
| Lifecycle.AgentManager.DestroyAgent | internal/agent/manager_destroy.go:858-1303 | the same for a well-formed id, with the order of probes, signals, archive and userdel |
| Lifecycle.AgentManager.Admit | internal/agent/manager_destroy.go:858-979 | both gates passed with nothing changed, or one refused with everything kept and one more attempt on record |
| Lifecycle.AgentManager.Gate | internal/agent/manager_destroy.go:1344-1441 | opens exactly for no user or no foreign process; with force only a fresh clean probe after the kills; a failed probe refuses |
| Lifecycle.AgentManager.ArchiveGate | internal/agent/manager_destroy.go:887-979 | passes exactly when no archive is needed or one was verified |
| Lifecycle.AgentManager.ArchiveStep | internal/agent/manager_destroy.go:193-343 | a fresh archive is whole and on file after the prune exactly when the directory could not be listed, it is not removable or its rank is one the limits leave; a directory that cannot be listed loses nothing; a failed archive leaves the directory as it was once the partial file is gone; nothing is added |
| Lifecycle.AgentManager.RemoveUser | internal/agent/manager_destroy.go:987-1203 | one userdel, at most one more after a busy answer; user and home are exactly what the answers leave; range, tracker entry and record of the agent go, nobody else's |
| Lifecycle.AgentManager.RetryUserdel | internal/agent/manager_destroy.go:1612-1657 | exactly one further userdel, with only signals before it, a success only when it removed the user; the user is gone exactly when that answer dropped its record |
| Lifecycle.FailedYetGoneExactly | internal/agent/manager_destroy.go:1612-1657 | after userdel_failed the user is gone exactly when it was before or one of the failed calls dropped its record |
| DestroyCases.GoneYetFailed | internal/agent/manager_destroy.go:1054-1139 | a destroy that ends with the user gone, userdel_failed, the home left and the agent forgotten |
| Lifecycle.AgentManager.GiveUp | internal/agent/manager_destroy.go:1054-1139 | the refusal is counted and the agent forgotten |
| Lifecycle.AgentManager.RecordRefusal | internal/agent/df_bunker_63.go:464-520 | one reason counter, one more attempt on a live record whose first reason sticks, the tracker status |
| Lifecycle.AgentManager.PersistDestroy | internal/agent/manager_destroy.go:1284-1302 | a written destroy drops the live record |
| Lifecycle.ComposeTrace | internal/agent/manager_destroy.go:858-1203 | gate, archive and removal events put together obey the order |
| Lifecycle.OutcomeBalanced | internal/agent/manager_destroy.go:564-591 | one outcome per call, and refusals equal the sum of their reasons |
| Lifecycle.FreshArchiveKept | internal/agent/manager_destroy.go:193-343 | the archive just written is not among those pruned when it is the newest |
| Lifecycle.PrunedExactly | internal/agent/manager_destroy.go:243-343 | the prune spares the fresh archive exactly when its rank is first or within both limits |
| DestroyCases.PrunedBeforeDelete | internal/agent/manager_destroy.go:243-343 | a destroy whose verified archive is pruned before the home is deleted |
| Reconciliation.GuardCoversDestroyModeExactly | internal/agent/reconcile.go:643-665 | every oversized unproven destroy walk is withheld exactly when a walk in destroy mode is also seen as one by the guard |
| Reconciliation.NegativeLimitDisarmsGuard | internal/config/config.go:1967-2006 | adopt mode with a negative limit destroys with the guard off |
| Reconciliation.DispositionExactly | internal/agent/reconcile.go:781-817 | ours, foreign and unproven, each if and only if, from the marker and the port metadata |
| Reconciliation.OutsideIsDisjoint | internal/agent/reconcile.go:226-240 | a tolerated range shares no port with anything the pool hands out |
| Reconciliation.SettledDisjoint | internal/agent/reconcile.go:193-256 | in settled books a holder of a pool range shares no port with any other tracked agent |
| Reconciliation.RestoreAgent | internal/agent/reconcile.go:425-445 | succeeds exactly when the persisted range can be reserved and registered; a failure leaves no half |
| Reconciliation.RestoreSettled | internal/agent/reconcile.go:425-445 | the same on settled books, which stay settled |
| Reconciliation.FailClosed | internal/agent/reconcile.go:456-490 | one destroy call, reported destroyed exactly when it works; nothing of the agent is left in tracker and pool, nobody else is touched |
| Reconciliation.DropHalfManaged | internal/agent/reconcile.go:506-513 | both halves go together |
| Reconciliation.Sweep | internal/agent/reconcile.go:535-556 | releases exactly what is held, untracked and not in flight |
| Reconciliation.DestroyOrphan | internal/agent/reconcile.go:1091-1098 | one forced destroy, successful exactly when gate, archive and one of at most two userdels work; a malformed id or a closed gate deletes nothing; success means the user is gone when the answers are true; the archive directory as for a destroy |
| Reconciliation.AdoptReserve | internal/agent/reconcile.go:877-892 | pins exactly a validated, reservable range |
| Reconciliation.AdoptRecord | internal/agent/reconcile.go:1000-1041 | tracker and durable record, both or neither |
| Reconciliation.AdoptPinned | internal/agent/reconcile.go:892-1041 | a failed stage gives the reservation back |
| Reconciliation.AdoptAgent | internal/agent/reconcile.go:877-1041 | succeeds exactly when every stage does, with the persisted range; otherwise the durable record is untouched |
| Reconciliation.TolerateOrFail | internal/agent/reconcile.go:217-249 | tolerated exactly for a readable range outside the pool and then tracked as far as there is room, otherwise destroyed with the books as they were |
| Reconciliation.ReplayPresent | internal/agent/reconcile.go:216-256 | restored exactly when restorable, failed closed exactly when neither that nor outside the pool; the books after it are determined and stay settled; at most one destroy call, for this id |
| Reconciliation.ReplayRecord | internal/agent/reconcile.go:193-256 | purged exactly when the user is gone, restored exactly when restorable, failed closed exactly otherwise unless outside the pool; the reservations and tracker after it are determined |
| Reconciliation.ReplayNext | internal/agent/reconcile.go:193-256 | one more record, dealt with as the books before it demand, keeps everything the walk promises |
| Reconciliation.ReplayWalk | internal/agent/reconcile.go:193-256 | reservations, tracker, destroy calls and the number restored are those of a fold that restores every restorable record; settled books after any failures; every tracked agent has its replayed range; every present record is tracked, destroyed or outside the pool; restored, tolerated and destroyed add up to the records on the host and the rest is purged; exactly the destroy calls that work are counted destroyed; each id destroyed at most once and no other user touched; restored records stay in the registry |
| OrphanSweep.AdoptOrDrop | internal/agent/reconcile.go:317-328 | adopted exactly when adoptable, on its own range; a failed adoption leaves no residue |
| OrphanSweep.AdoptOrDestroy | internal/agent/reconcile.go:317-345 | adopted whole exactly when adoptable, otherwise one destroy call with the books as they were |
| OrphanSweep.OrphanOne | internal/agent/reconcile.go:294-364 | foreign and unproven orphans are skipped with nothing touched; one of ours is adopted exactly in adopt mode when adoptable and has a destroy call otherwise, counted as destroyed exactly when it works; the books after it are determined |
| OrphanSweep.WalkNext | internal/agent/reconcile.go:294-364 | one more orphan, dealt with as the books before it demand, keeps everything the walk promises |
| OrphanSweep.WalkOrphans | internal/agent/reconcile.go:294-364 | reservations, tracker and destroy calls are those of a fold that adopts every adoptable orphan of ours in adopt mode; destroy calls are for orphans of ours, no id twice; foreign and unproven are counted exactly, and destroyed exactly the calls that work, failed the others; users without a call keep user and home |
| OrphanSweep.SweepSettled | internal/agent/reconcile.go:258-264 | a sweep over settled books releases nothing |
| OrphanSweep.GuardedWalk | internal/agent/reconcile.go:282-374 | refused exactly when the guard says so of the registry as it is then, touching nothing and counting all as refused; otherwise the walk's promises, its fold included |
| OrphanSweep.FindOrphans | internal/agent/reconcile.go:275-281 | exactly the host's agents the registry did not know as live when the pass began |
| OrphanSweep.ReplayPhase | internal/agent/reconcile.go:193-281 | settled books, persisted ranges, no orphan tracked; books, destroy calls and restored count are those of the replay fold |
| OrphanSweep.Pass | internal/agent/reconcile.go:138-399 | final reservations, tracker and both lists of destroy calls are those of the replay fold followed by the guarded orphan fold; settled books with persisted ranges, both sweeps release nothing, every destroy call once, replay and orphan counters add up with destroyed exactly the calls that work, the guard's verdict and bound for the registry after the replay |
| OrphanSweep.Reconcile | internal/agent/reconcile.go:138-399 | the same for the whole pass; without registry or host listing nothing changes; a guarded destroy walk over a registry without standing destroys at most the limit, and nothing above it |
| PassOutcome.NoLossExactly | internal/agent/reconcile.go:193-256 | from empty books a replay makes no destroy call, if and only if every record with its user on the host lies outside the pool or names a whole sub-range that no other one names, with room in the tracker; the ranges held are then exactly those named |
| PassOutcome.CalledExactly | internal/agent/reconcile.go:294-364 | an orphan is destroyed exactly when it is ours and, in adopt mode, cannot be adopted with the books at its turn |
| PassOutcome.AdoptModeDestroysExactly | internal/agent/reconcile.go:282-364 | in adopt mode the destroy calls of a pass are exactly the orphans of ours not adoptable at their turn, none withheld by the guard |
| PassOutcome.AdoptOverLimit | internal/agent/reconcile.go:636-665 | one orphan more than any limit, all destroyed in adopt mode and all withheld in destroy mode |
| Reaper.BackoffForAttempts | internal/agent/df_bunker_63.go:437-456 | the doubling loop is min(60, 2^(n-1)) minutes |
| Reaper.ComesBackExactly | internal/agent/df_bunker_63.go:538-558 | an agent becomes eligible again exactly when its stamp can be read |
| Reaper.GapAfterRefusal | internal/agent/df_bunker_63.go:538-558 | in any reaper run the try after the k-th refusal comes later than that backoff minus one second |
| Reaper.GapTight | internal/agent/df_bunker_63.go:464-520 | for every attempt count some run has a gap of the backoff minus 999 ms |
| Reaper.AttemptsAddUp | internal/agent/df_bunker_63.go:464-520 | recorded attempts count the refusals |
| Reaper.TriesNeedSpan | internal/agent/df_bunker_63.go:538-558 | between any two tries of a run passes at least the sum of the backoffs, each less 999 ms |
| Reaper.TriesInSpan | internal/agent/manager.go:405-423 | in any window of any run the tries are bounded by its length: one per 59 s, and less than one per hour from the seventh refusal on |
| Reaper.ReapOne | internal/agent/manager.go:405-423 | an expired agent is destroyed exactly when its refusal, if any, is past its backoff; nobody else is touched |
| Reaper.ReapExpired | internal/agent/manager.go:405-423 | one tick destroys exactly the expired agents past their backoff, each once, and touches no other user |
| OrphanUid.StatusFileOwnedByUID | internal/agent/orphan_uid.go:204-222 | the first Uid line is complete and names the uid as real or saved |
| OrphanUid.StatusOwnerUIDs | internal/agent/orphan_uid.go:226-256 | the owners by that rule and those of short lines, each once |
| OrphanUid.ListUserProcesses | internal/agent/orphan_uid.go:165-198 | the owned processes among the first 4096 pid entries, by pid |
| OrphanUid.ListUserProcessesByUID | internal/agent/orphan_uid.go:265-296 | for every uid at once, the processes filed under it |
| OrphanUid.FiledExactly | internal/agent/orphan_uid.go:204-256 | grouped and single attribution agree on a uid exactly when no visible process has a short line for it |
| OrphanUid.SortAscending | internal/agent/orphan_uid.go:165-198 | reports are ordered by pid |
| OrphanUid.CheckOrphanUID | internal/agent/orphan_uid.go:421-433 | the single probe |
| OrphanUid.OrphanExactly | internal/agent/orphan_uid.go:386-475 | orphaned exactly with no user record, a readable home owner, a listable table and a visible process of that owner; anything unknown is an error and never an orphan |
| OrphanUid.CheckOrphanUIDBatch | internal/agent/orphan_uid.go:485-513 | one sweep classifies every agent at its own index, shared uids included |
| OrphanUid.BatchAgreesExactly | internal/agent/orphan_uid.go:421-513 | batch and single probe agree on an agent exactly when no short line is visible for its uid |
| OrphanUid.SummaryAgreesExactly | internal/agent/orphan_uid.go:521-561 | the verdicts differ exactly for a valid id whose user is gone and for whose uid a short line is visible |
| OrphanUid.ShortLineSplitsTheVerdicts | internal/agent/orphan_uid.go:204-256 | a one-field line that splits them |
| OrphanUid.OrphanUIDSummaries | internal/agent/orphan_uid.go:521-543 | one verdict per id in input order, none for invalid ids |
| OrphanUid.OrphanUIDSummary | internal/agent/orphan_uid.go:551-561 | the verdict of the single probe |
| LingerCache.LingerUserCache.UserExists | internal/agent/inventory.go:288-322 | looks up exactly on a miss, answers from the cache otherwise, and leaves other names alone |
| LingerCache.ServedIsBacked | internal/agent/inventory.go:288-322 | in every interleaving every verdict is the answer of a real lookup less than one TTL before the probe read its clock |
| LingerCache.AgeBoundedExactly | internal/agent/inventory.go:240-322 | among probes with a given delay between reading and serving, the age when served is below a bound exactly when the bound is TTL plus delay or more |
| LingerCache.LateVerdict | internal/agent/inventory.go:288-322 | a run that serves a verdict TTL plus delay minus one old |
| UidWalk.OneRound | internal/agent/manager_spawn.go:318-434 | a round ends for a named reason or goes on from a taken pin or a released account of its own |
| UidWalk.Walk | internal/agent/manager_spawn.go:318-434 | at most limit + 1 useradd calls; each pin is the refused candidate plus one; every refused candidate is reported, the last included; proceeds only on a clean latest scan; an unobservable scan is the last; only own accounts are released |
| UidWalk.RefusedIncreaseExactly | internal/agent/df_bunker_63.go:164-172 | all refused candidates strictly increase exactly when the host gave each pinned account at least its pin |
| UidWalk.NeverRevisits | internal/agent/df_bunker_63.go:164-172 | with honoured pins the uid handed out was never refused before |
| UidWalk.RevisitsWithoutPins | internal/agent/manager_spawn.go:318-434 | a host that ignores the pin has one uid refused twice |
| DockerdWait.Windows | internal/agent/manager_spawn.go:1363-1393 | budget and grace grow with contention, grace within budget within two minutes |
| DockerdWait.WindowTable | internal/agent/manager_spawn.go:1313-1393 | where base, share and cap take over |
| DockerdWait.WaitForDockerd | internal/agent/manager_spawn.go:1426-1541 | deadlines are those of the largest concurrency observed; each exit has its reason; fail-fast only if no check ever saw the process; at most 601 checks |
| DockerdWait.Latch | internal/agent/manager_spawn.go:1451-1464 | peers stretch both deadlines and nothing shortens them |
| DockerdWait.Turn | internal/agent/manager_spawn.go:1466-1515 | ready, failed symlink, no process, timed out, cancelled or another turn |
| DockerdWait.RunSound | internal/agent/manager_spawn.go:1350-1361 | in every run of concurrent waits the counter is the number of waits entered and not left, and every wait's deadlines are latched, ordered and capped |
| DockerdWait.NeverShrinks | internal/agent/manager_spawn.go:1451-1464 | no step of any wait shortens a deadline |
| UserManager.WaitForBus | internal/agent/rootless.go:1128-1200 | success exactly on an answering last probe, giving up exactly when a cancel is seen before any answer and before the budget is spent, exhaustion only past the budget; at most 152 probes, detached exactly past the caller's deadline |
| UserManager.ExpiredNeverGivesUp | internal/agent/rootless.go:1128-1200 | once a probe has run past the caller's deadline the wait never gives up |
| UserManager.CancelHeardExactly | internal/agent/rootless.go:1128-1200 | the wait gives up exactly when the cancel comes no later than the deadline and no probe before it has answered or spent the budget |
| UserManager.LateCancelUnseen | internal/agent/rootless.go:1181-1193 | a cancel behind the deadline that goes unseen: the wait runs on to its answer, or to the end of its budget |
| UserManager.ProveReachable | internal/agent/rootless.go:1259-1371 | reachable exactly when the last thing done is a wait whose last probe answered; at most two waits and one teardown, due only after an exhausted wait, with a live caller and an active unit; linger cleared only for a foreign record |
| UserManager.PollLingerMarker | internal/agent/rootless.go:2102-2137 | found exactly when the last reading saw the marker; at most six readings |
| UserManager.EnableLinger | internal/agent/rootless.go:2157-2225 | at most three attempts, retried only after a lost reply whose poll ran out; success exactly on a reply that says done or a marker seen; a refusal is final |
| UserManager.EnableUnmarked | internal/agent/rootless.go:2149-2225 | where no reading ever finds the marker, success is exactly a reply that says done |
| UserManager.LingersUnseen | internal/agent/rootless.go:2157-2167 | a host that never shows the marker in any reading and is reported lingering |
| ShellWords.ReadShellQuote | internal/agent/rootless.go:190-195 | a quoted value adds exactly itself to the word being read, in any context |
| ShellWords.QuoteRoundTrip | internal/agent/rootless.go:190-195 | the quoted form of any value reads back as that one word |
| ShellWords.QuoteInjective | internal/agent/rootless.go:190-195 | different values never print alike |
| ShellWords.AssignmentsRender | internal/agent/rootless.go:165-171 | every assignment reads as name and exact value |
| ShellWords.SessionCommandReads | internal/agent/rootless.go:165-188 | export, the two bus assignments and the toggles, then the script byte for byte |
| ShellWords.VerbatimExactly | internal/agent/rootless.go:153-171 | a toggle appended verbatim reads as itself exactly when it is a non-empty plain word |
| ShellWords.InstallerCommandReads | internal/agent/rootless.go:151-188 | the installer's command reads as the export with its two toggles and then the script |
| RegistryScan.ReadPersisted | internal/agent/registry.go:228-316 | the record of a spawn that is the last event in ascending file order |
| RegistryScan.ScanIsLatestExactly | internal/agent/registry.go:239-266 | the scan finds the latest event exactly when the active file mentions the agent or the oldest and newest mentioning rotated files agree |
| RegistryScan.ScanIsLatestWhenFew | internal/agent/registry.go:239-266 | the order cannot matter when at most one rotated file mentions the agent |
| RegistryScan.DestroyedYetFound | internal/agent/registry.go:239-266 | a destroyed agent whose record is found |
| RegistryScan.RecordIsReplayedExactly | internal/agent/registry.go:228-316 | over all files, the scan yields what a replay in written order keeps, if and only if a condition on the active file's last word, the oldest mentioning and the newest decisive rotated file |
| RegistryScan.HeartbeatHidesSpawn | internal/agent/registry.go:300-316 | a spawn in a rotated file and a heartbeat in the active one: a replay keeps the record, the scan finds none |

## Left out

- Log text, error wording, metrics other than the destroy counters, journal excerpts and operator messages.
- The rest of a spawn (keys, image build, tunnels, session probe): steps that succeed or start the rollback.
- The teardown in front of the gate: cgroup.kill, the dockerd and user-manager stops and the kill -KILL of the exit wait, which knows no pid window. What is said of probes, signals and their window holds from the gate on.
- The session-process name classifiers: a process carries a flag saying whether it belongs to the agent's session.
- Per-agent network namespaces of the port allocator: only the shared namespace is modelled.
- The registry's cap on remembered ids, its file locking, rotation and replay.
- Nil guards of the refusal recorder and the branch for an exhausted rollback budget: both are taken as always present.
- The uint32 of a uid beyond 32 bits is taken as the code does; integer widths of sizes, durations and attempt counts are unbounded.
- The asynchronous form of the reconciliation pass and its completion channel: the walk itself is the same.
- Ties between equal pids in a process listing and the order of ids a sweep reports.
- PortPool.PortAllocator.ReconcileFrom: returns the set of released ids, because the order in which a Go map yields them is unspecified.
- SweepRace.SweepSafeExactly: models sub-ranges as numbered slots; adoption of an id that is already tracked or held is not part of the machine, and a second spawn of an id under way is followed only up to its refusal.
- Reconciliation.AdoptAgent: the stages between reservation and registration are answers of the host; their limits and unit properties are not modelled.
- ShellWords.SessionCommandReads: the bus path is a parameter, because path cleaning by the standard library is not modelled; characters outside the reader's fragment of the shell language make it give up.
- OrphanUid.OrphanUIDSummaries: the verdict is the id, uid and processes it names, not the sentence.
- LingerCache.LingerUserCache.UserExists: the nil receiver, which disables the cache, is not modelled.
- RegistryScan.ReadPersisted: files that cannot be read count as empty; line and buffer limits are not modelled.
- RegistryScan.RecordIsReplayedExactly: takes the replay to read the same rotated files; the registry itself stops at its configured number of backups and ignores a torn last line.
