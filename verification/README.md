# A model of the RDS CSI driver's hard core

The driver attaches block volumes of a RouterOS data server to Kubernetes nodes. This project models the parts of it
where a wrong step is hardest to see, and proves what they keep over whole runs and under every interleaving:

- **Attachment tracking** (`AttachmentTypes`, `AttachmentManager`, `Controller`, `Reconciler`, `Rebuild`, `Runs`,
  `RunAccounts`, `Restart`, `RestartPasses`): the manager's maps of attachments and detach timestamps, the Publish and Unpublish calls
  that drive it, the reconciler's pass over stale nodes, and the rebuild from VolumeAttachments after a restart. A
  volume has one node, or two while a virtual machine migrates.
- **Locking** (`VmiLocks`, `VmiGrouper`, `ManagerThreads`, `Deadlock`): per-VMI mutexes that are counted, deleted and
  made anew, per-volume mutexes, and the manager's own lock, under any number of threads. Every manager call is a move,
  also those that take the manager's lock alone.
- **Connections to the server** (`Breaker`, `Pool`): the circuit breaker and the connection pool.
- **Sizes, listings and mounts** (`Decimal`, `Sizes`, `Paging`, `Mountinfo`): what size a volume really gets, paging
  through snapshots, and reading mountinfo lines.
- **The reconciler's loop** (`Trigger`): starting, stopping and triggering it.

Each operation is a function on values, and each object of the source that is updated in place is a class whose methods
are proved equal to those functions. The functions carry the theorems. Interleavings are state machines whose steps are
the stretches between two lock, channel or map operations; a schedule is any sequence of moves, and a move that is not
enabled does nothing.

What comes from outside is a parameter: the clock (one reading per call), answers of the Kubernetes API and the server,
whether an annotation write succeeds, the connection factory, the rate limiter, the ticker. Durations are nanoseconds
and, like sizes, unbounded integers. History variables (`log`, `dropped`, `done`, `began`, `settled`, `ends`,
`abandoned`, `passes`) record what happened and decide nothing.

## Where the code and its comments part

The model follows the code. Each of these has a lemma that says exactly when it happens, and one at an input or run in
which it does.

- `AddSecondaryAttachment` is documented to refuse a volume that is not RWX (pkg/attachment/manager.go:112-114), but
  neither it nor Publish looks at the recorded mode: `Runs.ExclusivityBreaks`, `Runs.MixedModesShareAVolume`.
- The grace period is documented as only for reattachment after a detach (pkg/driver/controller.go:799-800), but an
  ordinary attach leaves the timestamp in place, so the next handover can displace a node attached since:
  `ControllerSpec.HandoverDisplaces`, `ControllerSpec.HandoverEvictsLaterNode`.
- The reconciler asks only about a volume's primary node and then drops every node:
  `ReconcileSpec.PassRemovesExactlyStale`, and `RunAccounts.ReconcileDropsLiveNode` for a run in which a node that is
  there loses its volume.
- The active-migrations gauge counts a migrating volume that was untracked for ever, and misses one recovered by a
  rebuild: `RunAccounts.GaugeFromStart`, where the same run leaves the gauge at one, and
  `RunAccounts.GaugeAfterRestart`, `RunAccounts.RecoveredMigrationUncounted`.
- A Track whose annotation is not persisted is rolled back, but until then everybody who reads the map sees its entry:
  `ManagerThreads.ReadersSee`, `ManagerThreads.DirtyEntrySeen`.
- A restart forgets open grace periods: `Restart.RestartUnnoticedIff`, `Restart.RecentDetachNoticed`. It also takes the
  first object listed for the primary node, which a pass looks at: `RestartPasses.RestartUnseenIff`,
  `RestartPasses.ListedOrderTold`.
- `Get` checks for a closed pool only on entry, and `Put` on a closed pool does not lower the count:
  `PoolThreads.ClosedPoolConnectsIff`, `PoolThreads.ClosedPoolStillConnects`, `PoolThreads.ActiveIsExact`,
  `PoolThreads.LateReturnStaysCounted`.
- A half-open breaker is documented to let one request through (pkg/rds/pool.go:399), but lets through every one:
  `BreakerSpec.HalfOpenAdmitsAll`, `BreakerSpec.HalfOpenReached`.
- Sizes are printed in the largest unit that fits and cut to a whole number of it, but the reply claims the full size:
  `StoreSpec.CreateStores`, `StoreSpec.CreateIsIdempotentIff`, `StoreSpec.OddSizeConflicts`, and
  `StoreSpec.ExpandReaches`, `StoreSpec.OddExpansionFallsShort`.
- `Stop` removes the trigger channel and `Start` does not make it again: `Triggers.TriggerHeardIff`,
  `Triggers.DeafForever`, `Triggers.DeafReached`. A `Stop` that comes before the loop has captured its channels waits for ever:
  `Triggers.StopReturnsIff`, `Triggers.StopAtOnceHangs`. The loop then has no channels, or those of a later `Start`, and closing them panics:
  `Triggers.PanicsIff`, `Triggers.LateCaptures`.

## Model

| member | source | states |
|---|---|---|
| ManagerSpec.TrackEffect | pkg/attachment/manager.go:61-110 | tracking succeeds iff the pair is there already or the volume is free and the write persists; it adds exactly that pair or nothing, and a failed persist rolls back |
| ManagerSpec.AddSecondaryEffect | pkg/attachment/manager.go:115-157 | a second node is added iff there are fewer than two; exactly that pair is new, the primary stays, valid tables stay valid |
| ManagerSpec.UntrackEffect | pkg/attachment/manager.go:161-193 | every node of the volume goes, no other pair changes, and the volume is stamped iff it was tracked |
| ManagerSpec.RemoveNodeEffect | pkg/attachment/manager.go:307-380 | exactly one pair goes; the volume is stamped exactly when its last node goes; one or two distinct nodes and the migration mark stay consistent |
| ManagerSpec.DroppedEffect | pkg/attachment/manager.go:360-379 | what is left after one of two nodes goes is a valid record without a migration |
| Attachments.AttachmentState.IsAttachedToNode | pkg/attachment/types.go:63-70 | the search answers true iff some entry names the node |
| Attachments.AttachmentState.GetNodeIDs | pkg/attachment/types.go:54-60 | the names in their order, and exactly the attached nodes |
| Attachments.AttachmentManager.constructor | pkg/attachment/manager.go:41-50 | a new manager has empty tables |
| Attachments.AttachmentManager.TrackAttachmentWithMode | pkg/attachment/manager.go:61-110 | the method on shared objects is the function on tables, including write, persist and roll back |
| Attachments.AttachmentManager.AddSecondaryAttachment | pkg/attachment/manager.go:115-157 | the update in place of one state object is the function on tables; no other volume's object changes |
| Attachments.AttachmentManager.UntrackAttachment | pkg/attachment/manager.go:161-193 | as the function on tables |
| Attachments.AttachmentManager.ClearDetachTimestamp | pkg/attachment/manager.go:247-252 | only the timestamp of that volume goes |
| Attachments.AttachmentManager.IsWithinGracePeriod | pkg/attachment/manager.go:224-236 | true iff there is a timestamp younger than the period |
| Attachments.AttachmentManager.SplitOff | pkg/attachment/manager.go:328-337 | the loop keeps every other node in order and says whether the node was there |
| Attachments.AttachmentManager.RemoveNodeAttachment | pkg/attachment/manager.go:307-380 | the update in place is the function on tables, with the gauge lowered iff a migration ended |
| ControllerSpec.PublishOk | pkg/driver/controller.go:695-887 | OK means attached: the new relation is the old one, less what was cleared, plus the requested pair |
| ControllerSpec.PublishRefused | pkg/driver/controller.go:695-871 | any other reply attaches nothing; FailedPrecondition leaves every attachment and timestamp alone; an attachment is lost on an error only before a failed persist |
| ControllerSpec.PublishDecides | pkg/driver/controller.go:695-871 | exactly when each code is given and each way of clearing taken; on valid tables the timeout, empty-list and late-conflict branches decide nothing |
| ControllerSpec.PublishFrame | pkg/driver/controller.go:610-887 | only the entry and timestamp of the requested volume change, and valid tables stay valid |
| ControllerSpec.PublishTimestamps | pkg/driver/controller.go:806-838 | a handover spends a timestamp within grace, self-healing sets it, everything else leaves it |
| ControllerSpec.UnpublishRemoves | pkg/driver/controller.go:891-982 | Unpublish removes exactly the requested pair and stamps iff the last node went |
| ControllerSpec.PublishThenUnpublish | pkg/driver/controller.go:891-982 | publishing a free volume and unpublishing it restores every attachment |
| ControllerSpec.HandoverDisplaces | pkg/driver/controller.go:804-838 | a Publish takes an attached volume from another node iff it is RWO and a timestamp is within grace or the primary node is gone |
| ControllerSpec.HandoverEvictsLaterNode | pkg/driver/controller.go:806-821 | detach from one node, attach to a second, publish to a third within grace: the second loses the volume |
| ControllerServers.ControllerServer.ControllerPublishVolume | pkg/driver/controller.go:610-887 | the call on the shared manager, branch by branch, is the function on tables |
| ControllerServers.ControllerServer.AttachSecond | pkg/driver/controller.go:704-794 | the RWX branch is the function on tables |
| ControllerServers.ControllerServer.TrackPrimary | pkg/driver/controller.go:859-871 | tracking with its late-conflict reply is the function on tables |
| ControllerServers.ControllerServer.ControllerUnpublishVolume | pkg/driver/controller.go:891-982 | the call on the shared manager is the function on tables |
| ReconcileSpec.PassRemovesExactlyStale | pkg/attachment/reconciler.go:205-272 | a pass takes every node of exactly the volumes whose primary is gone and that are not within grace, stamps them, and touches nothing else |
| ReconcileSpec.SecondPassIdle | pkg/attachment/reconciler.go:205-272 | a second pass at the same clock and nodes changes nothing |
| Reconcilers.AttachmentReconciler.NewAttachmentReconciler | pkg/attachment/reconciler.go:59-90 | an error iff something required is missing; an interval or grace period that is not positive becomes five minutes or thirty seconds |
| Reconcilers.AttachmentReconciler.Visit | pkg/attachment/reconciler.go:213-258 | one turn of the loop clears the volume iff it was stale when the pass began |
| Reconcilers.AttachmentReconciler.Reconcile | pkg/attachment/reconciler.go:205-272 | the loop clears exactly the stale volumes among those visited and counts them, and visits all unless cancelled |
| RebuildSpec.RebuildValid | pkg/attachment/rebuild.go:132-188 | rebuilt tables are valid iff the first two objects of each volume name different nodes |
| RebuildSpec.RebuildRecovers | pkg/attachment/rebuild.go:196-235 | from VolumeAttachments that mirror the tables: the same volumes, node sets and migrating volumes |
| Rebuilding.FiltersCompose | pkg/attachment/va_lister.go:14-64 | driver filter, attached filter and grouping together select exactly the objects of a volume |
| Rebuilding.ListDriverVolumeAttachments | pkg/attachment/va_lister.go:14-33 | the loop keeps the driver's objects in order |
| Rebuilding.FilterAttachedVolumeAttachments | pkg/attachment/va_lister.go:36-45 | the loop keeps the attached objects in order |
| Rebuilding.GroupVolumeAttachmentsByVolume | pkg/attachment/va_lister.go:49-64 | a volume has a group iff some object names it, and the group is those objects in order |
| Rebuilding.RebuildVolumeState | pkg/attachment/rebuild.go:132-188 | the record of a group; none for an empty group |
| Rebuilding.FillAttachments | pkg/attachment/rebuild.go:219-231 | the loop over the groups gives every volume its own fresh object |
| Rebuilding.RebuildStateFromVolumeAttachments | pkg/attachment/rebuild.go:196-235 | the whole rebuild is the function on tables; a failed listing, or no client, changes nothing |
| Runs.StepValid | pkg/attachment/manager.go:61-380 | a step keeps the tables valid iff it is not a rebuild from duplicate nodes |
| Runs.RunValid | pkg/attachment/manager.go:61-380 | in every run each volume has one or two distinct nodes, the first primary, and a migration time iff two |
| Runs.RunExclusive | pkg/driver/controller.go:652-871 | if every Publish of a volume carries one mode, no run ever gives an RWO volume two nodes |
| Runs.ExclusivityBreaks | pkg/attachment/manager.go:112-157 | an RWO volume gets a second node iff an RWX request comes for another node while one is attached |
| Runs.MixedModesShareAVolume | pkg/attachment/manager.go:112-157 | two requests, RWO then RWX, that leave an RWO volume on two nodes |
| RunAccounts.HandoversPaired | pkg/driver/controller.go:806-821 | every grace handover has its own earlier detach of the volume within grace, and a timestamp still present has one nobody used |
| RunAccounts.HandoversBounded | pkg/driver/controller.go:806-838 | per volume, handovers plus one if a timestamp is present never exceed detaches |
| RunAccounts.RunGauge | pkg/observability/prometheus.go:686-697 | no Publish, Unpublish or reconcile changes gauge minus migrating volumes minus dropped migrations |
| RunAccounts.GaugeFromStart | pkg/observability/prometheus.go:686-697 | from the empty state the gauge is the migrating volumes plus the migrations dropped by untracking |
| RunAccounts.ReconcileDropsLiveNode | pkg/attachment/reconciler.go:221-243 | a run from the start in which a migrating volume's source is deleted: the pass takes the volume from the target, which is there, and the gauge stays at one with nothing migrating |
| RunAccounts.GaugeAfterRestart | pkg/attachment/rebuild.go:196-235 | after a rebuild it is less than that by the migrations recovered |
| RunAccounts.RecoveredMigrationUncounted | pkg/attachment/rebuild.go:132-188 | a migration found by a rebuild, at whose end the gauge is below zero |
| Restart.AlikeForever | pkg/driver/controller.go:610-982 | two managers that agree on nodes, modes and open grace periods give the same replies to any calls and stay in agreement |
| Restart.RestartUnnoticed | pkg/attachment/rebuild.go:196-235 | with mirrored VolumeAttachments, one mode per volume and no open grace period, every later reply and attachment is that of the run without a restart |
| Restart.RestartUnnoticedIff | pkg/attachment/rebuild.go:196-235 | a restart is invisible to every sequence of calls iff no RWO volume has an open grace period |
| Restart.RecentDetachNoticed | pkg/attachment/rebuild.go:196-235 | a run after which a restart is noticed: a volume that left its only node a moment ago |
| RestartPasses.TwinsForever | pkg/attachment/reconciler.go:158-202 | two managers that also agree on primary nodes and on the timestamps a pass looks at stay indistinguishable under any Publish, Unpublish and pass |
| RestartPasses.RestartUnseenIff | pkg/attachment/rebuild.go:196-235 | with passes among the acts, a restart is invisible iff no grace period of a Publish or of the reconciler is open and the objects of every volume list its primary node first |
| RestartPasses.ListedOrderTold | pkg/attachment/rebuild.go:132-188 | a migration whose target is listed first, told apart by a pass |
| VmiLocks.RunInv | pkg/driver/vmi_grouper.go:198-224 | the invariant of the lock table holds after every schedule |
| VmiLocks.MutualExclusion | pkg/driver/vmi_grouper.go:77-101 | at most one thread inside per key; counts are exactly the threads between get and release, all with that very object; an unused key has no entry |
| VmiGroupers.VmiGrouper.GetOrCreateLock | pkg/driver/vmi_grouper.go:198-209 | returns the entry's object or a new one, and counts one more |
| VmiGroupers.VmiGrouper.ReleaseLock | pkg/driver/vmi_grouper.go:212-224 | counts one less and drops the entry at zero |
| VmiCache.SweepInvisible | pkg/driver/vmi_grouper.go:261-267 | sweeping expired entries changes no later lookup |
| VmiCache.StoreSeen | pkg/driver/vmi_grouper.go:242-258 | a stored answer is seen by that PVC until its time to live is over and by no other |
| VmiCache.AnswersAreFresh | pkg/driver/vmi_grouper.go:105-124 | whatever was asked before, an answer is what the API said of that PVC at most the time to live ago |
| VmiGroupers.VmiGrouper.constructor | pkg/driver/vmi_grouper.go:60-73 | empty tables and the default time to live |
| VmiGroupers.VmiGrouper.CleanExpiredLocked | pkg/driver/vmi_grouper.go:261-267 | the loop drops exactly the expired entries |
| VmiGroupers.VmiGrouper.SetCache | pkg/driver/vmi_grouper.go:242-258 | stores the answer and sweeps when due |
| VmiGroupers.VmiGrouper.ResolveVMIForPVC | pkg/driver/vmi_grouper.go:105-124 | cache, API and store together are the function whose answers are fresh |
| ManagerThreads.ApplyIsLocal | pkg/attachment/manager.go:61-380 | an operation reads and writes one volume's slot only |
| ManagerThreads.VolumeExclusion | pkg/attachment/lock.go:26-52 | no two threads ever work on one volume, while the table of mutexes grows |
| ManagerThreads.Linearizable | pkg/attachment/manager.go:61-380 | however Track, AddSecondary, Untrack, RemoveNode and ClearDetachTimestamp interleave, the order of their deciding steps is a sequential history: each returned call stands in it with its result, after every call that returned before it began, and calls on their way back have places of their own that no returned call has |
| ManagerThreads.ReadersSee | pkg/attachment/manager.go:97-107 | in every reachable state a volume's entry and timestamp are what the history leaves, iff no Track of it that will be rolled back is between its write and its rollback |
| ManagerThreads.DirtyEntrySeen | pkg/attachment/manager.go:90-107 | for every Track that is not persisted, a run that shows an entry the history never has |
| ManagerThreads.MapsAreHistory | pkg/attachment/manager.go:61-380 | while no such Track is on its way the two maps are exactly the history's |
| Deadlock.WaitsGoDown | pkg/attachment/lock.go:26-52 | in every reachable state each wait is for a busy thread of lower rank, so waits never close a circle |
| Deadlock.ManagerProgress | pkg/attachment/manager.go:115-120 | from every thread in a manager call at most three waits lead to one that can step |
| Deadlock.NoDeadlock | pkg/driver/controller.go:665-676 | from every busy thread at most four waits lead to one that can step, with a reader lock that prefers writers and every manager call a move |
| BreakerSpec.History | pkg/rds/pool.go:377-433 | the count is the failures since the last success, half-open turn or creation; below the threshold unless open |
| BreakerSpec.OpensAtThreshold | pkg/rds/pool.go:420-433 | it opens exactly at the failure that reaches the threshold |
| BreakerSpec.OpenAdmitsNothing | pkg/rds/pool.go:377-404 | while open it admits nothing within the timeout after the last failure, whatever is recorded meanwhile |
| BreakerSpec.LateRequestAdmitted | pkg/rds/pool.go:388-396 | the first request after that is admitted and starts the count afresh |
| BreakerSpec.HalfOpenAdmitsAll | pkg/rds/pool.go:398-400 | half-open, it admits any number of requests until an outcome is recorded |
| BreakerSpec.HalfOpenReached | pkg/rds/pool.go:377-404 | a failure and a late request after which two requests go through |
| Breakers.CircuitBreaker.constructor | pkg/rds/pool.go:368-374 | a new breaker is closed with no failures |
| Breakers.CircuitBreaker.Allow | pkg/rds/pool.go:377-404 | as the function on values |
| Breakers.CircuitBreaker.RecordSuccess | pkg/rds/pool.go:407-417 | as the function on values |
| Breakers.CircuitBreaker.RecordFailure | pkg/rds/pool.go:420-433 | as the function on values |
| PoolSpec.NewestLiveIsReused | pkg/rds/pool.go:183-202 | the loop reuses the newest live connection and drops exactly those above it |
| PoolSpec.NoneLive | pkg/rds/pool.go:183-211 | with none live it empties the list and reserves room iff there is some |
| PoolThreads.PoolSafe | pkg/rds/pool.go:159-289 | under all interleavings: the limits hold, every connection is in exactly one of idle, out, closed or closing, no two callers hold one, a closed pool has none idle |
| PoolThreads.ActiveIsExact | pkg/rds/pool.go:235-265 | the count is creations in flight plus connections out plus those returned after the close |
| PoolThreads.LateReturnStaysCounted | pkg/rds/pool.go:235-248 | a schedule that leaves a returned connection counted in a closed pool |
| PoolThreads.ClosedAtEntryNeverConnects | pkg/rds/pool.go:159-165 | a call that starts on a closed pool never connects |
| PoolThreads.ClosedPoolConnectsIff | pkg/rds/pool.go:159-232 | in every reachable state of a closed pool, a call can still get a connection iff it has or is creating one, or is past the check with room left or a creation in flight that may fail |
| PoolThreads.ClosedPoolStillConnects | pkg/rds/pool.go:159-232 | such a call exists: the close comes between its check and its first turn |
| ConnectionPools.ConnectionPool.constructor | pkg/rds/pool.go:111-156 | every default the model uses, and an idle limit between one and the size |
| ConnectionPools.ConnectionPool.NewConnectionPool | pkg/rds/pool.go:111-156 | an error iff there is no factory; otherwise an empty open pool within its limits |
| ConnectionPools.ConnectionPool.Get | pkg/rds/pool.go:159-232 | every reply with its new pool, breaker and closed connections, newest first |
| ConnectionPools.ConnectionPool.Put | pkg/rds/pool.go:235-265 | as the function on values |
| ConnectionPools.ConnectionPool.Close | pkg/rds/pool.go:269-289 | closes every idle connection once; a second call does nothing |
| Decimal.AtoiItoa | pkg/driver/controller.go:1187-1223 | reading a printed number gives it back |
| SizeFormat.FormatDenotes | pkg/rds/commands.go:604-624 | a printed size denotes the size cut to the chosen unit |
| SizeFormat.RoundDownBounds | pkg/rds/commands.go:604-624 | at most the size, more than half of it, equal iff a multiple of the unit |
| SizeFormat.RoundDownIdempotent | pkg/rds/commands.go:604-624 | printing what was stored loses nothing more |
| SizeFormat.RoundDownMonotone | pkg/rds/commands.go:604-624 | a larger size never prints as a smaller one |
| StoreSpec.NeverShrinks | pkg/driver/controller.go:1232-1312 | over any run, whatever fails, a volume that is not deleted never gets smaller |
| StoreSpec.RestoreKeepsSize | pkg/driver/controller.go:255-358 | a restored volume is stored no smaller than its snapshot |
| StoreSpec.CreateStores | pkg/driver/controller.go:57-252 | a creation, empty or from a snapshot, stores at most the size it is after and more than half; all of it iff it is a multiple of the printed unit |
| StoreSpec.CreateIsIdempotentIff | pkg/driver/controller.go:57-252 | repeating a creation gives the same reply iff the size is such a multiple and no snapshot raised it, and a conflict otherwise |
| StoreSpec.ExpandReaches | pkg/driver/controller.go:1232-1312 | a successful expansion has reached the size iff it was there or prints exactly, and asks the node to expand iff it resized a file system |
| StoreSpec.OddSizeConflicts | pkg/driver/controller.go:57-252 | a gigabyte and one byte is created as claimed and then refused as a conflict |
| StoreSpec.OddExpansionFallsShort | pkg/driver/controller.go:1232-1312 | an expansion by one byte claims the larger size and stores less |
| Stores.RdsServer.CreateVolume | pkg/rds/commands.go:17-50 | the server's new disk is the function on the store |
| Stores.RdsServer.ResizeVolume | pkg/rds/commands.go:53-102 | as the function on the store |
| Stores.RdsServer.CreateSnapshot | pkg/rds/commands.go:741-798 | as the function on the store |
| Stores.RdsServer.RestoreSnapshot | pkg/rds/commands.go:913-958 | as the function on the store |
| Stores.VolumeController.CreateVolume | pkg/driver/controller.go:57-252 | the call, branch by branch, is the function on the store |
| Stores.VolumeController.ControllerExpandVolume | pkg/driver/controller.go:1232-1312 | the call, branch by branch, is the function on the store |
| PagingSpec.AscendingUnique | pkg/driver/controller.go:1181-1184 | there is one ascending arrangement, so any sorting gives it |
| PagingSpec.SortedFilterStable | pkg/driver/controller.go:1171-1184 | the sorted filtered list does not depend on the order the server answers in |
| PagingSpec.PagingComplete | pkg/driver/controller.go:1120-1229 | with any page sizes and any server order no call is refused, tokens run out in time, and the pages are the filtered list with every snapshot once |
| SnapshotLists.FilterBySource | pkg/driver/controller.go:1171-1179 | the loop keeps the snapshots of the source in order |
| SnapshotLists.CutPage | pkg/driver/controller.go:1187-1223 | the page and next token of a start token and a limit, or the refusal |
| SnapshotLists.ListSnapshots | pkg/driver/controller.go:1120-1229 | the whole call, with its lookup by identifier and its errors |
| MountinfoSpec.UnescapeEscape | pkg/mount/procmounts.go:115-124 | unescaping in one pass undoes the kernel's escaping on every path |
| MountinfoSpec.FieldsOfJoin | pkg/mount/procmounts.go:75-81 | splitting undoes joining |
| MountinfoSpec.MountinfoRoundTrip | pkg/mount/procmounts.go:75-111 | every entry printed as in section 3.5 of proc.rst, with any number of optional fields, comes back with its source, target, type and options |
| Mountinfo.ParseMountInfoLine | pkg/mount/procmounts.go:75-111 | the search for the first separator and the two error cases are the function on lines |
| Triggers.NoLostTrigger | pkg/attachment/reconciler.go:137-202 | at most one trigger is pending, and every call that found the channel is buffered, or a pass started after it, or a loop is about to start one; a stop may leave the token buffered for ever but does not drop it |
| Triggers.NotStuck | pkg/attachment/reconciler.go:186-200 | while a returned call waits for its pass and a loop listens, some loop can step without a tick |
| Triggers.TriggerServed | pkg/attachment/reconciler.go:158-202 | whatever happens after a call: a pass started since, or no loop took more than three steps unless stopped or cancelled, and some loop can step without a tick while any listens |
| Triggers.BlockedOnlyWithoutToken | pkg/attachment/reconciler.go:186-200 | a loop blocks iff it is in its select with no token it can hear and no signal |
| Triggers.TriggerHeardIff | pkg/attachment/reconciler.go:92-146 | a call finds the channel iff no stop took effect before it, however often it was started since |
| Triggers.DeafForever | pkg/attachment/reconciler.go:92-146 | once the listening loops are gone, no call is accepted and no token taken again |
| Triggers.StopReturnsIff | pkg/attachment/reconciler.go:114-132 | a Stop can return iff some loop had captured the channels it clears |
| Triggers.StopAtOnceHangs | pkg/attachment/reconciler.go:95-132 | a Stop at once after the Start never returns |
| Triggers.DeafReached | pkg/attachment/reconciler.go:92-146 | a Stop that returned, after which a new Start hears no call |
| Triggers.OwnChannelsNeverPanic | pkg/attachment/reconciler.go:158-169 | a history in which each loop captured the channels of its own Start has not panicked |
| Triggers.PanicsIff | pkg/attachment/reconciler.go:158-169 | some loop can still panic without a further Start or Stop iff one has captured, or would now, channels that are not its own Start's |
| Triggers.NilChannelsPanic | pkg/attachment/reconciler.go:158-169 | a loop with nil channels panics once it is cancelled and leaves |
| Triggers.SharedChannelsPanic | pkg/attachment/reconciler.go:158-169 | of two loops with one done channel the second to leave panics |
| Triggers.LateCaptures | pkg/attachment/reconciler.go:95-132 | runs that give a loop nil channels, or those of the next Start, and so a panic |
| ReconcilerControls.ReconcilerControl.constructor | pkg/attachment/reconciler.go:59-90 | not running, with an empty trigger channel |
| ReconcilerControls.ReconcilerControl.Start | pkg/attachment/reconciler.go:95-110 | refuses a running reconciler; makes new stop and done channels and leaves the trigger channel |
| ReconcilerControls.ReconcilerControl.Stop | pkg/attachment/reconciler.go:114-126 | closes the stop channel, clears all three fields and gives the channel to wait for |
| ReconcilerControls.ReconcilerControl.TriggerReconcile | pkg/attachment/reconciler.go:137-155 | adds a token iff the channel is there and empty |

## Left out

- SSH, SNMP, gRPC serving, and running nvme-cli, mount and lsof: their behaviour is outside this code.
- Kubernetes events, logging, and every metric but the active-migrations gauge.
- The wrapper over gobreaker in pkg/circuitbreaker: the library is not part of this model.
- Parsing of RouterOS output and sanitising of messages, names and mount options: text filtering around the core.
- The orphan reconciler, mount recovery, the NVMe resolver and parameter parsing: they would add easier members.
- `ClearMigrationState` (no caller outside tests), `RebuildStateFromAnnotations` (deprecated) and annotation contents.
- Reads through the state objects that `GetAttachment` hands out, and two Publish calls racing through one handover: the
  run-level theorems take each Publish, Unpublish, pass and rebuild as one step at one clock reading.
- The time inside a call: a timestamp taken twice within one call is modelled as one reading.
- Concurrent rebuilds are not moves of the interleaving model of the manager.
- The reference-counted locks of the VMI grouper and the manager's mutexes are values in the interleaving models; the
  classes show each critical section on its own.
- 64-bit overflow of sizes and durations, and of page tokens beyond the range of an integer.
- ManagerThreads.Linearizable: does not cover the gauge, because it is counted outside the maps; its conservation is proved over sequential runs.
- Deadlock.NoDeadlock: assumes that calls to the outside return, and says that a thread waited for can step, not that each one will.
- RestartPasses.RestartUnseenIff: a pass visits every volume; one that is cancelled on the way is not among the acts.
- ControllerServers.ControllerServer.ControllerPublishVolume: the publish context of an OK reply is not modelled; it is copied from the volume and decides nothing.
- Stores.VolumeController.CreateVolume: the volume context of an OK reply is not modelled, and deriving names from a checked identifier does not fail.
- MountinfoSpec.MountinfoRoundTrip: entries whose paths hold other white space, which the kernel does not escape and the splitting does not expect, are outside its condition.
