# DLB shared-memory protocols in Dafny

DLB keeps the CPUs of a node in tables of shared memory that every process edits under a lock. This project
models the ones that carry whole-run guarantees, each as a state machine whose steps are the locked
operations of the C code, and proves what every run of them keeps. The repository's own terms are used:
owner, guest, lend, reclaim, steal, future mask, dirty, participants, petition.

| modules | component | what is proved |
|---|---|---|
| LewiQueue, LewiPop | request queue of asynchronous LeWI | conservation, exact resolution and evenness of a pop |
| LewiAsyncSpec, LewiAsyncRuns, LewiAsyncReplies, LewiAsyncBalance, LewiAsyncWitnesses, LewiAsync | asynchronous LeWI counters and policy | conservation, feasibility of reclaim, what every call obtains, queues and answers, no idle CPU while a request waits, the counts announced to others, the block/resume round trip |
| ProcinfoSpec, ProcinfoInvariant, ProcinfoSetMask, ProcinfoOps, ProcinfoRuns, ProcinfoLimits, ProcinfoReturn, ProcinfoPids, ProcinfoRoundTrip, ProcinfoDelivery, ProcinfoOutcomes, Procinfo | DROM ownership | the partition of the CPUs over every run, all-or-nothing updates, delivery of every new mask exactly once, inheritance, steal and return |
| CpuinfoSpec, CpuinfoActs, CpuinfoOps, CpuinfoReaches, CpuinfoCalls, CpuinfoReclaimed, CpuinfoOccupied, CpuinfoSmt, CpuinfoSmtIndex, CpuinfoSmtRuns, CpuinfoLeaving, CpuinfoEffects, CpuinfoTasks, CpuinfoCounts, CpuinfoOutcomes, CpuinfoWitnesses, Cpuinfo | LeWI CPU table | whoever follows its tasks never shares a CPU, which CPUs and how many a call takes, the two redundant sets against the table, stability of a reclaim, exclusive cores with SMT, which CPUs a process keeps |
| BarrierSpec, BarrierInvariant, BarrierRuns, BarrierEffects, Barrier | named barriers | reference counts, the effect and refusals of every call, unique names, private lists that never overflow |
| MngoCores, MngoRedistribute, MngoExchange, Mngo | MNGO | exact redistribution of cores, a race-free exchange of deltas, and that both always come to an end |
| HelperRing, HelperRace, Helper | helper thread | the ring is a FIFO, and what can still be accepted after a JOIN |
| ResolveTasks | task delivery | grouping by process preserves meaning |

Each component has two layers. A value layer gives every operation as a function from the shared memory it
finds to the one it leaves, and carries the theorems. An imperative layer (`SharedTable`, `Policy`,
`DromTable`, `CpuTable`, `BarrierTable`, `NodeBarrier`, `MngoTable`, `HelperQueue`) holds the fields of the C
structures and updates them with the loops of the C code; each method is proved to do what the function says.

`dafny verify dfyconfig.toml` checks the whole project.

## Where the code and its promises differ

Each of these is stated as an exact condition, and with an input that breaks the property; in most cases the
input is a run from the state that the first process finds. Two conditions are only sufficient: that own petitions
and requests do not break the limit of update_max_parallelism, and, on cores of several CPUs, that own requests do
not undo a deregistration.

- `shmem_lewi_async__finalize` releases the slot whatever `reset_process` returned, so CPUs are lost exactly
  when the output array, or the surplus queue, is too short for the victims (`LewiAsyncRuns.FinalizeConserves`,
  `LewiAsyncWitnesses.FinalizeLosesCpus`). An output array of the initial count of the process is always enough
  for up to 255 victims (`LewiAsyncReplies.OwnSizeSuffices`).
- When the reclaim of an acquire fails, its code is overwritten, and finalize ignores it; the output then holds
  shares that nobody lost, and the policy sends them on as thread counts (`LewiAsyncReplies.SentAreStored`,
  `LewiAsyncWitnesses.AcquireMisinforms`).
- `lend_keep` followed by `reclaim` returns to the same table only if there were no idle CPUs beside the
  process's own request (`LewiAsyncRuns.LendThenReclaim`, `LewiAsyncWitnesses.LendThenReclaimGains`); in
  states with no idle CPUs while requests wait, that is always so.
- `setprocessmask_self` accepts the pending mask of a dirty process and recomputes from the current mask; CPUs
  already taken by others are then released a second time (`ProcinfoLimits.ResubmitKeeps`, `ResubmitBreaks`).
- Pre-registration with stealing ignores CPUs beyond the node while stealing but stores the mask as given
  (`ProcinfoLimits.PreinitOutOfRange`, `PreinitBreaks`).
- The roll-back of `steal_mask` gives a process every CPU of the mask that it had lost, also those it lost before;
  it is never reached, because the dry run decides (`ProcinfoOutcomes.RollBackRestores`,
  `RollBackGivesTooMuch`, `ProcinfoInvariant.StealNeverRollsBack`).
- Inheriting with expansion leaves the new CPUs on the slot's list of lost CPUs (`ProcinfoOps.InheritSlots`). A CPU
  released in return mode is then dropped exactly when the slot itself is its first loser
  (`ProcinfoReturn.LeaveKeepsPartition`, `SetKeepsPartition`, `ExpandThenLeave`, `ProcinfoLimits.ExpansionLeaks`).
- Registration stops looking for its own pid as soon as it has a hole and the pre-registered slot, so a process
  further on is registered twice (`ProcinfoPids.RegisteredTwice`, `TwiceInTheTable`), as does preinit
  (`PreregisteredTwice`, `PreinitTwice`); and a process that was pre-registered under its own pid and keeps only
  part of its CPUs is in two slots (`InheritsFromItself`, `OwnHeirTwice`).
- `deregister_process` leaves a stale bit in `occupied_cores` exactly when the process was using a CPU of
  another live process (`CpuinfoOccupied.ForgetProcessIndexed`, `CpuinfoWitnesses.ForgetBreaksIndex`).
- `lend_cpu` does nothing on a disabled CPU, so `update_max_parallelism`, `reset` and `deregister` leave exactly
  the disabled CPUs that a process uses in use (`CpuinfoLeaving.ResetExact`, `DeregisterExact`, `UpdateMaxExact`,
  `CpuinfoWitnesses.DisabledStaysInUse`).
- In asynchronous mode a CPU that a process lends can come back to it by its own petition, or by its own request
  on a CPU that it owns. `reset` cannot be undone that way, `update_max_parallelism` by both, and `deregister` by
  an own request, unless the requests are removed first (`CpuinfoLeaving.DeregisterOwnRequest`,
  `LimitAfterRemoving`, `CpuinfoWitnesses.OwnPetitionBreaksLimit`, `OwnRequestBreaksLeaving`). A lent CPU that came back so is passed over by `reclaim_cpu_mask`
  (`CpuinfoOccupied.ReclaimMaskIsScan`, `CpuinfoWitnesses.ReclaimMaskSkips`).
- `node_barrier_attach` on the default barrier answers 1, commented as the number of participants; that it is
  exactly when no slot held the barrier before (`BarrierRuns.AttachDefaultReply`, `AttachMiscounts`).
- An owner that lends back a CPU that it reclaimed, before the guest has returned it, leaves the table with a guest
  that was told to stop and is not told to go on; this is the only way in which lending leaves anything untold
  (`CpuinfoTasks.LendTells`, `LentBackUnannounced`).
- With SMT and a core of several owners, acquiring stops at the first CPU of the core that it cannot get, so that
  own CPUs behind it are not reclaimed (`CpuinfoEffects.CoreReclaims`, `CpuinfoWitnesses.SharedCoreBorrowsFirst`).
- A sender reads `joinable` outside the queue lock, so that its message can be accepted after a JOIN exactly when
  it read the flag before (`HelperRace.JoinIsFinal`, `AcceptedAndLost`).
- Grouped task delivery disables what one-by-one delivery would leave enabled exactly when a disable is
  followed by an enable of the same CPU for the same process (`ResolveTasks.GroupingPreservesMeaning`,
  `GroupingDisables`).

## Model

| member | source | states |
|---|---|---|
| `LewiQueue.PushAdds` | src/support/queues.c:71-103 | pushing adds exactly howmany to what the process has queued and touches nobody else, and is refused exactly when the queue is full and the process is not in it |
| `LewiQueue.RemoveForgets` | src/support/queues.c:44-68 | removing a process forgets everything it had queued and leaves every other process's amount unchanged |
| `LewiQueue.QueuePush` | src/support/queues.c:71-103 | the loop over the entries is the push above |
| `LewiQueue.QueueRemove` | src/support/queues.c:44-68 | the loop over the entries is the removal above, and returns exactly what the process had queued |
| `LewiQueue.SortedAmount` | src/support/queues.c:120-122 | sorting by size keeps what every process has queued |
| `LewiQueue.SortedOrdered` | src/support/queues.c:120-122 | the sort puts the largest requests first |
| `LewiPop.ServeConserves` | src/support/queues.c:126-170 | request by request, what is granted plus what stays queued is what was queued |
| `LewiPop.ServeExhausts` | src/support/queues.c:126-170 | with room in the output array CPUs are left over only if every request is served |
| `LewiPop.PopMeetsContract` | src/support/queues.c:126-170 | a pop conserves the CPUs and every process's amount, never gives more than was asked, resolves exactly Min(ncpus, requests, room) requests, and leaves no CPU over exactly when there were enough requests and the output could hold them |
| `LewiPop.PopIsEven` | src/support/queues.c:126-170 | the distribution is even: when the output has room, a request that is not fully served is at most one CPU behind any other |
| `LewiPop.PopNcpus` | src/support/queues.c:126-170 | the in-place loop (sort, share from the back, pack) computes that pop |
| `LewiPop.PackRequests` | src/support/queues.c:106-117 | packing drops exactly the empty entries |
| `LewiAsyncSpec.LendKeeps` | src/LB_comm/shmem_lewi_async.c:347-369 | lending to the shared memory creates and loses no CPU, whatever the size of the output array |
| `LewiAsyncSpec.LendSkipsLender` | src/LB_comm/shmem_lewi_async.c:347-369 | a lender that is not queued keeps exactly the count it was left with |
| `LewiAsyncSpec.SurplusCoversDeficits` | src/LB_comm/shmem_lewi_async.c:506-556 | feasibility: conservation and no idle CPUs make the surplus of the others at least what one process misses |
| `LewiAsyncSpec.ReclaimSucceeds` | src/LB_comm/shmem_lewi_async.c:506-556 | reclaim_from_shmem succeeds exactly when the first 255 victims, which is what the surplus queue can list, have enough to give and the output array can hold Min(ncpus, listed victims) entries; with at most 255 victims the first part always holds |
| `LewiAsyncSpec.ReclaimEffect` | src/LB_comm/shmem_lewi_async.c:506-556 | after a reclaim the caller has gained exactly ncpus, nobody else gained, no victim is below its initial count, and each is queued again for exactly what it lost unless the queue had no room for it, which takes more than 255 processes |
| `LewiAsyncSpec.RequeueAdds` | src/LB_comm/shmem_lewi_async.c:536-546 | a victim is queued again for exactly what it lost if and only if it is in the queue already or the queue has room left when its turn comes |
| `LewiAsyncRuns.LendReportsStored` | src/LB_comm/shmem_lewi_async.c:372-498 | a lender never gets its own CPUs back in the same call, so the new count it reports is the stored one |
| `LewiAsyncRuns.BroughtUp` | src/LB_comm/shmem_lewi_async.c:256-306 | borrowing first and reclaiming later gives a process all it misses exactly when the reclaim fits the output array |
| `LewiAsyncRuns.ResetRestores` | src/LB_comm/shmem_lewi_async.c:256-306 | reset_process brings a process back to its initial count exactly when ResetFits holds |
| `LewiAsyncRuns.FinalizeConserves` | src/LB_comm/shmem_lewi_async.c:308-339 | finalize ignores the outcome of the reset: it conserves CPUs exactly when that reset fits the output array and the surplus queue |
| `LewiAsyncWitnesses.FinalizeLosesCpus` | src/LB_comm/shmem_lewi_async.c:308-339 | a run that ends with finalize leaving its CPUs to two others: the output array has one entry |
| `LewiAsyncReplies.OwnSizeSuffices` | src/LB_comm/shmem_lewi_async.c:256-339 | with an output array of at least the initial count of the caller, and at most 255 victims, neither reset nor acquire ever lacks room |
| `LewiAsyncReplies.SentAreStored` | src/LB_policies/lewi_async.c:54-292 | the counts that the policy sends on after an operation are those in the table, except exactly when the reclaim of an acquire, or of a finalize, had no room: then somebody is told fewer CPUs than it has, given that every process brought one |
| `LewiAsyncReplies.ReclaimStores` | src/LB_comm/shmem_lewi_async.c:506-556 | after a reclaim every victim is announced with its stored count, and the caller is not among them |
| `LewiAsyncReplies.FailureNames` | src/LB_comm/shmem_lewi_async.c:531-553 | a failed reclaim changes nothing and leaves in the output the shares of as many victims as it can name, fewer CPUs than they have |
| `LewiAsyncWitnesses.AcquireMisinforms` | src/LB_policies/lewi_async.c:253-292 | a run after which an acquire moves nothing and the policy tells a process with two CPUs to go on with one |
| `LewiAsyncBalance.AcquireBalance` | src/LB_comm/shmem_lewi_async.c:634-689 | what an acquire obtains and what it queues make up what was asked, exactly when nothing is left over or the queue has room; it answers Noted exactly when it obtained fewer, Success exactly when it obtained all, and the new count is the stored one |
| `LewiAsyncBalance.AcquireObtains` | src/LB_comm/shmem_lewi_async.c:634-689 | an acquire obtains the idle CPUs it wants and then, up to its own count, the reclaimed ones, if they fit |
| `LewiAsyncBalance.BorrowBalance` | src/LB_comm/shmem_lewi_async.c:696-731 | a borrow takes Min(idle, ncpus) idle CPUs, from nobody else, and reports the stored count |
| `LewiAsyncBalance.LendOutcome` | src/LB_comm/shmem_lewi_async.c:372-430 | lending is refused exactly to strangers, for nothing and for more than the caller has; otherwise the caller has n fewer, waits for nothing, and prev_requested is what it has to ask for to have as much again |
| `LewiAsyncBalance.LendKeepOutcome` | src/LB_comm/shmem_lewi_async.c:433-498 | the same for the number to keep |
| `LewiAsyncBalance.ReclaimOutcome` | src/LB_comm/shmem_lewi_async.c:559-627 | a reclaim brings the caller back to its own count if that fits, else as far as idle CPUs reach; of its earlier petition it gets the idle CPUs left and queues the rest |
| `LewiAsyncBalance.ResetOutcome` | src/LB_comm/shmem_lewi_async.c:738-771 | a reset answers what the process had beyond its own CPUs or waited for, and leaves it with neither |
| `LewiAsyncBalance.InitOutcome` | src/LB_comm/shmem_lewi_async.c:181-249 | a process attaches in a free slot with its own CPUs, refused exactly for another capacity or for lack of a slot |
| `LewiAsyncBalance.NothingToDo` | src/LB_comm/shmem_lewi_async.c:559-771 | strangers are refused, and who asks for nothing, or lacks nothing, changes nothing |
| `LewiAsyncBalance.RemoveOutcome` | src/LB_comm/shmem_lewi_async.c:132-139 | removing the requests of a process takes those and no others out of the queue |
| `LewiAsyncBalance.FinalizeOutcome` | src/LB_comm/shmem_lewi_async.c:308-339 | a process that leaves is registered and queued no more |
| `LewiAsyncRuns.StepConserves` | src/LB_comm/shmem_lewi_async.c:181-771 | every operation keeps idle CPUs plus current counts equal to the initial counts |
| `LewiAsyncRuns.RunConserves` | src/LB_comm/shmem_lewi_async.c:181-771 | conservation over every run of init, lend, lend_keep, borrow, acquire, reclaim, reset, remove and finalize |
| `LewiAsyncRuns.LendServesPending` | src/LB_comm/shmem_lewi_async.c:347-369 | lending leaves CPUs idle next to pending requests exactly when the output array is too short |
| `LewiAsyncRuns.RunServes` | src/LB_comm/shmem_lewi_async.c:181-771 | with large enough output arrays idle CPUs and pending requests coexist in no reachable state |
| `LewiAsyncRuns.LendThenReclaim` | src/LB_comm/shmem_lewi_async.c:433-627 | lend_keep followed by reclaim with the returned prev_requested restores the whole table, with no victims, exactly when there were no idle CPUs beside the process's own request |
| `LewiAsyncWitnesses.LendThenReclaimGains` | src/LB_comm/shmem_lewi_async.c:433-627 | a run after which lending and reclaiming leaves the process with one CPU more |
| `LewiAsyncRuns.FirstAttachClears` | src/LB_comm/shmem_lewi_async.c:181-249 | the first process to attach clears counters that a sound table already has clear |
| `LewiAsync.SharedTable.LendNcpusToShmem` | src/LB_comm/shmem_lewi_async.c:347-369 | in place: the pop, the grants and the announced totals of LendNcpus; what that amounts to is stated by LendKeeps and LendServesPending |
| `LewiAsync.SharedTable.ReclaimFromShmem` | src/LB_comm/shmem_lewi_async.c:506-556 | in place: collects the surplus, pops it, takes and re-queues, as ReclaimFrom; what that amounts to is stated by ReclaimSucceeds and ReclaimEffect |
| `LewiAsync.SharedTable.CollectSurplus` | src/LB_comm/shmem_lewi_async.c:520-529 | the loop that queues every process above its initial count |
| `LewiAsync.SharedTable.Init` | src/LB_comm/shmem_lewi_async.c:181-249 | in place: Init, error cases included; what that amounts to is stated by StepConserves and InitOutcome |
| `LewiAsync.SharedTable.Finalize` | src/LB_comm/shmem_lewi_async.c:308-339 | in place: Finalize; what that amounts to is stated by FinalizeConserves and FinalizeOutcome |
| `LewiAsync.SharedTable.LendCpus` | src/LB_comm/shmem_lewi_async.c:372-430 | in place: LendCpus with its codes, new count, requests and prev_requested; what that amounts to is stated by LendOutcome and LendReportsStored |
| `LewiAsync.SharedTable.LendKeepCpus` | src/LB_comm/shmem_lewi_async.c:433-498 | in place: LendKeepCpus; what that amounts to is stated by LendKeepOutcome and LendThenReclaim |
| `LewiAsync.SharedTable.Reclaim` | src/LB_comm/shmem_lewi_async.c:559-627 | in place: Reclaim; what that amounts to is stated by ReclaimOutcome, LendThenReclaim and ReclaimEffect |
| `LewiAsync.SharedTable.AcquireCpus` | src/LB_comm/shmem_lewi_async.c:634-689 | in place: AcquireCpus; what that amounts to is stated by AcquireBalance, AcquireObtains and SentAreStored |
| `LewiAsync.SharedTable.BorrowCpus` | src/LB_comm/shmem_lewi_async.c:696-731 | in place: BorrowCpus; what that amounts to is stated by BorrowBalance and RunServes |
| `LewiAsync.SharedTable.Reset` | src/LB_comm/shmem_lewi_async.c:738-771 | in place: Reset; what that amounts to is stated by ResetRestores and ResetOutcome |
| `LewiAsync.Policy.LendKeepCpus` | src/LB_policies/lewi_async.c:54-82 | a positive prev_requested is saved for the next reclaim |
| `LewiAsync.Policy.Reclaim` | src/LB_policies/lewi_async.c:229-251 | the saved petition is handed back and cleared |
| `LewiAsync.Policy.BlockAndResume` | src/LB_policies/lewi_async.c:54-82 | into and out of a blocking call, the table and the saved petition are as before |
| `ProcinfoInvariant.DryRunDecides` | src/LB_comm/shmem_procinfo.c:1423-1542 | the dry run of steal_mask takes the same path as the real run |
| `ProcinfoInvariant.StealNeverRollsBack` | src/LB_comm/shmem_procinfo.c:1423-1542 | once the dry run passes the real run succeeds, so the roll-back loop is never reached |
| `ProcinfoInvariant.StealAt` | src/LB_comm/shmem_procinfo.c:1423-1542 | a successful steal moves exactly the requested CPUs to the new owner, each from another process, and no other CPU |
| `ProcinfoInvariant.RegisterAt` | src/LB_comm/shmem_procinfo.c:215-240 | registering moves exactly the mask from the free mask to the owner |
| `ProcinfoInvariant.ReleaseAt` | src/LB_comm/shmem_procinfo.c:591-636 | unregistering sends each CPU to the free mask, or in return mode to the first process that lost it; all other CPUs stay |
| `ProcinfoSetMask.SetNewMaskAllOrNothing` | src/LB_comm/shmem_procinfo.c:1550-1592 | on a process that is not dirty the dry run alone decides: success gives it exactly the requested mask, failure changes nothing, and the partition survives both |
| `ProcinfoSetMask.SetNewMaskAt` | src/LB_comm/shmem_procinfo.c:1550-1592 | where every CPU of the node ends after a successful set_new_mask |
| `ProcinfoSetMask.SetNewMaskOthers` | src/LB_comm/shmem_procinfo.c:1550-1592 | every other process loses exactly the requested CPUs and, in return mode, gets the released ones it was first to lose |
| `ProcinfoSetMask.SetNewMaskSucceeds` | src/LB_comm/shmem_procinfo.c:1423-1465 | it succeeds exactly when some prefix of the table without dirty victims holds all the CPUs to steal |
| `ProcinfoSetMask.CleanTableGrants` | src/LB_comm/shmem_procinfo.c:1550-1592 | while no other process has a pending update, it succeeds exactly when the mask is inside the system |
| `ProcinfoOps.RecoverKeeps` | src/LB_comm/shmem_procinfo.c:738-762 | recovering takes back exactly the lost CPUs that are free, and keeps the invariant |
| `ProcinfoOps.FinalizeAt` | src/LB_comm/shmem_procinfo.c:650-736 | where every CPU goes when a process leaves |
| `ProcinfoOps.FinalizeKeeps` | src/LB_comm/shmem_procinfo.c:650-736 | leaving keeps the partition and empties the slot |
| `ProcinfoOps.FreshInitKeeps` | src/LB_comm/shmem_procinfo.c:327-345 | a new process is admitted exactly when its mask is free, and then owns exactly that mask |
| `ProcinfoOps.PreinitKeeps` | src/LB_comm/shmem_procinfo.c:519-583 | pre-registration, stealing or not, keeps the invariant |
| `ProcinfoOps.InheritKeeps` | src/LB_comm/shmem_procinfo.c:347-450 | each inheritance case hands over exactly the mask asked for (or the inherited one), leaves the rest with the old slot, keeps the partition, and changes nothing on failure |
| `ProcinfoOps.InheritSlots` | src/LB_comm/shmem_procinfo.c:363-383 | expanding an inherited slot keeps the slots sound exactly when none of the new CPUs is one the slot was robbed of |
| `ProcinfoPids.RegisteredTwice` | src/LB_comm/shmem_procinfo.c:283-317 | a registered process that registers again, under any pre-registration pid but its own, in the table or not, is refused as registered exactly unless a hole, and the pre-registered slot if one is named, come before its slot; otherwise it is admitted exactly when anybody else would be, and it is in one slot exactly when it is not admitted |
| `ProcinfoPids.PreregisteredTwice` | src/LB_comm/shmem_procinfo.c:519-583 | a process in the table is refused by preinit exactly when no hole precedes its slot; otherwise it is in two slots exactly when preinit succeeds |
| `ProcinfoPids.PreregisteredOnce` | src/LB_comm/shmem_procinfo.c:519-583 | a process that is not in the table is pre-registered in one slot |
| `ProcinfoPids.RunKeepsDistinct` | src/LB_comm/shmem_procinfo.c:242-1592 | in every run whose registrations of known processes meet their slot, every process has one slot |
| `ProcinfoPids.PreinitTwice` | src/LB_comm/shmem_procinfo.c:519-583 | a run after which preinit leaves a process in two slots |
| `ProcinfoPids.InheritsFromItself` | src/LB_comm/shmem_procinfo.c:292-427 | a process pre-registered under its own pid ends in two slots exactly when it is admitted and gives up CPUs of the pre-registration |
| `ProcinfoPids.NewcomerIsAlone` | src/LB_comm/shmem_procinfo.c:283-450 | a process that is not in the table never ends in two slots |
| `ProcinfoPids.TwiceInTheTable` | src/LB_comm/shmem_procinfo.c:283-317 | a run after which a process is in two slots |
| `ProcinfoPids.OwnHeirTwice` | src/LB_comm/shmem_procinfo.c:385-406 | a pre-registration and a start after which a process is in two slots |
| `ProcinfoRuns.StepKeeps` | src/LB_comm/shmem_procinfo.c:242-1592 | every locked operation keeps the invariant |
| `ProcinfoRuns.RunKeeps` | src/LB_comm/shmem_procinfo.c:242-1592 | in every reachable state the free mask and the future masks partition the system, and a process that is not dirty has equal masks |
| `ProcinfoRuns.QuietMasksPartition` | src/LB_comm/shmem_procinfo.c:242-1592 | when nobody is dirty the masks in use are disjoint and, with the free mask, are the system |
| `ProcinfoDelivery.MaskIsDeliveredOnce` | src/LB_comm/shmem_procinfo.c:906-1026 | after a setprocessmask with another mask, the next poll of the process answers Success and that mask, puts it in use and clears the notice, and changes nothing else; the one after it answers NoUpdt and changes nothing |
| `ProcinfoDelivery.OthersAreDelivered` | src/LB_comm/shmem_procinfo.c:906-1026 | so do the polls of every other process whose CPUs changed, and nobody else hears anything |
| `ProcinfoDelivery.PollAnswers` | src/LB_comm/shmem_procinfo.c:999-1026 | a poll answers that there is a new mask exactly when one is pending, and then delivers it; otherwise nothing changes |
| `ProcinfoDelivery.ChangedAreTold` | src/LB_comm/shmem_procinfo.c:1550-1592 | set_new_mask marks as dirty exactly the processes whose future mask it changes, and touches no mask in use |
| `ProcinfoDelivery.SetMaskOutcome` | src/LB_comm/shmem_procinfo.c:906-944 | setprocessmask is refused exactly for an empty slot, a pending mask, or CPUs it cannot get; otherwise the mask is pending |
| `ProcinfoDelivery.SetMaskPlaces` | src/LB_comm/shmem_procinfo.c:906-944 | where every CPU is afterwards, with and without DLB_RETURN_STOLEN |
| `ProcinfoDelivery.SelfSetIsSetAndPoll` | src/LB_comm/shmem_procinfo.c:872-904 | a process that sets its own mask has it in use at once, as after setting and polling; with DLB_NO_SYNC it is only set |
| `ProcinfoDelivery.SelfSetRefused` | src/LB_comm/shmem_procinfo.c:872-904 | with another mask pending it is refused and changes nothing |
| `ProcinfoOutcomes.InitOutcome` | src/LB_comm/shmem_procinfo.c:242-466 | what starting a process that is not in the table answers: each code exactly when, the first hole as its slot with its mask, or the inheritance from the slot it names |
| `ProcinfoOutcomes.NewcomerScan` | src/LB_comm/shmem_procinfo.c:283-317 | the scan finds the first hole and the first slot of the pre-registration, and refuses exactly one that is not pre-registered |
| `ProcinfoOutcomes.RollBackRestores` | src/LB_comm/shmem_procinfo.c:1520-1539 | were stealing undone after any part of its victim loop, the roll-back would restore every process exactly when none had lost a CPU of the mask before |
| `ProcinfoOutcomes.RollBackGivesTooMuch` | src/LB_comm/shmem_procinfo.c:1520-1539 | a process that the roll-back would give a CPU that it did not have |
| `ProcinfoOutcomes.RecoverOutcome` | src/LB_comm/shmem_procinfo.c:738-762 | recovering makes the lost CPUs that are free a pending change, and answers NoUpdt exactly when none was lost |
| `ProcinfoOutcomes.FinalizeOutcome` | src/LB_comm/shmem_procinfo.c:650-736 | leaving empties the slot and touches no mask in use; without return mode nobody else changes |
| `ProcinfoOutcomes.PreinitOutcome` | src/LB_comm/shmem_procinfo.c:519-583 | when pre-registration without stealing succeeds, its exact codes, and the slot it leaves |
| `ProcinfoOutcomes.PreinitStealOutcome` | src/LB_comm/shmem_procinfo.c:519-583 | with stealing, whoever loses CPUs is told and keeps its mask in use |
| `ProcinfoOutcomes.InheritRefusals` | src/LB_comm/shmem_procinfo.c:347-450 | exactly when inheriting is refused, and with which code |
| `ProcinfoOutcomes.InheritOutcome` | src/LB_comm/shmem_procinfo.c:347-450 | the slot in which the process starts, its masks, and what the pre-registered slot keeps |
| `ProcinfoLimits.ResubmitKeeps` | src/LB_comm/shmem_procinfo.c:872-904 | re-submitting the pending mask of a dirty process keeps the partition exactly when it needs more CPUs than the current mask or every CPU being left can be released: it is still free, or in return mode the process itself is the first that lost it, or it is free and nobody lost it |
| `ProcinfoLimits.ResubmitBreaks` | src/LB_comm/shmem_procinfo.c:880 | a concrete table on which it does not, with and without DLB_RETURN_STOLEN |
| `ProcinfoLimits.PreinitOutOfRange` | src/LB_comm/shmem_procinfo.c:519-583 | pre-registration with stealing keeps the table valid exactly when the mask fits the node |
| `ProcinfoLimits.PreinitBreaks` | src/LB_comm/shmem_procinfo.c:519-583 | a pre-registration that records a CPU beyond the node |
| `ProcinfoLimits.ExpansionLeaks` | src/LB_comm/shmem_procinfo.c:363-383 | a concrete table on which inheriting a lost CPU and leaving in return mode loses that CPU |
| `ProcinfoReturn.ReleaseKeepsPartition` | src/LB_comm/shmem_procinfo.c:591-636 | whatever the lists of lost CPUs say, unregistering keeps the partition exactly when, in return mode, the owner is the first loser of no CPU that it releases |
| `ProcinfoReturn.LeavePlaces` | src/LB_comm/shmem_procinfo.c:650-736 | where every CPU is after a process leaves; those that it was itself the first to lose are nowhere |
| `ProcinfoReturn.LeaveKeepsPartition` | src/LB_comm/shmem_procinfo.c:650-736 | leaving keeps the partition exactly when, in return mode, the process is the first loser of no CPU that it holds |
| `ProcinfoReturn.SetKeepsPartition` | src/LB_comm/shmem_procinfo.c:1550-1592 | a successful set_new_mask on a clean process keeps the partition exactly when, in return mode, the process is the first loser of no CPU that it gives up |
| `ProcinfoReturn.InheritKeepsPartition` | src/LB_comm/shmem_procinfo.c:347-450 | every inheritance case keeps the partition, whatever the slot was robbed of |
| `ProcinfoReturn.ExpandThenLeave` | src/LB_comm/shmem_procinfo.c:363-736 | a process that inherits in place and leaves in return mode drops CPUs exactly when its slot was the first to lose one of the CPUs it holds |
| `ProcinfoRoundTrip.EnterLeaveRestores` | src/LB_comm/shmem_procinfo.c:519-736 | stealing CPUs and leaving in return mode puts every CPU back where it was exactly when no process in front of the victim already counted it as lost |
| `ProcinfoRoundTrip.EnterLeaveLosses` | src/LB_comm/shmem_procinfo.c:519-736 | and then every other process counts as lost exactly what it counted before |
| `Procinfo.DromTable.RegisterMask` | src/LB_comm/shmem_procinfo.c:215-240 | in place: Register; what that amounts to is stated by RegisterAt |
| `Procinfo.DromTable.StealMask` | src/LB_comm/shmem_procinfo.c:1423-1542 | in place: Steal, with its victim loop and its roll-back loop; what that amounts to is stated by StealAt and StealNeverRollsBack |
| `Procinfo.DromTable.RobVictims` | src/LB_comm/shmem_procinfo.c:1431-1459 | the victim loop with its early exits |
| `Procinfo.DromTable.RollBack` | src/LB_comm/shmem_procinfo.c:1520-1539 | the roll-back loop; what that amounts to is stated by RollBackRestores |
| `Procinfo.DromTable.UnregisterMask` | src/LB_comm/shmem_procinfo.c:591-636 | in place: Unregister, with the loop over CPUs; what that amounts to is stated by ReleaseAt |
| `Procinfo.DromTable.GiveBackCpu` | src/LB_comm/shmem_procinfo.c:608-628 | the loop that looks for the process that lost a CPU |
| `Procinfo.DromTable.SetNewMask` | src/LB_comm/shmem_procinfo.c:1550-1592 | in place: SetNewMask and the CPUs it frees; what that amounts to is stated by SetNewMaskAllOrNothing and ChangedAreTold |
| `Procinfo.DromTable.SetProcessMask` | src/LB_comm/shmem_procinfo.c:906-944 | in place: SetMask; what that amounts to is stated by SetMaskOutcome, SetMaskPlaces and MaskIsDeliveredOnce |
| `Procinfo.DromTable.SetProcessMaskSelf` | src/LB_comm/shmem_procinfo.c:872-904 | in place: SetMaskSelf; what that amounts to is stated by SelfSetIsSetAndPoll, SelfSetRefused and ResubmitKeeps |
| `Procinfo.DromTable.PollDrom` | src/LB_comm/shmem_procinfo.c:999-1026 | in place: Poll; the mask returned is the pending one, which becomes current; what that amounts to is stated by PollAnswers, MaskIsDeliveredOnce and OthersAreDelivered |
| `Procinfo.DromTable.GetProcessMaskSelf` | src/LB_comm/shmem_procinfo.c:770-789 | in place: Poll with the codes of this call; what that amounts to is stated by PollAnswers and MaskIsDeliveredOnce |
| `Procinfo.DromTable.RecoverStolenCpus` | src/LB_comm/shmem_procinfo.c:738-762 | in place: Recover; what that amounts to is stated by RecoverKeeps and RecoverOutcome |
| `Procinfo.DromTable.FinalizeProcess` | src/LB_comm/shmem_procinfo.c:650-736 | in place: Finalize; what that amounts to is stated by FinalizeAt, FinalizeOutcome and LeaveKeepsPartition |
| `Procinfo.DromTable.PreinitProcess` | src/LB_comm/shmem_procinfo.c:519-583 | in place: Preinit; what that amounts to is stated by PreinitKeeps, PreinitOutcome, PreinitStealOutcome, EnterLeaveRestores and PreregisteredTwice |
| `Procinfo.DromTable.InitProcess` | src/LB_comm/shmem_procinfo.c:242-466 | in place: Init, with the scan and the four inheritance cases; what that amounts to is stated by InitOutcome, InheritKeeps, InheritOutcome, InheritRefusals and RegisteredTwice |
| `CpuinfoActs.FoundGuest` | src/LB_comm/shmem_cpuinfo.c:236-272 | a CPU passes only to its owner when reclaimed, or to a process whose core is eligible; nothing else moves |
| `CpuinfoActs.LendFree` | src/LB_comm/shmem_cpuinfo.c:614-680 | lending keeps free_cpus complete, the rest of the core included |
| `CpuinfoActs.ActKeepsFree` | src/LB_comm/shmem_cpuinfo.c:279-2191 | every operation on a CPU, polling or asynchronous, keeps every enabled CPU without guest in free_cpus and gives every busy CPU an owner |
| `CpuinfoCalls.CallReaches` | src/LB_comm/shmem_cpuinfo.c:614-1987 | every LeWI operation is a run of single-CPU acts of its caller |
| `CpuinfoCalls.HistoryKeepsFree` | src/LB_comm/shmem_cpuinfo.c:279-2191 | free_cpus is complete after every run of operations, transfers of ownership and direct deregistration included |
| `CpuinfoCalls.EarlyExitIsExact` | src/LB_comm/shmem_cpuinfo.c:1649-1660 | skipping a borrow on an empty free_cpus gives exactly what trying every CPU would, with and without SMT |
| `CpuinfoReclaimed.ActStays` | src/LB_comm/shmem_cpuinfo.c:614-1722 | no act of another process undoes a reclaim |
| `CpuinfoReclaimed.ReclaimThenReturn` | src/LB_comm/shmem_cpuinfo.c:770-1722 | a reclaimed CPU passes to its owner when its guest returns it |
| `CpuinfoCalls.HistoryKeepsReclaimed` | src/LB_comm/shmem_cpuinfo.c:614-1935 | once p has reclaimed a CPU, after any run of the others it is still busy and owned by p, and its guest is the same or p |
| `CpuinfoOccupied.ForgetIndexed` | src/LB_comm/shmem_cpuinfo.c:293-327 | deregister_cpu keeps occupied_cores exact exactly when pid does not give up a CPU of another live process |
| `CpuinfoOccupied.ForgetProcessIndexed` | src/LB_comm/shmem_cpuinfo.c:537-548 | deregister_process keeps occupied_cores exact if and only if pid was using no CPU of another live process |
| `CpuinfoWitnesses.ForgetBreaksIndex` | src/LB_comm/shmem_cpuinfo.c:537-548 | a run after which deregister_process leaves a stale bit |
| `CpuinfoOccupied.HistoryKeepsIndex` | src/LB_comm/shmem_cpuinfo.c:200-234 | on one-CPU cores occupied_cores is exactly the owned CPUs used by another, in every run, with the queues on or off |
| `CpuinfoOccupied.ReclaimAllIsScan` | src/LB_comm/shmem_cpuinfo.c:843-877 | reclaim_all gives the table, tasks and code of scanning every CPU |
| `CpuinfoOccupied.ReclaimMaskIsScan` | src/LB_comm/shmem_cpuinfo.c:991-1025 | reclaim_cpu_mask gives the table and tasks of reclaiming every CPU of the mask exactly when the CPUs of the mask that the caller owns and uses are busy or in free_cpus, always so in polling mode; and then its code too when the mask only names own CPUs |
| `CpuinfoWitnesses.ReclaimMaskSkips` | src/LB_comm/shmem_cpuinfo.c:991-1025 | an asynchronous run after which reclaim_cpu_mask passes over a lent CPU that its owner uses |
| `CpuinfoOccupied.ReturnAllIsScan` | src/LB_comm/shmem_cpuinfo.c:1724-1750 | return_all, which edits the set it walks, does what scanning every owned CPU does |
| `CpuinfoSmt.ActKeepsExclusive` | src/LB_comm/shmem_cpuinfo.c:133-1808 | with SMT no act, polling or asynchronous, lets a second visitor into a core |
| `CpuinfoSmtIndex.UpdateLists` | src/LB_comm/shmem_cpuinfo.c:200-234 | update_occupied_cores lists every used CPU of its core and leaves the bits of other cores alone |
| `CpuinfoSmtIndex.ReturnAllSettles` | src/LB_comm/shmem_cpuinfo.c:1689-1750 | after return_all every CPU still borrowed from a live owner is lent, in a core without reclaimed CPUs |
| `CpuinfoSmtRuns.RegisterExclusive` | src/LB_comm/shmem_cpuinfo.c:405-442 | registering whole cores keeps at most one visitor per core |
| `CpuinfoSmtRuns.LeaveExclusive` | src/LB_comm/shmem_cpuinfo.c:1846-1894 | so does leaving |
| `CpuinfoSmtRuns.HistoryKeepsSane` | src/LB_comm/shmem_cpuinfo.c:133-1987 | with SMT, polling and whole-core masks, at most one process other than the owner uses the CPUs of any core in every run, and occupied_cores lists them |
| `CpuinfoSmtRuns.ReturnAllAfterAnyRun` | src/LB_comm/shmem_cpuinfo.c:1724-1750 | the guarantee of return_all after any such run |
| `CpuinfoEffects.FirstInLine` | src/LB_comm/shmem_cpuinfo.c:236-272 | a freed CPU goes to the first eligible request of its queue, else to the first petition that allows it, and to nobody only if nobody eligible waits |
| `CpuinfoEffects.LendThenReclaim` | src/LB_comm/shmem_cpuinfo.c:614-813 | lending a CPU in use and reclaiming it restores the table |
| `CpuinfoEffects.HandoverCycle` | src/LB_comm/shmem_cpuinfo.c:614-1722 | lend, borrow, reclaim and return restore the table and produce exactly the four tasks that start and stop the borrower |
| `CpuinfoTasks.RunTells` | src/LB_comm/shmem_cpuinfo.c:614-2191 | in every run of lend, reclaim, acquire, borrow, return and availability calls, processes that do as their tasks say use only the CPUs that the table gives them, and exactly those unless somebody was stopped besides |
| `CpuinfoTasks.NeverShared` | src/LB_comm/shmem_cpuinfo.c:614-2191 | so no two of them ever use the same CPU |
| `CpuinfoTasks.ActTells` | src/LB_comm/shmem_cpuinfo.c:614-2191 | the same for each step: the tasks say exactly how the table changed |
| `CpuinfoTasks.LendTells` | src/LB_comm/shmem_cpuinfo.c:614-680 | lending tells every new guest; only a CPU that its owner lends back before the guest returned it is not announced |
| `CpuinfoTasks.LentBackUnannounced` | src/LB_comm/shmem_cpuinfo.c:614-813 | from any CPU in use: lend, borrow, reclaim and lend leave the borrower told to stop and in the table as guest |
| `CpuinfoTasks.AcquireTook` | src/LB_comm/shmem_cpuinfo.c:1231-1416 | every task of an acquire starts the caller on a CPU that it then guests or has reclaimed, or stops the process, not the caller, that guested one of its own CPUs; and nothing that changes goes untold |
| `CpuinfoTasks.BorrowTook` | src/LB_comm/shmem_cpuinfo.c:1612-1680 | the same for a borrow |
| `CpuinfoTasks.ReclaimTook` | src/LB_comm/shmem_cpuinfo.c:843-1025 | and for the reclaims of all CPUs, of a mask and of a number |
| `CpuinfoTasks.AcquireIsReclaim` | src/LB_comm/shmem_cpuinfo.c:1035-1117 | acquiring an own CPU that another uses, or nobody, has the tasks, table and code of reclaiming it |
| `CpuinfoTasks.HandoverByAcquire` | src/LB_comm/shmem_cpuinfo.c:614-1722 | lend, borrow, acquire and return restore the table with the same four tasks |
| `CpuinfoTasks.AcquireAsks` | src/LB_comm/shmem_cpuinfo.c:1101-1114 | when acquiring leaves a request: last in the queue of the CPU, exactly in asynchronous mode and with room |
| `CpuinfoTasks.AsyncCycle` | src/LB_comm/shmem_cpuinfo.c:614-1808 | a guest that gives back a reclaimed CPU waits as the last one, and when the owner lends it again the first in line has it |
| `CpuinfoCounts.BorrowCount` | src/LB_comm/shmem_cpuinfo.c:1612-1680 | without SMT a borrow takes the first CPUs of the list that the caller may have, exactly Min(wanted, available); fewer than wanted only if none of the list is left; Success exactly when it got any |
| `CpuinfoCounts.AcquireCount` | src/LB_comm/shmem_cpuinfo.c:1231-1388 | without SMT an acquire takes the first CPUs of its line, own idle, own in use, then idle ones of others; with the petition, if accepted, exactly as many as wanted |
| `CpuinfoCounts.AcquireLineHas` | src/LB_comm/shmem_cpuinfo.c:1302-1348 | that line has every CPU of the list that can be acquired, once, and no other |
| `CpuinfoCounts.AcquireAsksEach` | src/LB_comm/shmem_cpuinfo.c:1390-1406 | without a number, an asynchronous acquire leaves a request on every CPU of the list that the caller does not have, where there is room and it does not wait already |
| `CpuinfoCounts.AskEachAnswers` | src/LB_comm/shmem_cpuinfo.c:1390-1406 | it answers Noted exactly when it left one or took one in use |
| `CpuinfoCounts.TakesFirst` | src/LB_comm/shmem_cpuinfo.c:1147-1191 | without SMT the CPUs taken from an array are the first available ones, as many as wanted, each told in order |
| `CpuinfoCounts.TakeArrayStarts` | src/LB_comm/shmem_cpuinfo.c:1147-1191 | in any topology the count left is what was wanted less one for every CPU started, above minus the size of a core |
| `CpuinfoCounts.PostedPlace` | src/LB_comm/shmem_cpuinfo.c:1350-1388 | a petition is accepted exactly when there is one to add it to, or room, and the others keep their place |
| `CpuinfoCounts.ReclaimCpusCount` | src/LB_comm/shmem_cpuinfo.c:939-989 | reclaiming a number of CPUs goes through whole cores in order, starts at least that many while own CPUs are left, and never a core too many |
| `CpuinfoOutcomes.BorrowOutcome` | src/LB_comm/shmem_cpuinfo.c:1423-1465 | when borrowing a CPU succeeds, with and without SMT, and what it leaves |
| `CpuinfoOutcomes.ReclaimOutcome` | src/LB_comm/shmem_cpuinfo.c:770-813 | when a reclaim is refused, needs nothing, gets the CPU or waits for its guest, and whom it tells |
| `CpuinfoOutcomes.ReturnOutcome` | src/LB_comm/shmem_cpuinfo.c:1689-1722 | a guest gives a CPU back exactly when it was reclaimed or disabled or its core takes it in no more |
| `CpuinfoOutcomes.ReturnAsyncOutcome` | src/LB_comm/shmem_cpuinfo.c:1789-1808 | whom a CPU given back goes to, and the request that is left: last in the queue, if that has room |
| `CpuinfoOutcomes.LendMaskOutcome` | src/LB_comm/shmem_cpuinfo.c:614-759 | polling, lending a mask lends exactly its enabled CPUs: none has the caller as guest, reclaimed ones pass to their owner, idle ones are in free_cpus, the others stay |
| `CpuinfoOutcomes.OwnershipOutcome` | src/LB_comm/shmem_cpuinfo.c:1992-2081 | after update_ownership the process owns exactly the CPUs of the mask, busy; those given up are disabled, and reclaimed ones that it borrowed are returned |
| `CpuinfoOutcomes.OwnCpuOutcome` | src/LB_comm/shmem_cpuinfo.c:2000-2077 | and exactly those are told who have to stop or start |
| `CpuinfoOutcomes.CheckOutcome` | src/LB_comm/shmem_cpuinfo.c:2162-2191 | the availability check says yes exactly when the caller then is the guest |
| `CpuinfoOutcomes.RegisterOutcome` | src/LB_comm/shmem_cpuinfo.c:405-442 | registration is refused exactly when another process owns a CPU of the mask; the CPUs in use by another stay so |
| `CpuinfoOutcomes.ForgetProcessOutcome` | src/LB_comm/shmem_cpuinfo.c:537-548 | after deregister_process the process owns and uses nothing |
| `CpuinfoLeaving.LendLetsGo` | src/LB_comm/shmem_cpuinfo.c:614-680 | a process without petitions that lends a CPU no longer uses it, unless it is disabled, with and without SMT |
| `CpuinfoLeaving.ResetExact` | src/LB_comm/shmem_cpuinfo.c:1898-1935 | in every mode, after a reset every own CPU is reclaimed, and a CPU of another is still used exactly when it was used and disabled |
| `CpuinfoLeaving.DeregisterExact` | src/LB_comm/shmem_cpuinfo.c:1846-1894 | in every mode, after leaving nothing is owned, and a CPU on which no own request waits is still used exactly when it was used and disabled, and not shut down |
| `CpuinfoLeaving.DeregisterOwnRequest` | src/LB_comm/shmem_cpuinfo.c:1846-1894 | on one-CPU cores a process that left still uses a CPU that it owned exactly when the CPU stays public and the first request on it is its own, or it was disabled |
| `CpuinfoLeaving.UpdateMaxExact` | src/LB_comm/shmem_cpuinfo.c:1938-1987 | without petitions of pid, without its requests on own CPUs, and with SMT without any: the CPUs used after update_max_parallelism are exactly those used before that are among the first max, owned ones first, or disabled; every other enabled own CPU is lent |
| `CpuinfoLeaving.MaxParallelismHolds` | src/LB_comm/shmem_cpuinfo.c:1938-1987 | so it uses at most max enabled CPUs, polling or asynchronous, with and without SMT |
| `CpuinfoLeaving.RemovedIsUnasked` | src/LB_comm/shmem_cpuinfo.c:2209-2229 | remove_requests leaves nothing that could give a CPU back to pid, and changes nothing but queues |
| `CpuinfoLeaving.LimitAfterRemoving` | src/LB_comm/shmem_cpuinfo.c:1938-2229 | after it the limit of update_max_parallelism holds in every state and mode |
| `CpuinfoWitnesses.DisabledStaysInUse` | src/LB_comm/shmem_cpuinfo.c:623 | a run after which deregister, reset and a limit of zero leave a CPU in use, because it is disabled |
| `CpuinfoWitnesses.OwnPetitionBreaksLimit` | src/LB_comm/shmem_cpuinfo.c:254-268 | an asynchronous run after which a limit of zero is broken by the own petition |
| `CpuinfoWitnesses.OwnRequestBreaksLeaving` | src/LB_comm/shmem_cpuinfo.c:242-252 | an asynchronous run after which a limit of zero and a public deregistration are undone by an own request |
| `CpuinfoEffects.OwnCpusFirst` | src/LB_comm/shmem_cpuinfo.c:1231-1416 | a process only takes a CPU that it does not own after reclaiming all of its own CPUs in the list, polling or asynchronous, and with SMT when each core has one owner |
| `CpuinfoEffects.CoreReclaims` | src/LB_comm/shmem_cpuinfo.c:1119-1145 | acquiring a core, of one owner or several, reclaims an own CPU in use by another or idle exactly when no CPU before it in the core stops the loop |
| `CpuinfoWitnesses.SharedCoreBorrowsFirst` | src/LB_comm/shmem_cpuinfo.c:1119-1145 | with SMT and a core of two owners, a run after which acquiring borrows a CPU while an own CPU stays lent |
| `CpuinfoSmtRuns.RegisterMaskCpus` | src/LB_comm/shmem_cpuinfo.c:405-442 | registering gives pid exactly the CPUs of the mask, busy, each with pid as guest unless somebody else uses it |
| `CpuinfoOccupied.ActKeepsIndex` | src/LB_comm/shmem_cpuinfo.c:200-1894 | each act keeps occupied_cores exact on one-CPU cores |
| `CpuinfoEffects.PostedIsOwed` | src/LB_comm/shmem_cpuinfo.c:1350-1388 | a petition adds exactly the missing CPUs to what the process is owed, or fails when the queue is full |
| `Cpuinfo.CpuTable.CoreIsEligible` | src/LB_comm/shmem_cpuinfo.c:133-156 | the loop over the core decides eligibility |
| `Cpuinfo.CpuTable.CoreIsOccupied` | src/LB_comm/shmem_cpuinfo.c:161-185 | the loop over the core decides occupation |
| `Cpuinfo.CpuTable.UpdateOccupiedCores` | src/LB_comm/shmem_cpuinfo.c:200-234 | in place: UpdateOccupied; what that amounts to is stated by HistoryKeepsIndex and UpdateLists |
| `Cpuinfo.CpuTable.FindNewGuest` | src/LB_comm/shmem_cpuinfo.c:236-272 | in place: FindNewGuest, with both queue loops; what that amounts to is stated by FirstInLine |
| `Cpuinfo.CpuTable.LendCpu` | src/LB_comm/shmem_cpuinfo.c:614-680 | in place: LendCpu, with the loop over the rest of the core; what that amounts to is stated by LendFree, LendTells, LendThenReclaim and FirstInLine |
| `Cpuinfo.CpuTable.LendCpuMask` | src/LB_comm/shmem_cpuinfo.c:721-759 | in place: LendMask; what that amounts to is stated by LendMaskOutcome and CallReaches |
| `Cpuinfo.CpuTable.ReclaimCpu` | src/LB_comm/shmem_cpuinfo.c:770-813 | in place: ReclaimCpu; what that amounts to is stated by ReclaimOutcome, LendThenReclaim and HandoverCycle |
| `Cpuinfo.CpuTable.ReclaimAll` | src/LB_comm/shmem_cpuinfo.c:843-877 | in place: ReclaimAll; what that amounts to is stated by ReclaimAllIsScan and ReclaimTook |
| `Cpuinfo.CpuTable.ReclaimCpuMask` | src/LB_comm/shmem_cpuinfo.c:991-1025 | in place: ReclaimMask; what that amounts to is stated by ReclaimMaskIsScan and ReclaimTook |
| `Cpuinfo.CpuTable.ReclaimCpus` | src/LB_comm/shmem_cpuinfo.c:939-989 | in place: ReclaimCpus, core by core; what that amounts to is stated by ReclaimCpusCount, ReclaimTook and HistoryKeepsSane |
| `Cpuinfo.CpuTable.AcquireCpu` | src/LB_comm/shmem_cpuinfo.c:1035-1117 | in place: AcquireCpu; what that amounts to is stated by AcquireIsReclaim, AcquireAsks, HandoverByAcquire and ActTells |
| `Cpuinfo.CpuTable.AcquireNcpus` | src/LB_comm/shmem_cpuinfo.c:1231-1416 | in place: AcquireNcpus; what that amounts to is stated by AcquireCount, AcquireTook, OwnCpusFirst and PostedIsOwed |
| `Cpuinfo.CpuTable.TakeWholeCore` | src/LB_comm/shmem_cpuinfo.c:1119-1145 | in place: TakeCore, the loop of acquire_core, borrow_core and reclaim_core; what that amounts to is stated by OwnCpusFirst, CoreReclaims and TakeArrayStarts |
| `Cpuinfo.CpuTable.TakeFromList` | src/LB_comm/shmem_cpuinfo.c:1147-1191 | in place: TakeArray, for acquiring and borrowing; what that amounts to is stated by TakesFirst, TakeArrayStarts and OwnCpusFirst |
| `Cpuinfo.CpuTable.BorrowCpu` | src/LB_comm/shmem_cpuinfo.c:1423-1465 | in place: BorrowCpu; what that amounts to is stated by BorrowOutcome, HandoverCycle and EarlyExitIsExact |
| `Cpuinfo.CpuTable.BorrowNcpus` | src/LB_comm/shmem_cpuinfo.c:1612-1680 | in place: BorrowNcpus, the early exit included; what that amounts to is stated by BorrowCount, BorrowTook and EarlyExitIsExact |
| `Cpuinfo.CpuTable.ReturnCpu` | src/LB_comm/shmem_cpuinfo.c:1689-1722 | in place: ReturnCpu; what that amounts to is stated by ReturnOutcome, HandoverCycle and ReturnAllSettles |
| `Cpuinfo.CpuTable.ReturnAll` | src/LB_comm/shmem_cpuinfo.c:1724-1750 | in place: ReturnAll, walking the live set; what that amounts to is stated by ReturnAllIsScan and ReturnAllSettles |
| `Cpuinfo.CpuTable.ReclaimOneCpu` | src/LB_comm/shmem_cpuinfo.c:879-937 | in place: ReclaimOne, which also disables the rest of the core; what that amounts to is stated by CallReaches and HistoryKeepsReclaimed |
| `Cpuinfo.CpuTable.ReturnCpuMask` | src/LB_comm/shmem_cpuinfo.c:1769-1787 | in place: ReturnEach over the occupied CPUs of the mask; what that amounts to is stated by CallReaches and HistoryKeepsFree |
| `Cpuinfo.CpuTable.ReturnAsyncCpu` | src/LB_comm/shmem_cpuinfo.c:1789-1808 | in place: ReturnAsync, the new request included; what that amounts to is stated by AsyncCycle, HistoryKeepsIndex and HistoryKeepsFree |
| `Cpuinfo.CpuTable.ReturnAsyncCpuMask` | src/LB_comm/shmem_cpuinfo.c:1825-1837 | in place: ReturnAsyncMask; what that amounts to is stated by CallReaches and HistoryKeepsFree |
| `Cpuinfo.CpuTable.DeregisterCpu` | src/LB_comm/shmem_cpuinfo.c:293-327 | in place: ForgetCpu; what that amounts to is stated by ForgetIndexed and ForgetProcessOutcome |
| `Cpuinfo.CpuTable.DeregisterProcess` | src/LB_comm/shmem_cpuinfo.c:537-548 | in place: ForgetProcess; what that amounts to is stated by ForgetProcessOutcome, ForgetProcessIndexed and HistoryKeepsFree |
| `Cpuinfo.CpuTable.TransferCpu` | src/LB_comm/shmem_cpuinfo.c:2000-2077 | in place: OwnCpu; what that amounts to is stated by OwnCpuOutcome and ActKeepsFree |
| `Cpuinfo.CpuTable.UpdateOwnership` | src/LB_comm/shmem_cpuinfo.c:1992-2081 | in place: OwnFrom; what that amounts to is stated by OwnershipOutcome and HistoryKeepsFree |
| `Cpuinfo.CpuTable.CheckCpuAvailability` | src/LB_comm/shmem_cpuinfo.c:2162-2191 | in place: CheckCpu; what that amounts to is stated by CheckOutcome and HistoryKeepsFree |
| `Cpuinfo.CpuTable.RegisterProcess` | src/LB_comm/shmem_cpuinfo.c:405-442 | in place: RegisterProcess, check first; what that amounts to is stated by RegisterOutcome, RegisterMaskCpus and RegisterExclusive |
| `Cpuinfo.CpuTable.EnableRequestQueues` | src/LB_comm/shmem_cpuinfo.c:2202-2207 | from here on the asynchronous branches run; what that amounts to is stated by HistoryKeepsFree and HistoryKeepsIndex |
| `Cpuinfo.CpuTable.RemoveRequests` | src/LB_comm/shmem_cpuinfo.c:2209-2229 | in place: RemoveRequests; what that amounts to is stated by RemovedIsUnasked and CallReaches |
| `Cpuinfo.CpuTable.Deregister` | src/LB_comm/shmem_cpuinfo.c:1846-1894 | in place: Deregister; what that amounts to is stated by DeregisterExact and LeaveExclusive |
| `Cpuinfo.CpuTable.Reset` | src/LB_comm/shmem_cpuinfo.c:1898-1935 | in place: Reset; what that amounts to is stated by ResetExact |
| `Cpuinfo.CpuTable.UpdateMaxParallelism` | src/LB_comm/shmem_cpuinfo.c:1938-1987 | in place: UpdateMax, both passes; what that amounts to is stated by UpdateMaxExact and MaxParallelismHolds |
| `BarrierInvariant.EnrolEffect` | src/LB_comm/shmem_barrier.c:226-333 | registering a name gives a live slot of that name with one participant more, and fails only when every slot is in use under another name |
| `BarrierInvariant.JoinEffect` | src/LB_comm/shmem_barrier.c:338-376 | attaching adds one participant and returns the new number, or is refused exactly on a slot not in use |
| `BarrierInvariant.PartEffect` | src/LB_comm/shmem_barrier.c:380-455 | detaching removes one participant, empties and compacts the table after the last one, or is refused exactly on a slot not in use |
| `BarrierInvariant.Pigeonhole` | src/LB_core/node_barrier.c:272-328 | a full private list holds every slot of the table |
| `BarrierRuns.EnrolledIsNew` | src/LB_core/node_barrier.c:161-218 | the slot that a registration gives is not yet in the caller's list |
| `BarrierRuns.RegisterKeeps` | src/LB_core/node_barrier.c:161-218 | registering keeps the invariant, never overflows the list, and returns a live slot of that name that is in the list |
| `BarrierRuns.AttachKeeps` | src/LB_core/node_barrier.c:272-328 | attaching keeps the invariant and never writes past the end of the list |
| `BarrierRuns.AttachDefaultReply` | src/LB_core/node_barrier.c:278-290 | attaching the default barrier fails exactly when every slot is in use under another name; otherwise it answers 1, which is the number of participants if and only if no slot held the barrier before |
| `BarrierRuns.AttachMiscounts` | src/LB_core/node_barrier.c:278-290 | a run after which it answers 1 and there are 2 participants |
| `BarrierRuns.DetachKeeps` | src/LB_core/node_barrier.c:330-388 | detaching keeps the invariant, the shift of the list included |
| `BarrierEffects.DetachEffect` | src/LB_core/node_barrier.c:330-388 | detaching is refused exactly when the process does not hold the barrier; otherwise that slot alone loses a participant, the answer is the number left, that pointer leaves the list, the others keep their order, and the default changes only if it was the one |
| `BarrierEffects.RegisterEffect` | src/LB_core/node_barrier.c:161-218 | a name that the process holds changes nothing; otherwise the process enters the slot of that name, or the first unused one, and has it last in its list; refused exactly when every slot is in use under another name |
| `BarrierEffects.AttachEffect` | src/LB_core/node_barrier.c:272-328 | attaching is refused exactly for a barrier that the process holds or nobody uses; otherwise that slot alone gains a participant |
| `BarrierEffects.InitEffect` | src/LB_core/node_barrier.c:97-139 | initialising enters the default barrier with an empty list, once |
| `BarrierEffects.FinalizeEffect` | src/LB_core/node_barrier.c:141-159 | finalizing leaves every barrier as often as the process uses it, and changes nothing else |
| `BarrierRuns.FinalizeKeeps` | src/LB_core/node_barrier.c:141-159 | finalizing leaves every barrier and keeps the invariant |
| `BarrierRuns.RunKeeps` | src/LB_core/node_barrier.c:97-388 | in every crash-free run participants are the users of the slot, live names are unique, slots past num are empty and every list is a gap-free prefix of distinct pointers |
| `BarrierRuns.AllGone` | src/LB_comm/shmem_barrier.c:380-455 | once every process has finalized the table is as it was created |
| `BarrierRuns.Rendezvous` | src/LB_comm/shmem_barrier.c:226-333 | two processes get the same slot exactly when their names agree as stored |
| `BarrierRuns.RegisterAgain` | src/LB_core/node_barrier.c:161-218 | registering a name again returns the same pointer and adds no participant |
| `Barrier.BarrierTable.Find` | src/LB_comm/shmem_barrier.c:205-220 | the search loop |
| `Barrier.BarrierTable.Register` | src/LB_comm/shmem_barrier.c:226-333 | in place: Enrol; what that amounts to is stated by EnrolEffect and Rendezvous |
| `Barrier.BarrierTable.Attach` | src/LB_comm/shmem_barrier.c:338-376 | in place: Join; what that amounts to is stated by JoinEffect |
| `Barrier.BarrierTable.Detach` | src/LB_comm/shmem_barrier.c:380-455 | in place: Part, with the compaction loop; what that amounts to is stated by PartEffect |
| `Barrier.NodeBarrier.Init` | src/LB_core/node_barrier.c:97-139 | in place: NodeInit; what that amounts to is stated by InitEffect and RunKeeps |
| `Barrier.NodeBarrier.Register` | src/LB_core/node_barrier.c:161-218 | in place: NodeRegister; what that amounts to is stated by RegisterEffect, RegisterKeeps and RegisterAgain |
| `Barrier.NodeBarrier.Attach` | src/LB_core/node_barrier.c:272-328 | in place: NodeAttach; what that amounts to is stated by AttachEffect and AttachDefaultReply |
| `Barrier.NodeBarrier.Detach` | src/LB_core/node_barrier.c:330-388 | in place: NodeDetach; what that amounts to is stated by DetachEffect and DetachKeeps |
| `Barrier.NodeBarrier.Finalize` | src/LB_core/node_barrier.c:141-159 | in place: NodeFinalize; what that amounts to is stated by FinalizeEffect and AllGone |
| `MngoCores.PeelSplits` | src/LB_comm/shmem_mngo.c:541-562 | taking k cores splits a mask of whole cores in two, moves exactly k of them or reports exactly how many are missing |
| `MngoRedistribute.StepKeeps` | src/LB_comm/shmem_mngo.c:524-615 | each release and each receive keeps the CPUs in one place, whole, and the pool in balance |
| `MngoRedistribute.RedistributionIsExact` | src/LB_comm/shmem_mngo.c:518-615 | every order of givers and then receivers ends with an empty pool, the same CPUs in disjoint masks of whole cores, and each count changed by exactly its delta |
| `MngoRedistribute.NeverStuck` | src/LB_comm/shmem_mngo.c:575-576 | until all are done some manager can move |
| `MngoRedistribute.RunCompletes` | src/LB_comm/shmem_mngo.c:524-615 | every order ends: none is longer than two steps a manager, and exactly those of that length leave all done |
| `MngoRedistribute.FatalExactly` | src/LB_comm/shmem_mngo.c:559-562 | a giver hits the fatal error exactly when asked for more cores than it has |
| `MngoExchange.ReaderSees` | src/LB_comm/shmem_mngo.c:416-424 | while a manager reads, every entry holds its manager's delta of that round |
| `MngoExchange.AllReadTheRound` | src/LB_comm/shmem_mngo.c:398-440 | in every interleaving of every round all managers read the vector of that round's deltas, zero for free slots |
| `MngoExchange.CleanUpNeverOverlaps` | src/LB_comm/shmem_mngo.c:426-440 | while manager 0 cleans up nobody reads and nobody has begun to write for the next round |
| `MngoExchange.EntriesAreCleared` | src/LB_comm/shmem_mngo.c:426-440 | in every reachable state: when manager 0 has cleaned up, every entry is zero but those already written for the next round, and whoever begins a round but the first finds its own entry zero |
| `MngoExchange.RoundsComplete` | src/LB_comm/shmem_mngo.c:398-440 | every round completes: in any run long enough, whatever the order, every manager has finished that many rounds |
| `MngoExchange.StepAdvances` | src/LB_comm/shmem_mngo.c:398-440 | every enabled step brings its manager further and no other |
| `MngoExchange.NeverStuck` | src/LB_comm/shmem_mngo.c:303-305 | the barrier never keeps everybody waiting |
| `Mngo.MngoTable.MoveCores` | src/LB_comm/shmem_mngo.c:541-562 | the loop that moves cores, last CPU first, is Peel |
| `Mngo.MngoTable.Release` | src/LB_comm/shmem_mngo.c:534-573 | in place: Release, fatal exactly when cores are missing; what that amounts to is stated by RedistributionIsExact, RunCompletes and FatalExactly |
| `Mngo.MngoTable.Receive` | src/LB_comm/shmem_mngo.c:579-615 | in place: Receive; what that amounts to is stated by RedistributionIsExact and RunCompletes |
| `Mngo.MngoTable.Collect` | src/LB_comm/shmem_mngo.c:416-424 | the vector read is entry by entry the delta, or zero without a process; what that amounts to is stated by AllReadTheRound |
| `Mngo.MngoTable.CleanUp` | src/LB_comm/shmem_mngo.c:428-437 | manager 0 clears every entry, the others none; what that amounts to is stated by EntriesAreCleared |
| `HelperRing.EnqueueAppends` | src/LB_comm/shmem_async.c:108-137 | an accepted message goes last, messages are discarded exactly after a JOIN, and the ring is full exactly at QUEUE_SIZE - 1 |
| `HelperRing.DequeueRemoves` | src/LB_comm/shmem_async.c:139-156 | the oldest message comes out |
| `HelperRing.RingIsFifo` | src/LB_comm/shmem_async.c:108-156 | in every run handled followed by waiting is accepted, in order, and nothing is accepted after a JOIN |
| `HelperRing.ExitsWhenAllHandled` | src/LB_comm/shmem_async.c:158-213 | the helper only ends after handling every accepted message once, in order, the JOIN last |
| `HelperRing.NoBlockAfterJoin` | src/LB_comm/shmem_async.c:158-213 | after a JOIN is accepted the helper never blocks |
| `Helper.HelperQueue.EnqueueMessage` | src/LB_comm/shmem_async.c:108-137 | in place on the array: Enqueue; what that amounts to is stated by EnqueueAppends |
| `Helper.HelperQueue.DequeueMessage` | src/LB_comm/shmem_async.c:139-156 | in place on the array: waits while the ring is empty and senders enqueue, then Dequeue; blocked exactly when nobody else comes; what that amounts to is stated by DequeueRemoves |
| `Helper.HelperQueue.RunHelper` | src/LB_comm/shmem_async.c:158-213 | the helper loop handles the contents of the ring and what arrives while it waits, in order, up to the JOIN; it ends exactly when it has handled a JOIN; what that amounts to is stated by RingIsFifo and ExitsWhenAllHandled |
| `HelperRace.EnqueueIsTestThenPut` | src/LB_comm/shmem_async.c:108-137 | the atomic enqueue is the test of the flag followed by the part under the lock |
| `HelperRace.RunKeeps` | src/LB_comm/shmem_async.c:108-156 | in every interleaving of senders between their test and their lock, handled followed by waiting is accepted, in order |
| `HelperRace.LateWereInside` | src/LB_comm/shmem_async.c:108-137 | once a JOIN is in, whatever is accepted comes from senders that had passed the test before, each at most once |
| `HelperRace.JoinIsFinal` | src/LB_comm/shmem_async.c:108-137 | nothing can be accepted after a JOIN if and only if no sender is between its test and its lock, or the helper has ended and the ring is full |
| `HelperRace.AcceptedAndLost` | src/LB_comm/shmem_async.c:108-213 | an interleaving in which a message is accepted after the helper has ended |
| `ResolveTasks.GroupedMeans` | src/LB_policies/lewi_mask.c:236-315 | what the grouped calls leave enabled for a process and a CPU |
| `ResolveTasks.OneByOneMeans` | src/LB_policies/lewi_mask.c:246-271 | what running the tasks one by one leaves enabled: the last task decides |
| `ResolveTasks.GroupingPreservesMeaning` | src/LB_policies/lewi_mask.c:224-315 | for every order the sort may choose, grouped delivery leaves the same CPUs enabled as delivering one by one exactly when nothing a process is asked to disable is enabled again later in the list |
| `ResolveTasks.GroupingDisables` | src/LB_policies/lewi_mask.c:224-315 | two tasks that grouped delivery resolves to the opposite |
| `ResolveTasks.NoConflictIsEnough` | src/LB_policies/lewi_mask.c:224-315 | in particular when no process is asked both to enable and to disable a CPU |
| `ResolveTasks.EachTaskOnce` | src/LB_policies/lewi_mask.c:224-315 | every task of a served process is carried by exactly one call, calls carry nothing else, and no process gets two calls of a kind |
| `ResolveTasks.Resolve` | src/LB_policies/lewi_mask.c:224-315 | the loops compute those calls, in order; what that amounts to is stated by GroupingPreservesMeaning and EachTaskOnce |
| `ResolveTasks.Gather` | src/LB_policies/lewi_mask.c:273-284 | the loop that collects the CPUs of a group |

## Left out

- Synchronous stealing, its polling and its timeout roll-back in DROM: the lock is dropped midway.
- Crash clean-up callbacks, kill() probing and the parent-pid lookup; operations on an existing process take its slot, whichever lookup led to it.
- Shared memory and barrier set-up, version checks, printing, tracing, verbose output, usage statistics and timestamps; the last_borrow shortcut of acquire and borrow, and max_parallelism when it only limits the wanted number of CPUs.
- The lock itself: every locked operation is one atomic step. HelperRace separates the test of `joinable`, which the source makes outside the lock; the barrier search, which it also makes outside its lock, is atomic here.
- 32-bit wrap-around of counters: counts are natural numbers. No counter is shown to go below zero; overflow is not modelled.
- The order that qsort gives to equal elements: LewiQueue uses a stable order; ResolveTasks holds for every order.
- FirstAttachClears: processes attach once each; a second attach under the same pid is not modelled.
- cpu_sharing_unknown and the mixing of sharing modes in DROM: a table is created with its sharing mode, and the partition is stated with sharing off.
- A null process mask in DROM registration: masks are sets, the empty one included.
- HistoryKeepsIndex: update_ownership, check_cpu_availability and a direct deregistration that gives up borrowed CPUs are outside it, because they do not maintain occupied_cores.
- HistoryKeepsSane: polling mode and whole-core masks only; stealing registration, update_ownership, check_cpu_availability and direct deregistration are outside it.
- DeregisterExact: with SMT and requests of the process on its own CPUs, which the exact condition of DeregisterOwnRequest covers on one-CPU cores only: there the outcome depends on the order in which the CPUs of a core are lent.
- UpdateMaxExact, MaxParallelismHolds: they assume that no petition or request of the process can give a CPU back to it; with such a petition or request the limit can be broken, and the outcome then depends on every queue.
- OwnCpusFirst: with SMT it asks that each core has one owner; for shared cores CoreReclaims says core by core which own CPUs are reclaimed.
- RunTells, NeverShared: the processes stay attached; registration, leaving, deregistration and update_ownership, which hand over CPUs that are in use without asking their guests, are outside them. Whom update_ownership tells is stated by OwnCpuOutcome.
- TakesFirst, BorrowCount, AcquireCount: without SMT. With SMT a core is taken as a whole; TakeArrayStarts states the count in every topology, and CoreReclaims where the loop over a core stops.
- BorrowCount: without --priority=spread-ifempty, whose second list comes from a NUMA query.
- LendMaskOutcome: polling mode; in asynchronous mode FirstInLine and LendTells state who gets a lent CPU and who is told.
- update_ownership with a null task array, and the NUMA node query of spread-ifempty, which is a parameter.
- return_async after a disable message to another process is an operation of the CPU table and not part of ResolveTasks.
- The barrier wait itself, its ntimes and count values, and LeWI inside a barrier.
- RunHelper: messages that arrive while the helper is busy; arrivals come while it waits, and HelperRing and HelperRace cover the other interleavings.
- Classic LeWI, TALP, the OpenMP thread managers, the API forwarding files, option parsing and the scripts.
