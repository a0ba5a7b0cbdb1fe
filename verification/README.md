# MTRDMA accounting and admission, verified

MTRDMA intercepts RDMA verbs in every process of a machine, checks them against per-process, global
and tenant limits, and keeps the accounting in two shared-memory segments. A daemon reclaims the
accounting of dead processes. This project models that logic in Dafny 4.11 and proves what it keeps,
over every interleaving of the processes' steps where processes interleave.

`dafny verify dfyconfig.toml` checks the whole project.

| file | models |
|---|---|
| `Common.dfy`, `Sums.dfy` | machine integers and searches; sums over sequences, which the totals are compared with |
| `ProcessTable.dfy` | the accounting table: lookup, update with pid-reuse detection, clearing, attaching |
| `Collector.dfy` | the collector: exit events, the scan, registrations |
| `Watching.dfy` | which processes the collector watches, and that their exit events free their entries |
| `Admission.dfy` | QP admission by many processes at once, with pid reuse, deaths and the collector |
| `Overshoot.dfy` | runs of that machine that reach the overshoot bound |
| `Refusals.dfy` | runs of that machine in which commits find no slot |
| `Forgetting.dfy` | runs of that machine in which a starting process initialises entries away |
| `Limits.dfy` | when the two QP limits are kept, exactly |
| `Anchors.dfy` | what a living process with an entry prevents, and how its entry locks it out |
| `Tenants.dfy` | the tenant registry |
| `TenantQuota.dfy` | tenant quotas: atomic allocation against split reads and writes of usage |
| `Hooks.dfy` | the intercepted verbs of one process as whole calls |
| `MemoryRegions.dfy` | a process's registrations and deregistrations over time, with quota and rate limiter |
| `Daemon.dfy` | a process's exit, with the adjustment of its tenant |
| `Batch.dfy` | the write-back buffer in front of the table |
| `Cache.dfy` | the direct-mapped usage cache and its hash |
| `RateLimiter.dfy` | the fixed-window MR rate limiter |
| `PolicyFile.dfy` | printing and parsing the policy file |

Every operation is written twice: as a function on values, and, where the source updates memory in
place, as a method of a class on arrays and fields whose contract says that it computes that function.
The theorems are about the functions and the runs made of them.

## How the system is modelled

- A lock-protected section is one step; an unlocked read is a step of its own, and so is the unlocked
  initialisation that a process performs when it has read zero totals on attaching. Every process
  attaches before its first verb. A daemon that is started while processes run attaches too, and then
  counts as one of the programs below.
- The collector holds the lock over a whole scan, but births and deaths may fall inside it. So a scan is
  one step per slot, which allows more runs than there are; the runs that are shown to exist scan the
  whole table at a time (`Swept`).
- Answers from outside are parameters: start times, whether `pidfd_open` worked, whether `/proc` shows
  a process running, clock readings, whether the real verb worked. In `Admission`, `Enabled` says which
  answers are truthful: a pid reported dead has no living process, a pidfd refers to the living process
  of its pid if there is one, an exit event comes only after the exit.
- No two processes ever have the same pid and the same start time, and start times are not 0.
- The numbers of slots, tenants, mappings and buffer entries are arbitrary; the cache's 256 lines and
  the line and key lengths of the policy file are fixed as in the source.
- Memory totals are kept modulo 2^64, comparisons of counts with limits are in 32-bit unsigned
  arithmetic, and cache ages in 64-bit unsigned arithmetic, as in the source.
- "At most n processes alive at once" is the length of `seats`; processes are single-threaded, and a
  process starts with zero counters.

## What is false, and when it holds

- Over all runs of n programs, both QP limits are kept if and only if a limit is 0, or n = 1 and there are
  at least max_global_qp slots (`ProcessLimitExactly`, `GlobalLimitExactly`). In every other case one process
  can come to have any number of QPs (`Unlimited`), for one of two reasons.
- Forgotten commits: a process that starts reads the totals and initialises the table without the lock.
  If a commit falls in between, it is gone (`UpdateLostToAttach`), and two programs are enough to do this
  without end in any table (`ForgottenCommitsEvadeTheLimits`). Nothing is forgotten in runs in which no
  commit falls between a reading of zero and its initialisation (`UndisturbedNeverForgets`), nor from the
  moment on that some process has an entry and nobody is about to initialise, as long as that process
  lives (`AnchoredBounds`). In such runs a living process's entry changes only by its own commits; in
  general exactly an initialisation changes it besides (`LivingKeepTheirSlot`).
- Refused commits: in runs that forget nothing, the per-process limit is kept if and only if the table is
  roomy, slots >= max_global_qp + n - 1 (`ProcessLimitIfRemembered`). In any other table a commit can be
  refused as soon as one pid more is used than there are slots (`RefusalExactly`), and one process can come
  to have any number of QPs (`RefusedCommitsEvadeTheLimits`). With the defaults, 1024 slots and
  max_global_qp = 1000, the table is roomy up to n = 25.
- Even in a roomy table, with nothing forgotten, the global limit can be overshot, because the check and the
  commit are apart. The most QPs ever alive are then exactly
  min(max_global_qp + n - 1, n * max_qp_per_process) (`PeakIsExact`), so the limit is kept if and only if
  n = 1, or n * max_qp_per_process <= max_global_qp, or it is 0 (`GlobalLimitIfRemembered`). With the
  defaults, 100 and 1000, that is up to n = 10.
- Destroying a QP frees nothing for the checks: a living process whose entry is at max_qp_per_process never
  creates again, even with no QP left (`LockedOut`, `LockedOutWithNothing`), and once the entries of living
  processes reach max_global_qp nobody does (`AllLockedOut`).
- An exit event can reap a living process that reused the pid; `TakeoverSurvivesExit` says exactly when.
- Attaching is harmless if and only if it reads a total that is not zero, or nothing is charged to anyone
  when it initialises (`AttachHarmless`). With nothing in between, that fails only by a memory total that
  wrapped to zero (`UndisturbedAttachHarmless`, `AttachForgetsWrappedMemory`). The initialisation itself is
  not atomic: an update that falls inside it can leave totals that charge nobody (`UpdateInsideAttach`), so
  `Conservation` takes it as one step. The bounds for one program, for undisturbed and for anchored runs do
  not depend on that: there the table is blank throughout every initialisation.
- After a process's exit its tenant's QP count is that of the remaining processes if and only if the entry
  recorded no more than the process had, or nobody else of the tenant had any: `ExitKeepsTenantExact`, and
  `CountsOverExits` over runs. A QP destroyed since the last create is given back twice
  (`DestroyedThenExited`).
- A tenant's QP count is exact when hook calls do not overlap (`SerialCountsAreExact`); when they do, no
  quota limits the QPs granted (`OverlappingCallsLoseGrants`), although the recorded count stays within
  bounds (`QuotaSafety`). `WriteBackIsExact` says exactly when one stale write loses something.
- A tenant's memory quota does not limit what a tenant holds (`MemoryQuotaNeverFills`); it limits single
  registrations, exactly as `MemoryQuotaIsPerRegion` says.
- Process lists agree with the mappings until a bound pid is moved to another tenant, and exactly until
  then: `BindAgreement`. Calls with pid 0, or setting a tenant inactive, break the registry exactly as
  `ImproperOps` says.
- A comment in the policy file of more than 254 characters is not skipped to its end: `LongCommentLeaks`.
- Turning batching off with entries pending loses a direct update exactly when the pid has an entry:
  `DirectUpdateUnderPending`.
- The policy file restores the memory limit exactly when it is below 2^32 MiB: `SecondSaveIdentical`.
- The comment at src/rdma_hooks_tenant.c:501 says that a queue-depth limit of 0 means no limit; the check
  at lines 441-450 refuses every positive depth under it. The model follows the code (`ClippingMatters`).

## Model

| member | source | states |
|---|---|---|
| ProcessTable.SharedTable.UpdateProcess | src/shm/shared_memory.c:184-246 | the method on arrays does what `Update` says: existing slot, reused pid, new slot, no slot |
| ProcessTable.SharedTable.FindSlot | src/shm/shared_memory.c:191-201 | the loop finds the first slot of the pid, or else the first free one |
| ProcessTable.SharedTable.GetProcess | src/shm/shared_memory.c:142-162 | refuses non-positive pids, and reports the usage of the pid's slot or zero |
| ProcessTable.SharedTable.ClearEntry | src/shm/shared_memory.c:286-309 | empties an occupied slot, returns what it held, subtracts it from the totals; refuses otherwise |
| ProcessTable.SharedTable.Reattach | src/shm/shared_memory.c:56-85 | re-initialises all slots exactly when all three totals are zero |
| ProcessTable.UpdateRefinesPut | src/shm/shared_memory.c:184-246 | an update is a map put: own entry set, every other lookup unchanged, refused exactly when the pid is not positive or has no slot and none is free; the invariant is kept |
| ProcessTable.UpdateIgnoresStartTime | src/shm/shared_memory.c:203-237 | the start time read changes nothing but the stored start time: reuse branch and ordinary branch account alike |
| ProcessTable.StoredStartTime | src/shm/shared_memory.c:203-220 | a known start time is replaced only by another that was read, never by a failed reading; an unknown one stays; a new entry takes what was read |
| ProcessTable.NoUnderflow | src/shm/shared_memory.c:209-211 | every slot's counts are non-negative and within the totals, and so is its memory while the true sum fits in 64 bits: no subtraction goes below zero |
| ProcessTable.ClearRefinesRemove | src/shm/shared_memory.c:286-309 | clearing removes the entry's pid and touches no other; refused exactly outside the table and for free slots |
| ProcessTable.ClearUndoesUpdate | src/shm/shared_memory.c:184-309 | clearing the entry just made for a new pid restores the whole table |
| ProcessTable.SharedTable.Initialise | src/shm/shared_memory.c:60-84 | blanks all slots and totals, whatever the table holds |
| ProcessTable.AttachKeepsTotals | src/shm/shared_memory.c:56-85 | attaching, read in one table and initialising another, keeps the invariant, and keeps the totals if and only if it initialises nothing or they are zero at that moment |
| ProcessTable.AttachHarmless | src/shm/shared_memory.c:56-85 | attaching, read in one table and initialising another, changes no process's lookup if and only if a total read was not zero or nothing is charged to anyone when it initialises |
| ProcessTable.UndisturbedAttachHarmless | src/shm/shared_memory.c:56-85 | with nothing in between, if and only if it is not the case that all totals read zero with a true memory sum past 64 bits |
| ProcessTable.UpdateLostToAttach | src/shm/shared_memory.c:57-85 | any successful update between the reading of zero totals and the initialisation is forgotten, although attaching at the reading would have been harmless |
| ProcessTable.UpdateInsideAttach | src/shm/shared_memory.c:60-73 | an update after the totals are zeroed and before its slot is blanked leaves totals that charge nobody, and breaks the invariant if and only if it changed a share |
| ProcessTable.AttachForgetsWrappedMemory | src/shm/shared_memory.c:57-72 | in every table whose memory total wrapped to zero with nothing else charged, attaching forgets a process that holds memory |
| ProcessTable.MemoryCanWrap | src/shm/shared_memory.c:57-72 | such tables exist: two processes with 2^63 bytes each |
| Collector.GarbageCollector.OnExit | src/collector_server_shm.c:239-261 | the slot is freed exactly when it is still the registered process's, as `HandleExit` says; reports that process and its usage |
| Collector.GarbageCollector.Register | src/collector_server_shm.c:169-200 | a slot's registration becomes the new pidfd with pid and start time, or closed |
| Collector.GarbageCollector.ScanOne | src/collector_server_shm.c:297-380 | one iteration of the scan does what `ScanSlot` says, in all four situations |
| Collector.GarbageCollector.ScanAndRegister | src/collector_server_shm.c:291-382 | the scan loop is `ScanSlot` applied to every slot in order |
| Collector.Conservation | src/shm/shared_memory.c:184-309 | over every run of updates with non-negative counts, clears, initialisations as one step, exit events and scans the totals are the sums over slots (memory modulo 2^64), pids are unique, free slots blank, counts within totals |
| Collector.ScanPrefixAt | src/collector_server_shm.c:297-380 | a scan treats every slot by itself |
| Collector.RankStep | src/collector_server_shm.c:230-382 | for a dead pid a scan lowers the rank (mismatched 3, unregistered 2, matched 1, gone 0), and no event, update, clear or initialisation raises it |
| Collector.BoundedReclamation | src/collector_server_shm.c:291-418 | after three scans the entry of a process that stays dead is gone, whatever pidfd_open answers and whatever happens in between, from any registration state |
| Collector.ThreeScansCanBeNeeded | src/collector_server_shm.c:337-379 | a run from the zeroed start-up table where two scans are not enough and three are |
| Collector.TakeoverSurvivesExit | src/collector_server_shm.c:240-256 | a namesake's accounting survives the old owner's exit event if and only if its start time was read, one was stored, and they differ |
| Watching.ScanMeans | src/collector_server_shm.c:291-382 | a scan frees a slot exactly if its process is not running and was watched or could not be; afterwards every entry whose pidfd opened is watched, watched running processes keep their descriptor, and no free slot has one |
| Watching.ExitMeans | src/collector_server_shm.c:230-288 | an exit event frees exactly an entry of the registered process, closes the registration, and touches nothing else |
| Watching.WatchedUntilExit | src/collector_server_shm.c:230-382 | once a scan has found a process running and opened its pidfd, its entry stays watched through everything that leaves the entry its own, and its exit event frees it |
| Admission.CollectorSafety | src/collector_server_shm.c:230-382 | in every reachable state an exit event or scan changes a slot only by freeing it, and only if the process that wrote it is dead |
| Admission.LivingKeepTheirSlot | src/shm/shared_memory.c:203-215 | in every reachable state a step other than its own commit changes the slot a living process wrote if and only if it is the initialisation of a process that read zero totals |
| Admission.RunIdentity | src/shm/shared_memory.c:203-220 | over every run, a slot's pid and start time are its last writer's, and a pidfd refers to the process its registration names if that is alive |
| Admission.NeverRefused | src/shm/shared_memory.c:216-225 | in a table with slots >= max_global_qp + n - 1, or under a limit of 0, no commit of any run whose total fits a C int is refused, forgotten commits or not |
| Admission.UndisturbedNeverForgets | src/shm/shared_memory.c:56-85 | in runs in which no commit falls between a reading of zero totals and its initialisation, no initialisation removes an entry |
| Admission.GlobalOvershootBound | src/rdma_hooks_tenant.c:452-546 | over every interleaving that forgets nothing, in a roomy table, or in any table without a refused commit, live QPs are at most recorded plus in-flight ones, those at most max_global_qp + n - 1, and live QPs at most n * max_qp_per_process |
| Admission.PerProcessExactness | src/rdma_hooks_tenant.c:427-438 | over the same runs no process has more than max_qp_per_process QPs, its local count is its QPs between calls, and the table charges at least that outside create-to-commit |
| Overshoot.PeakIsReached | src/rdma_hooks_tenant.c:452-546 | for all limits and every n, in any table with a slot for each process, some run with every commit recorded and nothing forgotten ends with min(max_global_qp + n - 1, n * max_qp_per_process) QPs alive |
| Refusals.RefusedCommitsEvadeTheLimits | src/rdma_hooks_tenant.c:535-546 | in every table that is not roomy, for every q, some run that forgets nothing and scans the whole table at a time gives one process q QPs |
| Refusals.RefusalExactly | src/shm/shared_memory.c:216-225 | some run within a given number of pids whose total fits a C int has a refused commit if and only if that number exceeds the slots and the table is not roomy |
| Forgetting.ForgottenCommitsEvadeTheLimits | src/shm/shared_memory.c:56-85 | with two programs that attach, any positive limits and any table, for every q, some run gives one process q QPs |
| Limits.PeakIsExact | src/rdma_hooks_tenant.c:452-546 | in a roomy table the most QPs ever alive in runs that forget nothing are exactly min(max_global_qp + n - 1, n * max_qp_per_process) |
| Limits.ProcessLimitIfRemembered | src/rdma_hooks_tenant.c:427-438 | max_qp_per_process is kept in every run that forgets nothing if and only if the table is roomy |
| Limits.GlobalLimitIfRemembered | src/rdma_hooks_tenant.c:452-460 | max_global_qp is kept in every run that forgets nothing if and only if the table is roomy and there is one process, or n * max_qp_per_process <= max_global_qp, or it is 0 |
| Limits.Unlimited | src/rdma_hooks_tenant.c:427-460 | unless a limit is 0, or there is one program and a slot for each QP it may have, one process reaches any number of QPs |
| Limits.ProcessLimitExactly | src/rdma_hooks_tenant.c:427-438 | max_qp_per_process is kept in every run if and only if a limit is 0, or there is one program and slots >= max_global_qp |
| Limits.GlobalLimitExactly | src/rdma_hooks_tenant.c:452-460 | max_global_qp is kept in every run under exactly the same condition |
| Anchors.AnchoredBounds | src/shm/shared_memory.c:57-59 | from a moment on at which nothing is forgotten, nobody is about to initialise and a process has an entry, nothing is forgotten or refused in a roomy table and both bounds hold, as long as that process lives |
| Anchors.LockedOut | src/rdma_hooks_tenant.c:427-438 | over every continuation a living process whose entry is at max_qp_per_process never gets past the check again, and its QPs never become more |
| Anchors.LockedOutWithNothing | src/rdma_hooks_tenant.c:773-800 | some run leads to such a state with no QP left |
| Anchors.AllLockedOut | src/rdma_hooks_tenant.c:452-460 | once the entries of living processes reach max_global_qp with nothing in flight, over every continuation in which they live no create is in flight again |
| Tenants.TenantRegistry.CreateTenant | src/shm/shared_memory_tenant.c:127-176 | does what `Create` says, default quota included |
| Tenants.TenantRegistry.DeleteTenant | src/shm/shared_memory_tenant.c:179-218 | does what `Delete` says |
| Tenants.TenantRegistry.UnmapAll | src/shm/shared_memory_tenant.c:199-206 | the loop blanks exactly the tenant's mappings and counts them off |
| Tenants.TenantRegistry.SetTenantStatus | src/shm/shared_memory_tenant.c:242-268 | does what `SetStatus` says |
| Tenants.TenantRegistry.SetTenantQuota | src/shm/shared_memory_tenant.c:271-297 | does what `SetQuota` says |
| Tenants.TenantRegistry.Search | src/shm/shared_memory_tenant.c:320-332 | the loop finds the pid's mapping, or else the first free one |
| Tenants.TenantRegistry.BindProcess | src/shm/shared_memory_tenant.c:300-369 | does what `Bind` says: new binding, rebinding, refusals |
| Tenants.TenantRegistry.UnbindProcess | src/shm/shared_memory_tenant.c:372-417 | does what `Unbind` says |
| Tenants.TenantRegistry.GetProcessTenant | src/shm/shared_memory_tenant.c:420-444 | reports the tenant of the pid's mapping, or none and tenant 0 |
| Tenants.TenantRegistry.TryAllocateQp | src/shm/shared_memory_tenant.c:561-595 | does what `TryAllocate` says |
| Tenants.TenantRegistry.GetResourceUsage | src/shm/shared_memory_tenant.c:475-499 | copies the usage of an active tenant |
| Tenants.TenantRegistry.UpdateResourceUsage | src/shm/shared_memory_tenant.c:447-472 | overwrites the usage of an active tenant |
| Tenants.RegistryRefinement | src/shm/shared_memory_tenant.c:127-444 | over every run of proper calls (no pid 0, no status inactive) all answers are those of a map of bindings, lookup is the last bind not undone, mappings point to existing tenants, tenant 0 never exists, both counters are exact |
| Tenants.ImproperOps | src/shm/shared_memory_tenant.c:242-417 | calls with pid 0 or status inactive keep the invariant exactly when refused, or for an unbind when nothing is bound |
| Tenants.BindAgreement | src/shm/shared_memory_tenant.c:342-361 | a bind keeps lists and mappings in agreement if and only if it moves no bound pid to another tenant |
| Tenants.RoomInList | src/shm/shared_memory_tenant.c:353-361 | while a mapping slot is free, the insertion loop finds a free list entry |
| Tenants.ProcessListAgreement | src/shm/shared_memory_tenant.c:320-404 | over every run without such moves each existing tenant's count and list are exactly the pids mapped to it, without repetition |
| TenantQuota.QuotaSafety | src/rdma_hooks_tenant.c:287-318 | over every interleaving recorded QP counts and all held copies, edited or not, stay between 0 and the largest quota ever installed for the id |
| TenantQuota.GrantsAreExact | src/shm/shared_memory_tenant.c:561-595 | of any interleaved attempts a tenant grants exactly as many as are asked and left of its quota, from any count, negative ones included; a tenant that is not active grants none and is not changed |
| TenantQuota.UsageRoundTrip | src/shm/shared_memory_tenant.c:447-499 | usage is read and written for active tenants only, what is written is read back, and nothing else changes |
| TenantQuota.SerialCountsAreExact | src/rdma_hooks_tenant.c:483-566 | without overlap the count is the live QPs and creates minus destroys, within the quota, and a create is let through exactly while quota is left |
| TenantQuota.SerialTalliesAreExact | src/rdma_hooks_tenant.c:287-318 | over the same runs CQ, PD and MR counts and both MR totals are tallies of their own calls, and memory, quota and lists are untouched |
| TenantQuota.BlankSafe | src/shm/shared_memory_tenant.c:63-71 | the zeroed registry is a start state for `QuotaSafety`, `MemoryNeverCounted`, `RegistryRefinement` and `ProcessListAgreement` |
| TenantQuota.MemoryNeverCounted | src/rdma_hooks_tenant.c:287-318 | over every interleaving every tenant's memory_used and every held copy of it stay 0 |
| TenantQuota.WriteBackIsExact | src/rdma_hooks_tenant.c:287-318 | a write of an edited copy leaves the count that editing the current record would leave if and only if the count has not changed since the read, or the edit takes both counts to zero; otherwise, away from zero, it is off by the change |
| TenantQuota.OverlappingCallsLoseGrants | src/rdma_hooks_tenant.c:287-318 | with overlap, for every positive quota, any number of grants leaves a recorded count of zero |
| Hooks.InterceptState.CheckRestrictions | src/rdma_hooks_tenant.c:392-463 | answers as `Permitted` says |
| Hooks.InterceptState.CreateQp | src/rdma_hooks_tenant.c:466-567 | does what `Create` says, and hands the real verb the clipped request |
| Hooks.InterceptState.DestroyQp | src/rdma_hooks_tenant.c:773-800 | does what `Destroy` says |
| Hooks.InterceptState.EditTenantUsage | src/rdma_hooks_tenant.c:287-318 | reads, edits and writes back an active tenant's usage |
| Hooks.InterceptState.CheckMrLimit | src/rdma_hooks_tenant.c:353-389 | answers as `MrAllowed` says |
| Hooks.InterceptState.RegMr | src/rdma_hooks_tenant.c:803-845 | does what `RegisterMr` says |
| Hooks.InterceptState.DeregMr | src/rdma_hooks_tenant.c:848-886 | does what `DeregisterMr` says |
| Hooks.CreateAllOrNothing | src/rdma_hooks_tenant.c:466-567 | a create goes through exactly when checks, quota and real verb allow it, and otherwise leaves everything as it was, the reservation included |
| Hooks.CreateExactly | src/rdma_hooks_tenant.c:392-567 | when a create goes through, over the fields of configuration and request, the table and the tenant: an if and only if |
| Hooks.RefusedCreateLeaves | src/rdma_hooks_tenant.c:483-564 | a refused create changes nothing, except that a tenant's negative count becomes zero if the checks were passed |
| Hooks.RefusedChangesNothing | src/rdma_hooks_tenant.c:483-800 | a create with a tenant that is not active, and a destroy the real verb refuses, change nothing |
| Hooks.DestroyUndoesCreate | src/rdma_hooks_tenant.c:784-797 | a destroy gives process and tenant their counts back and leaves the table charging the QP |
| Hooks.ClippingMatters | src/rdma_hooks_tenant.c:440-520 | the plain entry point never clips anything, and under a limit of 0 it lets only depth 0 through; in general each depth becomes the smaller of itself and its positive limit |
| Hooks.CreateIsAnInterleaving | src/rdma_hooks_tenant.c:477-546 | an undisturbed call ends where the admission machine's steps end |
| Hooks.RefusedMrChangesNothing | src/rdma_hooks_tenant.c:803-886 | a registration goes through exactly if quota, rate limiter and verb allow it, a deregistration if the latter two do; otherwise nothing changes |
| Hooks.BytesGivenBack | src/rdma_hooks_tenant.c:833-877 | a registration adds its length modulo 2^64; after a deregistration the bytes are right if and only if the counter held at least the length, and otherwise unchanged |
| Hooks.DeregisterUndoesRegister | src/rdma_hooks_tenant.c:832-883 | deregistering gives back the process's counts and bytes and the tenant's counts that a registration took |
| Hooks.MemoryQuotaIsPerRegion | src/rdma_hooks_tenant.c:353-389 | after any interleaving of everything that touches tenants a region is let through if and only if the tenant exists, MR quota is left and that region alone is within the memory quota |
| Hooks.WrappedSumPasses | src/rdma_hooks_tenant.c:379-386 | a region so long that the charged sum wraps past 2^64 is let through |
| Hooks.NewQuotaGoverns | src/shm/shared_memory_tenant.c:271-297 | after a successful update an active tenant's allocations and regions go by the new quota, and nothing else has changed; refused exactly for tenants that do not exist |
| Hooks.NewTenantGoverned | src/shm/shared_memory_tenant.c:127-176 | a tenant just created goes by its given or the default quota and starts from nothing, whatever its id held before |
| Hooks.MemoryQuotaNeverFills | src/rdma_hooks_tenant.c:379-386 | any number of regions as large as the memory quota is let through while the MR quota lasts |
| MemoryRegions.MrHooks.Reg | src/rdma_hooks_tenant.c:803-845 | quota, limiter, verb and counters in that order, as `After` says |
| MemoryRegions.MrHooks.Dereg | src/rdma_hooks_tenant.c:848-886 | limiter, verb and counters in that order, as `After` says |
| MemoryRegions.HookRateBound | src/rdma_hooks_tenant.c:803-886 | over any registrations and deregistrations by a clock that does not go back, the calls that go through within a window length, and one more, are at most twice the configured operations per second times its seconds, or two |
| MemoryRegions.Unlimited | src/rdma_hooks_tenant.c:86-93 | with the limit off or 0 a call goes through exactly if quota and verb allow it |
| MemoryRegions.RefusedLeavesState | src/rdma_hooks_tenant.c:815-845 | a call that does not go through leaves counters, tenants and regions as they were |
| MemoryRegions.ChargesAreExact | src/rdma_hooks_tenant.c:831-878 | over every run the MR count is the number of regions held and the bytes their sum, as long as that fits in 64 bits |
| Daemon.CollectorServer.HandleProcessExit | src/collector_server_shm.c:230-288 | does what `ProcessExit` says: entry freed, registration closed, tenant adjusted |
| Daemon.CollectorServer.AdjustTenant | src/collector_server_shm.c:263-278 | takes what the dead process's entry recorded off its active tenant's usage, down to zero |
| Daemon.ExitSettlesBoth | src/collector_server_shm.c:230-288 | the entry is gone, the totals fall by exactly what it recorded, the tenant's QPs, MRs and memory too as far as they go, if it recorded a QP; nothing else of the tenant and no other tenant is touched |
| Daemon.ExitSparesTenants | src/collector_server_shm.c:263-278 | an exit that frees nothing, or of a process without an active tenant, touches no tenant |
| Daemon.ExitKeepsTenantExact | src/collector_server_shm.c:263-278 | the tenant's count is that of its remaining processes if and only if the entry recorded no more than the process had, or no other process of the tenant had any |
| Daemon.CountsOverExits | src/collector_server_shm.c:263-278 | over every run of creates, destroys and exits of a tenant's processes the tenant is never charged with more than they have, and with exactly that throughout if and only if no process exits after destroying QPs since its last create while others have QPs |
| Daemon.DestroyedThenExited | src/collector_server_shm.c:263-278 | a process that destroys a QP and exits leaves another process's QP uncounted |
| Batch.BatchBuffer.BatchUpdate | src/performance_optimizer.c:233-280 | does what `Submit` says: with batching off written at once with the table's answer, with batching on enqueued and answered with success |
| Batch.BatchBuffer.Enqueue | src/performance_optimizer.c:240-268 | does what `Put` says: replace, append, or flush and start again |
| Batch.BatchBuffer.FindPending | src/performance_optimizer.c:240-247 | the loop finds the pid's pending entry |
| Batch.BatchBuffer.FlushBuffer | src/performance_optimizer.c:283-301 | writes the entries out in order and empties the buffer |
| Batch.BatchRefinement | src/performance_optimizer.c:233-308 | any sequence of batched updates and flushes, finally flushed, leaves exactly the table that immediate updates leave |
| Batch.PutRefines | src/performance_optimizer.c:240-268 | one batched update seen through a flush is one update; the table is written only when the buffer is full of other pids |
| Batch.SubmitMeans | src/performance_optimizer.c:233-280 | with batching off the update is in the table at once, answered as the table does, and the buffer untouched; with batching on it is answered with success and a flush gives the same |
| Batch.FlushSettles | src/performance_optimizer.c:283-308 | after a flush nothing is pending, flushing again changes nothing, and direct updates stay |
| Batch.Coalesce | src/performance_optimizer.c:250-252 | replacing a pending entry is as good as a later update of that pid |
| Batch.DirectUpdateUnderPending | src/performance_optimizer.c:234-237 | a direct update that finds a slot, the pid's own or a free one, is undone by a flush exactly when the pid has a pending entry |
| Cache.ResourceCache.GetCached | src/performance_optimizer.c:130-183 | hits and misses as `Answered` says, and drops an expired line |
| Cache.ResourceCache.UpdateCached | src/performance_optimizer.c:186-202 | stores the usage in the pid's line |
| Cache.ResourceCache.InvalidateCached | src/performance_optimizer.c:205-216 | drops the line if it is the pid's |
| Cache.ResourceCache.ClearCache | src/performance_optimizer.c:219-224 | drops every line |
| Cache.ResourceCache.SetTtl | src/performance_optimizer.c:310-316 | the time to live is the value asked for, cut to 10 at least and 10000 at most |
| Cache.BucketCollisions | src/performance_optimizer.c:38-40 | two pids share a line exactly when congruent modulo 256, wrapped products included |
| Cache.NeighboursDoNotDisturb | src/performance_optimizer.c:186-216 | among 256 consecutive pids no operation for one touches another's line |
| Cache.LinesHoldWhatIsKept | src/performance_optimizer.c:130-224 | after any history a line holds a store exactly when nothing since has killed it |
| Cache.CacheSoundness | src/performance_optimizer.c:130-183 | a read hits with u exactly when a store of u for the pid has not been cleared, invalidated, overwritten in its line or read expired since, and is no older than the time to live; a backward clock is a miss |
| RateLimiter.MrRateLimiter.Allow | src/rdma_hooks_tenant.c:86-133 | does what `Check` says, and lets everything through when the limit is off |
| RateLimiter.RateBound | src/rdma_hooks_tenant.c:86-133 | no half-open interval of one window length holds more than 2 * capacity - 1 grants |
| RateLimiter.CapacityMeans | src/rdma_hooks_tenant.c:97-118 | one window lets through operations per second times its seconds, rounded down, but one at least; a window of 0 ms is one second |
| RateLimiter.ConfiguredRateBound | src/rdma_hooks_tenant.c:86-133 | the bound for a configuration, in operations per second and milliseconds |
| RateLimiter.DeniedExactly | src/rdma_hooks_tenant.c:101-128 | a call is denied exactly if less than the window length has passed since the window opened and one more call would exceed the configured rate |
| RateLimiter.RateBoundIsReached | src/rdma_hooks_tenant.c:101-124 | calls that get exactly that many, for every window longer than a millisecond |
| RateLimiter.WindowsAreApart | src/rdma_hooks_tenant.c:101-114 | windows start at least a window length apart |
| RateLimiter.DeniedMeansFull | src/rdma_hooks_tenant.c:116-128 | a call is denied exactly when its window has let through its whole capacity |
| RateLimiter.ProductFits | src/rdma_hooks_tenant.c:117-117 | the product of rate and window fits in 64 bits |
| PolicyFile.PolicyManager.LoadConfig | src/dynamic_policy_manager.c:151-175 | the line loop does what `Load` says, on any text, NUL bytes included |
| PolicyFile.PolicyManager.SaveConfig | src/dynamic_policy_manager.c:197-205 | prints what `Save` says |
| PolicyFile.PolicyRoundTrip | src/dynamic_policy_manager.c:151-205 | loading what was saved restores everything, memory in whole MiB and the MiB count modulo 2^32 |
| PolicyFile.SecondSaveIdentical | src/dynamic_policy_manager.c:167-203 | a second save is identical, and memory comes back as printed, if and only if it is below 2^32 MiB |
| PolicyFile.KeysInOrder | src/dynamic_policy_manager.c:197-205 | the file lists the seven keys in this order |
| PolicyFile.AnyNumberRead | src/dynamic_policy_manager.c:158-158 | any number with any sign is read modulo 2^32, or as 2^32 - 1 if it does not fit in 64 bits |
| PolicyFile.AnySpaceSeparates | src/dynamic_policy_manager.c:158-158 | any of the six white-space characters may precede the key and separate it from the number |
| PolicyFile.NulEndsLine | src/dynamic_policy_manager.c:158-158 | what follows a NUL in a line is not read |
| PolicyFile.LongWordCut | src/dynamic_policy_manager.c:156-158 | a word is cut after 63 characters, and digits that follow are its value |
| PolicyFile.LongCommentLeaks | src/dynamic_policy_manager.c:151-154 | what follows the first 255 characters of a long comment is read as a line of its own |
| PolicyFile.CommentSkipped | src/dynamic_policy_manager.c:153-154 | comments that fit the buffer are skipped |
| PolicyFile.UnknownKeyIgnored | src/dynamic_policy_manager.c:158-173 | a line with an unknown key changes nothing |
| PolicyFile.NumberReadBack | src/dynamic_policy_manager.c:158-158 | a printed number below 2^64 is read back modulo 2^32 |

## Left out

- The eBPF map synchronisation and `shm_update_global_resources`: they overwrite the totals from a source the model does not have.
- Parsing of `/proc`, in shm_read_proc_start_time and gc_is_process_really_alive: both are answers from outside here; whether the code reads them correctly is not stated.
- File-descriptor numbers: a pidfd is a handle, and the zeroed registration table is taken as registered for pid 0, not as descriptor 0.
- Spinlocks, memory ordering and the lock-free copies of `shm_get_global_resources` and `shm_get_process_resources`: a critical section is atomic, and each such copy is one step.
- Several threads inside one process; processes that fork after creating QPs.
- Signed overflow of the int counts of QPs and MRs: counts are unbounded integers in the table; `Admission` shows that the compared QP counts stay in range when the limits do.
- Version numbers, timestamps, the hit and flush statistics, tenant names, log output and NULL arguments.
- The reset of the lock word by an initialisation, by which two holders of the lock can overlap: a critical section is atomic here, also across an initialisation.
- Limits and counts outside the range of a C int: the theorems on the two limits take max_qp_per_process below 2^31 and max_global_qp + n within 2^31.
- The cache update and statistics at the end of a batched update, and its release of the mutex between a forced flush and the new first entry, which only other threads could use.
- Batch.BatchRefinement: speaks of the table, not of return codes; a batched update always reports success, also one that the table refuses later.
- Tenant counts after the deaths of processes: the scan paths free entries without adjusting tenants, so they are not exact then; `QuotaSafety` covers them, and `Daemon` the exit events.
- The derivation of the current tenant from cgroups and the environment, the mandatory mode, which refuses processes without a tenant, and the pass-through when interception is off.
- `tenant_get_info`, `tenant_check_resource_limit`, lists and statistics of tenants, the configuration file, the daemon and client protocol, the adaptive adjustment of the time to live, and the watermark arithmetic: they would only add easy members.
