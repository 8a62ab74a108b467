# A verified model of the GPU rental control plane

The control plane rents out GPUs of registered providers. It keeps, per provider, an in-memory ledger of
GPU pools (available, in use, mining) and of CPU and memory counters; creates one Kubernetes pod per job;
credits resources back from three independent places (the job handler, a pod watch, a periodic sweeper);
rebuilds the ledger from the database and from Kubernetes at boot; and authorises spending through session
keys cached over Redis. This project models that behaviour and proves what it keeps.

## How the project is organised

Objects the source mutates are classes whose methods branch as the source does. Each method is proved to
compute a function on values; the theorems are about those functions, over all runs.

| file | content |
|---|---|
| `Capacity.dfy`, `Sums.dfy`, `Wrappers.dfy` | the provider record, Go's nil and made maps, counting, sums over maps |
| `Ledger.dfy` | lazy initialisation, allocation with compensating rollback, release; what each means |
| `Mining.dfy` | mining reserve, release, deploy, stop, reconcile; what comes back |
| `Pods.dfy`, `Recovery.dfy`, `Sweep.dfy` | pods, boot recovery as a function of the listed pods, the sweep and the watch |
| `Orchestrator.dfy` | `ProviderState`, `NodeManager`, `Orchestrator`: every locked method, in place |
| `Accounting.dfy` | exact drift of the GPU pools over any run of ledger steps |
| `CleanRuns.dfy` | runs that return each rental at most once: no double booking; cores and memory under any mining |
| `Restart.dfy` | crash, reload, recover: when the rebuilt ledger equals the lost one |
| `ReleaseProtocol.dfy` | jobs, pods that take time to terminate, a lossy repeating watch and a sweeper on a stale listing, as a state machine |
| `RunningPods.dfy` | that state machine against the capacity of the providers, for each pool of GPUs, the cores and the memory |
| `JobManager.dfy`, `JobHandler.dfy` | pod-then-service creation with cleanup; forecast, debit, create, roll back; delete and credit |
| `Quantities.dfy` | the amounts debited against the amounts read back from the pod |
| `Sessions.dfy`, `SessionManager.dfy` | session keys as functions on values, and the manager with its shared mutable sessions |
| `Tenants.dfy` | tenant namespaces, their quota and network policies |
| `Search.dfy` | the SQL built clause by clause against the in-memory search |

Concurrency: every ledger mutation holds one lock, so a concurrent history is an interleaving of the locked
steps, and the theorems quantify over all finite sequences of steps. In `ReleaseProtocol` the steps between
two API calls of a handler or of the sweeper are separate actions, so that they interleave too. The
environment (API answers, watch delivery, clock, random map order) is a parameter or a nondeterministic choice.

## Where the code departs from its own documentation

The ledger's invariant Total = Available + InUse + Mining is stated in
`k8s-proxy-server/internal/provider/types.go:68-72`, and `k8s-proxy-server/docs/DESIGN.md:81` says that a GPU
cannot leak or be double-booked. The model follows the code. Each departure has a theorem with its exact condition.

* The rollback inside an allocation hands back amounts it may not have taken: a refused request leaves no
  trace exactly when it is short of GPUs, or asks for no negative GPUs and cores (`RefusedLeavesNothing`).
  A renter's request for "-3" cores can leave three cores in use for good (`RefusalLeavesATrace`,
  `TraceAfterADeployment`).
* An unnamed GPU type is debited under the provider's first GPU, but `ReleaseResources` credits "default":
  the rollback is an inverse exactly when no amount is negative and both names agree, or no GPU was taken
  (`RollbackInverse`). A failed job on a provider whose GPU has no name shows it (`RollbackMissesThePool`).
* Credits are not idempotent: the pool grows exactly by what releases return beyond the in-use count
  (`PoolGrowsByUncoveredReleases`). The ordinary course of a failing job credits it three times
  (`FailureCreditsThrice`); a deleted job is credited twice, once to the wrong pool (`DeletionCreditsTwice`), and
  for the first time while its pod may still be running (`DeletionCreditsEarly`). For GPUs of a named type this does
  no harm: such a pool stays within its capacity as long as the credits to it are exact (`RunningWithinCapacity`,
  `DeletionIsOrderly`).
* A mining deployment makes or refills a stock from the inventory and overwrites the mining count: a pool keeps
  its size exactly when the two cancel (`DeployDrift`), and a rented GPU can be mined on (`DeployOverRentedGPU`).
* A restarted meter is derived anew only at zero: a return that arrives before the first rental leaves the rest
  of the provider unrentable, unless nothing was returned or everything was rented (`ReturnBeforeFirstRental`).
  Mining counts are not restored (`RestartForgetsMining`). The first sweep after a boot credits terminated pods,
  which recovery left out, and the jobs that have expired: the ledger is then the one with the expired jobs
  returned exactly when the credits are harmless (`BootThenSweep`); an idle provider of eight GPUs can come to offer one (`SweepHidesTheStock`). A first
  request for a foreign GPU type can find the whole stock of an idle restarted provider under that type
  (`ForeignTypeAfterRestart`).
* Creating a job can leave ledger and cluster apart: when it panics, because the rollback is passed by; when the
  pod stays although its creation was reported as failed and the rollback works; or when no pod stays and the
  rollback does not (`LedgerFollowsPod`). The first job of a
  tenant that leaves CPU or memory to the defaults always panics (`FirstJobPanics`), and leaves the tenant's
  namespace without quota and policies (`FirstJobWithDefaultsLeaks`).
* Debit and credit differ for absent and zero amounts, and for memory in Mi or G (`CPUDebitEqualsCredit`,
  `MemoryDebitEqualsCredit`).
* Provisioning leaves a namespace without its fence exactly in the cases of `Leaks`; provisioning again after a
  failed call deletes a tenant that was there before (`RepeatedCreation`).
* The sign of a charge is not checked. A negative charge does no harm while its write is acknowledged; when it is
  lost, the spend limit can be exceeded exactly if the charge takes back more than the slack that earlier lost
  charges left (`SolventExactly`, `OneMoreCharge`, `NegativeAmountsBreakTheLimit`).
* A job found by GPU type is looked at in a row of the database, apart from the ledger it is debited to
  (`DebitFollowsTheLedger`).
* The reload at boot asks for 1000 providers and gets at most 100 (`ReloadComplete`, `RestartRefines`). For a
  model filter the in-memory search keeps providers without a GPU, which the database does not (`TwinsAgree`,
  `NoGPUIsKept`).
* A session's cache entry answers while Redis cannot be reached: exactly then do the manager and one that always
  reads Redis answer differently, as long as writes succeed (`CacheTransparent`).

## Model

| member | source | states |
|---|---|---|
| Capacity.CountAvailableGPUs | k8s-proxy-server/internal/provider/types.go:140-150 | the loop over the pool in any map order gives the sum of the counts, and the legacy count minus the in-use sum when that is zero |
| Capacity.FreeGPUs | k8s-proxy-server/internal/provider/types.go:140-150 | an empty stock with a positive legacy count reports what is not in use of it; one without reports nothing |
| Orchestrator.ProviderState.AllocateResources | k8s-proxy-server/internal/provider/orchestrator_ledger.go:32-129 | check, debit, lazy initialisation and rollback in place change the record exactly as `Ledger.Allocate`, verdict included |
| Orchestrator.ProviderState.InitPools | k8s-proxy-server/internal/provider/orchestrator_ledger.go:42-56 | nil pools are made, with the legacy or inventory count under the requested type |
| Orchestrator.ProviderState.InitMeter | k8s-proxy-server/internal/provider/orchestrator_ledger.go:70-81 | the total falls back to the legacy field and the inventory; an available amount of zero is derived anew |
| Ledger.MeterOpens | k8s-proxy-server/internal/provider/orchestrator_ledger.go:70-81 | a meter without a total takes the legacy amount, or else the inventory's; one with a total keeps it; available is derived only at zero, and then adds up with in use and mining to the total |
| Ledger.PoolsOpen | k8s-proxy-server/internal/provider/orchestrator_ledger.go:42-51 | the pools of a new provider open with the legacy count, or else the inventory's, under the type asked for |
| Orchestrator.Orchestrator.AllocateResources | k8s-proxy-server/internal/provider/orchestrator_ledger.go:23-130 | only the named provider's entry changes, as `AllocateAt` says; an unknown provider changes nothing |
| Orchestrator.Orchestrator.ReleaseResources | k8s-proxy-server/internal/provider/orchestrator_ledger.go:133-150 | credits one entry, under "default" when no type is named |
| Orchestrator.Orchestrator.ReleaseJobResources | k8s-proxy-server/internal/provider/orchestrator_podwatch.go:132-186 | the funnel: available is credited in full, in use is clamped at zero, a nil in-use map stays nil; all other entries are unchanged |
| Ledger.GrantedExactlyWhenCovered | k8s-proxy-server/internal/provider/orchestrator_ledger.go:42-117 | a request is granted if and only if the lazily initialised ledger covers GPU, CPU and memory together |
| Ledger.GrantedTakes | k8s-proxy-server/internal/provider/orchestrator_ledger.go:64-116 | a grant moves exactly the positive amounts from available to in use, for one type only, and leaves mining and the resources not asked for alone |
| Ledger.RefusedLeavesNothing | k8s-proxy-server/internal/provider/orchestrator_ledger.go:82-114 | all or nothing: after a refusal at any stage the lazily initialised ledger is that of before, if and only if the request was short of GPUs or asks for no negative GPUs and cores |
| Ledger.RollbackInverse | k8s-proxy-server/internal/handler/job_handler.go:272-313 | grant then release restores the lazily initialised ledger in all pools and meters, if and only if no amount is negative and the type resolves alike on both sides (or no GPU was taken) |
| Ledger.ReleaseMoves | k8s-proxy-server/internal/provider/orchestrator_podwatch.go:142-177 | a release credits one type, the cores and the memory in full, takes them out of use down to zero unless nothing has been in use yet, and changes nothing else |
| Orchestrator.Orchestrator.HandlePodEvent | k8s-proxy-server/internal/provider/orchestrator_podwatch.go:79-129 | a deletion, or a change into a terminal phase, credits the pod's provider once; all else changes nothing |
| Sweep.HandledByKind | k8s-proxy-server/internal/provider/orchestrator_podwatch.go:82-128 | a deletion always credits, a change exactly when the pod has failed or succeeded, an addition never |
| Orchestrator.Orchestrator.CleanupExpiredAndFailedJobs | k8s-proxy-server/internal/provider/orchestrator_podwatch.go:222-288 | credits the ledger by every due pod of the listing; afterwards every pod that has failed, succeeded or outlived its expiry is gone unless its deletion failed, and every other pod is still there; services likewise |
| Sweep.SweptInTurn | k8s-proxy-server/internal/provider/orchestrator_podwatch.go:236-280 | by the pods' own fields: the sweep gives back what the failed, succeeded and expired pods of a listing hold, one after the other, and nothing else |
| Sweep.SweepCreditsAllDue | k8s-proxy-server/internal/provider/orchestrator_podwatch.go:236-280 | a sweep credits each registered provider with exactly the GPUs, cores and memory of its due pods, type by type, and takes them out of use down to zero |
| Sweep.SweptOnlyIfOwed | k8s-proxy-server/internal/provider/orchestrator_podwatch.go:262-265 | a provider that no due pod owes anything is left alone; any other has an available pool afterwards |
| Orchestrator.NodeManager.DeleteGPUJob | k8s-proxy-server/internal/provider/node_manager.go:468-488 | the service goes first, whatever its answer; the pod goes unless the call fails without effect, also when an error is returned; a pod already gone is no error |
| Pods.ListLive | k8s-proxy-server/internal/provider/node_manager.go:393-413 | keeps exactly the pods that are neither Failed nor Succeeded, in order |
| Orchestrator.Orchestrator.RecoverJobAllocations | k8s-proxy-server/internal/provider/orchestrator_ledger.go:156-289 | grouping, summing and recomputing in any map order gives the ledger `Recovered`; a failed listing changes nothing |
| Orchestrator.Orchestrator.GroupByProvider | k8s-proxy-server/internal/provider/orchestrator_ledger.go:178-188 | one group for each provider with pods and no other; each group holds what that provider's pods hold, pods without a provider skipped |
| Orchestrator.ProviderState.RecoverFrom | k8s-proxy-server/internal/provider/orchestrator_ledger.go:201-271 | in use becomes the sums, available becomes total minus in use minus mining, floored at zero for GPUs |
| Recovery.RecoveryForgets | k8s-proxy-server/internal/provider/orchestrator_ledger.go:178-263 | the recovered ledger depends on the multiset of pods only, not on list order or on the previous in-use and available counters |
| Recovery.RecoveryIdempotent | k8s-proxy-server/internal/provider/orchestrator_ledger.go:156-289 | recovering twice from the same pods is recovering once |
| Recovery.RecoveryConserves | k8s-proxy-server/internal/provider/orchestrator_ledger.go:243-263 | available + in use + mining is the total if and only if pods and mining fit; otherwise it is what runs; available is never negative |
| Recovery.RecoveryRecomputes | k8s-proxy-server/internal/provider/orchestrator_ledger.go:190-271 | counter by counter: in use is what the pods hold, cores and memory available are the total less that and mining where there is a total, all else stays; providers without pods keep their entry |
| Orchestrator.Orchestrator.AllocateMiningGPU | k8s-proxy-server/internal/provider/orchestrator_mining.go:26-82 | moves count GPUs of one type to the mining pool, or rejects and changes nothing |
| Orchestrator.Orchestrator.ReleaseMiningGPU | k8s-proxy-server/internal/provider/orchestrator_mining.go:85-137 | moves count GPUs back, or rejects and changes nothing |
| Orchestrator.Orchestrator.DeployMiningForProvider | k8s-proxy-server/internal/provider/orchestrator_mining.go:172-247 | whichever key the loop over the totals stops at, the entry becomes what `Deploy` says: refill, check, pod, overwrite, debit |
| Orchestrator.Orchestrator.StopMiningForProvider | k8s-proxy-server/internal/provider/orchestrator_mining.go:250-286 | after the pod is deleted every mining count is merged into available and cleared; otherwise nothing changes |
| Orchestrator.Orchestrator.SyncMiningPodStates | k8s-proxy-server/internal/provider/orchestrator_mining.go:314-372 | every provider with a mining pod is reconciled with its own status; a failed query leaves it unchanged |
| Orchestrator.Orchestrator.RecoverMiningStates | k8s-proxy-server/internal/provider/orchestrator_mining.go:375-409 | pod names and statuses come back for existing pods, mining counts do not |
| Mining.MiningReturnsOnce | k8s-proxy-server/internal/provider/orchestrator_mining.go:314-372 | over any sequence of ticks and stop calls either nothing has come back or every type got exactly its starting mining count |
| Mining.DeadPodReturnsAll | k8s-proxy-server/internal/provider/orchestrator_mining.go:339-368 | a tick that sees a failed or stopped pod, and a stop that succeeds, returns every type's mining count in full |
| Mining.MiningReturnsWhenItEnds | k8s-proxy-server/internal/provider/orchestrator_mining.go:339-368 | over any run from a mining provider, everything has come back if and only if a tick has read "failed" or "stopped", or a stop has succeeded; otherwise nothing has |
| Mining.LiveMiningIsLeftAlone | k8s-proxy-server/internal/provider/orchestrator_mining.go:322-351 | any other tick, and a failed stop, leave pools, reservations and the recorded pod alone; a tick notes the status |
| Mining.NothingMinedNothingCleared | k8s-proxy-server/internal/provider/orchestrator_mining.go:351-368 | a dead pod of a provider without mining GPUs only has its status noted |
| Mining.DeploysFor | k8s-proxy-server/internal/provider/orchestrator_mining.go:183-192 | a deployment is for a key of the totals, or without totals for the first GPU of the inventory |
| Mining.FailedMinerGivesBack | k8s-proxy-server/internal/provider/orchestrator_mining.go:229-238 | a deployment records the pod that the tick then watches: when it fails or stops, all GPUs come back, and the reservations of cores and memory with them |
| Mining.DeployRecords | k8s-proxy-server/internal/provider/orchestrator_mining.go:213-239 | a deployment that goes through records its pod, GPUs, cores and memory; one that does not records none of them; neither touches what is rented |
| Mining.ReserveMoves | k8s-proxy-server/internal/provider/orchestrator_mining.go:41-67 | a reservation is granted if and only if the free GPUs suffice, and moves that many of one type; a refused one changes nothing |
| Mining.ReserveUndone | k8s-proxy-server/internal/provider/orchestrator_mining.go:85-137 | giving the reserved GPUs back restores the pools |
| Mining.StopClears | k8s-proxy-server/internal/provider/orchestrator_mining.go:260-283 | a stop clears everything a deployment recorded and returns every count, or changes nothing |
| Mining.RediscoveredIsWatched | k8s-proxy-server/internal/provider/orchestrator_mining.go:388-403 | boot brings back name and status of a pod that exists, and nothing else |
| Orchestrator.LooksUp | k8s-proxy-server/internal/provider/orchestrator_mining.go:384-403 | the pod looked for at boot is named after its provider; a status that cannot be read is empty |
| Accounting.ApplyAgrees | k8s-proxy-server/internal/provider/orchestrator_ledger.go:24-25 | each of the seven kinds of locked step changes the entries its method changes, in the same way, and no other |
| Accounting.ExactAccounting | k8s-proxy-server/internal/provider/types.go:68-72 | over any run of all seven kinds of step, available + in use + mining of each type is the initial value plus the sum of the steps' drifts; rentals on an existing pool, mining moves, stops and ticks drift by zero |
| Accounting.PoolGrowsByUncoveredReleases | k8s-proxy-server/internal/provider/orchestrator_podwatch.go:151-163 | from any ledger, pools made or not, and with releases of any multiplicity, the pool never shrinks, and keeps its size if and only if every release was covered by the in-use count and no rental made the pool |
| Accounting.DeployDrift | k8s-proxy-server/internal/provider/orchestrator_mining.go:194-231 | for every provider, made pool or not, and every type: a deployment keeps a pool's size if and only if what it makes and refills equals the mining count it overwrites, both read off the state before |
| Accounting.DeployOverRentedGPU | k8s-proxy-server/internal/provider/orchestrator_mining.go:213-231 | a provider whose only GPU is rented deploys mining on it |
| CleanRuns.NoDoubleBooking | k8s-proxy-server/internal/provider/orchestrator_ledger.go:1-13 | from any sound ledger, pools made or not, in every interleaving that returns each rental at most once: in use equals what the live jobs hold for every type, no pool is negative, no return is clamped, a pool once made keeps its size, and one not made grows at most once, by the first stock or by what a deployment adds |
| CleanRuns.NeverOverbooked | k8s-proxy-server/internal/provider/orchestrator_ledger.go:58-66 | live jobs plus mining never exceed the starting pool of a type, or the stock a pool not yet made can be made with; nor the provider's cores and memory |
| CleanRuns.CoresNeverOverbooked | k8s-proxy-server/internal/provider/orchestrator_ledger.go:68-117 | cores and memory stay within the totals under any mining steps, although zero is derived anew and mining reserves without a debit |
| CleanRuns.FirstRequestOpens | k8s-proxy-server/internal/provider/orchestrator_ledger.go:42-56 | in any sound ledger, the first request to a provider without pools, granted or not, makes them with the whole stock under the requested type; the ledger stays sound and no other provider changes |
| CleanRuns.FinishKeeps | k8s-proxy-server/internal/provider/orchestrator_podwatch.go:155-177 | returning a live job keeps in use equal to what the remaining jobs hold |
| Restart.RestartRefines | k8s-proxy-server/internal/provider/orchestrator.go:110-166 | legacy providers of one GPU type: after any run, dropping the memory, reloading the rows the database returns and recovering from the live pods gives a ledger equivalent to the lost one for every reloaded provider, with the same reports, idle providers with nil maps included; all providers come back if and only if they are at most 100, otherwise 100 do |
| Restart.SameAnswers | k8s-proxy-server/internal/provider/orchestrator_ledger.go:23-130 | equivalent ledgers give the same verdicts to every later sequence of requests for any GPU types, if the first is for the provider's own, or the pools are made on both sides or neither |
| Restart.SameRepliesAfterRental | k8s-proxy-server/internal/provider/orchestrator_ledger.go:23-150 | after one granted rental of some cores and memory, equivalent ledgers reply alike to every later mix of requests and returns, of any types and amounts |
| Restart.BootIsSound | k8s-proxy-server/internal/provider/orchestrator.go:110-144 | every ledger after a boot meets the hypothesis of the theorems on clean runs: without pods always, with pods if they are of their providers' own types and fit cores and memory |
| Restart.ForeignTypeAfterRestart | k8s-proxy-server/internal/provider/orchestrator_ledger.go:42-51 | a first request for another type gets the verdict it would have got without the restart, if and only if the pools had not been made, the provider is in use, or the request is not for 1 up to its GPU count |
| Restart.BootThenSweep | k8s-proxy-server/internal/provider/orchestrator_podwatch.go:204-265 | recovery and then the first sweep give the ledger of a run without the crash in which any chosen live jobs, such as the expired ones, were returned, if and only if the sweep credits exactly what those held, and the meters were full before or are empty after, or untouched; to an idle provider it must credit nothing, or everything |
| Restart.SweepHidesTheStock | k8s-proxy-server/internal/provider/orchestrator_podwatch.go:151-155 | after boot and sweep with one failed pod, an idle provider of eight GPUs refuses two |
| Restart.TypeSurvives | k8s-proxy-server/internal/provider/repository.go:373-384 | the resolved GPU type survives the database if and only if the first GPU has a name |
| Restart.ReturnBeforeFirstRental | k8s-proxy-server/internal/provider/orchestrator_podwatch.go:165-177 | after a restart, a return before the first rental agrees with the lost ledger if and only if it returned nothing or the provider had been full |
| Restart.RestartForgetsMining | k8s-proxy-server/internal/provider/orchestrator_mining.go:396-399 | after a restart a provider, with or without pods, offers its mining GPUs on top of what it offered before; hence the same if and only if nothing was mined |
| ReleaseProtocol.ReleaseSafety | k8s-proxy-server/internal/provider/orchestrator_podwatch.go:79-129 | over every run, with events dropped, repeated and reordered and the listing stale, no pod that is present, not terminal and not expired is credited by the watcher or the sweeper, nor by DeleteJob unless it is being deleted |
| ReleaseProtocol.ConsistentKept | k8s-proxy-server/internal/provider/orchestrator_podwatch.go:222-288 | every action keeps the protocol invariant about events, listing, reservations and deletions |
| ReleaseProtocol.AbortCreditsTheDeadIffCleaned | k8s-proxy-server/internal/job/manager.go:181-185 | after a failed creation's rollback the credited job is gone or being deleted, if and only if the deletion of its pod worked, or the pod had not been placed, had died, or was being deleted before |
| ReleaseProtocol.SweepCompletes | k8s-proxy-server/internal/provider/orchestrator_podwatch.go:236-280 | once the sweep of a listing has ended, every due pod of it that carries something was credited, whatever the watch lost, and right after was gone or being deleted unless the deletion was refused |
| RunningPods.RunningWithinCapacity | k8s-proxy-server/docs/DESIGN.md:79-82 | for a pool of GPUs, the cores or the memory, each on its own: in runs whose credits to it give back each job's share at most once, exactly, and by a handler only once the pod is dead, whose pods hold of it what was debited and whose deployments do not drift it, the share of running pods plus mining stays within the starting capacity; all else is free |
| RunningPods.DeletionIsOrderly | k8s-proxy-server/internal/handler/job_handler.go:437-448 | every credit of DeleteJob, of any amount and as early as it comes, is allowed in such runs for every pool not named "default" |
| RunningPods.OtherPoolsAreFree | k8s-proxy-server/internal/provider/orchestrator_podwatch.go:142-155 | so is every credit of the watcher, the sweeper and the rollback to another pool or another provider |
| RunningPods.StartIsConsistent | k8s-proxy-server/internal/provider/orchestrator.go:110-166 | whatever rows and pods a boot finds, the rebuilt ledger with its running pods meets the invariants of the protocol, if the pods are of registered providers and the types recovery books, and fit cores and memory |
| RunningPods.BookedKept | k8s-proxy-server/internal/handler/job_handler.go:271-313 | every booking and every running pod is backed by a debit of the same amount of the resource, not yet credited |
| ReleaseProtocol.FailureCreditsThrice | k8s-proxy-server/internal/provider/orchestrator_podwatch.go:99-118 | phase change, sweep and deletion event credit a failed job three times: its pool ends too large by twice its GPUs |
| ReleaseProtocol.DeletionCreditsTwice | k8s-proxy-server/internal/handler/job_handler.go:437-448 | DeleteJob and the deletion event credit a job twice: "default" gains its GPUs, and its cores are credited beyond the total |
| ReleaseProtocol.DeletionCreditsEarly | k8s-proxy-server/internal/handler/job_handler.go:436-448 | DeleteJob can credit a pod that is present, not terminal and not expired, while it terminates |
| JobManager.JobManager.EnsureTenant | k8s-proxy-server/internal/job/manager.go:121-141 | isolation provisions the tenant only when its namespace is absent, from the request as it came |
| JobManager.JobManager.CreateGPUJob | k8s-proxy-server/internal/job/manager.go:117-213 | tenant, defaults, pod, service and cleanup change the cluster exactly as `JobCreated`, outcome included |
| JobManager.CreatedRunsFenced | k8s-proxy-server/internal/job/manager.go:127-138 | a created job has its pod as requested and its service, and runs inside a namespace with quota and all policies |
| JobManager.HomeOf | k8s-proxy-server/internal/job/manager.go:121-141 | with isolation each named user has a namespace of their own, and no two share one; all other jobs go to the default namespace |
| JobManager.PodRemains | k8s-proxy-server/internal/job/manager.go:171-185 | the pod is there afterwards if and only if the job was created or orphaned; no other job is touched |
| JobManager.DeletedIsGone | k8s-proxy-server/internal/job/manager.go:507-516 | a deletion succeeds if and only if the pod was there and its deletion was acknowledged, and then it is gone, as is the service when its deletion takes effect; nothing else changes |
| JobManager.CreatedThenDeleted | k8s-proxy-server/internal/job/manager.go:171-213 | a created job that is deleted leaves pods and services as they were |
| JobManager.PodGetsWhatIsAsked | k8s-proxy-server/internal/job/manager.go:148-161 | the pod has the request's resources, or one GPU, two cores and 8Gi, with Gi added to a memory size without a binary suffix |
| JobManager.FirstJobSetsTheTenantUp | k8s-proxy-server/internal/k8s/tenant.go:40-50 | a new tenant's first job sets its quota to the request and opens the two default ports |
| JobManager.OutcomeOf | k8s-proxy-server/internal/job/manager.go:121-185 | a creation succeeds, or panics, if and only if `Succeeds`, or `Panics`, holds of the request, the cluster before and the answers |
| JobManager.FirstJobPanics | k8s-proxy-server/internal/job/manager.go:132-135 | a new tenant's first job without CPU or memory panics |
| JobHandler.CreateJob | k8s-proxy-server/internal/handler/job_handler.go:94-319 | choice of the provider by id or GPU type, status check, forecast, debit, creation and rollback change ledger and cluster exactly as `Requesting` |
| JobHandler.RequestReachesOneEntry | k8s-proxy-server/internal/handler/job_handler.go:94-203 | a request changes at most the entry of the provider it names, or of the one found for its GPU type, and nothing at all when it is turned down before the debit |
| JobHandler.DebitFollowsTheLedger | k8s-proxy-server/internal/handler/job_handler.go:106-122 | a request by GPU type reaches the creation if and only if the row found is accepted and has enough, and the ledger's own entry covers the amounts under the row's type |
| JobHandler.RefusalLeavesATrace | k8s-proxy-server/internal/provider/orchestrator_ledger.go:107-114 | a request for "-3" cores and 16 GB passes the forecast, is refused, and leaves three cores in use |
| JobHandler.TraceAfterADeployment | k8s-proxy-server/internal/provider/orchestrator_mining.go:229-235 | so it is on a new provider of two T4 after one mining deployment |
| JobHandler.RollbackMissesThePool | k8s-proxy-server/internal/provider/orchestrator_ledger.go:135-138 | a failed creation on a provider with an unnamed GPU leaves it in use and adds one of type "default" |
| JobHandler.CheckFree | k8s-proxy-server/internal/handler/job_handler.go:134-203 | the first short resource among GPU, CPU and memory, read from the free amounts with their legacy fallbacks |
| JobHandler.ForecastReads | k8s-proxy-server/internal/provider/types.go:171-192 | cores and memory are what is available, or else the legacy amount less what is in use; the first resource short is named |
| JobHandler.RequestedAmounts | k8s-proxy-server/internal/handler/job_handler.go:237-280 | the debit is under the first GPU's name, of at least one GPU; three statuses accept requests; gigabytes are rounded towards zero |
| JobHandler.ForecastExact | k8s-proxy-server/internal/handler/job_handler.go:134-203 | on one GPU type with stock left, a request passes the look at the free amounts if and only if the debit is granted |
| JobHandler.FailedCreationRestores | k8s-proxy-server/internal/handler/job_handler.go:291-313 | a failed creation restores the lazily initialised ledger if and only if the request asks for nothing negative and its type resolves alike for debit and rollback |
| JobHandler.LedgerFollowsPod | k8s-proxy-server/internal/handler/job_handler.go:289-313 | after any debit, "amounts free" and "no pod" agree if and only if the creation succeeds, or does not panic and the pod is orphaned exactly if the request cannot be rolled back |
| JobHandler.DeleteJob | k8s-proxy-server/internal/handler/job_handler.go:368-474 | look-up, deletion and one credit of the reported amounts; the ledger changes, and success is reported, only if the job's pod was there and is gone |
| JobHandler.DeleteCreditsDefaultPool | k8s-proxy-server/internal/handler/job_handler.go:419-425 | the GPUs land in "default" and stay in use under their own type |
| JobHandler.ReturnedCPUOfDecimal | k8s-proxy-server/internal/handler/job_handler.go:392-398 | a decimal core count is returned as it was debited if and only if it is below a thousand |
| JobHandler.ReturnedAsReported | k8s-proxy-server/internal/handler/job_handler.go:387-425 | a reported memory in Gi or bare is credited in GB, one in Mi in MB; the type is left out, and a missing count is one |
| Quantities.CPUDebitEqualsCredit | k8s-proxy-server/internal/handler/job_handler.go:237-243 | for absent and decimal requests of any length, debit equals credit if and only if the request is given and not zero |
| Quantities.MemoryDebitEqualsCredit | k8s-proxy-server/internal/provider/node_manager.go:344-367 | for absent requests and decimals bare or in Gi, Mi, G, debit equals credit if and only if bare or Gi, and not zero |
| Quantities.Defaults | k8s-proxy-server/internal/handler/job_handler.go:241-253 | a request without amounts is debited 4 cores and 16 GB, and credited 2 cores and 8 GB |
| Quantities.SignsAreRead | k8s-proxy-server/internal/handler/job_handler.go:238-240 | a blank or a sign before a number is read over, and a minus makes the debit negative; a quantity must begin with a digit |
| Quantities.DebitOfDecimal | k8s-proxy-server/internal/handler/job_handler.go:237-253 | a decimal request is debited as the number it denotes, in cores, and in GB whatever its suffix |
| Quantities.GPUDebitEqualsCredit | k8s-proxy-server/internal/provider/node_manager.go:351-354 | for every count, the number printed into the pod and parsed back from it is the number debited |
| SessionManager.SessionManager.RegisterSession | k8s-proxy-server/internal/wallet/session_manager.go:62-107 | nonce, store and cache change as `Register` for every ending of every Redis call; the returned session is fresh and cached |
| SessionManager.SessionManager.ValidateSession | k8s-proxy-server/internal/wallet/session_manager.go:110-142 | answers and caches as `Validate`; on success the cached object is the one validated |
| SessionManager.SessionManager.ValidateAndCharge | k8s-proxy-server/internal/wallet/session_manager.go:145-172 | mutating the shared object before the write amounts to `Charge`, also when the write fails; no other session changes |
| SessionManager.SessionManager.RevokeSession | k8s-proxy-server/internal/wallet/session_manager.go:175-197 | deactivates in Redis and drops from the cache as `Revoke`, only for the owner |
| SessionManager.SessionManager.StoreAndCache | k8s-proxy-server/internal/wallet/session_manager.go:239-252 | the record is stored with its deadline (an hour when already expired), cached only when acknowledged |
| SessionManager.SessionManager.LoadSession | k8s-proxy-server/internal/wallet/session_manager.go:254-267 | what Redis holds and has not let expire |
| Sessions.RegisterExactly | k8s-proxy-server/internal/wallet/session_manager.go:62-107 | a registration succeeds if and only if Redis can be reached, the request is signed for the nonce, and increment and store are acknowledged; then the nonce moves on and a fresh unspent session with the requested limit and duration is stored and cached |
| Sessions.ValidateExactly | k8s-proxy-server/internal/wallet/session_manager.go:110-142 | a key is valid if and only if its cache entry is active and unexpired, or Redis can be reached and holds it so; nothing but the cache changes |
| Sessions.ChargeExactly | k8s-proxy-server/internal/wallet/session_manager.go:145-172 | a charge succeeds if and only if the key is valid, the amount fits the limit and the write is acknowledged; it adds the amount in cache and Redis |
| Sessions.RevokeExactly | k8s-proxy-server/internal/wallet/session_manager.go:175-197 | a revocation succeeds if and only if Redis can be reached and holds an unexpired session of the calling wallet, and the write is acknowledged; any other wallet's call changes nothing |
| Sessions.OthersCannotRevoke | k8s-proxy-server/internal/wallet/session_manager.go:181-183 | over any history a key stays active for its owner until the owner revokes it or it is registered anew |
| Sessions.StoredUntil | k8s-proxy-server/internal/wallet/session_manager.go:239-252 | a stored session disappears at its expiry, or after an hour when that has passed |
| Sessions.SpendLimitHolds | k8s-proxy-server/internal/wallet/session_manager.go:145-172 | over all histories with failed and ambiguous writes and crashes in which lost charges keep the slack, accepted charges of a registration never exceed its limit, and Redis never holds less than was accepted |
| Sessions.SolventExactly | k8s-proxy-server/internal/wallet/session_manager.go:151-165 | after every call of a history the spent amounts are at least the accepted ones, and these within the limits, if and only if every lost charge is not negative, or covered by the slack |
| Sessions.OrdinaryChargesKeepSlack | k8s-proxy-server/internal/wallet/session_manager.go:153-159 | charges that are not negative, or whose write is acknowledged, keep the slack |
| Sessions.OneMoreCharge | k8s-proxy-server/internal/wallet/session_manager.go:151-159 | one more charge can take a usable session beyond its limit if and only if less is spent than was accepted |
| Sessions.NegativeAmountsBreakTheLimit | k8s-proxy-server/internal/wallet/session_manager.go:153-159 | on a run with a lost charge the limit survives if and only if the amount is not negative |
| Sessions.NoncesStrictlyIncrease | k8s-proxy-server/internal/wallet/session_manager.go:269-281 | accepted nonces of a wallet strictly increase over any run, failed increments and stores included |
| Sessions.CacheTransparent | k8s-proxy-server/internal/wallet/session_manager.go:110-142 | without failed writes, for every history, crash and sequence of clock values, all calls answer as an implementation that always reads Redis, if and only if no validation or charge meets an unreachable Redis with a usable cache entry |
| Sessions.StepAgrees | k8s-proxy-server/internal/wallet/session_manager.go:112-121 | the same of one call, by the state before it |
| Sessions.StartIsSound | k8s-proxy-server/internal/wallet/session_manager.go:53-60 | the empty manager meets the invariants of the theorems on sessions |
| Sessions.RevocationIsFinal | k8s-proxy-server/internal/wallet/session_manager.go:175-197 | after a successful revocation the key is rejected until registered again, whatever fails in between |
| Tenants.TenantManager.CreateTenantEnvironment | k8s-proxy-server/internal/k8s/tenant.go:76-99 | namespace, quota, policies and cleanup change the cluster as `Create`, for every ending of every call |
| Tenants.TenantManager.CreateObjects | k8s-proxy-server/internal/k8s/tenant.go:137-178 | quota, then the three policies; the first call not acknowledged ends the sequence |
| Tenants.TenantManager.UpdateGPUQuota | k8s-proxy-server/internal/k8s/tenant.go:334-351 | replaces the GPU entry of an existing quota and nothing else |
| Tenants.NewTenantGets | k8s-proxy-server/internal/k8s/tenant.go:137-178 | a new tenant gets the configured quota, the first port opened for ingress and the second for egress; no other tenant is touched |
| Tenants.PartlyProvisioned | k8s-proxy-server/internal/k8s/tenant.go:76-99 | without cleanup a new tenant is left with exactly the objects whose calls took effect, up to the first that was not acknowledged; success means all were |
| Tenants.UpdateChangesTheQuota | k8s-proxy-server/internal/k8s/tenant.go:334-351 | an update changes the GPU entry of an existing quota and nothing else |
| Tenants.DeleteRemovesTheTenant | k8s-proxy-server/internal/k8s/tenant.go:128-134 | a deletion that takes effect removes the tenant, and no other |
| Tenants.CreateKeepsFence | k8s-proxy-server/internal/k8s/tenant.go:76-99 | provisioning keeps "every tenant namespace has quota and three policies" if and only if it does not leak; success means fenced |
| Tenants.FenceOverRuns | k8s-proxy-server/internal/job/manager.go:127-138 | every namespace is fenced after each call of a run, so that skipping provisioning is sound, if and only if no call leaks |
| Tenants.RepeatedCreation | k8s-proxy-server/internal/k8s/tenant.go:120-123 | provisioning again keeps every object, except that a later failure deletes the whole tenant |
| Tenants.FirstJobWithDefaultsLeaks | k8s-proxy-server/internal/job/manager.go:132-135 | a new tenant's first job without CPU or memory leaves an unfenced namespace |
| Search.BuildQuery | k8s-proxy-server/internal/provider/repository.go:193-243 | for every combination of active filters the placeholders line up with the arguments, and the query selects exactly the wanted rows |
| Search.SelectsInOrder | k8s-proxy-server/internal/provider/repository.go:193-231 | with placeholders numbered in order, a row is selected if and only if it passes each clause's test with the argument at the same place |
| Search.SearchInMemory | k8s-proxy-server/internal/provider/orchestrator_query.go:53-83 | returns exactly the providers the guards keep, each once, in any map order |
| Search.LikeIsContains | k8s-proxy-server/internal/provider/repository.go:199-203 | for text without wildcards LIKE between percent signs is containment |
| Search.LikeQuoted | k8s-proxy-server/internal/provider/repository.go:199-203 | a text whose every character is quoted is matched by itself only |
| Search.LikeBlanks | k8s-proxy-server/internal/provider/repository.go:199-203 | as many underscores match exactly the texts of that length |
| Search.TwinsAgree | k8s-proxy-server/internal/provider/orchestrator_query.go:57-62 | database and loop agree on a provider if and only if it is not one without a GPU that meets all conditions but a model filter |
| Search.NoGPUIsKept | k8s-proxy-server/internal/provider/orchestrator_query.go:60-62 | a search for a T4 keeps a provider without any GPU in memory only |
| Search.SearchesAgree | k8s-proxy-server/internal/provider/orchestrator_query.go:43-86 | over providers with a GPU, no wildcards, no offset and matches within the limit, both searches return the same set |
| Search.ListAll | k8s-proxy-server/internal/provider/repository.go:256-258 | a query without conditions whose 1000 rows are clamped to 100 |
| Search.ReloadComplete | k8s-proxy-server/internal/provider/repository.go:233-240 | the rows of a reload are distinct providers of the table, at most 100, and all of them if and only if there are at most 100 |

## Left out

- Kubernetes, Redis, Postgres and chain clients: each call is its abstract effect and an ending (acknowledged, failed, or failed after taking effect).
- Signatures: a request carries the set of nonces for which its signature verifies; hashing and recovery are not modelled.
- GPUVault settlement, the frontend, the installer, scanner, daemon and auto-scaler.
- Integer overflow: counts are unbounded integers. Spend amounts are reals, so float rounding is not modelled.
- Prices, storage, disk, taints, heartbeats and changes of provider status; the registration flow is the replacement of a record (`Register`).
- Job ids: taken as parameters. The protocol assumes fresh ones; creation refuses one that has a pod.
- Namespace deletion is immediate and does not cascade to pods. Pods take their time to terminate in the release protocol; in the manager and the handlers a deleted pod is gone at once.
- Races inside the session manager between an unlocked read and its write: calls are atomic steps.
- Sessions of a wallet, remaining quota and the index of sessions by wallet: read-only or write-only there.
- Quantities: decimal numbers, bare or in Mi, Gi or G; what the cluster prints for a job is a parameter of DeleteJob.
- Case folding in searches: ASCII letters only. SQL is a list of clauses, not text; NULL columns are not modelled.
- Updating the mining pod's GPU count in the background after a mining reserve or release.
- RestartRefines: providers of one GPU type with the legacy fields and no mining, one row each in the providers table; the lemmas on the limits of the refinement say what goes wrong outside that.
- NoDoubleBooking: mining deployments on a made pool whose refill and overwritten mining count do not cancel are excluded, because DeployDrift shows exactly these change the pool; CoresNeverOverbooked admits them.
