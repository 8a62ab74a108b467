/** The renter-facing handlers over the ledger: look at the free amounts, debit before the pod is created,
    roll back when it is not, credit after the pod has been deleted. */
module JobHandler {
  import opened Wrappers
  import opened Sums
  import opened Capacity
  import opened Ledger
  import opened Mining
  import opened Quantities
  import opened Orchestrator
  import opened JobManager

  datatype JobRequest = JobRequest(
    userID: string, providerID: string, gpuType: string, gpuCount: int, cpuCores: string, memoryGB: string)

  /** What the job status reports of a pod: counts and printed quantities. */
  datatype JobInfo = JobInfo(providerID: string, gpuCount: int, cpuCores: string, memory: string)

  datatype Status =
    | ProviderNotFound | NotAccepting | FewGPUs | FewCPUs | LittleMemory | Conflict
    | Ended(outcome: Outcome) | DeletionFailed | Removed

  /** The model a job is debited under: the first GPU of the provider, if it has one. */
  function JobModel(spec: SystemSpec): string {
    if spec.gpus != [] then spec.gpus[0] else ""
  }

  function Requested(spec: SystemSpec, r: JobRequest): ResourceAllocation {
    ResourceAllocation(JobModel(spec), DebitGPU(r.gpuCount), DebitCPU(r.cpuCores), DebitMemory(r.memoryGB))
  }

  /** Go's x / 1024, which rounds towards zero. */
  function Gigabytes(mb: int): int {
    if mb >= 0 then mb / 1024 else -(-mb / 1024)
  }

  /** The look at the free amounts before anything is debited; cluster is the GPU count the cluster
      reports for the node, when it can be asked. None means there is enough. */
  ghost function Forecast(c: ProviderCapacity, cluster: Option<int>, r: JobRequest): Option<Status> {
    if r.gpuCount > (if cluster.Some? then cluster.value else AvailableGPUCount(c)) then Some(FewGPUs)
    else if DebitCPU(r.cpuCores) > FreeAmount(c.cpu) then Some(FewCPUs)
    else if DebitMemory(r.memoryGB) / 1024 > Gigabytes(FreeAmount(c.memory)) then Some(LittleMemory)
    else None
  }

  /** The provider once a granted request's job has been created, or not. A panic passes the rollback by. */
  function AfterCreation(n: Node, a: ResourceAllocation, outcome: Outcome): Node {
    if outcome == NotCreated then ReleaseAllocation(n, a) else n
  }

  function SpecOf(r: JobRequest): JobSpec {
    JobSpec(r.userID, r.gpuCount, r.cpuCores, r.memoryGB)
  }

  method ParseCPU(s: string) returns (cores: int)
    ensures cores == DebitCPU(s)
  {
    cores := 0;
    if s != "" {
      cores := Scan(s);
    }
    if cores == 0 {
      cores := 4;
    }
  }

  method ParseGigabytes(s: string) returns (gb: int)
    ensures gb * 1024 == DebitMemory(s)
  {
    hide Scan, TrimSuffix;
    gb := 0;
    if s != "" {
      gb := Scan(TrimSuffix(TrimSuffix(s, "Gi"), "G"));
    }
    if gb == 0 {
      gb := 16;
    }
  }

  method CheckFree(c: ProviderCapacity, cluster: Option<int>, r: JobRequest) returns (refusal: Option<Status>)
    ensures refusal == Forecast(c, cluster, r)
  {
    hide Scan, TrimSuffix, DebitCPU, DebitMemory;
    var availableGPU;
    match cluster {
      case Some(n) => availableGPU := n;
      case None => availableGPU := CountAvailableGPUs(c);
    }
    if r.gpuCount > availableGPU {
      return Some(FewGPUs);
    }
    var cores := ParseCPU(r.cpuCores);
    if cores > FreeAmount(c.cpu) {
      return Some(FewCPUs);
    }
    var gb := ParseGigabytes(r.memoryGB);
    if gb > Gigabytes(FreeAmount(c.memory)) {
      return Some(LittleMemory);
    }
    return None;
  }

  /** A provider record as the handler looks at it. Found by a search of the database, it is a row of its own,
      apart from the ledger. */
  datatype Row = Row(id: string, record: Node, status: string)

  /** What the handler can look up: the statuses of the registered providers, the first row that a search for
      the requested GPU type returns, and the GPU count the cluster reports for the node. */
  datatype Lookup = Lookup(statuses: map<string, string>, found: Option<Row>, cluster: Option<int>)

  datatype Choice = Unbound | Missing | Chosen(row: Row)

  /** The provider named by the request; without one, the first that has the GPU type; without that, none. */
  function Choose(l: Providers, lookup: Lookup, r: JobRequest): Choice {
    if r.providerID != "" then
      if r.providerID !in l then Missing
      else Chosen(Row(r.providerID, l[r.providerID],
                      if r.providerID in lookup.statuses then lookup.statuses[r.providerID] else ""))
    else if r.gpuType == "" then Unbound
    else if lookup.found.None? then Missing
    else Chosen(lookup.found.value)
  }

  predicate Accepts(status: string) {
    status == "approved" || status == "joined" || status == "available"
  }

  /** The ledger and the job objects after a request: the status, the forecast, then debit, creation and rollback.
      The forecast and the GPU type are those of the record looked at; the debit goes to the ledger. */
  ghost function Requesting(l: Providers, j: Jobs, isolation: bool, lookup: Lookup, jobID: string, r: JobRequest, a: Answers)
    : (Providers, Jobs, Status)
  {
    match Choose(l, lookup, r)
    case Missing => (l, j, ProviderNotFound)
    case Unbound =>
      var (jobs, outcome) := JobCreated(j, isolation, jobID, SpecOf(r), a);
      (l, jobs, Ended(outcome))
    case Chosen(row) =>
      if !Accepts(row.status) then (l, j, NotAccepting)
      else match Forecast(row.record.cap, lookup.cluster, r)
        case Some(refusal) => (l, j, refusal)
        case None =>
          if row.id !in l then (l, j, Conflict)
          else
            var (n, jobs, status) := Debiting(l[row.id], Requested(row.record.spec, r), j, isolation, jobID, r, a);
            (l[row.id := n], jobs, status)
  }

  function Debiting(n: Node, allocation: ResourceAllocation, j: Jobs, isolation: bool, jobID: string, r: JobRequest, a: Answers)
    : (Node, Jobs, Status)
  {
    var (debited, verdict) := Allocate(n, allocation);
    if verdict != Granted then (debited, j, Conflict)
    else
      var (after, outcome) := JobCreated(j, isolation, jobID, SpecOf(r), a);
      (AfterCreation(debited, allocation, outcome), after, Ended(outcome))
  }

  /** Debit, create, and roll back. */
  method DebitAndCreate(o: Orchestrator, jm: JobManager, id: string, allocation: ResourceAllocation,
                        jobID: string, r: JobRequest, a: Answers)
    returns (status: Status)
    requires o.Valid()
    modifies o.providers.Values, jm, jm.tenants
    ensures id !in old(o.Ledger()) ==> status == Conflict && jm.View() == old(jm.View()) && o.Ledger() == old(o.Ledger())
    ensures id in old(o.Ledger()) ==>
      var (after, jobs, s) := Debiting(old(o.Ledger())[id], allocation, old(jm.View()), jm.isolation, jobID, r, a);
      status == s && jm.View() == jobs && o.Ledger() == old(o.Ledger())[id := after]
  {
    hide Allocate, ReleaseAllocation, JobCreated, SpecOf;
    var verdict := o.AllocateResources(id, allocation);
    if verdict != Granted {
      return Conflict;
    }
    var outcome := jm.CreateGPUJob(jobID, SpecOf(r), a);
    if outcome == NotCreated {
      o.ReleaseResources(id, allocation);
    }
    return Ended(outcome);
  }

  method ChooseProvider(o: Orchestrator, lookup: Lookup, r: JobRequest) returns (choice: Choice)
    requires o.Valid()
    ensures choice == Choose(o.Ledger(), lookup, r)
  {
    if r.providerID != "" {
      if r.providerID !in o.providers {
        return Missing;
      }
      var provider := o.providers[r.providerID];
      var status := if r.providerID in lookup.statuses then lookup.statuses[r.providerID] else "";
      return Chosen(Row(r.providerID, Node(provider.spec, provider.capacity), status));
    }
    if r.gpuType != "" {
      if lookup.found.None? {
        return Missing;
      }
      return Chosen(lookup.found.value);
    }
    return Unbound;
  }

  method CreateJob(o: Orchestrator, jm: JobManager, lookup: Lookup, jobID: string, r: JobRequest, a: Answers)
    returns (status: Status)
    requires o.Valid()
    modifies o.providers.Values, jm, jm.tenants
    ensures (o.Ledger(), jm.View(), status) ==
              Requesting(old(o.Ledger()), old(jm.View()), jm.isolation, lookup, jobID, r, a)
  {
    hide Scan, TrimSuffix, DebitCPU, DebitMemory, Forecast, Debiting, JobCreated, Choose;
    var choice := ChooseProvider(o, lookup, r);
    if choice.Missing? {
      return ProviderNotFound;
    }
    if choice.Unbound? {
      var outcome := jm.CreateGPUJob(jobID, SpecOf(r), a);
      return Ended(outcome);
    }
    var row := choice.row;
    if row.status != "approved" && row.status != "joined" && row.status != "available" {
      return NotAccepting;
    }
    var refusal := CheckFree(row.record.cap, lookup.cluster, r);
    if refusal.Some? {
      return refusal.value;
    }
    var gpuModel := "";
    if |row.record.spec.gpus| > 0 {
      gpuModel := row.record.spec.gpus[0];
    }
    var cores := ParseCPU(r.cpuCores);
    var gb := ParseGigabytes(r.memoryGB);
    var gpuCount := if r.gpuCount <= 0 then 1 else r.gpuCount;
    var allocation := ResourceAllocation(gpuModel, gpuCount, cores, gb * 1024);
    status := DebitAndCreate(o, jm, row.id, allocation, jobID, r, a);
  }

  lemma DebitingEnds(n: Node, b: ResourceAllocation, j: Jobs, isolation: bool, jobID: string, r: JobRequest, a: Answers)
    ensures var (_, jobs, status) := Debiting(n, b, j, isolation, jobID, r, a);
            status.Ended? || (status == Conflict && jobs == j)
  {
    hide Allocate, JobCreated;
  }

  lemma ForecastRefusal(c: ProviderCapacity, cluster: Option<int>, r: JobRequest)
    ensures Forecast(c, cluster, r) in {None, Some(FewGPUs), Some(FewCPUs), Some(LittleMemory)}
  {
    hide DebitCPU, DebitMemory, AvailableGPUCount;
  }

  /** A request can change no entry of the ledger but that of the provider it names, or of the one found for its GPU
      type; and it changes nothing at all, neither there nor in the cluster, when it is turned down before the debit. */
  lemma RequestReachesOneEntry(l: Providers, j: Jobs, isolation: bool, lookup: Lookup, jobID: string, r: JobRequest, a: Answers)
    ensures var (after, jobs, status) := Requesting(l, j, isolation, lookup, jobID, r, a);
            && after.Keys == l.Keys
            && (forall id :: id in l && after[id] != l[id] ==>
                  if r.providerID != "" then id == r.providerID
                  else r.gpuType != "" && lookup.found.Some? && id == lookup.found.value.id)
            && (status in {ProviderNotFound, NotAccepting, FewGPUs, FewCPUs, LittleMemory} ==> after == l && jobs == j)
            && (status == Conflict ==> jobs == j)
  {
    hide Allocate, Forecast, Requested, Debiting, JobCreated, SpecOf, Accepts;
    match Choose(l, lookup, r)
    case Chosen(row) =>
      if row.id in l {
        DebitingEnds(l[row.id], Requested(row.record.spec, r), j, isolation, jobID, r, a);
      }
      ForecastRefusal(row.record.cap, lookup.cluster, r);
    case _ =>
  }

  /** The forecast may look at a record that is not the ledger's: the row of a search. The job is created exactly when
      the record looked at is accepted and has enough, and the entry of the ledger, which may be in another state
      or missing, covers the amounts; the GPU type is still that of the record. */
  lemma DebitFollowsTheLedger(l: Providers, j: Jobs, isolation: bool, lookup: Lookup, jobID: string, r: JobRequest, a: Answers)
    requires r.providerID == "" && r.gpuType != "" && lookup.found.Some?
    ensures var row := lookup.found.value;
            var b := Requested(row.record.spec, r);
            Requesting(l, j, isolation, lookup, jobID, r, a).2.Ended? <==>
              && Accepts(row.status) && Forecast(row.record.cap, lookup.cluster, r) == None
              && row.id in l
              && Covers(Primed(l[row.id], ResolveType(l[row.id].spec, b.gpuType)).cap, ResolveType(l[row.id].spec, b.gpuType), b)
  {
    var row := lookup.found.value;
    if row.id in l {
      GrantedExactlyWhenCovered(l[row.id], Requested(row.record.spec, r));
    }
    hide Allocate, Covers, Primed, JobCreated, DebitCPU, DebitMemory, ReleaseAllocation;
  }

  /** The request asks for nothing negative, and its type resolves alike for the debit and the rollback. */
  predicate Restorable(n: Node, a: ResourceAllocation) {
    0 <= a.cpuCores && 0 <= a.memoryMB && SameTypeBack(n.spec, a)
  }

  /** A job whose creation failed leaves the provider's lazily initialised ledger as it was, exactly when the
      request is restorable. */
  lemma FailedCreationRestores(n: Node, spec: SystemSpec, r: JobRequest)
    requires 0 <= n.cap.cpu.inUse && 0 <= n.cap.memory.inUse && forall t :: 0 <= n.cap.inUseGPUs.Count(t)
    requires var a := Requested(spec, r); Covers(Primed(n, ResolveType(n.spec, a.gpuType)).cap, ResolveType(n.spec, a.gpuType), a)
    ensures var a := Requested(spec, r);
            var g := ResolveType(n.spec, a.gpuType);
            Same(Primed(AfterCreation(Allocate(n, a).0, a, NotCreated), g).cap, Primed(n, g).cap) <==> Restorable(n, a)
  {
    GrantedExactlyWhenCovered(n, Requested(spec, r));
    RollbackInverse(n, Requested(spec, r));
    hide Allocate, ReleaseAllocation, Same, Primed, Scan, DebitCPU, DebitMemory;
  }

  /** GPUs that were taken show in the lazily initialised ledger. */
  lemma DebitShows(n: Node, a: ResourceAllocation)
    requires 1 <= a.gpuCount && Allocate(n, a).1 == Granted
    ensures var g := ResolveType(n.spec, a.gpuType); !Same(Primed(Allocate(n, a).0, g).cap, Primed(n, g).cap)
  {
    var g := ResolveType(n.spec, a.gpuType);
    assert Primed(Allocate(n, a).0, g).cap.inUseGPUs.Count(g) == Primed(n, g).cap.inUseGPUs.Count(g) + a.gpuCount;
  }

  /** Ledger and cluster agree about a job that was debited when its amounts are out of the lazily initialised
      ledger exactly if its pod exists. They do so exactly when the creation succeeds; or fails without a panic,
      and either leaves no pod and the request is restorable, or orphans the pod and it is not. */
  lemma LedgerFollowsPod(n: Node, spec: SystemSpec, j: Jobs, isolation: bool, jobID: string, r: JobRequest, a: Answers)
    requires 0 <= n.cap.cpu.inUse && 0 <= n.cap.memory.inUse && forall t :: 0 <= n.cap.inUseGPUs.Count(t)
    requires JobKey(Home(isolation, r.userID), jobID) !in j.pods
    requires var b := Requested(spec, r); Covers(Primed(n, ResolveType(n.spec, b.gpuType)).cap, ResolveType(n.spec, b.gpuType), b)
    ensures var b := Requested(spec, r);
            var (after, jobs, _) := Debiting(n, b, j, isolation, jobID, r, a);
            var g := ResolveType(n.spec, b.gpuType);
            var free := Same(Primed(after, g).cap, Primed(n, g).cap);
            (free <==> JobKey(Home(isolation, r.userID), jobID) !in jobs.pods) <==>
              || Succeeds(j, isolation, jobID, SpecOf(r), a)
              || (&& !Panics(j, isolation, SpecOf(r), a)
                  && (Restorable(n, b) <==> !Orphaned(j, isolation, jobID, SpecOf(r), a)))
  {
    hide Allocate, ReleaseAllocation, Same, Primed, Scan, DebitCPU, DebitMemory, JobCreated, Orphaned, Succeeds, Panics, Covers;
    GrantedExactlyWhenCovered(n, Requested(spec, r));
    FailedCreationRestores(n, spec, r);
    DebitShows(n, Requested(spec, r));
    PodRemains(j, isolation, jobID, SpecOf(r), a);
    OutcomeOf(j, isolation, jobID, SpecOf(r), a);
  }

  lemma SixteenGB()
    ensures DebitMemory("16") == 16384
  {
    hide DebitMemory;
    MemoryDebit("16", "");
    assert "16" + "" == "16" && "16"[..1] == "1";
    assert Value("1") == 1 && Value("16") == 16;
  }

  lemma Amounts()
    ensures DebitCPU("-3") == -3 && DebitCPU("4") == 4 && DebitMemory("16") == 16384
  {
    hide Scan;
    ScanNegative("3");
    ScanDecimal("4", "");
    assert "-" + "3" == "-3" && "4" + "" == "4";
    assert Value("3") == 3 && Value("4") == 4;
    SixteenGB();
  }

  /** A provider with one T4 mining and one free, whose mining reserves 20 of its 32 GB. */
  predicate HalfMining(n: Node) {
    && n.spec.gpus == ["T4"] && n.cap.availableGPUs.Made? && n.cap.availableGPUs.Count("T4") == 1
    && n.cap.cpu == Meter(32, 0, 0, 0, 0) && n.cap.memory == Meter(32768, 0, 20480, 0, 0)
  }

  /** A deployment on a new provider of two T4 leads there. */
  lemma DeploymentReserves()
    ensures var cap := ProviderCapacity(2, NilMap, NilMap, NilMap, NilMap, Meter(32, 0, 0, 0, 0), Meter(32768, 0, 0, 0, 0), "", "");
            HalfMining(Deploy(Node(SystemSpec(["T4"], 2, 32, 32768), cap), "T4", MiningConfig(1, 0, 20480), Some("mining")).0)
  {
  }

  lemma RefusedUntaken(n: Node, b: ResourceAllocation)
    requires HalfMining(n) && b == ResourceAllocation("T4", 1, -3, 16384)
    ensures Allocate(n, b).1 == ShortMemory && Allocate(n, b).0.cap.cpu.inUse == 3
  {
  }

  lemma PassesFor16(c: ProviderCapacity, gpus: int, r: JobRequest)
    requires r.gpuCount <= gpus && r.cpuCores in {"4", "-3"} && r.memoryGB == "16"
    requires FreeAmount(c.cpu) == 32 && FreeAmount(c.memory) == 32768
    ensures Forecast(c, Some(gpus), r) == None
  {
    hide DebitCPU, DebitMemory;
    Amounts();
  }

  /** A refused request that leaves a trace: the forecast does not see the mining reservation and lets a request for
      16 GB pass; the debit refuses it, and the rollback of its minus three cores keeps three cores in use for good. */
  lemma RefusalLeavesATrace(n: Node, id: string, j: Jobs, isolation: bool, jobID: string, a: Answers)
    requires id != "" && HalfMining(n)
    ensures var r := JobRequest("anonymous", id, "", 1, "-3", "16");
            var (after, _, status) := Requesting(map[id := n], j, isolation, Lookup(map[id := "available"], None, Some(2)), jobID, r, a);
            status == Conflict && id in after && n.cap.cpu.inUse == 0 && after[id].cap.cpu.inUse == 3
  {
    hide DebitCPU, DebitMemory, JobCreated, Allocate, Forecast;
    var r, b := JobRequest("anonymous", id, "", 1, "-3", "16"), ResourceAllocation("T4", 1, -3, 16384);
    Amounts();
    assert Requested(n.spec, r) == b;
    PassesFor16(n.cap, 2, r);
    RefusedUntaken(n, b);
    hide Requested;
    assert Choose(map[id := n], Lookup(map[id := "available"], None, Some(2)), r) == Chosen(Row(id, n, "available"));
  }

  /** So a mining deployment on a new provider of two T4, followed by such a request, takes three cores away. */
  lemma TraceAfterADeployment(id: string, j: Jobs, isolation: bool, jobID: string, a: Answers)
    requires id != ""
    ensures var cap := ProviderCapacity(2, NilMap, NilMap, NilMap, NilMap, Meter(32, 0, 0, 0, 0), Meter(32768, 0, 0, 0, 0), "", "");
            var n := Deploy(Node(SystemSpec(["T4"], 2, 32, 32768), cap), "T4", MiningConfig(1, 0, 20480), Some("mining")).0;
            var r := JobRequest("anonymous", id, "", 1, "-3", "16");
            var (after, _, status) := Requesting(map[id := n], j, isolation, Lookup(map[id := "available"], None, Some(2)), jobID, r, a);
            status == Conflict && id in after && n.cap.cpu.inUse == 0 && after[id].cap.cpu.inUse == 3
  {
    hide Deploy, Requesting, HalfMining;
    DeploymentReserves();
    var cap := ProviderCapacity(2, NilMap, NilMap, NilMap, NilMap, Meter(32, 0, 0, 0, 0), Meter(32768, 0, 0, 0, 0), "", "");
    var n := Deploy(Node(SystemSpec(["T4"], 2, 32, 32768), cap), "T4", MiningConfig(1, 0, 20480), Some("mining")).0;
    RefusalLeavesATrace(n, id, j, isolation, jobID, a);
  }

  lemma NotPlaced(j: Jobs, isolation: bool, jobID: string, r: JobSpec, a: Answers)
    requires r.userID == "anonymous" && a.parses && a.pod.Failed?
    ensures JobCreated(j, isolation, jobID, r, a).1 == NotCreated
  {
    OutcomeOf(j, isolation, jobID, r, a);
    hide JobCreated;
  }

  lemma UnnamedRolledBack(n: Node, b: ResourceAllocation)
    requires n.spec.gpus == [""] && n.cap.availableGPUs.NilMap? && n.cap.inUseGPUs.NilMap? && n.cap.gpuCount == 1
    requires b.gpuType == "" && b.gpuCount == 1 && Covers(Primed(n, "").cap, "", b)
    ensures Allocate(n, b).1 == Granted
    ensures var back := ReleaseAllocation(Allocate(n, b).0, b).cap;
            back.inUseGPUs.Count("") == 1 && back.availableGPUs.Count("") == 0 && back.availableGPUs.Count("default") == 1
  {
  }

  /** A rollback that misses the pool: the provider's only GPU has no name; it stays in use under the empty type,
      and a GPU of type "default" appears. */
  lemma RollbackMissesThePool(id: string, j: Jobs, isolation: bool, jobID: string, a: Answers)
    requires id != "" && a.parses && a.pod.Failed?
    ensures var spec := SystemSpec([""], 1, 32, 32768);
            var cap := ProviderCapacity(1, NilMap, NilMap, NilMap, NilMap, Meter(32, 0, 0, 0, 0), Meter(32768, 0, 0, 0, 0), "", "");
            var r := JobRequest("anonymous", id, "", 1, "4", "16");
            var lookup := Lookup(map[id := "available"], None, Some(1));
            var (after, _, status) := Requesting(map[id := Node(spec, cap)], j, isolation, lookup, jobID, r, a);
            && status == Ended(NotCreated) && id in after
            && after[id].cap.inUseGPUs.Count("") == 1 && after[id].cap.availableGPUs.Count("") == 0
            && after[id].cap.availableGPUs.Count("default") == 1
  {
    var spec := SystemSpec([""], 1, 32, 32768);
    var n := Node(spec, ProviderCapacity(1, NilMap, NilMap, NilMap, NilMap, Meter(32, 0, 0, 0, 0), Meter(32768, 0, 0, 0, 0), "", ""));
    var r, b := JobRequest("anonymous", id, "", 1, "4", "16"), ResourceAllocation("", 1, 4, 16384);
    hide DebitCPU, DebitMemory, JobCreated, Allocate, ReleaseAllocation, Forecast, Succeeds, Panics;
    Amounts();
    assert Requested(spec, r) == b;
    UnnamedRolledBack(n, b);
    NotPlaced(j, isolation, jobID, SpecOf(r), a);
    PassesFor16(n.cap, 1, r);
    hide Requested;
    assert Choose(map[id := n], Lookup(map[id := "available"], None, Some(1)), r) == Chosen(Row(id, n, "available"));
  }

  /** A whole number of gigabytes fits an amount exactly when it does after both are cut to gigabytes. */
  lemma WholeGigabytes(asked: int, free: int)
    requires asked % 1024 == 0 && 0 <= free
    ensures asked / 1024 <= Gigabytes(free) <==> asked <= free
  {
  }

  lemma MemoryDebitInGigabytes(s: string)
    ensures DebitMemory(s) % 1024 == 0
  {
  }

  /** The forecast on the ledger's own counters is exact for a provider with one GPU type, stock in its pools
      and something left of CPU and memory: a request passes it exactly when the debit is granted. */
  lemma ForecastExact(n: Node, r: JobRequest)
    requires n.cap.availableGPUs.Made? && n.cap.cpu.available > 0 && n.cap.memory.available > 0
    requires 1 <= r.gpuCount
    requires var g := ResolveType(n.spec, JobModel(n.spec));
             (forall t :: t != g ==> n.cap.availableGPUs.Count(t) == 0) && n.cap.availableGPUs.Count(g) > 0
    ensures Forecast(n.cap, None, r).None? <==> Allocate(n, Requested(n.spec, r)).1 == Granted
  {
    var g := ResolveType(n.spec, JobModel(n.spec));
    var stock := n.cap.availableGPUs.counts;
    forall t | t in stock && t != g ensures stock[t] == 0 {
      assert n.cap.availableGPUs.Count(t) == stock[t];
    }
    TotalSingle(stock, g);
    GrantedExactlyWhenCovered(n, Requested(n.spec, r));
    MemoryDebitInGigabytes(r.memoryGB);
    WholeGigabytes(DebitMemory(r.memoryGB), FreeAmount(n.cap.memory));
    hide Allocate, Scan, DebitCPU, DebitMemory, Gigabytes;
  }

  /** What a request is debited: under the first GPU's name, or no name; at least one GPU; and which statuses accept it. */
  lemma RequestedAmounts(spec: SystemSpec, r: JobRequest, status: string)
    ensures var a := Requested(spec, r);
            && a.gpuType == (if |spec.gpus| == 0 then "" else spec.gpus[0])
            && a.gpuCount == (if r.gpuCount < 1 then 1 else r.gpuCount)
            && a.cpuCores == DebitCPU(r.cpuCores) && a.memoryMB == DebitMemory(r.memoryGB)
    ensures Accepts(status) <==> status in {"approved", "joined", "available"}
    ensures forall mb :: 0 <= mb ==> 1024 * Gigabytes(mb) <= mb < 1024 * Gigabytes(mb) + 1024
    ensures forall mb :: mb < 0 ==> 1024 * Gigabytes(mb) - 1024 < mb <= 1024 * Gigabytes(mb)
  {
    hide DebitCPU, DebitMemory;
  }

  /** What the forecast reads: the GPUs the cluster reports, or else the free GPUs of the record; of cores and memory what
      is available, or else the legacy amount less what is in use. The first resource short is named. */
  lemma ForecastReads(c: ProviderCapacity, cluster: Option<int>, r: JobRequest)
    requires 0 <= c.memory.available && c.memory.inUse <= c.memory.legacy
    ensures var gpus := if cluster.Some? then cluster.value else AvailableGPUCount(c);
            var cores := if 0 < c.cpu.available then c.cpu.available else if 0 < c.cpu.legacy then c.cpu.legacy - c.cpu.inUse else 0;
            var memory := if 0 < c.memory.available then c.memory.available
                          else if 0 < c.memory.legacy then c.memory.legacy - c.memory.inUse else 0;
            Forecast(c, cluster, r) ==
              if gpus < r.gpuCount then Some(FewGPUs)
              else if cores < DebitCPU(r.cpuCores) then Some(FewCPUs)
              else if memory < DebitMemory(r.memoryGB) then Some(LittleMemory)
              else None
  {
    MemoryDebitInGigabytes(r.memoryGB);
    WholeGigabytes(DebitMemory(r.memoryGB), FreeAmount(c.memory));
    hide DebitCPU, DebitMemory, AvailableGPUCount, Gigabytes;
  }

  /** The cores DeleteJob credits: 1000 and more are taken for millicores. */
  function ReturnedCPU(s: string): int {
    var cores := if s == "" then 0 else Scan(TrimSuffix(s, "m"));
    if cores >= 1000 then cores / 1000 else cores
  }

  function ReturnedMemory(s: string): int {
    if s == "" then 0
    else if HasSuffix(s, "Gi") then Scan(TrimSuffix(s, "Gi")) * 1024
    else if HasSuffix(s, "Mi") then Scan(TrimSuffix(s, "Mi"))
    else Scan(s) * 1024
  }

  function Returned(info: JobInfo): ResourceAllocation {
    ResourceAllocation("", DebitGPU(info.gpuCount), ReturnedCPU(info.cpuCores), ReturnedMemory(info.memory))
  }

  /** DeleteJob: look the job up, delete its objects, then credit what the status said, without a GPU type.
      The look-up needs the pod and the service; printed is what it then reports. */
  method DeleteJob(o: Orchestrator, jm: JobManager, jobID: string, userID: string,
                   reachable: bool, printed: JobInfo, service: Api, pod: Api) returns (status: Status)
    requires o.Valid()
    modifies o.providers.Values, jm
    ensures var key, j := JobKey(Home(jm.isolation, userID), jobID), old(jm.View());
            var (jobs, ok) := JobDeleted(j, key, service, pod);
            && jm.View() == jobs && status == (if ok then Removed else DeletionFailed)
            && (status == Removed || o.Ledger() != old(o.Ledger()) ==> key in j.pods && key !in jm.pods)
            && o.Ledger() ==
                 if ok && reachable && key in j.services && printed.providerID != "" && printed.providerID in old(o.Ledger())
                 then old(o.Ledger())[printed.providerID :=
                        ReleaseAllocation(old(o.Ledger())[printed.providerID], Returned(printed))]
                 else old(o.Ledger())
  {
    hide ReleaseAllocation, Returned;
    var key := JobKey(Home(jm.isolation, userID), jobID);
    var found := reachable && key in jm.pods && key in jm.services;
    var ok := jm.DeleteJob(jobID, userID, service, pod);
    if !ok {
      return DeletionFailed;
    }
    if found && printed.providerID != "" {
      o.ReleaseResources(printed.providerID, Returned(printed));
    }
    return Removed;
  }

  /** DeleteJob never gives the GPUs of a typed provider back to their pool: they stay in use there, and
      appear in the "default" pool. */
  lemma DeleteCreditsDefaultPool(n: Node, info: JobInfo)
    requires n.cap.availableGPUs.Made? && n.cap.inUseGPUs.Made?
    ensures var g, k := ResolveType(n.spec, ""), DebitGPU(info.gpuCount);
            var after := ReleaseAllocation(n, Returned(info)).cap;
            && after.availableGPUs.Count("default") == n.cap.availableGPUs.Count("default") + k
            && (g != "default" ==> after.inUseGPUs.Count(g) == n.cap.inUseGPUs.Count(g)
                                   && after.availableGPUs.Count(g) == n.cap.availableGPUs.Count(g))
  {
  }

  lemma NotMillicores(s: string)
    requires Decimal(s)
    ensures !HasSuffix(s, "m")
  {
    assert IsDigit(s[|s| - 1]) && s[|s| - 1..] == [s[|s| - 1]];
  }

  /** A decimal CPU string, bare or in millicores, is credited as a thousandth from a thousand on, and as it stands below:
      so a bare one is credited as it was debited exactly below a thousand cores, and one in millicores exactly from
      a thousand on. */
  lemma ReturnedCPUOfDecimal(s: string)
    requires Decimal(s)
    ensures ReturnedCPU(s) == ReturnedCPU(s + "m") == if Value(s) < 1000 then Value(s) else Value(s) / 1000
    ensures ReturnedCPU(s) == Value(s) <==> Value(s) < 1000
    ensures ReturnedCPU("") == 0
  {
    ScanDecimal(s, "");
    assert s + "" == s;
    NotMillicores(s);
    assert (s + "m")[|s|..] == "m" && (s + "m")[..|s|] == s;
    hide Scan, Value;
  }

  lemma SuffixOfReport(digits: string, suffix: string)
    requires Decimal(digits) && suffix in {"", "Gi", "Mi"}
    ensures var s := digits + suffix;
            && HasSuffix(s, "Gi") == (suffix == "Gi") && HasSuffix(s, "Mi") == (suffix == "Mi")
            && (suffix != "" ==> TrimSuffix(s, suffix) == digits)
  {
    Suffixes(digits, suffix);
    assert (digits + suffix)[..|digits|] == digits;
  }

  /** The memory DeleteJob credits for what a status reports: a number in Gi or without a suffix is in GB, one in Mi
      in MB; no report, no memory. The GPU type is left out, and a missing count is one. */
  lemma ReturnedAsReported(info: JobInfo, digits: string, suffix: string)
    requires Decimal(digits) && suffix in {"", "Gi", "Mi"} && info.memory == digits + suffix
    ensures Returned(info).memoryMB == if suffix == "Mi" then Value(digits) else Value(digits) * 1024
    ensures ReturnedMemory("") == 0
    ensures Returned(info).gpuType == "" && Returned(info).gpuCount == if info.gpuCount < 1 then 1 else info.gpuCount
  {
    ScanDecimal(digits, suffix);
    ScanDecimal(digits, "");
    assert digits + "" == digits;
    SuffixOfReport(digits, suffix);
    hide Scan, HasSuffix;
  }
}
