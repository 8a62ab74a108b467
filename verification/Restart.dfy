/** A control-plane restart: drop the memory, reload the database columns, recover from the pods.
    Providers registered with the legacy single-type fields, no mining. */
module Restart {
  import opened Wrappers
  import opened Sums
  import opened Capacity
  import opened Ledger
  import opened Pods
  import opened Recovery
  import opened Sweep
  import opened Accounting
  import opened CleanRuns
  import Search

  /** A meter of which only the legacy column is known. */
  function Bare(legacy: int): Meter {
    Meter(legacy, 0, 0, 0, 0)
  }

  /** What the providers table keeps of a record: the inventory with one GPU name, and the legacy fields. */
  function Reloaded(n: Node): Node {
    Node(n.spec.(gpus := if n.spec.gpus != [] && n.spec.gpus[0] != "" then [n.spec.gpus[0]] else []),
         ProviderCapacity(n.cap.gpuCount, NilMap, NilMap, NilMap, NilMap, Bare(n.cap.cpu.legacy), Bare(n.cap.memory.legacy), "", ""))
  }

  /** The ledger reloaded from the rows the database returned. */
  function ReloadAll(l: Providers, rows: seq<string>): Providers {
    map id | id in l && id in rows :: Reloaded(l[id])
  }

  /** The ledger after a crash and a boot. */
  function Restarted(l: Providers, rows: seq<string>, pods: seq<PodInfo>): Providers {
    Recovered(ReloadAll(l, rows), pods)
  }

  /** The GPU name survives the database, so that the resolved type does. */
  lemma TypeSurvives(n: Node)
    ensures RecoveredType(Reloaded(n).spec) == RecoveredType(n.spec)
       <==> (n.spec.gpus == [] || n.spec.gpus[0] != "")
  {
  }

  /** A freshly registered legacy provider whose shared GPU count is its inventory. */
  predicate LegacyFresh(n: Node) {
    && n.cap.gpuCount == n.spec.totalGPUs && 0 <= n.cap.gpuCount
    && (n.spec.gpus == [] || n.spec.gpus[0] != "")
    && n == Node(n.spec, ProviderCapacity(n.cap.gpuCount, NilMap, NilMap, NilMap, NilMap,
                                          Bare(n.cap.cpu.legacy), Bare(n.cap.memory.legacy), "", n.cap.miningStatus))
  }

  /** A meter of a legacy provider: untouched, or initialised and exactly balanced. */
  predicate MeterInStep(m: Meter, inventory: int, held: int) {
    && m.mining == 0 && 0 <= held
    && if m.total == 0 then m.available == 0 && m.inUse == 0 && held == 0
       else m.total > 0 && m.inUse == held && m.available == m.total - held && 0 <= m.available
            && m.total == EffectiveTotal(m.(total := 0), inventory)
  }

  predicate PoolInStep(n: Node, t: string, held: int) {
    var g := RecoveredType(n.spec);
    && 0 <= held
    && if n.cap.availableGPUs.NilMap? then held == 0
       else
         && n.cap.inUseGPUs.Count(t) == held
         && n.cap.availableGPUs.Count(t) == (if t == g then n.cap.gpuCount else 0) - held
         && 0 <= n.cap.availableGPUs.Count(t)
  }

  predicate Idle(live: Jobs, id: string) {
    forall j :: j in live ==> live[j].provider != id
  }

  ghost predicate InStep(n: Node, id: string, live: Jobs) {
    && n.cap.gpuCount == n.spec.totalGPUs && 0 <= n.cap.gpuCount
    && (n.spec.gpus == [] || n.spec.gpus[0] != "")
    && n.cap.totalGPUs.NilMap? && n.cap.miningGPUs.NilMap?
    && n.cap.miningPodName == ""
    && n.cap.availableGPUs.NilMap? == n.cap.inUseGPUs.NilMap?
    && (n.cap.availableGPUs.NilMap? ==> Idle(live, id))
    && (forall t :: PoolInStep(n, t, LiveGPUs(live, id, t)))
    && MeterInStep(n.cap.cpu, n.spec.cpuCores, LiveCPUs(live, id))
    && MeterInStep(n.cap.memory, n.spec.totalMemoryMB, LiveMemory(live, id))
  }

  /** The job rents the provider's own GPU type. */
  predicate OwnType(l: Providers, h: Held) {
    h.provider in l && h.gpuType == RecoveredType(l[h.provider].spec)
  }

  ghost predicate AllInStep(w: World) {
    && JobsSound(w.ledger, w.live)
    && (forall j :: j in w.live ==> OwnType(w.ledger, w.live[j]))
    && forall id :: id in w.ledger ==> InStep(w.ledger[id], id, w.live)
  }

  /** Rentals of the provider's own GPU type, and returns of live jobs. */
  ghost predicate OneTypeMove(w: World, m: Move) {
    && Legal(w, m) && !m.Mine?
    && (m.Admit? && m.id in w.ledger ==>
          ResolveType(w.ledger[m.id].spec, m.allocation.gpuType) == RecoveredType(w.ledger[m.id].spec))
  }

  ghost predicate OneTypeRun(w: World, moves: seq<Move>)
    decreases |moves|
  {
    moves == [] || (OneTypeMove(w, moves[0]) && OneTypeRun(Make(w, moves[0]), moves[1..]))
  }

  // ---------------------------------------------------------------- the uncrashed ledger

  /** Lazy initialisation keeps a pool in step, and a request sees no difference. */
  lemma PrimePoolInStep(n: Node, a: ResourceAllocation, t: string, held: int)
    requires n.cap.gpuCount == n.spec.totalGPUs && 0 <= n.cap.gpuCount
    requires n.cap.availableGPUs.NilMap? == n.cap.inUseGPUs.NilMap?
    requires PoolInStep(n, t, held)
    ensures var m := n.(cap := PrimedPools(n, RecoveredType(n.spec)));
            && m.cap.availableGPUs.Made? && m.cap.inUseGPUs.Made? && PoolInStep(m, t, held)
            && (ResolveType(n.spec, a.gpuType) == RecoveredType(n.spec) ==> Allocate(m, a) == Allocate(n, a))
  {
  }

  lemma AdmitMadePool(n: Node, a: ResourceAllocation, t: string, held: int)
    requires ResolveType(n.spec, a.gpuType) == RecoveredType(n.spec)
    requires n.cap.availableGPUs.Made? && n.cap.inUseGPUs.Made?
    requires 0 <= a.gpuCount && 0 <= a.cpuCores
    requires PoolInStep(n, t, held)
    ensures var (m, v) := Allocate(n, a);
            && m.cap.availableGPUs.Made? && m.cap.inUseGPUs.Made?
            && PoolInStep(m, t, held + if v == Granted && t == RecoveredType(n.spec) then a.gpuCount else 0)
  {
  }

  lemma AdmitPoolInStep(n: Node, a: ResourceAllocation, t: string, held: int)
    requires n.cap.gpuCount == n.spec.totalGPUs && 0 <= n.cap.gpuCount
    requires ResolveType(n.spec, a.gpuType) == RecoveredType(n.spec)
    requires n.cap.availableGPUs.NilMap? == n.cap.inUseGPUs.NilMap?
    requires 0 <= a.gpuCount && 0 <= a.cpuCores
    requires PoolInStep(n, t, held)
    ensures var (m, v) := Allocate(n, a);
            && m.cap.availableGPUs.Made? && m.cap.inUseGPUs.Made?
            && PoolInStep(m, t, held + if v == Granted && t == RecoveredType(n.spec) then a.gpuCount else 0)
  {
    hide Allocate;
    PrimePoolInStep(n, a, t, held);
    AdmitMadePool(n.(cap := PrimedPools(n, RecoveredType(n.spec))), a, t, held);
  }

  lemma AdmitFrame(n: Node, a: ResourceAllocation)
    ensures var m := Allocate(n, a).0;
            && m.spec == n.spec && m.cap.gpuCount == n.cap.gpuCount
            && m.cap.totalGPUs == n.cap.totalGPUs && m.cap.miningGPUs == n.cap.miningGPUs
            && m.cap.miningPodName == n.cap.miningPodName
  {
  }

  lemma AdmitMetersInStep(n: Node, a: ResourceAllocation, cpu: int, memory: int)
    requires 0 <= a.gpuCount && 0 <= a.cpuCores && 0 <= a.memoryMB
    requires MeterInStep(n.cap.cpu, n.spec.cpuCores, cpu) && MeterInStep(n.cap.memory, n.spec.totalMemoryMB, memory)
    ensures var (m, v) := Allocate(n, a);
            && MeterInStep(m.cap.cpu, n.spec.cpuCores, cpu + if v == Granted then a.cpuCores else 0)
            && MeterInStep(m.cap.memory, n.spec.totalMemoryMB, memory + if v == Granted then a.memoryMB else 0)
  {
  }

  lemma AdmitInStep(n: Node, id: string, live: Jobs, a: ResourceAllocation, after: Jobs)
    requires InStep(n, id, live) && 0 <= a.gpuCount && 0 <= a.cpuCores && 0 <= a.memoryMB
    requires ResolveType(n.spec, a.gpuType) == RecoveredType(n.spec)
    requires var granted := Allocate(n, a).1 == Granted;
             && (forall t :: LiveGPUs(after, id, t)
                   == LiveGPUs(live, id, t) + if granted && t == RecoveredType(n.spec) then a.gpuCount else 0)
             && LiveCPUs(after, id) == LiveCPUs(live, id) + (if granted then a.cpuCores else 0)
             && LiveMemory(after, id) == LiveMemory(live, id) + (if granted then a.memoryMB else 0)
    ensures InStep(Allocate(n, a).0, id, after) && Allocate(n, a).0.spec == n.spec
  {
    hide Allocate, LiveGPUs, LiveCPUs, LiveMemory, ResolveType, PoolInStep, MeterInStep;
    AdmitMetersInStep(n, a, LiveCPUs(live, id), LiveMemory(live, id));
    AdmitFrame(n, a);
    var m := Allocate(n, a).0;
    assert PoolInStep(n, "", LiveGPUs(live, id, ""));
    AdmitPoolInStep(n, a, "", LiveGPUs(live, id, ""));
    forall t ensures PoolInStep(m, t, LiveGPUs(after, id, t)) {
      assert PoolInStep(n, t, LiveGPUs(live, id, t));
      AdmitPoolInStep(n, a, t, LiveGPUs(live, id, t));
    }
  }

  lemma FinishPoolInStep(n: Node, h: Held, t: string, held: int)
    requires 0 <= h.gpu && ResolveType(n.spec, h.gpuType) == h.gpuType
    requires n.cap.availableGPUs.NilMap? == n.cap.inUseGPUs.NilMap?
    requires PoolInStep(n, t, held) && (t == h.gpuType ==> h.gpu <= held)
    requires h.gpu == 0 || n.cap.availableGPUs.Made?
    ensures n.cap.availableGPUs.Made? ==>
      PoolInStep(Release(n, h.gpuType, h.gpu, h.cpu, h.memory), t, held - if t == h.gpuType then h.gpu else 0)
  {
  }

  lemma FinishMetersInStep(n: Node, h: Held, cpu: int, memory: int)
    requires MeterInStep(n.cap.cpu, n.spec.cpuCores, cpu) && MeterInStep(n.cap.memory, n.spec.totalMemoryMB, memory)
    requires 0 <= h.cpu <= cpu && 0 <= h.memory <= memory
    ensures var m := Release(n, h.gpuType, h.gpu, h.cpu, h.memory);
            && m.spec == n.spec && m.cap.gpuCount == n.cap.gpuCount
            && m.cap.totalGPUs == n.cap.totalGPUs && m.cap.miningGPUs == n.cap.miningGPUs
            && m.cap.miningPodName == n.cap.miningPodName
            && (n.cap.availableGPUs.Made? ==> m.cap.availableGPUs.Made?)
            && m.cap.inUseGPUs.NilMap? == n.cap.inUseGPUs.NilMap?
            && MeterInStep(m.cap.cpu, n.spec.cpuCores, cpu - h.cpu)
            && MeterInStep(m.cap.memory, n.spec.totalMemoryMB, memory - h.memory)
  {
  }

  lemma AdmitOwnTypes(w: World, job: string, id: string, a: ResourceAllocation)
    requires AllInStep(w) && OneTypeMove(w, Admit(job, id, a)) && id in w.ledger
    ensures var after := Make(w, Admit(job, id, a));
            forall j :: j in after.live ==> JobSound(after.ledger, after.live[j]) && OwnType(after.ledger, after.live[j])
  {
    hide Allocate, InStep;
    AdmitFrame(w.ledger[id], a);
    var after := Make(w, Admit(job, id, a));
    forall j | j in after.live ensures JobSound(after.ledger, after.live[j]) && OwnType(after.ledger, after.live[j]) {
      if j in w.live {
        assert JobSound(w.ledger, w.live[j]) && OwnType(w.ledger, w.live[j]);
      }
    }
  }

  lemma OthersInStep(w: World, after: World, id: string)
    requires AllInStep(w) && after.ledger.Keys == w.ledger.Keys
    requires forall i :: i in w.ledger && i != id ==>
      && after.ledger[i] == w.ledger[i]
      && (Idle(w.live, i) ==> Idle(after.live, i))
      && (forall t :: LiveGPUs(after.live, i, t) == LiveGPUs(w.live, i, t))
      && LiveCPUs(after.live, i) == LiveCPUs(w.live, i)
      && LiveMemory(after.live, i) == LiveMemory(w.live, i)
    ensures forall i :: i in w.ledger && i != id ==> InStep(after.ledger[i], i, after.live)
  {
  }

  lemma AdmitAllInStep(w: World, job: string, id: string, a: ResourceAllocation)
    requires AllInStep(w) && OneTypeMove(w, Admit(job, id, a))
    ensures AllInStep(Make(w, Admit(job, id, a)))
  {
    hide Allocate, LiveGPUs, LiveCPUs, LiveMemory, PoolInStep, MeterInStep;
    if id in w.ledger {
      var n, after := w.ledger[id], Make(w, Admit(job, id, a));
      assert InStep(n, id, w.live);
      if Allocate(n, a).1 == Granted {
        SharesAdd(w.live, job, Held(id, ResolveType(n.spec, a.gpuType), a.gpuCount, a.cpuCores, a.memoryMB));
      }
      AdmitInStep(n, id, w.live, a, after.live);
      OthersInStep(w, after, id);
      AdmitOwnTypes(w, job, id, a);
    }
  }

  lemma FinishInStep(w: World, job: string)
    requires AllInStep(w) && job in w.live
    ensures var h, after := w.live[job], Make(w, Finish(job));
            && h.provider in w.ledger && after.ledger.Keys == w.ledger.Keys
            && after.ledger[h.provider].spec == w.ledger[h.provider].spec
            && InStep(after.ledger[h.provider], h.provider, after.live)
  {
    hide Release, LiveGPUs, LiveCPUs, LiveMemory, PoolInStep, MeterInStep, ResolveType, RecoveredType, OwnType;
    var h, after := w.live[job], Make(w, Finish(job));
    var n, id := w.ledger[h.provider], h.provider;
    assert JobSound(w.ledger, h) && InStep(n, id, w.live);
    assert n.cap.availableGPUs.Made?;
    SharesRemove(w.live, job);
    assert JobsSound(w.ledger, after.live);
    SharesNonNegative(w.ledger, after.live);
    FinishMetersInStep(n, h, LiveCPUs(w.live, id), LiveMemory(w.live, id));
    forall t ensures PoolInStep(after.ledger[id], t, LiveGPUs(after.live, id, t)) {
      assert PoolInStep(n, t, LiveGPUs(w.live, id, t));
      FinishPoolInStep(n, h, t, LiveGPUs(w.live, id, t));
    }
  }

  lemma FinishAllInStep(w: World, job: string)
    requires AllInStep(w) && job in w.live
    ensures AllInStep(Make(w, Finish(job)))
  {
    hide Release, LiveGPUs, LiveCPUs, LiveMemory, InStep, ResolveType;
    var after := Make(w, Finish(job));
    FinishInStep(w, job);
    SharesRemove(w.live, job);
    OthersInStep(w, after, w.live[job].provider);
    forall j | j in after.live ensures JobSound(after.ledger, after.live[j]) && OwnType(after.ledger, after.live[j]) {
      assert JobSound(w.ledger, w.live[j]) && OwnType(w.ledger, w.live[j]);
    }
  }

  lemma {:induction false} RunInStep(w: World, moves: seq<Move>)
    requires AllInStep(w) && OneTypeRun(w, moves)
    ensures AllInStep(Play(w, moves))
    decreases |moves|
  {
    if moves != [] {
      match moves[0] {
        case Admit(job, id, a) => AdmitAllInStep(w, job, id, a);
        case Finish(job) => FinishAllInStep(w, job);
      }
      RunInStep(Make(w, moves[0]), moves[1..]);
    }
  }

  lemma FreshInStep(l: Providers)
    requires forall id :: id in l ==> LegacyFresh(l[id])
    ensures AllInStep(World(l, map[]))
  {
  }

  // ---------------------------------------------------------------- the restarted ledger

  predicate Describes(p: PodInfo, h: Held) {
    p.providerID == h.provider && p.gpuCount == h.gpu && p.cpuCores == h.cpu && p.memoryMB == h.memory
  }

  /** The listing has exactly one pod for every live job, holding what the job was granted. */
  predicate Lists(pods: seq<PodInfo>, live: Jobs) {
    && (forall k :: 0 <= k < |pods| ==> pods[k].jobID in live && Describes(pods[k], live[pods[k].jobID]))
    && (forall i, k :: 0 <= i < k < |pods| ==> pods[i].jobID != pods[k].jobID)
    && (forall j :: j in live ==> exists k :: 0 <= k < |pods| && pods[k].jobID == j)
  }

  lemma ListsFront(pods: seq<PodInfo>, live: Jobs)
    requires Lists(pods, live) && pods != []
    ensures Lists(pods[..|pods| - 1], live - {pods[|pods| - 1].jobID})
  {
  }

  /** What the listed pods of a provider hold is what its live jobs hold. */
  lemma {:induction false} ListedDemand(pods: seq<PodInfo>, live: Jobs, id: string, g: string)
    requires Lists(pods, live)
    requires forall j :: j in live && live[j].provider == id ==> live[j].gpuType == g
    ensures Demanded(pods, id) == Demand(LiveGPUs(live, id, g), LiveCPUs(live, id), LiveMemory(live, id))
    decreases |pods|
  {
    if pods == [] {
      assert live == map[];
      assert GPUShares(live, id, g) == map[] && CPUShares(live, id) == map[] && MemoryShares(live, id) == map[];
    } else {
      var n := |pods| - 1;
      ListsFront(pods, live);
      ListedDemand(pods[..n], live - {pods[n].jobID}, id, g);
      assert Describes(pods[n], live[pods[n].jobID]);
      SharesRemove(live, pods[n].jobID);
      hide Lists, LiveGPUs, LiveCPUs, LiveMemory;
    }
  }

  lemma ListedProviders(pods: seq<PodInfo>, live: Jobs, id: string)
    requires Lists(pods, live) && id != ""
    ensures HasPods(pods, id) <==> !Idle(live, id)
  {
  }

  /** The same lazily initialised capacity for GPU type g, of providers with the same inventory. */
  ghost predicate AlikeFor(n: Node, m: Node, g: string) {
    && RecoveredType(n.spec) == RecoveredType(m.spec)
    && n.spec.cpuCores == m.spec.cpuCores && n.spec.totalMemoryMB == m.spec.totalMemoryMB
    && Agrees(Primed(n, g).cap, Primed(m, g).cap)
  }

  /** Indistinguishable to the scheduler: alike for the provider's own type. */
  ghost predicate Equivalent(n: Node, m: Node) {
    AlikeFor(n, m, RecoveredType(n.spec))
  }

  /** The capacities agree on everything rentals read; the status text of the last mining pod is lost. */
  ghost predicate Agrees(c: ProviderCapacity, d: ProviderCapacity) {
    && (forall t :: c.availableGPUs.Count(t) == d.availableGPUs.Count(t) && c.inUseGPUs.Count(t) == d.inUseGPUs.Count(t))
    && c.cpu == d.cpu && c.memory == d.memory
  }

  ghost predicate SameCounts(c: ProviderCapacity, d: ProviderCapacity, t: string) {
    c.availableGPUs.Count(t) == d.availableGPUs.Count(t) && c.inUseGPUs.Count(t) == d.inUseGPUs.Count(t)
  }

  lemma AgreesByType(x: ProviderCapacity, y: ProviderCapacity)
    ensures Agrees(x, y) <==> (forall t :: SameCounts(x, y, t)) && x.cpu == y.cpu && x.memory == y.memory
  {
    if forall t :: SameCounts(x, y, t) {
      forall t ensures x.availableGPUs.Count(t) == y.availableGPUs.Count(t) && x.inUseGPUs.Count(t) == y.inUseGPUs.Count(t) {
        assert SameCounts(x, y, t);
      }
    }
  }

  lemma MeterRestarts(m: Meter, inventory: int, held: int)
    requires MeterInStep(m, inventory, held)
    ensures PrimedMeter(RecoverMeter(Bare(m.legacy), held), inventory) == PrimedMeter(m, inventory)
    ensures held == 0 ==> PrimedMeter(Bare(m.legacy), inventory) == PrimedMeter(m, inventory)
  {
  }

  lemma IdleHoldsNothing(live: Jobs, id: string)
    requires Idle(live, id)
    ensures LiveCPUs(live, id) == 0 && LiveMemory(live, id) == 0 && forall t :: LiveGPUs(live, id, t) == 0
  {
  }

  /** A provider's own reports of its free and rented GPUs. */
  ghost predicate SameReports(c: ProviderCapacity, d: ProviderCapacity) {
    AvailableGPUCount(c) == AvailableGPUCount(d) && c.inUseGPUs.Sum() == d.inUseGPUs.Sum()
  }

  lemma SumOfOne(p: Pool, g: string)
    requires forall t :: t != g ==> p.Count(t) == 0
    ensures p.Sum() == p.Count(g)
  {
    if p.Made? {
      forall t | t in p.counts && t != g ensures p.counts[t] == 0 {
        assert p.Count(t) == 0;
      }
      TotalSingle(p.counts, g);
    }
  }

  lemma ReportsInStep(n: Node, id: string, live: Jobs)
    requires InStep(n, id, live)
    ensures var held := LiveGPUs(live, id, RecoveredType(n.spec));
            AvailableGPUCount(n.cap) == n.cap.gpuCount - held && n.cap.inUseGPUs.Sum() == held
  {
    hide LiveGPUs, LiveCPUs, LiveMemory, MeterInStep;
    var g := RecoveredType(n.spec);
    assert PoolInStep(n, g, LiveGPUs(live, id, g));
    if n.cap.availableGPUs.Made? {
      forall t | t != g ensures n.cap.availableGPUs.Count(t) == 0 && n.cap.inUseGPUs.Count(t) == 0 {
        assert PoolInStep(n, t, LiveGPUs(live, id, t));
      }
      SumOfOne(n.cap.availableGPUs, g);
      SumOfOne(n.cap.inUseGPUs, g);
    }
  }

  lemma ReportsRestart(n: Node, id: string, live: Jobs, d: Demand)
    requires InStep(n, id, live)
    requires d == Demand(LiveGPUs(live, id, RecoveredType(n.spec)), LiveCPUs(live, id), LiveMemory(live, id))
    ensures SameReports(n.cap, RestartedNode(n, !Idle(live, id), d).cap)
  {
    hide LiveGPUs, LiveCPUs, LiveMemory, MeterInStep;
    var g := RecoveredType(n.spec);
    var m := RestartedNode(n, !Idle(live, id), d);
    ReportsInStep(n, id, live);
    assert PoolInStep(n, g, LiveGPUs(live, id, g));
    if Idle(live, id) {
      IdleHoldsNothing(live, id);
    } else {
      SumOfOne(m.cap.availableGPUs, g);
      SumOfOne(m.cap.inUseGPUs, g);
    }
  }

  /** The provider after the restart, given what its live jobs hold. */
  function RestartedNode(n: Node, busy: bool, d: Demand): Node {
    if busy then RecoverNode(Reloaded(n), d) else Reloaded(n)
  }

  lemma PoolRestarts(n: Node, t: string, held: int, heldOwn: int, busy: bool, d: Demand)
    requires n.cap.gpuCount == n.spec.totalGPUs && 0 <= n.cap.gpuCount
    requires n.spec.gpus == [] || n.spec.gpus[0] != ""
    requires n.cap.availableGPUs.NilMap? == n.cap.inUseGPUs.NilMap?
    requires PoolInStep(n, t, held) && PoolInStep(n, RecoveredType(n.spec), heldOwn)
    requires t == RecoveredType(n.spec) ==> held == heldOwn
    requires if busy then d.gpu == heldOwn && n.cap.availableGPUs.Made? else heldOwn == 0 && held == 0
    ensures var g := RecoveredType(n.spec);
            var x, y := Primed(n, g).cap, Primed(RestartedNode(n, busy, d), g).cap;
            x.availableGPUs.Count(t) == y.availableGPUs.Count(t) && x.inUseGPUs.Count(t) == y.inUseGPUs.Count(t)
  {
  }

  lemma NodeRestarts(n: Node, id: string, live: Jobs, d: Demand)
    requires InStep(n, id, live)
    requires d == Demand(LiveGPUs(live, id, RecoveredType(n.spec)), LiveCPUs(live, id), LiveMemory(live, id))
    ensures Equivalent(n, RestartedNode(n, !Idle(live, id), d))
  {
    hide LiveGPUs, LiveCPUs, LiveMemory, PoolInStep, MeterInStep;
    var g := RecoveredType(n.spec);
    MeterRestarts(n.cap.cpu, n.spec.cpuCores, LiveCPUs(live, id));
    MeterRestarts(n.cap.memory, n.spec.totalMemoryMB, LiveMemory(live, id));
    if Idle(live, id) {
      IdleHoldsNothing(live, id);
    }
    var m := RestartedNode(n, !Idle(live, id), d);
    assert m.cap.cpu == if Idle(live, id) then Bare(n.cap.cpu.legacy) else RecoverMeter(Bare(n.cap.cpu.legacy), d.cpu);
    assert PoolInStep(n, g, LiveGPUs(live, id, g));
    forall t
      ensures Primed(n, g).cap.availableGPUs.Count(t) == Primed(m, g).cap.availableGPUs.Count(t)
      ensures Primed(n, g).cap.inUseGPUs.Count(t) == Primed(m, g).cap.inUseGPUs.Count(t)
    {
      assert PoolInStep(n, t, LiveGPUs(live, id, t));
      PoolRestarts(n, t, LiveGPUs(live, id, t), LiveGPUs(live, id, g), !Idle(live, id), d);
    }
  }

  lemma RestartedAt(l: Providers, rows: seq<string>, pods: seq<PodInfo>, id: string)
    ensures id in Restarted(l, rows, pods) <==> id in l && id in rows
    ensures id in l && id in rows ==>
              Restarted(l, rows, pods)[id] == RestartedNode(l[id], HasPods(pods, id), Demanded(pods, id))
  {
  }

  /** What a live provider's listed pods hold is the demand its restart sees. */
  lemma DemandAtRestart(w: World, pods: seq<PodInfo>, id: string)
    requires AllInStep(w) && Lists(pods, w.live) && id in w.ledger && id != ""
    ensures Demanded(pods, id) ==
              Demand(LiveGPUs(w.live, id, RecoveredType(w.ledger[id].spec)), LiveCPUs(w.live, id), LiveMemory(w.live, id))
    ensures HasPods(pods, id) <==> !Idle(w.live, id)
  {
    hide LiveGPUs, LiveCPUs, LiveMemory, Demanded, InStep, Lists, HasPods;
    var g := RecoveredType(w.ledger[id].spec);
    forall j | j in w.live && w.live[j].provider == id ensures w.live[j].gpuType == g {
      assert OwnType(w.ledger, w.live[j]);
    }
    ListedDemand(pods, w.live, id, g);
    ListedProviders(pods, w.live, id);
  }

  lemma WorldRestarts(w: World, rows: seq<string>, pods: seq<PodInfo>, id: string)
    requires AllInStep(w) && Lists(pods, w.live) && id in w.ledger && id in rows && id != ""
    ensures id in Restarted(w.ledger, rows, pods)
    ensures Equivalent(w.ledger[id], Restarted(w.ledger, rows, pods)[id])
    ensures SameReports(w.ledger[id].cap, Restarted(w.ledger, rows, pods)[id].cap)
  {
    hide SameReports, Restarted, RestartedNode, LiveGPUs, LiveCPUs, LiveMemory, Demanded, InStep, Equivalent, Lists, HasPods;
    DemandAtRestart(w, pods, id);
    NodeRestarts(w.ledger[id], id, w.live, Demanded(pods, id));
    ReportsRestart(w.ledger[id], id, w.live, Demanded(pods, id));
    RestartedAt(w.ledger, rows, pods, id);
  }

  /** How many providers come back. */
  lemma ReloadedKeys(l: Providers, rows: seq<string>, pods: seq<PodInfo>, table: map<string, Search.Provider>)
    requires table.Keys == l.Keys && Search.ListsAll(rows, table)
    ensures var rebuilt := Restarted(l, rows, pods);
            && |rebuilt| == (if |l| <= 100 then |l| else 100)
            && (rebuilt.Keys == l.Keys <==> |l| <= 100)
  {
    hide Restarted, Search.ListsAll;
    var rebuilt, named := Restarted(l, rows, pods), set id | id in rows;
    Search.ReloadComplete(rows, table);
    forall id ensures id in rebuilt <==> id in named {
      RestartedAt(l, rows, pods, id);
    }
    assert rebuilt.Keys == named;
    Search.ListedSize(rows, named);
    assert |rebuilt| == |rebuilt.Keys| && |l| == |l.Keys| && |table| == |table.Keys|;
    if |l| <= 100 {
      assert named == table.Keys;
    }
  }

  lemma {:induction false} PlayKeys(w: World, moves: seq<Move>)
    requires LegalRun(w, moves) || OneTypeRun(w, moves)
    ensures Play(w, moves).ledger.Keys == w.ledger.Keys
    decreases |moves|
  {
    if moves != [] {
      PlayKeys(Make(w, moves[0]), moves[1..]);
    }
  }

  /** Restart refinement. Legacy providers, after any run of rentals and returns of their own GPU type, when the
      pods are exactly the live jobs: the ledger rebuilt from the rows the database returned and from the pods is
      indistinguishable from the one that was lost, for every provider the rows name. All providers come back
      exactly when there are at most 100 of them; otherwise 100 do. */
  lemma RestartRefines(l: Providers, moves: seq<Move>, pods: seq<PodInfo>, table: map<string, Search.Provider>, rows: seq<string>)
    requires forall id :: id in l ==> id != "" && LegacyFresh(l[id])
    requires OneTypeRun(World(l, map[]), moves)
    requires Lists(pods, Play(World(l, map[]), moves).live)
    requires table.Keys == l.Keys && Search.ListsAll(rows, table)
    ensures var lost := Play(World(l, map[]), moves).ledger;
            var rebuilt := Restarted(lost, rows, pods);
            && (forall id :: id in rebuilt ==> id in lost && Equivalent(lost[id], rebuilt[id]) && SameReports(lost[id].cap, rebuilt[id].cap))
            && |rebuilt| == (if |lost| <= 100 then |lost| else 100)
            && (rebuilt.Keys == lost.Keys <==> |lost| <= 100)
  {
    hide SameReports, Equivalent, OneTypeRun, InStep, LegacyFresh, Lists, Restarted, Search.ListsAll;
    var w := Play(World(l, map[]), moves);
    FreshInStep(l);
    RunInStep(World(l, map[]), moves);
    PlayKeys(World(l, map[]), moves);
    var rebuilt := Restarted(w.ledger, rows, pods);
    forall id | id in rebuilt
      ensures id in w.ledger && Equivalent(w.ledger[id], rebuilt[id]) && SameReports(w.ledger[id].cap, rebuilt[id].cap)
    {
      RestartedAt(w.ledger, rows, pods, id);
      WorldRestarts(w, rows, pods, id);
    }
    ReloadedKeys(w.ledger, rows, pods, table);
  }

  /** A rebuilt provider is in step with the jobs its pods stand for, if they are of its own type and fit its cores
      and memory. Its pools have been made only if there are any. */
  lemma RebuiltIsSound(n: Node, id: string, live: Jobs, busy: bool, d: Demand)
    requires var m := RestartedNode(n, busy, d);
             && d == Demand(LiveGPUs(live, id, RecoveredType(m.spec)), LiveCPUs(live, id), LiveMemory(live, id))
             && (forall t :: t != RecoveredType(m.spec) ==> LiveGPUs(live, id, t) == 0)
             && 0 <= d.gpu && 0 <= d.cpu <= EffectiveTotal(m.cap.cpu, m.spec.cpuCores)
             && 0 <= d.memory <= EffectiveTotal(m.cap.memory, m.spec.totalMemoryMB)
             && (busy || d == Demand(0, 0, 0))
    ensures NodeSound(RestartedNode(n, busy, d), id, live)
  {
    hide LiveGPUs, LiveCPUs, LiveMemory;
  }

  lemma NoForeignGPUs(live: Jobs, id: string, g: string)
    requires forall j :: j in live && live[j].provider == id ==> live[j].gpuType == g
    ensures forall t :: t != g ==> LiveGPUs(live, id, t) == 0
  {
    forall t | t != g ensures LiveGPUs(live, id, t) == 0 {
      assert GPUShares(live, id, t) == map[];
    }
  }

  /** Every ledger after a boot is one that the theorems on clean runs start from: without pods always, and with
      pods if they are of their providers' own types and fit their cores and memory. */
  lemma BootIsSound(l: Providers, rows: seq<string>, pods: seq<PodInfo>, live: Jobs)
    requires "" !in l && Lists(pods, live)
    requires var booted := Restarted(l, rows, pods);
             && JobsSound(booted, live) && (forall j :: j in live ==> OwnType(booted, live[j]))
             && forall id :: id in booted ==>
                  && LiveCPUs(live, id) <= EffectiveTotal(booted[id].cap.cpu, booted[id].spec.cpuCores)
                  && LiveMemory(live, id) <= EffectiveTotal(booted[id].cap.memory, booted[id].spec.totalMemoryMB)
    ensures Sound(World(Restarted(l, rows, pods), live))
  {
    hide Restarted, RestartedNode, LiveGPUs, LiveCPUs, LiveMemory, NodeSound, Lists, HasPods, Demanded, EffectiveTotal;
    var booted := Restarted(l, rows, pods);
    SharesNonNegative(booted, live);
    forall id | id in booted ensures NodeSound(booted[id], id, live) {
      var g := RecoveredType(booted[id].spec);
      forall j | j in live && live[j].provider == id ensures live[j].gpuType == g {
        assert OwnType(booted, live[j]);
      }
      RestartedAt(l, rows, pods, id);
      ListedDemand(pods, live, id, g);
      ListedProviders(pods, live, id);
      NoForeignGPUs(live, id, g);
      if Idle(live, id) {
        IdleHoldsNothing(live, id);
      }
      RebuiltIsSound(l[id], id, live, HasPods(pods, id), Demanded(pods, id));
    }
  }

  // ---------------------------------------------------------------- what indistinguishable means

  /** The verdicts a provider gives to a sequence of rental requests. */
  function Answers(n: Node, requests: seq<ResourceAllocation>): seq<Verdict>
    decreases |requests|
  {
    if requests == [] then [] else
      var (after, verdict) := Allocate(n, requests[0]);
      [verdict] + Answers(after, requests[1..])
  }

  predicate OfOwnType(n: Node, a: ResourceAllocation) {
    ResolveType(n.spec, a.gpuType) == RecoveredType(n.spec)
  }

  /** Pools that have been made, or not, on both sides: then the providers are alike for every GPU type. */
  predicate MadeAlike(n: Node, m: Node) {
    n.cap.availableGPUs.NilMap? == m.cap.availableGPUs.NilMap?
  }

  lemma AlikeForAny(n: Node, m: Node, a: ResourceAllocation)
    requires Equivalent(n, m) && (MadeAlike(n, m) || OfOwnType(n, a))
    ensures ResolveType(n.spec, a.gpuType) == ResolveType(m.spec, a.gpuType)
    ensures AlikeFor(n, m, ResolveType(n.spec, a.gpuType))
  {
    var g, t := RecoveredType(n.spec), ResolveType(n.spec, a.gpuType);
    assert Primed(n, g).cap.availableGPUs.Count(g) == Primed(m, g).cap.availableGPUs.Count(g);
    forall x
      ensures Primed(n, t).cap.availableGPUs.Count(x) == Primed(m, t).cap.availableGPUs.Count(x)
      ensures Primed(n, t).cap.inUseGPUs.Count(x) == Primed(m, t).cap.inUseGPUs.Count(x)
    {
      assert Primed(n, g).cap.inUseGPUs.Count(x) == Primed(m, g).cap.inUseGPUs.Count(x);
    }
  }

  /** Once the pools are made, alike for one type is alike for all. */
  lemma AlikeWhenMade(n: Node, m: Node, t: string)
    requires AlikeFor(n, m, t) && n.cap.availableGPUs.Made? && m.cap.availableGPUs.Made?
    requires n.cap.inUseGPUs.Made? && m.cap.inUseGPUs.Made?
    ensures Equivalent(n, m)
  {
    assert forall g :: PrimedPools(n, g) == n.cap && PrimedPools(m, g) == m.cap;
  }

  lemma PoolsMade(n: Node, a: ResourceAllocation)
    ensures Allocate(n, a).0.cap.availableGPUs.Made? && Allocate(n, a).0.cap.inUseGPUs.Made?
  {
  }

  lemma PrimedAfterGrant(n: Node, a: ResourceAllocation)
    requires 0 <= a.gpuCount && 0 <= a.cpuCores && 0 <= a.memoryMB
    requires Allocate(n, a).1 == Granted
    ensures var g := ResolveType(n.spec, a.gpuType);
            var before, x := Primed(n, g).cap, Allocate(n, a).0;
            var after := Primed(x, g).cap;
            && after.availableGPUs == x.cap.availableGPUs && after.inUseGPUs == x.cap.inUseGPUs
            && after.cpu == PrimedMeter(if a.cpuCores > 0 then Draw(before.cpu, a.cpuCores) else before.cpu, n.spec.cpuCores)
            && after.memory == PrimedMeter(if a.memoryMB > 0 then Draw(before.memory, a.memoryMB) else before.memory, n.spec.totalMemoryMB)
  {
  }

  lemma AlikeAfterGrant(n: Node, m: Node, a: ResourceAllocation)
    requires var g := ResolveType(n.spec, a.gpuType); ResolveType(m.spec, a.gpuType) == g && AlikeFor(n, m, g)
    requires 0 <= a.gpuCount && 0 <= a.cpuCores && 0 <= a.memoryMB
    requires Allocate(n, a).1 == Granted && Allocate(m, a).1 == Granted
    ensures AlikeFor(Allocate(n, a).0, Allocate(m, a).0, ResolveType(n.spec, a.gpuType))
  {
    GrantedTakes(n, a);
    GrantedTakes(m, a);
    hide Allocate;
    AdmitFrame(n, a);
    AdmitFrame(m, a);
    PrimedAfterGrant(n, a);
    PrimedAfterGrant(m, a);
  }

  lemma AlikeAfterRefusal(n: Node, m: Node, a: ResourceAllocation)
    requires var g := ResolveType(n.spec, a.gpuType); ResolveType(m.spec, a.gpuType) == g && AlikeFor(n, m, g)
    requires 0 <= a.gpuCount && 0 <= a.cpuCores && 0 <= a.memoryMB
    requires Allocate(n, a).1 != Granted && Allocate(m, a).1 != Granted
    ensures AlikeFor(Allocate(n, a).0, Allocate(m, a).0, ResolveType(n.spec, a.gpuType))
  {
    GrantedExactlyWhenCovered(n, a);
    GrantedExactlyWhenCovered(m, a);
    RefusedLeavesNothing(n, a);
    RefusedLeavesNothing(m, a);
    AdmitFrame(n, a);
    AdmitFrame(m, a);
    hide Allocate;
  }

  lemma SameVerdict(n: Node, m: Node, a: ResourceAllocation)
    requires var g := ResolveType(n.spec, a.gpuType); ResolveType(m.spec, a.gpuType) == g && AlikeFor(n, m, g)
    ensures Allocate(n, a).1 == Allocate(m, a).1
  {
  }

  /** One request to indistinguishable providers: the same verdict, and indistinguishable providers with pools. */
  lemma SameStep(n: Node, m: Node, a: ResourceAllocation)
    requires Equivalent(n, m) && (MadeAlike(n, m) || OfOwnType(n, a))
    requires 0 <= a.gpuCount && 0 <= a.cpuCores && 0 <= a.memoryMB
    ensures Allocate(n, a).1 == Allocate(m, a).1
    ensures Equivalent(Allocate(n, a).0, Allocate(m, a).0) && MadeAlike(Allocate(n, a).0, Allocate(m, a).0)
  {
    hide Allocate, Equivalent, AlikeFor;
    AlikeForAny(n, m, a);
    SameVerdict(n, m, a);
    if Allocate(n, a).1 == Granted {
      AlikeAfterGrant(n, m, a);
    } else {
      AlikeAfterRefusal(n, m, a);
    }
    PoolsMade(n, a);
    PoolsMade(m, a);
    AlikeWhenMade(Allocate(n, a).0, Allocate(m, a).0, ResolveType(n.spec, a.gpuType));
  }

  /** Indistinguishable providers give the same answers to every later sequence of rental requests, for any GPU
      types, if the first is for the provider's own type, or the pools have been made on both sides or neither. */
  lemma {:induction false} SameAnswers(n: Node, m: Node, requests: seq<ResourceAllocation>)
    requires Equivalent(n, m)
    requires MadeAlike(n, m) || requests == [] || OfOwnType(n, requests[0])
    requires forall a :: a in requests ==> 0 <= a.gpuCount && 0 <= a.cpuCores && 0 <= a.memoryMB
    ensures Answers(n, requests) == Answers(m, requests)
    decreases |requests|
  {
    if requests != [] {
      hide Allocate, Equivalent;
      assert requests[0] in requests;
      SameStep(n, m, requests[0]);
      SameAnswers(Allocate(n, requests[0]).0, Allocate(m, requests[0]).0, requests[1..]);
    }
  }

  /** A request, or a return. */
  datatype Exchange = Ask(allocation: ResourceAllocation) | GiveBack(gpuType: string, gpu: int, cpu: int, memory: int)

  /** The verdicts on the requests of a sequence of requests and returns. */
  function Replies(n: Node, exchanges: seq<Exchange>): seq<Verdict>
    decreases |exchanges|
  {
    if exchanges == [] then [] else
      match exchanges[0]
      case Ask(a) => var (after, verdict) := Allocate(n, a); [verdict] + Replies(after, exchanges[1..])
      case GiveBack(t, gpu, cpu, memory) => Replies(Release(n, t, gpu, cpu, memory), exchanges[1..])
  }

  /** Providers with pools, equal in every count and in both meters. */
  ghost predicate Twins(n: Node, m: Node) {
    && RecoveredType(n.spec) == RecoveredType(m.spec)
    && n.spec.cpuCores == m.spec.cpuCores && n.spec.totalMemoryMB == m.spec.totalMemoryMB
    && n.cap.availableGPUs.Made? && m.cap.availableGPUs.Made? && n.cap.inUseGPUs.Made? && m.cap.inUseGPUs.Made?
    && Agrees(n.cap, m.cap)
  }

  lemma TwinsAskMeters(n: Node, m: Node, a: ResourceAllocation)
    requires Twins(n, m) && Allocate(n, a).1 == Allocate(m, a).1
    ensures Allocate(n, a).0.cap.cpu == Allocate(m, a).0.cap.cpu && Allocate(n, a).0.cap.memory == Allocate(m, a).0.cap.memory
  {
    hide Pool.Add, Pool.Count;
  }

  lemma TakeAlike(c: ProviderCapacity, d: ProviderCapacity, g: string, k: int, t: string)
    requires c.availableGPUs.Made? && c.inUseGPUs.Made? && d.availableGPUs.Made? && d.inUseGPUs.Made?
    requires SameCounts(c, d, t) && SameCounts(c, d, g)
    ensures SameCounts(Take(c, g, k), Take(d, g, k), t)
  {
  }

  lemma TwinsAskPools(n: Node, m: Node, a: ResourceAllocation)
    requires Twins(n, m)
    ensures Allocate(n, a).1 == Allocate(m, a).1 && Agrees(Allocate(n, a).0.cap, Allocate(m, a).0.cap)
  {
    hide Allocate, Take;
    var g := ResolveType(n.spec, a.gpuType);
    assert g == ResolveType(m.spec, a.gpuType);
    RentPools(n, a);
    RentPools(m, a);
    SameVerdict(n, m, a);
    TwinsAskMeters(n, m, a);
    assert PrimedPools(n, g) == n.cap && PrimedPools(m, g) == m.cap;
    AgreesByType(n.cap, m.cap);
    AgreesByType(Allocate(n, a).0.cap, Allocate(m, a).0.cap);
    hide PrimedPools, Agrees;
    forall t ensures SameCounts(Allocate(n, a).0.cap, Allocate(m, a).0.cap, t) {
      assert SameCounts(n.cap, m.cap, t) && SameCounts(n.cap, m.cap, g);
      TakeAlike(n.cap, m.cap, g, a.gpuCount, t);
      TakeAlike(n.cap, m.cap, g, -Negative(a.gpuCount), t);
    }
  }

  lemma TwinsAsk(n: Node, m: Node, a: ResourceAllocation)
    requires Twins(n, m)
    ensures Allocate(n, a).1 == Allocate(m, a).1 && Twins(Allocate(n, a).0, Allocate(m, a).0)
  {
    TwinsAskPools(n, m, a);
    AdmitFrame(n, a);
    AdmitFrame(m, a);
    PoolsMade(n, a);
    PoolsMade(m, a);
  }

  lemma TwinsGiveBack(n: Node, m: Node, t: string, gpu: int, cpu: int, memory: int)
    requires Twins(n, m)
    ensures Twins(Release(n, t, gpu, cpu, memory), Release(m, t, gpu, cpu, memory))
  {
    var g := ResolveType(n.spec, t);
    assert g == ResolveType(m.spec, t);
    var x, y := Release(n, t, gpu, cpu, memory).cap, Release(m, t, gpu, cpu, memory).cap;
    forall u ensures x.availableGPUs.Count(u) == y.availableGPUs.Count(u) && x.inUseGPUs.Count(u) == y.inUseGPUs.Count(u) {
      assert n.cap.availableGPUs.Count(u) == m.cap.availableGPUs.Count(u);
      assert n.cap.inUseGPUs.Count(u) == m.cap.inUseGPUs.Count(u);
      assert n.cap.inUseGPUs.Count(g) == m.cap.inUseGPUs.Count(g);
    }
  }

  lemma {:induction false} TwinsReplyAlike(n: Node, m: Node, exchanges: seq<Exchange>)
    requires Twins(n, m)
    ensures Replies(n, exchanges) == Replies(m, exchanges)
    decreases |exchanges|
  {
    if exchanges != [] {
      hide Twins, Allocate, Release;
      match exchanges[0] {
        case Ask(a) =>
          TwinsAsk(n, m, a);
          TwinsReplyAlike(Allocate(n, a).0, Allocate(m, a).0, exchanges[1..]);
        case GiveBack(t, gpu, cpu, memory) =>
          TwinsGiveBack(n, m, t, gpu, cpu, memory);
          TwinsReplyAlike(Release(n, t, gpu, cpu, memory), Release(m, t, gpu, cpu, memory), exchanges[1..]);
      }
    }
  }

  lemma RentalMakesTwins(n: Node, m: Node, a: ResourceAllocation)
    requires Equivalent(n, m) && (MadeAlike(n, m) || OfOwnType(n, a))
    requires 0 <= a.gpuCount && 0 < a.cpuCores && 0 < a.memoryMB
    requires Allocate(n, a).1 == Granted && Allocate(m, a).1 == Granted
    ensures Twins(Allocate(n, a).0, Allocate(m, a).0)
  {
    AlikeForAny(n, m, a);
    GrantedTakes(n, a);
    GrantedTakes(m, a);
    AdmitFrame(n, a);
    AdmitFrame(m, a);
    PoolsMade(n, a);
    PoolsMade(m, a);
    hide Allocate, Equivalent;
  }

  /** After one granted rental of some cores and some memory, indistinguishable providers reply alike to any later
      mix of requests and returns, of any types and amounts. ReturnBeforeFirstRental is the case this leaves. */
  lemma SameRepliesAfterRental(n: Node, m: Node, first: ResourceAllocation, later: seq<Exchange>)
    requires Equivalent(n, m) && (MadeAlike(n, m) || OfOwnType(n, first))
    requires 0 <= first.gpuCount && 0 < first.cpuCores && 0 < first.memoryMB
    requires Allocate(n, first).1 == Granted
    ensures Replies(n, [Ask(first)] + later) == Replies(m, [Ask(first)] + later)
  {
    var exchanges := [Ask(first)] + later;
    assert exchanges[1..] == later;
    SameStep(n, m, first);
    RentalMakesTwins(n, m, first);
    hide Allocate, Equivalent, Twins;
    TwinsReplyAlike(Allocate(n, first).0, Allocate(m, first).0, later);
  }

  // ---------------------------------------------------------------- the first sweep

  /** The sweep that follows the boot at once lists terminated pods as well, which recovery left out, and credits the
      jobs that have expired. A meter that is derived anew only at zero ends up as it would have without the restart,
      with kept still in use of held, exactly when nothing was credited and nothing returned; when it was full,
      and what was returned was credited; or when it is empty, and all of it was credited. */
  predicate Harmless(total: int, held: int, kept: int, credited: int) {
    || (credited == 0 && kept == held)
    || (held == total && credited == held - kept)
    || (kept == 0 && credited == total)
  }

  function TotalOf(m: Meter, inventory: int): int {
    EffectiveTotal(Bare(m.legacy), inventory)
  }

  lemma MeterSwept(m: Meter, after: Meter, inventory: int, held: int, kept: int, credited: int, busy: bool)
    requires MeterInStep(m, inventory, held) && MeterInStep(after, inventory, kept) && after.legacy == m.legacy
    requires 0 <= credited && kept <= held && (busy || held == 0)
    ensures var rebuilt := if busy then RecoverMeter(Bare(m.legacy), held) else Bare(m.legacy);
            PrimedMeter(Refill(rebuilt, credited), inventory) == PrimedMeter(after, inventory)
            <==> Harmless(TotalOf(m, inventory), held, kept, credited)
  {
  }

  /** The GPUs of type t after the sweep: an idle provider's pool holds what was credited and nothing else. */
  lemma PoolSwept(n: Node, id: string, live: Jobs, after: Node, rest: Jobs, d: Demand, m: Node, t: string, credited: int)
    requires InStep(n, id, live) && InStep(after, id, rest) && after.spec == n.spec && after.cap.gpuCount == n.cap.gpuCount
    requires d.gpu == LiveGPUs(live, id, RecoveredType(n.spec)) && 0 <= credited
    requires LiveGPUs(rest, id, t) <= LiveGPUs(live, id, t)
    requires var r := RestartedNode(n, !Idle(live, id), d).cap;
             && m.cap.availableGPUs.Made? && m.cap.inUseGPUs.NilMap? == r.inUseGPUs.NilMap?
             && m.cap.availableGPUs.Count(t) == r.availableGPUs.Count(t) + credited
             && m.cap.inUseGPUs.Count(t) == Floor(r.inUseGPUs.Count(t) - credited)
    ensures var g := RecoveredType(n.spec);
            var x, y := Primed(after, g).cap, Primed(m, g).cap;
            x.availableGPUs.Count(t) == y.availableGPUs.Count(t) && x.inUseGPUs.Count(t) == y.inUseGPUs.Count(t)
            <==> credited == if Idle(live, id) then (if t == g then n.cap.gpuCount else 0)
                             else LiveGPUs(live, id, t) - LiveGPUs(rest, id, t)
  {
    var g := RecoveredType(n.spec);
    assert PoolInStep(n, t, LiveGPUs(live, id, t)) && PoolInStep(n, g, LiveGPUs(live, id, g));
    assert PoolInStep(after, t, LiveGPUs(rest, id, t));
    if Idle(live, id) {
      IdleHoldsNothing(live, id);
    }
    hide InStep, LiveGPUs, LiveCPUs, LiveMemory, MeterInStep;
  }

  /** What the sweep must credit of type t. */
  ghost function DueRight(n: Node, id: string, live: Jobs, rest: Jobs, t: string): int {
    if Idle(live, id) then (if t == RecoveredType(n.spec) then n.cap.gpuCount else 0)
    else LiveGPUs(live, id, t) - LiveGPUs(rest, id, t)
  }

  /** The sweep credits what the returned jobs held and nothing that matters besides. To an idle provider it must
      credit nothing, or the whole GPU count under its own type. */
  ghost predicate SweepHarmless(n: Node, id: string, live: Jobs, rest: Jobs, pods: seq<PodInfo>, now: int) {
    var spec := Reloaded(n).spec;
    || (Idle(live, id) && !Owed(pods, now, id))
    || (&& (forall t :: DueGPUs(pods, now, id, spec, t) == DueRight(n, id, live, rest, t))
        && Harmless(TotalOf(n.cap.cpu, n.spec.cpuCores), LiveCPUs(live, id), LiveCPUs(rest, id), DueCPUs(pods, now, id))
        && Harmless(TotalOf(n.cap.memory, n.spec.totalMemoryMB), LiveMemory(live, id), LiveMemory(rest, id), DueMemory(pods, now, id)))
  }

  /** Some of the live jobs have been returned, and nothing else has happened. */
  ghost predicate Returned(n: Node, live: Jobs, after: Node, rest: Jobs, id: string) {
    && InStep(n, id, live) && InStep(after, id, rest)
    && after.spec == n.spec && after.cap.gpuCount == n.cap.gpuCount
    && after.cap.cpu.legacy == n.cap.cpu.legacy && after.cap.memory.legacy == n.cap.memory.legacy
    && (Idle(live, id) ==> Idle(rest, id))
    && (forall t :: LiveGPUs(rest, id, t) <= LiveGPUs(live, id, t))
    && LiveCPUs(rest, id) <= LiveCPUs(live, id) && LiveMemory(rest, id) <= LiveMemory(live, id)
  }

  lemma SweptCounts(l: Providers, pods: seq<PodInfo>, now: int, id: string)
    requires id in l && id != "" && 0 <= l[id].cap.cpu.inUse && 0 <= l[id].cap.memory.inUse
    requires forall t :: 0 <= l[id].cap.inUseGPUs.Count(t)
    requires forall p :: p in pods ==> 0 <= p.gpuCount && 0 <= p.cpuCores && 0 <= p.memoryMB
    ensures id in Swept(l, pods, now)
    ensures var before, after := l[id].cap, Swept(l, pods, now)[id].cap;
            && (forall t {:trigger DueGPUs(pods, now, id, l[id].spec, t)} ::
                  && 0 <= DueGPUs(pods, now, id, l[id].spec, t)
                  && after.availableGPUs.Count(t) == before.availableGPUs.Count(t) + DueGPUs(pods, now, id, l[id].spec, t)
                  && after.inUseGPUs.Count(t) == Floor(before.inUseGPUs.Count(t) - DueGPUs(pods, now, id, l[id].spec, t)))
            && after.inUseGPUs.NilMap? == before.inUseGPUs.NilMap?
            && after.cpu == Refill(before.cpu, DueCPUs(pods, now, id))
            && after.memory == Refill(before.memory, DueMemory(pods, now, id))
            && 0 <= DueCPUs(pods, now, id) && 0 <= DueMemory(pods, now, id)
            && Swept(l, pods, now)[id].spec == l[id].spec
  {
    SweptKeys(l, pods, now);
    SweepCreditsAllDue(l, pods, now, id, "");
    forall t
      ensures 0 <= DueGPUs(pods, now, id, l[id].spec, t)
      ensures Swept(l, pods, now)[id].cap.availableGPUs.Count(t) == l[id].cap.availableGPUs.Count(t) + DueGPUs(pods, now, id, l[id].spec, t)
      ensures Swept(l, pods, now)[id].cap.inUseGPUs.Count(t) == Floor(l[id].cap.inUseGPUs.Count(t) - DueGPUs(pods, now, id, l[id].spec, t))
    {
      SweepCreditsAllDue(l, pods, now, id, t);
    }
  }

  lemma RebuiltCounts(n: Node, id: string, live: Jobs, busy: bool, d: Demand)
    requires InStep(n, id, live)
    requires d == Demand(LiveGPUs(live, id, RecoveredType(n.spec)), LiveCPUs(live, id), LiveMemory(live, id))
    ensures var r := RestartedNode(n, busy, d);
            && r.spec == Reloaded(n).spec && RecoveredType(r.spec) == RecoveredType(n.spec)
            && (busy ==> r.cap.availableGPUs.Made?)
            && (forall t :: 0 <= r.cap.inUseGPUs.Count(t))
            && r.cap.cpu == (if busy then RecoverMeter(Bare(n.cap.cpu.legacy), d.cpu) else Bare(n.cap.cpu.legacy))
            && r.cap.memory == (if busy then RecoverMeter(Bare(n.cap.memory.legacy), d.memory) else Bare(n.cap.memory.legacy))
            && 0 <= r.cap.cpu.inUse && 0 <= r.cap.memory.inUse
  {
    assert PoolInStep(n, RecoveredType(n.spec), LiveGPUs(live, id, RecoveredType(n.spec)));
  }

  lemma PoolsSwept(l: Providers, n: Node, id: string, live: Jobs, after: Node, rest: Jobs, d: Demand, pods: seq<PodInfo>, now: int)
    requires Returned(n, live, after, rest, id) && id in l && id != ""
    requires d == Demand(LiveGPUs(live, id, RecoveredType(n.spec)), LiveCPUs(live, id), LiveMemory(live, id))
    requires l[id] == RestartedNode(n, !Idle(live, id), d)
    requires forall p :: p in pods ==> 0 <= p.gpuCount && 0 <= p.cpuCores && 0 <= p.memoryMB
    requires id in Swept(l, pods, now) && Swept(l, pods, now)[id].cap.availableGPUs.Made?
    ensures var g, spec := RecoveredType(n.spec), Reloaded(n).spec;
            var x, y := Primed(after, g).cap, Primed(Swept(l, pods, now)[id], g).cap;
            (forall t :: SameCounts(x, y, t)) <==> (forall t :: DueGPUs(pods, now, id, spec, t) == DueRight(n, id, live, rest, t))
  {
    RebuiltCounts(n, id, live, !Idle(live, id), d);
    SweptCounts(l, pods, now, id);
    hide LiveGPUs, LiveCPUs, LiveMemory, Swept, PoolInStep, MeterInStep, RestartedNode, Reloaded, Primed, DueGPUs, Owed, Floor;
    var g, m, spec := RecoveredType(n.spec), Swept(l, pods, now)[id], Reloaded(n).spec;
    var x, y := Primed(after, g).cap, Primed(m, g).cap;
    forall t
      ensures SameCounts(x, y, t) <==> DueGPUs(pods, now, id, spec, t) == DueRight(n, id, live, rest, t)
    {
      PoolSwept(n, id, live, after, rest, d, m, t, DueGPUs(pods, now, id, spec, t));
    }
    hide SameCounts, DueRight;
    if forall t :: SameCounts(x, y, t) {
      assert forall t :: DueGPUs(pods, now, id, spec, t) == DueRight(n, id, live, rest, t) <==> SameCounts(x, y, t);
    }
  }

  lemma PrimedMeters(n: Node, g: string)
    ensures Primed(n, g).cap.cpu == PrimedMeter(n.cap.cpu, n.spec.cpuCores)
    ensures Primed(n, g).cap.memory == PrimedMeter(n.cap.memory, n.spec.totalMemoryMB)
  {
  }

  lemma SpecReloaded(n: Node)
    ensures Reloaded(n).spec.cpuCores == n.spec.cpuCores && Reloaded(n).spec.totalMemoryMB == n.spec.totalMemoryMB
  {
  }

  lemma MetersSwept(l: Providers, n: Node, id: string, live: Jobs, after: Node, rest: Jobs, d: Demand, pods: seq<PodInfo>, now: int)
    requires Returned(n, live, after, rest, id) && id in l && id != ""
    requires d == Demand(LiveGPUs(live, id, RecoveredType(n.spec)), LiveCPUs(live, id), LiveMemory(live, id))
    requires l[id] == RestartedNode(n, !Idle(live, id), d)
    requires forall p :: p in pods ==> 0 <= p.gpuCount && 0 <= p.cpuCores && 0 <= p.memoryMB
    ensures id in Swept(l, pods, now)
    ensures var m, g := Swept(l, pods, now)[id], RecoveredType(n.spec);
            var x, y := Primed(after, g).cap, Primed(m, g).cap;
            && m.spec == Reloaded(n).spec
            && (x.cpu == y.cpu <==>
                  Harmless(TotalOf(n.cap.cpu, n.spec.cpuCores), LiveCPUs(live, id), LiveCPUs(rest, id), DueCPUs(pods, now, id)))
            && (x.memory == y.memory <==>
                  Harmless(TotalOf(n.cap.memory, n.spec.totalMemoryMB), LiveMemory(live, id), LiveMemory(rest, id), DueMemory(pods, now, id)))
  {
    if Idle(live, id) {
      IdleHoldsNothing(live, id);
    }
    RebuiltCounts(n, id, live, !Idle(live, id), d);
    SweptCounts(l, pods, now, id);
    MeterSwept(n.cap.cpu, after.cap.cpu, n.spec.cpuCores, LiveCPUs(live, id), LiveCPUs(rest, id), DueCPUs(pods, now, id), !Idle(live, id));
    MeterSwept(n.cap.memory, after.cap.memory, n.spec.totalMemoryMB, LiveMemory(live, id), LiveMemory(rest, id), DueMemory(pods, now, id), !Idle(live, id));
    PrimedMeters(after, RecoveredType(n.spec));
    PrimedMeters(Swept(l, pods, now)[id], RecoveredType(n.spec));
    SpecReloaded(n);
    hide *;
  }

  lemma OwedNodeSwept(l: Providers, n: Node, id: string, live: Jobs, after: Node, rest: Jobs, d: Demand, pods: seq<PodInfo>, now: int)
    requires Returned(n, live, after, rest, id) && id in l && id != ""
    requires d == Demand(LiveGPUs(live, id, RecoveredType(n.spec)), LiveCPUs(live, id), LiveMemory(live, id))
    requires l[id] == RestartedNode(n, !Idle(live, id), d)
    requires forall p :: p in pods ==> 0 <= p.gpuCount && 0 <= p.cpuCores && 0 <= p.memoryMB
    requires id in Swept(l, pods, now) && Swept(l, pods, now)[id].cap.availableGPUs.Made?
    requires !Idle(live, id) || Owed(pods, now, id)
    ensures Equivalent(after, Swept(l, pods, now)[id]) <==> SweepHarmless(n, id, live, rest, pods, now)
  {
    PoolsSwept(l, n, id, live, after, rest, d, pods, now);
    MetersSwept(l, n, id, live, after, rest, d, pods, now);
    SpecReloaded(n);
    TypeSurvives(n);
    assert n.spec.gpus == [] || n.spec.gpus[0] != "";
    hide InStep, LiveGPUs, LiveCPUs, LiveMemory, Swept, Harmless, TotalOf, RestartedNode, Reloaded, Primed, DueGPUs, DueCPUs, DueMemory, Owed, Idle, DueRight;
    var spec := Reloaded(n).spec;
    var x, y := Primed(after, RecoveredType(n.spec)).cap, Primed(Swept(l, pods, now)[id], RecoveredType(n.spec)).cap;
    AgreesByType(x, y);
    hide SameCounts, Agrees;
  }

  lemma NodeSwept(l: Providers, n: Node, id: string, live: Jobs, after: Node, rest: Jobs, d: Demand, pods: seq<PodInfo>, now: int)
    requires Returned(n, live, after, rest, id) && id in l && id != ""
    requires d == Demand(LiveGPUs(live, id, RecoveredType(n.spec)), LiveCPUs(live, id), LiveMemory(live, id))
    requires l[id] == RestartedNode(n, !Idle(live, id), d)
    requires forall p :: p in pods ==> 0 <= p.gpuCount && 0 <= p.cpuCores && 0 <= p.memoryMB
    ensures id in Swept(l, pods, now)
    ensures Equivalent(after, Swept(l, pods, now)[id]) <==> SweepHarmless(n, id, live, rest, pods, now)
  {
    SweptOnlyIfOwed(l, pods, now, id);
    RebuiltCounts(n, id, live, !Idle(live, id), d);
    if Idle(live, id) {
      IdleHoldsNothing(live, id);
      IdleHoldsNothing(rest, id);
    }
    if Idle(live, id) && !Owed(pods, now, id) {
      NodeRestarts(after, id, rest, d);
    } else {
      OwedNodeSwept(l, n, id, live, after, rest, d, pods, now);
    }
  }

  lemma ReturnedTransitive(a: Node, x: Jobs, b: Node, y: Jobs, c: Node, z: Jobs, id: string)
    requires Returned(a, x, b, y, id) && Returned(b, y, c, z, id)
    ensures Returned(a, x, c, z, id)
  {
    hide InStep, LiveGPUs, LiveCPUs, LiveMemory, Idle;
    forall t ensures LiveGPUs(z, id, t) <= LiveGPUs(x, id, t) {
      assert LiveGPUs(z, id, t) <= LiveGPUs(y, id, t) <= LiveGPUs(x, id, t);
    }
  }

  lemma NothingReturned(w: World, id: string)
    requires AllInStep(w) && id in w.ledger
    ensures Returned(w.ledger[id], w.live, w.ledger[id], w.live, id)
  {
  }

  lemma ReleaseFrame(l: Providers, h: Held)
    ensures var after := ReleaseAt(l, h.provider, h.gpuType, h.gpu, h.cpu, h.memory);
            after.Keys == l.Keys &&
            forall i :: i in l ==>
              && after[i].spec == l[i].spec && after[i].cap.gpuCount == l[i].cap.gpuCount
              && after[i].cap.cpu.legacy == l[i].cap.cpu.legacy && after[i].cap.memory.legacy == l[i].cap.memory.legacy
  {
  }

  lemma FinishReturns(w: World, job: string, id: string)
    requires AllInStep(w) && job in w.live && id in w.ledger
    ensures var next := Make(w, Finish(job));
            id in next.ledger && Returned(w.ledger[id], w.live, next.ledger[id], next.live, id)
  {
    hide Release, LiveGPUs, LiveCPUs, LiveMemory, InStep, ResolveType;
    FinishAllInStep(w, job);
    SharesRemove(w.live, job);
    ReleaseFrame(w.ledger, w.live[job]);
    assert JobSound(w.ledger, w.live[job]);
  }

  /** A run of returns only takes jobs away. */
  lemma {:induction false} ReturnsReturn(w: World, finishes: seq<Move>, id: string)
    requires AllInStep(w) && id in w.ledger
    requires OneTypeRun(w, finishes) && forall m :: m in finishes ==> m.Finish?
    ensures var after := Play(w, finishes);
            id in after.ledger && Returned(w.ledger[id], w.live, after.ledger[id], after.live, id)
    decreases |finishes|
  {
    if finishes != [] {
      assert finishes[0] in finishes;
      var job := finishes[0].job;
      var next := Make(w, finishes[0]);
      FinishAllInStep(w, job);
      FinishReturns(w, job, id);
      hide AllInStep, Returned, Make;
      ReturnsReturn(next, finishes[1..], id);
      var end := Play(w, finishes);
      ReturnedTransitive(w.ledger[id], w.live, next.ledger[id], next.live, end.ledger[id], end.live, id);
    } else {
      NothingReturned(w, id);
    }
  }

  /** Recovery followed by the first sweep gives a provider the ledger it would have without the crash, had some of
      the live jobs been returned, exactly when the sweep is harmless. Those that should have been returned are the
      jobs that have expired; with none at all, the ledger is compared with the lost one. */
  lemma BootThenSweep(l: Providers, moves: seq<Move>, finishes: seq<Move>, listing: seq<PodInfo>, rows: seq<string>, id: string, now: int)
    requires forall i :: i in l ==> i != "" && LegacyFresh(l[i])
    requires OneTypeRun(World(l, map[]), moves)
    requires OneTypeRun(Play(World(l, map[]), moves), finishes) && forall m :: m in finishes ==> m.Finish?
    requires Lists(Unterminated(listing), Play(World(l, map[]), moves).live)
    requires forall p :: p in listing ==> 0 <= p.gpuCount && 0 <= p.cpuCores && 0 <= p.memoryMB
    requires id in l && id in rows
    ensures var lost := Play(World(l, map[]), moves);
            var right := Play(lost, finishes);
            var booted := Swept(Restarted(lost.ledger, rows, Unterminated(listing)), listing, now);
            && id in lost.ledger && id in right.ledger && id in booted
            && (Equivalent(right.ledger[id], booted[id]) <==>
                  SweepHarmless(lost.ledger[id], id, lost.live, right.live, listing, now))
  {
    var w, pods := Play(World(l, map[]), moves), Unterminated(listing);
    FreshInStep(l);
    RunInStep(World(l, map[]), moves);
    PlayKeys(World(l, map[]), moves);
    ReturnsReturn(w, finishes, id);
    hide OneTypeRun, LegacyFresh, Lists, Equivalent, Restarted, Demanded, HasPods, RestartedNode, InStep, SweepHarmless, Returned, Unterminated;
    DemandAtRestart(w, pods, id);
    RestartedAt(w.ledger, rows, pods, id);
    NodeSwept(Restarted(w.ledger, rows, pods), w.ledger[id], id, w.live, Play(w, finishes).ledger[id], Play(w, finishes).live,
              Demanded(pods, id), listing, now);
  }

  lemma OneFailed(failed: PodInfo, l: Providers, now: int)
    requires Terminated(failed) && Creditable(failed)
    ensures Unterminated([failed]) == [] && Swept(l, [failed], now) == Credit(l, failed)
  {
    assert [failed][..0] == [];
    assert Swept(l, [], now) == l;
  }

  /** It need not: an idle provider of eight GPUs whose last job failed answers a request for two that it is short,
      because the credit of one GPU makes a pool of one before the stock of eight is created. */
  lemma SweepHidesTheStock(id: string, now: int)
    requires id != ""
    ensures var spec := SystemSpec(["T4"], 8, 32, 65536);
            var n := Node(spec, ProviderCapacity(8, NilMap, NilMap, NilMap, NilMap, Bare(32), Bare(65536), "", ""));
            var failed := PodInfo("job", "default", id, "Failed", 1, 4, 16384, "T4", None);
            var booted := Swept(Restarted(map[id := n], [id], Unterminated([failed])), [failed], now);
            var request := ResourceAllocation("T4", 2, 4, 16384);
            LegacyFresh(n) && Allocate(n, request).1 == Granted
            && id in booted && Allocate(booted[id], request).1 == ShortGPU
  {
    var n := Node(SystemSpec(["T4"], 8, 32, 65536),
                  ProviderCapacity(8, NilMap, NilMap, NilMap, NilMap, Bare(32), Bare(65536), "", ""));
    var failed := PodInfo("job", "default", id, "Failed", 1, 4, 16384, "T4", None);
    var rebuilt := Restarted(map[id := n], [id], Unterminated([failed]));
    OneFailed(failed, rebuilt, now);
    RestartedAt(map[id := n], [id], [], id);
    assert [id][0] == id && !HasPods([], id);
    hide Restarted, Unterminated, Swept;
    assert rebuilt[id] == Reloaded(n);
    assert rebuilt[id] == n;
  }

  // ---------------------------------------------------------------- the limits of the refinement

  /** A return that reaches a restarted provider before its first rental leaves the meter at the returned
      amount, because only zero is derived anew. The two ledgers then agree exactly when nothing was
      returned, or the provider had been rented out completely. */
  lemma ReturnBeforeFirstRental(m: Meter, inventory: int, held: int, returned: int)
    requires MeterInStep(m, inventory, held) && m.total > 0
    requires 0 <= returned <= held
    ensures var lost, rebuilt := Refill(m, returned), Refill(RecoverMeter(Bare(m.legacy), held), returned);
            PrimedMeter(rebuilt, inventory).available == PrimedMeter(lost, inventory).available
            <==> returned == 0 || held == m.total
  {
  }

  /** A first request for another GPU type than the provider's own gets the verdict it would have got without the
      restart, exactly unless the provider had made its pools and stands idle, and the request fits its GPU count:
      the restarted provider then finds its whole stock under the wrong type. */
  lemma ForeignTypeAfterRestart(n: Node, id: string, live: Jobs, d: Demand, a: ResourceAllocation)
    requires InStep(n, id, live) && !OfOwnType(n, a)
    requires d == Demand(LiveGPUs(live, id, RecoveredType(n.spec)), LiveCPUs(live, id), LiveMemory(live, id))
    ensures Allocate(n, a).1 == Allocate(RestartedNode(n, !Idle(live, id), d), a).1 <==>
              !(n.cap.availableGPUs.Made? && Idle(live, id) && 1 <= a.gpuCount <= n.cap.gpuCount)
  {
    var m, g := RestartedNode(n, !Idle(live, id), d), RecoveredType(n.spec);
    NodeRestarts(n, id, live, d);
    assert PoolInStep(n, a.gpuType, LiveGPUs(live, id, a.gpuType));
    hide InStep, LiveGPUs, LiveCPUs, LiveMemory, MeterInStep;
    assert Primed(n, g).cap.cpu == Primed(m, g).cap.cpu && Primed(n, g).cap.memory == Primed(m, g).cap.memory;
  }

  /** Mining counts are not restored: a provider whose pool was complete offers, after a restart, more than before
      by exactly its mining GPUs, whether it has pods or not; so it offers the same exactly when nothing was mined. */
  lemma RestartForgetsMining(n: Node, busy: bool, d: Demand)
    requires (n.spec.gpus == [] || n.spec.gpus[0] != "") && n.cap.gpuCount == n.spec.totalGPUs
    requires var g := RecoveredType(n.spec);
             && n.cap.availableGPUs.Made? && Pooled(n.cap, g) == n.spec.totalGPUs
             && 0 <= n.cap.availableGPUs.Count(g) && 0 <= n.cap.miningGPUs.Count(g)
             && 0 <= d.gpu == n.cap.inUseGPUs.Count(g) && (busy || d.gpu == 0)
    ensures var g := RecoveredType(n.spec);
            var before, after := Primed(n, g).cap, Primed(RestartedNode(n, busy, d), g).cap;
            && after.availableGPUs.Count(g) == before.availableGPUs.Count(g) + n.cap.miningGPUs.Count(g)
            && (after.availableGPUs.Count(g) == before.availableGPUs.Count(g) <==> n.cap.miningGPUs.Count(g) == 0)
  {
  }
}
