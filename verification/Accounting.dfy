/** Exact accounting of the GPU pools over finite runs of ledger steps. */
module Accounting {
  import opened Wrappers
  import opened Capacity
  import opened Ledger
  import opened Mining
  import opened Orchestrator

  /** One locked step on the ledger. Every interleaving of concurrent callers is a sequence of these. */
  datatype Step =
    | Rent(id: string, allocation: ResourceAllocation)
    | Return(id: string, gpuType: string, gpuCount: int, cpuCores: int, memoryMB: int)
    | MineMore(id: string, gpuType: string, count: int)
    | MineLess(id: string, gpuType: string, count: int)
    | MineDeploy(id: string, gpuType: string, config: MiningConfig, pod: Option<string>)
    | MineStop(id: string, podDeleted: bool)
    | MineTick(statuses: map<string, string>)

  /** The request handler rejects mining counts below one. */
  function HandlerUnreserve(n: Node, t: string, count: int): Node {
    if 1 <= count then Unreserve(n, t, count).0 else n
  }

  /** The node a step acts on, after the step. */
  ghost function ApplyOne(n: Node, id: string, s: Step): Node {
    match s
    case Rent(i, a) => if i == id then Allocate(n, a).0 else n
    case Return(i, t, gpu, cpu, mem) => if i == id then Release(n, t, gpu, cpu, mem) else n
    case MineMore(i, t, k) => if i == id then Reserve(n, t, k).0 else n
    case MineLess(i, t, k) => if i == id then HandlerUnreserve(n, t, k) else n
    case MineDeploy(i, t, config, pod) => if i == id then Deploy(n, t, config, pod).0 else n
    case MineStop(i, podDeleted) => if i == id then Stop(n, podDeleted) else n
    case MineTick(statuses) => Reconciled(n, StatusOf(statuses, id))
  }

  ghost function Apply(l: Providers, s: Step): Providers {
    map id | id in l :: ApplyOne(l[id], id, s)
  }

  ghost function Run(l: Providers, steps: seq<Step>): Providers
    decreases |steps|
  {
    if steps == [] then l else Run(Apply(l, steps[0]), steps[1..])
  }

  /** The steps are those the methods of Orchestrator perform, entry by entry. */
  lemma ApplyAgrees(l: Providers, s: Step)
    ensures Apply(l, s) ==
      match s
      case Rent(id, a) => AllocateAt(l, id, a).0
      case Return(id, t, gpu, cpu, mem) => ReleaseAt(l, id, t, gpu, cpu, mem)
      case MineMore(id, t, k) => if id in l then l[id := Reserve(l[id], t, k).0] else l
      case MineLess(id, t, k) => if id in l then l[id := HandlerUnreserve(l[id], t, k)] else l
      case MineDeploy(id, t, config, pod) => if id in l then l[id := Deploy(l[id], t, config, pod).0] else l
      case MineStop(id, podDeleted) => if id in l then l[id := Stop(l[id], podDeleted)] else l
      case MineTick(statuses) => TickAll(l, statuses)
  {
  }

  function Pooled(c: ProviderCapacity, t: string): int {
    c.availableGPUs.Count(t) + c.inUseGPUs.Count(t) + c.miningGPUs.Count(t)
  }

  /** What a release credits beyond what was in use. */
  function Uncovered(c: ProviderCapacity, t: string, released: int): int {
    if c.inUseGPUs.NilMap? then released
    else if released > c.inUseGPUs.Count(t) then released - c.inUseGPUs.Count(t)
    else 0
  }

  /** The stock the first rental creates in a provider without an available pool. */
  function FirstStock(n: Node): int {
    if n.cap.availableGPUs.Made? then 0
    else if n.cap.gpuCount > 0 then n.cap.gpuCount
    else if n.spec.totalGPUs > 0 then n.spec.totalGPUs
    else 0
  }

  /** GPUs of type t on offer to a deployment for type g: those of the pool, or of the totals when there is no pool. */
  function OnOffer(n: Node, g: string, t: string): int {
    if n.cap.availableGPUs.Made? then n.cap.availableGPUs.Count(t)
    else if n.cap.totalGPUs.Made? then n.cap.totalGPUs.Count(t)
    else if g != "" && t == g then n.spec.totalGPUs
    else 0
  }

  /** A deployment refills an empty stock from the inventory; the unnamed type always counts as empty. */
  predicate Refills(n: Node, g: string) {
    n.spec.totalGPUs > 0 && (g == "" || OnOffer(n, g, g) == 0)
  }

  /** The deployments that go through. */
  predicate Deploys(n: Node, g: string, config: MiningConfig, pod: Option<string>) {
    pod.Some? && config.gpuCount <= if Refills(n, g) then n.spec.totalGPUs else if g == "" then 0 else OnOffer(n, g, g)
  }

  /** GPUs of type t that making and refilling the pool adds to it. */
  function Gained(n: Node, g: string, t: string): int {
    (if t == g && Refills(n, g) then n.spec.totalGPUs else OnOffer(n, g, t)) - n.cap.availableGPUs.Count(t)
  }

  /** Mining GPUs of type t whose count a deployment overwrites. */
  function Forgotten(n: Node, g: string, config: MiningConfig, pod: Option<string>, t: string): int {
    if t == g && Deploys(n, g, config, pod) then n.cap.miningGPUs.Count(g) else 0
  }

  /** GPUs of type t that a step creates (or, when negative, loses), read off the state before the step. */
  function Drift(n: Node, id: string, s: Step, t: string): int {
    match s
    case Rent(i, a) => if i == id && t == ResolveType(n.spec, a.gpuType) then FirstStock(n) else 0
    case Return(i, gpuType, gpu, _, _) =>
      if i == id && t == ResolveType(n.spec, gpuType) then Uncovered(n.cap, t, gpu) else 0
    case MineDeploy(i, g, config, pod) =>
      if i == id then Gained(n, g, t) - Forgotten(n, g, config, pod, t) else 0
    case _ => 0
  }

  ghost function Excess(l: Providers, steps: seq<Step>, id: string, t: string): int
    requires id in l
    decreases |steps|
  {
    if steps == [] then 0
    else Drift(l[id], id, steps[0], t) + Excess(Apply(l, steps[0]), steps[1..], id, t)
  }

  lemma TakeKeepsPooled(c: ProviderCapacity, g: string, k: int, t: string)
    requires c.availableGPUs.Made? && c.inUseGPUs.Made?
    ensures Pooled(Take(c, g, k), t) == Pooled(c, t)
  {
  }

  predicate SamePools(c: ProviderCapacity, d: ProviderCapacity) {
    c.availableGPUs == d.availableGPUs && c.inUseGPUs == d.inUseGPUs && c.miningGPUs == d.miningGPUs
  }

  /** A rental, granted or refused, moves GPUs between two pools or leaves the pools alone. */
  lemma RentPools(n: Node, a: ResourceAllocation)
    ensures var g := ResolveType(n.spec, a.gpuType);
            var (after, v) := Allocate(n, a);
            var c := PrimedPools(n, g);
            SamePools(after.cap, if v == ShortGPU || (v == Granted && a.gpuCount <= 0) then c
                                 else Take(c, g, if v == Granted then a.gpuCount else -Negative(a.gpuCount)))
  {
  }

  lemma RentAccounting(n: Node, a: ResourceAllocation, t: string)
    ensures Pooled(Allocate(n, a).0.cap, t)
         == Pooled(n.cap, t) + if t == ResolveType(n.spec, a.gpuType) then FirstStock(n) else 0
  {
    var g := ResolveType(n.spec, a.gpuType);
    var c := PrimedPools(n, g);
    assert Pooled(c, t) == Pooled(n.cap, t) + if t == g then FirstStock(n) else 0;
    RentPools(n, a);
    hide Allocate, PrimedPools, FirstStock;
    TakeKeepsPooled(c, g, -Negative(a.gpuCount), t);
    TakeKeepsPooled(c, g, a.gpuCount, t);
  }

  lemma DeployAccounting(n: Node, id: string, g: string, config: MiningConfig, pod: Option<string>, t: string)
    ensures Pooled(Deploy(n, g, config, pod).0.cap, t)
         == Pooled(n.cap, t) + Drift(n, id, MineDeploy(id, g, config, pod), t)
  {
  }

  lemma MineStopAccounting(n: Node, podDeleted: bool, t: string)
    ensures Pooled(Stop(n, podDeleted).cap, t) == Pooled(n.cap, t)
  {
  }

  lemma MineTickAccounting(n: Node, status: Option<string>, t: string)
    ensures Pooled(Reconciled(n, status).cap, t) == Pooled(n.cap, t)
  {
  }

  lemma StepAccounting(n: Node, id: string, s: Step, t: string)
    ensures Pooled(ApplyOne(n, id, s).cap, t) == Pooled(n.cap, t) + Drift(n, id, s, t)
  {
    match s
    case Rent(i, a) => RentAccounting(n, a, t);
    case Return(i, _, _, _, _) =>
    case MineMore(i, _, _) =>
    case MineLess(i, _, _) =>
    case MineDeploy(i, g, config, pod) => DeployAccounting(n, i, g, config, pod, t);
    case MineStop(i, podDeleted) => MineStopAccounting(n, podDeleted, t);
    case MineTick(statuses) => MineTickAccounting(n, StatusOf(statuses, id), t);
  }

  /** Over any run, per provider and GPU type, Available + InUse + Mining is its initial value plus the sum
      of the drifts: rentals, mining reservations, stops and ticks contribute nothing once the pool exists,
      a release contributes exactly what it credits beyond the in-use count. */
  lemma {:induction false} ExactAccounting(l: Providers, steps: seq<Step>, id: string, t: string)
    requires id in l
    ensures id in Run(l, steps)
    ensures Pooled(Run(l, steps)[id].cap, t) == Pooled(l[id].cap, t) + Excess(l, steps, id, t)
    decreases |steps|
  {
    if steps != [] {
      StepAccounting(l[id], id, steps[0], t);
      ExactAccounting(Apply(l, steps[0]), steps[1..], id, t);
    }
  }

  /** Steps whose released amounts are not negative; mining deployments are accounted separately. */
  predicate Ordinary(s: Step) {
    !s.MineDeploy? && (s.Return? ==> 0 <= s.gpuCount)
  }

  /** A release of type t asks back no more than is in use, and a rental of type t finds a pool, or nothing to
      make one of. */
  predicate CoveredStep(n: Node, id: string, s: Step, t: string) {
    match s
    case Return(i, gpuType, gpu, _, _) => i == id && ResolveType(n.spec, gpuType) == t ==> gpu <= n.cap.inUseGPUs.Count(t)
    case Rent(i, a) =>
      i == id && ResolveType(n.spec, a.gpuType) == t ==>
        n.cap.availableGPUs.Made? || (n.cap.gpuCount <= 0 && n.spec.totalGPUs <= 0)
    case _ => true
  }

  ghost predicate Covered(l: Providers, steps: seq<Step>, id: string, t: string)
    requires id in l
    decreases |steps|
  {
    steps == [] || (CoveredStep(l[id], id, steps[0], t) && Covered(Apply(l, steps[0]), steps[1..], id, t))
  }

  /** From any ledger the pool never shrinks, and it keeps its size exactly when every release was covered and no
      rental made it. */
  lemma {:induction false} PoolGrowsByUncoveredReleases(l: Providers, steps: seq<Step>, id: string, t: string)
    requires id in l
    requires forall s :: s in steps ==> Ordinary(s)
    ensures id in Run(l, steps)
    ensures Pooled(l[id].cap, t) <= Pooled(Run(l, steps)[id].cap, t)
    ensures Pooled(l[id].cap, t) == Pooled(Run(l, steps)[id].cap, t) <==> Covered(l, steps, id, t)
    decreases |steps|
  {
    if steps != [] {
      assert Ordinary(steps[0]);
      StepAccounting(l[id], id, steps[0], t);
      hide ApplyOne, Pooled;
      PoolGrowsByUncoveredReleases(Apply(l, steps[0]), steps[1..], id, t);
    }
  }

  /** A mining deployment, for any type and on any provider, adds what it makes and refills, and forgets the mining
      GPUs it overwrites: each pool keeps its size exactly when the two cancel. */
  lemma DeployDrift(n: Node, id: string, g: string, config: MiningConfig, pod: Option<string>, t: string)
    ensures Pooled(ApplyOne(n, id, MineDeploy(id, g, config, pod)).cap, t) == Pooled(n.cap, t) <==>
              Gained(n, g, t) == Forgotten(n, g, config, pod, t)
    ensures n.cap.availableGPUs.Made? && t != g ==> Gained(n, g, t) == Forgotten(n, g, config, pod, t)
    ensures Deploy(n, g, config, pod).1 == Deployed <==> Deploys(n, g, config, pod)
  {
    DeployAccounting(n, id, g, config, pod, t);
  }

  /** The double booking this allows: a provider whose only GPU is rented out deploys mining,
      and its one GPU is both in use and mining. */
  lemma DeployOverRentedGPU(n: Node, g: string, pod: string)
    requires g != "" && n.spec.totalGPUs == 1
    requires n.cap.availableGPUs == Made(map[g := 0]) && n.cap.inUseGPUs == Made(map[g := 1]) && n.cap.miningGPUs == NilMap
    ensures var (after, verdict) := Deploy(n, g, MiningConfig(1, 2, 4096), Some(pod));
            verdict == Deployed && after.cap.inUseGPUs.Count(g) + after.cap.miningGPUs.Count(g) == 2
  {
  }
}
