/** Runs in which every rental is returned at most once: the ledger against the jobs that hold resources. */
module CleanRuns {
  import opened Wrappers
  import opened Sums
  import opened Capacity
  import opened Ledger
  import opened Mining
  import opened Accounting

  /** What a live job holds, under the resolved GPU type. */
  datatype Held = Held(provider: string, gpuType: string, gpu: int, cpu: int, memory: int)

  type Jobs = map<string, Held>

  datatype World = World(ledger: Providers, live: Jobs)

  datatype Move = Admit(job: string, id: string, allocation: ResourceAllocation) | Finish(job: string) | Mine(step: Step)

  ghost function GPUShares(live: Jobs, id: string, t: string): map<string, int> {
    map j | j in live && live[j].provider == id && live[j].gpuType == t :: live[j].gpu
  }

  ghost function CPUShares(live: Jobs, id: string): map<string, int> {
    map j | j in live && live[j].provider == id :: live[j].cpu
  }

  ghost function MemoryShares(live: Jobs, id: string): map<string, int> {
    map j | j in live && live[j].provider == id :: live[j].memory
  }

  ghost function LiveGPUs(live: Jobs, id: string, t: string): int {
    Total(GPUShares(live, id, t))
  }

  ghost function LiveCPUs(live: Jobs, id: string): int {
    Total(CPUShares(live, id))
  }

  ghost function LiveMemory(live: Jobs, id: string): int {
    Total(MemoryShares(live, id))
  }

  /** In use is what the live jobs hold, and what is free together with it never exceeds the total. */
  predicate MeterSound(m: Meter, inventory: int, held: int) {
    && m.inUse == held
    && 0 <= held
    && 0 <= m.mining
    && m.inUse <= EffectiveTotal(m, inventory)
    && m.available + m.inUse <= EffectiveTotal(m, inventory)
  }

  /** One GPU pool: in use is what the live jobs hold, and no count is negative. */
  predicate PoolSound(c: ProviderCapacity, t: string, held: int) {
    c.inUseGPUs.Count(t) == held && 0 <= held && 0 <= c.availableGPUs.Count(t) && 0 <= c.miningGPUs.Count(t)
  }

  /** The pools need not have been made. */
  ghost predicate NodeSound(n: Node, id: string, live: Jobs) {
    && (forall t :: PoolSound(n.cap, t, LiveGPUs(live, id, t)))
    && MeterSound(n.cap.cpu, n.spec.cpuCores, LiveCPUs(live, id))
    && MeterSound(n.cap.memory, n.spec.totalMemoryMB, LiveMemory(live, id))
  }

  /** Live jobs sit on registered providers, hold non-negative amounts, and name a resolved GPU type. */
  predicate JobSound(l: Providers, h: Held) {
    && h.provider in l
    && ResolveType(l[h.provider].spec, h.gpuType) == h.gpuType
    && 0 <= h.gpu && 0 <= h.cpu && 0 <= h.memory
  }

  predicate JobsSound(l: Providers, live: Jobs) {
    forall j :: j in live ==> JobSound(l, live[j])
  }

  ghost predicate Sound(w: World) {
    JobsSound(w.ledger, w.live) && forall id :: id in w.ledger ==> NodeSound(w.ledger[id], id, w.live)
  }

  /** A mining deployment that adds to a pool exactly as much as it forgets; or makes the pools, and forgets no more
      than it adds. */
  ghost predicate GentleDeploy(n: Node, g: string, config: MiningConfig, pod: Option<string>) {
    && 0 <= config.gpuCount && 0 <= config.cpuCores && 0 <= config.memoryMB
    && if n.cap.availableGPUs.Made? then Gained(n, g, g) == Forgotten(n, g, config, pod, g)
       else Forgotten(n, g, config, pod, g) <= Gained(n, g, g) && forall t :: 0 <= OnOffer(n, g, t)
  }

  /** Fresh job ids and non-negative amounts; only live jobs finish; mining deployments are gentle. */
  ghost predicate Legal(w: World, m: Move) {
    match m
    case Admit(job, id, a) => job !in w.live && 0 <= a.gpuCount && 0 <= a.cpuCores && 0 <= a.memoryMB
    case Finish(job) => job in w.live
    case Mine(s) =>
      match s
      case Rent(_, _) => false
      case Return(_, _, _, _, _) => false
      case MineMore(_, _, count) => 1 <= count
      case MineDeploy(id, g, config, pod) => id in w.ledger ==> GentleDeploy(w.ledger[id], g, config, pod)
      case _ => true
  }

  ghost function Make(w: World, m: Move): World {
    match m
    case Admit(job, id, a) =>
      var (l, verdict) := AllocateAt(w.ledger, id, a);
      if verdict == Granted
      then World(l, w.live[job := Held(id, ResolveType(w.ledger[id].spec, a.gpuType), a.gpuCount, a.cpuCores, a.memoryMB)])
      else w.(ledger := l)
    case Finish(job) =>
      if job !in w.live then w else
        var h := w.live[job];
        World(ReleaseAt(w.ledger, h.provider, h.gpuType, h.gpu, h.cpu, h.memory), w.live - {job})
    case Mine(s) => w.(ledger := Apply(w.ledger, s))
  }

  ghost predicate LegalRun(w: World, moves: seq<Move>)
    decreases |moves|
  {
    moves == [] || (Legal(w, moves[0]) && LegalRun(Make(w, moves[0]), moves[1..]))
  }

  ghost function Play(w: World, moves: seq<Move>): World
    decreases |moves|
  {
    if moves == [] then w else Play(Make(w, moves[0]), moves[1..])
  }

  // ---------------------------------------------------------------- shares of a changing set of jobs

  lemma SharesAdd(live: Jobs, job: string, h: Held)
    requires job !in live
    ensures forall id, t :: LiveGPUs(live[job := h], id, t)
              == LiveGPUs(live, id, t) + if h.provider == id && h.gpuType == t then h.gpu else 0
    ensures forall id :: LiveCPUs(live[job := h], id) == LiveCPUs(live, id) + if h.provider == id then h.cpu else 0
    ensures forall id :: LiveMemory(live[job := h], id) == LiveMemory(live, id) + if h.provider == id then h.memory else 0
  {
    forall id, t
      ensures LiveGPUs(live[job := h], id, t) == LiveGPUs(live, id, t) + if h.provider == id && h.gpuType == t then h.gpu else 0
    {
      if h.provider == id && h.gpuType == t {
        assert GPUShares(live[job := h], id, t) == GPUShares(live, id, t)[job := h.gpu];
        TotalPut(GPUShares(live, id, t), job, h.gpu);
      } else {
        assert GPUShares(live[job := h], id, t) == GPUShares(live, id, t);
      }
    }
    forall id
      ensures LiveCPUs(live[job := h], id) == LiveCPUs(live, id) + if h.provider == id then h.cpu else 0
      ensures LiveMemory(live[job := h], id) == LiveMemory(live, id) + if h.provider == id then h.memory else 0
    {
      if h.provider == id {
        assert CPUShares(live[job := h], id) == CPUShares(live, id)[job := h.cpu];
        assert MemoryShares(live[job := h], id) == MemoryShares(live, id)[job := h.memory];
        TotalPut(CPUShares(live, id), job, h.cpu);
        TotalPut(MemoryShares(live, id), job, h.memory);
      } else {
        assert CPUShares(live[job := h], id) == CPUShares(live, id);
        assert MemoryShares(live[job := h], id) == MemoryShares(live, id);
      }
    }
  }

  lemma SharesRemove(live: Jobs, job: string)
    requires job in live
    ensures var h, rest := live[job], live - {job};
            && (forall id, t :: LiveGPUs(rest, id, t)
                  == LiveGPUs(live, id, t) - if h.provider == id && h.gpuType == t then h.gpu else 0)
            && (forall id :: LiveCPUs(rest, id) == LiveCPUs(live, id) - if h.provider == id then h.cpu else 0)
            && (forall id :: LiveMemory(rest, id) == LiveMemory(live, id) - if h.provider == id then h.memory else 0)
  {
    assert live == (live - {job})[job := live[job]];
    SharesAdd(live - {job}, job, live[job]);
  }

  lemma SharesNonNegative(l: Providers, live: Jobs)
    requires JobsSound(l, live)
    ensures forall id, t :: 0 <= LiveGPUs(live, id, t)
    ensures forall id :: 0 <= LiveCPUs(live, id) && 0 <= LiveMemory(live, id)
  {
    forall id, t ensures 0 <= LiveGPUs(live, id, t) {
      TotalMonotone(GPUShares(live, id, t), GPUShares(live, id, t));
    }
    forall id ensures 0 <= LiveCPUs(live, id) && 0 <= LiveMemory(live, id) {
      TotalMonotone(CPUShares(live, id), CPUShares(live, id));
      TotalMonotone(MemoryShares(live, id), MemoryShares(live, id));
    }
  }

  // ---------------------------------------------------------------- what each move keeps

  lemma AllocateKeepsSpec(n: Node, a: ResourceAllocation)
    ensures Allocate(n, a).0.spec == n.spec
  {
  }

  lemma ReleaseKeepsSpec(l: Providers, h: Held)
    ensures var after := ReleaseAt(l, h.provider, h.gpuType, h.gpu, h.cpu, h.memory);
            after.Keys == l.Keys && forall i :: i in l ==> after[i].spec == l[i].spec
  {
  }

  lemma AdmitPool(n: Node, a: ResourceAllocation, t: string, held: int)
    requires 0 <= a.gpuCount && PoolSound(n.cap, t, held)
    ensures var (after, v) := Allocate(n, a);
            PoolSound(after.cap, t, held + if v == Granted && t == ResolveType(n.spec, a.gpuType) then a.gpuCount else 0)
  {
    RentPools(n, a);
    GrantedExactlyWhenCovered(n, a);
    hide Allocate;
  }

  lemma AdmitMeters(n: Node, a: ResourceAllocation, cpu: int, memory: int)
    requires 0 <= a.gpuCount && 0 <= a.cpuCores && 0 <= a.memoryMB
    requires MeterSound(n.cap.cpu, n.spec.cpuCores, cpu) && MeterSound(n.cap.memory, n.spec.totalMemoryMB, memory)
    ensures var (after, v) := Allocate(n, a);
            && MeterSound(after.cap.cpu, n.spec.cpuCores, cpu + if v == Granted then a.cpuCores else 0)
            && MeterSound(after.cap.memory, n.spec.totalMemoryMB, memory + if v == Granted then a.memoryMB else 0)
  {
  }

  /** A request on one provider, granted or refused, keeps it in step with the jobs it then holds. */
  lemma AdmitNode(n: Node, id: string, live: Jobs, a: ResourceAllocation, after: Jobs)
    requires NodeSound(n, id, live) && 0 <= a.gpuCount && 0 <= a.cpuCores && 0 <= a.memoryMB
    requires var granted := Allocate(n, a).1 == Granted;
             && (forall t :: LiveGPUs(after, id, t)
                   == LiveGPUs(live, id, t) + if granted && t == ResolveType(n.spec, a.gpuType) then a.gpuCount else 0)
             && LiveCPUs(after, id) == LiveCPUs(live, id) + (if granted then a.cpuCores else 0)
             && LiveMemory(after, id) == LiveMemory(live, id) + (if granted then a.memoryMB else 0)
    ensures NodeSound(Allocate(n, a).0, id, after)
    ensures Allocate(n, a).0.spec == n.spec
  {
    hide Allocate, LiveGPUs, LiveCPUs, LiveMemory, ResolveType;
    AdmitMeters(n, a, LiveCPUs(live, id), LiveMemory(live, id));
    AllocateKeepsSpec(n, a);
    var m := Allocate(n, a).0;
    forall t ensures PoolSound(m.cap, t, LiveGPUs(after, id, t)) {
      assert PoolSound(n.cap, t, LiveGPUs(live, id, t));
      AdmitPool(n, a, t, LiveGPUs(live, id, t));
    }
  }

  /** The providers a move does not touch stay sound. */
  lemma OthersKept(w: World, after: World, id: string)
    requires Sound(w) && after.ledger.Keys == w.ledger.Keys
    requires forall i :: i in w.ledger && i != id ==>
      && after.ledger[i] == w.ledger[i]
      && (forall t :: LiveGPUs(after.live, i, t) == LiveGPUs(w.live, i, t))
      && LiveCPUs(after.live, i) == LiveCPUs(w.live, i)
      && LiveMemory(after.live, i) == LiveMemory(w.live, i)
    ensures forall i :: i in w.ledger && i != id ==> NodeSound(after.ledger[i], i, after.live)
  {
  }

  lemma AdmitKeeps(w: World, job: string, id: string, a: ResourceAllocation)
    requires Sound(w) && Legal(w, Admit(job, id, a))
    ensures Sound(Make(w, Admit(job, id, a)))
  {
    hide Allocate, LiveGPUs, LiveCPUs, LiveMemory, PoolSound, MeterSound;
    if id in w.ledger {
      var n, after := w.ledger[id], Make(w, Admit(job, id, a));
      assert NodeSound(n, id, w.live);
      if Allocate(n, a).1 == Granted {
        SharesAdd(w.live, job, Held(id, ResolveType(n.spec, a.gpuType), a.gpuCount, a.cpuCores, a.memoryMB));
      }
      AdmitNode(n, id, w.live, a, after.live);
      OthersKept(w, after, id);
      forall j | j in after.live ensures JobSound(after.ledger, after.live[j]) {
        if j in w.live {
          assert JobSound(w.ledger, w.live[j]);
        }
      }
    }
  }

  lemma FinishPool(n: Node, h: Held, t: string, held: int)
    requires 0 <= h.gpu && ResolveType(n.spec, h.gpuType) == h.gpuType
    requires PoolSound(n.cap, t, held) && (t == h.gpuType ==> h.gpu <= held)
    ensures PoolSound(Release(n, h.gpuType, h.gpu, h.cpu, h.memory).cap, t, held - if t == h.gpuType then h.gpu else 0)
  {
  }

  lemma FinishMeters(n: Node, h: Held, cpu: int, memory: int)
    requires MeterSound(n.cap.cpu, n.spec.cpuCores, cpu) && MeterSound(n.cap.memory, n.spec.totalMemoryMB, memory)
    requires 0 <= h.cpu <= cpu && 0 <= h.memory <= memory
    ensures var after := Release(n, h.gpuType, h.gpu, h.cpu, h.memory);
            && after.spec == n.spec
            && MeterSound(after.cap.cpu, n.spec.cpuCores, cpu - h.cpu)
            && MeterSound(after.cap.memory, n.spec.totalMemoryMB, memory - h.memory)
  {
  }

  /** Returning a live job keeps the ledger in step with the remaining ones: the clamp never fires. */
  lemma FinishKeeps(w: World, job: string)
    requires Sound(w) && job in w.live
    ensures Sound(Make(w, Finish(job)))
  {
    hide Release, LiveGPUs, LiveCPUs, LiveMemory;
    var h, after := w.live[job], Make(w, Finish(job));
    var n, id := w.ledger[h.provider], h.provider;
    assert JobSound(w.ledger, h) && NodeSound(n, id, w.live);
    SharesRemove(w.live, job);
    assert JobsSound(w.ledger, after.live);
    SharesNonNegative(w.ledger, after.live);
    FinishMeters(n, h, LiveCPUs(w.live, id), LiveMemory(w.live, id));
    forall t ensures PoolSound(after.ledger[id].cap, t, LiveGPUs(after.live, id, t)) {
      assert PoolSound(n.cap, t, LiveGPUs(w.live, id, t));
      FinishPool(n, h, t, LiveGPUs(w.live, id, t));
    }
    assert NodeSound(after.ledger[id], id, after.live);
    OthersKept(w, after, id);
  }

  ghost predicate MineLegal(n: Node, id: string, s: Step) {
    && !s.Rent? && !s.Return?
    && (s.MineMore? ==> 1 <= s.count)
    && (s.MineDeploy? && s.id == id ==> GentleDeploy(n, s.gpuType, s.config, s.pod))
  }

  lemma MinePool(n: Node, id: string, s: Step, t: string, held: int)
    requires MineLegal(n, id, s) && PoolSound(n.cap, t, held)
    ensures PoolSound(ApplyOne(n, id, s).cap, t, held)
  {
    if s.MineDeploy? && s.id == id {
      assert n.cap.availableGPUs.NilMap? ==> 0 <= OnOffer(n, s.gpuType, t) && 0 <= OnOffer(n, s.gpuType, s.gpuType);
    }
  }

  /** A mining deployment that reserves no negative amount of cores or memory. */
  predicate FairDeploy(s: Step) {
    s.MineDeploy? ==> 0 <= s.config.cpuCores && 0 <= s.config.memoryMB
  }

  lemma MineMeters(n: Node, id: string, s: Step, cpu: int, memory: int)
    requires !s.Rent? && !s.Return? && (s.MineDeploy? && s.id == id ==> FairDeploy(s))
    requires MeterSound(n.cap.cpu, n.spec.cpuCores, cpu) && MeterSound(n.cap.memory, n.spec.totalMemoryMB, memory)
    ensures MeterSound(ApplyOne(n, id, s).cap.cpu, n.spec.cpuCores, cpu)
    ensures MeterSound(ApplyOne(n, id, s).cap.memory, n.spec.totalMemoryMB, memory)
  {
  }

  lemma SpecKept(n: Node, id: string, s: Step)
    ensures ApplyOne(n, id, s).spec == n.spec
  {
  }

  lemma MineKeeps(w: World, s: Step)
    requires Sound(w) && Legal(w, Mine(s))
    ensures Sound(Make(w, Mine(s)))
  {
    hide ApplyOne, LiveGPUs, LiveCPUs, LiveMemory;
    var after := Make(w, Mine(s));
    forall id | id in w.ledger ensures NodeSound(after.ledger[id], id, w.live) {
      var n := w.ledger[id];
      assert NodeSound(n, id, w.live);
      MineMeters(n, id, s, LiveCPUs(w.live, id), LiveMemory(w.live, id));
      forall t ensures PoolSound(after.ledger[id].cap, t, LiveGPUs(w.live, id, t)) {
        assert PoolSound(n.cap, t, LiveGPUs(w.live, id, t));
        MinePool(n, id, s, t, LiveGPUs(w.live, id, t));
      }
      SpecKept(n, id, s);
    }
    forall j | j in w.live ensures JobSound(after.ledger, w.live[j]) {
      assert JobSound(w.ledger, w.live[j]);
      SpecKept(w.ledger[w.live[j].provider], w.live[j].provider, s);
    }
  }

  // ---------------------------------------------------------------- whole runs

  /** Every provider's pools grow at most once, when they are made; the totals of the meters stay. */
  ghost predicate Grown(l: Providers, k: Providers) {
    && l.Keys == k.Keys
    && forall id :: id in l ==> NodeGrown(l[id], k[id])
  }

  ghost predicate NodeGrown(n: Node, m: Node) {
    && n.spec == m.spec && n.cap.gpuCount == m.cap.gpuCount && n.cap.totalGPUs == m.cap.totalGPUs
    && EffectiveTotal(n.cap.cpu, n.spec.cpuCores) == EffectiveTotal(m.cap.cpu, m.spec.cpuCores)
    && EffectiveTotal(n.cap.memory, n.spec.totalMemoryMB) == EffectiveTotal(m.cap.memory, m.spec.totalMemoryMB)
    && (n.cap.availableGPUs.Made? ==> m.cap.availableGPUs.Made?)
    && (SamePooled(n, m) || (n.cap.availableGPUs.NilMap? && m.cap.availableGPUs.Made? && exists g :: OpenedFor(n, m, g)))
  }

  ghost predicate SamePooled(n: Node, m: Node) {
    forall t :: Pooled(m.cap, t) == Pooled(n.cap, t)
  }

  /** The pools have been made, either by a rental of type g, with the whole first stock under g; or by a mining
      deployment for g, with at most what it adds. */
  ghost predicate OpenedFor(n: Node, m: Node, g: string) {
    || (forall t :: Pooled(m.cap, t) == Pooled(n.cap, t) + if t == g then FirstStock(n) else 0)
    || (forall t :: Pooled(n.cap, t) <= Pooled(m.cap, t) <= Pooled(n.cap, t) + Gained(n, g, t))
  }

  /** The most GPUs of type t that making the pools can bring. */
  function Stock(n: Node, t: string): int {
    if n.cap.availableGPUs.Made? then 0
    else Larger(FirstStock(n), Larger(n.spec.totalGPUs, n.cap.totalGPUs.Count(t)))
  }

  function Larger(x: int, y: int): int {
    if x < y then y else x
  }

  lemma GrownWithinStock(n: Node, m: Node, t: string)
    requires NodeGrown(n, m)
    ensures Pooled(m.cap, t) <= Pooled(n.cap, t) + Stock(n, t)
    ensures n.cap.availableGPUs.Made? ==> Pooled(m.cap, t) == Pooled(n.cap, t)
  {
    if !SamePooled(n, m) {
      var g :| OpenedFor(n, m, g);
      assert Pooled(m.cap, t) <= Pooled(n.cap, t) + Gained(n, g, t) || Pooled(m.cap, t) <= Pooled(n.cap, t) + FirstStock(n);
    }
  }

  /** A move as the ledger steps it performs. */
  function AsStep(w: World, m: Move): Step
    requires m.Finish? ==> m.job in w.live
  {
    match m
    case Admit(_, id, a) => Rent(id, a)
    case Finish(job) => var h := w.live[job]; Return(h.provider, h.gpuType, h.gpu, h.cpu, h.memory)
    case Mine(s) => s
  }

  lemma MoveIsStep(w: World, m: Move)
    requires m.Finish? ==> m.job in w.live
    ensures Make(w, m).ledger == Apply(w.ledger, AsStep(w, m))
  {
  }

  lemma MeterTotalsKept(n: Node, id: string, s: Step)
    ensures var after := ApplyOne(n, id, s);
            && after.spec == n.spec
            && EffectiveTotal(after.cap.cpu, n.spec.cpuCores) == EffectiveTotal(n.cap.cpu, n.spec.cpuCores)
            && EffectiveTotal(after.cap.memory, n.spec.totalMemoryMB) == EffectiveTotal(n.cap.memory, n.spec.totalMemoryMB)
  {
  }

  lemma StockKept(n: Node, id: string, s: Step)
    ensures var after := ApplyOne(n, id, s);
            && after.cap.gpuCount == n.cap.gpuCount && after.cap.totalGPUs == n.cap.totalGPUs
            && (n.cap.availableGPUs.Made? ==> after.cap.availableGPUs.Made?)
            && (s.Rent? && s.id == id ==> after.cap.availableGPUs.Made?)
            && (s.MineDeploy? && s.id == id ==> after.cap.availableGPUs.Made?)
  {
  }

  /** A covered return. */
  predicate CoveredReturn(n: Node, id: string, s: Step) {
    s.Return? && s.id == id ==> s.gpuCount <= n.cap.inUseGPUs.Count(ResolveType(n.spec, s.gpuType)) && 0 <= s.gpuCount
  }

  lemma NoDrift(n: Node, id: string, s: Step, t: string)
    requires CoveredReturn(n, id, s)
    requires s.Rent? && s.id == id ==> n.cap.availableGPUs.Made?
    requires s.MineDeploy? && s.id == id ==> n.cap.availableGPUs.Made? && GentleDeploy(n, s.gpuType, s.config, s.pod)
    ensures Drift(n, id, s, t) == 0
  {
  }

  lemma OpeningStep(n: Node, id: string, s: Step)
    requires n.cap.availableGPUs.NilMap? && (s.Rent? || s.MineDeploy?) && s.id == id
    requires forall t :: 0 <= n.cap.miningGPUs.Count(t)
    requires s.MineDeploy? ==> GentleDeploy(n, s.gpuType, s.config, s.pod)
    ensures exists g :: OpenedFor(n, ApplyOne(n, id, s), g)
  {
    hide ApplyOne;
    var m := ApplyOne(n, id, s);
    if s.Rent? {
      var g := ResolveType(n.spec, s.allocation.gpuType);
      forall t ensures Pooled(m.cap, t) == Pooled(n.cap, t) + if t == g then FirstStock(n) else 0 {
        StepAccounting(n, id, s, t);
      }
      assert OpenedFor(n, m, g);
    } else {
      var g := s.gpuType;
      forall t ensures Pooled(n.cap, t) <= Pooled(m.cap, t) <= Pooled(n.cap, t) + Gained(n, g, t) {
        StepAccounting(n, id, s, t);
        assert 0 <= OnOffer(n, g, t);
      }
      assert OpenedFor(n, m, g);
    }
  }

  /** One step of a legal run: the pools keep their size, or are made. */
  lemma StepGrows(n: Node, id: string, s: Step)
    requires CoveredReturn(n, id, s) && forall t :: 0 <= n.cap.miningGPUs.Count(t)
    requires s.MineDeploy? && s.id == id ==> GentleDeploy(n, s.gpuType, s.config, s.pod)
    ensures NodeGrown(n, ApplyOne(n, id, s))
  {
    hide ApplyOne;
    var m := ApplyOne(n, id, s);
    MeterTotalsKept(n, id, s);
    StockKept(n, id, s);
    if n.cap.availableGPUs.Made? || !((s.Rent? || s.MineDeploy?) && s.id == id) {
      forall t ensures Pooled(m.cap, t) == Pooled(n.cap, t) {
        NoDrift(n, id, s, t);
        StepAccounting(n, id, s, t);
      }
      assert SamePooled(n, m);
    } else {
      OpeningStep(n, id, s);
    }
  }

  lemma ShareAtMostAll(live: Jobs, job: string)
    requires job in live && forall j :: j in live ==> 0 <= live[j].gpu
    ensures live[job].gpu <= LiveGPUs(live, live[job].provider, live[job].gpuType)
  {
    var shares := GPUShares(live, live[job].provider, live[job].gpuType);
    TotalRemove(shares, job);
    TotalMonotone(shares - {job}, shares);
  }

  /** A live job holds no more than all live jobs of its provider. */
  lemma FairHolding(w: World, job: string)
    requires JobsSound(w.ledger, w.live) && job in w.live
    ensures var h := w.live[job];
            0 <= h.cpu <= LiveCPUs(w.live, h.provider) && 0 <= h.memory <= LiveMemory(w.live, h.provider)
  {
    assert JobSound(w.ledger, w.live[job]);
    SharesRemove(w.live, job);
    assert JobsSound(w.ledger, w.live - {job});
    SharesNonNegative(w.ledger, w.live - {job});
  }

  /** Everything the job holds is in use at its provider: returning it clamps nothing. */
  predicate Unclamped(l: Providers, h: Held) {
    && h.provider in l
    && var c := l[h.provider].cap;
       h.gpu <= c.inUseGPUs.Count(h.gpuType) && h.cpu <= c.cpu.inUse && h.memory <= c.memory.inUse
  }

  lemma FinishUnclamped(w: World, job: string)
    requires Sound(w) && job in w.live
    ensures Unclamped(w.ledger, w.live[job])
  {
    hide LiveGPUs, LiveCPUs, LiveMemory;
    var h := w.live[job];
    assert JobSound(w.ledger, h) && NodeSound(w.ledger[h.provider], h.provider, w.live);
    assert PoolSound(w.ledger[h.provider].cap, h.gpuType, LiveGPUs(w.live, h.provider, h.gpuType));
    assert forall j :: j in w.live ==> JobSound(w.ledger, w.live[j]);
    ShareAtMostAll(w.live, job);
    FairHolding(w, job);
  }

  lemma MoveGrows(w: World, m: Move)
    requires Sound(w) && Legal(w, m)
    ensures Grown(w.ledger, Make(w, m).ledger)
  {
    hide ApplyOne, LiveGPUs, LiveCPUs, LiveMemory, Make, NodeGrown;
    MoveIsStep(w, m);
    var s := AsStep(w, m);
    forall id | id in w.ledger ensures NodeGrown(w.ledger[id], ApplyOne(w.ledger[id], id, s)) {
      var n := w.ledger[id];
      assert NodeSound(n, id, w.live);
      forall t ensures 0 <= n.cap.miningGPUs.Count(t) {
        assert PoolSound(n.cap, t, LiveGPUs(w.live, id, t));
      }
      if m.Finish? {
        FinishUnclamped(w, m.job);
        assert JobSound(w.ledger, w.live[m.job]);
      }
      StepGrows(n, id, s);
    }
  }

  lemma MoveKeepsSound(w: World, m: Move)
    requires Sound(w) && Legal(w, m)
    ensures Sound(Make(w, m))
  {
    match m
    case Admit(job, id, a) => AdmitKeeps(w, job, id, a);
    case Finish(job) => FinishKeeps(w, job);
    case Mine(s) => MineKeeps(w, s);
  }

  lemma NodeGrownTransitive(a: Node, b: Node, c: Node)
    requires NodeGrown(a, b) && NodeGrown(b, c)
    ensures NodeGrown(a, c)
  {
    if !SamePooled(a, c) {
      if SamePooled(a, b) {
        var g :| OpenedFor(b, c, g);
        assert forall t :: Gained(b, g, t) == Gained(a, g, t);
        assert OpenedFor(a, c, g);
      } else {
        var g :| OpenedFor(a, b, g);
        assert OpenedFor(a, c, g);
      }
    }
  }

  lemma GrownTransitive(a: Providers, b: Providers, c: Providers)
    requires Grown(a, b) && Grown(b, c)
    ensures Grown(a, c)
  {
    forall id | id in a ensures NodeGrown(a[id], c[id]) {
      NodeGrownTransitive(a[id], b[id], c[id]);
    }
  }

  /** No return of the run is clamped at zero. */
  ghost predicate NeverClamped(w: World, moves: seq<Move>)
    decreases |moves|
  {
    moves == [] ||
    (&& (moves[0].Finish? ==> moves[0].job in w.live && Unclamped(w.ledger, w.live[moves[0].job]))
     && NeverClamped(Make(w, moves[0]), moves[1..]))
  }

  /** No double booking: over every interleaving in which each rental is returned at most once, the ledger
      stays in step with the live jobs, no return is clamped, and every pool that has been made keeps its size. */
  lemma {:induction false} NoDoubleBooking(w: World, moves: seq<Move>)
    requires Sound(w) && LegalRun(w, moves)
    ensures Sound(Play(w, moves))
    ensures Grown(w.ledger, Play(w, moves).ledger)
    ensures NeverClamped(w, moves)
    decreases |moves|
  {
    if moves != [] {
      var next := Make(w, moves[0]);
      MoveKeepsSound(w, moves[0]);
      MoveGrows(w, moves[0]);
      if moves[0].Finish? {
        FinishUnclamped(w, moves[0].job);
      }
      hide Make, Sound, Grown, Unclamped;
      NoDoubleBooking(next, moves[1..]);
      GrownTransitive(w.ledger, next.ledger, Play(w, moves).ledger);
    }
  }

  // ---------------------------------------------------------------- cores and memory, whatever mining does

  ghost predicate MetersSound(w: World) {
    && JobsSound(w.ledger, w.live)
    && forall id :: id in w.ledger ==> NodeMetersSound(w.ledger[id], id, w.live)
  }

  ghost predicate NodeMetersSound(n: Node, id: string, live: Jobs) {
    && MeterSound(n.cap.cpu, n.spec.cpuCores, LiveCPUs(live, id))
    && MeterSound(n.cap.memory, n.spec.totalMemoryMB, LiveMemory(live, id))
  }

  /** Fresh job ids and non-negative amounts; only live jobs finish; any mining step at all. */
  predicate Fair(w: World, m: Move) {
    match m
    case Admit(job, _, a) => job !in w.live && 0 <= a.gpuCount && 0 <= a.cpuCores && 0 <= a.memoryMB
    case Finish(job) => job in w.live
    case Mine(s) => !s.Rent? && !s.Return? && FairDeploy(s)
  }

  ghost predicate FairRun(w: World, moves: seq<Move>)
    decreases |moves|
  {
    moves == [] || (Fair(w, moves[0]) && FairRun(Make(w, moves[0]), moves[1..]))
  }

  lemma FairKeepsJobs(w: World, m: Move)
    requires JobsSound(w.ledger, w.live) && Fair(w, m)
    ensures JobsSound(Make(w, m).ledger, Make(w, m).live)
  {
    hide Allocate, ApplyOne, Release;
    var after := Make(w, m);
    match m {
      case Admit(_, id, a) => if id in w.ledger { AllocateKeepsSpec(w.ledger[id], a); }
      case Finish(job) => ReleaseKeepsSpec(w.ledger, w.live[job]);
      case Mine(s) =>
        forall i | i in w.ledger ensures after.ledger[i].spec == w.ledger[i].spec {
          SpecKept(w.ledger[i], i, s);
        }
    }
    forall j | j in after.live ensures JobSound(after.ledger, after.live[j]) {
      if j in w.live {
        assert JobSound(w.ledger, w.live[j]);
      }
    }
  }

  /** What a fair move does to the cores and memory of the live jobs of every provider. */
  lemma FairShares(w: World, m: Move, id: string)
    requires JobsSound(w.ledger, w.live) && Fair(w, m) && id in w.ledger
    ensures var after := Make(w, m);
            var granted := m.Admit? && m.id == id && Allocate(w.ledger[id], m.allocation).1 == Granted;
            var finished := m.Finish? && w.live[m.job].provider == id;
            && LiveCPUs(after.live, id) == LiveCPUs(w.live, id)
                 + (if granted then m.allocation.cpuCores else 0) - (if finished then w.live[m.job].cpu else 0)
            && LiveMemory(after.live, id) == LiveMemory(w.live, id)
                 + (if granted then m.allocation.memoryMB else 0) - (if finished then w.live[m.job].memory else 0)
            && 0 <= LiveCPUs(after.live, id) && 0 <= LiveMemory(after.live, id)
  {
    hide Allocate, ApplyOne, Release, LiveGPUs, LiveCPUs, LiveMemory;
    match m {
      case Admit(job, i, a) =>
        if i in w.ledger && Allocate(w.ledger[i], a).1 == Granted {
          SharesAdd(w.live, job, Held(i, ResolveType(w.ledger[i].spec, a.gpuType), a.gpuCount, a.cpuCores, a.memoryMB));
        }
      case Finish(job) => SharesRemove(w.live, job);
      case Mine(_) =>
    }
    FairKeepsJobs(w, m);
    SharesNonNegative(Make(w, m).ledger, Make(w, m).live);
  }

  lemma FairKeepsMeters(w: World, m: Move)
    requires MetersSound(w) && Fair(w, m)
    ensures MetersSound(Make(w, m))
  {
    hide Allocate, ApplyOne, Release, LiveGPUs, LiveCPUs, LiveMemory, MeterSound, JobsSound;
    var after := Make(w, m);
    forall id | id in w.ledger ensures NodeMetersSound(after.ledger[id], id, after.live) {
      var n := w.ledger[id];
      assert NodeMetersSound(n, id, w.live);
      FairShares(w, m, id);
      match m {
        case Admit(_, i, a) =>
          AllocateKeepsSpec(n, a);
          AdmitMeters(n, a, LiveCPUs(w.live, id), LiveMemory(w.live, id));
        case Finish(job) =>
          ReleaseKeepsSpec(w.ledger, w.live[job]);
          if w.live[job].provider == id {
            FairHolding(w, job);
            FinishMeters(n, w.live[job], LiveCPUs(w.live, id), LiveMemory(w.live, id));
          }
        case Mine(s) =>
          SpecKept(n, id, s);
          MineMeters(n, id, s, LiveCPUs(w.live, id), LiveMemory(w.live, id));
      }
    }
    FairKeepsJobs(w, m);
  }

  lemma FairIsStep(w: World, m: Move, id: string)
    requires Fair(w, m) && id in w.ledger
    ensures var next := Make(w, m).ledger;
            && id in next && next[id].spec == w.ledger[id].spec
            && EffectiveTotal(next[id].cap.cpu, next[id].spec.cpuCores) == EffectiveTotal(w.ledger[id].cap.cpu, w.ledger[id].spec.cpuCores)
            && EffectiveTotal(next[id].cap.memory, next[id].spec.totalMemoryMB)
                 == EffectiveTotal(w.ledger[id].cap.memory, w.ledger[id].spec.totalMemoryMB)
  {
    hide ApplyOne, EffectiveTotal, Make;
    MoveIsStep(w, m);
    MeterTotalsKept(w.ledger[id], id, AsStep(w, m));
  }

  /** Cores and memory are never rented beyond the provider's total in any run that returns each rental at most
      once, whatever mining steps come between, with pools made or not: although an available amount of zero is
      derived anew, and mining reserves without a debit. */
  lemma {:induction false} CoresNeverOverbooked(w: World, moves: seq<Move>, id: string)
    requires MetersSound(w) && FairRun(w, moves) && id in w.ledger
    ensures var n, end := w.ledger[id], Play(w, moves);
            && id in end.ledger
            && NodeMetersSound(end.ledger[id], id, end.live)
            && LiveCPUs(end.live, id) <= EffectiveTotal(n.cap.cpu, n.spec.cpuCores)
            && LiveMemory(end.live, id) <= EffectiveTotal(n.cap.memory, n.spec.totalMemoryMB)
    decreases |moves|
  {
    hide ApplyOne, Make, Fair, LiveCPUs, LiveMemory;
    if moves == [] {
      assert NodeMetersSound(w.ledger[id], id, w.live);
    } else {
      var next := Make(w, moves[0]);
      FairKeepsMeters(w, moves[0]);
      FairIsStep(w, moves[0], id);
      CoresNeverOverbooked(next, moves[1..], id);
    }
  }

  /** The first request to a provider without pools, granted or refused, makes them, with the provider's whole
      stock under whatever GPU type the request names; the ledger stays sound, and no other provider changes. */
  lemma FirstRequestOpens(w: World, job: string, id: string, a: ResourceAllocation)
    requires Sound(w) && Legal(w, Admit(job, id, a)) && id in w.ledger && w.ledger[id].cap.availableGPUs.NilMap?
    ensures var n, after := w.ledger[id], Make(w, Admit(job, id, a));
            && Sound(after) && after.ledger.Keys == w.ledger.Keys
            && after.ledger[id].cap.availableGPUs.Made?
            && (forall t :: Pooled(after.ledger[id].cap, t)
                  == Pooled(n.cap, t) + if t == ResolveType(n.spec, a.gpuType) then FirstStock(n) else 0)
            && forall i :: i in w.ledger && i != id ==> after.ledger[i] == w.ledger[i]
  {
    var n, after := w.ledger[id], Make(w, Admit(job, id, a));
    AdmitKeeps(w, job, id, a);
    MoveIsStep(w, Admit(job, id, a));
    StockKept(n, id, Rent(id, a));
    hide Allocate, Sound, Pooled, FirstStock;
    forall t ensures Pooled(after.ledger[id].cap, t)
                       == Pooled(n.cap, t) + if t == ResolveType(n.spec, a.gpuType) then FirstStock(n) else 0 {
      RentAccounting(n, a, t);
    }
  }

  /** What that means for the renters: live jobs and mining never hold more GPUs of a type than the pool had at the
      start, or, while it has not been made, could be made with; nor more cores or memory than the provider has. */
  lemma NeverOverbooked(w: World, moves: seq<Move>, id: string, t: string)
    requires Sound(w) && LegalRun(w, moves) && id in w.ledger
    ensures var end := Play(w, moves);
            && id in end.ledger
            && 0 <= LiveGPUs(end.live, id, t)
            && 0 <= end.ledger[id].cap.miningGPUs.Count(t)
            && LiveGPUs(end.live, id, t) + end.ledger[id].cap.miningGPUs.Count(t)
                 <= Pooled(w.ledger[id].cap, t) + Stock(w.ledger[id], t)
            && LiveCPUs(end.live, id) <= EffectiveTotal(w.ledger[id].cap.cpu, w.ledger[id].spec.cpuCores)
            && LiveMemory(end.live, id) <= EffectiveTotal(w.ledger[id].cap.memory, w.ledger[id].spec.totalMemoryMB)
  {
    NoDoubleBooking(w, moves);
    var end := Play(w, moves);
    assert NodeGrown(w.ledger[id], end.ledger[id]);
    GrownWithinStock(w.ledger[id], end.ledger[id], t);
    assert NodeSound(end.ledger[id], id, end.live);
    assert PoolSound(end.ledger[id].cap, t, LiveGPUs(end.live, id, t));
  }
}
