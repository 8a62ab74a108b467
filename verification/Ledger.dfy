/** What each rental step of the resource ledger does to one provider, as functions on
    values. The methods of Orchestrator are proved to compute exactly these functions;
    the lemmas here say what the functions mean. */
module Ledger {
  import opened Capacity

  type Providers = map<string, Node>

  datatype Verdict = Granted | NoProvider | ShortGPU | ShortCPU | ShortMemory

  /** An unnamed GPU type means the first GPU of the inventory, or "default" when there is none. */
  function ResolveType(spec: SystemSpec, gpuType: string): string {
    if gpuType != "" then gpuType
    else if spec.gpus != [] then spec.gpus[0]
    else "default"
  }

  function Negative(x: int): int {
    if x < 0 then x else 0
  }

  /** The GPU pools after lazy initialisation for type g. */
  function PrimedPools(n: Node, g: string): ProviderCapacity {
    var stock :=
      if n.cap.gpuCount > 0 then map[g := n.cap.gpuCount]
      else if n.spec.totalGPUs > 0 then map[g := n.spec.totalGPUs]
      else map[];
    n.cap.(availableGPUs := if n.cap.availableGPUs.NilMap? then Made(stock) else n.cap.availableGPUs,
           inUseGPUs := n.cap.inUseGPUs.Ensured())
  }

  /** The total of a meter, falling back to the legacy field and then to the inventory. */
  function EffectiveTotal(m: Meter, inventory: int): int {
    if m.total != 0 then m.total
    else if m.legacy > 0 then m.legacy
    else if inventory > 0 then inventory
    else 0
  }

  /** A meter after lazy initialisation: an available amount of zero is derived anew. */
  function PrimedMeter(m: Meter, inventory: int): Meter {
    var total := EffectiveTotal(m, inventory);
    m.(total := total,
       available := if m.available == 0 && total > 0 then total - m.inUse - m.mining else m.available)
  }

  /** The provider with everything lazily initialised: the ledger an observer sees
      when asking for GPUs of type g, for CPU and for memory. */
  function Primed(n: Node, g: string): Node {
    n.(cap := PrimedPools(n, g).(cpu := PrimedMeter(n.cap.cpu, n.spec.cpuCores),
                                 memory := PrimedMeter(n.cap.memory, n.spec.totalMemoryMB)))
  }

  /** Enough of all three resources at once. Amounts that are not positive ask for nothing. */
  predicate Covers(c: ProviderCapacity, g: string, a: ResourceAllocation) {
    && (a.gpuCount > 0 ==> a.gpuCount <= c.availableGPUs.Count(g))
    && (a.cpuCores > 0 ==> a.cpuCores <= c.cpu.available)
    && (a.memoryMB > 0 ==> a.memoryMB <= c.memory.available)
  }

  /** Move k GPUs of type g from the available to the in-use pool. */
  function Take(c: ProviderCapacity, g: string, k: int): ProviderCapacity
    requires c.availableGPUs.Made? && c.inUseGPUs.Made?
  {
    c.(availableGPUs := c.availableGPUs.Add(g, -k), inUseGPUs := c.inUseGPUs.Add(g, k))
  }

  function Draw(m: Meter, k: int): Meter {
    m.(available := m.available - k, inUse := m.inUse + k)
  }

  /** The outcome of AllocateResources on one provider. The rollback hands back the
      requested amounts whether or not they had been taken, which shows for negative amounts. */
  function Allocate(n: Node, a: ResourceAllocation): (Node, Verdict) {
    var g := ResolveType(n.spec, a.gpuType);
    var c0 := PrimedPools(n, g);
    var c1 := if a.cpuCores > 0 then c0.(cpu := PrimedMeter(c0.cpu, n.spec.cpuCores)) else c0;
    var c2 := if a.memoryMB > 0 then c1.(memory := PrimedMeter(c1.memory, n.spec.totalMemoryMB)) else c1;
    if a.gpuCount > 0 && c0.availableGPUs.Count(g) < a.gpuCount then
      (n.(cap := c0), ShortGPU)
    else if a.cpuCores > 0 && c1.cpu.available < a.cpuCores then
      (n.(cap := Take(c1, g, -Negative(a.gpuCount))), ShortCPU)
    else if a.memoryMB > 0 && c2.memory.available < a.memoryMB then
      (n.(cap := Take(c2, g, -Negative(a.gpuCount)).(cpu := Draw(c2.cpu, -Negative(a.cpuCores)))), ShortMemory)
    else
      var taken := if a.gpuCount > 0 then Take(c2, g, a.gpuCount) else c2;
      (n.(cap := taken.(cpu := if a.cpuCores > 0 then Draw(c2.cpu, a.cpuCores) else c2.cpu,
                        memory := if a.memoryMB > 0 then Draw(c2.memory, a.memoryMB) else c2.memory)),
       Granted)
  }

  function Refill(m: Meter, k: int): Meter {
    m.(available := m.available + k, inUse := if m.inUse - k < 0 then 0 else m.inUse - k)
  }

  /** The single credit funnel: Available is credited in full, InUse is clamped at zero. */
  function Release(n: Node, gpuType: string, gpuCount: int, cpuCores: int, memoryMB: int): Node {
    var g := ResolveType(n.spec, gpuType);
    var left := n.cap.inUseGPUs.Count(g) - gpuCount;
    n.(cap := n.cap.(
         availableGPUs := n.cap.availableGPUs.Ensured().Add(g, gpuCount),
         inUseGPUs := if n.cap.inUseGPUs.NilMap? then NilMap else n.cap.inUseGPUs.Put(g, if left < 0 then 0 else left),
         cpu := Refill(n.cap.cpu, cpuCores),
         memory := Refill(n.cap.memory, memoryMB)))
  }

  /** ReleaseResources names the pool "default" when the allocation names none. */
  function ReleaseAllocation(n: Node, a: ResourceAllocation): Node {
    Release(n, if a.gpuType == "" then "default" else a.gpuType, a.gpuCount, a.cpuCores, a.memoryMB)
  }

  function AllocateAt(l: Providers, id: string, a: ResourceAllocation): (Providers, Verdict) {
    if id !in l then (l, NoProvider)
    else var (n, v) := Allocate(l[id], a); (l[id := n], v)
  }

  function ReleaseAt(l: Providers, id: string, gpuType: string, gpuCount: int, cpuCores: int, memoryMB: int): Providers {
    if id in l then l[id := Release(l[id], gpuType, gpuCount, cpuCores, memoryMB)] else l
  }

  // ---------------------------------------------------------------- meaning

  /** What a meter offers when it is first asked: the legacy amount, or else the inventory's; but one that has a total
      keeps it, and what is available is derived only at zero, and only from a positive total. */
  lemma MeterOpens(m: Meter, inventory: int)
    ensures var p := PrimedMeter(m, inventory);
            && (m.total == 0 && 0 < m.legacy ==> p.total == m.legacy)
            && (m.total == 0 && m.legacy <= 0 ==> p.total == if 0 < inventory then inventory else 0)
            && (m.total != 0 ==> p.total == m.total)
            && (m.available != 0 || p.total <= 0 ==> p.available == m.available)
            && (m.available == 0 && 0 < p.total ==> p.available + p.inUse + p.mining == p.total)
            && p.inUse == m.inUse && p.mining == m.mining && p.legacy == m.legacy
  {
  }

  /** What the pools of a new provider open with: the legacy count, or else the inventory's, under the type asked for. */
  lemma PoolsOpen(n: Node, g: string)
    requires n.cap.availableGPUs.NilMap?
    ensures var c := PrimedPools(n, g);
            forall t :: c.availableGPUs.Count(t) ==
              if t != g then 0 else if 0 < n.cap.gpuCount then n.cap.gpuCount else if 0 < n.spec.totalGPUs then n.spec.totalGPUs else 0
  {
  }

  /** A request is granted exactly when the lazily initialised ledger covers GPU, CPU and memory together. */
  lemma GrantedExactlyWhenCovered(n: Node, a: ResourceAllocation)
    ensures var g := ResolveType(n.spec, a.gpuType);
            Allocate(n, a).1 == Granted <==> Covers(Primed(n, g).cap, g, a)
  {
  }

  function Positive(x: int): int {
    if x > 0 then x else 0
  }

  /** A granted request takes exactly the positive amounts, from the lazily initialised ledger:
      one GPU pool and two meters move, everything else is as before. */
  lemma GrantedTakes(n: Node, a: ResourceAllocation)
    requires Allocate(n, a).1 == Granted
    ensures var g := ResolveType(n.spec, a.gpuType);
            var before, after := Primed(n, g).cap, Allocate(n, a).0.cap;
            && (forall t :: after.availableGPUs.Count(t) == before.availableGPUs.Count(t) - (if t == g then Positive(a.gpuCount) else 0))
            && (forall t :: after.inUseGPUs.Count(t) == before.inUseGPUs.Count(t) + (if t == g then Positive(a.gpuCount) else 0))
            && after.miningGPUs == before.miningGPUs
            && after.cpu == (if a.cpuCores > 0 then Draw(before.cpu, a.cpuCores) else n.cap.cpu)
            && after.memory == (if a.memoryMB > 0 then Draw(before.memory, a.memoryMB) else n.cap.memory)
  {
  }

  /** The refused requests for which the compensating rollback is exact, by the guards of the lazily initialised
      capacity c: those short of GPUs, and those without a negative amount that is handed back untaken. */
  predicate RollbackExact(c: ProviderCapacity, g: string, a: ResourceAllocation) {
    || (a.gpuCount > 0 && c.availableGPUs.Count(g) < a.gpuCount)
    || (0 <= a.gpuCount && 0 <= a.cpuCores)
  }

  /** All or nothing: a refused request leaves a ledger whose lazy initialisation is that of the
      ledger before the call, exactly when the rollback is exact. */
  lemma RefusedLeavesNothing(n: Node, a: ResourceAllocation)
    requires var g := ResolveType(n.spec, a.gpuType); !Covers(Primed(n, g).cap, g, a)
    ensures var g := ResolveType(n.spec, a.gpuType);
            Same(Primed(Allocate(n, a).0, g).cap, Primed(n, g).cap) <==> RollbackExact(Primed(n, g).cap, g, a)
  {
    var g := ResolveType(n.spec, a.gpuType);
    var x, y := Primed(Allocate(n, a).0, g).cap, Primed(n, g).cap;
    if !RollbackExact(y, g, a) {
      if a.gpuCount < 0 {
        assert x.inUseGPUs.Count(g) == y.inUseGPUs.Count(g) - a.gpuCount;
      } else {
        assert x.cpu.inUse == y.cpu.inUse - a.cpuCores;
      }
    }
  }

  /** A release credits one type in full and takes it out of use down to zero, unless nothing has been in use yet; it does
      the same with cores and memory, and changes nothing else. */
  lemma ReleaseMoves(n: Node, gpuType: string, gpu: int, cpu: int, memory: int)
    ensures var g := if gpuType != "" then gpuType else if n.spec.gpus == [] then "default" else n.spec.gpus[0];
            var before, after := n.cap, Release(n, gpuType, gpu, cpu, memory).cap;
            && Release(n, gpuType, gpu, cpu, memory).spec == n.spec
            && after.availableGPUs.Made? && after.inUseGPUs.Made? == before.inUseGPUs.Made?
            && (forall t :: after.availableGPUs.Count(t) == before.availableGPUs.Count(t) + if t == g then gpu else 0)
            && (forall t :: after.inUseGPUs.Count(t) ==
                  if t != g || before.inUseGPUs.NilMap? then before.inUseGPUs.Count(t)
                  else if before.inUseGPUs.Count(t) < gpu then 0 else before.inUseGPUs.Count(t) - gpu)
            && after.cpu == before.cpu.(available := before.cpu.available + cpu,
                                        inUse := if before.cpu.inUse < cpu then 0 else before.cpu.inUse - cpu)
            && after.memory == before.memory.(available := before.memory.available + memory,
                                              inUse := if before.memory.inUse < memory then 0 else before.memory.inUse - memory)
            && after == before.(availableGPUs := after.availableGPUs, inUseGPUs := after.inUseGPUs,
                                cpu := after.cpu, memory := after.memory)
  {
  }

  /** The type under which ReleaseResources credits is the one AllocateResources debited. */
  predicate SameTypeBack(spec: SystemSpec, a: ResourceAllocation) {
    a.gpuType != "" || spec.gpus == [] || spec.gpus[0] == "default"
  }

  lemma MeterBack(m: Meter, inventory: int, k: int)
    requires 0 <= k && 0 <= m.inUse
    ensures var drawn := if k > 0 then Draw(PrimedMeter(m, inventory), k) else m;
            PrimedMeter(Refill(drawn, k), inventory) == PrimedMeter(m, inventory)
  {
  }

  /** The GPU pools after a grant and the matching release, type by type: the two types are
      the one debited (g) and the one credited (h). */
  lemma GrantKeepsShape(n: Node, a: ResourceAllocation)
    requires Allocate(n, a).1 == Granted
    ensures Allocate(n, a).0.spec == n.spec
    ensures Allocate(n, a).0.cap.availableGPUs.Made? && Allocate(n, a).0.cap.inUseGPUs.Made?
  {
  }

  lemma PoolsBack(n: Node, a: ResourceAllocation)
    requires 0 <= a.gpuCount && forall t :: 0 <= n.cap.inUseGPUs.Count(t)
    requires Allocate(n, a).1 == Granted
    ensures var g := ResolveType(n.spec, a.gpuType);
            var h := ResolveType(n.spec, if a.gpuType == "" then "default" else a.gpuType);
            var before, back := Primed(n, g).cap, ReleaseAllocation(Allocate(n, a).0, a).cap;
            && back.availableGPUs.Made? && back.inUseGPUs.Made?
            && (forall t :: back.availableGPUs.Count(t) == before.availableGPUs.Count(t)
                  - (if t == g then a.gpuCount else 0) + (if t == h then a.gpuCount else 0))
            && (g == h || a.gpuCount == 0 ==> forall t :: back.inUseGPUs.Count(t) == before.inUseGPUs.Count(t))
  {
    GrantedTakes(n, a);
    ReleaseMoves(Allocate(n, a).0, if a.gpuType == "" then "default" else a.gpuType, a.gpuCount, a.cpuCores, a.memoryMB);
    var g := ResolveType(n.spec, a.gpuType);
    GrantKeepsShape(n, a);
    hide Allocate, Release;
    assert 0 <= n.cap.inUseGPUs.Count(g);
  }

  predicate NonNegative(a: ResourceAllocation) {
    0 <= a.gpuCount && 0 <= a.cpuCores && 0 <= a.memoryMB
  }

  /** A negative amount is not debited, but the release counts it as in use. */
  lemma NegativeIsNotGivenBack(n: Node, a: ResourceAllocation)
    requires 0 <= n.cap.cpu.inUse && 0 <= n.cap.memory.inUse
    requires forall t :: 0 <= n.cap.inUseGPUs.Count(t)
    requires Allocate(n, a).1 == Granted
    ensures var g := ResolveType(n.spec, a.gpuType);
            var h := ResolveType(n.spec, if a.gpuType == "" then "default" else a.gpuType);
            var x, y := Primed(ReleaseAllocation(Allocate(n, a).0, a), g).cap, Primed(n, g).cap;
            && (a.gpuCount < 0 ==> x.inUseGPUs.Count(h) == y.inUseGPUs.Count(h) - a.gpuCount)
            && (a.cpuCores < 0 ==> x.cpu.inUse == y.cpu.inUse - a.cpuCores)
            && (a.memoryMB < 0 ==> x.memory.inUse == y.memory.inUse - a.memoryMB)
  {
  }

  /** Rolling a granted request back with ReleaseResources restores the lazily initialised ledger,
      exactly when no amount is negative, and the GPU type resolves to the same pool on both sides
      (or no GPU was taken). */
  lemma RollbackInverse(n: Node, a: ResourceAllocation)
    requires 0 <= n.cap.cpu.inUse && 0 <= n.cap.memory.inUse
    requires forall t :: 0 <= n.cap.inUseGPUs.Count(t)
    requires Allocate(n, a).1 == Granted
    ensures var g := ResolveType(n.spec, a.gpuType);
            var back := ReleaseAllocation(Allocate(n, a).0, a);
            Same(Primed(back, g).cap, Primed(n, g).cap) <==>
              NonNegative(a) && (SameTypeBack(n.spec, a) || a.gpuCount == 0)
  {
    var g := ResolveType(n.spec, a.gpuType);
    var back := ReleaseAllocation(Allocate(n, a).0, a);
    var x, y := Primed(back, g).cap, Primed(n, g).cap;
    if !NonNegative(a) {
      NegativeIsNotGivenBack(n, a);
    } else {
      MeterBack(n.cap.cpu, n.spec.cpuCores, a.cpuCores);
      MeterBack(n.cap.memory, n.spec.totalMemoryMB, a.memoryMB);
      PoolsBack(n, a);
      assert x.availableGPUs == back.cap.availableGPUs && x.inUseGPUs == back.cap.inUseGPUs;
      if !(SameTypeBack(n.spec, a) || a.gpuCount == 0) {
        assert x.availableGPUs.Count(g) != y.availableGPUs.Count(g);
      }
    }
  }
}
