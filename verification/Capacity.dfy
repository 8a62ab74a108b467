/** The provider's resource record: hardware inventory, pools and counters. */
module Capacity {
  import opened Sums

  /** A Go map[string]int: nil, or made. Reading an absent key gives 0. */
  datatype Pool = NilMap | Made(counts: map<string, int>) {
    function Count(gpuType: string): int {
      if Made? && gpuType in counts then counts[gpuType] else 0
    }

    /** make() when nil. */
    function Ensured(): Pool {
      if NilMap? then Made(map[]) else this
    }

    /** pool[gpuType] = n, on a map that has been made. */
    function Put(gpuType: string, n: int): Pool
      requires Made?
    {
      Made(counts[gpuType := n])
    }

    /** pool[gpuType] += n, on a map that has been made. */
    function Add(gpuType: string, n: int): Pool
      requires Made?
    {
      Put(gpuType, Count(gpuType) + n)
    }

    ghost function Sum(): int {
      if NilMap? then 0 else Total(counts)
    }
  }

  /** One scalar resource (CPU cores, or memory in MB): the legacy field and
      the Total / Mining / InUse / Available counters of that resource. */
  datatype Meter = Meter(legacy: int, total: int, mining: int, inUse: int, available: int)

  datatype ProviderCapacity = ProviderCapacity(
    gpuCount: int,
    totalGPUs: Pool,
    miningGPUs: Pool,
    inUseGPUs: Pool,
    availableGPUs: Pool,
    cpu: Meter,
    memory: Meter,
    miningPodName: string,
    miningStatus: string)

  /** The part of the hardware inventory the ledger reads; gpus lists the GPU names. */
  datatype SystemSpec = SystemSpec(gpus: seq<string>, totalGPUs: int, cpuCores: int, totalMemoryMB: int)

  /** The value of a provider record. */
  datatype Node = Node(spec: SystemSpec, cap: ProviderCapacity)

  datatype ResourceAllocation = ResourceAllocation(gpuType: string, gpuCount: int, cpuCores: int, memoryMB: int)

  /** Two pools no reader can tell apart: nil together, and equal counts for every GPU type. */
  ghost predicate SamePool(p: Pool, q: Pool) {
    p.NilMap? == q.NilMap? && forall t :: p.Count(t) == q.Count(t)
  }

  /** Two capacities no ledger operation can tell apart. */
  ghost predicate Same(c: ProviderCapacity, d: ProviderCapacity) {
    && c.gpuCount == d.gpuCount
    && c.totalGPUs == d.totalGPUs
    && SamePool(c.miningGPUs, d.miningGPUs)
    && SamePool(c.inUseGPUs, d.inUseGPUs)
    && SamePool(c.availableGPUs, d.availableGPUs)
    && c.cpu == d.cpu
    && c.memory == d.memory
    && c.miningPodName == d.miningPodName
    && c.miningStatus == d.miningStatus
  }

  /** What the scheduler reports as free, with the fallback to the legacy single-type field. */
  ghost function AvailableGPUCount(c: ProviderCapacity): int {
    var total := c.availableGPUs.Sum();
    if total == 0 && c.gpuCount > 0 then c.gpuCount - c.inUseGPUs.Sum() else total
  }

  /** The counting loop shared by the *GPUCount helpers: it visits the keys in an arbitrary order. */
  method SumCounts(p: Pool) returns (total: int)
    ensures total == p.Sum()
  {
    total := 0;
    if p.NilMap? {
      return;
    }
    var rest := p.counts;
    while rest != map[]
      invariant total + Total(rest) == Total(p.counts)
      decreases |rest|
    {
      var k :| k in rest;
      TotalRemove(rest, k);
      total := total + rest[k];
      rest := rest - {k};
    }
  }

  method CountAvailableGPUs(c: ProviderCapacity) returns (n: int)
    ensures n == AvailableGPUCount(c)
  {
    n := SumCounts(c.availableGPUs);
    if n == 0 && c.gpuCount > 0 {
      var inUse := SumCounts(c.inUseGPUs);
      return c.gpuCount - inUse;
    }
  }

  /** GetAvailableCPUCores and GetAvailableMemoryMB: the free amount with its legacy fallback. */
  function FreeAmount(m: Meter): int {
    if m.available > 0 then m.available
    else if m.legacy > 0 then m.legacy - m.inUse
    else 0
  }

  /** What is reported as free: what the pools hold; where they hold nothing, what a positive legacy count leaves. */
  lemma FreeGPUs(c: ProviderCapacity)
    ensures c.availableGPUs.Sum() != 0 ==> AvailableGPUCount(c) == c.availableGPUs.Sum()
    ensures c.availableGPUs.Sum() == 0 && 0 < c.gpuCount ==> AvailableGPUCount(c) + c.inUseGPUs.Sum() == c.gpuCount
    ensures c.availableGPUs.Sum() == 0 && c.gpuCount <= 0 ==> AvailableGPUCount(c) == 0
  {
  }
}
