/** The in-memory provider registry and the methods that mutate it under the providers lock.
    Each method is one atomic step, proved to do to the ledger what the value functions say. */
module Orchestrator {
  import opened Wrappers
  import opened Capacity
  import opened Ledger
  import opened Mining
  import opened Pods
  import opened Recovery
  import opened Sweep

  /** A provider record. Its methods are the bodies of the orchestrator's steps once the record has been found. */
  class ProviderState {
    const spec: SystemSpec
    var capacity: ProviderCapacity

    constructor (spec: SystemSpec, capacity: ProviderCapacity)
      ensures this.spec == spec && this.capacity == capacity
    {
      this.spec, this.capacity := spec, capacity;
    }

    ghost function Value(): Node
      reads this
    {
      Node(spec, capacity)
    }

    method MoveGPUs(gpuType: string, k: int)
      requires capacity.availableGPUs.Made? && capacity.inUseGPUs.Made?
      modifies this
      ensures capacity == Take(old(capacity), gpuType, k)
    {
      capacity := capacity.(availableGPUs := capacity.availableGPUs.Add(gpuType, -k));
      capacity := capacity.(inUseGPUs := capacity.inUseGPUs.Add(gpuType, k));
    }

    method InitPools(gpuType: string)
      modifies this
      ensures capacity == PrimedPools(old(Value()), gpuType)
      ensures capacity.availableGPUs.Made? && capacity.inUseGPUs.Made?
    {
      if capacity.availableGPUs.NilMap? {
        capacity := capacity.(availableGPUs := Made(map[]));
        if capacity.gpuCount > 0 {
          capacity := capacity.(availableGPUs := capacity.availableGPUs.Put(gpuType, capacity.gpuCount));
        } else if spec.totalGPUs > 0 {
          capacity := capacity.(availableGPUs := capacity.availableGPUs.Put(gpuType, spec.totalGPUs));
        }
        assert forall n: int :: map[][gpuType := n] == map[gpuType := n];
      }
      if capacity.inUseGPUs.NilMap? {
        capacity := capacity.(inUseGPUs := Made(map[]));
      }
    }

    static method InitMeter(m: Meter, inventory: int) returns (r: Meter)
      ensures r == PrimedMeter(m, inventory)
    {
      r := m;
      if r.total == 0 {
        if r.legacy > 0 {
          r := r.(total := r.legacy);
        } else if inventory > 0 {
          r := r.(total := inventory);
        }
      }
      if r.available == 0 && r.total > 0 {
        r := r.(available := r.total - r.inUse - r.mining);
      }
    }

    /** Taking k and handing k back leaves the counts alone, with the entry written. */
    static lemma TakeBack(c: ProviderCapacity, g: string, k: int)
      requires c.availableGPUs.Made? && c.inUseGPUs.Made?
      ensures Take(Take(c, g, k), g, -k) == Take(c, g, 0)
    {
      var twice, zero := Take(Take(c, g, k), g, -k), Take(c, g, 0);
      assert twice.availableGPUs.counts == zero.availableGPUs.counts;
      assert twice.inUseGPUs.counts == zero.inUseGPUs.counts;
    }

    /** Hand k GPUs back, whether or not they had been taken from the pools of c. */
    method GiveBack(ghost c: ProviderCapacity, gpuType: string, k: int)
      requires c.availableGPUs.Made? && c.inUseGPUs.Made?
      requires var d := if k > 0 then Take(c, gpuType, k) else c;
               capacity.availableGPUs == d.availableGPUs && capacity.inUseGPUs == d.inUseGPUs
      modifies this
      ensures var d := Take(c, gpuType, -Negative(k));
              capacity == old(capacity).(availableGPUs := d.availableGPUs, inUseGPUs := d.inUseGPUs)
    {
      TakeBack(c, gpuType, k);
      MoveGPUs(gpuType, -k);
    }

    /** Check, debit, and roll back what was debited when a later resource is short. */
    method AllocateResources(allocation: ResourceAllocation) returns (verdict: Verdict)
      modifies this
      ensures (Value(), verdict) == Allocate(old(Value()), allocation)
    {
      hide PrimedPools, PrimedMeter, Pool.Add;
      var gpuType := ResolveType(spec, allocation.gpuType);
      InitPools(gpuType);
      ghost var c := capacity;

      if allocation.gpuCount > 0 {
        if capacity.availableGPUs.Count(gpuType) < allocation.gpuCount {
          return ShortGPU;
        }
        MoveGPUs(gpuType, allocation.gpuCount);
      }

      if allocation.cpuCores > 0 {
        var cpu := InitMeter(capacity.cpu, spec.cpuCores);
        capacity := capacity.(cpu := cpu);
        if cpu.available < allocation.cpuCores {
          GiveBack(c, gpuType, allocation.gpuCount);
          return ShortCPU;
        }
        capacity := capacity.(cpu := Draw(cpu, allocation.cpuCores));
      }

      if allocation.memoryMB > 0 {
        var memory := InitMeter(capacity.memory, spec.totalMemoryMB);
        capacity := capacity.(memory := memory);
        if memory.available < allocation.memoryMB {
          GiveBack(c, gpuType, allocation.gpuCount);
          capacity := capacity.(cpu := Draw(capacity.cpu, -allocation.cpuCores));
          return ShortMemory;
        }
        capacity := capacity.(memory := Draw(memory, allocation.memoryMB));
      }
      return Granted;
    }

    method ReleaseJobResources(gpuType: string, gpuCount: int, cpuCores: int, memoryMB: int)
      modifies this
      ensures Value() == Release(old(Value()), gpuType, gpuCount, cpuCores, memoryMB)
    {
      var g := ResolveType(spec, gpuType);
      if capacity.availableGPUs.NilMap? {
        capacity := capacity.(availableGPUs := Made(map[]));
      }
      capacity := capacity.(availableGPUs := capacity.availableGPUs.Add(g, gpuCount));
      if capacity.inUseGPUs.Made? {
        capacity := capacity.(inUseGPUs := capacity.inUseGPUs.Add(g, -gpuCount));
        if capacity.inUseGPUs.Count(g) < 0 {
          capacity := capacity.(inUseGPUs := capacity.inUseGPUs.Put(g, 0));
          assert capacity.inUseGPUs == old(capacity).inUseGPUs.Put(g, 0);
        }
      }
      var cpu := GiveBackMeter(capacity.cpu, cpuCores);
      capacity := capacity.(cpu := cpu);
      var memory := GiveBackMeter(capacity.memory, memoryMB);
      capacity := capacity.(memory := memory);
    }

    static method GiveBackMeter(m: Meter, k: int) returns (r: Meter)
      ensures r == Refill(m, k)
    {
      r := Draw(m, -k);
      if r.inUse < 0 {
        r := r.(inUse := 0);
      }
    }

    /** The GPU counts of one provider, recomputed. */
    method RecoverGPUs(gpuType: string, inUse: int)
      requires gpuType == RecoveredType(spec)
      modifies this
      ensures var free := TotalForType(old(Value())) - inUse - old(capacity.miningGPUs.Count(gpuType));
              capacity == old(capacity).(
                inUseGPUs := old(capacity.inUseGPUs).Ensured().Put(gpuType, inUse),
                availableGPUs := old(capacity.availableGPUs).Ensured().Put(gpuType, if free < 0 then 0 else free))
    {
      var inUseGPUs, availableGPUs := capacity.inUseGPUs, capacity.availableGPUs;
      if inUseGPUs.NilMap? {
        inUseGPUs := Made(map[]);
      }
      if availableGPUs.NilMap? {
        availableGPUs := Made(map[]);
      }
      var totalForType := 0;
      if capacity.totalGPUs.Made? {
        totalForType := capacity.totalGPUs.Count(gpuType);
      }
      if totalForType == 0 {
        totalForType := spec.totalGPUs;
      }
      var miningForType := 0;
      if capacity.miningGPUs.Made? {
        miningForType := capacity.miningGPUs.Count(gpuType);
      }
      var available := totalForType - inUse - miningForType;
      if available < 0 {
        available := 0;
      }
      capacity := capacity.(inUseGPUs := inUseGPUs.Put(gpuType, inUse),
                            availableGPUs := availableGPUs.Put(gpuType, available));
    }

    static method RecoveredMeter(m: Meter, inUse: int) returns (r: Meter)
      ensures r == RecoverMeter(m, inUse)
    {
      r := m.(inUse := inUse);
      if r.total > 0 {
        r := r.(available := r.total - inUse - r.mining);
      }
    }

    method RecoverFrom(d: Demand)
      modifies this
      ensures Value() == RecoverNode(old(Value()), d)
    {
      hide Pool.Put, Pool.Ensured, Pool.Count, TotalForType, RecoverMeter;
      var gpuType := if spec.gpus != [] then spec.gpus[0] else "default";
      RecoverGPUs(gpuType, d.gpu);
      var cpu := RecoveredMeter(capacity.cpu, d.cpu);
      var memory := RecoveredMeter(capacity.memory, d.memory);
      capacity := capacity.(cpu := cpu, memory := memory);
    }

    method AllocateMiningGPU(gpuType: string, count: int) returns (ok: bool)
      modifies this
      ensures (Value(), ok) == Reserve(old(Value()), gpuType, count)
    {
      var available := 0;
      if capacity.availableGPUs.Made? {
        available := capacity.availableGPUs.Count(gpuType);
      }
      if available < count {
        return false;
      }
      capacity := capacity.(availableGPUs := capacity.availableGPUs.Ensured(),
                            miningGPUs := capacity.miningGPUs.Ensured());
      capacity := capacity.(availableGPUs := capacity.availableGPUs.Add(gpuType, -count));
      capacity := capacity.(miningGPUs := capacity.miningGPUs.Add(gpuType, count));
      return true;
    }

    method ReleaseMiningGPU(gpuType: string, count: int) returns (ok: bool)
      requires 1 <= count
      modifies this
      ensures (Value(), ok) == Unreserve(old(Value()), gpuType, count)
    {
      var mining := 0;
      if capacity.miningGPUs.Made? {
        mining := capacity.miningGPUs.Count(gpuType);
      }
      if mining < count {
        return false;
      }
      capacity := capacity.(availableGPUs := capacity.availableGPUs.Ensured());
      capacity := capacity.(miningGPUs := capacity.miningGPUs.Add(gpuType, -count));
      capacity := capacity.(availableGPUs := capacity.availableGPUs.Add(gpuType, count));
      return true;
    }

    /** The first part of a deployment: make and refill the available pool. */
    method Restock(gpuType: string) returns (available: int)
      modifies this
      ensures capacity == old(capacity).(availableGPUs := Restocked(old(Value()), gpuType))
      ensures available == if gpuType == "" && spec.totalGPUs > 0 then spec.totalGPUs
                           else Offered(capacity.availableGPUs, gpuType)
    {
      if capacity.availableGPUs.NilMap? {
        if capacity.totalGPUs.Made? {
          capacity := capacity.(availableGPUs := Made(capacity.totalGPUs.counts));
        } else if gpuType != "" {
          capacity := capacity.(availableGPUs := Made(map[gpuType := spec.totalGPUs]));
        } else {
          capacity := capacity.(availableGPUs := Made(map[]));
        }
      }
      available := 0;
      if gpuType != "" {
        available := capacity.availableGPUs.Count(gpuType);
      }
      if available == 0 && spec.totalGPUs > 0 {
        available := spec.totalGPUs;
        capacity := capacity.(availableGPUs := capacity.availableGPUs.Put(gpuType, available));
      }
    }

    /** The result names the key at which the loop over the totals stopped. */
    method DeployMining(config: MiningConfig, pod: Option<string>) returns (verdict: DeployVerdict, choice: string)
      modifies this
      ensures MayChoose(old(capacity), choice)
      ensures (Value(), verdict) == Deploy(old(Value()), DeployType(spec, choice), config, pod)
    {
      choice := "";
      if capacity.totalGPUs.Made? && capacity.totalGPUs.counts != map[] {
        choice :| choice in capacity.totalGPUs.counts;
      }
      var gpuType := choice;
      if gpuType == "" && spec.gpus != [] {
        gpuType := spec.gpus[0];
      }
      var available := Restock(gpuType);
      if available < config.gpuCount {
        return Insufficient, choice;
      }
      if pod.None? {
        return ApiFailed, choice;
      }
      capacity := capacity.(miningGPUs := capacity.miningGPUs.Ensured().Put(gpuType, config.gpuCount));
      capacity := capacity.(availableGPUs := capacity.availableGPUs.Add(gpuType, -config.gpuCount));
      capacity := capacity.(cpu := capacity.cpu.(mining := config.cpuCores),
                            memory := capacity.memory.(mining := config.memoryMB));
      capacity := capacity.(miningPodName := pod.value, miningStatus := "pending");
      return Deployed, choice;
    }

    /** The loop both stop and the reconcile tick use to hand the mining pool back. */
    method ReturnMining()
      modifies this
      ensures capacity == WithoutMining(old(capacity))
    {
      var mining := if capacity.miningGPUs.Made? then capacity.miningGPUs.counts else map[];
      ghost var c0 := capacity;
      var rest := mining;
      assert mining - rest.Keys == map[];
      while rest != map[]
        invariant rest.Keys <= mining.Keys && forall t :: t in rest ==> rest[t] == mining[t]
        invariant capacity == c0.(availableGPUs := Merged(c0.availableGPUs, Made(mining - rest.Keys)))
        decreases |rest|
      {
        var t :| t in rest;
        capacity := capacity.(availableGPUs := capacity.availableGPUs.Ensured());
        capacity := capacity.(availableGPUs := capacity.availableGPUs.Add(t, rest[t]));
        MergeOneMore(c0.availableGPUs, mining, rest, t);
        rest := rest - {t};
      }
      assert mining - rest.Keys == mining;
      capacity := capacity.(miningGPUs := NilMap,
                            cpu := capacity.cpu.(mining := 0),
                            memory := capacity.memory.(mining := 0));
    }

    static lemma MergeOneMore(available: Pool, mining: map<string, int>, rest: map<string, int>, t: string)
      requires rest.Keys <= mining.Keys && t in rest && rest[t] == mining[t]
      ensures Merged(available, Made(mining - (rest - {t}).Keys))
           == Merged(available, Made(mining - rest.Keys)).Ensured().Add(t, rest[t])
    {
      var before, after := mining - rest.Keys, mining - (rest - {t}).Keys;
      assert after == before[t := mining[t]];
      var base := available.Ensured();
      var x := Merged(available, Made(after));
      var y := Merged(available, Made(before)).Ensured();
      assert y.Count(t) == base.Count(t);
      assert x.counts == y.Add(t, rest[t]).counts;
    }

    /** One provider at boot: its pod's name and status, if its pod is there. */
    method RecoverMiningState(id: string, existing: map<string, bool>, statuses: map<string, string>)
      modifies this
      ensures Value() == Found(old(Value()), id, existing, statuses)
    {
      if id in existing && existing[id] {
        var status := if id in statuses then statuses[id] else "";
        capacity := capacity.(miningPodName := "mining-" + id, miningStatus := status);
      }
    }

    /** One provider in a reconcile tick; None is a failed status query. */
    method SyncMiningPodState(status: Option<string>)
      modifies this
      ensures Value() == Reconciled(old(Value()), status)
    {
      if capacity.miningPodName == "" || status.None? {
        return;
      }
      capacity := capacity.(miningStatus := status.value);
      var reserved := SumCounts(capacity.miningGPUs);
      if (status.value == "failed" || status.value == "stopped") && reserved > 0 {
        ReturnMining();
      }
    }
  }

  datatype PodRef = PodRef(namespace: string, jobID: string)

  function RefOf(p: PodInfo): PodRef {
    PodRef(p.namespace, p.jobID)
  }

  /** The jobs a sweep over a listing deletes. */
  function DueRefs(pods: seq<PodInfo>, now: int): set<PodRef> {
    set p | p in pods && Due(p, now) :: RefOf(p)
  }

  /** The jobs a sweep deletes, by the fields of the pods in the listing. */
  lemma DueByFields(pods: seq<PodInfo>, now: int)
    ensures forall ref :: ref in DueRefs(pods, now) <==> exists p :: p in pods && RefOf(p) == ref && OverOrExpired(p, now)
  {
  }

  /** How the two calls of one job deletion end. */
  datatype Deletion = Deletion(service: Api, pod: Api)

  /** The pods, and the services, that deletions ending as calls says take away. */
  function GonePods(due: set<PodRef>, calls: PodRef -> Deletion): set<PodRef> {
    set ref | ref in due && !calls(ref).pod.Failed?
  }

  function GoneServices(due: set<PodRef>, calls: PodRef -> Deletion): set<PodRef> {
    set ref | ref in due && !calls(ref).service.Failed?
  }

  /** One more pod of the listing. */
  lemma DueOneMore(pods: seq<PodInfo>, pod: PodInfo, now: int, calls: PodRef -> Deletion)
    ensures var before, after := DueRefs(pods, now), DueRefs(pods + [pod], now);
            var last := if Due(pod, now) then {RefOf(pod)} else {};
            && GonePods(after, calls) == GonePods(before, calls) + GonePods(last, calls)
            && GoneServices(after, calls) == GoneServices(before, calls) + GoneServices(last, calls)
  {
    assert forall p :: p in pods + [pod] <==> p in pods || p == pod;
  }

  /** The cluster, as far as job deletion goes: the pods and services that exist, by namespace and job. */
  class NodeManager {
    var pods: set<PodRef>
    var services: set<PodRef>

    constructor (pods: set<PodRef>, services: set<PodRef>)
      ensures this.pods == pods && this.services == services
    {
      this.pods, this.services := pods, services;
    }

    /** Service first, whatever becomes of it, then the pod. A pod that is already gone is no error; an error
        may be returned although the pod has been deleted. */
    method DeleteGPUJob(ref: PodRef, calls: Deletion) returns (ok: bool)
      modifies this
      ensures ok == calls.pod.Applied?
      ensures pods == if calls.pod.Failed? then old(pods) else old(pods) - {ref}
      ensures services == if calls.service.Failed? then old(services) else old(services) - {ref}
    {
      if !calls.service.Failed? {
        services := services - {ref};
      }
      if !calls.pod.Failed? {
        pods := pods - {ref};
      }
      return calls.pod.Applied?;
    }
  }

  class Orchestrator {
    var providers: map<string, ProviderState>

    /** No two ids share a record. */
    ghost predicate Valid()
      reads this
    {
      forall i, j :: i in providers && j in providers && i != j ==> providers[i] != providers[j]
    }

    ghost function Ledger(): Providers
      reads this, providers.Values
    {
      map id | id in providers :: providers[id].Value()
    }

    constructor ()
      ensures Valid() && Ledger() == map[]
    {
      providers := map[];
    }

    /** loadProvidersFromDB and registration: a fresh record replaces whatever the id held. */
    method Register(id: string, spec: SystemSpec, capacity: ProviderCapacity)
      requires Valid()
      modifies this
      ensures Valid()
      ensures Ledger() == old(Ledger())[id := Node(spec, capacity)]
    {
      var p := new ProviderState(spec, capacity);
      providers := providers[id := p];
    }

    /** Changing one record changes one entry of the ledger. */
    twostate lemma OneEntry(id: string)
      requires old(Valid()) && providers == old(providers) && id in providers
      requires forall p :: p in providers.Values && p != providers[id] ==> p.capacity == old(p.capacity)
      ensures Ledger() == old(Ledger())[id := providers[id].Value()]
    {
    }

    method AllocateResources(id: string, allocation: ResourceAllocation) returns (verdict: Verdict)
      requires Valid()
      modifies providers.Values
      ensures (Ledger(), verdict) == AllocateAt(old(Ledger()), id, allocation)
    {
      if id !in providers {
        return NoProvider;
      }
      verdict := providers[id].AllocateResources(allocation);
      OneEntry(id);
    }

    /** The funnel every return path goes through. */
    method ReleaseJobResources(id: string, gpuType: string, gpuCount: int, cpuCores: int, memoryMB: int)
      requires Valid()
      modifies providers.Values
      ensures Ledger() == ReleaseAt(old(Ledger()), id, gpuType, gpuCount, cpuCores, memoryMB)
    {
      if id in providers {
        providers[id].ReleaseJobResources(gpuType, gpuCount, cpuCores, memoryMB);
        OneEntry(id);
      }
    }

    method ReleaseResources(id: string, allocation: ResourceAllocation)
      requires Valid()
      modifies providers.Values
      ensures Ledger() == if id in old(Ledger())
                          then old(Ledger())[id := ReleaseAllocation(old(Ledger())[id], allocation)]
                          else old(Ledger())
    {
      var gpuType := allocation.gpuType;
      if gpuType == "" {
        gpuType := "default";
      }
      ReleaseJobResources(id, gpuType, allocation.gpuCount, allocation.cpuCores, allocation.memoryMB);
    }

    method HandlePodEvent(event: WatchEvent)
      requires Valid()
      modifies providers.Values
      ensures Ledger() == Handled(old(Ledger()), event)
    {
      var info := event.info;
      match event
      case Deleted(_) =>
        if info.providerID == "" {
          return;
        }
        ReleaseJobResources(info.providerID, info.gpuModel, info.gpuCount, info.cpuCores, info.memoryMB);
      case Modified(_) =>
        if info.status == "Failed" || info.status == "Succeeded" {
          if info.providerID == "" {
            return;
          }
          ReleaseJobResources(info.providerID, info.gpuModel, info.gpuCount, info.cpuCores, info.memoryMB);
        }
      case Added(_) =>
    }

    /** The sweeper: for every due pod of the listing, credit first, then delete. The listing may be
        stale; calls says how the deletions end. */
    method CleanupExpiredAndFailedJobs(nm: NodeManager, listing: Option<seq<PodInfo>>, now: int, calls: PodRef -> Deletion)
      requires Valid()
      modifies providers.Values, nm
      ensures Ledger() == if listing.Some? then Swept(old(Ledger()), listing.value, now) else old(Ledger())
      ensures var due := if listing.Some? then DueRefs(listing.value, now) else {};
              nm.pods == old(nm.pods) - GonePods(due, calls) && nm.services == old(nm.services) - GoneServices(due, calls)
      ensures listing.Some? ==>
        forall p :: p in listing.value && OverOrExpired(p, now) && !calls(RefOf(p)).pod.Failed? ==> RefOf(p) !in nm.pods
      ensures listing.Some? ==>
        forall p :: p in listing.value && OverOrExpired(p, now) && !calls(RefOf(p)).service.Failed? ==> RefOf(p) !in nm.services
      ensures listing.Some? ==>
        forall ref :: ref in old(nm.services) && (forall p :: p in listing.value && RefOf(p) == ref ==> !OverOrExpired(p, now)) ==> ref in nm.services
      ensures forall ref :: ref in old(nm.pods) && calls(ref).pod.Failed? ==> ref in nm.pods
      ensures forall ref :: ref in old(nm.services) && calls(ref).service.Failed? ==> ref in nm.services
      ensures listing.Some? ==>
        forall ref :: ref in old(nm.pods) && (forall p :: p in listing.value && RefOf(p) == ref ==> !OverOrExpired(p, now)) ==> ref in nm.pods
    {
      if listing.None? {
        return;
      }
      var pods := listing.value;
      for i := 0 to |pods|
        invariant providers == old(providers)
        invariant Ledger() == Swept(old(Ledger()), pods[..i], now)
        invariant nm.pods == old(nm.pods) - GonePods(DueRefs(pods[..i], now), calls)
        invariant nm.services == old(nm.services) - GoneServices(DueRefs(pods[..i], now), calls)
      {
        var pod := pods[i];
        assert pods[..i + 1][..i] == pods[..i];
        var shouldDelete := false;
        if pod.expiresAt.Some? && now > pod.expiresAt.value {
          shouldDelete := true;
        }
        if pod.status == "Failed" || pod.status == "Succeeded" {
          shouldDelete := true;
        }
        assert pods[..i + 1] == pods[..i] + [pod];
        DueOneMore(pods[..i], pod, now, calls);
        if shouldDelete {
          CleanUp(nm, pod, calls(RefOf(pod)));
        }
      }
      assert pods[..|pods|] == pods;
      DueByFields(pods, now);
    }

    method CleanUp(nm: NodeManager, pod: PodInfo, calls: Deletion)
      requires Valid()
      modifies providers.Values, nm
      ensures Ledger() == if Creditable(pod) then Credit(old(Ledger()), pod) else old(Ledger())
      ensures nm.pods == if calls.pod.Failed? then old(nm.pods) else old(nm.pods) - {RefOf(pod)}
      ensures nm.services == if calls.service.Failed? then old(nm.services) else old(nm.services) - {RefOf(pod)}
    {
      hide Release;
      if pod.providerID != "" && (pod.gpuCount > 0 || pod.cpuCores > 0 || pod.memoryMB > 0) {
        ReleaseJobResources(pod.providerID, pod.gpuModel, pod.gpuCount, pod.cpuCores, pod.memoryMB);
      }
      var ok := nm.DeleteGPUJob(RefOf(pod), calls);
    }

    /** Boot recovery: group the pods by provider, add each group up, recompute the provider. */
    method RecoverJobAllocations(listing: Option<seq<PodInfo>>) returns (ok: bool)
      requires Valid()
      modifies providers.Values
      ensures ok == listing.Some?
      ensures Ledger() == if listing.Some? then Recovered(old(Ledger()), listing.value) else old(Ledger())
    {
      if listing.None? {
        return false;
      }
      var groups := GroupByProvider(listing.value);
      ApplyGroups(groups);
      return true;
    }

    method ApplyGroups(groups: map<string, seq<PodInfo>>)
      requires Valid()
      modifies providers.Values
      ensures Ledger() == FromGroups(old(Ledger()), groups)
    {
      ghost var l0, goal := Ledger(), FromGroups(Ledger(), groups);
      var rest := groups.Keys;
      while rest != {}
        invariant providers == old(providers)
        invariant rest <= groups.Keys
        invariant forall id :: id in providers ==> providers[id].Value() == if id in rest then l0[id] else goal[id]
        decreases |rest|
      {
        var id :| id in rest;
        rest := rest - {id};
        var d := AddUp(groups[id]);
        if id in providers {
          assert goal[id] == RecoverNode(l0[id], d);
          providers[id].RecoverFrom(d);
        }
      }
      assert Ledger() == goal;
    }

    static function FromGroups(l: Providers, groups: map<string, seq<PodInfo>>): Providers {
      map id | id in l :: if id in groups then RecoverNode(l[id], Tally(groups[id])) else l[id]
    }

    static method GroupByProvider(pods: seq<PodInfo>) returns (groups: map<string, seq<PodInfo>>)
      ensures forall id :: id in groups <==> HasPods(pods, id)
      ensures forall id :: id in groups ==> Tally(groups[id]) == Demanded(pods, id)
    {
      groups := map[];
      for i := 0 to |pods|
        invariant Grouped(groups, pods[..i])
      {
        var pod := pods[i];
        var group := if pod.providerID in groups then groups[pod.providerID] else [];
        GroupOneMore(groups, pods[..i], pod);
        if pod.providerID != "" {
          groups := groups[pod.providerID := group + [pod]];
        }
        assert pods[..i] + [pod] == pods[..i + 1];
      }
      assert pods[..|pods|] == pods;
    }

    /** The groups hold what the pods seen so far hold, provider by provider. */
    static ghost predicate Grouped(groups: map<string, seq<PodInfo>>, seen: seq<PodInfo>) {
      forall id :: (id in groups <==> HasPods(seen, id))
                   && (id != "" ==> Demanded(seen, id) == if id in groups then Tally(groups[id]) else Demand(0, 0, 0))
    }

    static lemma GroupOneMore(groups: map<string, seq<PodInfo>>, seen: seq<PodInfo>, pod: PodInfo)
      requires Grouped(groups, seen)
      ensures var group := if pod.providerID in groups then groups[pod.providerID] else [];
              Grouped(if pod.providerID != "" then groups[pod.providerID := group + [pod]] else groups, seen + [pod])
    {
      var group := if pod.providerID in groups then groups[pod.providerID] else [];
      assert (group + [pod])[..|group|] == group;
      var after := if pod.providerID != "" then groups[pod.providerID := group + [pod]] else groups;
      forall id
        ensures id in after <==> HasPods(seen + [pod], id)
        ensures id != "" ==> Demanded(seen + [pod], id) == if id in after then Tally(after[id]) else Demand(0, 0, 0)
      {
        assert (seen + [pod])[..|seen|] == seen;
        if HasPods(seen, id) {
          var k :| 0 <= k < |seen| && seen[k].providerID == id;
          assert (seen + [pod])[k].providerID == id;
        }
        assert (seen + [pod])[|seen|] == pod;
      }
    }

    static method AddUp(jobs: seq<PodInfo>) returns (d: Demand)
      ensures d == Tally(jobs)
    {
      d := Demand(0, 0, 0);
      for i := 0 to |jobs|
        invariant d == Tally(jobs[..i])
      {
        assert jobs[..i + 1][..i] == jobs[..i];
        d := Plus(d, jobs[i]);
      }
      assert jobs[..|jobs|] == jobs;
    }

    method AllocateMiningGPU(id: string, gpuType: string, count: int) returns (ok: bool)
      requires Valid()
      modifies providers.Values
      ensures id !in old(Ledger()) ==> !ok && Ledger() == old(Ledger())
      ensures id in old(Ledger()) ==>
        var (n, granted) := Reserve(old(Ledger())[id], gpuType, count);
        ok == granted && Ledger() == old(Ledger())[id := n]
    {
      if id !in providers {
        return false;
      }
      ok := providers[id].AllocateMiningGPU(gpuType, count);
      OneEntry(id);
    }

    method ReleaseMiningGPU(id: string, gpuType: string, count: int) returns (ok: bool)
      requires Valid()
      requires 1 <= count
      modifies providers.Values
      ensures id !in old(Ledger()) ==> !ok && Ledger() == old(Ledger())
      ensures id in old(Ledger()) ==>
        var (n, granted) := Unreserve(old(Ledger())[id], gpuType, count);
        ok == granted && Ledger() == old(Ledger())[id := n]
    {
      if id !in providers {
        return false;
      }
      ok := providers[id].ReleaseMiningGPU(gpuType, count);
      OneEntry(id);
    }

    method DeployMiningForProvider(id: string, config: MiningConfig, pod: Option<string>)
      returns (verdict: DeployVerdict, choice: string)
      requires Valid()
      modifies providers.Values
      ensures id !in old(Ledger()) ==> verdict == Unknown && Ledger() == old(Ledger())
      ensures id in old(Ledger()) ==>
        var n := old(Ledger())[id];
        && MayChoose(n.cap, choice)
        && var (after, v) := Deploy(n, DeployType(n.spec, choice), config, pod);
           verdict == v && Ledger() == old(Ledger())[id := after]
    {
      if id !in providers {
        return Unknown, "";
      }
      verdict, choice := providers[id].DeployMining(config, pod);
      OneEntry(id);
    }

    method StopMiningForProvider(id: string, podDeleted: bool) returns (ok: bool)
      requires Valid()
      modifies providers.Values
      ensures ok == (id in old(Ledger()) && podDeleted)
      ensures Ledger() == if id in old(Ledger())
                          then old(Ledger())[id := Stop(old(Ledger())[id], podDeleted)]
                          else old(Ledger())
    {
      if id !in providers {
        return false;
      }
      if podDeleted {
        var provider := providers[id];
        provider.ReturnMining();
        provider.capacity := provider.capacity.(miningPodName := "", miningStatus := "stopped");
      }
      OneEntry(id);
      return podDeleted;
    }

    /** The reconcile tick: statuses holds the answers of the status queries that succeeded. */
    method SyncMiningPodStates(statuses: map<string, string>)
      requires Valid()
      modifies providers.Values
      ensures Ledger() == TickAll(old(Ledger()), statuses)
    {
      hide Reconciled;
      ghost var l0, goal := Ledger(), TickAll(Ledger(), statuses);
      var rest := providers.Keys;
      while rest != {}
        invariant providers == old(providers)
        invariant rest <= providers.Keys
        invariant forall id :: id in providers ==>
          providers[id].Value() == if id in rest then l0[id] else goal[id]
        decreases |rest|
      {
        var id :| id in rest;
        rest := rest - {id};
        providers[id].SyncMiningPodState(StatusOf(statuses, id));
      }
      assert Ledger() == goal;
    }

    /** Boot: pod names and statuses come back, mining counts do not. An id absent from existing is a
        failed existence query. */
    method RecoverMiningStates(existing: map<string, bool>, statuses: map<string, string>)
      requires Valid()
      modifies providers.Values
      ensures Ledger() == RediscoverAll(old(Ledger()), existing, statuses)
    {
      hide Found, Rediscovered;
      ghost var l0, goal := Ledger(), RediscoverAll(Ledger(), existing, statuses);
      var rest := providers.Keys;
      while rest != {}
        invariant providers == old(providers)
        invariant rest <= providers.Keys
        invariant forall id :: id in providers ==>
          providers[id].Value() == if id in rest then l0[id] else goal[id]
        decreases |rest|
      {
        var id :| id in rest;
        rest := rest - {id};
        providers[id].RecoverMiningState(id, existing, statuses);
      }
      assert Ledger() == goal;
    }
  }

  function StatusOf(statuses: map<string, string>, id: string): Option<string> {
    if id in statuses then Some(statuses[id]) else None
  }

  ghost function TickAll(l: Providers, statuses: map<string, string>): Providers {
    map id | id in l :: Reconciled(l[id], StatusOf(statuses, id))
  }

  function Found(n: Node, id: string, existing: map<string, bool>, statuses: map<string, string>): Node {
    Rediscovered(n, id in existing && existing[id], "mining-" + id, if id in statuses then statuses[id] else "")
  }

  function RediscoverAll(l: Providers, existing: map<string, bool>, statuses: map<string, string>): Providers {
    map id | id in l :: Found(l[id], id, existing, statuses)
  }

  /** What a tick and a boot look up: the status of a provider whose query succeeded, and a pod named after its provider,
      with an empty status when that cannot be read. */
  lemma LooksUp(n: Node, id: string, existing: map<string, bool>, statuses: map<string, string>)
    ensures StatusOf(statuses, id).Some? <==> id in statuses
    ensures id in statuses ==> StatusOf(statuses, id).value == statuses[id]
    ensures var c := Found(n, id, existing, statuses).cap;
            if id !in existing || !existing[id] then c == n.cap
            else c == n.cap.(miningPodName := "mining-" + id, miningStatus := if id !in statuses then "" else statuses[id])
  {
  }
}
