/** What one pass of the expiry sweeper, and one watch event, do to the ledger. */
module Sweep {
  import opened Capacity
  import opened Ledger
  import opened Pods

  datatype WatchEvent = Added(info: PodInfo) | Modified(info: PodInfo) | Deleted(info: PodInfo)

  function Credit(l: Providers, p: PodInfo): Providers {
    ReleaseAt(l, p.providerID, p.gpuModel, p.gpuCount, p.cpuCores, p.memoryMB)
  }

  /** A deletion, or a change into a terminal phase, credits what the pod held. */
  predicate EventCredits(e: WatchEvent) {
    e.info.providerID != "" && (e.Deleted? || (e.Modified? && Terminated(e.info)))
  }

  function Handled(l: Providers, e: WatchEvent): Providers {
    if EventCredits(e) then Credit(l, e.info) else l
  }

  /** The ledger after a sweep over a listing: one credit for every due pod that carries something. */
  function Swept(l: Providers, pods: seq<PodInfo>, now: int): Providers {
    if pods == [] then l else
      var before, p := Swept(l, pods[..|pods| - 1], now), pods[|pods| - 1];
      if Due(p, now) && Creditable(p) then Credit(before, p) else before
  }

  /** GPUs of type g held by the due pods of one provider. */
  function DueGPUs(pods: seq<PodInfo>, now: int, id: string, spec: SystemSpec, g: string): int {
    if pods == [] then 0 else
      var p := pods[|pods| - 1];
      DueGPUs(pods[..|pods| - 1], now, id, spec, g)
      + if Due(p, now) && p.providerID == id && ResolveType(spec, p.gpuModel) == g then p.gpuCount else 0
  }

  function DueCPUs(pods: seq<PodInfo>, now: int, id: string): int {
    if pods == [] then 0 else
      var p := pods[|pods| - 1];
      DueCPUs(pods[..|pods| - 1], now, id) + if Due(p, now) && p.providerID == id then p.cpuCores else 0
  }

  function DueMemory(pods: seq<PodInfo>, now: int, id: string): int {
    if pods == [] then 0 else
      var p := pods[|pods| - 1];
      DueMemory(pods[..|pods| - 1], now, id) + if Due(p, now) && p.providerID == id then p.memoryMB else 0
  }

  /** Some due pod of the provider carries something. */
  predicate Owed(pods: seq<PodInfo>, now: int, id: string) {
    exists p :: p in pods && Due(p, now) && Creditable(p) && p.providerID == id
  }

  function Floor(x: int): int {
    if x < 0 then 0 else x
  }

  lemma {:induction false} SweptKeys(l: Providers, pods: seq<PodInfo>, now: int)
    ensures Swept(l, pods, now).Keys == l.Keys
    ensures forall id :: id in l ==> Swept(l, pods, now)[id].spec == l[id].spec
  {
    if pods != [] {
      SweptKeys(l, pods[..|pods| - 1], now);
    }
  }

  /** A provider that nothing is owed to is left alone; any other has an available pool afterwards. */
  lemma {:induction false} SweptOnlyIfOwed(l: Providers, pods: seq<PodInfo>, now: int, id: string)
    requires id in l
    ensures id in Swept(l, pods, now)
    ensures if Owed(pods, now, id) then Swept(l, pods, now)[id].cap.availableGPUs.Made? else Swept(l, pods, now)[id] == l[id]
  {
    if pods != [] {
      var front, last := pods[..|pods| - 1], pods[|pods| - 1];
      SweptOnlyIfOwed(l, front, now, id);
      assert forall p :: p in pods <==> p in front || p == last;
    }
  }

  /** One credit, as the pool of type g and the meters of one provider see it. */
  lemma CreditMoves(l: Providers, p: PodInfo, id: string, g: string)
    requires id in l
    ensures id in Credit(l, p)
    ensures var before, after := l[id].cap, Credit(l, p)[id].cap;
            var own := p.providerID == id;
            var gpu := if own && ResolveType(l[id].spec, p.gpuModel) == g then p.gpuCount else 0;
            && after.availableGPUs.Count(g) == before.availableGPUs.Count(g) + gpu
            && (0 <= before.inUseGPUs.Count(g) && 0 <= gpu ==>
                  after.inUseGPUs.Count(g) == Floor(before.inUseGPUs.Count(g) - if before.inUseGPUs.Made? then gpu else 0))
            && after.cpu == (if own then Refill(before.cpu, p.cpuCores) else before.cpu)
            && after.memory == (if own then Refill(before.memory, p.memoryMB) else before.memory)
            && after.inUseGPUs.NilMap? == before.inUseGPUs.NilMap?
  {
  }

  lemma RefillTwice(m: Meter, j: int, k: int)
    requires 0 <= j && 0 <= k && 0 <= m.inUse
    ensures Refill(Refill(m, j), k) == Refill(m, j + k) && Refill(m, 0) == m
  {
  }

  /** Nothing the watch lost is forgotten: a sweep credits every registered provider with exactly the
      GPUs, cores and memory of its due pods, and takes them out of use down to zero. */
  lemma {:induction false} SweepCreditsAllDue(l: Providers, pods: seq<PodInfo>, now: int, id: string, g: string)
    requires id in l && id != ""
    requires forall p :: p in pods ==> 0 <= p.gpuCount && 0 <= p.cpuCores && 0 <= p.memoryMB
    requires 0 <= l[id].cap.inUseGPUs.Count(g) && 0 <= l[id].cap.cpu.inUse && 0 <= l[id].cap.memory.inUse
    ensures id in Swept(l, pods, now)
    ensures var before, after := l[id].cap, Swept(l, pods, now)[id].cap;
            && after.availableGPUs.Count(g) == before.availableGPUs.Count(g) + DueGPUs(pods, now, id, l[id].spec, g)
            && after.inUseGPUs.Count(g) == Floor(before.inUseGPUs.Count(g) - DueGPUs(pods, now, id, l[id].spec, g))
            && after.cpu == Refill(before.cpu, DueCPUs(pods, now, id))
            && after.memory == Refill(before.memory, DueMemory(pods, now, id))
            && after.inUseGPUs.NilMap? == before.inUseGPUs.NilMap?
    ensures 0 <= DueGPUs(pods, now, id, l[id].spec, g) && 0 <= DueCPUs(pods, now, id) && 0 <= DueMemory(pods, now, id)
  {
    if pods != [] {
      var front, p := pods[..|pods| - 1], pods[|pods| - 1];
      SweepCreditsAllDue(l, front, now, id, g);
      SweptKeys(l, front, now);
      assert p in pods;
      var before := Swept(l, front, now);
      CreditMoves(before, p, id, g);
      RefillTwice(l[id].cap.cpu, DueCPUs(front, now, id), p.cpuCores);
      RefillTwice(l[id].cap.memory, DueMemory(front, now, id), p.memoryMB);
      hide Credit, Refill;
      assert Swept(l, pods, now) == if Due(p, now) && Creditable(p) then Credit(before, p) else before;
    } else {
      RefillTwice(l[id].cap.cpu, 0, 0);
      RefillTwice(l[id].cap.memory, 0, 0);
    }
  }

  /** What makes the sweeper clean a pod up, by the pod's own fields: an expiry that has passed, or a terminal phase. */
  predicate OverOrExpired(p: PodInfo, now: int) {
    p.status == "Failed" || p.status == "Succeeded" || (p.expiresAt.Some? && p.expiresAt.value < now)
  }

  /** One pod of a sweep: its provider, if registered, gets back what the pod holds, if that is anything and the pod is
      over or expired. */
  function GivenBack(l: Providers, p: PodInfo, now: int): Providers {
    if OverOrExpired(p, now) && p.providerID in l && p.providerID != "" && (1 <= p.gpuCount || 1 <= p.cpuCores || 1 <= p.memoryMB)
    then l[p.providerID := Release(l[p.providerID], p.gpuModel, p.gpuCount, p.cpuCores, p.memoryMB)]
    else l
  }

  function GivenBackInTurn(l: Providers, pods: seq<PodInfo>, now: int): Providers
    decreases |pods|
  {
    if pods == [] then l else GivenBackInTurn(GivenBack(l, pods[0], now), pods[1..], now)
  }

  lemma SweptLast(l: Providers, pods: seq<PodInfo>, p: PodInfo, now: int)
    ensures Swept(l, pods + [p], now) == GivenBack(Swept(l, pods, now), p, now)
  {
    assert (pods + [p])[..|pods|] == pods;
  }

  lemma {:induction false} GivenBackLast(l: Providers, pods: seq<PodInfo>, p: PodInfo, now: int)
    ensures GivenBackInTurn(l, pods + [p], now) == GivenBack(GivenBackInTurn(l, pods, now), p, now)
    decreases |pods|
  {
    hide GivenBack;
    if pods == [] {
      assert [] + [p] == [p] && [p][1..] == [];
    } else {
      assert (pods + [p])[1..] == pods[1..] + [p];
      GivenBackLast(GivenBack(l, pods[0], now), pods[1..], p, now);
    }
  }

  /** A sweep over a whole listing gives back what the pods that have failed, succeeded or outlived their expiry hold,
      one after the other, and nothing else. */
  lemma {:induction false} SweptInTurn(l: Providers, pods: seq<PodInfo>, now: int)
    ensures Swept(l, pods, now) == GivenBackInTurn(l, pods, now)
  {
    if pods != [] {
      var front, p := pods[..|pods| - 1], pods[|pods| - 1];
      assert front + [p] == pods;
      SweptInTurn(l, front, now);
      SweptLast(l, front, p, now);
      GivenBackLast(l, front, p, now);
      hide GivenBack, Swept;
    }
  }

  /** The credit of a watch event, by its kind and the pod's phase: a deletion always, a change exactly when the pod has
      failed or succeeded, an addition never; and nothing for a pod without a provider, or an unknown one. */
  lemma HandledByKind(l: Providers, p: PodInfo)
    ensures var credited := if p.providerID in l && p.providerID != ""
                            then l[p.providerID := Release(l[p.providerID], p.gpuModel, p.gpuCount, p.cpuCores, p.memoryMB)]
                            else l;
            && Handled(l, Added(p)) == l
            && Handled(l, Deleted(p)) == credited
            && Handled(l, Modified(p)) == if p.status == "Failed" || p.status == "Succeeded" then credited else l
  {
  }
}
