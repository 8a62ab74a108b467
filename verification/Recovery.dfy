/** Boot recovery: the ledger recomputed from the pods Kubernetes reports. */
module Recovery {
  import opened Capacity
  import opened Ledger
  import opened Pods

  /** What a group of pods holds altogether. */
  datatype Demand = Demand(gpu: int, cpu: int, memory: int)

  function Plus(d: Demand, p: PodInfo): Demand {
    Demand(d.gpu + p.gpuCount, d.cpu + p.cpuCores, d.memory + p.memoryMB)
  }

  /** What the listed pods of one provider hold. */
  function Demanded(pods: seq<PodInfo>, id: string): Demand {
    if pods == [] then Demand(0, 0, 0) else
      var front, last := Demanded(pods[..|pods| - 1], id), pods[|pods| - 1];
      if last.providerID == id then Plus(front, last) else front
  }

  function Tally(pods: seq<PodInfo>): Demand {
    if pods == [] then Demand(0, 0, 0) else Plus(Tally(pods[..|pods| - 1]), pods[|pods| - 1])
  }

  /** Pods without a provider label are skipped. */
  predicate HasPods(pods: seq<PodInfo>, id: string) {
    id != "" && exists k :: 0 <= k < |pods| && pods[k].providerID == id
  }

  /** Recovery accounts everything under the first GPU of the inventory, or "default". */
  function RecoveredType(spec: SystemSpec): string {
    ResolveType(spec, "")
  }

  function TotalForType(n: Node): int {
    var total := n.cap.totalGPUs.Count(RecoveredType(n.spec));
    if total == 0 then n.spec.totalGPUs else total
  }

  function RecoverMeter(m: Meter, inUse: int): Meter {
    m.(inUse := inUse, available := if m.total > 0 then m.total - inUse - m.mining else m.available)
  }

  function RecoverNode(n: Node, d: Demand): Node {
    var g := RecoveredType(n.spec);
    var free := TotalForType(n) - d.gpu - n.cap.miningGPUs.Count(g);
    n.(cap := n.cap.(
         inUseGPUs := n.cap.inUseGPUs.Ensured().Put(g, d.gpu),
         availableGPUs := n.cap.availableGPUs.Ensured().Put(g, if free < 0 then 0 else free),
         cpu := RecoverMeter(n.cap.cpu, d.cpu),
         memory := RecoverMeter(n.cap.memory, d.memory)))
  }

  /** RecoverJobAllocations: every provider that has pods is recomputed, the others are left alone. */
  function Recovered(l: Providers, pods: seq<PodInfo>): Providers {
    map id | id in l :: if HasPods(pods, id) then RecoverNode(l[id], Demanded(pods, id)) else l[id]
  }

  // ---------------------------------------------------------------- meaning

  lemma {:induction false} DemandedRemove(pods: seq<PodInfo>, i: nat, id: string)
    requires i < |pods|
    ensures var rest := Demanded(pods[..i] + pods[i + 1..], id);
            Demanded(pods, id) == if pods[i].providerID == id then Plus(rest, pods[i]) else rest
  {
    var n := |pods| - 1;
    if i == n {
      assert pods[..i] + pods[i + 1..] == pods[..n];
    } else {
      DemandedRemove(pods[..n], i, id);
      assert pods[..n][..i] + pods[..n][i + 1..] == (pods[..i] + pods[i + 1..])[..n - 1];
    }
  }

  lemma WithoutOne(pods: seq<PodInfo>, i: nat)
    requires i < |pods|
    ensures multiset(pods[..i] + pods[i + 1..]) == multiset(pods) - multiset{pods[i]}
  {
    assert pods == pods[..i] + [pods[i]] + pods[i + 1..];
  }

  /** What a provider's pods hold depends on the multiset of listed pods, not on the list order. */
  lemma {:induction false} DemandedPermutes(p: seq<PodInfo>, q: seq<PodInfo>, id: string)
    requires multiset(p) == multiset(q)
    ensures Demanded(p, id) == Demanded(q, id)
    decreases |p|
  {
    if p == [] {
      assert |multiset(q)| == 0;
    } else {
      var n := |p| - 1;
      assert p[n] in multiset(q);
      var i :| 0 <= i < |q| && q[i] == p[n];
      WithoutOne(q, i);
      WithoutOne(p, n);
      assert p[..n] + p[n + 1..] == p[..n];
      DemandedPermutes(p[..n], q[..i] + q[i + 1..], id);
      DemandedRemove(q, i, id);
    }
  }

  lemma HasPodsPermutes(p: seq<PodInfo>, q: seq<PodInfo>, id: string)
    requires multiset(p) == multiset(q)
    ensures HasPods(p, id) ==> HasPods(q, id)
  {
    if HasPods(p, id) {
      var k :| 0 <= k < |p| && p[k].providerID == id;
      assert p[k] in multiset(q);
      var i :| 0 <= i < |q| && q[i] == p[k];
    }
  }

  /** Two ledgers that differ only in the recovered counters of each provider: same inventory, totals and
      mining, and the same untouched pool entries. */
  predicate SameButCounters(n: Node, m: Node) {
    var g := RecoveredType(n.spec);
    && n.spec == m.spec
    && n.cap.(inUseGPUs := m.cap.inUseGPUs, availableGPUs := m.cap.availableGPUs, cpu := m.cap.cpu, memory := m.cap.memory) == m.cap
    && n.cap.inUseGPUs.Ensured().Put(g, 0) == m.cap.inUseGPUs.Ensured().Put(g, 0)
    && n.cap.availableGPUs.Ensured().Put(g, 0) == m.cap.availableGPUs.Ensured().Put(g, 0)
    && SameMeterButCounters(n.cap.cpu, m.cap.cpu)
    && SameMeterButCounters(n.cap.memory, m.cap.memory)
  }

  predicate SameMeterButCounters(a: Meter, b: Meter) {
    a.(inUse := b.inUse, available := b.available) == b && (a.total <= 0 ==> a.available == b.available)
  }

  lemma PutTwice(p: Pool, q: Pool, g: string, v: int)
    requires p.Ensured().Put(g, 0) == q.Ensured().Put(g, 0)
    ensures p.Ensured().Put(g, v) == q.Ensured().Put(g, v)
  {
    var a, b := p.Ensured().counts, q.Ensured().counts;
    assert a[g := v] == a[g := 0][g := v];
    assert b[g := v] == b[g := 0][g := v];
  }

  lemma RecoverNodeForgets(n: Node, m: Node, d: Demand)
    requires SameButCounters(n, m)
    ensures RecoverNode(n, d) == RecoverNode(m, d)
  {
    var g := RecoveredType(n.spec);
    assert TotalForType(n) == TotalForType(m);
    var free := TotalForType(n) - d.gpu - n.cap.miningGPUs.Count(g);
    PutTwice(n.cap.inUseGPUs, m.cap.inUseGPUs, g, d.gpu);
    PutTwice(n.cap.availableGPUs, m.cap.availableGPUs, g, if free < 0 then 0 else free);
  }

  /** Recovery is a function of the multiset of live pods: neither the order of the listing nor the
      previous in-use and available counters matter. */
  lemma RecoveryForgets(l: Providers, k: Providers, p: seq<PodInfo>, q: seq<PodInfo>)
    requires multiset(p) == multiset(q)
    requires l.Keys == k.Keys
    requires forall id :: id in l ==> if HasPods(p, id) then SameButCounters(l[id], k[id]) else l[id] == k[id]
    ensures Recovered(l, p) == Recovered(k, q)
  {
    forall id | id in l ensures Recovered(l, p)[id] == Recovered(k, q)[id] {
      DemandedPermutes(p, q, id);
      HasPodsPermutes(p, q, id);
      HasPodsPermutes(q, p, id);
      if HasPods(p, id) {
        RecoverNodeForgets(l[id], k[id], Demanded(p, id));
      }
    }
  }

  /** Recovering twice is recovering once. */
  lemma RecoveryIdempotent(l: Providers, pods: seq<PodInfo>)
    ensures Recovered(Recovered(l, pods), pods) == Recovered(l, pods)
  {
    forall id | id in l ensures Recovered(Recovered(l, pods), pods)[id] == Recovered(l, pods)[id] {
      var n, d := l[id], Demanded(pods, id);
      if HasPods(pods, id) {
        var r := RecoverNode(n, d);
        assert RecoverNode(r, d).cap.inUseGPUs == r.cap.inUseGPUs;
        assert RecoverNode(r, d).cap.availableGPUs == r.cap.availableGPUs;
      }
    }
  }

  /** After recovery the three pools of the recovered type add up to its total, exactly when the pods
      and the mining reservation fit; otherwise they add up to what is really running. */
  lemma RecoveryConserves(l: Providers, pods: seq<PodInfo>, id: string)
    requires id in l && HasPods(pods, id)
    ensures var g, d := RecoveredType(l[id].spec), Demanded(pods, id);
            var c := Recovered(l, pods)[id].cap;
            var sum := c.availableGPUs.Count(g) + c.inUseGPUs.Count(g) + c.miningGPUs.Count(g);
            var mining := l[id].cap.miningGPUs.Count(g);
            && 0 <= c.availableGPUs.Count(g)
            && c.inUseGPUs.Count(g) == d.gpu
            && (sum == TotalForType(l[id]) <==> d.gpu + mining <= TotalForType(l[id]))
            && (d.gpu + mining > TotalForType(l[id]) ==> sum == d.gpu + mining)
  {
  }

  /** Recovery, counter by counter: a provider with pods has in use what they hold, available is derived from it where
      there is a total, and the other GPU types, the totals and the mining reservations stay; a provider without
      pods, or one no pod names, keeps its entry. */
  lemma RecoveryRecomputes(l: Providers, pods: seq<PodInfo>, id: string)
    requires id in l
    ensures id in Recovered(l, pods) && Recovered(l, pods).Keys == l.Keys
    ensures var n, m, d := l[id], Recovered(l, pods)[id], Demanded(pods, id);
            var g := if n.spec.gpus == [] then "default" else n.spec.gpus[0];
            if id == "" || forall p :: p in pods ==> p.providerID != id then m == n
            else
              && m.spec == n.spec && m.cap.inUseGPUs.Count(g) == d.gpu
              && (forall t :: t != g ==> m.cap.inUseGPUs.Count(t) == n.cap.inUseGPUs.Count(t)
                                         && m.cap.availableGPUs.Count(t) == n.cap.availableGPUs.Count(t))
              && m.cap.cpu == n.cap.cpu.(inUse := d.cpu,
                                         available := if 0 < n.cap.cpu.total then n.cap.cpu.total - d.cpu - n.cap.cpu.mining else n.cap.cpu.available)
              && m.cap.memory == n.cap.memory.(inUse := d.memory,
                                               available := if 0 < n.cap.memory.total then n.cap.memory.total - d.memory - n.cap.memory.mining
                                                            else n.cap.memory.available)
              && m.cap.miningGPUs == n.cap.miningGPUs && m.cap.totalGPUs == n.cap.totalGPUs && m.cap.gpuCount == n.cap.gpuCount
              && m.cap.miningPodName == n.cap.miningPodName && m.cap.miningStatus == n.cap.miningStatus
  {
    assert HasPods(pods, id) <==> id != "" && exists p :: p in pods && p.providerID == id;
    var g := if l[id].spec.gpus == [] then "default" else l[id].spec.gpus[0];
    assert RecoveredType(l[id].spec) == g;
  }
}
