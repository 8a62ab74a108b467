/** What each mining step does to one provider, as functions on values. */
module Mining {
  import opened Wrappers
  import opened Capacity
  import Sums

  datatype MiningConfig = MiningConfig(gpuCount: int, cpuCores: int, memoryMB: int)

  /** Move count GPUs of one type from the available to the mining pool; reject when short. */
  function Reserve(n: Node, t: string, count: int): (Node, bool) {
    if n.cap.availableGPUs.Count(t) < count then (n, false)
    else (n.(cap := n.cap.(availableGPUs := n.cap.availableGPUs.Ensured().Add(t, -count),
                           miningGPUs := n.cap.miningGPUs.Ensured().Add(t, count))), true)
  }

  /** Move count GPUs of one type from the mining back to the available pool.
      The mining map is written without being made, so a nil map survives only a
      count that is not positive; the handler's minimum of one rules that out. */
  function Unreserve(n: Node, t: string, count: int): (Node, bool)
    requires 1 <= count
  {
    if n.cap.miningGPUs.Count(t) < count then (n, false)
    else (n.(cap := n.cap.(availableGPUs := n.cap.availableGPUs.Ensured().Add(t, count),
                           miningGPUs := n.cap.miningGPUs.Put(t, n.cap.miningGPUs.Count(t) - count))), true)
  }

  /** The GPU type a deployment uses when the loop over the totals stopped at key choice ("" for none). */
  function DeployType(spec: SystemSpec, choice: string): string {
    if choice == "" && spec.gpus != [] then spec.gpus[0] else choice
  }

  /** The keys the loop over the totals can stop at. */
  predicate MayChoose(c: ProviderCapacity, choice: string) {
    if c.totalGPUs.Made? && c.totalGPUs.counts != map[] then choice in c.totalGPUs.counts
    else choice == ""
  }

  /** The available pool before a deployment: made if nil, and an empty stock of type g
      refilled from the inventory. */
  function Restocked(n: Node, g: string): Pool {
    var made :=
      if n.cap.availableGPUs.Made? then n.cap.availableGPUs
      else if n.cap.totalGPUs.Made? then n.cap.totalGPUs
      else if g != "" then Made(map[g := n.spec.totalGPUs])
      else Made(map[]);
    if Offered(made, g) == 0 && n.spec.totalGPUs > 0 then made.Put(g, n.spec.totalGPUs) else made
  }

  /** What a deployment reads as available: nothing for the empty type. */
  function Offered(p: Pool, g: string): int {
    if g != "" then p.Count(g) else 0
  }

  datatype DeployVerdict = Deployed | Unknown | Insufficient | ApiFailed

  /** DeployMiningForProvider: restock, check, create the pod, then overwrite the mining
      entry of type g and debit the GPUs. CPU and memory are reserved without a debit. */
  function Deploy(n: Node, g: string, config: MiningConfig, pod: Option<string>): (Node, DeployVerdict) {
    var pool := Restocked(n, g);
    var stocked := n.(cap := n.cap.(availableGPUs := pool));
    var refilled := g == "" && n.spec.totalGPUs > 0;
    var available := if refilled then n.spec.totalGPUs else Offered(pool, g);
    if available < config.gpuCount then (stocked, Insufficient)
    else if pod.None? then (stocked, ApiFailed)
    else (n.(cap := n.cap.(
            availableGPUs := pool.Add(g, -config.gpuCount),
            miningGPUs := n.cap.miningGPUs.Ensured().Put(g, config.gpuCount),
            cpu := n.cap.cpu.(mining := config.cpuCores),
            memory := n.cap.memory.(mining := config.memoryMB),
            miningPodName := pod.value,
            miningStatus := "pending")), Deployed)
  }

  /** Every mining entry added to the available pool of its type. */
  function Merged(available: Pool, mining: Pool): Pool {
    if mining.NilMap? || mining.counts == map[] then available
    else
      var base := available.Ensured();
      Made(map t | t in base.counts.Keys + mining.counts.Keys :: base.Count(t) + mining.Count(t))
  }

  function WithoutMining(c: ProviderCapacity): ProviderCapacity {
    c.(availableGPUs := Merged(c.availableGPUs, c.miningGPUs),
       miningGPUs := NilMap,
       cpu := c.cpu.(mining := 0),
       memory := c.memory.(mining := 0))
  }

  /** StopMiningForProvider, once the mining pod has been deleted. */
  function Stopped(n: Node): Node {
    n.(cap := WithoutMining(n.cap).(miningPodName := "", miningStatus := "stopped"))
  }

  function Stop(n: Node, podDeleted: bool): Node {
    if podDeleted then Stopped(n) else n
  }

  /** One provider in a reconcile tick; None stands for a failed status query. */
  ghost function Reconciled(n: Node, status: Option<string>): Node {
    if n.cap.miningPodName == "" || status.None? then n
    else
      var noted := n.cap.(miningStatus := status.value);
      if (status.value == "failed" || status.value == "stopped") && n.cap.miningGPUs.Sum() > 0
      then n.(cap := WithoutMining(noted))
      else n.(cap := noted)
  }

  /** Boot: the pod name and status are restored, the mining counts are not. */
  function Rediscovered(n: Node, podExists: bool, podName: string, status: string): Node {
    if podExists then n.(cap := n.cap.(miningPodName := podName, miningStatus := status)) else n
  }

  // ---------------------------------------------------------------- meaning

  datatype Reconcile = Tick(status: Option<string>) | StopCall(podDeleted: bool)

  ghost function ReconcileStep(n: Node, s: Reconcile): Node {
    match s
    case Tick(status) => Reconciled(n, status)
    case StopCall(podDeleted) => Stop(n, podDeleted)
  }

  ghost function ReconcileRun(n: Node, run: seq<Reconcile>): Node
    decreases |run|
  {
    if run == [] then n else ReconcileRun(ReconcileStep(n, run[0]), run[1..])
  }

  /** No mining GPU has come back yet. */
  ghost predicate NothingBack(before: ProviderCapacity, after: ProviderCapacity) {
    && forall t :: after.availableGPUs.Count(t) == before.availableGPUs.Count(t)
                   && after.miningGPUs.Count(t) == before.miningGPUs.Count(t)
  }

  /** Every mining GPU of every type has come back, once. */
  ghost predicate AllBack(before: ProviderCapacity, after: ProviderCapacity) {
    && forall t :: after.availableGPUs.Count(t) == before.availableGPUs.Count(t) + before.miningGPUs.Count(t)
                   && after.miningGPUs.Count(t) == 0
  }

  lemma MergedCounts(available: Pool, mining: Pool)
    ensures forall t :: Merged(available, mining).Count(t) == available.Count(t) + mining.Count(t)
  {
  }

  lemma StepReturnsAllOrNothing(n: Node, s: Reconcile)
    ensures var after := ReconcileStep(n, s);
            NothingBack(n.cap, after.cap) || AllBack(n.cap, after.cap)
  {
  }

  /** Mining GPUs come back exactly once: over any sequence of reconcile ticks and stop calls, with any
      statuses and failures, either nothing has come back or every type got exactly its starting count. */
  lemma {:induction false} MiningReturnsOnce(n: Node, run: seq<Reconcile>)
    ensures var after := ReconcileRun(n, run);
            NothingBack(n.cap, after.cap) || AllBack(n.cap, after.cap)
    decreases |run|
  {
    if run != [] {
      StepReturnsAllOrNothing(n, run[0]);
      MiningReturnsOnce(ReconcileStep(n, run[0]), run[1..]);
    }
  }

  /** A tick that sees a dead pod, or a stop call that succeeds, leaves nothing in the mining pool. */
  lemma DeadPodReturnsAll(n: Node, s: Reconcile)
    requires forall t :: 0 <= n.cap.miningGPUs.Count(t)
    requires match s
             case Tick(status) => n.cap.miningPodName != "" && (status == Some("failed") || status == Some("stopped"))
             case StopCall(podDeleted) => podDeleted
    ensures AllBack(n.cap, ReconcileStep(n, s).cap)
  {
    MergedCounts(n.cap.availableGPUs, n.cap.miningGPUs);
    if s.Tick? && n.cap.miningGPUs.Made? && n.cap.miningGPUs.Sum() <= 0 {
      forall t ensures n.cap.miningGPUs.Count(t) == 0 {
        var counts := n.cap.miningGPUs.counts;
        if t in counts {
          forall k | k in counts ensures 0 <= counts[k] {
            assert 0 <= n.cap.miningGPUs.Count(k);
          }
          Sums.TotalRemove(counts, t);
          Sums.TotalMonotone(counts - {t}, counts);
        }
      }
    }
  }

  /** A reservation is granted exactly when the free GPUs of the type suffice; it moves that many to the mining pool and
      nothing else, and a refused one changes nothing. */
  lemma ReserveMoves(n: Node, t: string, count: int)
    ensures var (after, ok) := Reserve(n, t, count);
            && (ok <==> count <= n.cap.availableGPUs.Count(t))
            && (!ok ==> after == n)
            && (ok ==>
                  && (forall u :: after.cap.availableGPUs.Count(u) == n.cap.availableGPUs.Count(u) - if u == t then count else 0)
                  && (forall u :: after.cap.miningGPUs.Count(u) == n.cap.miningGPUs.Count(u) + if u == t then count else 0)
                  && after == n.(cap := n.cap.(availableGPUs := after.cap.availableGPUs, miningGPUs := after.cap.miningGPUs)))
  {
  }

  /** Giving mining GPUs back is granted exactly when that many are mining, and undoes a reservation of as many. */
  lemma UnreserveMoves(n: Node, t: string, count: int)
    requires 1 <= count
    ensures var (after, ok) := Unreserve(n, t, count);
            && (ok <==> count <= n.cap.miningGPUs.Count(t))
            && (!ok ==> after == n)
            && (ok ==>
                  && (forall u :: after.cap.availableGPUs.Count(u) == n.cap.availableGPUs.Count(u) + if u == t then count else 0)
                  && (forall u :: after.cap.miningGPUs.Count(u) == n.cap.miningGPUs.Count(u) - if u == t then count else 0)
                  && after == n.(cap := n.cap.(availableGPUs := after.cap.availableGPUs, miningGPUs := after.cap.miningGPUs)))
  {
  }

  lemma ReserveUndone(n: Node, t: string, count: int)
    requires 1 <= count <= n.cap.availableGPUs.Count(t) && 0 <= n.cap.miningGPUs.Count(t)
    ensures var (back, ok) := Unreserve(Reserve(n, t, count).0, t, count);
            ok && SamePool(back.cap.availableGPUs, n.cap.availableGPUs)
            && forall u :: back.cap.miningGPUs.Count(u) == n.cap.miningGPUs.Count(u)
  {
    ReserveMoves(n, t, count);
    UnreserveMoves(Reserve(n, t, count).0, t, count);
  }

  /** A deployment that goes through records its pod, its GPUs and its reservations of cores and memory; one that does
      not records none of them. Neither touches what is rented. */
  lemma DeployRecords(n: Node, g: string, config: MiningConfig, pod: Option<string>)
    ensures var (after, v) := Deploy(n, g, config, pod);
            && after.spec == n.spec && after.cap.inUseGPUs == n.cap.inUseGPUs
            && (v == Deployed ==>
                  && pod == Some(after.cap.miningPodName) && after.cap.miningStatus == "pending"
                  && (forall t :: after.cap.miningGPUs.Count(t) == if t == g then config.gpuCount else n.cap.miningGPUs.Count(t))
                  && after.cap.cpu == n.cap.cpu.(mining := config.cpuCores)
                  && after.cap.memory == n.cap.memory.(mining := config.memoryMB))
            && (v != Deployed ==> after == n.(cap := n.cap.(availableGPUs := after.cap.availableGPUs)))
            && v != Unknown && (v == ApiFailed ==> pod.None?)
  {
  }

  /** The type of a deployment: a key of the totals, or without totals the first GPU of the inventory, or none. */
  lemma DeploysFor(n: Node, choice: string)
    requires MayChoose(n.cap, choice)
    ensures var g := DeployType(n.spec, choice);
            && (n.cap.totalGPUs.Made? && n.cap.totalGPUs.counts != map[] ==>
                  choice in n.cap.totalGPUs.counts && (choice != "" ==> g == choice))
            && (n.cap.totalGPUs.NilMap? || n.cap.totalGPUs.counts == map[] || choice == "" ==>
                  g == if |n.spec.gpus| == 0 then "" else n.spec.gpus[0])
  {
  }

  /** What a tick or a stop call must see to return the mining GPUs: a recorded pod that has failed or stopped; a pod
      that has been deleted. */
  predicate Ends(n: Node, s: Reconcile) {
    match s
    case Tick(status) => n.cap.miningPodName != "" && (status == Some("failed") || status == Some("stopped"))
    case StopCall(podDeleted) => podDeleted
  }

  /** Anything else leaves pools, reservations and the recorded pod alone; a tick notes the status it sees. */
  lemma LiveMiningIsLeftAlone(n: Node, s: Reconcile)
    requires !Ends(n, s)
    ensures var after := ReconcileStep(n, s);
            && NothingBack(n.cap, after.cap) && after.cap.miningGPUs == n.cap.miningGPUs
            && after.cap.cpu == n.cap.cpu && after.cap.memory == n.cap.memory
            && after.cap.miningPodName == n.cap.miningPodName
            && after.cap.miningStatus == if s.Tick? && s.status.Some? && n.cap.miningPodName != "" then s.status.value
                                         else n.cap.miningStatus
  {
  }

  /** A tick that finds a dead pod but no mining GPUs notes the status and leaves everything else, the reservations of
      cores and memory included. */
  lemma NothingMinedNothingCleared(n: Node, status: string)
    requires n.cap.miningPodName != "" && (forall t :: n.cap.miningGPUs.Count(t) == 0)
    ensures Reconciled(n, Some(status)) == n.(cap := n.cap.(miningStatus := status))
  {
    if n.cap.miningGPUs.Made? {
      var counts := n.cap.miningGPUs.counts;
      forall t | t in counts ensures counts[t] == 0 {
        assert n.cap.miningGPUs.Count(t) == 0;
      }
      Sums.TotalZero(counts);
    }
  }

  /** A step of a run ends the mining. */
  ghost predicate EndsInRun(n: Node, run: seq<Reconcile>)
    decreases |run|
  {
    run != [] && (Ends(n, run[0]) || EndsInRun(ReconcileStep(n, run[0]), run[1..]))
  }

  /** Mining GPUs come back exactly when they must: over any run, from a provider that mines, nothing comes back as long
      as every tick reads another status and no stop succeeds; and everything does as soon as one does not. */
  lemma {:induction false} MiningReturnsWhenItEnds(n: Node, run: seq<Reconcile>)
    requires (forall t :: 0 <= n.cap.miningGPUs.Count(t)) && exists t :: 0 < n.cap.miningGPUs.Count(t)
    ensures var after := ReconcileRun(n, run);
            if EndsInRun(n, run) then AllBack(n.cap, after.cap) else NothingBack(n.cap, after.cap)
    decreases |run|
  {
    if run != [] {
      var m := ReconcileStep(n, run[0]);
      if Ends(n, run[0]) {
        DeadPodReturnsAll(n, run[0]);
        MiningReturnsOnce(m, run[1..]);
        hide ReconcileStep;
        forall t ensures ReconcileRun(m, run[1..]).cap.availableGPUs.Count(t) == m.cap.availableGPUs.Count(t)
                         && ReconcileRun(m, run[1..]).cap.miningGPUs.Count(t) == 0 {
          assert m.cap.miningGPUs.Count(t) == 0;
        }
      } else {
        LiveMiningIsLeftAlone(n, run[0]);
        hide ReconcileStep;
        MiningReturnsWhenItEnds(m, run[1..]);
      }
    }
  }

  lemma EndedClears(n: Node, status: string)
    requires n.cap.miningPodName != "" && status in {"failed", "stopped"}
    requires (forall t :: 0 <= n.cap.miningGPUs.Count(t)) && exists t :: 0 < n.cap.miningGPUs.Count(t)
    ensures var after := Reconciled(n, Some(status)).cap;
            && after == n.cap.(availableGPUs := after.availableGPUs, miningGPUs := NilMap, miningStatus := status,
                               cpu := n.cap.cpu.(mining := 0), memory := n.cap.memory.(mining := 0))
  {
    var t :| 0 < n.cap.miningGPUs.Count(t);
    var counts := n.cap.miningGPUs.counts;
    forall k | k in counts ensures 0 <= counts[k] {
      assert 0 <= n.cap.miningGPUs.Count(k);
    }
    Sums.TotalRemove(counts, t);
    Sums.TotalMonotone(counts - {t}, counts);
  }

  /** From deployment to return: the pod a deployment records is the one the tick watches, so that when it fails or
      stops all its GPUs come back, and its reservations with them. */
  lemma FailedMinerGivesBack(n: Node, g: string, config: MiningConfig, pod: string, status: string)
    requires pod != "" && status in {"failed", "stopped"}
    requires 0 <= config.gpuCount && forall t :: 0 <= n.cap.miningGPUs.Count(t)
    requires Deploy(n, g, config, Some(pod)).1 == Deployed
    ensures var after := Deploy(n, g, config, Some(pod)).0;
            && after.cap.miningPodName == pod
            && AllBack(after.cap, Reconciled(after, Some(status)).cap)
            && (1 <= config.gpuCount ==> Reconciled(after, Some(status)).cap.cpu.mining == 0
                                         && Reconciled(after, Some(status)).cap.memory.mining == 0)
  {
    DeployRecords(n, g, config, Some(pod));
    var after := Deploy(n, g, config, Some(pod)).0;
    hide Deploy;
    forall t ensures 0 <= after.cap.miningGPUs.Count(t) {
      assert 0 <= n.cap.miningGPUs.Count(t);
    }
    DeadPodReturnsAll(after, Tick(Some(status)));
    if 1 <= config.gpuCount {
      assert after.cap.miningGPUs.Count(g) == config.gpuCount;
      EndedClears(after, status);
    }
  }

  /** A stop that succeeds clears everything a deployment recorded; one that fails changes nothing. */
  lemma StopClears(n: Node, podDeleted: bool)
    ensures var after := Stop(n, podDeleted);
            if podDeleted
            then AllBack(n.cap, after.cap)
                 && after == n.(cap := n.cap.(availableGPUs := after.cap.availableGPUs, miningGPUs := NilMap,
                                              cpu := n.cap.cpu.(mining := 0), memory := n.cap.memory.(mining := 0),
                                              miningPodName := "", miningStatus := "stopped"))
            else after == n
  {
    MergedCounts(n.cap.availableGPUs, n.cap.miningGPUs);
  }

  /** Boot brings back the name and the status of a pod that exists, so that ticks watch it again, and nothing else. */
  lemma RediscoveredIsWatched(n: Node, podExists: bool, podName: string, status: string)
    ensures var after := Rediscovered(n, podExists, podName, status);
            && after == n.(cap := n.cap.(miningPodName := after.cap.miningPodName, miningStatus := after.cap.miningStatus))
            && (if podExists then after.cap.miningPodName == podName && after.cap.miningStatus == status else after == n)
  {
  }
}
