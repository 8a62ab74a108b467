/** The release protocol against the capacity of the providers, one resource at a time: a pool of GPUs, the cores,
    or the memory. A run may do anything at all with the other resources. */
module RunningPods {
  import opened Wrappers
  import opened Sums
  import opened Capacity
  import opened Ledger
  import opened Mining
  import opened Pods
  import opened Recovery
  import opened Accounting
  import opened CleanRuns
  import opened Restart
  import opened ReleaseProtocol

  datatype Resource = GPUs(gpuType: string) | Cores | Memory

  /** What one job was debited of the resource, and has not yet been credited. */
  datatype Share = Share(provider: string, amount: int)

  type Shares = map<string, Share>

  function AmountOf(spec: SystemSpec, r: Resource, gpuType: string, gpu: int, cpu: int, memory: int): int {
    match r
    case GPUs(t) => if ResolveType(spec, gpuType) == t then gpu else 0
    case Cores => cpu
    case Memory => memory
  }

  function PodAmount(spec: SystemSpec, r: Resource, p: PodInfo): int {
    AmountOf(spec, r, p.gpuModel, p.gpuCount, p.cpuCores, p.memoryMB)
  }

  function RequestAmount(spec: SystemSpec, r: Resource, a: ResourceAllocation): int {
    AmountOf(spec, r, a.gpuType, a.gpuCount, a.cpuCores, a.memoryMB)
  }

  function ReceiptAmount(spec: SystemSpec, r: Resource, c: Receipt): int {
    AmountOf(spec, r, c.gpuType, c.gpu, c.cpu, c.memory)
  }

  /** A credit reaches a pool of GPUs when its type resolves to it, cores and memory always. */
  predicate Reaches(l: Providers, r: Resource, c: Receipt) {
    c.id in l && (r.GPUs? ==> ResolveType(l[c.id].spec, c.gpuType) == r.gpuType)
  }

  ghost function Of(owed: Shares, id: string): map<string, int> {
    map j | j in owed && owed[j].provider == id :: owed[j].amount
  }

  ghost function Sum(owed: Shares, id: string): int {
    Total(Of(owed, id))
  }

  /** One provider's counters of the resource agree with what its jobs hold of it. */
  predicate NodeInStep(n: Node, r: Resource, held: int) {
    match r
    case GPUs(t) => PoolSound(n.cap, t, held)
    case Cores => MeterSound(n.cap.cpu, n.spec.cpuCores, held)
    case Memory => MeterSound(n.cap.memory, n.spec.totalMemoryMB, held)
  }

  ghost predicate InStep(l: Providers, owed: Shares, r: Resource) {
    forall id :: id in l ==> NodeInStep(l[id], r, Sum(owed, id))
  }

  /** What the provider has of the resource; of a pool that has not been made, what it may be made with. */
  function CapacityOf(n: Node, r: Resource): int {
    match r
    case GPUs(t) => Pooled(n.cap, t) + Stock(n, t)
    case Cores => EffectiveTotal(n.cap.cpu, n.spec.cpuCores)
    case Memory => EffectiveTotal(n.cap.memory, n.spec.totalMemoryMB)
  }

  function Mined(n: Node, r: Resource): int {
    if r.GPUs? then n.cap.miningGPUs.Count(r.gpuType) else 0
  }

  lemma InStepWithinCapacity(n: Node, r: Resource, held: int)
    requires NodeInStep(n, r, held)
    ensures held + Mined(n, r) <= CapacityOf(n, r)
  {
  }

  // ---------------------------------------------------------------- one provider, one step

  predicate AsksNothingNegative(r: Resource, a: ResourceAllocation) {
    match r
    case GPUs(_) => 0 <= a.gpuCount
    case Cores => 0 <= a.cpuCores
    case Memory => 0 <= a.memoryMB
  }

  lemma AdmitInStep(n: Node, r: Resource, a: ResourceAllocation, held: int)
    requires NodeInStep(n, r, held) && AsksNothingNegative(r, a)
    ensures var (after, v) := Allocate(n, a);
            && NodeInStep(after, r, held + if v == Granted then RequestAmount(n.spec, r, a) else 0)
            && CapacityOf(after, r) <= CapacityOf(n, r)
  {
    AllocateKeepsSpec(n, a);
    match r {
      case GPUs(t) =>
        AdmitPool(n, a, t, held);
        RentAccounting(n, a, t);
        StockKept(n, "", Rent("", a));
        hide Allocate, Pooled, FirstStock;
      case _ =>
    }
  }

  lemma CreditInStep(n: Node, r: Resource, c: Receipt, held: int)
    requires NodeInStep(n, r, held)
    requires 0 <= ReceiptAmount(n.spec, r, c) <= held
    ensures var after := Release(n, c.gpuType, c.gpu, c.cpu, c.memory);
            && NodeInStep(after, r, held - ReceiptAmount(n.spec, r, c))
            && CapacityOf(after, r) <= CapacityOf(n, r)
  {
  }

  /** What a mining step may do to the resource: a deployment takes no negative amount, and changes the size of the
      pool only when it makes it. */
  ghost predicate MinesFairly(n: Node, r: Resource, id: string, s: Step) {
    match s
    case MineMore(i, _, count) => i == id && r.GPUs? ==> 1 <= count
    case MineDeploy(i, g, config, pod) =>
      i == id ==>
        (match r
         case GPUs(t) =>
           && 0 <= config.gpuCount
           && if n.cap.availableGPUs.Made? then Gained(n, g, t) == Forgotten(n, g, config, pod, t)
              else Forgotten(n, g, config, pod, t) <= Gained(n, g, t) && 0 <= OnOffer(n, g, t)
         case Cores => 0 <= config.cpuCores
         case Memory => 0 <= config.memoryMB)
    case _ => true
  }

  lemma MineKeepsPoolSound(n: Node, t: string, id: string, s: Step, held: int)
    requires !s.Rent? && !s.Return? && PoolSound(n.cap, t, held) && MinesFairly(n, GPUs(t), id, s)
    ensures PoolSound(ApplyOne(n, id, s).cap, t, held)
  {
  }

  lemma MinePoolInStep(n: Node, t: string, id: string, s: Step, held: int)
    requires !s.Rent? && !s.Return? && PoolSound(n.cap, t, held) && MinesFairly(n, GPUs(t), id, s)
    ensures PoolSound(ApplyOne(n, id, s).cap, t, held)
    ensures Pooled(ApplyOne(n, id, s).cap, t) + Stock(ApplyOne(n, id, s), t) <= Pooled(n.cap, t) + Stock(n, t)
  {
    StepAccounting(n, id, s, t);
    StockKept(n, id, s);
    SpecKept(n, id, s);
    MineKeepsPoolSound(n, t, id, s, held);
    hide ApplyOne, Pooled, PoolSound;
  }

  lemma MineInStep(n: Node, r: Resource, id: string, s: Step, held: int)
    requires !s.Rent? && !s.Return? && NodeInStep(n, r, held) && MinesFairly(n, r, id, s)
    ensures NodeInStep(ApplyOne(n, id, s), r, held)
    ensures CapacityOf(ApplyOne(n, id, s), r) <= CapacityOf(n, r)
  {
    SpecKept(n, id, s);
    match r {
      case GPUs(t) => MinePoolInStep(n, t, id, s, held);
      case _ => MeterTotalsKept(n, id, s);
    }
  }

  // ---------------------------------------------------------------- orderly runs

  /** What an action must respect of the resource. Requests ask for nothing negative; pods hold what was debited;
      a credit that reaches the resource gives back exactly what its job still holds of it, and when a handler makes
      it, the job's pod is dead; mining is fair. Everything else, in particular a credit to another pool, is free. */
  ghost predicate Orderly(s: System, owed: Shares, r: Resource, a: Action) {
    && Enabled(s, a)
    && (CreditOf(s, a).Some? && Reaches(s.ledger, r, CreditOf(s, a).value) ==>
          && Exact(s.ledger, owed, r, CreditOf(s, a).value)
          && (a.Abort? || a.DeleteCredit? ==> Dead(Rest(s, a), CreditOf(s, a).value.job)))
    && match a
       case Reserve(_, _, b) => AsksNothingNegative(r, b)
       case Place(pod) =>
         var b := s.reserved[pod.jobID];
         b.id in s.ledger ==> PodAmount(s.ledger[b.id].spec, r, pod) == RequestAmount(s.ledger[b.id].spec, r, b.allocation)
       case Mining(step) => forall id :: id in s.ledger ==> MinesFairly(s.ledger[id], r, id, step)
       case _ => true
  }

  predicate Exact(l: Providers, owed: Shares, r: Resource, c: Receipt)
    requires c.id in l
  {
    c.job in owed && owed[c.job] == Share(c.id, ReceiptAmount(l[c.id].spec, r, c))
  }

  /** A granted reservation enters what is owed; a job leaves on a credit that reaches the resource. */
  function OwedAfter(s: System, owed: Shares, r: Resource, a: Action): Shares
    requires Enabled(s, a)
  {
    match CreditOf(s, a)
    case Some(c) => if Reaches(s.ledger, r, c) then owed - {c.job} else owed
    case None =>
      if a.Reserve? && AllocateAt(s.ledger, a.id, a.allocation).1 == Granted
      then owed[a.job := Share(a.id, RequestAmount(s.ledger[a.id].spec, r, a.allocation))]
      else owed
  }

  ghost predicate OrderlyRun(s: System, owed: Shares, r: Resource, run: seq<Action>)
    decreases |run|
  {
    run == [] || (Orderly(s, owed, r, run[0]) && OrderlyRun(Next(s, run[0]), OwedAfter(s, owed, r, run[0]), r, run[1..]))
  }

  predicate OwedSound(s: System, owed: Shares) {
    forall j :: j in owed ==> j in s.used && owed[j].provider in s.ledger && 0 <= owed[j].amount
  }

  /** Every booking, and every pod of a provider that still runs, is owed what it holds of the resource. */
  ghost predicate Booked(s: System, owed: Shares, r: Resource) {
    && OwedSound(s, owed)
    && (forall j :: j in s.reserved ==> ReservedBooked(s, owed, r, j))
    && (forall j :: j in s.pods && s.pods[j].providerID != "" && !Dead(s, j) ==> PodBooked(s, owed, r, j))
  }

  predicate ReservedBooked(s: System, owed: Shares, r: Resource, j: string)
    requires j in s.reserved
  {
    var b := s.reserved[j];
    b.id in s.ledger && j in owed && owed[j] == Share(b.id, RequestAmount(s.ledger[b.id].spec, r, b.allocation))
  }

  predicate PodBooked(s: System, owed: Shares, r: Resource, j: string)
    requires j in s.pods
  {
    var p := s.pods[j];
    p.providerID in s.ledger && j in owed && owed[j] == Share(p.providerID, PodAmount(s.ledger[p.providerID].spec, r, p))
  }

  // ---------------------------------------------------------------- what each action keeps

  lemma SumAdd(owed: Shares, job: string, share: Share)
    requires job !in owed
    ensures forall id :: Sum(owed[job := share], id) == Sum(owed, id) + if share.provider == id then share.amount else 0
  {
    forall id ensures Sum(owed[job := share], id) == Sum(owed, id) + if share.provider == id then share.amount else 0 {
      if share.provider == id {
        assert Of(owed[job := share], id) == Of(owed, id)[job := share.amount];
        TotalPut(Of(owed, id), job, share.amount);
      } else {
        assert Of(owed[job := share], id) == Of(owed, id);
      }
    }
  }

  lemma SumRemove(owed: Shares, job: string)
    requires job in owed
    ensures forall id :: Sum(owed - {job}, id) == Sum(owed, id) - if owed[job].provider == id then owed[job].amount else 0
  {
    assert owed == (owed - {job})[job := owed[job]];
    SumAdd(owed - {job}, job, owed[job]);
  }

  lemma SumNonNegative(s: System, owed: Shares, id: string)
    requires OwedSound(s, owed)
    ensures 0 <= Sum(owed, id)
  {
    TotalMonotone(Of(owed, id), Of(owed, id));
  }

  /** The inventory of a provider never changes, and no provider comes or goes. */
  lemma SpecsKept(s: System, a: Action)
    requires Enabled(s, a)
    ensures LedgerAfter(s, a).Keys == s.ledger.Keys
    ensures forall id :: id in s.ledger ==> LedgerAfter(s, a)[id].spec == s.ledger[id].spec
  {
    forall id | id in s.ledger ensures LedgerAfter(s, a)[id].spec == s.ledger[id].spec {
      if a.Mining? {
        SpecKept(s.ledger[id], id, a.step);
      }
    }
  }

  lemma CreditStep(s: System, owed: Shares, r: Resource, a: Action, c: Receipt)
    requires Booked(s, owed, r) && InStep(s.ledger, owed, r) && Orderly(s, owed, r, a) && CreditOf(s, a) == Some(c)
    ensures var l := LedgerAfter(s, a);
            && InStep(l, OwedAfter(s, owed, r, a), r) && l.Keys == s.ledger.Keys
            && forall id :: id in s.ledger ==> CapacityOf(l[id], r) <= CapacityOf(s.ledger[id], r)
  {
    hide NodeInStep, CapacityOf, Release, Sum;
    var l, after := LedgerAfter(s, a), OwedAfter(s, owed, r, a);
    if c.id in s.ledger {
      var n := s.ledger[c.id];
      assert NodeInStep(n, r, Sum(owed, c.id));
      SumNonNegative(s, owed, c.id);
      if Reaches(s.ledger, r, c) {
        SumRemove(owed, c.job);
        assert OwedSound(s, owed - {c.job});
        SumNonNegative(s, owed - {c.job}, c.id);
        assert owed[c.job].amount == ReceiptAmount(n.spec, r, c);
      } else {
        assert ReceiptAmount(n.spec, r, c) == 0;
      }
      CreditInStep(n, r, c, Sum(owed, c.id));
    }
    forall id | id in l ensures NodeInStep(l[id], r, Sum(after, id)) && CapacityOf(l[id], r) <= CapacityOf(s.ledger[id], r) {
      assert NodeInStep(s.ledger[id], r, Sum(owed, id));
    }
  }

  lemma ReserveStep(s: System, owed: Shares, r: Resource, a: Action)
    requires Booked(s, owed, r) && InStep(s.ledger, owed, r) && Orderly(s, owed, r, a) && a.Reserve?
    ensures var l := LedgerAfter(s, a);
            && InStep(l, OwedAfter(s, owed, r, a), r) && l.Keys == s.ledger.Keys
            && forall id :: id in s.ledger ==> CapacityOf(l[id], r) <= CapacityOf(s.ledger[id], r)
  {
    hide NodeInStep, CapacityOf, Allocate, Sum;
    var l, after := LedgerAfter(s, a), OwedAfter(s, owed, r, a);
    if a.id in s.ledger {
      var n := s.ledger[a.id];
      assert NodeInStep(n, r, Sum(owed, a.id));
      AdmitInStep(n, r, a.allocation, Sum(owed, a.id));
      assert a.job !in owed;
      SumAdd(owed, a.job, Share(a.id, RequestAmount(n.spec, r, a.allocation)));
    }
    forall id | id in l ensures NodeInStep(l[id], r, Sum(after, id)) && CapacityOf(l[id], r) <= CapacityOf(s.ledger[id], r) {
      assert NodeInStep(s.ledger[id], r, Sum(owed, id));
    }
  }

  lemma MiningStep(s: System, owed: Shares, r: Resource, a: Action)
    requires InStep(s.ledger, owed, r) && Orderly(s, owed, r, a) && a.Mining?
    ensures var l := LedgerAfter(s, a);
            && InStep(l, OwedAfter(s, owed, r, a), r) && l.Keys == s.ledger.Keys
            && forall id :: id in s.ledger ==> CapacityOf(l[id], r) <= CapacityOf(s.ledger[id], r)
  {
    hide NodeInStep, CapacityOf, ApplyOne, Sum, MinesFairly;
    var l := LedgerAfter(s, a);
    forall id | id in l ensures NodeInStep(l[id], r, Sum(owed, id)) && CapacityOf(l[id], r) <= CapacityOf(s.ledger[id], r) {
      assert NodeInStep(s.ledger[id], r, Sum(owed, id));
      MineInStep(s.ledger[id], r, id, a.step, Sum(owed, id));
    }
  }

  /** The ledger after an action agrees with what is owed after it, and no capacity has grown. */
  lemma StepInStep(s: System, owed: Shares, r: Resource, a: Action)
    requires Booked(s, owed, r) && InStep(s.ledger, owed, r) && Orderly(s, owed, r, a)
    ensures InStep(LedgerAfter(s, a), OwedAfter(s, owed, r, a), r)
    ensures forall id :: id in s.ledger ==> id in LedgerAfter(s, a) && CapacityOf(LedgerAfter(s, a)[id], r) <= CapacityOf(s.ledger[id], r)
  {
    SpecsKept(s, a);
    match CreditOf(s, a) {
      case Some(c) => CreditStep(s, owed, r, a, c);
      case None =>
        match a {
          case Reserve(_, _, _) => ReserveStep(s, owed, r, a);
          case Mining(_) => MiningStep(s, owed, r, a);
          case _ =>
        }
    }
  }

  /** A credited job neither is reserved nor runs afterwards, if the credit reaches the resource. */
  lemma CreditedIsGone(s: System, owed: Shares, r: Resource, a: Action)
    requires Consistent(s) && Orderly(s, owed, r, a)
    requires CreditOf(s, a).Some? && Reaches(s.ledger, r, CreditOf(s, a).value)
    ensures var j := CreditOf(s, a).value.job; j !in Rest(s, a).reserved && Dead(Rest(s, a), j)
  {
    CreditsOnlyTheStopping(s, a);
    if a.Deliver? {
      assert EventSound(s, a.event);
    }
    if a.SweepNext? {
      assert ListedSound(s, s.sweeper.rest[0]);
    }
  }

  /** A pod that runs after an action was running before it with the same holdings, or has just been placed. */
  lemma RunningBefore(s: System, a: Action, j: string)
    requires Consistent(s) && Enabled(s, a)
    requires j in Rest(s, a).pods && Rest(s, a).pods[j].providerID != "" && !Dead(Rest(s, a), j)
    ensures if a.Place? && j == a.pod.jobID then Rest(s, a).pods[j] == a.pod
            else j in s.pods && !Dead(s, j) && s.pods[j] == Rest(s, a).pods[j].(status := s.pods[j].status)
  {
    hide EventSound, ListedSound;
  }

  lemma ReservedBefore(s: System, a: Action, j: string)
    requires Consistent(s) && Enabled(s, a) && j in Rest(s, a).reserved
    ensures if a.Reserve? && j == a.job then Rest(s, a).reserved[j] == Booking(a.id, a.allocation)
            else j in s.reserved && Rest(s, a).reserved[j] == s.reserved[j]
    ensures a.Reserve? && j == a.job && j !in s.reserved ==> AllocateAt(s.ledger, a.id, a.allocation).1 == Granted
  {
    hide EventSound, ListedSound;
  }

  lemma UsedGrows(s: System, a: Action)
    requires Enabled(s, a)
    ensures s.used <= Rest(s, a).used && (a.Reserve? ==> a.job in Rest(s, a).used && a.job !in s.used)
  {
  }

  /** What is owed after an action: nothing but the credited job leaves, nothing but a granted reservation enters. */
  lemma OwedStays(s: System, owed: Shares, r: Resource, a: Action, j: string)
    requires Consistent(s) && OwedSound(s, owed) && Orderly(s, owed, r, a)
    requires j in owed && (j in Rest(s, a).reserved || !Dead(Rest(s, a), j))
    ensures var after := OwedAfter(s, owed, r, a); j in after && after[j] == owed[j]
  {
    if CreditOf(s, a).Some? && Reaches(s.ledger, r, CreditOf(s, a).value) {
      CreditedIsGone(s, owed, r, a);
    }
    UsedGrows(s, a);
    hide CreditOf, Reaches, Rest, Dead, Orderly;
  }

  lemma OwedSoundKept(s: System, owed: Shares, r: Resource, a: Action)
    requires OwedSound(s, owed) && Orderly(s, owed, r, a)
    ensures OwedSound(Next(s, a), OwedAfter(s, owed, r, a))
  {
    SpecsKept(s, a);
    UsedGrows(s, a);
    hide LedgerAfter, Rest, Allocate;
  }

  lemma ReservedBookedKept(s: System, owed: Shares, r: Resource, a: Action, j: string)
    requires Consistent(s) && Booked(s, owed, r) && Orderly(s, owed, r, a)
    requires j in Rest(s, a).reserved
    ensures ReservedBooked(Next(s, a), OwedAfter(s, owed, r, a), r, j)
  {
    SpecsKept(s, a);
    ReservedBefore(s, a, j);
    if j in s.reserved && !(a.Reserve? && j == a.job) {
      assert ReservedBooked(s, owed, r, j);
      OwedStays(s, owed, r, a, j);
      hide Consistent, LedgerAfter, Rest, OwedSound, OwedAfter, RequestAmount;
    }
  }

  lemma PodBookedKept(s: System, owed: Shares, r: Resource, a: Action, j: string)
    requires Consistent(s) && Booked(s, owed, r) && Orderly(s, owed, r, a)
    requires var t := Rest(s, a); j in t.pods && t.pods[j].providerID != "" && !Dead(t, j)
    ensures PodBooked(Next(s, a), OwedAfter(s, owed, r, a), r, j)
  {
    SpecsKept(s, a);
    RunningBefore(s, a, j);
    if a.Place? && j == a.pod.jobID {
      assert ReservedBooked(s, owed, r, j);
    } else {
      assert PodBooked(s, owed, r, j);
      OwedStays(s, owed, r, a, j);
      hide Consistent, LedgerAfter, Rest, OwedSound, OwedAfter;
    }
  }

  lemma BookedKept(s: System, owed: Shares, r: Resource, a: Action)
    requires Consistent(s) && Booked(s, owed, r) && Orderly(s, owed, r, a)
    ensures Booked(Next(s, a), OwedAfter(s, owed, r, a), r)
  {
    OwedSoundKept(s, owed, r, a);
    hide Consistent, LedgerAfter, OwedSound, OwedAfter, ReservedBooked, PodBooked, Rest, Orderly;
    var t, after := Next(s, a), OwedAfter(s, owed, r, a);
    forall j | j in t.reserved ensures ReservedBooked(t, after, r, j) {
      ReservedBookedKept(s, owed, r, a, j);
    }
    forall j | j in t.pods && t.pods[j].providerID != "" && !Dead(t, j) ensures PodBooked(t, after, r, j) {
      PodBookedKept(s, owed, r, a, j);
    }
  }

  // ---------------------------------------------------------------- running pods

  /** What the running pods of a provider hold of the resource. */
  ghost function Running(s: System, id: string, r: Resource): map<string, int> {
    map j | j in s.pods && s.pods[j].providerID == id && id in s.ledger && !Dead(s, j) :: PodAmount(s.ledger[id].spec, r, s.pods[j])
  }

  lemma RunningWithinOwed(s: System, owed: Shares, id: string, r: Resource)
    requires Booked(s, owed, r) && id != ""
    ensures Total(Running(s, id, r)) <= Sum(owed, id)
  {
    var running, shares := Running(s, id, r), Of(owed, id);
    forall j | j in running ensures j in shares && running[j] == shares[j] {
      assert PodBooked(s, owed, r, j);
    }
    assert forall j :: j in shares ==> 0 <= shares[j];
    hide Running, Of, Booked;
    TotalMonotone(running, shares);
    assert Sum(owed, id) == Total(shares);
  }

  lemma OrderlyStep(s: System, owed: Shares, r: Resource, a: Action)
    requires Consistent(s) && Booked(s, owed, r) && InStep(s.ledger, owed, r) && Orderly(s, owed, r, a)
    ensures var t, after := Next(s, a), OwedAfter(s, owed, r, a);
            && Enabled(s, a) && Consistent(t) && Booked(t, after, r) && InStep(t.ledger, after, r)
            && forall id :: id in s.ledger ==> id in t.ledger && CapacityOf(t.ledger[id], r) <= CapacityOf(s.ledger[id], r)
  {
    ConsistentKept(s, a);
    BookedKept(s, owed, r, a);
    StepInStep(s, owed, r, a);
    hide Consistent, Booked, InStep, CapacityOf, LedgerAfter, Rest, OwedAfter;
  }

  lemma StartInStep(l: Providers, owed: Shares, r: Resource, id: string)
    requires InStep(l, owed, r) && id in l
    ensures Sum(owed, id) + Mined(l[id], r) <= CapacityOf(l[id], r)
  {
    assert NodeInStep(l[id], r, Sum(owed, id));
    InStepWithinCapacity(l[id], r, Sum(owed, id));
  }

  /** No overbooking, end to end, for each resource on its own: in every run in which the credits that reach it give
      back each job's share at most once, exactly, and not while the job's pod runs, what the running pods hold and
      what is mined with stays within what the provider had at the start, or could make its pool with. */
  lemma {:induction false} RunningWithinCapacity(s: System, owed: Shares, r: Resource, run: seq<Action>, id: string)
    requires Consistent(s) && Booked(s, owed, r) && InStep(s.ledger, owed, r) && OrderlyRun(s, owed, r, run)
    requires id in s.ledger && id != ""
    ensures Behaves(s, run)
    ensures var end := StateAt(s, run, |run|);
            && id in end.ledger
            && Total(Running(end, id, r)) + Mined(end.ledger[id], r) <= CapacityOf(s.ledger[id], r)
    decreases |run|
  {
    hide Next, Orderly, OwedAfter, Running, Booked, InStep, NodeInStep, Consistent, Enabled, CapacityOf, Mined;
    if run == [] {
      RunningWithinOwed(s, owed, id, r);
      StartInStep(s.ledger, owed, r, id);
    } else {
      OrderlyStep(s, owed, r, run[0]);
      RunningWithinCapacity(Next(s, run[0]), OwedAfter(s, owed, r, run[0]), r, run[1..], id);
    }
  }

  /** DeleteJob never gets in the way of a pool with a name of its own: its credits go to "default", with whatever
      amounts, any number of times, and as early as it likes. */
  lemma DeletionIsOrderly(s: System, owed: Shares, t: string, a: Action)
    requires Enabled(s, a) && a.DeleteCredit? && t != "default"
    ensures Orderly(s, owed, GPUs(t), a) && OwedAfter(s, owed, GPUs(t), a) == owed
  {
  }

  /** The watcher and the sweeper credit pods of any other pool of their provider, and of other providers, freely. */
  lemma OtherPoolsAreFree(s: System, owed: Shares, t: string, a: Action)
    requires Enabled(s, a) && (a.Deliver? || a.SweepNext? || a.Abort?)
    requires CreditOf(s, a).Some? ==>
               var c := CreditOf(s, a).value; c.id !in s.ledger || ResolveType(s.ledger[c.id].spec, c.gpuType) != t
    ensures Orderly(s, owed, GPUs(t), a) && OwedAfter(s, owed, GPUs(t), a) == owed
  {
  }

  // ---------------------------------------------------------------- where runs start

  /** The listing has exactly the pods that have not terminated. */
  predicate ListsLive(pods: seq<PodInfo>, cluster: map<string, PodInfo>) {
    && (forall k :: 0 <= k < |pods| ==> pods[k].jobID in cluster && cluster[pods[k].jobID] == pods[k] && !Terminated(pods[k]))
    && (forall i, k :: 0 <= i < k < |pods| ==> pods[i].jobID != pods[k].jobID)
    && (forall j :: j in cluster && !Terminated(cluster[j]) ==> exists k :: 0 <= k < |pods| && pods[k].jobID == j)
  }

  /** What the pods found at boot hold of the resource. */
  function BootShares(l: Providers, cluster: map<string, PodInfo>, r: Resource): Shares {
    map j | j in cluster && !Terminated(cluster[j]) && cluster[j].providerID in l
      :: Share(cluster[j].providerID, PodAmount(l[cluster[j].providerID].spec, r, cluster[j]))
  }

  /** The demand of a provider's pods, as far as the resource goes; recovery books all GPUs under one type. */
  function DemandOf(spec: SystemSpec, r: Resource, d: Demand): int {
    match r
    case GPUs(t) => if RecoveredType(spec) == t then d.gpu else 0
    case Cores => d.cpu
    case Memory => d.memory
  }

  /** The pod asks for nothing negative and, if the resource is a pool, is of the type recovery books it under. */
  predicate Bookable(spec: SystemSpec, r: Resource, p: PodInfo) {
    0 <= PodAmount(spec, r, p) && (r.GPUs? ==> ResolveType(spec, p.gpuModel) == RecoveredType(spec))
  }

  predicate AllBookable(l: Providers, cluster: map<string, PodInfo>, r: Resource) {
    forall j :: j in cluster && !Terminated(cluster[j]) && cluster[j].providerID in l ==>
      Bookable(l[cluster[j].providerID].spec, r, cluster[j])
  }

  lemma SharesFront(l: Providers, cluster: map<string, PodInfo>, r: Resource, p: PodInfo, id: string)
    requires p.jobID in cluster && cluster[p.jobID] == p && !Terminated(p)
    ensures Sum(BootShares(l, cluster, r), id) == Sum(BootShares(l, cluster - {p.jobID}, r), id)
              + if p.providerID == id && id in l then PodAmount(l[id].spec, r, p) else 0
  {
    var shares := BootShares(l, cluster, r);
    assert BootShares(l, cluster - {p.jobID}, r) == shares - {p.jobID};
    if p.jobID in shares {
      SumRemove(shares, p.jobID);
    } else {
      assert shares - {p.jobID} == shares;
    }
  }

  lemma DemandAdds(spec: SystemSpec, r: Resource, d: Demand, p: PodInfo)
    requires Bookable(spec, r, p)
    ensures DemandOf(spec, r, Plus(d, p)) == DemandOf(spec, r, d) + PodAmount(spec, r, p)
  {
  }

  lemma LiveFront(pods: seq<PodInfo>, cluster: map<string, PodInfo>)
    requires ListsLive(pods, cluster) && pods != []
    ensures ListsLive(pods[..|pods| - 1], cluster - {pods[|pods| - 1].jobID})
  {
    var n := |pods| - 1;
    var front, rest := pods[..n], cluster - {pods[n].jobID};
    forall j | j in rest && !Terminated(rest[j]) ensures exists k :: 0 <= k < |front| && front[k].jobID == j {
      var k :| 0 <= k < |pods| && pods[k].jobID == j;
      assert front[k].jobID == j;
    }
  }

  lemma {:induction false} BootSum(pods: seq<PodInfo>, cluster: map<string, PodInfo>, l: Providers, id: string, r: Resource)
    requires ListsLive(pods, cluster) && id in l && AllBookable(l, cluster, r)
    ensures Sum(BootShares(l, cluster, r), id) == DemandOf(l[id].spec, r, Demanded(pods, id))
    decreases |pods|
  {
    if pods == [] {
      assert Of(BootShares(l, cluster, r), id) == map[];
    } else {
      var front, p := pods[..|pods| - 1], pods[|pods| - 1];
      assert cluster[p.jobID] == p && !Terminated(p);
      LiveFront(pods, cluster);
      hide ListsLive, BootShares, Sum, PodAmount, DemandOf, ResolveType;
      BootSum(front, cluster - {p.jobID}, l, id, r);
      SharesFront(l, cluster, r, p, id);
      if p.providerID == id {
        DemandAdds(l[id].spec, r, Demanded(front, id), p);
      }
    }
  }

  lemma {:induction false} NothingDemanded(pods: seq<PodInfo>, id: string)
    requires id != "" && !HasPods(pods, id)
    ensures Demanded(pods, id) == Demand(0, 0, 0)
  {
    if pods != [] {
      var n := |pods| - 1;
      assert forall k :: 0 <= k < n ==> pods[..n][k] == pods[k];
      NothingDemanded(pods[..n], id);
    }
  }

  lemma BootNode(n: Node, busy: bool, r: Resource, d: Demand)
    requires 0 <= DemandOf(RestartedNode(n, busy, d).spec, r, d) && (busy || d == Demand(0, 0, 0))
    requires var m := RestartedNode(n, busy, d); !r.GPUs? ==> DemandOf(m.spec, r, d) <= CapacityOf(m, r)
    ensures NodeInStep(RestartedNode(n, busy, d), r, DemandOf(RestartedNode(n, busy, d).spec, r, d))
  {
  }

  lemma BookedNonNegative(s: System, owed: Shares, r: Resource, id: string)
    requires Booked(s, owed, r)
    ensures 0 <= Sum(owed, id)
  {
    SumNonNegative(s, owed, id);
  }

  lemma StartOrderly(s: System)
    requires (forall j :: j in s.pods ==> s.pods[j].jobID == j) && s.used == s.pods.Keys && s.terminating == {}
    requires s.reserved == map[] && s.placing == map[] && s.deleting == map[] && s.history == {} && s.sweeper == Asleep
    ensures Consistent(s)
  {
  }

  lemma StartOwed(s: System, r: Resource)
    requires AllBookable(s.ledger, s.pods, r) && s.used == s.pods.Keys
    ensures OwedSound(s, BootShares(s.ledger, s.pods, r))
  {
    var owed := BootShares(s.ledger, s.pods, r);
    forall j | j in owed ensures j in s.used && owed[j].provider in s.ledger && 0 <= owed[j].amount {
      assert Bookable(s.ledger[s.pods[j].providerID].spec, r, s.pods[j]);
    }
  }

  lemma StartPodBooked(s: System, r: Resource, j: string)
    requires j in s.pods && s.pods[j].providerID in s.ledger && !Dead(s, j)
    ensures PodBooked(s, BootShares(s.ledger, s.pods, r), r, j)
  {
    hide PodAmount;
  }

  lemma StartBooked(s: System, r: Resource)
    requires AllBookable(s.ledger, s.pods, r) && s.used == s.pods.Keys && s.reserved == map[]
    requires forall j :: j in s.pods && s.pods[j].providerID != "" ==> s.pods[j].providerID in s.ledger
    ensures Booked(s, BootShares(s.ledger, s.pods, r), r)
  {
    StartOwed(s, r);
    hide BootShares, OwedSound, PodBooked, Dead, AllBookable;
    forall j | j in s.pods && s.pods[j].providerID != "" && !Dead(s, j)
      ensures PodBooked(s, BootShares(s.ledger, s.pods, r), r, j)
    {
      StartPodBooked(s, r, j);
    }
  }

  /** The control plane starts consistent: whatever the rows and the pods, with nothing reserved and nothing reported,
      the ledger rebuilt from them agrees with what the running pods hold of the resource. The pods must be bookable
      and of registered providers, and for cores and memory they must fit. */
  lemma StartIsConsistent(l: Providers, rows: seq<string>, pods: seq<PodInfo>, cluster: map<string, PodInfo>, r: Resource, clock: int)
    requires forall j :: j in cluster ==> cluster[j].jobID == j
    requires "" !in l && ListsLive(pods, cluster)
    requires var booted := Restarted(l, rows, pods);
             && AllBookable(booted, cluster, r)
             && (forall j :: j in cluster && cluster[j].providerID != "" ==> cluster[j].providerID in booted)
             && (!r.GPUs? ==> forall id :: id in booted ==>
                   DemandOf(booted[id].spec, r, Demanded(pods, id)) <= CapacityOf(booted[id], r))
    ensures var booted := Restarted(l, rows, pods);
            var s := System(booted, cluster, {}, cluster.Keys, map[], map[], map[], clock, {}, Asleep);
            var owed := BootShares(booted, cluster, r);
            Consistent(s) && Booked(s, owed, r) && InStep(booted, owed, r)
  {
    var booted := Restarted(l, rows, pods);
    hide Restarted, NodeInStep, Sum, CapacityOf, HasPods, Demanded, ListsLive, BootShares, Consistent, Booked, AllBookable;
    var s := System(booted, cluster, {}, cluster.Keys, map[], map[], map[], clock, {}, Asleep);
    StartOrderly(s);
    StartBooked(s, r);
    forall id | id in booted ensures NodeInStep(booted[id], r, Sum(BootShares(booted, cluster, r), id)) {
      var d := Demanded(pods, id);
      RestartedAt(l, rows, pods, id);
      BootSum(pods, cluster, booted, id, r);
      BookedNonNegative(s, BootShares(booted, cluster, r), r, id);
      if !HasPods(pods, id) {
        NothingDemanded(pods, id);
      }
      BootNode(l[id], HasPods(pods, id), r, d);
    }
  }
}
