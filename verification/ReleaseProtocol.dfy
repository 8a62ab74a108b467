/** The release protocol: job creation and deletion, pods that take their time to terminate, a pod watch that may
    drop, repeat and reorder events, and a sweeper that works from a listing which may have gone stale. */
module ReleaseProtocol {
  import opened Wrappers
  import opened Capacity
  import opened Ledger
  import opened Pods
  import opened Sweep
  import opened Accounting

  /** Between its API calls the sweeper holds the listing, then the rest of it and the time it read. */
  datatype Sweeper = Asleep | Listed(listing: seq<PodInfo>) | Sweeping(rest: seq<PodInfo>, now: int)

  datatype Booking = Booking(id: string, allocation: ResourceAllocation)

  datatype System = System(
    ledger: Providers,
    pods: map<string, PodInfo>,       // the cluster, by job id
    terminating: set<string>,         // pods that are being deleted, but still there
    used: set<string>,                // every job id ever used
    reserved: map<string, Booking>,   // debited, pod not created yet
    placing: map<string, Booking>,    // pod created, service not created yet
    deleting: map<string, PodInfo>,   // DeleteJob: deletion accepted, not credited yet
    clock: int,
    history: set<WatchEvent>,         // every event the watch may still deliver, any number of times
    sweeper: Sweeper)

  datatype Action =
    | Reserve(job: string, id: string, allocation: ResourceAllocation)
    | Place(pod: PodInfo)
    | PlaceUnbound(pod: PodInfo)
    | Confirm(job: string)
    | Abort(job: string, cleaned: bool)
    | Phase(job: string, status: string)
    | Vanish(job: string)
    | Clock(now: int)
    | Deliver(event: WatchEvent)
    | List(listing: seq<PodInfo>)
    | StartSweep
    | SweepNext(refused: bool)
    | DeletePod(job: string)
    | DeleteCredit(job: string, cpuCores: int, memoryMB: int)
    | Mining(step: Step)

  /** What the environment and the code allow: fresh job ids, terminal phases that never revert,
      a clock that never runs backwards, events that did occur, listings taken from the cluster. */
  predicate Enabled(s: System, a: Action) {
    match a
    case Reserve(job, _, _) => job !in s.used
    case Place(pod) =>
      pod.jobID in s.reserved && pod.providerID == s.reserved[pod.jobID].id && pod.providerID != "" && !Terminated(pod)
    case PlaceUnbound(pod) => pod.jobID !in s.used && pod.providerID == ""
    case Confirm(job) => job in s.placing
    case Abort(job, _) => job in s.reserved || job in s.placing
    case Phase(job, status) => job in s.pods && (Terminated(s.pods[job]) ==> status == s.pods[job].status)
    case Vanish(job) => job in s.pods
    case Clock(now) => s.clock <= now
    case Deliver(event) => event in s.history
    case List(listing) =>
      s.sweeper.Asleep? && (forall p :: p in listing ==> p in s.pods.Values) && (forall j :: j in s.pods ==> s.pods[j] in listing)
    case StartSweep => s.sweeper.Listed?
    case SweepNext(_) => s.sweeper.Sweeping? && s.sweeper.rest != []
    case DeletePod(job) => job in s.pods
    case DeleteCredit(job, _, _) => job in s.deleting
    case Mining(step) => !step.Rent? && !step.Return?
  }

  /** The credit an action makes: job, provider, GPU type and amounts. */
  datatype Receipt = Receipt(job: string, id: string, gpuType: string, gpu: int, cpu: int, memory: int)

  function PodReceipt(p: PodInfo): Receipt {
    Receipt(p.jobID, p.providerID, p.gpuModel, p.gpuCount, p.cpuCores, p.memoryMB)
  }

  /** The handlers release through ReleaseResources, which names the pool "default" when no type is given.
      DeleteJob never gives one, and takes at least one GPU. */
  function CreditOf(s: System, a: Action): Option<Receipt>
    requires Enabled(s, a)
  {
    match a
    case Deliver(event) => if EventCredits(event) then Some(PodReceipt(event.info)) else None
    case SweepNext(_) =>
      var p := s.sweeper.rest[0];
      if Due(p, s.sweeper.now) && Creditable(p) then Some(PodReceipt(p)) else None
    case DeleteCredit(job, cpu, memory) =>
      var p := s.deleting[job];
      if p.providerID == "" then None
      else Some(Receipt(job, p.providerID, "default", if p.gpuCount <= 0 then 1 else p.gpuCount, cpu, memory))
    case Abort(job, _) =>
      var b := if job in s.reserved then s.reserved[job] else s.placing[job];
      var t := if b.allocation.gpuType == "" then "default" else b.allocation.gpuType;
      Some(Receipt(job, b.id, t, b.allocation.gpuCount, b.allocation.cpuCores, b.allocation.memoryMB))
    case _ => None
  }

  ghost function LedgerAfter(s: System, a: Action): Providers
    requires Enabled(s, a)
  {
    match CreditOf(s, a)
    case Some(r) => ReleaseAt(s.ledger, r.id, r.gpuType, r.gpu, r.cpu, r.memory)
    case None =>
      match a
      case Reserve(_, id, allocation) => AllocateAt(s.ledger, id, allocation).0
      case Mining(step) => Apply(s.ledger, step)
      case _ => s.ledger
  }

  /** An accepted deletion: the pod terminates, which the watch may report as a change. */
  function Doomed(s: System, job: string): System {
    if job in s.pods
    then s.(terminating := s.terminating + {job}, history := s.history + {Modified(s.pods[job])})
    else s
  }

  /** Everything but the ledger. */
  function Rest(s: System, a: Action): System
    requires Enabled(s, a)
  {
    match a
    case Reserve(job, id, allocation) =>
      var granted := AllocateAt(s.ledger, id, allocation).1 == Granted;
      s.(used := s.used + {job}, reserved := if granted then s.reserved[job := Booking(id, allocation)] else s.reserved)
    case Place(pod) =>
      s.(pods := s.pods[pod.jobID := pod], history := s.history + {Added(pod)},
         reserved := s.reserved - {pod.jobID}, placing := s.placing[pod.jobID := s.reserved[pod.jobID]])
    case PlaceUnbound(pod) =>
      s.(pods := s.pods[pod.jobID := pod], history := s.history + {Added(pod)}, used := s.used + {pod.jobID})
    case Confirm(job) => s.(placing := s.placing - {job})
    case Abort(job, cleaned) =>
      var t := s.(reserved := s.reserved - {job}, placing := s.placing - {job});
      if cleaned then Doomed(t, job) else t
    case Phase(job, status) =>
      var pod := s.pods[job].(status := status);
      s.(pods := s.pods[job := pod], history := s.history + {Modified(pod)})
    case Vanish(job) =>
      s.(pods := s.pods - {job}, terminating := s.terminating - {job}, history := s.history + {Deleted(s.pods[job])})
    case Clock(now) => s.(clock := now)
    case Deliver(_) => s
    case List(listing) => s.(sweeper := Listed(listing))
    case StartSweep =>
      s.(sweeper := if s.sweeper.listing == [] then Asleep else Sweeping(s.sweeper.listing, s.clock))
    case SweepNext(refused) =>
      var p, rest := s.sweeper.rest[0], s.sweeper.rest[1..];
      var t := s.(sweeper := if rest == [] then Asleep else Sweeping(rest, s.sweeper.now));
      if Due(p, s.sweeper.now) && !refused then Doomed(t, p.jobID) else t
    case DeletePod(job) => Doomed(s, job).(deleting := s.deleting[job := s.pods[job]])
    case DeleteCredit(job, _, _) => s.(deleting := s.deleting - {job})
    case Mining(_) => s
  }

  ghost function Next(s: System, a: Action): System
    requires Enabled(s, a)
  {
    Rest(s, a).(ledger := LedgerAfter(s, a))
  }

  ghost predicate Behaves(s: System, run: seq<Action>)
    decreases |run|
  {
    run == [] || (Enabled(s, run[0]) && Behaves(Next(s, run[0]), run[1..]))
  }

  /** The state after the first k actions. */
  ghost function StateAt(s: System, run: seq<Action>, k: nat): System
    requires Behaves(s, run) && k <= |run|
    decreases |run|
  {
    if k == 0 then s else StateAt(Next(s, run[0]), run[1..], k - 1)
  }

  // ---------------------------------------------------------------- safety

  /** Nothing runs any more for this job: its pod is absent, terminal, or past its expiry. */
  predicate Dead(s: System, job: string) {
    job in s.pods ==> Terminated(s.pods[job]) || Expired(s.pods[job], s.clock)
  }

  /** The pod is dead, or is being deleted. */
  predicate Stopping(s: System, job: string) {
    Dead(s, job) || job in s.terminating
  }

  /** A job whose pod has been seen: it will never be placed again. */
  predicate Seen(s: System, job: string) {
    job in s.used && job !in s.reserved
  }

  predicate EventSound(s: System, e: WatchEvent) {
    && Seen(s, e.info.jobID)
    && (e.Deleted? ==> e.info.jobID !in s.pods)
    && (Terminated(e.info) && e.info.jobID in s.pods ==> Terminated(s.pods[e.info.jobID]))
  }

  /** A listed pod is still what it was, as far as a credit can depend on it. */
  predicate ListedSound(s: System, p: PodInfo) {
    && Seen(s, p.jobID)
    && (p.jobID in s.pods ==>
          && s.pods[p.jobID].expiresAt == p.expiresAt
          && (Terminated(p) ==> Terminated(s.pods[p.jobID])))
  }

  function Remaining(w: Sweeper): seq<PodInfo> {
    match w
    case Asleep => []
    case Listed(listing) => listing
    case Sweeping(rest, _) => rest
  }

  ghost predicate Consistent(s: System) {
    && (forall j :: j in s.pods ==> s.pods[j].jobID == j && Seen(s, j))
    && (forall j :: j in s.reserved ==> j in s.used)
    && (forall j :: j in s.placing ==> Seen(s, j))
    && (forall j :: j in s.terminating ==> j in s.pods)
    && (forall j :: j in s.deleting ==> Seen(s, j) && (j in s.pods ==> j in s.terminating))
    && (forall e :: e in s.history ==> EventSound(s, e))
    && (forall p :: p in Remaining(s.sweeper) ==> ListedSound(s, p))
    && (s.sweeper.Sweeping? ==> s.sweeper.now <= s.clock)
  }

  /** How far an action can change what the invariant says about one job. */
  predicate Moves(s: System, t: System) {
    && JobsMove(s, t)
    && PodsMove(s, t)
    && (forall j :: j in s.terminating && j in t.pods ==> j in t.terminating)
    && (forall j :: j in t.terminating ==> j in t.pods)
  }

  predicate JobsMove(s: System, t: System) {
    && s.used <= t.used
    && s.clock <= t.clock
    && (forall j :: j in t.reserved ==> j in s.reserved || j !in s.used)
  }

  predicate PodsMove(s: System, t: System) {
    forall j :: j in t.pods ==>
      if j in s.pods
      then t.pods[j].jobID == j && t.pods[j].expiresAt == s.pods[j].expiresAt
           && (Terminated(s.pods[j]) ==> Terminated(t.pods[j]))
      else j in s.reserved || j !in s.used
  }

  lemma JobsMoved(s: System, a: Action)
    requires Consistent(s) && Enabled(s, a)
    ensures JobsMove(s, Rest(s, a))
  {
    hide EventSound, ListedSound, Terminated, Due, AllocateAt;
  }

  lemma PodsMoved(s: System, a: Action)
    requires Consistent(s) && Enabled(s, a)
    ensures PodsMove(s, Rest(s, a))
  {
    hide EventSound, ListedSound, Due, AllocateAt;
  }

  lemma TerminatingMoves(s: System, a: Action)
    requires Consistent(s) && Enabled(s, a)
    ensures var t := Rest(s, a);
            && (forall j :: j in s.terminating && j in t.pods ==> j in t.terminating)
            && (forall j :: j in t.terminating ==> j in t.pods)
  {
    hide EventSound, ListedSound, Terminated, Due, AllocateAt;
  }

  lemma ActionMoves(s: System, a: Action)
    requires Consistent(s) && Enabled(s, a)
    ensures Moves(s, Rest(s, a))
  {
    JobsMoved(s, a);
    PodsMoved(s, a);
    TerminatingMoves(s, a);
    hide Consistent, Enabled, Rest, JobsMove, PodsMove;
  }

  lemma MovesKeepSeen(s: System, t: System, job: string)
    requires Moves(s, t) && Seen(s, job)
    ensures Seen(t, job) && (job !in s.pods ==> job !in t.pods)
  {
  }

  lemma EventsKept(s: System, a: Action)
    requires Consistent(s) && Enabled(s, a)
    ensures forall e :: e in Rest(s, a).history ==> EventSound(Rest(s, a), e)
  {
    hide AllocateAt;
    ActionMoves(s, a);
    var t := Rest(s, a);
    forall e | e in t.history ensures EventSound(t, e) {
      if e in s.history {
        assert EventSound(s, e);
        hide Rest, Enabled;
        MovesKeepSeen(s, t, e.info.jobID);
      }
    }
  }

  lemma ListingKept(s: System, a: Action)
    requires Consistent(s) && Enabled(s, a)
    ensures forall p :: p in Remaining(Rest(s, a).sweeper) ==> ListedSound(Rest(s, a), p)
  {
    ActionMoves(s, a);
    var t := Rest(s, a);
    forall p | p in Remaining(t.sweeper) ensures ListedSound(t, p) {
      if a.List? {
        assert p in s.pods.Values;
      } else {
        assert p in Remaining(s.sweeper);
        assert ListedSound(s, p);
      }
    }
  }

  lemma JobsKept(s: System, a: Action)
    requires Consistent(s) && Enabled(s, a)
    ensures var t := Rest(s, a);
            && (forall j :: j in t.pods ==> t.pods[j].jobID == j && Seen(t, j))
  {
    ActionMoves(s, a);
    var t := Rest(s, a);
    forall j | j in t.pods ensures t.pods[j].jobID == j && Seen(t, j) {
      if j in s.pods {
        hide Rest, Enabled;
        MovesKeepSeen(s, t, j);
      }
    }
    hide EventSound, ListedSound, EventCredits;
  }

  lemma ReservedKept(s: System, a: Action)
    requires Consistent(s) && Enabled(s, a)
    ensures forall j :: j in Rest(s, a).reserved ==> j in Rest(s, a).used
  {
    hide EventSound, ListedSound, Terminated, Due, AllocateAt;
  }

  lemma PlacingKept(s: System, a: Action)
    requires Consistent(s) && Enabled(s, a)
    ensures forall j :: j in Rest(s, a).placing ==> Seen(Rest(s, a), j)
  {
    hide EventSound, ListedSound, Terminated, Due, AllocateAt;
    ActionMoves(s, a);
    var t := Rest(s, a);
    forall j | j in t.placing ensures Seen(t, j) {
      if Seen(s, j) {
        hide Rest, Enabled;
        MovesKeepSeen(s, t, j);
      }
    }
  }

  lemma SweeperKept(s: System, a: Action)
    requires Consistent(s) && Enabled(s, a)
    ensures var t := Rest(s, a).sweeper; t.Sweeping? ==> t.now <= Rest(s, a).clock
  {
    hide EventSound, ListedSound, Terminated, Due, Seen, AllocateAt;
  }

  lemma DeletingKept(s: System, a: Action)
    requires Consistent(s) && Enabled(s, a)
    ensures var t := Rest(s, a);
            forall j :: j in t.deleting ==> Seen(t, j) && (j in t.pods ==> j in t.terminating)
  {
    ActionMoves(s, a);
    var t := Rest(s, a);
    forall j | j in t.deleting ensures Seen(t, j) && (j in t.pods ==> j in t.terminating) {
      if j in s.deleting {
        MovesKeepSeen(s, t, j);
        hide Rest, Enabled;
      } else {
        assert a.DeletePod? && j == a.job;
        MovesKeepSeen(s, t, j);
      }
    }
    hide EventSound, ListedSound;
  }

  lemma RestConsistent(s: System, a: Action)
    requires Consistent(s) && Enabled(s, a)
    ensures Consistent(Rest(s, a))
  {
    JobsKept(s, a);
    ReservedKept(s, a);
    PlacingKept(s, a);
    SweeperKept(s, a);
    DeletingKept(s, a);
    EventsKept(s, a);
    ListingKept(s, a);
    ActionMoves(s, a);
    hide Rest, Enabled, EventSound, ListedSound, Seen, JobsMove, PodsMove;
  }

  lemma LedgerIsNoMatter(s: System, l: Providers)
    requires Consistent(s)
    ensures Consistent(s.(ledger := l))
  {
    var t := s.(ledger := l);
    forall e | e in t.history ensures EventSound(t, e) {
      assert EventSound(s, e);
    }
    forall p | p in Remaining(t.sweeper) ensures ListedSound(t, p) {
      assert ListedSound(s, p);
    }
  }

  lemma ConsistentKept(s: System, a: Action)
    requires Consistent(s) && Enabled(s, a)
    ensures Consistent(Next(s, a))
  {
    RestConsistent(s, a);
    LedgerIsNoMatter(Rest(s, a), LedgerAfter(s, a));
    hide Consistent, Rest, LedgerAfter, Enabled;
  }

  /** The job an action credits no longer runs, when the watcher or the sweeper credits it; when DeleteJob does,
      it does not, or its pod is being deleted. */
  predicate SafeCredit(s: System, a: Action)
    requires Enabled(s, a)
  {
    CreditOf(s, a).Some? ==>
      if a.DeleteCredit? then Stopping(s, a.job) else !a.Abort? ==> Dead(s, CreditOf(s, a).value.job)
  }

  lemma CreditsOnlyTheStopping(s: System, a: Action)
    requires Consistent(s) && Enabled(s, a)
    ensures SafeCredit(s, a)
  {
    match a
    case Deliver(e) => assert EventSound(s, e);
    case SweepNext(_) =>
      assert s.sweeper.rest[0] in Remaining(s.sweeper);
      assert ListedSound(s, s.sweeper.rest[0]);
    case _ =>
  }

  /** CreateJob's own rollback credits a job that goes on running exactly when its pod had been placed, had neither
      died nor been deleted by anyone else, and the deletion of the pod failed; the code ignores that error. */
  lemma AbortCreditsTheDeadIffCleaned(s: System, job: string, cleaned: bool)
    requires Consistent(s) && Enabled(s, Abort(job, cleaned))
    ensures Stopping(Next(s, Abort(job, cleaned)), job) <==> cleaned || Stopping(s, job)
    ensures job in s.reserved ==> Dead(Next(s, Abort(job, cleaned)), job)
  {
  }

  /** Release safety over every run: whatever the watch drops, repeats or reorders, and however stale the
      listing, no pod that is present, not terminal and not expired is ever credited by the watcher or the
      sweeper; nor by DeleteJob, unless it is being deleted. */
  lemma {:induction false} ReleaseSafety(s: System, run: seq<Action>, k: nat)
    requires Consistent(s) && Behaves(s, run) && k < |run|
    ensures var t := StateAt(s, run, k);
            Enabled(t, run[k]) && Consistent(t) && SafeCredit(t, run[k])
    decreases k
  {
    if k == 0 {
      CreditsOnlyTheStopping(s, run[0]);
    } else {
      ConsistentKept(s, run[0]);
      ReleaseSafety(Next(s, run[0]), run[1..], k - 1);
    }
  }

  // ---------------------------------------------------------------- sweep completeness

  /** Only the sweeper itself moves on in the listing it works through. */
  lemma SweeperSteps(s: System, a: Action)
    requires Enabled(s, a) && s.sweeper.Sweeping?
    ensures Next(s, a).sweeper ==
      if !a.SweepNext? then s.sweeper
      else if |s.sweeper.rest| == 1 then Asleep
      else Sweeping(s.sweeper.rest[1..], s.sweeper.now)
  {
  }

  /** Where in the run the sweeper reaches the i-th pod it still has to look at. */
  lemma {:induction false} SweepReaches(s: System, run: seq<Action>, i: nat) returns (k: nat)
    requires Behaves(s, run) && s.sweeper.Sweeping? && i < |s.sweeper.rest|
    requires StateAt(s, run, |run|).sweeper.Asleep?
    ensures k < |run| && run[k].SweepNext?
    ensures StateAt(s, run, k).sweeper == Sweeping(s.sweeper.rest[i..], s.sweeper.now)
    decreases |run|
  {
    SweeperSteps(s, run[0]);
    hide Next;
    if run[0].SweepNext? {
      if i == 0 {
        k := 0;
        assert s.sweeper.rest[0..] == s.sweeper.rest;
      } else {
        var rest := s.sweeper.rest;
        var k' := SweepReaches(Next(s, run[0]), run[1..], i - 1);
        assert rest[1..][i - 1..] == rest[i..];
        k := k' + 1;
      }
    } else {
      var k' := SweepReaches(Next(s, run[0]), run[1..], i);
      k := k' + 1;
    }
  }

  lemma {:induction false} EnabledAt(s: System, run: seq<Action>, k: nat)
    requires Behaves(s, run) && k < |run|
    ensures Enabled(StateAt(s, run, k), run[k])
    decreases k
  {
    if k > 0 {
      EnabledAt(Next(s, run[0]), run[1..], k - 1);
    }
  }

  /** Once a listing's sweep has ended, every due pod of the listing that carries something was credited by the
      sweep, whatever the watch lost and however the other actions interleaved; and right after, its pod was gone
      or being deleted, unless the API refused the deletion. */
  lemma SweepCompletes(s: System, run: seq<Action>, p: PodInfo) returns (k: nat)
    requires Behaves(s, run) && s.sweeper.Sweeping? && p in s.sweeper.rest
    requires StateAt(s, run, |run|).sweeper.Asleep?
    requires OverOrExpired(p, s.sweeper.now)
    ensures k < |run| && run[k].SweepNext? && Enabled(StateAt(s, run, k), run[k])
    ensures p.providerID != "" && (1 <= p.gpuCount || 1 <= p.cpuCores || 1 <= p.memoryMB) ==>
              CreditOf(StateAt(s, run, k), run[k])
                == Some(Receipt(p.jobID, p.providerID, p.gpuModel, p.gpuCount, p.cpuCores, p.memoryMB))
    ensures var t := Next(StateAt(s, run, k), run[k]);
            !run[k].refused ==> p.jobID !in t.pods || p.jobID in t.terminating
  {
    var i :| 0 <= i < |s.sweeper.rest| && s.sweeper.rest[i] == p;
    k := SweepReaches(s, run, i);
    EnabledAt(s, run, k);
  }

  // ---------------------------------------------------------------- the ordinary paths that credit more than once

  function FailedPod(p: PodInfo): PodInfo {
    p.(status := "Failed")
  }

  /** A job that fails: the watch sees the failure, the sweeper cleans the pod up, the watch sees the pod go. */
  function FailureRun(p: PodInfo): seq<Action> {
    var f := FailedPod(p);
    [Phase(p.jobID, "Failed"), Deliver(Modified(f)), List([f]), StartSweep, SweepNext(false), Vanish(p.jobID), Deliver(Deleted(f))]
  }

  /** DeleteJob followed by the watch's report of the deletion. */
  function DeletionRun(p: PodInfo): seq<Action> {
    [DeletePod(p.jobID), DeleteCredit(p.jobID, p.cpuCores, p.memoryMB), Vanish(p.jobID), Deliver(Deleted(p))]
  }

  /** The provider of the one pod p, which is all its provider has rented out. */
  predicate OnlyJob(s: System, p: PodInfo) {
    && s.pods == map[p.jobID := p] && s.sweeper.Asleep? && !Terminated(p)
    && p.providerID in s.ledger && p.providerID != ""
    && 1 <= p.gpuCount && 0 <= p.cpuCores && 0 <= p.memoryMB
    && var n := s.ledger[p.providerID];
       && n.cap.inUseGPUs.Made?
       && n.cap.inUseGPUs.Count(ResolveType(n.spec, p.gpuModel)) == p.gpuCount
       && n.cap.cpu.inUse == p.cpuCores
  }

  lemma TwoSteps(s: System, run: seq<Action>)
    requires 1 <= |run| && Enabled(s, run[0]) && Behaves(Next(s, run[0]), run[1..])
    ensures Behaves(s, run) && StateAt(s, run, |run|) == StateAt(Next(s, run[0]), run[1..], |run| - 1)
  {
  }

  /** The watch reports the failure and credits the job. */
  lemma FailureSeen(s: System, p: PodInfo)
    requires OnlyJob(s, p)
    ensures var f, a, b := FailedPod(p), Phase(p.jobID, "Failed"), Deliver(Modified(FailedPod(p)));
            && Enabled(s, a) && Enabled(Next(s, a), b)
            && var t := Next(Next(s, a), b);
               && t.pods == map[p.jobID := f] && t.sweeper.Asleep? && t.clock == s.clock
               && t.ledger == Credit(s.ledger, f)
  {
  }

  /** The sweeper lists the failed pod, credits the job again and has the pod deleted. */
  lemma FailureSwept(t: System, f: PodInfo)
    requires t.pods == map[f.jobID := f] && t.sweeper.Asleep? && Terminated(f) && Creditable(f)
    ensures && Enabled(t, List([f]))
            && var u := Next(t, List([f]));
               && Enabled(u, StartSweep)
               && var v := Next(u, StartSweep);
                  && Enabled(v, SweepNext(false))
                  && var w := Next(v, SweepNext(false));
                     w.pods == t.pods && w.ledger == Credit(t.ledger, f)
  {
    assert [f][1..] == [];
    assert t.pods[f.jobID] == f && t.pods[f.jobID] in t.pods.Values;
  }

  /** The pod goes, and the watch's report of it credits the job once more. */
  lemma LastCredit(s: System, f: PodInfo)
    requires f.jobID in s.pods && s.pods[f.jobID] == f && f.providerID != ""
    ensures Enabled(s, Vanish(f.jobID)) && Enabled(Next(s, Vanish(f.jobID)), Deliver(Deleted(f)))
    ensures Next(Next(s, Vanish(f.jobID)), Deliver(Deleted(f))).ledger == Credit(s.ledger, f)
  {
  }

  lemma ThreeCredits(n: Node, p: PodInfo)
    requires n.cap.inUseGPUs.Made? && n.cap.inUseGPUs.Count(ResolveType(n.spec, p.gpuModel)) == p.gpuCount
    requires 1 <= p.gpuCount
    ensures var g := ResolveType(n.spec, p.gpuModel);
            var once := Release(n, p.gpuModel, p.gpuCount, p.cpuCores, p.memoryMB);
            var twice := Release(once, p.gpuModel, p.gpuCount, p.cpuCores, p.memoryMB);
            Pooled(Release(twice, p.gpuModel, p.gpuCount, p.cpuCores, p.memoryMB).cap, g) == Pooled(n.cap, g) + 2 * p.gpuCount
  {
  }

  /** A failed job is credited three times in the ordinary course of events. The pool of its type ends up
      too large by twice its GPUs. */
  lemma FailureCreditsThrice(s: System, p: PodInfo)
    requires OnlyJob(s, p)
    ensures Behaves(s, FailureRun(p))
    ensures var g := ResolveType(s.ledger[p.providerID].spec, p.gpuModel);
            var end := StateAt(s, FailureRun(p), 7).ledger;
            && p.providerID in end
            && Pooled(end[p.providerID].cap, g) == Pooled(s.ledger[p.providerID].cap, g) + 2 * p.gpuCount
  {
    hide Next, Enabled, Release;
    var run, f := FailureRun(p), FailedPod(p);
    FailureSeen(s, p);
    var s1 := Next(s, run[0]);
    var s2 := Next(s1, run[1]);
    FailureSwept(s2, f);
    var s3 := Next(s2, run[2]);
    var s4 := Next(s3, run[3]);
    var s5 := Next(s4, run[4]);
    LastCredit(s5, f);
    var s6 := Next(s5, run[5]);
    ThreeCredits(s.ledger[p.providerID], f);
    var tail := run[1..][1..][1..][1..][1..];
    assert tail[1..][1..] == [];
    TwoSteps(s6, tail[1..]);
    TwoSteps(s5, tail);
    TwoSteps(s4, run[1..][1..][1..][1..]);
    TwoSteps(s3, run[1..][1..][1..]);
    TwoSteps(s2, run[1..][1..]);
    TwoSteps(s1, run[1..]);
    TwoSteps(s, run);
  }

  lemma TwoCredits(n: Node, p: PodInfo)
    requires 1 <= p.gpuCount && 0 <= p.cpuCores && n.cap.cpu.inUse == p.cpuCores && n.cap.inUseGPUs.Made?
    requires ResolveType(n.spec, p.gpuModel) != "default" && n.cap.inUseGPUs.Count("default") == 0
    ensures var once := Release(n, "default", p.gpuCount, p.cpuCores, p.memoryMB);
            var after := Release(once, p.gpuModel, p.gpuCount, p.cpuCores, p.memoryMB).cap;
            && Pooled(after, "default") == Pooled(n.cap, "default") + p.gpuCount
            && after.cpu.available + after.cpu.inUse == n.cap.cpu.available + n.cap.cpu.inUse + p.cpuCores
  {
  }

  lemma DeletionCredited(s: System, p: PodInfo)
    requires OnlyJob(s, p)
    ensures var run, n := DeletionRun(p), s.ledger[p.providerID];
            && Enabled(s, run[0])
            && var s1 := Next(s, run[0]);
               && Enabled(s1, run[1])
               && var s2 := Next(s1, run[1]);
                  && s2.pods == s.pods && p.providerID in s2.ledger
                  && s2.ledger[p.providerID] == Release(n, "default", p.gpuCount, p.cpuCores, p.memoryMB)
  {
    hide Release;
  }

  lemma DeletionReported(s: System, p: PodInfo)
    requires s.pods == map[p.jobID := p] && p.providerID in s.ledger && p.providerID != ""
    ensures Enabled(s, Vanish(p.jobID)) && Enabled(Next(s, Vanish(p.jobID)), Deliver(Deleted(p)))
    ensures var t := Next(Next(s, Vanish(p.jobID)), Deliver(Deleted(p)));
            && p.providerID in t.ledger
            && t.ledger[p.providerID] == Release(s.ledger[p.providerID], p.gpuModel, p.gpuCount, p.cpuCores, p.memoryMB)
  {
    hide Release;
  }

  /** A deleted job is credited twice: DeleteJob credits its GPUs to the "default" pool, which never held them,
      and the watch credits its cores a second time, beyond what the provider has. */
  lemma DeletionCreditsTwice(s: System, p: PodInfo)
    requires OnlyJob(s, p)
    requires ResolveType(s.ledger[p.providerID].spec, p.gpuModel) != "default"
    requires s.ledger[p.providerID].cap.inUseGPUs.Count("default") == 0
    ensures Behaves(s, DeletionRun(p))
    ensures var before := s.ledger[p.providerID].cap;
            var end := StateAt(s, DeletionRun(p), 4).ledger;
            && p.providerID in end
            && var after := end[p.providerID].cap;
               && Pooled(after, "default") == Pooled(before, "default") + p.gpuCount
               && after.cpu.available + after.cpu.inUse == before.cpu.available + before.cpu.inUse + p.cpuCores
  {
    var run := DeletionRun(p);
    TwoCredits(s.ledger[p.providerID], p);
    DeletionCredited(s, p);
    DeletionReported(Next(Next(s, run[0]), run[1]), p);
    hide Next, Enabled, Release, Pooled;
    var s1 := Next(s, run[0]);
    var s2 := Next(s1, run[1]);
    var s3 := Next(s2, run[2]);
    assert run[1..][1..][1..][1..] == [];
    TwoSteps(s3, run[1..][1..][1..]);
    TwoSteps(s2, run[1..][1..]);
    TwoSteps(s1, run[1..]);
    TwoSteps(s, run);
  }

  /** The credit of a deletion can come early: while the pod of an unexpired job terminates, it still runs, and
      its amounts are on offer again. */
  lemma DeletionCreditsEarly(s: System, p: PodInfo)
    requires OnlyJob(s, p) && !Expired(p, s.clock)
    ensures Enabled(s, DeletePod(p.jobID))
    ensures var t, credit := Next(s, DeletePod(p.jobID)), DeleteCredit(p.jobID, p.cpuCores, p.memoryMB);
            Enabled(t, credit) && CreditOf(t, credit).Some? && !Dead(t, p.jobID)
  {
  }
}
