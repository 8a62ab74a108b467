/** Creating and deleting the Kubernetes objects of a rental job: the tenant's namespace if need be,
    then the pod, then its service. */
module JobManager {
  import opened Wrappers
  import opened Quantities
  import Tenants

  /** A job request as the handler passes it on. */
  datatype JobSpec = JobSpec(userID: string, gpuCount: int, cpuCores: string, memoryGB: string)

  /** The resources a pod is built with. */
  datatype PodSpec = PodSpec(gpus: string, cpuCores: string, memory: string)

  /** A job's pod, and its service, by namespace and job id. */
  datatype JobKey = JobKey(namespace: string, jobID: string)

  /** What the environment answers during one creation: whether the tenant check succeeds, the calls of a
      provisioning, whether MustParse accepts the pod's quantities, and the ending of each later call. */
  datatype Answers = Answers(checked: bool, tenant: Tenants.Calls, parses: bool,
                             pod: Api, service: Api, cleanup: Api)

  datatype Outcome = Created | NotCreated | Panicked

  datatype Jobs = Jobs(tenants: Tenants.Cluster, pods: map<JobKey, PodSpec>, services: set<JobKey>)

  predicate Isolated(isolation: bool, userID: string) {
    isolation && userID != "" && userID != "anonymous"
  }

  function Home(isolation: bool, userID: string): string {
    if Isolated(isolation, userID) then Tenants.NamespaceName(userID) else "default"
  }

  /** The tenant is configured from the request before its defaults are filled in. */
  function ConfigOf(r: JobSpec): Tenants.TenantConfig {
    Tenants.TenantConfig(r.userID, Tenants.Quota(r.gpuCount, r.cpuCores, r.memoryGB), 8888, 5432)
  }

  function PodOf(r: JobSpec): PodSpec {
    PodSpec(PodGPU(r.gpuCount), PodCPU(r.cpuCores), PodMemory(r.memoryGB))
  }

  /** The tenant step; an outcome ends the creation there. */
  function Housed(c: Tenants.Cluster, isolation: bool, r: JobSpec, a: Answers): (Tenants.Cluster, Option<Outcome>) {
    if !Isolated(isolation, r.userID) then (c, None)
    else if !a.checked then (c, Some(NotCreated))
    else if Tenants.NamespaceName(r.userID) in c then (c, None)
    else
      var (d, ending) := Tenants.Create(c, ConfigOf(r), a.tenant);
      (d, match ending case Created => None case Refused => Some(NotCreated) case Panicked => Some(Panicked))
  }

  /** Pod, then service; a service that is not acknowledged makes the pod be deleted, whatever becomes of that. */
  function Launched(j: Jobs, key: JobKey, pod: PodSpec, a: Answers): (Jobs, Outcome) {
    if !a.parses then (j, Panicked)
    else if key in j.pods || a.pod.Failed? then (j, NotCreated)
    else
      var placed := j.(pods := j.pods[key := pod]);
      if !a.pod.Applied? then (placed, NotCreated)
      else
        var served := if a.service.Failed? then placed else placed.(services := placed.services + {key});
        if a.service.Applied? && key !in j.services then (served, Created)
        else (if a.cleanup.Failed? then served else served.(pods := served.pods - {key}), NotCreated)
  }

  function JobCreated(j: Jobs, isolation: bool, jobID: string, r: JobSpec, a: Answers): (Jobs, Outcome) {
    var (c, stopped) := Housed(j.tenants, isolation, r, a);
    var housed := j.(tenants := c);
    if stopped.Some? then (housed, stopped.value)
    else Launched(housed, JobKey(Home(isolation, r.userID), jobID), PodOf(r), a)
  }

  /** Deleting a job ignores the service's answer; the pod must have been there. */
  function JobDeleted(j: Jobs, key: JobKey, service: Api, pod: Api): (Jobs, bool) {
    var t := if service.Failed? then j else j.(services := j.services - {key});
    (if pod.Failed? then t else t.(pods := t.pods - {key}), pod.Applied? && key in j.pods)
  }

  // ---------------------------------------------------------------- meaning

  /** With isolation a named user's jobs live in a namespace of their own; all others share one. */
  lemma HomeOf(isolation: bool, userID: string)
    ensures Isolated(isolation, userID) <==> isolation && userID !in {"", "anonymous"}
    ensures Home(isolation, userID) == if isolation && userID !in {"", "anonymous"} then "tenant-" + userID else "default"
    ensures forall other :: other !in {"", "anonymous"} && userID !in {"", "anonymous"} && other != userID ==>
              Home(true, other) != Home(true, userID)
  {
    forall other | other !in {"", "anonymous"} && userID !in {"", "anonymous"} && other != userID
      ensures Home(true, other) != Home(true, userID)
    {
      var tenant := "tenant-";
      assert (tenant + other)[|tenant|..] == other && (tenant + userID)[|tenant|..] == userID;
    }
  }

  /** A job that was created runs as requested, with its service; and with isolation it runs inside the tenant's
      fence, even when the provisioning was skipped because the namespace was there. */
  lemma CreatedRunsFenced(j: Jobs, isolation: bool, jobID: string, r: JobSpec, a: Answers)
    requires Tenants.FenceHolds(j.tenants)
    requires JobCreated(j, isolation, jobID, r, a).1 == Created
    ensures var after, key := JobCreated(j, isolation, jobID, r, a).0, JobKey(Home(isolation, r.userID), jobID);
            && key !in j.pods && key in after.pods && after.pods[key] == PodOf(r)
            && key in after.services
            && (Isolated(isolation, r.userID) ==> key.namespace in after.tenants && Tenants.Fenced(after.tenants[key.namespace]))
  {
    if Isolated(isolation, r.userID) {
      Tenants.CreateKeepsFence(j.tenants, ConfigOf(r), a.tenant);
    }
  }

  /** The tenant step lets the creation go on: no isolation, a tenant that is there, or one that could be provisioned. */
  predicate TenantReady(c: Tenants.Cluster, isolation: bool, r: JobSpec, a: Answers) {
    !Isolated(isolation, r.userID) ||
    (a.checked && (Tenants.NamespaceName(r.userID) in c ||
                   (a.tenant.namespace.Applied? && a.tenant.parses && a.tenant.quota.Applied?
                    && a.tenant.internal.Applied? && a.tenant.ingress.Applied? && a.tenant.egress.Applied?)))
  }

  /** Building the new tenant's quota panics, or building the pod does. */
  predicate Panics(j: Jobs, isolation: bool, r: JobSpec, a: Answers) {
    || (&& Isolated(isolation, r.userID) && a.checked && Tenants.NamespaceName(r.userID) !in j.tenants
        && a.tenant.namespace.Applied? && !a.tenant.parses)
    || (TenantReady(j.tenants, isolation, r, a) && !a.parses)
  }

  /** Nothing is in the way of the pod and its service, and both calls are acknowledged. */
  predicate Succeeds(j: Jobs, isolation: bool, jobID: string, r: JobSpec, a: Answers) {
    var key := JobKey(Home(isolation, r.userID), jobID);
    && TenantReady(j.tenants, isolation, r, a) && a.parses
    && key !in j.pods && a.pod.Applied? && key !in j.services && a.service.Applied?
  }

  /** The failures that leave the new pod behind: its creation was not acknowledged but took effect, or the
      service failed and so did the deletion of the pod. */
  predicate Orphaned(j: Jobs, isolation: bool, jobID: string, r: JobSpec, a: Answers) {
    var key := JobKey(Home(isolation, r.userID), jobID);
    && TenantReady(j.tenants, isolation, r, a) && a.parses
    && (a.pod.Lost? || (a.pod.Applied? && (!a.service.Applied? || key in j.services) && a.cleanup.Failed?))
  }

  lemma HousedWhenReady(c: Tenants.Cluster, isolation: bool, r: JobSpec, a: Answers)
    ensures Housed(c, isolation, r, a).1.None? <==> TenantReady(c, isolation, r, a)
    ensures Housed(c, isolation, r, a).1 != Some(Created)
    ensures Housed(c, isolation, r, a).1 == Some(Panicked) <==>
              Isolated(isolation, r.userID) && a.checked && Tenants.NamespaceName(r.userID) !in c
              && a.tenant.namespace.Applied? && !a.tenant.parses
  {
  }

  /** How a creation ends, read off the request, the cluster before it and the answers. */
  lemma OutcomeOf(j: Jobs, isolation: bool, jobID: string, r: JobSpec, a: Answers)
    ensures JobCreated(j, isolation, jobID, r, a).1 == Created <==> Succeeds(j, isolation, jobID, r, a)
    ensures JobCreated(j, isolation, jobID, r, a).1 == Panicked <==> Panics(j, isolation, r, a)
  {
    hide Housed, TenantReady, PodOf, Home;
    HousedWhenReady(j.tenants, isolation, r, a);
  }

  /** The launch's share of the next lemma. */
  lemma LaunchedPod(j: Jobs, key: JobKey, pod: PodSpec, a: Answers)
    requires key !in j.pods
    ensures var (after, outcome) := Launched(j, key, pod, a);
            var orphaned := a.parses && (a.pod.Lost?
                              || (a.pod.Applied? && (!a.service.Applied? || key in j.services) && a.cleanup.Failed?));
            && (key in after.pods <==> outcome == Created || orphaned)
            && (orphaned ==> outcome == NotCreated)
            && after.pods - {key} == j.pods
            && after.services - {key} == j.services - {key}
  {
  }

  /** A creation that did not succeed leaves its pod running exactly when it is orphaned, and whatever the
      outcome, no other job is touched. */
  lemma PodRemains(j: Jobs, isolation: bool, jobID: string, r: JobSpec, a: Answers)
    requires JobKey(Home(isolation, r.userID), jobID) !in j.pods
    ensures var (after, outcome) := JobCreated(j, isolation, jobID, r, a);
            var key := JobKey(Home(isolation, r.userID), jobID);
            && (key in after.pods <==> outcome == Created || Orphaned(j, isolation, jobID, r, a))
            && (Orphaned(j, isolation, jobID, r, a) ==> outcome == NotCreated)
            && after.pods - {key} == j.pods
            && after.services - {key} == j.services - {key}
  {
    HousedWhenReady(j.tenants, isolation, r, a);
    hide Launched, Home, PodOf, Housed, TenantReady, Isolated;
    var key := JobKey(Home(isolation, r.userID), jobID);
    assert j.pods - {key} == j.pods;
    LaunchedPod(j.(tenants := Housed(j.tenants, isolation, r, a).0), key, PodOf(r), a);
  }

  /** A deletion reports success exactly when the pod was there and its deletion was acknowledged, and then the pod is
      gone. The service goes whenever its deletion takes effect. Nothing else in the cluster changes. */
  lemma DeletedIsGone(j: Jobs, key: JobKey, service: Api, pod: Api)
    ensures var (after, ok) := JobDeleted(j, key, service, pod);
            && (ok <==> key in j.pods && pod.Applied?)
            && (ok ==> key !in after.pods)
            && (pod.Failed? ==> after.pods == j.pods) && (pod.Lost? ==> key !in after.pods)
            && (if service.Failed? then after.services == j.services else key !in after.services)
            && after.pods - {key} == j.pods - {key}
            && after.services - {key} == j.services - {key}
            && after.tenants == j.tenants
  {
    var (after, _) := JobDeleted(j, key, service, pod);
    assert after.pods - {key} == j.pods - {key};
  }

  /** What a created job deletes again: creation followed by an acknowledged deletion leaves the pods and services
      as they were. */
  lemma CreatedThenDeleted(j: Jobs, isolation: bool, jobID: string, r: JobSpec, a: Answers)
    requires JobCreated(j, isolation, jobID, r, a).1 == Created
    ensures var after, key := JobCreated(j, isolation, jobID, r, a).0, JobKey(Home(isolation, r.userID), jobID);
            var (back, ok) := JobDeleted(after, key, Applied, Applied);
            ok && back.pods == j.pods && back.services == j.services
  {
    OutcomeOf(j, isolation, jobID, r, a);
    PodRemains(j, isolation, jobID, r, a);
    hide JobCreated, Home, TenantReady;
  }

  /** The resources of a pod are the request's, with one GPU, two cores and 8Gi where it leaves them out, and Gi added
      to a memory size without a binary suffix. */
  lemma PodGetsWhatIsAsked(r: JobSpec)
    ensures PodOf(r).cpuCores == if r.cpuCores == "" then "2" else r.cpuCores
    ensures PodOf(r).gpus == Shown(if r.gpuCount < 1 then 1 else r.gpuCount)
    ensures PodOf(r).memory == if r.memoryGB == "" then "8Gi"
                               else if 2 <= |r.memoryGB| && r.memoryGB[|r.memoryGB| - 1] == 'i'
                                       && r.memoryGB[|r.memoryGB| - 2] in {'G', 'M'} then r.memoryGB
                               else r.memoryGB + "Gi"
  {
    SuffixByChars(r.memoryGB);
    hide HasSuffix;
  }

  /** A new tenant's first job sets its quota to what the request asks for, and opens the ports for Jupyter and for
      Postgres. */
  lemma FirstJobSetsTheTenantUp(j: Jobs, isolation: bool, jobID: string, r: JobSpec, a: Answers)
    requires Isolated(isolation, r.userID) && "tenant-" + r.userID !in j.tenants
    requires JobCreated(j, isolation, jobID, r, a).1 == Created
    ensures var after := JobCreated(j, isolation, jobID, r, a).0;
            after.tenants == j.tenants["tenant-" + r.userID :=
              Tenants.Namespace(Some(Tenants.Quota(r.gpuCount, r.cpuCores, r.memoryGB)), true, Some(8888), Some(5432))]
  {
    Tenants.NewTenantGets(j.tenants, ConfigOf(r), a.tenant);
    hide PodOf, Tenants.Create;
  }

  /** The first job of a tenant that leaves the CPU or the memory to the defaults always panics. */
  lemma FirstJobPanics(j: Jobs, isolation: bool, jobID: string, r: JobSpec, a: Answers)
    requires Isolated(isolation, r.userID) && Tenants.NamespaceName(r.userID) !in j.tenants
    requires r.cpuCores == "" || r.memoryGB == ""
    requires a.checked && a.tenant.namespace.Applied? && Tenants.ParserAnswer(ConfigOf(r).quota, a.tenant)
    ensures JobCreated(j, isolation, jobID, r, a).1 == Panicked
  {
  }

  // ---------------------------------------------------------------- the manager

  class JobManager {
    const tenants: Tenants.TenantManager
    const isolation: bool
    var pods: map<JobKey, PodSpec>
    var services: set<JobKey>

    constructor (tenants: Tenants.TenantManager)
      ensures this.tenants == tenants && isolation && pods == map[] && services == {}
    {
      this.tenants, isolation, pods, services := tenants, true, map[], {};
    }

    function View(): Jobs
      reads this, tenants
    {
      Jobs(tenants.namespaces, pods, services)
    }

    method EnsureTenant(r: JobSpec, a: Answers) returns (stopped: Option<Outcome>)
      modifies tenants
      ensures (tenants.namespaces, stopped) == Housed(old(tenants.namespaces), isolation, r, a)
    {
      if !(isolation && r.userID != "" && r.userID != "anonymous") {
        return None;
      }
      if !a.checked {
        return Some(NotCreated);
      }
      var exists_ := tenants.TenantExists(r.userID);
      if !exists_ {
        var ending := tenants.CreateTenantEnvironment(ConfigOf(r), a.tenant);
        match ending {
          case Created => return None;
          case Refused => return Some(NotCreated);
          case Panicked => return Some(Panicked);
        }
      }
      return None;
    }

    method CreateGPUJob(jobID: string, r: JobSpec, a: Answers) returns (outcome: Outcome)
      modifies this, tenants
      ensures (View(), outcome) == JobCreated(old(View()), isolation, jobID, r, a)
    {
      hide Housed;
      var stopped := EnsureTenant(r, a);
      if stopped.Some? {
        return stopped.value;
      }
      var gpuCount, cpuCores, memory := r.gpuCount, r.cpuCores, r.memoryGB;
      if gpuCount <= 0 {
        gpuCount := 1;
      }
      if cpuCores == "" {
        cpuCores := "2";
      }
      if memory == "" {
        memory := "8Gi";
      } else if !HasSuffix(memory, "Gi") && !HasSuffix(memory, "Mi") {
        memory := memory + "Gi";
      }
      var key := JobKey(Home(isolation, r.userID), jobID);
      outcome := Launch(key, PodSpec(Shown(gpuCount), cpuCores, memory), a);
    }

    method Launch(key: JobKey, pod: PodSpec, a: Answers) returns (outcome: Outcome)
      modifies this
      ensures (View(), outcome) == Launched(old(View()), key, pod, a)
    {
      if !a.parses {
        return Panicked;
      }
      if key in pods || a.pod.Failed? {
        return NotCreated;
      }
      pods := pods[key := pod];
      if !a.pod.Applied? {
        return NotCreated;
      }
      var served := a.service.Applied? && key !in services;
      if !a.service.Failed? {
        services := services + {key};
      }
      if !served {
        if !a.cleanup.Failed? {
          pods := pods - {key};
        }
        return NotCreated;
      }
      return Created;
    }

    method DeleteJob(jobID: string, userID: string, service: Api, pod: Api) returns (ok: bool)
      modifies this
      ensures (View(), ok) == JobDeleted(old(View()), JobKey(Home(isolation, userID), jobID), service, pod)
    {
      var key := JobKey(Home(isolation, userID), jobID);
      if !service.Failed? {
        services := services - {key};
      }
      ok := pod.Applied? && key in pods;
      if !pod.Failed? {
        pods := pods - {key};
      }
    }
  }
}
