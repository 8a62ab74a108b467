/** Tenant provisioning: a namespace with its quota and three network policies, created in sequence,
    cleaned up on failure, and skipped when the namespace exists. */
module Tenants {
  import opened Wrappers

  datatype Quota = Quota(gpu: int, cpu: string, memory: string)

  /** A tenant namespace: its quota, and the three network policies with the ports they open. */
  datatype Namespace = Namespace(quota: Option<Quota>, internal: bool, ingress: Option<int>, egress: Option<int>)

  datatype TenantConfig = TenantConfig(userID: string, quota: Quota, jupyterPort: int, postgresPort: int)

  type Cluster = map<string, Namespace>

  /** What the environment answers during one provisioning: the ending of each API call, and whether MustParse
      accepts the quota's CPU and memory strings. */
  datatype Calls = Calls(namespace: Api, parses: bool, quota: Api, internal: Api, ingress: Api, egress: Api, cleanup: Api)

  /** The quantity parser rejects the empty string; beyond that it is not part of this model. */
  predicate ParserAnswer(q: Quota, calls: Calls) {
    calls.parses ==> q.cpu != "" && q.memory != ""
  }

  datatype Ending = Created | Refused | Panicked

  function NamespaceName(userID: string): string {
    "tenant-" + userID
  }

  /** Creating something that exists is no error and changes nothing. */
  function Put<T>(current: Option<T>, value: T, call: Api): Option<T> {
    if current.None? && !call.Failed? then Some(value) else current
  }

  function Delete(c: Cluster, name: string, call: Api): Cluster {
    if call.Failed? then c else c - {name}
  }

  /** The objects of one namespace after provisioning, and whether all calls were acknowledged. */
  function Provisioned(n: Namespace, cfg: TenantConfig, calls: Calls): (Namespace, bool) {
    var n1 := n.(quota := Put(n.quota, cfg.quota, calls.quota));
    if !calls.quota.Applied? then (n1, false)
    else
      var n2 := n1.(internal := n1.internal || !calls.internal.Failed?);
      if !calls.internal.Applied? then (n2, false)
      else
        var n3 := n2.(ingress := Put(n2.ingress, cfg.jupyterPort, calls.ingress));
        if !calls.ingress.Applied? then (n3, false)
        else (n3.(egress := Put(n3.egress, cfg.postgresPort, calls.egress)), calls.egress.Applied?)
  }

  /** CreateTenantEnvironment. An unparsable quota string panics after the namespace has been created. */
  function Create(c: Cluster, cfg: TenantConfig, calls: Calls): (Cluster, Ending) {
    var name := NamespaceName(cfg.userID);
    var n := if name in c then c[name] else Namespace(None, false, None, None);
    var named := if calls.namespace.Failed? then c else c[name := n];
    if !calls.namespace.Applied? then (named, Refused)
    else if !calls.parses then (named, Panicked)
    else
      var (objects, complete) := Provisioned(n, cfg, calls);
      if complete then (named[name := objects], Created)
      else (Delete(named[name := objects], name, calls.cleanup), Refused)
  }

  /** UpdateGPUQuota: an error without a quota, otherwise the two GPU entries are replaced. */
  function Update(c: Cluster, userID: string, gpu: int, call: Api): Cluster {
    var name := NamespaceName(userID);
    if name in c && c[name].quota.Some? && !call.Failed?
    then c[name := c[name].(quota := Some(c[name].quota.value.(gpu := gpu)))]
    else c
  }

  /** A fenced namespace has its quota and all three policies. */
  predicate Fenced(n: Namespace) {
    n.quota.Some? && n.internal && n.ingress.Some? && n.egress.Some?
  }

  predicate FenceHolds(c: Cluster) {
    forall name :: name in c ==> Fenced(c[name])
  }

  /** The provisionings that leave a namespace without its fence: an unacknowledged namespace creation is not
      cleaned up, a panic is not either, and a cleanup can fail before everything exists. */
  predicate Leaks(c: Cluster, cfg: TenantConfig, calls: Calls) {
    && NamespaceName(cfg.userID) !in c
    && match calls.namespace
       case Failed => false
       case Lost => true
       case Applied =>
         || !calls.parses
         || (calls.cleanup.Failed?
             && !(calls.quota.Applied? && calls.internal.Applied? && calls.ingress.Applied? && !calls.egress.Failed?))
  }

  /** From a fenced cluster, provisioning leads to a fenced cluster exactly when it does not leak. */
  lemma CreateKeepsFence(c: Cluster, cfg: TenantConfig, calls: Calls)
    requires FenceHolds(c)
    ensures FenceHolds(Create(c, cfg, calls).0) <==> !Leaks(c, cfg, calls)
    ensures Create(c, cfg, calls).1.Created? ==>
              NamespaceName(cfg.userID) in Create(c, cfg, calls).0 && Fenced(Create(c, cfg, calls).0[NamespaceName(cfg.userID)])
  {
    var name, after := NamespaceName(cfg.userID), Create(c, cfg, calls).0;
    if Leaks(c, cfg, calls) {
      assert name in after && !Fenced(after[name]);
    }
  }

  datatype TenantCall =
    | CreateCall(cfg: TenantConfig, calls: Calls)
    | DeleteCall(userID: string, call: Api)
    | UpdateCall(userID: string, gpu: int, call: Api)
    | JobCall(cfg: TenantConfig, calls: Calls, checked: bool)

  /** CreateGPUJob provisions the tenant only when the namespace is absent; checked is false when the
      existence check itself fails. */
  function JobTenant(c: Cluster, cfg: TenantConfig, calls: Calls, checked: bool): Cluster {
    if !checked || NamespaceName(cfg.userID) in c then c else Create(c, cfg, calls).0
  }

  function Perform(c: Cluster, call: TenantCall): Cluster {
    match call
    case CreateCall(cfg, calls) => Create(c, cfg, calls).0
    case DeleteCall(userID, api) => Delete(c, NamespaceName(userID), api)
    case UpdateCall(userID, gpu, api) => Update(c, userID, gpu, api)
    case JobCall(cfg, calls, checked) => JobTenant(c, cfg, calls, checked)
  }

  function PerformAll(c: Cluster, run: seq<TenantCall>): Cluster
    decreases |run|
  {
    if run == [] then c else PerformAll(Perform(c, run[0]), run[1..])
  }

  /** No call of the run leaks. */
  predicate Tight(c: Cluster, run: seq<TenantCall>)
    decreases |run|
  {
    run == [] ||
    (&& (run[0].CreateCall? ==> !Leaks(c, run[0].cfg, run[0].calls))
     && (run[0].JobCall? && run[0].checked ==> !Leaks(c, run[0].cfg, run[0].calls))
     && Tight(Perform(c, run[0]), run[1..]))
  }

  /** Every tenant namespace is fenced, before the run and after each of its calls. */
  predicate FencedThroughout(c: Cluster, run: seq<TenantCall>)
    decreases |run|
  {
    FenceHolds(c) && (run == [] || FencedThroughout(Perform(c, run[0]), run[1..]))
  }

  /** Over a run an existing tenant namespace always has its quota and its three policies, so that skipping
      provisioning when the namespace exists is sound, exactly when no call of the run leaks. */
  lemma {:induction false} FenceOverRuns(c: Cluster, run: seq<TenantCall>)
    requires FenceHolds(c)
    ensures FencedThroughout(c, run) <==> Tight(c, run)
    decreases |run|
  {
    if run != [] {
      match run[0] {
        case CreateCall(cfg, calls) => CreateKeepsFence(c, cfg, calls);
        case JobCall(cfg, calls, _) => CreateKeepsFence(c, cfg, calls);
        case _ =>
      }
      if FenceHolds(Perform(c, run[0])) {
        FenceOverRuns(Perform(c, run[0]), run[1..]);
      }
      hide Perform, FenceHolds, Leaks;
    }
  }

  /** Provisioning an existing tenant again keeps every object as it is, unless one of the later calls is not
      acknowledged: then the cleanup deletes the whole tenant that was there before. */
  lemma RepeatedCreation(c: Cluster, cfg: TenantConfig, calls: Calls)
    requires NamespaceName(cfg.userID) in c && Fenced(c[NamespaceName(cfg.userID)])
    ensures var complete := calls.quota.Applied? && calls.internal.Applied? && calls.ingress.Applied? && calls.egress.Applied?;
            Create(c, cfg, calls).0 ==
              if calls.namespace.Applied? && calls.parses && !complete && !calls.cleanup.Failed?
              then c - {NamespaceName(cfg.userID)} else c
  {
  }

  /** The tenant configuration of a job takes the request's strings before their defaults are filled in: a new
      tenant's first job that leaves the CPU or the memory out always leaks. */
  lemma FirstJobWithDefaultsLeaks(c: Cluster, cfg: TenantConfig, calls: Calls)
    requires FenceHolds(c) && NamespaceName(cfg.userID) !in c
    requires cfg.quota.cpu == "" || cfg.quota.memory == ""
    requires calls.namespace.Applied? && ParserAnswer(cfg.quota, calls)
    ensures Create(c, cfg, calls).1 == Panicked && !FenceHolds(JobTenant(c, cfg, calls, true))
  {
    CreateKeepsFence(c, cfg, calls);
  }

  /** What a provisioning without cleanup leaves of a new tenant: each object whose call took effect, up to the first call
      that was not acknowledged; the bare namespace, when creating it was not, or the quota did not parse. It succeeds
      exactly when every call was acknowledged. */
  lemma PartlyProvisioned(c: Cluster, cfg: TenantConfig, calls: Calls)
    requires NamespaceName(cfg.userID) !in c && !calls.namespace.Failed?
    ensures var (after, ending) := Create(c, cfg, calls);
            var name := "tenant-" + cfg.userID;
            var begun := calls.namespace.Applied? && calls.parses;
            var q := begun && calls.quota.Applied?;
            var i := q && calls.internal.Applied?;
            var j := i && calls.ingress.Applied?;
            && (ending == Created <==> j && calls.egress.Applied?)
            && (ending == Panicked <==> calls.namespace.Applied? && !calls.parses)
            && (if begun && ending != Created && !calls.cleanup.Failed? then after == c
                else after == c[name := Namespace(if begun && !calls.quota.Failed? then Some(cfg.quota) else None,
                                                  q && !calls.internal.Failed?,
                                                  if i && !calls.ingress.Failed? then Some(cfg.jupyterPort) else None,
                                                  if j && !calls.egress.Failed? then Some(cfg.postgresPort) else None)])
  {
    var name := NamespaceName(cfg.userID);
    assert name == "tenant-" + cfg.userID;
    var bare := Namespace(None, false, None, None);
    assert c[name := bare][name := Provisioned(bare, cfg, calls).0] - {name} == c;
  }

  /** A new tenant whose provisioning succeeds gets the quota and the ports it was configured with: the first port is
      opened for ingress, the second for egress. No other tenant is touched by any provisioning. */
  lemma NewTenantGets(c: Cluster, cfg: TenantConfig, calls: Calls)
    ensures var (after, ending) := Create(c, cfg, calls);
            && (ending == Created && NamespaceName(cfg.userID) !in c ==>
                  after == c[NamespaceName(cfg.userID) := Namespace(Some(cfg.quota), true, Some(cfg.jupyterPort), Some(cfg.postgresPort))])
            && after - {NamespaceName(cfg.userID)} == c - {NamespaceName(cfg.userID)}
  {
    var name, after := NamespaceName(cfg.userID), Create(c, cfg, calls).0;
    assert after - {name} == c - {name};
  }

  /** An update changes the GPU entry of an existing quota and nothing else; without a quota it changes nothing. */
  lemma UpdateChangesTheQuota(c: Cluster, userID: string, gpu: int, call: Api)
    ensures var after, name := Update(c, userID, gpu, call), "tenant-" + userID;
            && after.Keys == c.Keys
            && (forall k :: k in c && k != name ==> after[k] == c[k])
            && (name in c ==>
                  if c[name].quota.Some? && !call.Failed?
                  then after[name] == c[name].(quota := Some(Quota(gpu, c[name].quota.value.cpu, c[name].quota.value.memory)))
                  else after[name] == c[name])
  {
  }

  /** A deletion that takes effect removes the whole tenant, and no other. */
  lemma DeleteRemovesTheTenant(c: Cluster, name: string, call: Api)
    ensures var after := Delete(c, name, call);
            if call.Failed? then after == c else name !in after && after.Keys == c.Keys - {name} && forall k :: k in after ==> after[k] == c[k]
  {
  }

  // ---------------------------------------------------------------- the manager

  class TenantManager {
    var namespaces: Cluster

    constructor ()
      ensures namespaces == map[]
    {
      namespaces := map[];
    }

    method TenantExists(userID: string) returns (exists_: bool)
      ensures exists_ == (NamespaceName(userID) in namespaces)
    {
      return NamespaceName(userID) in namespaces;
    }

    method CreateTenantEnvironment(cfg: TenantConfig, calls: Calls) returns (ending: Ending)
      modifies this
      ensures (namespaces, ending) == Create(old(namespaces), cfg, calls)
    {
      var name := NamespaceName(cfg.userID);
      if name !in namespaces && !calls.namespace.Failed? {
        namespaces := namespaces[name := Namespace(None, false, None, None)];
      }
      assert name in old(namespaces) ==> namespaces[name := namespaces[name]] == namespaces;
      if !calls.namespace.Applied? {
        return Refused;
      }
      if !calls.parses {
        return Panicked;
      }
      var complete := CreateObjects(name, cfg, calls);
      if !complete {
        var cleaned := DeleteNamespace(name, calls.cleanup);
        return Refused;
      }
      return Created;
    }

    /** Quota first, then the policies; the first call that is not acknowledged ends the sequence. */
    method CreateObjects(name: string, cfg: TenantConfig, calls: Calls) returns (complete: bool)
      requires name in namespaces
      modifies this
      ensures var (n, ok) := Provisioned(old(namespaces[name]), cfg, calls);
              namespaces == old(namespaces)[name := n] && complete == ok
    {
      ghost var before := namespaces;
      var n := namespaces[name];
      if n.quota.None? && !calls.quota.Failed? {
        n := n.(quota := Some(cfg.quota));
      }
      namespaces := namespaces[name := n];
      assert namespaces == before[name := n];
      if !calls.quota.Applied? {
        return false;
      }
      if !n.internal && !calls.internal.Failed? {
        n := n.(internal := true);
      }
      namespaces := namespaces[name := n];
      assert namespaces == before[name := n];
      if !calls.internal.Applied? {
        return false;
      }
      if n.ingress.None? && !calls.ingress.Failed? {
        n := n.(ingress := Some(cfg.jupyterPort));
      }
      namespaces := namespaces[name := n];
      assert namespaces == before[name := n];
      if !calls.ingress.Applied? {
        return false;
      }
      if n.egress.None? && !calls.egress.Failed? {
        n := n.(egress := Some(cfg.postgresPort));
      }
      namespaces := namespaces[name := n];
      assert namespaces == before[name := n];
      return calls.egress.Applied?;
    }

    method DeleteNamespace(name: string, call: Api) returns (ok: bool)
      modifies this
      ensures namespaces == Delete(old(namespaces), name, call) && ok == call.Applied?
    {
      if !call.Failed? {
        namespaces := namespaces - {name};
      }
      return call.Applied?;
    }

    method UpdateGPUQuota(userID: string, gpu: int, call: Api) returns (ok: bool)
      modifies this
      ensures namespaces == Update(old(namespaces), userID, gpu, call)
      ensures ok ==> call.Applied? && NamespaceName(userID) in namespaces
                     && namespaces[NamespaceName(userID)].quota.Some?
                     && namespaces[NamespaceName(userID)].quota.value.gpu == gpu
    {
      var name := NamespaceName(userID);
      if name !in namespaces || namespaces[name].quota.None? {
        return false;
      }
      if !call.Failed? {
        namespaces := namespaces[name := namespaces[name].(quota := Some(namespaces[name].quota.value.(gpu := gpu)))];
      }
      return call.Applied?;
    }
  }
}
