/** GPU job pods as the orchestrator sees them. */
module Pods {
  import opened Wrappers

  /** The information extracted from a pod; expiresAt is None when the annotation is absent or unreadable. */
  datatype PodInfo = PodInfo(
    jobID: string,
    namespace: string,
    providerID: string,
    status: string,
    gpuCount: int,
    cpuCores: int,
    memoryMB: int,
    gpuModel: string,
    expiresAt: Option<int>)

  predicate Terminated(p: PodInfo) {
    p.status == "Failed" || p.status == "Succeeded"
  }

  predicate Expired(p: PodInfo, now: int) {
    p.expiresAt.Some? && now > p.expiresAt.value
  }

  /** The sweeper cleans up pods that are past their expiry or have terminated. */
  predicate Due(p: PodInfo, now: int) {
    Expired(p, now) || Terminated(p)
  }

  /** A pod that carries something to give back. */
  predicate Creditable(p: PodInfo) {
    p.providerID != "" && (p.gpuCount > 0 || p.cpuCores > 0 || p.memoryMB > 0)
  }

  function Unterminated(pods: seq<PodInfo>): (live: seq<PodInfo>)
    ensures forall p :: p in live <==> p in pods && !Terminated(p)
  {
    if pods == [] then [] else
      var rest := Unterminated(pods[..|pods| - 1]);
      var last := pods[|pods| - 1];
      assert forall p :: p in pods <==> p in pods[..|pods| - 1] || p == last;
      if Terminated(last) then rest else rest + [last]
  }

  /** ListGPUJobPods: the listing without the terminated pods, in order. */
  method ListLive(items: seq<PodInfo>) returns (result: seq<PodInfo>)
    ensures result == Unterminated(items)
    ensures forall p :: p in result <==> p in items && p.status != "Failed" && p.status != "Succeeded"
  {
    result := [];
    for i := 0 to |items|
      invariant result == Unterminated(items[..i])
    {
      assert items[..i + 1][..i] == items[..i];
      if !Terminated(items[i]) {
        result := result + [items[i]];
      }
    }
    assert items[..|items|] == items;
  }
}
