/** Which pod a backup follows, and which events wake it up (internal/controller/kopiabackup/reconciler.go). */
module Placement {
  import opened Naming
  import opened Repositories
  import opened Resources

  datatype Phase = Pending | Running | Succeeded | PodFailed | Unknown

  datatype Volume = Claim(claimName: string) | OtherSource

  datatype Pod = Pod(namespace: string, name: string, phase: Phase, nodeName: string, appName: string,
                     volumes: seq<Volume>, tolerations: seq<Toleration>)

  /** `DedicatedNodes` tolerates every `dedicated` taint with effect NoSchedule. */
  datatype Toleration = DedicatedNodes | OfPod(description: string)

  datatype PodPlacement = PodPlacement(nodeName: string, appName: string, podName: string, tolerations: seq<Toleration>)

  const NOWHERE: PodPlacement := PodPlacement("", "", "", [])

  /** Backup job pods carry the CronJob prefix. */
  predicate JobPod(p: Pod) {
    CRONJOB_PREFIX <= p.name
  }

  predicate Mounts(p: Pod, pvc: string) {
    Claim(pvc) in p.volumes
  }

  /** A running workload pod that mounts the claim. */
  predicate Uses(p: Pod, pvc: string) {
    p.phase == Running && !JobPod(p) && Mounts(p, pvc)
  }

  function PlacementOf(p: Pod): PodPlacement {
    PodPlacement(p.nodeName, p.appName, p.name, p.tolerations)
  }

  /** Node, application, name and tolerations are those of the pod. */
  predicate Follows(r: PodPlacement, p: Pod) {
    r.nodeName == p.nodeName && r.appName == p.appName && r.podName == p.name && r.tolerations == p.tolerations
  }

  /** `findPodUsingPVC`: the first such pod in list order; a failed list counts as no pod. */
  method FindPodUsingPVC(listed: Reply<seq<Pod>>, pvc: string) returns (r: PodPlacement)
    ensures listed.Failed? ==> r == PodPlacement("", "", "", [])
    ensures listed.Ok? && (forall p :: p in listed.value ==> !Uses(p, pvc)) ==> r == PodPlacement("", "", "", [])
    ensures listed.Ok? && (exists p :: p in listed.value && Uses(p, pvc)) ==>
              exists i :: 0 <= i < |listed.value| && Uses(listed.value[i], pvc) && Follows(r, listed.value[i])
                          && forall j :: 0 <= j < i ==> !Uses(listed.value[j], pvc)
    ensures r == First(listed, pvc)
  {
    if listed.Failed? { return NOWHERE; }
    var pods := listed.value;
    for i := 0 to |pods|
      invariant forall j :: 0 <= j < i ==> !Uses(pods[j], pvc)
      invariant FirstFrom(pods, pvc, 0) == FirstFrom(pods, pvc, i)
    {
      var pod := pods[i];
      if pod.phase != Running || JobPod(pod) { continue; }
      for v := 0 to |pod.volumes|
        invariant Claim(pvc) !in pod.volumes[..v]
      {
        if pod.volumes[v].Claim? && pod.volumes[v].claimName == pvc {
          assert pod.volumes[v] == Claim(pvc);
          return PlacementOf(pod);
        }
        assert pod.volumes[..v + 1] == pod.volumes[..v] + [pod.volumes[v]];
      }
      assert pod.volumes[..|pod.volumes|] == pod.volumes;
    }
    return NOWHERE;
  }

  function FirstFrom(pods: seq<Pod>, pvc: string, i: nat): PodPlacement
    requires i <= |pods|
    decreases |pods| - i
  {
    if i == |pods| then NOWHERE
    else if Uses(pods[i], pvc) then PlacementOf(pods[i])
    else FirstFrom(pods, pvc, i + 1)
  }

  function First(listed: Reply<seq<Pod>>, pvc: string): PodPlacement {
    if listed.Failed? then NOWHERE else FirstFrom(listed.value, pvc, 0)
  }

  // --- Watches ---

  datatype PodEvent = Created(pod: Pod) | Updated(before: Pod, pod: Pod) | Deleted(pod: Pod)

  /** `podRunningPredicate` */
  predicate Passes(e: PodEvent) {
    match e
    case Created(pod) => pod.phase == Running
    case Updated(before, pod) =>
      (before.phase != Running && pod.phase == Running) || (before.nodeName == "" && pod.nodeName != "")
    case Deleted(_) => false
  }

  /** What passes is news: a pod that runs at last, or one that changed its phase or its node. */
  lemma NewsPasses(e: PodEvent)
    ensures Passes(e) ==> !e.Deleted?
    ensures Passes(e) && e.Created? ==> e.pod.phase == Running
    ensures Passes(e) && e.Updated? ==>
              (e.pod.phase == Running && e.before.phase != Running) || (e.pod.nodeName != "" && e.before.nodeName == "")
  {
  }

  /** What an event does to the pods of a namespace; names and volumes of a pod never change. */
  predicate Happens(e: PodEvent, pods: set<Pod>, pods': set<Pod>) {
    match e
    case Created(pod) => pods' == pods + {pod}
    case Updated(before, pod) =>
      && before in pods && pods' == pods - {before} + {pod}
      && pod.name == before.name && pod.namespace == before.namespace && pod.volumes == before.volumes
    case Deleted(pod) => pod in pods && pods' == pods - {pod}
  }

  datatype Backup = Backup(namespace: string, name: string, pvcName: string, repository: string)

  datatype Request = Request(namespace: string, name: string)

  function RequestFor(b: Backup): Request {
    Request(b.namespace, b.name)
  }

  /** The two indexed fields of a backup. */
  datatype Field = PvcName | RepositoryName

  function FieldOf(b: Backup, f: Field): string {
    if f.PvcName? then b.pvcName else b.repository
  }

  /** Field-indexed list within a namespace; an empty field is not indexed. */
  function ByField(all: seq<Backup>, namespace: string, f: Field, value: string): seq<Backup> {
    if all == [] then []
    else
      var b := all[|all| - 1];
      ByField(all[..|all| - 1], namespace, f, value)
      + if b.namespace == namespace && FieldOf(b, f) == value && value != "" then [b] else []
  }

  lemma {:induction false} ByFieldMembers(all: seq<Backup>, namespace: string, f: Field, value: string)
    ensures forall b :: b in ByField(all, namespace, f, value) <==>
                        b in all && b.namespace == namespace && FieldOf(b, f) == value && value != ""
  {
    if all != [] {
      ByFieldMembers(all[..|all| - 1], namespace, f, value);
      assert all == all[..|all| - 1] + [all[|all| - 1]];
    }
  }

  /** Whether a request for `b` is due to one of the first `n` volumes of the pod. */
  ghost predicate DueTo(b: Backup, pod: Pod, lists: seq<bool>, n: nat)
    requires |lists| == |pod.volumes| && n <= |lists|
  {
    exists v :: 0 <= v < n && lists[v] && pod.volumes[v] == Claim(b.pvcName) && b.pvcName != ""
                && b.namespace == pod.namespace
  }

  /**
   * `findBackupsForPod`: every backup of the pod's namespace whose claim the pod mounts, job pods
   * excepted. `lists[v]` says whether the list for volume `v` succeeds.
   */
  method FindBackupsForPod(pod: Pod, all: seq<Backup>, lists: seq<bool>) returns (requests: seq<Request>)
    requires |lists| == |pod.volumes|
    ensures forall q :: q in requests <==>
              && !("snapshot-" <= pod.name)
              && exists b :: b in all && q == Request(b.namespace, b.name) && DueTo(b, pod, lists, |lists|)
  {
    requests := [];
    if JobPod(pod) { return; }
    for v := 0 to |pod.volumes|
      invariant forall q :: q in requests <==> exists b :: b in all && q == RequestFor(b) && DueTo(b, pod, lists, v)
    {
      ghost var before := requests;
      var vol := pod.volumes[v];
      if vol.Claim? && lists[v] {
        var backups := ByField(all, pod.namespace, PvcName, vol.claimName);
        ByFieldMembers(all, pod.namespace, PvcName, vol.claimName);
        for k := 0 to |backups|
          invariant forall q :: q in requests <==> q in before || exists j :: 0 <= j < k && q == RequestFor(backups[j])
        {
          requests := requests + [RequestFor(backups[k])];
        }
        forall q ensures q in requests <==> exists b :: b in all && q == RequestFor(b) && DueTo(b, pod, lists, v + 1) {
          if exists b :: b in all && q == RequestFor(b) && DueTo(b, pod, lists, v + 1) {
            var b :| b in all && q == RequestFor(b) && DueTo(b, pod, lists, v + 1);
            if !DueTo(b, pod, lists, v) {
              assert b in backups;
            }
          }
          if q in requests && q !in before {
            var j :| 0 <= j < |backups| && q == RequestFor(backups[j]);
            assert backups[j] in backups;
            assert DueTo(backups[j], pod, lists, v + 1);
          }
          if q in before {
            var b :| b in all && q == RequestFor(b) && DueTo(b, pod, lists, v);
            assert DueTo(b, pod, lists, v + 1);
          }
        }
      } else {
        forall b ensures DueTo(b, pod, lists, v) <==> DueTo(b, pod, lists, v + 1) {
        }
      }
    }
  }

  /** With working lists a non-empty claim is due exactly when the pod mounts it. */
  lemma DueIff(b: Backup, pod: Pod, lists: seq<bool>)
    requires |lists| == |pod.volumes| && forall v :: 0 <= v < |lists| ==> lists[v]
    ensures DueTo(b, pod, lists, |lists|) <==> Mounts(pod, b.pvcName) && b.pvcName != "" && b.namespace == pod.namespace
  {
  }

  lemma {:induction false} FirstMeaning(pods: seq<Pod>, pvc: string, i: nat)
    requires i <= |pods|
    ensures FirstFrom(pods, pvc, i).nodeName != "" ==>
              exists k :: i <= k < |pods| && Uses(pods[k], pvc) && pods[k].nodeName != ""
    ensures (exists k :: i <= k < |pods| && Uses(pods[k], pvc)) ==>
              exists k :: i <= k < |pods| && Uses(pods[k], pvc) && FirstFrom(pods, pvc, i) == PlacementOf(pods[k])
    decreases |pods| - i
  {
    if i < |pods| && !Uses(pods[i], pvc) {
      FirstMeaning(pods, pvc, i + 1);
    }
  }

  /** No running pod lacks a node. */
  predicate RunningHaveNodes(pods: set<Pod>) {
    forall p :: p in pods && p.phase == Running ==> p.nodeName != ""
  }

  /** The running users of the claim all have nodes or all lack them. */
  predicate Uniform(pods: set<Pod>, pvc: string) {
    || (forall p :: p in pods && Uses(p, pvc) ==> p.nodeName != "")
    || (forall p :: p in pods && Uses(p, pvc) ==> p.nodeName == "")
  }

  /** A listing of the pods, in any order. */
  ghost predicate ListsPods(l: seq<Pod>, pods: set<Pod>) {
    forall p :: p in l <==> p in pods
  }

  /** A single event takes the claim from no node to a node, under the given list orders. */
  ghost predicate Gains(e: PodEvent, pods: set<Pod>, pods': set<Pod>, l: seq<Pod>, l': seq<Pod>, pvc: string) {
    && Happens(e, pods, pods') && ListsPods(l, pods) && ListsPods(l', pods')
    && First(Ok(l), pvc).nodeName == "" && First(Ok(l'), pvc).nodeName != ""
  }

  /** While no node is found, no user of the claim has one. */
  lemma UsersLackNodes(pods: set<Pod>, l: seq<Pod>, pvc: string, p: Pod)
    requires ListsPods(l, pods) && Uniform(pods, pvc) && First(Ok(l), pvc).nodeName == "" && p in pods && Uses(p, pvc)
    ensures p.nodeName == ""
  {
    FirstMeaning(l, pvc, 0);
    var j :| 0 <= j < |l| && l[j] == p;
    var i :| 0 <= i < |l| && Uses(l[i], pvc) && First(Ok(l), pvc) == PlacementOf(l[i]);
    assert l[i] in pods;
  }

  /** The pod that brings the node is the one of the event, and the event passes. */
  lemma GainPasses(e: PodEvent, pods: set<Pod>, pods': set<Pod>, l: seq<Pod>, l': seq<Pod>, pvc: string)
    requires Gains(e, pods, pods', l, l', pvc) && Uniform(pods, pvc)
    ensures Passes(e) && Uses(e.pod, pvc)
  {
    FirstMeaning(l', pvc, 0);
    var k :| 0 <= k < |l'| && Uses(l'[k], pvc) && l'[k].nodeName != "";
    var p := l'[k];
    assert p in pods';
    if p in pods { UsersLackNodes(pods, l, pvc, p); }
    assert p == e.pod;
    if e.Updated? && e.before.phase == Running {
      UsersLackNodes(pods, l, pvc, e.before);
    }
  }

  lemma {:induction false} SomeListing(pods: set<Pod>) returns (l: seq<Pod>)
    ensures ListsPods(l, pods)
  {
    if pods == {} {
      l := [];
    } else {
      var p :| p in pods;
      l := SomeListing(pods - {p});
      l := [p] + l;
    }
  }

  /** Otherwise the deletion of a node-less user uncovers a node without an event that passes. */
  lemma DeletionUnnoticed(pods: set<Pod>, a: Pod, c: Pod, pvc: string)
    returns (e: PodEvent, pods': set<Pod>, l: seq<Pod>, l': seq<Pod>)
    requires a in pods && c in pods && Uses(a, pvc) && Uses(c, pvc) && a.nodeName == "" && c.nodeName != ""
    ensures Gains(e, pods, pods', l, l', pvc) && !Passes(e)
  {
    e, pods' := Deleted(a), pods - {a};
    l := SomeListing(pods);
    l' := SomeListing(pods');
    l, l' := [a] + l, [c] + l';
    assert l[0] == a && l'[0] == c;
  }

  /**
   * Every single pod event that takes a claim from no node to a node, whatever the list orders, passes
   * the predicate exactly when the running users of the claim all have nodes or all lack them.
   */
  lemma GainsNoticedIff(pods: set<Pod>, pvc: string)
    ensures (forall e, pods', l, l' :: Gains(e, pods, pods', l, l', pvc) ==> Passes(e)) <==> Uniform(pods, pvc)
  {
    if Uniform(pods, pvc) {
      forall e, pods', l, l' | Gains(e, pods, pods', l, l', pvc) ensures Passes(e) {
        GainPasses(e, pods, pods', l, l', pvc);
      }
    } else {
      var a :| a in pods && Uses(a, pvc) && a.nodeName == "";
      var c :| c in pods && Uses(c, pvc) && c.nodeName != "";
      var e, pods', l, l' := DeletionUnnoticed(pods, a, c, pvc);
    }
  }

  /** And with working lists its pod leads to the backup. */
  lemma WakesUp(e: PodEvent, pods: set<Pod>, pods': set<Pod>, l: seq<Pod>, l': seq<Pod>, b: Backup, lists: seq<bool>)
    requires Gains(e, pods, pods', l, l', b.pvcName) && Uniform(pods, b.pvcName)
    requires b.pvcName != "" && e.pod.namespace == b.namespace
    requires |lists| == |e.pod.volumes| && forall v :: 0 <= v < |lists| ==> lists[v]
    ensures Passes(e) && !JobPod(e.pod) && DueTo(b, e.pod, lists, |lists|)
  {
    GainPasses(e, pods, pods', l, l', b.pvcName);
    DueIff(b, e.pod, lists);
  }

  /** With nodes on all running pods, no node is found exactly when no pod uses the claim. */
  lemma NoNodeIff(l: seq<Pod>, pods: set<Pod>, pvc: string)
    requires RunningHaveNodes(pods) && ListsPods(l, pods)
    ensures First(Ok(l), pvc).nodeName == "" <==> forall p :: p in pods ==> !Uses(p, pvc)
  {
    FirstMeaning(l, pvc, 0);
    if exists i :: 0 <= i < |l| && Uses(l[i], pvc) {
      var i :| 0 <= i < |l| && Uses(l[i], pvc) && First(Ok(l), pvc) == PlacementOf(l[i]);
      assert l[i] in pods;
    }
  }

  /** `findBackupsForField`: the backups of the object's namespace that name it in the field. */
  method FindBackupsForField(f: Field, namespace: string, name: string, all: seq<Backup>, listOk: bool)
    returns (requests: seq<Request>)
    ensures forall q :: q in requests <==>
              && listOk && name != ""
              && exists b :: b in all && q == Request(b.namespace, b.name) && b.namespace == namespace
                             && (if f.PvcName? then b.pvcName else b.repository) == name
  {
    requests := [];
    if !listOk { return; }
    var listed := ByField(all, namespace, f, name);
    ByFieldMembers(all, namespace, f, name);
    for i := 0 to |listed|
      invariant forall q :: q in requests <==> exists j :: 0 <= j < i && q == RequestFor(listed[j])
    {
      requests := requests + [RequestFor(listed[i])];
    }
    forall q ensures q in requests <==>
        name != "" && exists b :: b in all && q == RequestFor(b) && b.namespace == namespace && FieldOf(b, f) == name
    {
      if q in requests {
        var j :| 0 <= j < |listed| && q == RequestFor(listed[j]);
        assert listed[j] in listed;
      }
    }
  }

  /** The backups the repository watch enqueues. */
  predicate WatchedBy(b: Backup, repo: Repository) {
    b.namespace == repo.namespace && FieldOf(b, RepositoryName) == repo.name && repo.name != ""
  }

  /** A backup that resolves to a repository is woken by its changes exactly when both share a namespace. */
  lemma WatchCoversIff(b: Backup, repo: Repository, local: Reply<Repository>, items: seq<Repository>,
                       cluster: set<Repository>)
    requires Lists(items, cluster) && LocalReply(local, cluster, b.repository, b.namespace)
    requires b.repository != "" && Resolve(local, Ok(items), b.repository) == Found(repo)
    ensures WatchedBy(b, repo) <==> b.namespace == repo.namespace
  {
    ResolveMeaning(local, items, cluster, b.repository, b.namespace);
    if local.Failed? {
      assert repo in Named(cluster, b.repository);
    }
  }
}
