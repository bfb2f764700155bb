/**
 * Keeping stored objects equal to desired ones while the API server fills in defaults:
 * reconcileCronJob (internal/controller/kopiabackup/reconciler.go) compares with a snapshot taken
 * before it changes anything; EnsureServerService and EnsureServerDeployment
 * (internal/kopia/server/manager.go) compare differently. Defaulting is any idempotent function.
 */
module Drift {
  import opened Options
  import opened Resources
  import opened Text
  import opened Jobs
  import Naming

  ghost predicate Idempotent<T(!new)>(d: T -> T) {
    forall x :: d(d(x)) == d(x)
  }

  // --- CronJob ---

  /** The eleven fields the operator owns, pod labels and pod counting as one each. */
  datatype Owned = Owned(
    schedule: string, suspend: Option<bool>, concurrency: string, successful: Option<int>, failed: Option<int>,
    ttl: Option<int>, deadline: Option<int>, backoff: Option<int>, podLabels: PodLabels, pod: PodSpec,
    jobSuspend: Option<bool>)

  /** All other fields. */
  datatype Foreign = Foreign(jobLabels: JobLabels, timeZone: Option<string>, startingDeadline: Option<int>,
                             parallelism: Option<int>, completions: Option<int>, other: string)

  function OwnedOf(s: CronJobSpec): Owned {
    Owned(s.schedule, s.suspend, s.concurrency, s.successful, s.failed, s.job.ttl, s.job.deadline, s.job.backoff,
          s.job.podLabels, s.job.pod, s.job.suspend)
  }

  function ForeignOf(s: CronJobSpec): Foreign {
    Foreign(s.jobLabels, s.timeZone, s.startingDeadline, s.job.parallelism, s.job.completions, s.job.other)
  }

  /** The two parts make up the spec. */
  lemma PartsDetermine(s: CronJobSpec, t: CronJobSpec)
    ensures s == t <==> OwnedOf(s) == OwnedOf(t) && ForeignOf(s) == ForeignOf(t)
  {
  }

  /** Owned fields of `want`, all others of `s`. */
  function Merge(s: CronJobSpec, want: CronJobSpec): (r: CronJobSpec)
    ensures OwnedOf(r) == OwnedOf(want) && ForeignOf(r) == ForeignOf(s)
  {
    want.(jobLabels := s.jobLabels, timeZone := s.timeZone, startingDeadline := s.startingDeadline,
          job := want.job.(parallelism := s.job.parallelism, completions := s.job.completions, other := s.job.other))
  }

  /** What is stored after an undisturbed call that found `found`. */
  function Stored(d: CronJobSpec -> CronJobSpec, found: Option<CronJobSpec>, want: CronJobSpec): CronJobSpec {
    if found.None? then d(want)
    else if Merge(found.value, want) == found.value then found.value
    else d(Merge(found.value, want))
  }

  /** An existing object is written exactly when an owned field differs from the desired one. */
  lemma WritesIff(s: CronJobSpec, want: CronJobSpec)
    ensures Merge(s, want) == s <==> OwnedOf(s) == OwnedOf(want)
  {
    PartsDetermine(Merge(s, want), s);
  }

  /** Defaults of owned fields depend on owned fields only, likewise for the others. */
  ghost predicate Separate(d: CronJobSpec -> CronJobSpec) {
    && (forall s, t :: OwnedOf(s) == OwnedOf(t) ==> OwnedOf(d(s)) == OwnedOf(d(t)))
    && (forall s, t :: ForeignOf(s) == ForeignOf(t) ==> ForeignOf(d(s)) == ForeignOf(d(t)))
  }

  /** Schedule, suspension, policy, history limits and the job with its pod are those of `want`. */
  predicate TakenFrom(want: CronJobSpec, t: CronJobSpec) {
    && t.schedule == want.schedule && t.suspend == want.suspend && t.concurrency == want.concurrency
    && t.successful == want.successful && t.failed == want.failed
    && t.job.ttl == want.job.ttl && t.job.deadline == want.job.deadline && t.job.backoff == want.job.backoff
    && t.job.podLabels == want.job.podLabels && t.job.pod == want.job.pod && t.job.suspend == want.job.suspend
  }

  /** Everything else is as in `s`. */
  predicate KeptFrom(s: CronJobSpec, t: CronJobSpec) {
    && t.jobLabels == s.jobLabels && t.timeZone == s.timeZone && t.startingDeadline == s.startingDeadline
    && t.job.parallelism == s.job.parallelism && t.job.completions == s.job.completions && t.job.other == s.job.other
  }

  /**
   * Whatever was stored, the owned fields end up as those of the desired spec, defaults filled in; the others are kept.
   */
  lemma StoredParts(d: CronJobSpec -> CronJobSpec, s: CronJobSpec, want: CronJobSpec)
    requires Idempotent(d) && Separate(d) && d(s) == s
    ensures OwnedOf(Stored(d, Some(s), want)) == OwnedOf(d(want))
    ensures ForeignOf(Stored(d, Some(s), want)) == ForeignOf(s)
    ensures TakenFrom(d(want), Stored(d, Some(s), want)) && KeptFrom(s, Stored(d, Some(s), want))
  {
    var m := Merge(s, want);
    assert OwnedOf(m) == OwnedOf(want) && ForeignOf(m) == ForeignOf(s);
    assert OwnedOf(d(m)) == OwnedOf(d(want)) && ForeignOf(d(m)) == ForeignOf(d(s));
  }

  /** Filling in the defaults of the foreign fields first makes no difference. */
  ghost predicate Absorbs(d: CronJobSpec -> CronJobSpec) {
    forall s :: d(Merge(d(s), s)) == d(s)
  }

  ghost predicate SecondCallQuiet(d: CronJobSpec -> CronJobSpec) {
    forall found, want :: Stored(d, Some(Stored(d, found, want)), want) == Stored(d, found, want)
  }

  lemma MergeTwice(x: CronJobSpec, s: CronJobSpec, want: CronJobSpec)
    ensures Merge(x, Merge(s, want)) == Merge(x, want)
  {
    PartsDetermine(Merge(x, Merge(s, want)), Merge(x, want));
  }

  /** For idempotent defaulting, a second call never changes what is stored exactly when defaulting absorbs. */
  lemma SecondCallQuietIff(d: CronJobSpec -> CronJobSpec)
    requires Idempotent(d)
    ensures SecondCallQuiet(d) <==> Absorbs(d)
  {
    if Absorbs(d) {
      forall found: Option<CronJobSpec>, want
        ensures Stored(d, Some(Stored(d, found, want)), want) == Stored(d, found, want)
      {
        QuietOnce(d, found, want);
      }
    }
    if SecondCallQuiet(d) {
      forall s ensures d(Merge(d(s), s)) == d(s) {
        assert Stored(d, None, s) == d(s);
        assert Stored(d, Some(Stored(d, None, s)), s) == d(s);
      }
    }
  }

  lemma QuietOnce(d: CronJobSpec -> CronJobSpec, found: Option<CronJobSpec>, want: CronJobSpec)
    requires Absorbs(d)
    ensures Stored(d, Some(Stored(d, found, want)), want) == Stored(d, found, want)
  {
    if found.None? {
      assert d(Merge(d(want), want)) == d(want);
    } else {
      var m := Merge(found.value, want);
      MergeTwice(d(m), found.value, want);
      assert d(Merge(d(m), m)) == d(m);
    }
  }

  lemma SeparateAbsorbs(d: CronJobSpec -> CronJobSpec)
    requires Idempotent(d) && Separate(d)
    ensures Absorbs(d)
  {
    forall s ensures d(Merge(d(s), s)) == d(s) {
      var m := Merge(d(s), s);
      assert OwnedOf(m) == OwnedOf(s) && ForeignOf(m) == ForeignOf(d(s));
      assert OwnedOf(d(m)) == OwnedOf(d(s)) && ForeignOf(d(m)) == ForeignOf(d(d(s)));
      PartsDetermine(d(m), d(s));
    }
  }

  /** An idempotent defaulting in which a pod default depends on a foreign field. */
  function Entangled(s: CronJobSpec): CronJobSpec {
    if s.job.pod.other != "" then s
    else
      var filled := if s.job.parallelism.None? then "a" else "b";
      s.(job := s.job.(pod := s.job.pod.(other := filled), parallelism := Some(1)))
  }

  /** Idempotence alone is not enough: under this defaulting a second call changes the stored object. */
  lemma IdempotenceNotEnough(want: CronJobSpec)
    requires want.job.pod.other == "" && want.job.parallelism.None?
    ensures Idempotent(Entangled)
    ensures Stored(Entangled, Some(Stored(Entangled, None, want)), want) != Stored(Entangled, None, want)
  {
    var s := Stored(Entangled, None, want);
    assert s.job.pod.other == "a" && s.job.parallelism == Some(1);
    var m := Merge(s, want);
    assert OwnedOf(m).pod == OwnedOf(want).pod && ForeignOf(m).parallelism == ForeignOf(s).parallelism;
    assert m.job.pod.other == "" && m.job.parallelism == Some(1);
    assert Entangled(m).job.pod.other == "b";
  }

  /** A stored CronJob; `meta` stands for labels and owner, which an Update of the spec leaves alone. */
  datatype StoredJob = StoredJob(version: nat, meta: string, spec: CronJobSpec)

  /** The CronJobs of a namespace behind an API server that defaults whatever is written. */
  class CronJobs {
    const defaults: CronJobSpec -> CronJobSpec
    var jobs: map<string, StoredJob>
    var nextVersion: nat

    ghost predicate Valid()
      reads this
    {
      Idempotent(defaults) && forall k :: k in jobs ==> jobs[k].version < nextVersion
                                                        && defaults(jobs[k].spec) == jobs[k].spec
    }

    constructor (d: CronJobSpec -> CronJobSpec)
      requires Idempotent(d)
      ensures Valid() && jobs == map[] && defaults == d
    {
      defaults, jobs, nextVersion := d, map[], 0;
    }

    ghost predicate OthersKept(was: map<string, StoredJob>, name: string)
      reads this
    {
      forall k :: k != name ==> (k in jobs <==> k in was) && (k in was ==> jobs[k] == was[k])
    }

    /** A write reaches the store; one that changes nothing leaves the version alone. */
    method Put(name: string, meta: string, spec: CronJobSpec)
      requires Valid()
      modifies this`jobs, this`nextVersion
      ensures Valid() && OthersKept(old(jobs), name) && old(nextVersion) <= nextVersion
      ensures name in jobs && jobs[name].spec == defaults(spec) && jobs[name].meta == meta
      ensures name in old(jobs) && old(jobs[name]).meta == meta && old(jobs[name]).spec == defaults(spec) ==>
                jobs == old(jobs)
      ensures jobs == old(jobs) || jobs[name].version == old(nextVersion)
    {
      var s := defaults(spec);
      if name !in jobs || jobs[name].meta != meta || jobs[name].spec != s {
        jobs := jobs[name := StoredJob(nextVersion, meta, s)];
        nextVersion := nextVersion + 1;
      }
    }

    /** Others edit, delete or create the CronJob of this name, or do nothing. */
    method Interfere(name: string)
      requires Valid()
      modifies this`jobs, this`nextVersion
      ensures Valid() && OthersKept(old(jobs), name) && old(nextVersion) <= nextVersion
      ensures name in jobs ==> (name in old(jobs) && jobs[name] == old(jobs)[name])
                               || old(nextVersion) <= jobs[name].version
    {
      var edits: bool, deletes: bool := *, *;
      if deletes { jobs := jobs - {name}; }
      if edits {
        var meta: string, spec: CronJobSpec := *, *;
        Put(name, meta, spec);
      }
    }

    /**
     * reconcileCronJob for the CronJob of `pvcName`: the read succeeds if `get`, the write has outcome
     * `out`, and unless `quiet` others act in between. On success the store holds what the desired spec
     * makes of the object found there at the moment of the last call; others are never touched.
     */
    method Reconcile(pvcName: Bytes, meta: string, want: CronJobSpec, get: bool, out: Outcome, quiet: bool)
      returns (ok: bool, ghost was: Option<StoredJob>)
      requires Valid()
      modifies this`jobs, this`nextVersion
      ensures Valid() && OthersKept(old(jobs), Naming.CronJobName(pvcName))
      ensures var name := Naming.CronJobName(pvcName);
              quiet ==> (ok <==> get && (out.Done?
                                         || (name in old(jobs)
                                             && Merge(old(jobs[name]).spec, want) == old(jobs[name]).spec)))
      ensures var name := Naming.CronJobName(pvcName);
              quiet && ok ==> was == if name in old(jobs) then Some(old(jobs[name])) else None
      ensures ok && was.None? ==> Naming.CronJobName(pvcName) in jobs
                                  && jobs[Naming.CronJobName(pvcName)].meta == meta
                                  && jobs[Naming.CronJobName(pvcName)].spec == defaults(want)
      ensures ok && was.Some? ==>
        && defaults(was.value.spec) == was.value.spec
        && Naming.CronJobName(pvcName) in jobs
        && jobs[Naming.CronJobName(pvcName)].meta == was.value.meta
        && jobs[Naming.CronJobName(pvcName)].spec == Stored(defaults, Some(was.value.spec), want)
        && (Stored(defaults, Some(was.value.spec), want) == was.value.spec ==>
                jobs[Naming.CronJobName(pvcName)] == was.value)
    {
      var name := Naming.CronJobName(pvcName);
      was := None;
      if !get { return false, was; }
      if name !in jobs {
        if !quiet { Interfere(name); }
        if name in jobs { return false, was; }
        if !out.Lost? { Put(name, meta, want); }
        return out.Done?, None;
      }
      var existing := jobs[name];
      var original := existing.spec;
      var spec := Overwrite(existing.spec, want);
      if spec == original {
        return true, Some(existing);
      }
      if !quiet { Interfere(name); }
      if name !in jobs || jobs[name].version != existing.version { return false, was; }
      was := Some(existing);
      if !out.Lost? { Put(name, existing.meta, spec); }
      return out.Done?, was;
    }

    /** The eleven assignments. */
    method Overwrite(existing: CronJobSpec, want: CronJobSpec) returns (spec: CronJobSpec)
      ensures spec == Merge(existing, want)
    {
      spec := existing;
      spec := spec.(schedule := want.schedule);
      spec := spec.(suspend := want.suspend);
      spec := spec.(concurrency := want.concurrency);
      spec := spec.(successful := want.successful);
      spec := spec.(failed := want.failed);
      spec := spec.(job := spec.job.(ttl := want.job.ttl));
      spec := spec.(job := spec.job.(deadline := want.job.deadline));
      spec := spec.(job := spec.job.(backoff := want.job.backoff));
      spec := spec.(job := spec.job.(podLabels := want.job.podLabels));
      spec := spec.(job := spec.job.(pod := want.job.pod));
      spec := spec.(job := spec.job.(suspend := want.job.suspend));
      PartsDetermine(spec, Merge(existing, want));
    }
  }

  /** A call for one PVC leaves the CronJob of every other PVC alone, unless the two names collide. */
  lemma OtherPvcsUntouched(c: CronJobs, was: map<string, StoredJob>, p: Bytes, q: Bytes)
    requires c.OthersKept(was, Naming.CronJobName(p)) && !Naming.Collide(p, q)
    ensures var k := Naming.CronJobName(q);
            (k in c.jobs <==> k in was) && (k in was ==> c.jobs[k] == was[k])
  {
    Naming.CronJobNamesCollideIff(p, q);
  }

  // --- Service and Deployment of the server ---

  /** `filled` holds the fields the operator never sets, such as the cluster address. */
  datatype ServiceSpec = ServiceSpec(ports: seq<nat>, kind: string, selector: string, filled: map<string, string>)

  predicate SameService(s: ServiceSpec, t: ServiceSpec) {
    s.ports == t.ports && s.kind == t.kind && s.selector == t.selector
  }

  /** What is stored after an undisturbed EnsureServerService; the comparison comes after the assignments. */
  function StoredService(d: ServiceSpec -> ServiceSpec, found: Option<ServiceSpec>, want: ServiceSpec): ServiceSpec {
    if found.None? then d(want)
    else
      var m := found.value.(ports := want.ports, kind := want.kind, selector := want.selector);
      if m == want then found.value else d(m)
  }

  /** Defaulting fills in fields but leaves those of the operator. */
  ghost predicate Fills(d: ServiceSpec -> ServiceSpec) {
    forall s :: SameService(d(s), s)
  }

  /**
   * A needed change reaches the store exactly when the stored Service differs from the desired one in a filled-in
   * field.
   */
  lemma ServiceAppliesIff(d: ServiceSpec -> ServiceSpec, s: ServiceSpec, want: ServiceSpec)
    requires Fills(d) && !SameService(s, want)
    ensures SameService(StoredService(d, Some(s), want), want) <==> s.filled != want.filled
  {
    var m := s.(ports := want.ports, kind := want.kind, selector := want.selector);
    assert SameService(d(m), m);
  }

  /** Behind a server that has filled in nothing, a changed port is dropped and the call still succeeds. */
  lemma PortChangeIgnored(d: ServiceSpec -> ServiceSpec, kind: string, selector: string)
    ensures var s := ServiceSpec([51515], kind, selector, map[]);
            var want := ServiceSpec([8443], kind, selector, map[]);
            StoredService(d, Some(s), want).ports == [51515]
  {
  }

  /**
   * Behind a server that always fills something in, every needed change is applied and a second call changes nothing.
   */
  lemma ServiceConverges(d: ServiceSpec -> ServiceSpec, s: ServiceSpec, want: ServiceSpec)
    requires Fills(d) && Idempotent(d) && d(s) == s && (forall x :: d(x).filled != want.filled)
    ensures var t := StoredService(d, Some(s), want);
            SameService(t, want) && StoredService(d, Some(t), want) == t
  {
    var m := s.(ports := want.ports, kind := want.kind, selector := want.selector);
    var t := StoredService(d, Some(s), want);
    assert d(s).filled != want.filled;
    assert t == d(m) && SameService(d(m), m);
    assert d(m).filled != want.filled;
    var m' := t.(ports := want.ports, kind := want.kind, selector := want.selector);
    assert m' == t;
    assert d(t) == t;
  }

  /** Fields that are filled in already stay as they are. */
  ghost predicate KeepsFilled(d: ServiceSpec -> ServiceSpec) {
    forall s: ServiceSpec, k :: k in s.filled ==> k in d(s).filled && d(s).filled[k] == s.filled[k]
  }

  /** A first call creates exactly the desired ports, type and selector, and no call takes a filled-in field away. */
  lemma ServiceCreatedAndKept(d: ServiceSpec -> ServiceSpec, found: Option<ServiceSpec>, want: ServiceSpec)
    requires Fills(d) && KeepsFilled(d)
    ensures var t := StoredService(d, found, want);
            && (found.None? ==> t.ports == want.ports && t.kind == want.kind && t.selector == want.selector)
            && (found.Some? ==> forall k :: k in found.value.filled ==>
                                  k in t.filled && t.filled[k] == found.value.filled[k])
  {
    if found.Some? {
      var m := found.value.(ports := want.ports, kind := want.kind, selector := want.selector);
      assert m.filled == found.value.filled;
      assert forall k :: k in m.filled ==> k in d(m).filled && d(m).filled[k] == m.filled[k];
    } else {
      assert SameService(d(want), want);
    }
  }

  /** What is stored after an undisturbed EnsureServerDeployment: the whole spec is replaced. */
  function StoredDeployment<T(==)>(d: T -> T, found: Option<T>, want: T): T {
    if found.None? then d(want) else if found.value == want then found.value else d(want)
  }

  /**
   * Whatever was there, the result is the defaulted desired spec: hand edits do not survive, and a second call changes
   * nothing.
   */
  lemma DeploymentConverges<T(!new)>(d: T -> T, found: Option<T>, want: T)
    requires Idempotent(d) && (found.Some? ==> d(found.value) == found.value)
    ensures StoredDeployment(d, found, want) == d(want)
    ensures StoredDeployment(d, Some(StoredDeployment(d, found, want)), want) == StoredDeployment(d, found, want)
  {
  }

  datatype DeploymentSpec = DeploymentSpec(replicas: int, image: string, command: string, filled: map<string, string>)

  /** The server's Service and Deployment behind a defaulting API server. */
  class ServerObjects {
    const serviceDefaults: ServiceSpec -> ServiceSpec
    const deploymentDefaults: DeploymentSpec -> DeploymentSpec
    var service: Option<ServiceSpec>
    var deployment: Option<DeploymentSpec>

    constructor (s: ServiceSpec -> ServiceSpec, d: DeploymentSpec -> DeploymentSpec)
      ensures service.None? && deployment.None? && serviceDefaults == s && deploymentDefaults == d
    {
      serviceDefaults, deploymentDefaults, service, deployment := s, d, None, None;
    }

    /** The read succeeds if `get`, the write has outcome `out`; without a difference there is no write. */
    method EnsureServerService(want: ServiceSpec, get: bool, out: Outcome) returns (ok: bool)
      modifies this`service
      ensures ok <==> get && (out.Done? || (old(service).Some? && old(service.value).filled == want.filled))
      ensures service == if !get || (!ok && out.Lost?) then old(service)
                         else Some(StoredService(serviceDefaults, old(service), want))
    {
      if !get { return false; }
      if service.None? {
        if !out.Lost? { service := Some(serviceDefaults(want)); }
        return out.Done?;
      }
      var existing := service.value;
      existing := existing.(ports := want.ports);
      existing := existing.(kind := want.kind);
      existing := existing.(selector := want.selector);
      if existing == want { return true; }
      if !out.Lost? { service := Some(serviceDefaults(existing)); }
      return out.Done?;
    }

    method EnsureServerDeployment(want: DeploymentSpec, get: bool, out: Outcome) returns (ok: bool)
      modifies this`deployment
      ensures ok <==> get && (out.Done? || old(deployment) == Some(want))
      ensures deployment == if !get || (!ok && out.Lost?) then old(deployment)
                            else Some(StoredDeployment(deploymentDefaults, old(deployment), want))
    {
      if !get { return false; }
      if deployment.None? {
        if !out.Lost? { deployment := Some(deploymentDefaults(want)); }
        return out.Done?;
      }
      if deployment.value == want { return true; }
      if !out.Lost? { deployment := Some(deploymentDefaults(want)); }
      return out.Done?;
    }
  }
}
