/**
 * The repository reconciler (internal/controller/kopiarepository/reconciler.go): conditions are set in
 * memory phase by phase and written once at the end; the fingerprint of the server's certificate goes
 * through the repository's status into the CronJobs of its backups.
 */
module RepositoryPass {
  import opened Options
  import opened Resources
  import opened Tls
  import opened Jobs
  import opened Drift
  import Controllers
  import Reconcilers
  import Naming
  import Placement

  datatype Status = Status(fingerprint: string, serverReady: bool, server: Option<Condition>,
                           repository: Option<Condition>)

  /** How far a pass got; the fingerprint is known from the deployment phase on. */
  datatype Phase =
    | NoPassword
    | NoManager
    | TlsFailed
    | DeploymentFailed(fingerprint: string)
    | ServiceFailed(fingerprint: string)
    | NotReady(fingerprint: string)
    | ServerUp(fingerprint: string)
    | DirectMode

  /** The status after a pass over generation `g`. */
  function AfterPass(st: Status, g: nat, p: Phase): Status {
    var serverFailed := Some(Condition(false, ServerFailed, g));
    match p
    case NoPassword => st.(repository := Some(Condition(false, MissingPassword, g)))
    case NoManager => st.(repository := serverFailed)
    case TlsFailed => st.(server := serverFailed)
    case DeploymentFailed(f) => st.(fingerprint := f, server := serverFailed)
    case ServiceFailed(f) => st.(fingerprint := f, server := serverFailed)
    case NotReady(f) => Status(f, false, serverFailed, serverFailed)
    case ServerUp(f) => Status(f, true, Some(Condition(true, ServerDeployed, g)), Some(Condition(true, ConfigValid, g)))
    case DirectMode => st.(repository := Some(Condition(true, ConfigValid, g)))
  }

  /** What a pass was told: the settings, then whether certificate, Deployment and Service are in place and ready. */
  datatype Findings = Findings(passwordSet: bool, serverEnabled: bool, configured: bool, certificate: Option<string>,
                               deployed: bool, served: bool, ready: bool)

  /** The phase that these findings end in. */
  predicate Ends(x: Findings, p: Phase) {
    match p
    case NoPassword => !x.passwordSet
    case DirectMode => x.passwordSet && !x.serverEnabled
    case NoManager => x.passwordSet && x.serverEnabled && !x.configured
    case TlsFailed => x.passwordSet && x.serverEnabled && x.configured && x.certificate.None?
    case DeploymentFailed(f) => InServer(x, f) && !x.deployed
    case ServiceFailed(f) => InServer(x, f) && x.deployed && !x.served
    case NotReady(f) => InServer(x, f) && x.deployed && x.served && !x.ready
    case ServerUp(f) => InServer(x, f) && x.deployed && x.served && x.ready
  }

  /** The certificate was there. */
  predicate Certified(p: Phase) {
    p.DeploymentFailed? || p.ServiceFailed? || p.NotReady? || p.ServerUp?
  }

  predicate InServer(x: Findings, f: string) {
    x.passwordSet && x.serverEnabled && x.configured && x.certificate == Some(f)
  }

  /** Every object of the server is in place. */
  predicate InPlace(x: Findings) {
    x.passwordSet && x.serverEnabled && x.configured && x.certificate.Some? && x.deployed && x.served
  }

  /** The status that these findings make of `st`, field by field. */
  predicate Shown(x: Findings, g: nat, st: Status, t: Status) {
    && t.serverReady == (if InPlace(x) then x.ready else st.serverReady)
    && t.fingerprint == (if x.passwordSet && x.serverEnabled && x.configured && x.certificate.Some?
                         then x.certificate.value else st.fingerprint)
    && t.server == (if x.passwordSet && x.serverEnabled && x.configured
                    then Some(if InPlace(x) && x.ready then Condition(true, ServerDeployed, g)
                              else Condition(false, ServerFailed, g))
                    else st.server)
    && t.repository == (if !x.passwordSet then Some(Condition(false, MissingPassword, g))
                        else if !x.serverEnabled || (InPlace(x) && x.ready) then Some(Condition(true, ConfigValid, g))
                        else if !x.configured || InPlace(x) then Some(Condition(false, ServerFailed, g))
                        else st.repository)
  }

  lemma PhaseShows(x: Findings, p: Phase, g: nat, st: Status)
    requires Ends(x, p)
    ensures Shown(x, g, st, AfterPass(st, g, p))
  {
  }

  /** Ready exactly when everything was found in order, or it was ready and an object of the server failed. */
  predicate Settles(x: Findings, st: Status, t: Status) {
    IsTrue(t.repository) <==>
      x.passwordSet && (!x.serverEnabled
        || (x.configured && (if InPlace(x) then x.ready else IsTrue(st.repository))))
  }

  lemma ReadyShown(x: Findings, g: nat, st: Status, t: Status)
    requires Shown(x, g, st, t)
    ensures Settles(x, st, t)
  {
  }

  predicate IsTrue(c: Option<Condition>) { c.Some? && c.value.isTrue }

  // --- Many passes ---

  /** A pass over generation `g` that reached `phase`; `written` tells whether its status was stored. */
  datatype Pass = Pass(g: nat, phase: Phase, written: bool)

  function Passes(st: Status, ps: seq<Pass>): Status {
    if ps == [] then st
    else
      var p := ps[|ps| - 1];
      var before := Passes(st, ps[..|ps| - 1]);
      if p.written then AfterPass(before, p.g, p.phase) else before
  }

  /** A stored pass that stops at the certificate, the Deployment or the Service. */
  predicate Stops(p: Pass) {
    p.written && (p.phase.TlsFailed? || p.phase.DeploymentFailed? || p.phase.ServiceFailed?)
  }

  /** A stored pass that found the repository in order. */
  predicate InOrder(p: Pass) {
    p.written && (p.phase.ServerUp? || p.phase.DirectMode?)
  }

  /** From pass `i` on, every stored pass stops early. */
  predicate OnlyStops(ps: seq<Pass>, i: nat) {
    forall k :: i <= k < |ps| && ps[k].written ==> Stops(ps[k])
  }

  /**
   * After any number of passes the stored RepositoryReady is true exactly when some stored pass found
   * the repository in order and every stored pass since stopped at the certificate, the Deployment or
   * the Service, however often; or when it was true at first and none ever got further.
   */
  lemma {:induction false} ReadyAfterPassesIff(st: Status, ps: seq<Pass>)
    ensures IsTrue(Passes(st, ps).repository) <==>
              || (exists i :: 0 <= i < |ps| && InOrder(ps[i]) && OnlyStops(ps, i + 1))
              || (IsTrue(st.repository) && OnlyStops(ps, 0))
  {
    if ps != [] {
      var before, p := ps[..|ps| - 1], ps[|ps| - 1];
      ReadyAfterPassesIff(st, before);
      assert ps == before + [p];
      if InOrder(p) {
        assert InOrder(ps[|before|]) && OnlyStops(ps, |before| + 1);
      } else if !p.written || Stops(p) {
        forall i | 0 <= i <= |before| ensures OnlyStops(before, i) <==> OnlyStops(ps, i) {
          StopsLonger(ps, i);
        }
        SomeInOrder(ps);
      } else {
        assert forall i :: 0 <= i <= |before| ==> !OnlyStops(ps, i) by { NeverOnlyStops(ps); }
      }
    }
  }

  lemma StopsLonger(ps: seq<Pass>, i: nat)
    requires ps != [] && i <= |ps| - 1 && (!ps[|ps| - 1].written || Stops(ps[|ps| - 1]))
    ensures OnlyStops(ps[..|ps| - 1], i) <==> OnlyStops(ps, i)
  {
    var before := ps[..|ps| - 1];
    assert forall k :: 0 <= k < |before| ==> before[k] == ps[k];
  }

  /** A last pass that is not in order leaves the passes in order where they were. */
  lemma SomeInOrder(ps: seq<Pass>)
    requires ps != [] && !InOrder(ps[|ps| - 1]) && (!ps[|ps| - 1].written || Stops(ps[|ps| - 1]))
    ensures var before := ps[..|ps| - 1];
            (exists i :: 0 <= i < |before| && InOrder(before[i]) && OnlyStops(before, i + 1))
            <==> (exists i :: 0 <= i < |ps| && InOrder(ps[i]) && OnlyStops(ps, i + 1))
  {
    var before := ps[..|ps| - 1];
    if i :| 0 <= i < |before| && InOrder(before[i]) && OnlyStops(before, i + 1) {
      StopsLonger(ps, i + 1);
      assert InOrder(ps[i]) && OnlyStops(ps, i + 1);
    }
    if i :| 0 <= i < |ps| && InOrder(ps[i]) && OnlyStops(ps, i + 1) {
      StopsLonger(ps, i + 1);
      assert InOrder(before[i]) && OnlyStops(before, i + 1);
    }
  }

  lemma NeverOnlyStops(ps: seq<Pass>)
    requires ps != [] && ps[|ps| - 1].written && !Stops(ps[|ps| - 1])
    ensures forall i :: 0 <= i <= |ps| - 1 ==> !OnlyStops(ps, i)
  {
    forall i | 0 <= i <= |ps| - 1 ensures !OnlyStops(ps, i) {
      assert ps[|ps| - 1].written;
    }
  }

  /** A repository in server mode with its password set and a manager configured. */
  predicate ServerMode(ps: seq<Pass>) {
    forall k :: 0 <= k < |ps| ==> !ps[k].phase.NoPassword? && !ps[k].phase.NoManager? && !ps[k].phase.DirectMode?
  }

  /** The two conditions of a server-mode repository, pass by pass. */
  lemma {:induction false} ServerAfterPasses(st: Status, ps: seq<Pass>)
    requires ServerMode(ps) && st.server.None? && st.repository.None?
    ensures var t := Passes(st, ps);
            && (IsTrue(t.server) ==> IsTrue(t.repository))
            && (IsTrue(t.server) <==> exists i :: 0 <= i < |ps| && InOrder(ps[i])
                                                  && forall k :: i < k < |ps| ==> !ps[k].written)
  {
    if ps != [] {
      var before, p := ps[..|ps| - 1], ps[|ps| - 1];
      assert forall k :: 0 <= k < |before| ==> before[k] == ps[k];
      ServerAfterPasses(st, before);
      if p.written && p.phase.ServerUp? {
        assert InOrder(ps[|before|]);
      }
    }
  }

  /**
   * Over every run of passes on a server-mode repository: RepositoryReady stands beside a ServerReady
   * that is not true exactly when some stored pass found everything in order, a later stored pass
   * stopped at the certificate, the Deployment or the Service, and none since got further.
   */
  lemma StaleReadyIff(st: Status, ps: seq<Pass>)
    requires ServerMode(ps) && st.server.None? && st.repository.None?
    ensures var t := Passes(st, ps);
            IsTrue(t.repository) && !IsTrue(t.server) <==>
              exists i, j :: 0 <= i < j < |ps| && InOrder(ps[i]) && Stops(ps[j]) && OnlyStops(ps, i + 1)
  {
    ReadyAfterPassesIff(st, ps);
    ServerAfterPasses(st, ps);
    var t := Passes(st, ps);
    if IsTrue(t.repository) && !IsTrue(t.server) {
      var i :| 0 <= i < |ps| && InOrder(ps[i]) && OnlyStops(ps, i + 1);
      var j :| i < j < |ps| && ps[j].written;
      assert InOrder(ps[i]) && Stops(ps[j]) && OnlyStops(ps, i + 1);
    }
    if i, j :| 0 <= i < j < |ps| && InOrder(ps[i]) && Stops(ps[j]) && OnlyStops(ps, i + 1) {
      assert forall l :: i < l < |ps| ==> !InOrder(ps[l]);
      assert ps[j].written;
    }
  }

  // --- The pass as the source writes it ---

  /** What the world answers to the calls of a pass. */
  datatype Calls = Calls(deploymentGet: bool, deployment: Outcome, serviceGet: bool, service: Outcome, ready: bool,
                         write: Outcome)

  class RepositoryReconciler {
    const tls: ServerManager
    const objects: ServerObjects
    const hex: Fingerprint -> string
    var stored: Status
    ghost const first: Status
    ghost var history: seq<Pass>

    ghost predicate Valid()
      reads this, tls
    {
      tls.Valid() && (tls.w.op.Idle? || tls.w.op.Returned?) && stored == Passes(first, history)
    }

    constructor (tls: ServerManager, objects: ServerObjects, hex: Fingerprint -> string, st: Status)
      requires tls.Valid() && (tls.w.op.Idle? || tls.w.op.Returned?)
      ensures this.tls == tls && this.objects == objects && this.hex == hex && stored == st && history == [] && Valid()
    {
      this.tls, this.objects, this.hex, stored, first, history := tls, objects, hex, st, st, [];
    }

    /** Both server objects would be in place after these calls. */
    twostate predicate DeploymentOk(want: DeploymentSpec, calls: Calls)
      reads objects
    {
      calls.deploymentGet && (calls.deployment.Done? || old(objects.deployment) == Some(want))
    }

    twostate predicate ServiceOk(want: ServiceSpec, calls: Calls)
      reads objects
    {
      calls.serviceGet && (calls.service.Done?
                           || (old(objects.service).Some? && old(objects.service.value).filled == want.filled))
    }

    /** What a pass over these settings was told. */
    twostate function Told(passwordSet: bool, serverEnabled: bool, configured: bool, deployment: DeploymentSpec,
                           service: ServiceSpec, calls: Calls): Findings
      reads tls, objects
    {
      Findings(passwordSet, serverEnabled, configured,
               if tls.w.op.Returned? then Some(hex(tls.w.op.fingerprint)) else None,
               DeploymentOk(deployment, calls), ServiceOk(service, calls), calls.ready)
    }

    /**
     * One pass. The phase reached follows from the call outcomes, the status from the phase; from the
     * deployment phase on the status carries the fingerprint of the certificate that is in the secret.
     * Stored, the pass leaves the repository ready exactly when every call of it succeeded, or when it
     * was ready before and the certificate, the Deployment or the Service failed.
     */
    method Reconcile(passwordSet: bool, serverEnabled: bool, configured: bool, g: nat, service: ServiceSpec,
                     deployment: DeploymentSpec, calls: Calls)
      returns (p: Phase, ghost x: Findings)
      requires Valid()
      modifies this`stored, this`history, tls, objects
      ensures Valid() && history == old(history) + [Pass(g, p, !calls.write.Lost?)]
      ensures stored == if calls.write.Lost? then old(stored) else AfterPass(old(stored), g, p)
      ensures x == Told(passwordSet, serverEnabled, configured, deployment, service, calls) && Ends(x, p)
      ensures Certified(p) ==> ShownBy(tls.w.store, tls.w.op.fingerprint)
      ensures !(passwordSet && serverEnabled && configured) ==> tls.w == old(tls.w)
      ensures !Certified(p) ==> objects.deployment == old(objects.deployment)
      ensures !Certified(p) || p.DeploymentFailed? ==> objects.service == old(objects.service)
      ensures p.ServiceFailed? || p.NotReady? || p.ServerUp? ==>
        objects.deployment == Some(StoredDeployment(objects.deploymentDefaults, old(objects.deployment), deployment))
      ensures p.NotReady? || p.ServerUp? ==>
        objects.service == Some(StoredService(objects.serviceDefaults, old(objects.service), service))
      ensures !calls.write.Lost? ==> Settles(x, old(stored), stored)
      ensures !calls.write.Lost? ==> Shown(x, g, old(stored), stored)
      ensures tls.w.userProvided == old(tls.w.userProvided)
      ensures Reads(old(tls.w), old(tls.steps), passwordSet && serverEnabled && configured)
    {
      var status;
      ghost var before := stored;
      p, status, x := Phases(stored, passwordSet, serverEnabled, configured, g, service, deployment, calls);
      PhaseShows(x, p, g, before);
      ReadyShown(x, g, before, status);
      WriteStatus(status, p, g, calls.write);
    }

    /** The deferred status write. */
    method WriteStatus(status: Status, p: Phase, g: nat, write: Outcome)
      requires Valid() && status == AfterPass(stored, g, p)
      modifies this`stored, this`history
      ensures Valid() && history == old(history) + [Pass(g, p, !write.Lost?)]
      ensures stored == if write.Lost? then old(stored) else status
    {
      if !write.Lost? { stored := status; }
      history := history + [Pass(g, p, !write.Lost?)];
      assert history[..|history| - 1] == old(history);
    }

    /** How a pass over a user-provided secret that nobody writes meanwhile gets its certificate. */
    ghost predicate Reads(was: Tls.World, n: nat, server: bool)
      reads tls
    {
      server && was.userProvided && tls.replies(n + 1).written.None? ==>
        && tls.steps == n + 3 && tls.w.store == was.store
        && (!tls.replies(n + 2).ok ==> !tls.w.op.Returned?)
        && (tls.replies(n + 2).ok && Usable(was.store) ==> tls.w.op.Returned?)
    }

    /** Everything before the deferred status write; `status` is the copy in memory. */
    method Phases(st: Status, passwordSet: bool, serverEnabled: bool, configured: bool, g: nat, service: ServiceSpec,
                  deployment: DeploymentSpec, calls: Calls)
      returns (p: Phase, status: Status, ghost x: Findings)
      requires tls.Valid() && (tls.w.op.Idle? || tls.w.op.Returned?)
      modifies tls, objects
      ensures tls.Valid() && (tls.w.op.Idle? || tls.w.op.Returned?)
      ensures status == AfterPass(st, g, p)
      ensures x == Told(passwordSet, serverEnabled, configured, deployment, service, calls) && Ends(x, p)
      ensures Certified(p) ==> ShownBy(tls.w.store, tls.w.op.fingerprint)
      ensures !(passwordSet && serverEnabled && configured) ==> tls.w == old(tls.w)
      ensures !Certified(p) ==> objects.deployment == old(objects.deployment)
      ensures !Certified(p) || p.DeploymentFailed? ==> objects.service == old(objects.service)
      ensures p.ServiceFailed? || p.NotReady? || p.ServerUp? ==>
        objects.deployment == Some(StoredDeployment(objects.deploymentDefaults, old(objects.deployment), deployment))
      ensures p.NotReady? || p.ServerUp? ==>
        objects.service == Some(StoredService(objects.serviceDefaults, old(objects.service), service))
      ensures tls.w.userProvided == old(tls.w.userProvided)
      ensures Reads(old(tls.w), old(tls.steps), passwordSet && serverEnabled && configured)
    {
      status := st;
      if !passwordSet {
        status := status.(repository := Some(Condition(false, MissingPassword, g)));
        return NoPassword, status, Told(passwordSet, serverEnabled, configured, deployment, service, calls);
      }
      if !serverEnabled {
        status := status.(repository := Some(Condition(true, ConfigValid, g)));
        return DirectMode, status, Told(passwordSet, serverEnabled, configured, deployment, service, calls);
      }
      if !configured {
        status := status.(repository := Some(Condition(false, ServerFailed, g)));
        return NoManager, status, Told(passwordSet, serverEnabled, configured, deployment, service, calls);
      }
      var r := tls.EnsureTLSSecret();
      if !r.Success? {
        status := status.(server := Some(Condition(false, ServerFailed, g)));
        return TlsFailed, status, Told(passwordSet, serverEnabled, configured, deployment, service, calls);
      }
      p, status := ServerPhases(status, hex(r.fingerprint), g, service, deployment, calls);
      x := Told(passwordSet, serverEnabled, configured, deployment, service, calls);
    }

    /** Deployment, Service and readiness, once the certificate is there. */
    method ServerPhases(st: Status, f: string, g: nat, service: ServiceSpec, deployment: DeploymentSpec, calls: Calls)
      returns (p: Phase, status: Status)
      modifies objects
      ensures status == AfterPass(st, g, p)
      ensures p.DeploymentFailed? || p.ServiceFailed? || p.NotReady? || p.ServerUp?
      ensures p.fingerprint == f
      ensures p.DeploymentFailed? <==> !DeploymentOk(deployment, calls)
      ensures p.DeploymentFailed? ==> objects.service == old(objects.service)
      ensures p.ServiceFailed? <==> DeploymentOk(deployment, calls) && !ServiceOk(service, calls)
      ensures p.ServerUp? <==> DeploymentOk(deployment, calls) && ServiceOk(service, calls) && calls.ready
      ensures !p.DeploymentFailed? ==>
        objects.deployment == Some(StoredDeployment(objects.deploymentDefaults, old(objects.deployment), deployment))
      ensures p.NotReady? || p.ServerUp? ==>
        objects.service == Some(StoredService(objects.serviceDefaults, old(objects.service), service))
    {
      status := st;
      status := status.(fingerprint := f);
      var ok := objects.EnsureServerDeployment(deployment, calls.deploymentGet, calls.deployment);
      if !ok {
        status := status.(server := Some(Condition(false, ServerFailed, g)));
        return DeploymentFailed(f), status;
      }
      ok := objects.EnsureServerService(service, calls.serviceGet, calls.service);
      if !ok {
        status := status.(server := Some(Condition(false, ServerFailed, g)));
        return ServiceFailed(f), status;
      }
      status := status.(serverReady := calls.ready);
      if !calls.ready {
        status := status.(server := Some(Condition(false, ServerFailed, g)));
        status := status.(repository := Some(Condition(false, ServerFailed, g)));
        return NotReady(f), status;
      }
      status := status.(server := Some(Condition(true, ServerDeployed, g)));
      status := status.(repository := Some(Condition(true, ConfigValid, g)));
      return ServerUp(f), status;
    }
  }

  const ALL_WELL: Calls := Calls(true, Done, true, Done, true, Done)

  /** The next read of the certificate gets through if `ok`, and nobody writes the secret before it. */
  predicate NextRead(replies: nat -> Tls.Reply, n: nat, ok: bool) {
    replies(n + 1).written.None? && replies(n + 2).ok == ok
  }

  method PassInOrder(r: RepositoryReconciler, g: nat, service: ServiceSpec, deployment: DeploymentSpec)
    requires r.Valid() && r.tls.w.userProvided && Usable(r.tls.w.store) && NextRead(r.tls.replies, r.tls.steps, true)
    modifies r`stored, r`history, r.tls, r.objects
    ensures r.Valid() && |r.history| == |old(r.history)| + 1 && IsTrue(r.stored.repository)
    ensures r.tls.w.userProvided && r.tls.steps == old(r.tls.steps) + 3
  {
    var p, _ := r.Reconcile(true, true, true, g, service, deployment, ALL_WELL);
  }

  method PassWithoutCertificate(r: RepositoryReconciler, g: nat, service: ServiceSpec, deployment: DeploymentSpec)
    requires r.Valid() && r.tls.w.userProvided && NextRead(r.tls.replies, r.tls.steps, false)
    modifies r`stored, r`history, r.tls, r.objects
    ensures r.Valid() && |r.history| == |old(r.history)| + 1
    ensures r.stored.repository == old(r.stored.repository) && !IsTrue(r.stored.server)
  {
    var p, _ := r.Reconcile(true, true, true, g, service, deployment, ALL_WELL);
  }

  /** Such a state is reached: a pass that finds everything in order, then one whose read of the certificate fails. */
  method StaleReady(hex: Fingerprint -> string, service: ServiceSpec, deployment: DeploymentSpec)
    returns (r: RepositoryReconciler)
    ensures fresh(r) && r.Valid() && |r.history| == 2
    ensures IsTrue(r.stored.repository) && !IsTrue(r.stored.server)
  {
    var secret := Secret(Some(Certificate(Cert(0, 0))), true, None);
    var replies := (n: nat) => Tls.Reply(n != 5, false, false, 0, 0, None);
    var tls := new ServerManager(true, 0, Some(secret), replies);
    var objects := new ServerObjects(s => s, d => d);
    r := new RepositoryReconciler(tls, objects, hex, Status("", false, None, None));
    PassInOrder(r, 1, service, deployment);
    PassWithoutCertificate(r, 1, service, deployment);
  }

  // --- The fingerprint on its way to the jobs ---

  /** Defaulting leaves the environment of the container alone. */
  ghost predicate KeepsEnv(d: CronJobSpec -> CronJobSpec) {
    forall s :: d(s).job.pod.env == s.job.pod.env
  }

  lemma StoredEnv(d: CronJobSpec -> CronJobSpec, found: Option<CronJobSpec>, want: CronJobSpec)
    requires KeepsEnv(d)
    ensures Stored(d, found, want).job.pod.env == want.job.pod.env
  {
    if found.Some? {
      var m := Merge(found.value, want);
      assert OwnedOf(m).pod == OwnedOf(want).pod;
    }
  }

  /** The pass read an object not being deleted, found its PVC and ensured its user. */
  ghost predicate Served(op: Reconcilers.Operator)
    reads op
  {
    && op.own.read.Some? && op.own.read.value.Some? && !op.own.read.value.value.deleting
    && op.w.facts.pvc && op.w.facts.ensured.Some?
  }

  /**
   * A repository pass and then a backup pass, others acting on the backup all the while: when both get
   * through and the backup has its PVC and its user, the CronJob was built from a repository whose
   * fingerprint is that of the certificate in the secret.
   */
  method FingerprintHandOver(r: RepositoryReconciler, op: Reconcilers.Operator, repo: Repository, g: nat,
                             service: ServiceSpec, deployment: DeploymentSpec, calls: Calls) returns (ok: bool)
    requires r.Valid() && op.Valid() && op.w.reconciler.BIdle? && repo.serverEnabled
    modifies r, r.tls, r.objects, op
    ensures ok ==> r.tls.w.op.Returned? && ShownBy(r.tls.w.store, r.tls.w.op.fingerprint)
    ensures ok && Served(op) ==>
      && op.w.cron.Some? && op.w.cron == op.w.facts.cron
      && op.w.cron.value.repo == repo.(fingerprint := r.hex(r.tls.w.op.fingerprint))
  {
    var p, _ := r.Reconcile(true, true, true, g, service, deployment, calls);
    if !calls.write.Done? || p.TlsFailed? { return false; }
    ok := op.ReconcileBackup(Some(repo.(fingerprint := r.stored.fingerprint)));
  }

  /** The CronJob stored for such inputs shows its container exactly that fingerprint. */
  method FingerprintInJob(jobs: CronJobs, c: Controllers.CronJob, b: Settings, place: Placement.PodPlacement,
                          other: string, meta: string, get: bool, out: Outcome, quiet: bool) returns (ok: bool)
    requires jobs.Valid() && KeepsEnv(jobs.defaults) && c.repo.serverEnabled && c.repo.fingerprint != ""
    requires b.pvcName == c.spec.pvcName && place.nodeName == c.node
    modifies jobs
    ensures ok ==>
      && Naming.CronJobName(c.spec.pvcName) in jobs.jobs
      && Effective(jobs.jobs[Naming.CronJobName(c.spec.pvcName)].spec.job.pod.env, TlsFingerprint) ==
         Some(Literal(c.repo.fingerprint))
  {
    var want := BuildCronJob(b, place, c.repo, other);
    ghost var was;
    ok, was := jobs.Reconcile(b.pvcName, meta, want, get, out, quiet);
    StoredEnv(jobs.defaults, if was.None? then None else Some(was.value.spec), want);
  }

  /** Settings of a backup that the two-controller machine leaves out. */
  datatype Limits = Limits(successful: Option<int>, failed: Option<int>, ttl: Option<int>, deadline: Option<int>,
                           backoff: Option<int>)

  /**
   * All the way: a repository pass, a backup pass, and the CronJob call of that pass spelled out. When
   * the calls get through and the backup has its PVC and its user, the container of the stored CronJob
   * sees as KOPIA_TLS_FINGERPRINT the fingerprint of the very certificate that is in the secret.
   */
  method CertificateToJob(r: RepositoryReconciler, op: Reconcilers.Operator, jobs: CronJobs, repo: Repository, g: nat,
                          service: ServiceSpec, deployment: DeploymentSpec, calls: Calls, name: string, limits: Limits,
                          place: Placement.PodPlacement, other: string, meta: string, get: bool, out: Outcome,
                          quiet: bool)
    returns (ok: bool)
    requires r.Valid() && op.Valid() && op.w.reconciler.BIdle? && repo.serverEnabled && (forall f :: r.hex(f) != "")
    requires jobs.Valid() && KeepsEnv(jobs.defaults)
    modifies r, r.tls, r.objects, op, jobs
    ensures ok && Served(op) ==>
      && op.w.cron.Some? && r.tls.w.op.Returned? && ShownBy(r.tls.w.store, r.tls.w.op.fingerprint)
      && Naming.CronJobName(op.w.cron.value.spec.pvcName) in jobs.jobs
      && Effective(jobs.jobs[Naming.CronJobName(op.w.cron.value.spec.pvcName)].spec.job.pod.env, TlsFingerprint)
         == Some(Literal(r.hex(r.tls.w.op.fingerprint)))
  {
    ok := FingerprintHandOver(r, op, repo, g, service, deployment, calls);
    if !ok || op.w.cron.None? { return; }
    var c := op.w.cron.value;
    if !c.repo.serverEnabled || c.repo.fingerprint == "" { return; }
    var b := Settings(name, op.w.namespace, c.spec.pvcName, c.spec.schedule, c.spec.repository, c.spec.suspend,
                      limits.successful, limits.failed, limits.ttl, limits.deadline, limits.backoff);
    ok := FingerprintInJob(jobs, c, b, place.(nodeName := c.node), other, meta, get, out, quiet);
  }
}
