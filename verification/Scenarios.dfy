/** Steps that go well, one by one, and pieces of runs from which concrete runs are built. */
module Scenarios {
  import opened Options
  import opened Resources
  import opened ApiServer
  import opened Controllers

  /** A call of the reconciler that succeeds. */
  predicate Succeeds(e: Event) { e.BackupStep? && e.out.Done? }

  // --- Single steps ---

  lemma GetStep(v: World, b: Backup, e: Event)
    requires v.reconciler.BGet? && v.store.obj == Some(b) && Succeeds(e)
    ensures Step(v, e) == v.(reconciler := AfterGet(b), facts := NO_FACTS.(since := |v.commands|))
  {
  }

  lemma AddStep(v: World, b: Backup, e: Event)
    requires v.reconciler == BAddFinalizer(b) && v.store.obj == Some(b) && Succeeds(e) && !b.finalizer && !b.deleting
    ensures var o := b.(finalizer := true, version := v.store.nextVersion);
            Step(v, e) ==
            v.(store := v.store.(obj := Some(o), nextVersion := v.store.nextVersion + 1), reconciler := BPvc(o))
  {
  }

  lemma PvcStep(v: World, b: Backup, e: Event)
    requires v.reconciler == BPvc(b) && b.spec.pvcName != "" && Succeeds(e)
    ensures Step(v, e) == v.(reconciler := BRepo(b), facts := v.facts.(pvc := true))
  {
  }

  lemma LookupStep(v: World, b: Backup, r: Repository, e: Event)
    requires v.reconciler == BRepo(b) && Succeeds(e) && e.repo == Some(r)
    ensures Step(v, e) == v.(reconciler := AfterRepo(b, r), facts := v.facts.(repo := Some(r)))
  {
  }

  lemma ConfigMapStep(v: World, b: Backup, r: Repository, e: Event)
    requires v.reconciler == BConfigMap(b, r) && Succeeds(e)
    ensures Step(v, e) == v.(reconciler := BPods(b, b.status, r), facts := v.facts.(configMap := true))
  {
  }

  /** The secrets once EnsureUser has succeeded. */
  function WithUser(v: World, b: Backup, r: Repository): map<string, string> {
    if SecretName(v, b) in v.secrets then v.secrets else v.secrets[SecretName(v, b) := UserOf(v, b, r)]
  }

  lemma EnsureStep(v: World, b: Backup, r: Repository, e: Event)
    requires v.reconciler == BEnsure(b, r) && Succeeds(e) && e.ran
    ensures var v' := Step(v, e);
            v' == v.(commands := v.commands + [CreateUser(b.uid, AccountOn(r, EnsuredUser(v, b, r)))],
                     secrets := WithUser(v, b, r), facts := v'.facts, reconciler := v'.reconciler)
  {
  }

  lemma DeleteLookupStep(v: World, b: Backup, r: Repository, e: Event)
    requires v.reconciler == BDeleteLookup(b) && Succeeds(e) && e.repo == Some(r) && r.serverEnabled
    ensures Step(v, e) == v.(reconciler := BDeleteExec(b, AccountOf(v, b, r)), facts := v.facts.(repo := Some(r)))
  {
  }

  lemma DeleteExecStep(v: World, b: Backup, x: Account, e: Event)
    requires v.reconciler == BDeleteExec(b, x) && Succeeds(e)
    ensures Step(v, e) == v.(reconciler := BSecretGet(b, x), commands := v.commands + [DeleteUser(b.uid, x)])
  {
  }

  lemma SecretFoundStep(v: World, b: Backup, x: Account, e: Event)
    requires v.reconciler == BSecretGet(b, x) && Succeeds(e) && SecretName(v, b) in v.secrets
    ensures Step(v, e) == v.(reconciler := BSecretDelete(b, x))
  {
  }

  lemma SecretDeleteStep(v: World, b: Backup, x: Account, e: Event)
    requires v.reconciler == BSecretDelete(b, x) && Succeeds(e) && SecretName(v, b) in v.secrets
    ensures Step(v, e) == v.(reconciler := BRemoveFinalizer(b, Some(x)), secrets := v.secrets - {SecretName(v, b)})
  {
  }

  lemma RemoveStep(v: World, b: Backup, e: Event)
    requires v.reconciler.BRemoveFinalizer? && v.reconciler.b == b && Succeeds(e)
    requires v.store.obj == Some(b) && b.deleting && b.finalizer
    ensures Step(v, e) ==
            v.(store := v.store.(obj := None), reconciler := BIdle, retired := v.retired[b.uid := |v.commands|])
  {
  }

  // --- Pieces of runs ---

  lemma Then(w: World, es: seq<Event>, e: Event, v: World)
    requires Step(Run(w, es), e) == v
    ensures Run(w, es + [e]) == v
  {
    Append(w, es, e);
  }

  /** What a piece of a run leaves alone. */
  predicate Keeps(v: World, v': World) {
    v'.namespace == v.namespace && v'.secrets == v.secrets && v'.commands == v.commands
  }

  /** A pass begins and reads the object. */
  lemma BeginAndGet(w: World, es: seq<Event>, b: Backup, e: Event) returns (fs: seq<Event>)
    requires var v := Run(w, es); v.reconciler.BIdle? && v.store.obj == Some(b)
    requires Succeeds(e)
    ensures var v, v' := Run(w, es), Run(w, fs); v'.reconciler == AfterGet(b) && v'.store == v.store && Keeps(v, v')
  {
    var v := Run(w, es);
    var v1 := v.(reconciler := BGet, pass := v.pass + 1);
    Then(w, es, BackupBegins, v1);
    fs := es + [BackupBegins];
    GetStep(v1, b, e);
    Then(w, fs, e, Step(v1, e));
    fs := fs + [e];
  }

  /** A user creates a backup. */
  lemma BackupMade(w: World, es: seq<Event>, spec: Spec) returns (fs: seq<Event>, b: Backup)
    requires Run(w, es).store.obj.None?
    ensures var v, v' := Run(w, es), Run(w, fs);
            && v'.reconciler == v.reconciler && v'.store.obj == Some(b) && Keeps(v, v')
            && v'.store.nextUid == v.store.nextUid + 1 && b.uid == v.store.nextUid
            && !b.finalizer && !b.deleting && b.spec == spec
  {
    Append(w, es, UserCreates(spec, None));
    fs := es + [UserCreates(spec, None)];
    b := Run(w, fs).store.obj.value;
  }

  /** A user creates a backup; the first pass adds the finalizer and stops there. */
  lemma FinalizerAdded(w: World, es: seq<Event>, spec: Spec) returns (fs: seq<Event>, b: Backup)
    requires var v := Run(w, es); v.reconciler.BIdle? && v.store.obj.None?
    ensures var v, v' := Run(w, es), Run(w, fs);
            && v'.reconciler.BIdle? && v'.store.obj == Some(b) && Keeps(v, v')
            && v'.store.nextUid == v.store.nextUid + 1 && b.uid == v.store.nextUid
            && b.finalizer && !b.deleting && b.spec == spec
  {
    var e := BackupStep(Done, None, "", false, false);
    fs, b := BackupMade(w, es, spec);
    fs := BeginAndGet(w, fs, b, e);
    var v := Run(w, fs);
    AddStep(v, b, e);
    Then(w, fs, e, Step(v, e));
    fs := fs + [e];
    b := Run(w, fs).store.obj.value;
    var v1 := Run(w, fs);
    Then(w, fs, BackupCrash, v1.(reconciler := BIdle));
    fs := fs + [BackupCrash];
  }

  /** From the read of a server-mode backup to EnsureUser. */
  lemma UpToEnsure(w: World, es: seq<Event>, b: Backup, r: Repository, e: Event) returns (fs: seq<Event>)
    requires Run(w, es).reconciler == BPvc(b) && b.spec.pvcName != "" && r.serverEnabled
    requires Succeeds(e) && e.repo == Some(r)
    ensures var v, v' := Run(w, es), Run(w, fs); v'.reconciler == BEnsure(b, r) && v'.store == v.store && Keeps(v, v')
  {
    var v := Run(w, es);
    PvcStep(v, b, e);
    Then(w, es, e, Step(v, e));
    fs := es + [e];
    var v1 := Run(w, fs);
    LookupStep(v1, b, r, e);
    Then(w, fs, e, Step(v1, e));
    fs := fs + [e];
  }

  /** A pass creates the user and stops there. */
  lemma UserMade(w: World, es: seq<Event>, b: Backup, r: Repository) returns (fs: seq<Event>)
    requires var v := Run(w, es); v.reconciler.BIdle? && v.store.obj == Some(b)
    requires b.finalizer && !b.deleting && b.spec.pvcName != "" && r.serverEnabled
    ensures var v, v' := Run(w, es), Run(w, fs);
            && v'.reconciler.BIdle? && v'.store == v.store && v'.namespace == v.namespace
            && v'.secrets == WithUser(v, b, r)
            && v'.commands == v.commands + [CreateUser(b.uid, AccountOn(r, EnsuredUser(v, b, r)))]
  {
    var e := BackupStep(Done, Some(r), "", true, true);
    fs := BeginAndGet(w, es, b, e);
    fs := UpToEnsure(w, fs, b, r, e);
    var v := Run(w, fs);
    EnsureStep(v, b, r, e);
    Then(w, fs, e, Step(v, e));
    fs := fs + [e];
    var v1 := Run(w, fs);
    Then(w, fs, BackupCrash, v1.(reconciler := BIdle));
    fs := fs + [BackupCrash];
  }

  /** A user deletes the backup, which its finalizer holds back. */
  lemma DeletionAsked(w: World, es: seq<Event>, b: Backup) returns (fs: seq<Event>, o: Backup)
    requires var v := Run(w, es); v.reconciler.BIdle? && v.store.obj == Some(b)
    requires b.finalizer && !b.deleting
    ensures var v, v' := Run(w, es), Run(w, fs);
            && v'.reconciler.BIdle? && v'.store.obj == Some(o) && v'.store.nextUid == v.store.nextUid && Keeps(v, v')
            && o.deleting && o.finalizer && o.uid == b.uid && o.spec == b.spec
  {
    Append(w, es, UserDeletes);
    fs := es + [UserDeletes];
    o := Run(w, fs).store.obj.value;
  }

  /** A cleanup up to its delete command. */
  lemma UpToDelete(w: World, es: seq<Event>, b: Backup, r: Repository, e: Event) returns (fs: seq<Event>)
    requires Run(w, es).reconciler == BDeleteLookup(b) && r.serverEnabled && Succeeds(e) && e.repo == Some(r)
    ensures var v, v' := Run(w, es), Run(w, fs);
            && v'.reconciler == BSecretGet(b, AccountOf(v, b, r)) && v'.store == v.store && v'.secrets == v.secrets
            && v'.namespace == v.namespace && v'.commands == v.commands + [DeleteUser(b.uid, AccountOf(v, b, r))]
  {
    var v := Run(w, es);
    DeleteLookupStep(v, b, r, e);
    Then(w, es, e, Step(v, e));
    fs := es + [e];
    var v1 := Run(w, fs);
    DeleteExecStep(v1, b, AccountOf(v, b, r), e);
    Then(w, fs, e, Step(v1, e));
    fs := fs + [e];
  }

  /** The secret goes, and then the finalizer and the object. */
  lemma SecretThenFinalizer(w: World, es: seq<Event>, b: Backup, x: Account, e: Event) returns (fs: seq<Event>)
    requires Run(w, es).reconciler == BSecretGet(b, x) && Run(w, es).store.obj == Some(b) && b.deleting && b.finalizer
    requires SecretName(Run(w, es), b) in Run(w, es).secrets && Succeeds(e)
    ensures var v, v' := Run(w, es), Run(w, fs);
            && v'.reconciler.BIdle? && v'.store == v.store.(obj := None)
            && v'.namespace == v.namespace && v'.commands == v.commands
  {
    var v := Run(w, es);
    SecretFoundStep(v, b, x, e);
    Then(w, es, e, Step(v, e));
    fs := es + [e];
    var v1 := Run(w, fs);
    SecretDeleteStep(v1, b, x, e);
    Then(w, fs, e, Step(v1, e));
    fs := fs + [e];
    var v2 := Run(w, fs);
    RemoveStep(v2, b, e);
    Then(w, fs, e, Step(v2, e));
    fs := fs + [e];
  }

  /** A cleanup with everything it needs. */
  lemma CleanupDone(w: World, es: seq<Event>, b: Backup, r: Repository) returns (fs: seq<Event>)
    requires var v := Run(w, es); v.reconciler.BIdle? && v.store.obj == Some(b) && SecretName(v, b) in v.secrets
    requires b.deleting && b.finalizer && b.spec.credentialsSecret != "" && r.serverEnabled
    ensures var v, v' := Run(w, es), Run(w, fs);
            && v'.reconciler.BIdle? && v'.store == v.store.(obj := None) && v'.namespace == v.namespace
            && v'.commands == v.commands + [DeleteUser(b.uid, AccountOf(v, b, r))]
  {
    var e := BackupStep(Done, Some(r), "", false, false);
    fs := BeginAndGet(w, es, b, e);
    fs := UpToDelete(w, fs, b, r, e);
    fs := SecretThenFinalizer(w, fs, b, Run(w, fs).reconciler.user, e);
  }

  /** A cleanup of a backup whose spec names no secret. */
  lemma CleanupSkipped(w: World, es: seq<Event>, b: Backup) returns (fs: seq<Event>)
    requires var v := Run(w, es); v.reconciler.BIdle? && v.store.obj == Some(b)
    requires b.deleting && b.finalizer && b.spec.credentialsSecret == ""
    ensures var v, v' := Run(w, es), Run(w, fs);
            v'.reconciler.BIdle? && v'.store == v.store.(obj := None) && Keeps(v, v')
  {
    var e := BackupStep(Done, None, "", false, false);
    fs := BeginAndGet(w, es, b, e);
    var v := Run(w, fs);
    RemoveStep(v, b, e);
    Then(w, fs, e, Step(v, e));
    fs := fs + [e];
  }
}
