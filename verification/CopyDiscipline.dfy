/**
 * What optimistic locking guarantees: a copy that passes the version check is the stored object, so
 * neither controller overwrites what the other stored, and stored flags survive every interleaving.
 */
module CopyDiscipline {
  import opened Options
  import opened Resources
  import opened ApiServer
  import opened Controllers

  /** `c` may be an earlier state of the object `o`. */
  predicate Earlier(c: Backup, o: Backup) {
    && c.uid == o.uid
    && c.generation <= o.generation && (c.generation == o.generation ==> c.spec == o.spec)
    && (c.deleting ==> o.deleting) && (c.status.autoCreated ==> o.status.autoCreated)
  }

  /** Nothing stays marked for deletion without a finalizer. */
  predicate StoreOk(s: Store) {
    s.obj.Some? ==>
      && s.obj.value.version < s.nextVersion && s.obj.value.uid < s.nextUid
      && (s.obj.value.deleting ==> s.obj.value.finalizer)
  }

  /** A copy with the current version is the object; with the current uid it is an earlier state of it. */
  predicate Faithful(s: Store, c: Backup) {
    && c.version < s.nextVersion && c.uid < s.nextUid
    && (s.obj.Some? ==>
          && (s.obj.value.version == c.version ==> s.obj.value == c)
          && (s.obj.value.uid == c.uid ==> Earlier(c, s.obj.value)))
  }

  /** How the store may change in one step: not at all, removal, or a freshly versioned later state or new object. */
  predicate Evolves(s: Store, t: Store) {
    && s.nextVersion <= t.nextVersion && s.nextUid <= t.nextUid
    && (t.obj.Some? && t.obj != s.obj ==>
          && s.nextVersion <= t.obj.value.version < t.nextVersion && t.obj.value.uid < t.nextUid
          && (t.obj.value.deleting ==> t.obj.value.finalizer)
          && (s.nextUid <= t.obj.value.uid || (s.obj.Some? && Earlier(s.obj.value, t.obj.value))))
  }

  lemma FaithfulKept(s: Store, t: Store, c: Backup)
    requires StoreOk(s) && Evolves(s, t) && Faithful(s, c)
    ensures StoreOk(t) && Faithful(t, c)
  {
  }

  lemma ReadIsFaithful(s: Store)
    requires StoreOk(s) && s.obj.Some?
    ensures Faithful(s, s.obj.value)
  {
  }

  function WatcherCopy(op: WatcherOp): Option<Backup> {
    match op
    case WDelete(_, b) => Some(b)
    case WMarkStatus(_, b) => Some(b)
    case WSyncLookup(_, b) => Some(b)
    case WSyncUpdate(_, b, _) => Some(b)
    case WCreatedStatus(_, b) => Some(b)
    case _ => None
  }

  function BackupCopy(op: BackupOp): Option<Backup> {
    if op.BIdle? || op.BGet? then None else Some(op.b)
  }

  /** The status held in memory, as far as the pass has set one. */
  predicate StatusOk(op: BackupOp) {
    op.BPods? || op.BCron? || op.BStatus? ==> op.st.autoCreated == op.b.status.autoCreated
  }

  predicate CopyInv(w: World) {
    && StoreOk(w.store)
    && (WatcherCopy(w.watcher).Some? ==> Faithful(w.store, WatcherCopy(w.watcher).value))
    && (BackupCopy(w.reconciler).Some? ==> Faithful(w.store, BackupCopy(w.reconciler).value))
    && StatusOk(w.reconciler)
  }

  lemma UpdateEvolves(s: Store, copy: Backup)
    requires StoreOk(s) && Current(s, copy)
    ensures Evolves(s, Update(s, copy))
  {
  }

  lemma UpdateStatusEvolves(s: Store, copy: Backup)
    requires StoreOk(s) && Current(s, copy) && (s.obj.value.status.autoCreated ==> copy.status.autoCreated)
    ensures Evolves(s, UpdateStatus(s, copy))
  {
  }

  lemma OtherVerbsEvolve(s: Store, spec: Spec, owner: Option<nat>)
    requires StoreOk(s)
    ensures Evolves(s, s) && Evolves(s, Delete(s))
    ensures s.obj.None? ==> Evolves(s, Create(s, spec, owner))
  {
  }

  /** A copy held after a step was held before it or is what the server just returned. */
  predicate Taken(s: Store, before: Option<Backup>, after: Option<Backup>) {
    after.Some? ==> after == before || after == s.obj
  }

  predicate Progress(w: World, v: World) {
    && Evolves(w.store, v.store)
    && Taken(v.store, WatcherCopy(w.watcher), WatcherCopy(v.watcher))
    && Taken(v.store, BackupCopy(w.reconciler), BackupCopy(v.reconciler))
    && StatusOk(v.reconciler)
  }

  lemma WatcherStatusProgress(w: World, out: Outcome, repo: Option<Repository>)
    requires CopyInv(w) && (w.watcher.WMarkStatus? || w.watcher.WCreatedStatus?)
    ensures Progress(w, WatcherNext(w, out, repo))
  {
    if Current(w.store, w.watcher.b) { UpdateStatusEvolves(w.store, Marked(w.watcher.b)); }
  }

  lemma WatcherSyncProgress(w: World, out: Outcome, repo: Option<Repository>)
    requires CopyInv(w) && w.watcher.WSyncUpdate?
    ensures Progress(w, WatcherNext(w, out, repo))
  {
    if Current(w.store, w.watcher.b) { UpdateEvolves(w.store, WithSchedule(w.watcher.b, w.watcher.schedule)); }
  }

  lemma WatcherCreateProgress(w: World, out: Outcome, repo: Option<Repository>)
    requires CopyInv(w) && w.watcher.WCreate?
    ensures Progress(w, WatcherNext(w, out, repo))
  {
    OtherVerbsEvolve(w.store, w.watcher.spec, Some(w.watcher.pvc.uid));
  }

  lemma WatcherReadProgress(w: World, out: Outcome, repo: Option<Repository>)
    requires CopyInv(w) && !w.watcher.WMarkStatus? && !w.watcher.WCreatedStatus? && !w.watcher.WSyncUpdate?
    requires !w.watcher.WCreate?
    ensures Progress(w, WatcherNext(w, out, repo))
  {
    OtherVerbsEvolve(w.store, NO_SPEC, None);
  }

  lemma WatcherProgress(w: World, out: Outcome, repo: Option<Repository>)
    requires CopyInv(w)
    ensures Progress(w, WatcherNext(w, out, repo))
  {
    if w.watcher.WMarkStatus? || w.watcher.WCreatedStatus? {
      WatcherStatusProgress(w, out, repo);
    } else if w.watcher.WSyncUpdate? {
      WatcherSyncProgress(w, out, repo);
    } else if w.watcher.WCreate? {
      WatcherCreateProgress(w, out, repo);
    } else {
      WatcherReadProgress(w, out, repo);
    }
  }

  const NO_SPEC: Spec := Spec("", "", "", false, "")

  lemma RemoveProgress(w: World, out: Outcome, repo: Option<Repository>)
    requires CopyInv(w) && w.reconciler.BRemoveFinalizer?
    ensures Progress(w, FinalizerNext(w, out, repo))
  {
    var b := w.reconciler.b;
    if Current(w.store, b) { UpdateEvolves(w.store, b.(finalizer := false)); }
  }

  lemma AddProgress(w: World, out: Outcome, repo: Option<Repository>)
    requires CopyInv(w) && w.reconciler.BAddFinalizer?
    ensures Progress(w, FinalizerNext(w, out, repo))
  {
    var b := w.reconciler.b;
    if Current(w.store, b) { UpdateEvolves(w.store, b.(finalizer := true)); }
  }

  /** The steps of the cleanup before the removal. */
  predicate Preparing(op: BackupOp) { op.BDeleteLookup? || op.BDeleteExec? || op.BSecretGet? || op.BSecretDelete? }

  lemma PreparingKeepsCopy(w: World, out: Outcome, repo: Option<Repository>)
    requires Preparing(w.reconciler)
    ensures var v := FinalizerNext(w, out, repo);
            && v.store == w.store && v.watcher == w.watcher
            && (v.reconciler.BIdle?
                || ((Preparing(v.reconciler) || v.reconciler.BRemoveFinalizer?) && v.reconciler.b == w.reconciler.b))
  {
  }

  lemma FinalizerProgress(w: World, out: Outcome, repo: Option<Repository>)
    requires CopyInv(w) && !w.reconciler.BIdle? && !w.reconciler.BGet?
    ensures Progress(w, FinalizerNext(w, out, repo))
  {
    if w.reconciler.BRemoveFinalizer? {
      RemoveProgress(w, out, repo);
    } else if w.reconciler.BAddFinalizer? {
      AddProgress(w, out, repo);
    } else if Preparing(w.reconciler) {
      PreparingKeepsCopy(w, out, repo);
    }
  }

  /** After recording the secret the pass goes on with what is stored, or ends with what it had. */
  lemma RecordTakes(w: World, out: Outcome, repo: Option<Repository>, ran: bool, left: bool)
    requires w.reconciler.BRecord?
    ensures var v, b := DependenciesNext(w, out, repo, ran, left), w.reconciler.b;
            && v.watcher == w.watcher && v.passes == w.passes
            && (|| v.reconciler == BStatus(b, b.status)
                || (v.store.obj.Some? && v.reconciler.BPods? && v.reconciler.b == v.store.obj.value
                    && v.reconciler.st == ConnectedStatus(w, v.reconciler.b, w.reconciler.repo)))
  {
  }

  lemma RecordEvolves(w: World, out: Outcome, repo: Option<Repository>, ran: bool, left: bool)
    requires StoreOk(w.store) && w.reconciler.BRecord?
    ensures Evolves(w.store, DependenciesNext(w, out, repo, ran, left).store)
  {
    var b := w.reconciler.b;
    if Current(w.store, b) {
      UpdateEvolves(w.store, b.(spec := b.spec.(credentialsSecret := SecretName(w, b))));
    }
  }

  lemma RecordProgress(w: World, out: Outcome, repo: Option<Repository>, ran: bool, left: bool)
    requires CopyInv(w) && w.reconciler.BRecord?
    ensures Progress(w, DependenciesNext(w, out, repo, ran, left))
  {
    RecordTakes(w, out, repo, ran, left);
    RecordEvolves(w, out, repo, ran, left);
  }

  lemma EnsureProgress(w: World, out: Outcome, repo: Option<Repository>, ran: bool, left: bool)
    requires CopyInv(w) && w.reconciler.BEnsure?
    ensures Progress(w, DependenciesNext(w, out, repo, ran, left))
  {
    assert DependenciesNext(w, out, repo, ran, left).store == w.store;
  }

  predicate SameCopy(w: World, v: World) {
    && v.store == w.store && v.watcher == w.watcher
    && BackupCopy(v.reconciler) == BackupCopy(w.reconciler) && StatusOk(v.reconciler)
  }

  lemma PvcKeepsCopy(w: World, out: Outcome, repo: Option<Repository>, ran: bool, left: bool)
    requires w.reconciler.BPvc? || w.reconciler.BConfigMap?
    ensures SameCopy(w, DependenciesNext(w, out, repo, ran, left))
  {
  }

  lemma RepoKeepsCopy(w: World, out: Outcome, repo: Option<Repository>, ran: bool, left: bool)
    requires w.reconciler.BRepo?
    ensures SameCopy(w, DependenciesNext(w, out, repo, ran, left))
  {
  }

  lemma OthersKeepCopy(w: World, out: Outcome, repo: Option<Repository>, ran: bool, left: bool)
    requires StatusOk(w.reconciler) && !w.reconciler.BRecord? && !w.reconciler.BEnsure? && !w.reconciler.BPvc?
    requires !w.reconciler.BConfigMap? && !w.reconciler.BRepo?
    ensures SameCopy(w, DependenciesNext(w, out, repo, ran, left))
  {
  }

  lemma LookupProgress(w: World, out: Outcome, repo: Option<Repository>, ran: bool, left: bool)
    requires CopyInv(w) && !w.reconciler.BIdle? && !w.reconciler.BGet? && !w.reconciler.BRecord?
    requires !w.reconciler.BEnsure?
    ensures Progress(w, DependenciesNext(w, out, repo, ran, left))
  {
    if w.reconciler.BPvc? || w.reconciler.BConfigMap? {
      PvcKeepsCopy(w, out, repo, ran, left);
    } else if w.reconciler.BRepo? {
      RepoKeepsCopy(w, out, repo, ran, left);
    } else {
      OthersKeepCopy(w, out, repo, ran, left);
    }
  }

  lemma DependenciesProgress(w: World, out: Outcome, repo: Option<Repository>, ran: bool, left: bool)
    requires CopyInv(w) && !w.reconciler.BIdle? && !w.reconciler.BGet?
    ensures Progress(w, DependenciesNext(w, out, repo, ran, left))
  {
    if w.reconciler.BRecord? {
      RecordProgress(w, out, repo, ran, left);
    } else if w.reconciler.BEnsure? {
      EnsureProgress(w, out, repo, ran, left);
    } else {
      LookupProgress(w, out, repo, ran, left);
    }
  }

  lemma StatusProgress(w: World, out: Outcome, node: string)
    requires CopyInv(w) && w.reconciler.BStatus?
    ensures Progress(w, ResourcesNext(w, out, node))
  {
    var b := w.reconciler.b;
    if Current(w.store, b) { UpdateStatusEvolves(w.store, b.(status := w.reconciler.st)); }
  }

  lemma PodsKeepCopy(w: World, out: Outcome, node: string)
    requires w.reconciler.BPods? && StatusOk(w.reconciler)
    ensures SameCopy(w, ResourcesNext(w, out, node))
  {
  }

  lemma CronKeepsCopy(w: World, out: Outcome, node: string)
    requires w.reconciler.BCron? && StatusOk(w.reconciler)
    ensures SameCopy(w, ResourcesNext(w, out, node))
  {
  }

  lemma ResourcesProgress(w: World, out: Outcome, node: string)
    requires CopyInv(w) && (w.reconciler.BPods? || w.reconciler.BCron? || w.reconciler.BStatus?)
    ensures Progress(w, ResourcesNext(w, out, node))
  {
    if w.reconciler.BStatus? {
      StatusProgress(w, out, node);
    } else if w.reconciler.BPods? {
      PodsKeepCopy(w, out, node);
    } else {
      CronKeepsCopy(w, out, node);
    }
  }

  lemma UserEvolves(w: World, e: Event)
    requires StoreOk(w.store)
    ensures Evolves(w.store, UserNext(w, e).store)
  {
    OtherVerbsEvolve(w.store, if e.UserCreates? then e.spec else NO_SPEC, if e.UserCreates? then e.owner else None);
    if w.store.obj.Some? {
      var o := w.store.obj.value;
      match e
      case UserEditsSpec(spec) => UpdateEvolves(w.store, o.(spec := spec));
      case UserEditsOwner(owner) => UpdateEvolves(w.store, o.(owner := owner));
      case UserStripsFinalizer => UpdateEvolves(w.store, o.(finalizer := false));
      case _ =>
    }
  }

  /** What others may touch: the store, the PVC and the secrets. */
  lemma UserKeepsPasses(w: World, e: Event)
    ensures var v := UserNext(w, e); v == w.(store := v.store, pvc := v.pvc, secrets := v.secrets)
  {
  }

  lemma UserProgress(w: World, e: Event)
    requires CopyInv(w)
    ensures Progress(w, UserNext(w, e))
  {
    UserEvolves(w, e);
    UserKeepsPasses(w, e);
  }

  lemma BackupProgress(w: World, e: Event)
    requires CopyInv(w) && e.BackupStep? && BackupCopy(w.reconciler).Some?
    ensures Progress(w, Step(w, e))
  {
    if w.reconciler.BPods? || w.reconciler.BCron? || w.reconciler.BStatus? {
      ResourcesProgress(w, e.out, e.node);
    } else {
      FinalizerProgress(w, e.out, e.repo);
      DependenciesProgress(w, e.out, e.repo, e.ran, e.left);
    }
  }

  lemma StepProgress(w: World, e: Event)
    requires CopyInv(w)
    ensures Progress(w, Step(w, e))
  {
    if e.WatcherStep? {
      WatcherProgress(w, e.out, e.repo);
    } else if e.BackupStep? {
      if BackupCopy(w.reconciler).Some? { BackupProgress(w, e); }
    } else {
      UserProgress(w, e);
    }
  }

  lemma CopyStep(w: World, e: Event)
    requires CopyInv(w)
    ensures CopyInv(Step(w, e))
  {
    StepProgress(w, e);
    ProgressKeeps(w, Step(w, e));
  }

  lemma ProgressKeeps(w: World, v: World)
    requires CopyInv(w) && Progress(w, v)
    ensures CopyInv(v)
  {
    if WatcherCopy(w.watcher).Some? {
      FaithfulKept(w.store, v.store, WatcherCopy(w.watcher).value);
    }
    if BackupCopy(w.reconciler).Some? {
      FaithfulKept(w.store, v.store, BackupCopy(w.reconciler).value);
    }
  }

  lemma {:induction false} CopyRun(w: World, es: seq<Event>)
    requires Initial(w)
    ensures CopyInv(Run(w, es))
  {
    if es != [] {
      CopyRun(w, es[..|es| - 1]);
      CopyStep(Run(w, es[..|es| - 1]), es[|es| - 1]);
    }
  }

  // --- What survives whole runs ---

  /** A state seen once stays an earlier state of the object for the rest of its life. */
  lemma {:induction false} FaithfulRun(w: World, es: seq<Event>, n: nat, c: Backup)
    requires Initial(w) && n <= |es| && Faithful(Run(w, es[..n]).store, c)
    ensures Faithful(Run(w, es).store, c)
    decreases |es|
  {
    if n == |es| {
      assert es[..n] == es;
    } else {
      var before := es[..|es| - 1];
      assert before[..n] == es[..n];
      FaithfulRun(w, before, n, c);
      CopyRun(w, before);
      StepProgress(Run(w, before), es[|es| - 1]);
      FaithfulKept(Run(w, before).store, Run(w, es).store, c);
    }
  }

  /** Whatever the interleaving: a stored autoCreated flag and a deletion mark last for the object's life. */
  lemma FlagsLast(w: World, es: seq<Event>, n: nat)
    requires Initial(w) && n <= |es|
    requires Run(w, es[..n]).store.obj.Some? && Run(w, es).store.obj.Some?
    requires Run(w, es[..n]).store.obj.value.uid == Run(w, es).store.obj.value.uid
    ensures Earlier(Run(w, es[..n]).store.obj.value, Run(w, es).store.obj.value)
  {
    CopyRun(w, es[..n]);
    ReadIsFaithful(Run(w, es[..n]).store);
    FaithfulRun(w, es, n, Run(w, es[..n]).store.obj.value);
  }

  /** Fields a watcher step may change: the schedule, the auto-created flag and the deletion mark. */
  predicate WatcherFieldsOnly(o: Backup, o': Backup) {
    && o'.uid == o.uid && o'.finalizer == o.finalizer && o'.owner == o.owner
    && o'.spec == o.spec.(schedule := o'.spec.schedule)
    && o'.status == o.status.(autoCreated := o'.status.autoCreated)
  }

  /** Fields a reconciler step may change: the finalizer, the credentials secret and its own status fields. */
  predicate ReconcilerFieldsOnly(o: Backup, o': Backup) {
    && o'.uid == o.uid && o'.owner == o.owner && o'.deleting == o.deleting
    && o'.spec == o.spec.(credentialsSecret := o'.spec.credentialsSecret)
    && o'.status.autoCreated == o.status.autoCreated
  }

  /** The watcher discards nothing the reconciler or a user stored. */
  lemma WatcherKeepsOthersFields(w: World, out: Outcome, repo: Option<Repository>)
    requires CopyInv(w) && w.store.obj.Some? && WatcherNext(w, out, repo).store.obj.Some?
    ensures WatcherFieldsOnly(w.store.obj.value, WatcherNext(w, out, repo).store.obj.value)
  {
    if w.watcher.WMarkStatus? || w.watcher.WCreatedStatus? {
      MarkFields(w, out, repo);
    } else if w.watcher.WSyncUpdate? {
      SyncFields(w, out, repo);
    } else if !w.watcher.WDelete? && !w.watcher.WCreate? {
      WatcherReadsKeepStore(w, out, repo);
    }
  }

  /** What the two flag writes do to the store. */
  predicate StatusWritten(s: Store, copy: Backup, t: Store) {
    t == s || (Current(s, copy) && t == UpdateStatus(s, copy))
  }

  lemma MarkWrites(w: World, out: Outcome, repo: Option<Repository>)
    requires w.watcher.WMarkStatus?
    ensures StatusWritten(w.store, Marked(w.watcher.b), WatcherNext(w, out, repo).store)
  {
  }

  lemma CreatedWrites(w: World, out: Outcome, repo: Option<Repository>)
    requires w.watcher.WCreatedStatus?
    ensures StatusWritten(w.store, Marked(w.watcher.b), WatcherNext(w, out, repo).store)
  {
  }

  lemma MarkedFields(s: Store, b: Backup, t: Store)
    requires Faithful(s, b) && s.obj.Some? && StatusWritten(s, Marked(b), t)
    ensures t.obj.Some? && WatcherFieldsOnly(s.obj.value, t.obj.value)
  {
  }

  lemma MarkFields(w: World, out: Outcome, repo: Option<Repository>)
    requires CopyInv(w) && (w.watcher.WMarkStatus? || w.watcher.WCreatedStatus?) && w.store.obj.Some?
    ensures WatcherNext(w, out, repo).store.obj.Some?
    ensures WatcherFieldsOnly(w.store.obj.value, WatcherNext(w, out, repo).store.obj.value)
  {
    if w.watcher.WMarkStatus? { MarkWrites(w, out, repo); } else { CreatedWrites(w, out, repo); }
    MarkedFields(w.store, w.watcher.b, WatcherNext(w, out, repo).store);
  }

  lemma SyncFields(w: World, out: Outcome, repo: Option<Repository>)
    requires CopyInv(w) && w.watcher.WSyncUpdate?
    requires w.store.obj.Some? && WatcherNext(w, out, repo).store.obj.Some?
    ensures WatcherFieldsOnly(w.store.obj.value, WatcherNext(w, out, repo).store.obj.value)
  {
  }

  lemma WatcherReadsKeepStore(w: World, out: Outcome, repo: Option<Repository>)
    requires !w.watcher.WMarkStatus? && !w.watcher.WCreatedStatus? && !w.watcher.WSyncUpdate?
    requires !w.watcher.WDelete? && !w.watcher.WCreate?
    ensures WatcherNext(w, out, repo).store == w.store
  {
  }

  /** A watcher step touches nothing of the pass the reconciler is in. */
  lemma WatcherKeepsPass(w: World, out: Outcome, repo: Option<Repository>)
    ensures var v := WatcherNext(w, out, repo); v == w.(store := v.store, watcher := v.watcher)
  {
    if w.watcher.WMarkStatus? || w.watcher.WSyncUpdate? || w.watcher.WCreatedStatus? || w.watcher.WCreate? {
      WatcherWritesKeepPass(w, out, repo);
    }
  }

  lemma WatcherWritesKeepPass(w: World, out: Outcome, repo: Option<Repository>)
    requires w.watcher.WMarkStatus? || w.watcher.WSyncUpdate? || w.watcher.WCreatedStatus? || w.watcher.WCreate?
    ensures var v := WatcherNext(w, out, repo); v == w.(store := v.store, watcher := v.watcher)
  {
  }

  predicate KeepsWatcher(w: World, v: World) {
    v.watcher == w.watcher && v.pvc == w.pvc && v.namespace == w.namespace
  }

  lemma FinalizerKeepsWatcher(w: World, out: Outcome, repo: Option<Repository>)
    ensures KeepsWatcher(w, FinalizerNext(w, out, repo))
  {
  }

  lemma DependenciesKeepWatcher(w: World, out: Outcome, repo: Option<Repository>, ran: bool, left: bool)
    ensures KeepsWatcher(w, DependenciesNext(w, out, repo, ran, left))
  {
  }

  /** A reconciler step touches nothing of the pass the watcher is in. */
  lemma BackupKeepsWatcher(w: World, e: Event)
    requires e.BackupStep?
    ensures KeepsWatcher(w, Step(w, e))
  {
    FinalizerKeepsWatcher(w, e.out, e.repo);
    DependenciesKeepWatcher(w, e.out, e.repo, e.ran, e.left);
  }

  /** The reconciler discards nothing the watcher or a user stored. */
  lemma ReconcilerKeepsOthersFields(w: World, e: Event)
    requires CopyInv(w) && e.BackupStep? && w.store.obj.Some? && Step(w, e).store.obj.Some?
    ensures ReconcilerFieldsOnly(w.store.obj.value, Step(w, e).store.obj.value)
  {
    if w.reconciler.BRemoveFinalizer? || w.reconciler.BAddFinalizer? {
      FinalizerFields(w, e.out, e.repo);
    } else if w.reconciler.BRecord? {
      RecordFields(w, e.out, e.repo, e.ran, e.left);
    } else if w.reconciler.BStatus? {
      StatusFields(w, e.out, e.node);
    } else {
      OtherStepsKeepStore(w, e);
    }
  }

  /** What an Update of the reconciler does to the store. */
  predicate Updated(s: Store, copy: Backup, t: Store) {
    t == s || (Current(s, copy) && t == Update(s, copy))
  }

  lemma AddWrites(w: World, out: Outcome, repo: Option<Repository>)
    requires w.reconciler.BAddFinalizer?
    ensures Updated(w.store, w.reconciler.b.(finalizer := true), FinalizerNext(w, out, repo).store)
  {
  }

  lemma RemoveWrites(w: World, out: Outcome, repo: Option<Repository>)
    requires w.reconciler.BRemoveFinalizer?
    ensures Updated(w.store, w.reconciler.b.(finalizer := false), FinalizerNext(w, out, repo).store)
  {
  }

  lemma RecordWrites(w: World, out: Outcome, repo: Option<Repository>, ran: bool, left: bool)
    requires w.reconciler.BRecord?
    ensures var b := w.reconciler.b;
            var copy := b.(spec := b.spec.(credentialsSecret := SecretName(w, b)));
            Updated(w.store, copy, DependenciesNext(w, out, repo, ran, left).store)
  {
  }

  lemma UpdatedFields(s: Store, b: Backup, copy: Backup, t: Store)
    requires Faithful(s, b) && s.obj.Some? && t.obj.Some? && Updated(s, copy, t)
    requires copy == b.(finalizer := copy.finalizer, spec := b.spec.(credentialsSecret := copy.spec.credentialsSecret))
    ensures ReconcilerFieldsOnly(s.obj.value, t.obj.value)
  {
  }

  lemma FinalizerFields(w: World, out: Outcome, repo: Option<Repository>)
    requires CopyInv(w) && (w.reconciler.BRemoveFinalizer? || w.reconciler.BAddFinalizer?)
    requires w.store.obj.Some? && FinalizerNext(w, out, repo).store.obj.Some?
    ensures ReconcilerFieldsOnly(w.store.obj.value, FinalizerNext(w, out, repo).store.obj.value)
  {
    var b := w.reconciler.b;
    if w.reconciler.BAddFinalizer? { AddWrites(w, out, repo); } else { RemoveWrites(w, out, repo); }
    UpdatedFields(w.store, b, b.(finalizer := w.reconciler.BAddFinalizer?), FinalizerNext(w, out, repo).store);
  }

  lemma RecordFields(w: World, out: Outcome, repo: Option<Repository>, ran: bool, left: bool)
    requires CopyInv(w) && w.reconciler.BRecord?
    requires w.store.obj.Some? && DependenciesNext(w, out, repo, ran, left).store.obj.Some?
    ensures ReconcilerFieldsOnly(w.store.obj.value, DependenciesNext(w, out, repo, ran, left).store.obj.value)
  {
    var b := w.reconciler.b;
    RecordWrites(w, out, repo, ran, left);
    UpdatedFields(w.store, b, b.(spec := b.spec.(credentialsSecret := SecretName(w, b))),
                  DependenciesNext(w, out, repo, ran, left).store);
  }

  lemma StatusFields(w: World, out: Outcome, node: string)
    requires CopyInv(w) && w.reconciler.BStatus?
    requires w.store.obj.Some? && ResourcesNext(w, out, node).store.obj.Some?
    ensures ReconcilerFieldsOnly(w.store.obj.value, ResourcesNext(w, out, node).store.obj.value)
  {
  }

  lemma OtherStepsKeepStore(w: World, e: Event)
    requires e.BackupStep?
    requires !w.reconciler.BRemoveFinalizer? && !w.reconciler.BAddFinalizer? && !w.reconciler.BRecord?
    requires !w.reconciler.BStatus?
    ensures Step(w, e).store == w.store
  {
    CleaningKeepsStore(w, e.out, e.repo);
    BuildingKeepsStore(w, e.out, e.repo, e.ran, e.left);
  }

  lemma CleaningKeepsStore(w: World, out: Outcome, repo: Option<Repository>)
    requires !w.reconciler.BRemoveFinalizer? && !w.reconciler.BAddFinalizer?
    ensures FinalizerNext(w, out, repo).store == w.store
  {
  }

  lemma BuildingKeepsStore(w: World, out: Outcome, repo: Option<Repository>, ran: bool, left: bool)
    requires !w.reconciler.BRecord?
    ensures DependenciesNext(w, out, repo, ran, left).store == w.store
  {
  }
}
