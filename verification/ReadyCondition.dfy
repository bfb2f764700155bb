/** What a stored Ready=True says about the pass that set it. */
module ReadyCondition {
  import opened Options
  import opened Resources
  import opened ApiServer
  import opened Controllers
  import opened CopyDiscipline
  import opened Scenarios
  import Naming

  predicate ReadyTrue(st: Status) { st.ready.Some? && st.ready.value.isTrue }

  predicate CronTrue(st: Status) { st.cronJobCreated.Some? && st.cronJobCreated.value.isTrue }

  /** A pass that found everything it needs and left the CronJob built from exactly what it saw. */
  predicate Complete(p: Pass) {
    && p.facts.pvc && p.facts.repo.Some?
    && (p.facts.repo.value.serverEnabled <==> p.facts.ensured.Some?)
    && (p.facts.configMap <==> !p.facts.repo.value.serverEnabled && p.facts.repo.value.storage.Filesystem?)
    && p.facts.node != ""
    && p.facts.cron == Some(CronJob(p.spec, p.facts.node, p.facts.repo.value))
    && !p.spec.suspend
  }

  /** CronJobCreated was set by a pass and tells whether its CronJob call succeeded. */
  predicate CronBacked(passes: map<nat, Pass>, st: Status) {
    st.cronJobCreated.Some? ==> st.cronBy in passes && (CronTrue(st) <==> passes[st.cronBy].facts.cron.Some?)
  }

  /**
   * A true Ready condition of object `uid` was set by a complete pass over that object at the observed
   * generation, and no later pass than the one that set CronJobCreated.
   */
  predicate Backed(passes: map<nat, Pass>, uid: nat, st: Status) {
    && CronBacked(passes, st)
    && (ReadyTrue(st) ==>
          && st.readyBy in passes && passes[st.readyBy].uid == uid
          && passes[st.readyBy].generation == st.ready.value.observedGeneration && Complete(passes[st.readyBy])
          && st.cronJobCreated.Some? && st.readyBy <= st.cronBy)
  }

  /** Both conditions, with the passes that set them. */
  predicate SameConditions(a: Status, b: Status) {
    a.ready == b.ready && a.readyBy == b.readyBy && a.cronJobCreated == b.cronJobCreated && a.cronBy == b.cronBy
  }

  predicate HasMemory(op: BackupOp) { op.BPods? || op.BCron? || op.BStatus? }

  /** All Ready conditions around: stored, in the two controllers' copies, and in memory. */
  predicate ReadyInv(w: World) {
    && (w.store.obj.Some? ==> Backed(w.passes, w.store.obj.value.uid, w.store.obj.value.status))
    && (WatcherCopy(w.watcher).Some? ==>
          Backed(w.passes, WatcherCopy(w.watcher).value.uid, WatcherCopy(w.watcher).value.status))
    && (BackupCopy(w.reconciler).Some? ==> Backed(w.passes, w.reconciler.b.uid, w.reconciler.b.status))
    && (HasMemory(w.reconciler) ==> Backed(w.passes, w.reconciler.b.uid, w.reconciler.st))
  }

  /** Pass numbers are used once: until its CronJob call a pass has no record. */
  predicate Numbered(w: World) {
    && (forall n :: n in w.passes ==> n <= w.pass)
    && (!w.reconciler.BIdle? && !w.reconciler.BStatus? ==> w.pass !in w.passes)
  }

  /** All the optimistic lock has to give: a copy that passes the version check is the stored object. */
  predicate Exact(s: Store, c: Backup) {
    Current(s, c) ==> s.obj.value == c
  }

  lemma FlagBacked(s: Store, b: Backup, t: Store, passes: map<nat, Pass>)
    requires Exact(s, b) && StatusWritten(s, Marked(b), t) && t.obj.Some?
    requires Backed(passes, b.uid, b.status) && (s.obj.Some? ==> Backed(passes, s.obj.value.uid, s.obj.value.status))
    ensures Backed(passes, t.obj.value.uid, t.obj.value.status)
  {
  }

  lemma MarkCopies(w: World, out: Outcome, repo: Option<Repository>)
    requires w.watcher.WMarkStatus? || w.watcher.WCreatedStatus?
    ensures var v := WatcherNext(w, out, repo);
            WatcherCopy(v.watcher).Some? ==> WatcherCopy(v.watcher) == v.store.obj
  {
  }

  lemma MarkReady(w: World, out: Outcome, repo: Option<Repository>)
    requires ReadyInv(w) && (w.watcher.WMarkStatus? || w.watcher.WCreatedStatus?) && Exact(w.store, w.watcher.b)
    ensures ReadyInv(WatcherNext(w, out, repo))
  {
    var v := WatcherNext(w, out, repo);
    WatcherKeepsPass(w, out, repo);
    MarkCopies(w, out, repo);
    if w.watcher.WMarkStatus? { MarkWrites(w, out, repo); } else { CreatedWrites(w, out, repo); }
    if v.store.obj.Some? { FlagBacked(w.store, w.watcher.b, v.store, w.passes); }
  }

  lemma SyncReady(w: World, out: Outcome, repo: Option<Repository>)
    requires ReadyInv(w) && w.watcher.WSyncUpdate?
    ensures ReadyInv(WatcherNext(w, out, repo))
  {
  }

  lemma CreateReady(w: World, out: Outcome, repo: Option<Repository>)
    requires ReadyInv(w) && w.watcher.WCreate?
    ensures ReadyInv(WatcherNext(w, out, repo))
  {
  }

  lemma DeleteReady(w: World, out: Outcome, repo: Option<Repository>)
    requires ReadyInv(w) && w.watcher.WDelete?
    ensures ReadyInv(WatcherNext(w, out, repo))
  {
  }

  /** Reads of the watcher: the store stays, and the copy is the one in hand or the stored object. */
  lemma WatcherReads(w: World, out: Outcome, repo: Option<Repository>)
    requires !w.watcher.WMarkStatus? && !w.watcher.WCreatedStatus? && !w.watcher.WSyncUpdate? && !w.watcher.WCreate?
    requires !w.watcher.WDelete?
    ensures var v := WatcherNext(w, out, repo);
            && v == w.(watcher := v.watcher) && Taken(w.store, WatcherCopy(w.watcher), WatcherCopy(v.watcher))
  {
  }

  lemma WatcherReadReady(w: World, out: Outcome, repo: Option<Repository>)
    requires ReadyInv(w) && !w.watcher.WMarkStatus? && !w.watcher.WCreatedStatus? && !w.watcher.WSyncUpdate?
    requires !w.watcher.WCreate?
    ensures ReadyInv(WatcherNext(w, out, repo))
  {
    if w.watcher.WDelete? { DeleteReady(w, out, repo); } else { WatcherReads(w, out, repo); }
  }

  lemma UpdateBacked(s: Store, copy: Backup, t: Store, passes: map<nat, Pass>)
    requires Updated(s, copy, t) && t.obj.Some? && (s.obj.Some? ==> Backed(passes, s.obj.value.uid, s.obj.value.status))
    ensures s.obj.Some? && Backed(passes, t.obj.value.uid, t.obj.value.status)
  {
  }

  /** The finalizer Updates keep the records, and go on with the stored object or not at all. */
  lemma FinalizerUpdateCopies(w: World, out: Outcome, repo: Option<Repository>)
    requires w.reconciler.BAddFinalizer? || w.reconciler.BRemoveFinalizer?
    ensures var v := FinalizerNext(w, out, repo);
            && v.watcher == w.watcher && v.passes == w.passes && !HasMemory(v.reconciler)
            && (BackupCopy(v.reconciler).Some? ==> BackupCopy(v.reconciler) == v.store.obj)
  {
  }

  lemma FinalizerUpdateReady(w: World, out: Outcome, repo: Option<Repository>)
    requires ReadyInv(w) && (w.reconciler.BAddFinalizer? || w.reconciler.BRemoveFinalizer?)
    ensures ReadyInv(FinalizerNext(w, out, repo))
  {
    var v := FinalizerNext(w, out, repo);
    FinalizerUpdateCopies(w, out, repo);
    if w.reconciler.BAddFinalizer? { AddWrites(w, out, repo); } else { RemoveWrites(w, out, repo); }
    if v.store.obj.Some? {
      UpdateBacked(w.store, w.reconciler.b.(finalizer := w.reconciler.BAddFinalizer?), v.store, w.passes);
    }
  }

  /** Neither the store nor the records change, and the copy in hand stays. */
  predicate KeepsCopy(w: World, v: World) {
    && v.store == w.store && v.watcher == w.watcher && v.passes == w.passes && !HasMemory(v.reconciler)
    && (BackupCopy(v.reconciler).Some? ==> BackupCopy(w.reconciler).Some? && v.reconciler.b == w.reconciler.b)
  }

  lemma SecretKeepsCopy(w: World, out: Outcome, repo: Option<Repository>)
    requires w.reconciler.BSecretGet? || w.reconciler.BSecretDelete?
    ensures KeepsCopy(w, FinalizerNext(w, out, repo))
  {
  }

  lemma CleanupKeepsCopy(w: World, out: Outcome, repo: Option<Repository>)
    requires BackupCopy(w.reconciler).Some? && !w.reconciler.BAddFinalizer? && !w.reconciler.BRemoveFinalizer?
    requires !HasMemory(w.reconciler)
    ensures KeepsCopy(w, FinalizerNext(w, out, repo))
  {
    if w.reconciler.BSecretGet? || w.reconciler.BSecretDelete? { SecretKeepsCopy(w, out, repo); }
  }

  lemma FinalizerReady(w: World, out: Outcome, repo: Option<Repository>)
    requires ReadyInv(w) && BackupCopy(w.reconciler).Some? && !w.reconciler.BAddFinalizer?
    requires !w.reconciler.BRemoveFinalizer?
    requires !HasMemory(w.reconciler)
    ensures ReadyInv(FinalizerNext(w, out, repo))
  {
    CleanupKeepsCopy(w, out, repo);
  }

  lemma EnsureMemory(w: World, out: Outcome, repo: Option<Repository>, ran: bool, left: bool)
    requires w.reconciler.BEnsure?
    ensures var v := DependenciesNext(w, out, repo, ran, left);
            && v.store == w.store && v.watcher == w.watcher && v.passes == w.passes
            && BackupCopy(v.reconciler).Some? && v.reconciler.b == w.reconciler.b
            && (HasMemory(v.reconciler) ==> SameConditions(v.reconciler.st, w.reconciler.b.status))
  {
  }

  lemma EnsureReady(w: World, out: Outcome, repo: Option<Repository>, ran: bool, left: bool)
    requires ReadyInv(w) && w.reconciler.BEnsure?
    ensures ReadyInv(DependenciesNext(w, out, repo, ran, left))
  {
    EnsureMemory(w, out, repo, ran, left);
  }

  /**
   * Recording the secret keeps the records; the copy is the stored object or the one in hand, its conditions as they
   * were.
   */
  lemma RecordCopies(w: World, out: Outcome, repo: Option<Repository>, ran: bool, left: bool)
    requires w.reconciler.BRecord?
    ensures var v := DependenciesNext(w, out, repo, ran, left);
            && v.watcher == w.watcher && v.passes == w.passes
            && BackupCopy(v.reconciler).Some? && HasMemory(v.reconciler)
            && (v.reconciler.b == w.reconciler.b || Some(v.reconciler.b) == v.store.obj)
            && SameConditions(v.reconciler.st, v.reconciler.b.status)
  {
    RecordTakes(w, out, repo, ran, left);
  }

  lemma RecordReady(w: World, out: Outcome, repo: Option<Repository>, ran: bool, left: bool)
    requires ReadyInv(w) && w.reconciler.BRecord?
    ensures ReadyInv(DependenciesNext(w, out, repo, ran, left))
  {
    var v := DependenciesNext(w, out, repo, ran, left);
    var b := w.reconciler.b;
    RecordCopies(w, out, repo, ran, left);
    RecordWrites(w, out, repo, ran, left);
    if v.store.obj.Some? {
      UpdateBacked(w.store, b.(spec := b.spec.(credentialsSecret := SecretName(w, b))), v.store, w.passes);
    }
  }

  lemma PvcReady(w: World, out: Outcome, repo: Option<Repository>, ran: bool, left: bool)
    requires ReadyInv(w) && (w.reconciler.BPvc? || w.reconciler.BConfigMap?)
    ensures ReadyInv(DependenciesNext(w, out, repo, ran, left))
  {
  }

  lemma RepoReady(w: World, out: Outcome, repo: Option<Repository>, ran: bool, left: bool)
    requires ReadyInv(w) && w.reconciler.BRepo?
    ensures ReadyInv(DependenciesNext(w, out, repo, ran, left))
  {
  }

  lemma StatusReady(w: World, out: Outcome, node: string)
    requires ReadyInv(w) && w.reconciler.BStatus? && Exact(w.store, w.reconciler.b)
    ensures ReadyInv(ResourcesNext(w, out, node))
  {
  }

  lemma PodsReady(w: World, out: Outcome, node: string)
    requires ReadyInv(w) && w.reconciler.BPods?
    ensures ReadyInv(ResourcesNext(w, out, node))
  {
  }

  lemma RecordedKeeps(passes: map<nat, Pass>, n: nat, p: Pass, uid: nat, st: Status)
    requires n !in passes && Backed(passes, uid, st)
    ensures Backed(passes[n := p], uid, st)
  {
  }

  /** The one step that records a pass: what it sets to true, the record completes. */
  lemma CronReady(w: World, out: Outcome, node: string)
    requires ReadyInv(w) && w.reconciler.BCron? && FactsOk(w) && Numbered(w)
    ensures ReadyInv(ResourcesNext(w, out, node))
  {
    var v := ResourcesNext(w, out, node);
    var b, n, p := w.reconciler.b, w.pass, v.passes[w.pass];
    assert v.passes == w.passes[n := p];
    RecordedKeeps(w.passes, n, p, b.uid, b.status);
    RecordedKeeps(w.passes, n, p, b.uid, w.reconciler.st);
    if w.store.obj.Some? { RecordedKeeps(w.passes, n, p, w.store.obj.value.uid, w.store.obj.value.status); }
    if WatcherCopy(w.watcher).Some? {
      RecordedKeeps(w.passes, n, p, WatcherCopy(w.watcher).value.uid, WatcherCopy(w.watcher).value.status);
    }
    CronMemory(w, out, node);
  }

  lemma CronMemory(w: World, out: Outcome, node: string)
    requires w.reconciler.BCron? && FactsOk(w) && Numbered(w) && Backed(w.passes, w.reconciler.b.uid, w.reconciler.st)
    ensures var v := ResourcesNext(w, out, node);
            v.reconciler.BStatus? && v.reconciler.b == w.reconciler.b
            && Backed(v.passes, v.reconciler.b.uid, v.reconciler.st)
  {
  }

  lemma UserReady(w: World, e: Event)
    requires ReadyInv(w)
    ensures ReadyInv(UserNext(w, e))
  {
  }

  lemma WatcherReady(w: World, out: Outcome, repo: Option<Repository>)
    requires CopyInv(w) && ReadyInv(w)
    ensures ReadyInv(WatcherNext(w, out, repo))
  {
    if w.watcher.WMarkStatus? || w.watcher.WCreatedStatus? {
      MarkReady(w, out, repo);
    } else if w.watcher.WSyncUpdate? {
      SyncReady(w, out, repo);
    } else if w.watcher.WCreate? {
      CreateReady(w, out, repo);
    } else {
      WatcherReadReady(w, out, repo);
    }
  }

  lemma QuietReady(w: World, e: Event)
    requires ReadyInv(w) && e.BackupStep? && BackupCopy(w.reconciler).Some?
    requires !w.reconciler.BAddFinalizer? && !w.reconciler.BRemoveFinalizer? && !w.reconciler.BEnsure?
    requires !w.reconciler.BRecord? && !w.reconciler.BStatus? && !w.reconciler.BCron?
    ensures ReadyInv(Step(w, e))
  {
    if w.reconciler.BPvc? || w.reconciler.BConfigMap? {
      PvcReady(w, e.out, e.repo, e.ran, e.left);
    } else if w.reconciler.BRepo? {
      RepoReady(w, e.out, e.repo, e.ran, e.left);
    } else if w.reconciler.BPods? {
      PodsReady(w, e.out, e.node);
    } else {
      FinalizerReady(w, e.out, e.repo);
    }
  }

  lemma BackupReady(w: World, e: Event)
    requires CopyInv(w) && ReadyInv(w) && FactsOk(w) && Numbered(w) && e.BackupStep? && BackupCopy(w.reconciler).Some?
    ensures ReadyInv(Step(w, e))
  {
    if w.reconciler.BAddFinalizer? || w.reconciler.BRemoveFinalizer? {
      FinalizerUpdateReady(w, e.out, e.repo);
    } else if w.reconciler.BEnsure? {
      EnsureReady(w, e.out, e.repo, e.ran, e.left);
    } else if w.reconciler.BRecord? {
      RecordReady(w, e.out, e.repo, e.ran, e.left);
    } else if w.reconciler.BStatus? {
      StatusReady(w, e.out, e.node);
    } else if w.reconciler.BCron? {
      CronReady(w, e.out, e.node);
    } else {
      QuietReady(w, e);
    }
  }

  lemma StepReady(w: World, e: Event)
    requires CopyInv(w) && ReadyInv(w) && FactsOk(w) && Numbered(w)
    ensures ReadyInv(Step(w, e))
  {
    if e.WatcherStep? {
      WatcherReady(w, e.out, e.repo);
    } else if e.BackupStep? {
      if BackupCopy(w.reconciler).Some? { BackupReady(w, e); }
    } else {
      UserReady(w, e);
    }
  }

  // --- What a pass has established when it sets Ready ---

  /** PVC and repository are found, and neither mode has begun its own phase. */
  predicate Found(w: World, r: Repository) {
    w.facts.pvc && w.facts.repo == Some(r) && NeitherMode(w.facts)
  }

  predicate NeitherMode(f: Facts) { f.ensured.None? && !f.configMap }

  /** Server mode has gone through EnsureUser, direct mode on a filesystem through the ConfigMap. */
  predicate Ensured(w: World, r: Repository) {
    && w.facts.pvc && w.facts.repo == Some(r) && (r.serverEnabled <==> w.facts.ensured.Some?)
    && (w.facts.configMap <==> !r.serverEnabled && r.storage.Filesystem?)
  }

  predicate FactsOk(w: World) {
    match w.reconciler
    case BAddFinalizer(_) => NeitherMode(w.facts)
    case BPvc(_) => NeitherMode(w.facts)
    case BRepo(_) => w.facts.pvc && NeitherMode(w.facts)
    case BEnsure(_, r) => Found(w, r) && r.serverEnabled
    case BRecord(_, r) => Ensured(w, r)
    case BConfigMap(_, r) => Found(w, r) && !r.serverEnabled && r.storage.Filesystem?
    case BPods(_, _, r) => Ensured(w, r)
    case BCron(_, _, r, n) => Ensured(w, r) && w.facts.node == n
    case _ => true
  }

  lemma StepFacts(w: World, e: Event)
    requires FactsOk(w)
    ensures FactsOk(Step(w, e))
  {
    match e
    case BackupStep(out, repo, node, ran, left) =>
      if BackupCopy(w.reconciler).Some? {
        FinalizerFacts(w, out, repo);
        DependenciesFacts(w, out, repo, ran, left);
        ResourcesFacts(w, out, node);
      }
    case WatcherStep(out, repo) => WatcherKeepsPass(w, out, repo);
    case _ =>
  }

  lemma FinalizerFacts(w: World, out: Outcome, repo: Option<Repository>)
    requires FactsOk(w)
    ensures FactsOk(FinalizerNext(w, out, repo))
  {
  }

  lemma DependenciesFacts(w: World, out: Outcome, repo: Option<Repository>, ran: bool, left: bool)
    requires FactsOk(w)
    ensures FactsOk(DependenciesNext(w, out, repo, ran, left))
  {
    if w.reconciler.BRecord? { RecordFacts(w, out, repo, ran, left); }
  }

  lemma ResourcesFacts(w: World, out: Outcome, node: string)
    requires FactsOk(w)
    ensures FactsOk(ResourcesNext(w, out, node))
  {
  }

  lemma RecordFacts(w: World, out: Outcome, repo: Option<Repository>, ran: bool, left: bool)
    requires FactsOk(w) && w.reconciler.BRecord?
    ensures FactsOk(DependenciesNext(w, out, repo, ran, left))
  {
  }

  /** A recorded pass saw an earlier state of the object, if that still exists. */
  predicate Aged(s: Store, p: Pass) {
    && p.uid < s.nextUid
    && (s.obj.Some? && s.obj.value.uid == p.uid ==>
          && p.generation <= s.obj.value.generation
          && (p.generation == s.obj.value.generation ==> p.spec == s.obj.value.spec))
  }

  predicate PassInv(w: World) {
    FactsOk(w) && Numbered(w) && forall n :: n in w.passes ==> Aged(w.store, w.passes[n])
  }

  /** Steps other than the reconciler's CronJob call record nothing. */
  lemma OthersRecordNothing(w: World, e: Event)
    requires !(e.BackupStep? && w.reconciler.BCron?)
    ensures Step(w, e).passes == w.passes && w.pass <= Step(w, e).pass
  {
    if e.WatcherStep? {
      WatcherKeepsPass(w, e.out, e.repo);
    } else if e.BackupStep? {
      DependenciesRecordNothing(w, e.out, e.repo, e.ran, e.left);
    }
  }

  lemma EnsureRecordsNothing(w: World, out: Outcome, repo: Option<Repository>, ran: bool, left: bool)
    requires w.reconciler.BEnsure?
    ensures var v := DependenciesNext(w, out, repo, ran, left); v.passes == w.passes && v.pass == w.pass
  {
  }

  lemma SecretRecordsNothing(w: World, out: Outcome, repo: Option<Repository>, ran: bool, left: bool)
    requires w.reconciler.BRecord?
    ensures var v := DependenciesNext(w, out, repo, ran, left); v.passes == w.passes && v.pass == w.pass
  {
  }

  lemma DependenciesRecordNothing(w: World, out: Outcome, repo: Option<Repository>, ran: bool, left: bool)
    ensures var v := DependenciesNext(w, out, repo, ran, left); v.passes == w.passes && v.pass == w.pass
  {
    if w.reconciler.BEnsure? {
      EnsureRecordsNothing(w, out, repo, ran, left);
    } else if w.reconciler.BRecord? {
      SecretRecordsNothing(w, out, repo, ran, left);
    }
  }

  lemma StepNumbered(w: World, e: Event)
    requires Numbered(w)
    ensures Numbered(Step(w, e))
  {
    if e.WatcherStep? {
      WatcherKeepsPass(w, e.out, e.repo);
    } else if e.BackupStep? {
      BackupNumbered(w, e);
    }
  }

  lemma BackupNumbered(w: World, e: Event)
    requires Numbered(w) && e.BackupStep?
    ensures Numbered(Step(w, e))
  {
    if w.reconciler.BCron? {
      CronNumbered(w, e.out, e.node);
    } else {
      OthersRecordNothing(w, e);
      StatusLast(w, e);
    }
  }

  lemma CronNumbered(w: World, out: Outcome, node: string)
    requires Numbered(w) && w.reconciler.BCron?
    ensures Numbered(ResourcesNext(w, out, node))
  {
  }

  /** An idle reconciler stays idle, one about to write its status ends, and no step changes the pass number. */
  lemma StatusLast(w: World, e: Event)
    requires e.BackupStep? && !w.reconciler.BCron?
    ensures var v := Step(w, e);
            v.pass == w.pass && (w.reconciler.BIdle? || w.reconciler.BStatus? ==> v.reconciler.BIdle?)
  {
    DependenciesRecordNothing(w, e.out, e.repo, e.ran, e.left);
  }

  lemma AgedKept(s: Store, t: Store, p: Pass)
    requires StoreOk(s) && Evolves(s, t) && Aged(s, p)
    ensures Aged(t, p)
  {
  }

  lemma CronAged(w: World, out: Outcome, node: string)
    requires CopyInv(w) && w.reconciler.BCron?
    ensures var v := ResourcesNext(w, out, node);
            forall n :: n in v.passes ==> (n in w.passes && v.passes[n] == w.passes[n]) || Aged(w.store, v.passes[n])
  {
  }

  lemma StepPasses(w: World, e: Event)
    requires CopyInv(w) && PassInv(w)
    ensures PassInv(Step(w, e))
  {
    var v := Step(w, e);
    StepFacts(w, e);
    StepNumbered(w, e);
    StepProgress(w, e);
    if e.BackupStep? && w.reconciler.BCron? {
      CronAged(w, e.out, e.node);
    } else {
      OthersRecordNothing(w, e);
    }
    forall n | n in v.passes ensures Aged(v.store, v.passes[n]) {
      AgedKept(w.store, v.store, v.passes[n]);
    }
  }

  lemma {:induction false} ReadyRun(w: World, es: seq<Event>)
    requires Initial(w)
    ensures CopyInv(Run(w, es)) && ReadyInv(Run(w, es)) && PassInv(Run(w, es))
  {
    CopyRun(w, es);
    if es != [] {
      var before := es[..|es| - 1];
      ReadyRun(w, before);
      StepReady(Run(w, before), es[|es| - 1]);
      StepPasses(Run(w, before), es[|es| - 1]);
    }
  }

  /**
   * Over every run: the pass that set a stored Ready=True worked on this very object, at the observed
   * generation, and had found the PVC and the repository, ensured the user in server mode or written the
   * ConfigMap in direct mode on a filesystem, brought the CronJob up to date and seen a node and an
   * unsuspended spec. As long as the observed generation is the current one, the spec it saw is the
   * stored spec.
   */
  lemma ReadyMeans(w: World, es: seq<Event>, o: Backup)
    requires Initial(w) && Run(w, es).store.obj == Some(o) && ReadyTrue(o.status)
    ensures o.status.readyBy in Run(w, es).passes
    ensures var p := Run(w, es).passes[o.status.readyBy];
            && Complete(p) && p.uid == o.uid
            && p.generation == o.status.ready.value.observedGeneration <= o.generation
            && (p.generation == o.generation ==> p.spec == o.spec)
  {
    ReadyRun(w, es);
    assert Backed(Run(w, es).passes, o.uid, o.status);
  }

  /**
   * Over every run: beside a stored Ready=True, CronJobCreated is not true exactly when the CronJob call
   * of the pass that set it failed; that pass is then a later one than the complete pass behind Ready.
   */
  lemma ReadyBesideCronIff(w: World, es: seq<Event>, o: Backup)
    requires Initial(w) && Run(w, es).store.obj == Some(o) && ReadyTrue(o.status)
    ensures o.status.cronBy in Run(w, es).passes
    ensures !CronTrue(o.status) <==> Run(w, es).passes[o.status.cronBy].facts.cron.None?
    ensures if CronTrue(o.status) then o.status.readyBy <= o.status.cronBy else o.status.readyBy < o.status.cronBy
  {
    StoredBacked(w, es, o);
  }

  lemma StoredBacked(w: World, es: seq<Event>, o: Backup)
    requires Initial(w) && Run(w, es).store.obj == Some(o)
    ensures Backed(Run(w, es).passes, o.uid, o.status)
  {
    ReadyRun(w, es);
  }

  // --- Who set the condition ---

  /** Each condition of `a` is as `b` has it, or was set by pass `n`. */
  predicate KeptOrSet(n: nat, a: Status, b: Status) {
    && (a.readyBy == n || (a.ready == b.ready && a.readyBy == b.readyBy))
    && (a.cronBy == n || (a.cronJobCreated == b.cronJobCreated && a.cronBy == b.cronBy))
  }

  /** A condition in memory is as the copy has it, or was set by this pass. */
  predicate Signed(w: World) {
    HasMemory(w.reconciler) ==> KeptOrSet(w.pass, w.reconciler.st, w.reconciler.b.status)
  }

  lemma EnsureSigned(w: World, out: Outcome, repo: Option<Repository>, ran: bool, left: bool)
    requires w.reconciler.BEnsure?
    ensures Signed(DependenciesNext(w, out, repo, ran, left))
  {
  }

  lemma RecordSigned(w: World, out: Outcome, repo: Option<Repository>, ran: bool, left: bool)
    requires w.reconciler.BRecord?
    ensures Signed(DependenciesNext(w, out, repo, ran, left))
  {
  }

  lemma LookupSigned(w: World, out: Outcome, repo: Option<Repository>, ran: bool, left: bool)
    requires w.reconciler.BPvc? || w.reconciler.BRepo? || w.reconciler.BConfigMap?
    ensures Signed(DependenciesNext(w, out, repo, ran, left))
  {
  }

  /** Finalizer handling holds no status in memory. */
  lemma FinalizerForgets(w: World, out: Outcome, repo: Option<Repository>)
    requires !HasMemory(w.reconciler)
    ensures !HasMemory(FinalizerNext(w, out, repo).reconciler)
  {
    if BackupCopy(w.reconciler).Some? && !w.reconciler.BAddFinalizer? && !w.reconciler.BRemoveFinalizer? {
      CleanupKeepsCopy(w, out, repo);
    }
  }

  lemma StepSigned(w: World, e: Event)
    requires Signed(w)
    ensures Signed(Step(w, e))
  {
    if e.WatcherStep? {
      WatcherKeepsPass(w, e.out, e.repo);
    } else if e.BackupStep? {
      BackupSigned(w, e);
    }
  }

  lemma BackupSigned(w: World, e: Event)
    requires Signed(w) && e.BackupStep?
    ensures Signed(Step(w, e))
  {
    if w.reconciler.BEnsure? {
      EnsureSigned(w, e.out, e.repo, e.ran, e.left);
    } else if w.reconciler.BRecord? {
      RecordSigned(w, e.out, e.repo, e.ran, e.left);
    } else if w.reconciler.BPvc? || w.reconciler.BRepo? || w.reconciler.BConfigMap? {
      LookupSigned(w, e.out, e.repo, e.ran, e.left);
    } else {
      EndsSigned(w, e);
    }
  }

  lemma ResourcesSigned(w: World, out: Outcome, node: string)
    requires Signed(w) && HasMemory(w.reconciler)
    ensures Signed(ResourcesNext(w, out, node))
  {
  }

  /** The first and the last steps of a pass. */
  lemma EndsSigned(w: World, e: Event)
    requires Signed(w) && e.BackupStep? && !w.reconciler.BEnsure? && !w.reconciler.BRecord?
    requires !w.reconciler.BPvc? && !w.reconciler.BRepo? && !w.reconciler.BConfigMap?
    ensures Signed(Step(w, e))
  {
    if HasMemory(w.reconciler) {
      ResourcesSigned(w, e.out, e.node);
    } else {
      FinalizerForgets(w, e.out, e.repo);
    }
  }

  lemma {:induction false} SignedRun(w: World, es: seq<Event>)
    requires Initial(w)
    ensures CopyInv(Run(w, es)) && Signed(Run(w, es))
  {
    CopyRun(w, es);
    if es != [] {
      SignedRun(w, es[..|es| - 1]);
      StepSigned(Run(w, es[..|es| - 1]), es[|es| - 1]);
    }
  }

  /** The two ways a step can leave the conditions of a stored object: as they were, or as set by the current pass. */
  predicate ReadyKeptOrSet(w: World, o: Backup, o': Backup) {
    SameConditions(o'.status, o.status) || (w.reconciler.BStatus? && KeptOrSet(w.pass, o'.status, o.status))
  }

  lemma StatusSetsReady(w: World, out: Outcome, node: string)
    requires CopyInv(w) && Signed(w) && w.reconciler.BStatus? && w.store.obj.Some?
    ensures ResourcesNext(w, out, node).store.obj.Some?
    ensures ReadyKeptOrSet(w, w.store.obj.value, ResourcesNext(w, out, node).store.obj.value)
  {
  }

  lemma UpdatesKeepReady(w: World, e: Event)
    requires e.BackupStep? && w.store.obj.Some? && Step(w, e).store.obj.Some?
    requires w.reconciler.BRemoveFinalizer? || w.reconciler.BAddFinalizer? || w.reconciler.BRecord?
    ensures ReadyKeptOrSet(w, w.store.obj.value, Step(w, e).store.obj.value)
  {
    if w.reconciler.BRecord? {
      RecordKeepsReady(w, e.out, e.repo, e.ran, e.left);
    } else {
      FinalizerKeepsReady(w, e.out, e.repo);
    }
  }

  lemma FinalizerKeepsReady(w: World, out: Outcome, repo: Option<Repository>)
    requires (w.reconciler.BRemoveFinalizer? || w.reconciler.BAddFinalizer?) && w.store.obj.Some?
    requires FinalizerNext(w, out, repo).store.obj.Some?
    ensures ReadyKeptOrSet(w, w.store.obj.value, FinalizerNext(w, out, repo).store.obj.value)
  {
  }

  lemma RecordKeepsReady(w: World, out: Outcome, repo: Option<Repository>, ran: bool, left: bool)
    requires w.reconciler.BRecord? && w.store.obj.Some? && DependenciesNext(w, out, repo, ran, left).store.obj.Some?
    ensures ReadyKeptOrSet(w, w.store.obj.value, DependenciesNext(w, out, repo, ran, left).store.obj.value)
  {
    var b := w.reconciler.b;
    RecordWrites(w, out, repo, ran, left);
    UpdatedKeepsStatus(w.store, b.(spec := b.spec.(credentialsSecret := SecretName(w, b))),
                       DependenciesNext(w, out, repo, ran, left).store);
  }

  lemma UpdatedKeepsStatus(s: Store, copy: Backup, t: Store)
    requires Updated(s, copy, t) && s.obj.Some? && t.obj.Some?
    ensures t.obj.value.status == s.obj.value.status
  {
  }

  /**
   * The numbers are true of every run: a step that changes a stored condition of an object is the
   * status write of the current pass, and leaves that pass's number with it.
   */
  lemma LastWriter(w: World, es: seq<Event>, e: Event, o: Backup, o': Backup)
    requires Initial(w) && Run(w, es).store.obj == Some(o) && Step(Run(w, es), e).store.obj == Some(o')
    requires o'.uid == o.uid
    ensures ReadyKeptOrSet(Run(w, es), o, o')
    ensures o'.status.ready != o.status.ready ==> e.BackupStep? && o'.status.readyBy == Run(w, es).pass
    ensures o'.status.cronJobCreated != o.status.cronJobCreated ==> e.BackupStep? && o'.status.cronBy == Run(w, es).pass
  {
    SignedRun(w, es);
    StepWrites(Run(w, es), e, o, o');
  }

  lemma StepWrites(v: World, e: Event, o: Backup, o': Backup)
    requires CopyInv(v) && Signed(v) && v.store.obj == Some(o) && Step(v, e).store.obj == Some(o') && o'.uid == o.uid
    ensures ReadyKeptOrSet(v, o, o') && (!e.BackupStep? ==> SameConditions(o'.status, o.status))
  {
    if e.WatcherStep? {
      WatcherKeepsOthersFields(v, e.out, e.repo);
    } else if e.BackupStep? {
      BackupWrites(v, e, o, o');
    }
  }

  lemma BackupWrites(v: World, e: Event, o: Backup, o': Backup)
    requires CopyInv(v) && Signed(v) && e.BackupStep? && v.store.obj == Some(o) && Step(v, e).store.obj == Some(o')
    ensures ReadyKeptOrSet(v, o, o')
  {
    if v.reconciler.BStatus? {
      StatusSetsReady(v, e.out, e.node);
    } else if v.reconciler.BRemoveFinalizer? || v.reconciler.BAddFinalizer? || v.reconciler.BRecord? {
      UpdatesKeepReady(v, e);
    } else {
      OtherStepsKeepStore(v, e);
    }
  }

  // --- No status is lost inside a pass ---

  /** The status the pass holds in memory. */
  function Memory(op: BackupOp): Option<Status> {
    if HasMemory(op) then Some(op.st)
    else if BackupCopy(op).Some? then Some(op.b.status)
    else None
  }

  /** The Updates of the finalizer and of the spec hand back exactly the status that was in memory. */
  lemma UpdatesKeepStatus(w: World, e: Event)
    requires CopyInv(w) && e.BackupStep? && (w.reconciler.BAddFinalizer? || w.reconciler.BRecord?)
    requires var op := Step(w, e).reconciler; op.BPvc? || op.BPods?
    ensures Step(w, e).reconciler.b.status == Memory(w.reconciler).value
  {
    if w.reconciler.BAddFinalizer? {
      AddKeepsStatus(w, e.out, e.repo);
    } else {
      RecordKeepsStatus(w, e.out, e.repo, e.ran, e.left);
    }
  }

  lemma AddKeepsStatus(w: World, out: Outcome, repo: Option<Repository>)
    requires CopyInv(w) && w.reconciler.BAddFinalizer? && FinalizerNext(w, out, repo).reconciler.BPvc?
    ensures FinalizerNext(w, out, repo).reconciler.b.status == w.reconciler.b.status
  {
  }

  lemma RecordKeepsStatus(w: World, out: Outcome, repo: Option<Repository>, ran: bool, left: bool)
    requires CopyInv(w) && w.reconciler.BRecord? && DependenciesNext(w, out, repo, ran, left).reconciler.BPods?
    ensures DependenciesNext(w, out, repo, ran, left).reconciler.b.status == w.reconciler.b.status
  {
  }

  lemma CronStep(w: World, out: Outcome, node: string)
    requires w.reconciler.BCron?
    ensures var v := ResourcesNext(w, out, node);
            && v.store == w.store && v.reconciler.BStatus? && v.reconciler.b == w.reconciler.b
            && (ReadyTrue(v.reconciler.st) && !CronTrue(v.reconciler.st) <==> !out.Done? && ReadyTrue(w.reconciler.st))
  {
  }

  /**
   * From the CronJob call to the written status: the pass leaves Ready true beside a CronJobCreated
   * that is not true exactly when the CronJob call fails on a backup that was Ready before.
   */
  lemma CronFailureKeepsReadyIff(w: World, e: Event, f: Event, v: World)
    requires w.reconciler.BCron? && e.BackupStep? && f.BackupStep? && f.out.Done?
    requires Current(w.store, w.reconciler.b) && v == Step(Step(w, e), f)
    ensures v.store.obj.Some? && v.reconciler.BIdle?
    ensures ReadyTrue(v.store.obj.value.status) && !CronTrue(v.store.obj.value.status)
            <==> !e.out.Done? && ReadyTrue(w.reconciler.st)
  {
    CronStep(w, e.out, e.node);
    assert v == ResourcesNext(Step(w, e), f.out, f.node);
  }

  /** An undisturbed direct-mode pass up to its pod search. */
  lemma DirectPassToPods(w: World, es: seq<Event>, b: Backup, r: Repository, e: Event) returns (fs: seq<Event>)
    requires Run(w, es).reconciler == BPvc(b) && b.spec.pvcName != "" && !r.serverEnabled
    requires e.BackupStep? && e.out.Done? && e.repo == Some(r)
    ensures Run(w, fs).reconciler == BPods(b, b.status, r) && Run(w, fs).store == Run(w, es).store
  {
    var v := Run(w, es);
    PvcStep(v, b, e);
    Then(w, es, e, Step(v, e));
    fs := es + [e];
    var v1 := Run(w, fs);
    LookupStep(v1, b, r, e);
    Then(w, fs, e, Step(v1, e));
    fs := fs + [e];
    if r.storage.Filesystem? {
      var v2 := Run(w, fs);
      ConfigMapStep(v2, b, r, e);
      Then(w, fs, e, Step(v2, e));
      fs := fs + [e];
    }
  }

  lemma DirectPassToCron(w: World, es: seq<Event>, b: Backup, r: Repository, node: string) returns (fs: seq<Event>)
    requires var v := Run(w, es); v.reconciler.BIdle? && v.store.obj == Some(b)
    requires b.finalizer && !b.deleting && b.spec.pvcName != "" && !r.serverEnabled
    ensures var v := Run(w, fs);
            && v.reconciler.BCron? && v.reconciler.b == b && v.reconciler.node == node
            && v.reconciler.st.ready == b.status.ready && v.store == Run(w, es).store
  {
    var e := BackupStep(Done, Some(r), node, false, false);
    fs := BeginAndGet(w, es, b, e);
    fs := DirectPassToPods(w, fs, b, r, e);
    Append(w, fs, e);
    var v := Run(w, fs);
    fs := fs + [e];
    assert Run(w, fs) == ResourcesNext(v, Done, node);
  }

  lemma CronAndStatus(w: World, es: seq<Event>, out: Outcome) returns (fs: seq<Event>, e: Event, f: Event)
    requires Run(w, es).reconciler.BCron? && Current(Run(w, es).store, Run(w, es).reconciler.b)
    ensures e.BackupStep? && f.BackupStep? && f.out.Done? && e.out == out && Run(w, fs) == Step(Step(Run(w, es), e), f)
  {
    e := BackupStep(out, None, "", false, false);
    f := BackupStep(Done, None, "", false, false);
    Append(w, es, e);
    Append(w, es + [e], f);
    fs := es + [e] + [f];
  }

  /** So Ready=True beside CronJobCreated=False is reachable, for every unsuspended spec in direct mode. */
  lemma ReadyDespiteCronFailure(w: World, spec: Spec, r: Repository, node: string) returns (es: seq<Event>)
    requires Initial(w) && spec.pvcName != "" && !spec.suspend && node != "" && !r.serverEnabled
    ensures var v := Run(w, es);
            v.store.obj.Some? && ReadyTrue(v.store.obj.value.status) && !CronTrue(v.store.obj.value.status)
  {
    var b;
    es, b := FinalizerAdded(w, [], spec);
    es := DirectPassToCron(w, es, b, r, node);
    var was := Run(w, es);
    var e, f;
    es, e, f := CronAndStatus(w, es, Done);
    FirstPassReady(was, e, f);
    b := Run(w, es).store.obj.value;
    es := DirectPassToCron(w, es, b, r, node);
    was := Run(w, es);
    es, e, f := CronAndStatus(w, es, Lost);
    CronFailureKeepsReadyIff(was, e, f, Run(w, es));
  }

  lemma FirstPassReady(w: World, e: Event, f: Event)
    requires w.reconciler.BCron? && e.BackupStep? && f.BackupStep? && f.out.Done? && e.out.Done?
    requires w.store.obj == Some(w.reconciler.b) && w.reconciler.node != "" && !w.reconciler.b.spec.suspend
    ensures var v := Step(Step(w, e), f);
            && v.reconciler.BIdle? && v.store.obj.Some? && ReadyTrue(v.store.obj.value.status)
            && v.store.obj.value.spec == w.reconciler.b.spec
            && v.store.obj.value.finalizer == w.reconciler.b.finalizer
            && v.store.obj.value.deleting == w.reconciler.b.deleting
  {
    var v := ResourcesNext(w, e.out, e.node);
    assert v.reconciler.BStatus? && v.store == w.store && ReadyTrue(v.reconciler.st)
           && v.reconciler.b == w.reconciler.b;
    assert Step(v, f) == ResourcesNext(v, f.out, f.node);
  }
}
