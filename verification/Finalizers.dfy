/**
 * Finalization: the server user of a deleted backup. Over every interleaving, the operator takes the
 * finalizer off only after the delete command for the user it would create, and never creates it again.
 */
module Finalizers {
  import opened Options
  import opened Resources
  import opened ApiServer
  import opened Controllers
  import opened CopyDiscipline
  import opened Scenarios
  import opened Text
  import Naming

  // --- Phases: cleaning up and building up never mix ---

  predicate Cleaning(op: BackupOp) {
    op.BDeleteLookup? || op.BDeleteExec? || op.BSecretGet? || op.BSecretDelete? || op.BRemoveFinalizer?
  }

  predicate PhaseOk(op: BackupOp) {
    BackupCopy(op).Some? ==> (Cleaning(op) <==> op.b.deleting)
  }

  lemma FinalizerPhase(w: World, out: Outcome, repo: Option<Repository>)
    requires CopyInv(w) && PhaseOk(w.reconciler)
    ensures PhaseOk(FinalizerNext(w, out, repo).reconciler)
  {
    if w.reconciler.BAddFinalizer? && Current(w.store, w.reconciler.b) {
      assert w.store.obj.value == w.reconciler.b;
    }
  }

  lemma RecordPhase(w: World, out: Outcome, repo: Option<Repository>, ran: bool, left: bool)
    requires CopyInv(w) && w.reconciler.BRecord? && !w.reconciler.b.deleting
    ensures PhaseOk(DependenciesNext(w, out, repo, ran, left).reconciler)
  {
    if Current(w.store, w.reconciler.b) {
      assert w.store.obj.value == w.reconciler.b;
    }
  }

  lemma DependenciesPhase(w: World, out: Outcome, repo: Option<Repository>, ran: bool, left: bool)
    requires CopyInv(w) && PhaseOk(w.reconciler)
    ensures PhaseOk(DependenciesNext(w, out, repo, ran, left).reconciler)
  {
    if w.reconciler.BRecord? {
      RecordPhase(w, out, repo, ran, left);
    } else if w.reconciler.BEnsure? {
      EnsurePhase(w, out, repo, ran, left);
    } else if w.reconciler.BRepo? {
      LookupPhase(w, out, repo, ran, left);
    } else {
      OtherPhase(w, out, repo, ran, left);
    }
  }

  lemma LookupPhase(w: World, out: Outcome, repo: Option<Repository>, ran: bool, left: bool)
    requires w.reconciler.BRepo? && !w.reconciler.b.deleting
    ensures PhaseOk(DependenciesNext(w, out, repo, ran, left).reconciler)
  {
  }

  lemma OtherPhase(w: World, out: Outcome, repo: Option<Repository>, ran: bool, left: bool)
    requires PhaseOk(w.reconciler) && !w.reconciler.BRepo? && !w.reconciler.BEnsure? && !w.reconciler.BRecord?
    ensures PhaseOk(DependenciesNext(w, out, repo, ran, left).reconciler)
  {
  }

  lemma EnsurePhase(w: World, out: Outcome, repo: Option<Repository>, ran: bool, left: bool)
    requires w.reconciler.BEnsure? && !w.reconciler.b.deleting
    ensures PhaseOk(DependenciesNext(w, out, repo, ran, left).reconciler)
  {
  }

  lemma ResourcesPhase(w: World, out: Outcome, node: string)
    requires PhaseOk(w.reconciler)
    ensures PhaseOk(ResourcesNext(w, out, node).reconciler)
  {
  }

  lemma StepPhase(w: World, e: Event)
    requires CopyInv(w) && PhaseOk(w.reconciler)
    ensures PhaseOk(Step(w, e).reconciler)
  {
    match e
    case WatcherStep(out, repo) => WatcherKeepsPass(w, out, repo);
    case BackupStep(out, repo, node, ran, left) =>
      FinalizerPhase(w, out, repo);
      DependenciesPhase(w, out, repo, ran, left);
      ResourcesPhase(w, out, node);
    case _ =>
  }

  // --- The command log ---

  /** The user EnsureUser works for, on the server of the repository. */
  function EnsuredAccount(w: World, b: Backup, repo: Repository): Account {
    AccountOn(repo, EnsuredUser(w, b, repo))
  }

  function Creation(w: World, b: Backup, repo: Repository): Command {
    CreateUser(b.uid, EnsuredAccount(w, b, repo))
  }

  /** Commands a step adds: at most one, and only for the copy in hand. */
  predicate Logs(w: World, v: World) {
    || v.commands == w.commands
    || (w.reconciler.BDeleteExec? && v.commands == w.commands + [DeleteUser(w.reconciler.b.uid, w.reconciler.user)])
    || (w.reconciler.BEnsure? && v.commands == w.commands + [Creation(w, w.reconciler.b, w.reconciler.repo)])
  }

  lemma FinalizerLogs(w: World, out: Outcome, repo: Option<Repository>)
    ensures Logs(w, FinalizerNext(w, out, repo))
  {
  }

  lemma DependenciesLogs(w: World, out: Outcome, repo: Option<Repository>, ran: bool, left: bool)
    ensures Logs(w, DependenciesNext(w, out, repo, ran, left))
  {
  }

  lemma StepLogs(w: World, e: Event)
    ensures Logs(w, Step(w, e)) && Step(w, e).namespace == w.namespace
  {
    if e.WatcherStep? {
      WatcherKeepsPass(w, e.out, e.repo);
    } else if e.BackupStep? {
      BackupKeepsWatcher(w, e);
      FinalizerLogs(w, e.out, e.repo);
      DependenciesLogs(w, e.out, e.repo, e.ran, e.left);
    }
  }

  /** The user of object `u` has been deleted on the server. */
  ghost predicate Deleted(log: seq<Command>, u: nat) {
    exists i :: 0 <= i < |log| && log[i].DeleteUser? && log[i].uid == u
  }

  /** After a delete command for `u` no create command for `u` follows. */
  predicate DeletesLast(log: seq<Command>, u: nat) {
    forall i, j :: 0 <= i < j < |log| && log[i].DeleteUser? && log[i].uid == u && log[j].uid == u ==> log[j].DeleteUser?
  }

  /** Once the user of `u` was deleted, whatever shows `u` shows it as being deleted. */
  ghost predicate OrderInv(w: World, u: nat) {
    && PhaseOk(w.reconciler) && DeletesLast(w.commands, u)
    && (Deleted(w.commands, u) ==>
          && u < w.store.nextUid
          && (w.store.obj.Some? && w.store.obj.value.uid == u ==> w.store.obj.value.deleting)
          && (BackupCopy(w.reconciler).Some? && w.reconciler.b.uid == u ==> w.reconciler.b.deleting))
  }

  /** Logging keeps the order, and a new delete command belongs to an object seen deleting. */
  lemma LogOrder(w: World, v: World, u: nat)
    requires CopyInv(w) && OrderInv(w, u) && Logs(w, v)
    ensures DeletesLast(v.commands, u)
    ensures Deleted(v.commands, u) && !Deleted(w.commands, u) ==>
              w.reconciler.BDeleteExec? && w.reconciler.b.uid == u && w.reconciler.b.deleting
  {
    if v.commands != w.commands {
      var n := |w.commands|;
      assert v.commands[..n] == w.commands;
      assert forall i :: 0 <= i < n ==> v.commands[i] == w.commands[i];
      if w.reconciler.BEnsure? && w.reconciler.b.uid == u {
        assert !Deleted(w.commands, u);
      }
    }
  }

  lemma StepOrder(w: World, e: Event, u: nat)
    requires CopyInv(w) && OrderInv(w, u)
    ensures OrderInv(Step(w, e), u)
  {
    var v := Step(w, e);
    StepPhase(w, e);
    StepLogs(w, e);
    StepProgress(w, e);
    LogOrder(w, v, u);
    OrderKept(w, v, u);
  }

  lemma OrderKept(w: World, v: World, u: nat)
    requires CopyInv(w) && OrderInv(w, u) && Progress(w, v) && PhaseOk(v.reconciler) && DeletesLast(v.commands, u)
    requires Deleted(v.commands, u) && !Deleted(w.commands, u) ==>
               w.reconciler.BDeleteExec? && w.reconciler.b.uid == u && w.reconciler.b.deleting
    ensures OrderInv(v, u)
  {
  }

  /** Over every run: no create command for a backup follows a delete command for it. */
  lemma {:induction false} NoCreateAfterDelete(w: World, es: seq<Event>, u: nat)
    requires Initial(w)
    ensures CopyInv(Run(w, es)) && OrderInv(Run(w, es), u)
  {
    CopyRun(w, es);
    if es != [] {
      NoCreateAfterDelete(w, es[..|es| - 1], u);
      StepOrder(Run(w, es[..|es| - 1]), es[|es| - 1], u);
    }
  }

  // --- Backups whose cleanup has everything it needs ---

  /** The object `u` keeps its PVC name, and by the time it is being deleted its spec names the secret. */
  predicate Recorded(w: World, u: nat, pvcName: Bytes) {
    w.store.obj.Some? && w.store.obj.value.uid == u ==>
      w.store.obj.value.spec.pvcName == pvcName
      && (w.store.obj.value.deleting ==> w.store.obj.value.spec.credentialsSecret != "")
  }

  /** The credentials secret, when present, holds the computed user name. */
  predicate Named(w: World, pvcName: Bytes, home: Repository) {
    var secret := Naming.UserSecretName(w.namespace, pvcName);
    secret in w.secrets ==> w.secrets[secret] == Naming.Username(w.namespace, pvcName, home.hostname)
  }

  /** One server, reached under one hostname. */
  predicate SameHome(a: Repository, b: Repository) {
    a.namespace == b.namespace && a.name == b.name && a.hostname == b.hostname
  }

  /** The user of a PVC on that server. */
  function HomeAccount(namespace: string, pvcName: Bytes, home: Repository): Account {
    AccountOn(home, Naming.Username(namespace, pvcName, home.hostname))
  }

  /** The two steps that look the repository up. */
  predicate LooksUp(op: BackupOp) { op.BRepo? || op.BDeleteLookup? }

  /** The lookup finds this very repository, in server mode. */
  predicate Resolves(op: BackupOp, e: Event, home: Repository) {
    LooksUp(op) && e.BackupStep? ==> e.repo.Some? && e.repo.value.serverEnabled && SameHome(e.repo.value, home)
  }

  /** All of this holds at every point of the run. */
  predicate Governed(w: World, es: seq<Event>, u: nat, pvcName: Bytes, home: Repository) {
    && Recorded(Run(w, es), u, pvcName) && Named(Run(w, es), pvcName, home)
    && (es != [] ==>
          && Governed(w, es[..|es| - 1], u, pvcName, home)
          && Resolves(Run(w, es[..|es| - 1]).reconciler, es[|es| - 1], home))
  }

  predicate CopyRecorded(op: BackupOp, u: nat, pvcName: Bytes) {
    BackupCopy(op).Some? && op.b.uid == u ==>
      op.b.spec.pvcName == pvcName && (op.b.deleting ==> op.b.spec.credentialsSecret != "")
  }

  /** How far the cleanup of `u` has come, by the step the pass is about to take. */
  predicate CleanupOk(w: World, u: nat, user: Account) {
    match w.reconciler
    case BDeleteExec(b, x) => b.uid == u ==> x == user
    case BSecretGet(b, x) => b.uid == u ==> x == user && DeleteUser(u, user) in w.commands
    case BSecretDelete(b, x) => b.uid == u ==> x == user && DeleteUser(u, user) in w.commands
    case BRemoveFinalizer(b, x) => b.uid == u ==> x == Some(user) && DeleteUser(u, user) in w.commands
    case _ => true
  }

  predicate EnsuresOn(op: BackupOp, home: Repository) {
    op.BEnsure? ==> SameHome(op.repo, home)
  }

  /** All commands for `u` name one user, and `u` was retired only after its delete command. */
  predicate LogOk(w: World, u: nat, user: Account) {
    && (forall i :: 0 <= i < |w.commands| && w.commands[i].uid == u ==> w.commands[i].user == user)
    && (u in w.retired ==> w.retired[u] <= |w.commands| && DeleteUser(u, user) in w.commands[..w.retired[u]])
  }

  predicate CleanupInv(w: World, u: nat, pvcName: Bytes, home: Repository) {
    var user := HomeAccount(w.namespace, pvcName, home);
    CopyRecorded(w.reconciler, u, pvcName) && CleanupOk(w, u, user) && EnsuresOn(w.reconciler, home)
    && LogOk(w, u, user)
  }

  lemma CopyRecordedStep(w: World, v: World, u: nat, pvcName: Bytes)
    requires CopyRecorded(w.reconciler, u, pvcName)
    requires Taken(v.store, BackupCopy(w.reconciler), BackupCopy(v.reconciler))
    requires Recorded(v, u, pvcName)
    ensures CopyRecorded(v.reconciler, u, pvcName)
  {
  }

  lemma FinalizerCleanup(w: World, out: Outcome, repo: Option<Repository>, u: nat, pvcName: Bytes, home: Repository)
    requires CleanupInv(w, u, pvcName, home)
    requires w.reconciler.BDeleteLookup? ==> repo.Some? && repo.value.serverEnabled && SameHome(repo.value, home)
    ensures var v := FinalizerNext(w, out, repo);
            CleanupOk(v, u, HomeAccount(w.namespace, pvcName, home)) && EnsuresOn(v.reconciler, home)
  {
  }

  lemma RepoCleanup(w: World, out: Outcome, repo: Option<Repository>, ran: bool, left: bool, u: nat, user: Account,
                    home: Repository)
    requires w.reconciler.BRepo? && repo.Some? && SameHome(repo.value, home)
    ensures var v := DependenciesNext(w, out, repo, ran, left);
            CleanupOk(v, u, user) && EnsuresOn(v.reconciler, home)
  {
  }

  lemma EnsureCleanup(w: World, out: Outcome, repo: Option<Repository>, ran: bool, left: bool, u: nat, user: Account,
                      home: Repository)
    requires w.reconciler.BEnsure? || w.reconciler.BRecord?
    ensures var v := DependenciesNext(w, out, repo, ran, left);
            CleanupOk(v, u, user) && EnsuresOn(v.reconciler, home)
  {
  }

  lemma DependenciesCleanup(w: World, out: Outcome, repo: Option<Repository>, ran: bool, left: bool, u: nat,
                            user: Account, home: Repository)
    requires w.reconciler.BPvc? || w.reconciler.BConfigMap?
    ensures var v := DependenciesNext(w, out, repo, ran, left);
            CleanupOk(v, u, user) && EnsuresOn(v.reconciler, home)
  {
  }

  lemma ResourcesCleanup(w: World, e: Event, u: nat, user: Account, home: Repository)
    requires e.BackupStep?
    requires (w.reconciler.BIdle? || w.reconciler.BPods? || w.reconciler.BCron? || w.reconciler.BStatus?)
    ensures CleanupOk(Step(w, e), u, user) && EnsuresOn(Step(w, e).reconciler, home)
  {
  }

  lemma GetCleanup(w: World, e: Event, u: nat, pvcName: Bytes, user: Account, home: Repository)
    requires e.BackupStep? && w.reconciler.BGet? && Recorded(w, u, pvcName)
    ensures CleanupOk(Step(w, e), u, user) && EnsuresOn(Step(w, e).reconciler, home)
  {
  }

  lemma BackupCleanup(w: World, e: Event, u: nat, pvcName: Bytes, home: Repository)
    requires CleanupInv(w, u, pvcName, home) && Recorded(w, u, pvcName) && Resolves(w.reconciler, e, home)
    requires e.BackupStep?
    ensures var v := Step(w, e);
            CleanupOk(v, u, HomeAccount(w.namespace, pvcName, home)) && EnsuresOn(v.reconciler, home)
  {
    var user := HomeAccount(w.namespace, pvcName, home);
    if Cleaning(w.reconciler) || w.reconciler.BAddFinalizer? {
      FinalizerCleanup(w, e.out, e.repo, u, pvcName, home);
    } else if w.reconciler.BGet? {
      GetCleanup(w, e, u, pvcName, user, home);
    } else if w.reconciler.BRepo? {
      RepoCleanup(w, e.out, e.repo, e.ran, e.left, u, user, home);
    } else if w.reconciler.BEnsure? || w.reconciler.BRecord? {
      EnsureCleanup(w, e.out, e.repo, e.ran, e.left, u, user, home);
    } else if w.reconciler.BPvc? || w.reconciler.BConfigMap? {
      DependenciesCleanup(w, e.out, e.repo, e.ran, e.left, u, user, home);
    } else {
      ResourcesCleanup(w, e, u, user, home);
    }
  }

  lemma StepCleanup(w: World, e: Event, u: nat, pvcName: Bytes, home: Repository)
    requires CleanupInv(w, u, pvcName, home) && Recorded(w, u, pvcName) && Resolves(w.reconciler, e, home)
    ensures var v := Step(w, e);
            CleanupOk(v, u, HomeAccount(w.namespace, pvcName, home)) && EnsuresOn(v.reconciler, home)
  {
    match e
    case WatcherStep(out, repo) => WatcherKeepsPass(w, out, repo);
    case BackupStep(_, _, _, _, _) => BackupCleanup(w, e, u, pvcName, home);
    case _ =>
  }

  /** What a step may add to the record of retired objects. */
  predicate Retires(w: World, v: World) {
    || v.retired == w.retired
    || (w.reconciler.BRemoveFinalizer? && v.retired == w.retired[w.reconciler.b.uid := |w.commands|]
        && v.commands == w.commands)
  }

  lemma FinalizerRetires(w: World, out: Outcome, repo: Option<Repository>)
    ensures Retires(w, FinalizerNext(w, out, repo))
  {
  }

  lemma DependenciesRetire(w: World, out: Outcome, repo: Option<Repository>, ran: bool, left: bool)
    ensures DependenciesNext(w, out, repo, ran, left).retired == w.retired
  {
  }

  lemma ResourcesRetire(w: World, out: Outcome, node: string)
    ensures ResourcesNext(w, out, node).retired == w.retired
  {
  }

  /** The operator takes the finalizer off in one kind of step only, which retires the object. */
  lemma StepRetires(w: World, e: Event)
    ensures Retires(w, Step(w, e))
  {
    if e.WatcherStep? {
      WatcherKeepsPass(w, e.out, e.repo);
    } else if e.BackupStep? {
      FinalizerRetires(w, e.out, e.repo);
      DependenciesRetire(w, e.out, e.repo, e.ran, e.left);
      ResourcesRetire(w, e.out, e.node);
    } else {
      UserKeepsPasses(w, e);
    }
  }

  lemma LogOkStep(w: World, e: Event, u: nat, pvcName: Bytes, home: Repository)
    requires CleanupInv(w, u, pvcName, home) && Named(w, pvcName, home)
    ensures LogOk(Step(w, e), u, HomeAccount(w.namespace, pvcName, home))
  {
    var v := Step(w, e);
    var user := HomeAccount(w.namespace, pvcName, home);
    StepLogs(w, e);
    StepRetires(w, e);
    if v.commands != w.commands {
      var n := |w.commands|;
      assert forall i :: 0 <= i < n ==> v.commands[i] == w.commands[i];
      assert u in w.retired ==> v.commands[..w.retired[u]] == w.commands[..w.retired[u]];
    } else if v.retired != w.retired {
      assert w.commands[..|w.commands|] == w.commands;
    }
  }

  lemma {:induction false} CleanupRun(w: World, es: seq<Event>, u: nat, pvcName: Bytes, home: Repository)
    requires Initial(w) && Governed(w, es, u, pvcName, home)
    ensures CleanupInv(Run(w, es), u, pvcName, home) && Run(w, es).namespace == w.namespace
  {
    if es != [] {
      var before, e := es[..|es| - 1], es[|es| - 1];
      var u0 := Run(w, before);
      CleanupRun(w, before, u, pvcName, home);
      CopyRun(w, before);
      StepProgress(u0, e);
      CopyRecordedStep(u0, Step(u0, e), u, pvcName);
      StepCleanup(u0, e, u, pvcName, home);
      LogOkStep(u0, e, u, pvcName, home);
      StepLogs(u0, e);
    }
  }

  predicate HasFinalizer(s: Store, u: nat) {
    s.obj.Some? && s.obj.value.uid == u && s.obj.value.finalizer
  }

  lemma WatcherHolds(w: World, out: Outcome, repo: Option<Repository>, u: nat)
    requires CopyInv(w) && HasFinalizer(w.store, u)
    ensures HasFinalizer(WatcherNext(w, out, repo).store, u)
  {
    if w.watcher.WMarkStatus? || w.watcher.WCreatedStatus? {
      MarkFields(w, out, repo);
    } else if w.watcher.WSyncUpdate? {
      SyncHolds(w, out, repo, u);
    } else if !w.watcher.WDelete? && !w.watcher.WCreate? {
      WatcherReadsKeepStore(w, out, repo);
    }
  }

  lemma SyncHolds(w: World, out: Outcome, repo: Option<Repository>, u: nat)
    requires CopyInv(w) && HasFinalizer(w.store, u) && w.watcher.WSyncUpdate?
    ensures HasFinalizer(WatcherNext(w, out, repo).store, u)
  {
  }

  lemma AddHolds(w: World, out: Outcome, repo: Option<Repository>, u: nat)
    requires CopyInv(w) && HasFinalizer(w.store, u) && w.reconciler.BAddFinalizer?
    ensures HasFinalizer(FinalizerNext(w, out, repo).store, u)
  {
  }

  lemma RecordHolds(w: World, out: Outcome, repo: Option<Repository>, ran: bool, left: bool, u: nat)
    requires CopyInv(w) && HasFinalizer(w.store, u) && w.reconciler.BRecord?
    ensures HasFinalizer(DependenciesNext(w, out, repo, ran, left).store, u)
  {
  }

  lemma StatusHolds(w: World, out: Outcome, node: string, u: nat)
    requires CopyInv(w) && HasFinalizer(w.store, u) && w.reconciler.BStatus?
    ensures HasFinalizer(ResourcesNext(w, out, node).store, u)
  {
  }

  lemma RemovalRetires(w: World, out: Outcome, repo: Option<Repository>, u: nat)
    requires CopyInv(w) && HasFinalizer(w.store, u) && w.reconciler.BRemoveFinalizer?
    ensures var v := FinalizerNext(w, out, repo);
            HasFinalizer(v.store, u) || (w.reconciler.b.uid == u && u in v.retired)
  {
  }

  /** Two things end the hold of a finalizer: the reconciler's own removal, and a user who strips it. */
  lemma FinalizerHolds(w: World, e: Event, u: nat)
    requires CopyInv(w) && HasFinalizer(w.store, u)
    ensures || HasFinalizer(Step(w, e).store, u) || e.UserStripsFinalizer?
            || (e.BackupStep? && w.reconciler.BRemoveFinalizer? && w.reconciler.b.uid == u && u in Step(w, e).retired)
  {
    match e
    case WatcherStep(out, repo) => WatcherHolds(w, out, repo, u);
    case BackupStep(out, repo, node, ran, left) =>
      if w.reconciler.BRemoveFinalizer? {
        RemovalRetires(w, out, repo, u);
      } else if w.reconciler.BAddFinalizer? {
        AddHolds(w, out, repo, u);
      } else if w.reconciler.BRecord? {
        RecordHolds(w, out, repo, ran, left, u);
      } else if w.reconciler.BStatus? {
        StatusHolds(w, out, node, u);
      } else {
        OtherStepsKeepStore(w, e);
      }
    case _ =>
  }

  lemma RetiredLasts(w: World, e: Event, u: nat)
    requires u in w.retired
    ensures u in Step(w, e).retired
  {
    StepRetires(w, e);
  }

  /** No user strips the finalizer of object `u` by hand. */
  predicate HandsOff(w: World, es: seq<Event>, u: nat) {
    es != [] ==>
      && HandsOff(w, es[..|es| - 1], u)
      && !(es[|es| - 1].UserStripsFinalizer? && HasFinalizer(Run(w, es[..|es| - 1]).store, u))
  }

  /** An object that once had the finalizer still has it or the operator retired it, unless a user stripped it. */
  lemma {:induction false} HeldOrRetired(w: World, es: seq<Event>, n: nat, u: nat)
    requires Initial(w) && n <= |es| && HasFinalizer(Run(w, es[..n]).store, u)
    ensures HasFinalizer(Run(w, es).store, u) || u in Run(w, es).retired || !HandsOff(w, es, u)
    decreases |es|
  {
    if n == |es| {
      assert es[..n] == es;
    } else {
      var before, e := es[..|es| - 1], es[|es| - 1];
      assert before[..n] == es[..n];
      HeldOrRetired(w, before, n, u);
      CopyRun(w, before);
      if u in Run(w, before).retired {
        RetiredLasts(Run(w, before), e, u);
      } else if HasFinalizer(Run(w, before).store, u) {
        FinalizerHolds(Run(w, before), e, u);
      }
    }
  }

  /** The delete command has run, every command for `u` named that user, and no create follows. */
  ghost predicate CleanedUp(log: seq<Command>, u: nat, user: Account) {
    && (exists i :: 0 <= i < |log| && log[i] == DeleteUser(u, user)
                    && forall j :: i < j < |log| && log[j].uid == u ==> log[j].DeleteUser?)
    && (forall j :: 0 <= j < |log| && log[j].uid == u ==> log[j].user == user)
  }

  /** Whatever object the operator took the finalizer off is cleaned up. */
  lemma RetiredCleanedUp(w: World, es: seq<Event>, u: nat, pvcName: Bytes, home: Repository)
    requires Initial(w) && Governed(w, es, u, pvcName, home) && u in Run(w, es).retired
    ensures CleanedUp(Run(w, es).commands, u, HomeAccount(w.namespace, pvcName, home))
  {
    CleanupRun(w, es, u, pvcName, home);
    NoCreateAfterDelete(w, es, u);
  }

  /**
   * The main result. In every run where the spec of object `u` names its secret by the time it is
   * being deleted, its PVC name stays, lookups resolve to one server under one hostname and the secret,
   * when present, holds the computed name: if the object had the finalizer and no longer has it, and
   * nobody stripped it by hand, the delete command for the user that creation uses has run, all
   * commands for `u` named that user, and none of them creates it afterwards.
   */
  lemma FinalizerOnlyAfterDelete(w: World, es: seq<Event>, n: nat, u: nat, pvcName: Bytes, home: Repository)
    requires Initial(w) && Governed(w, es, u, pvcName, home) && HandsOff(w, es, u)
    requires n <= |es| && HasFinalizer(Run(w, es[..n]).store, u) && !HasFinalizer(Run(w, es).store, u)
    ensures CleanedUp(Run(w, es).commands, u, HomeAccount(w.namespace, pvcName, home))
  {
    HeldOrRetired(w, es, n, u);
    RetiredCleanedUp(w, es, u, pvcName, home);
  }

  // --- The secret at the removal ---

  /** About to take the finalizer off after a cleanup. */
  predicate AboutToRetire(op: BackupOp) { op.BRemoveFinalizer? && op.cleaned.Some? }

  predicate SecretGone(w: World) {
    AboutToRetire(w.reconciler) ==> SecretName(w, w.reconciler.b) !in w.secrets
  }

  /** Nobody writes the secret anew while the operator is about to take the finalizer off. */
  predicate NoneRecreated(w: World, es: seq<Event>) {
    es != [] ==>
      && NoneRecreated(w, es[..|es| - 1])
      && var v := Run(w, es[..|es| - 1]);
         es[|es| - 1].SecretWritten? && AboutToRetire(v.reconciler) ==>
             es[|es| - 1].name != SecretName(v, v.reconciler.b)
  }

  lemma FinalizerGone(w: World, out: Outcome, repo: Option<Repository>)
    requires SecretGone(w)
    ensures SecretGone(FinalizerNext(w, out, repo))
  {
  }

  lemma EnsureBuilds(w: World, out: Outcome, repo: Option<Repository>, ran: bool, left: bool)
    requires w.reconciler.BEnsure? || w.reconciler.BRecord?
    ensures !Cleaning(DependenciesNext(w, out, repo, ran, left).reconciler)
  {
  }

  lemma LookupBuilds(w: World, out: Outcome, repo: Option<Repository>, ran: bool, left: bool)
    requires w.reconciler.BPvc? || w.reconciler.BRepo? || w.reconciler.BConfigMap?
    ensures !Cleaning(DependenciesNext(w, out, repo, ran, left).reconciler)
  {
  }

  predicate Building(op: BackupOp) { op.BEnsure? || op.BRecord? || op.BPvc? || op.BRepo? || op.BConfigMap? }

  lemma BuildingStays(w: World, out: Outcome, repo: Option<Repository>, ran: bool, left: bool)
    requires Building(w.reconciler)
    ensures !Cleaning(DependenciesNext(w, out, repo, ran, left).reconciler)
  {
    if w.reconciler.BEnsure? || w.reconciler.BRecord? {
      EnsureBuilds(w, out, repo, ran, left);
    } else {
      LookupBuilds(w, out, repo, ran, left);
    }
  }

  lemma StepGone(w: World, e: Event)
    requires SecretGone(w)
    requires e.SecretWritten? && AboutToRetire(w.reconciler) ==> e.name != SecretName(w, w.reconciler.b)
    ensures SecretGone(Step(w, e))
  {
    match e
    case WatcherStep(out, repo) => WatcherKeepsPass(w, out, repo);
    case BackupStep(out, repo, node, ran, left) =>
      if Cleaning(w.reconciler) || w.reconciler.BAddFinalizer? {
        FinalizerGone(w, out, repo);
      } else if Building(w.reconciler) {
        BuildingStays(w, out, repo, ran, left);
      }
    case _ =>
  }

  lemma {:induction false} GoneRun(w: World, es: seq<Event>)
    requires Initial(w) && NoneRecreated(w, es)
    ensures SecretGone(Run(w, es))
  {
    if es != [] {
      GoneRun(w, es[..|es| - 1]);
      StepGone(Run(w, es[..|es| - 1]), es[|es| - 1]);
    }
  }

  /**
   * At the very step that takes the finalizer off, the delete command has run and, unless somebody
   * wrote it anew since the operator looked, the secret is gone.
   */
  lemma RemovalFindsSecretGone(w: World, es: seq<Event>, e: Event, u: nat, pvcName: Bytes, home: Repository)
    requires Initial(w) && Governed(w, es, u, pvcName, home) && NoneRecreated(w, es) && !e.UserStripsFinalizer?
    requires HasFinalizer(Run(w, es).store, u) && !HasFinalizer(Step(Run(w, es), e).store, u)
    ensures Naming.UserSecretName(w.namespace, pvcName) !in Run(w, es).secrets
    ensures DeleteUser(u, HomeAccount(w.namespace, pvcName, home)) in Run(w, es).commands
  {
    CleanupRun(w, es, u, pvcName, home);
    GoneRun(w, es);
    CopyRun(w, es);
    FinalizerHolds(Run(w, es), e, u);
  }

  // --- Such runs exist ---

  /** A governed run that nobody strips. */
  predicate Orderly(w: World, es: seq<Event>, u: nat, pvcName: Bytes, home: Repository) {
    Governed(w, es, u, pvcName, home) && HandsOff(w, es, u)
  }

  lemma OrderlyMore(w: World, es: seq<Event>, e: Event, u: nat, pvcName: Bytes, home: Repository, v: World)
    requires Orderly(w, es, u, pvcName, home) && Resolves(Run(w, es).reconciler, e, home)
    requires !e.UserStripsFinalizer? && Step(Run(w, es), e) == v && Recorded(v, u, pvcName) && Named(v, pvcName, home)
    ensures Orderly(w, es + [e], u, pvcName, home) && Run(w, es + [e]) == v
  {
    assert (es + [e])[..|es|] == es;
  }

  /** A step that leaves the object, the secrets and the namespace alone. */
  lemma QuietMore(w: World, es: seq<Event>, e: Event, u: nat, pvcName: Bytes, home: Repository, v: World)
    requires Orderly(w, es, u, pvcName, home) && Resolves(Run(w, es).reconciler, e, home)
    requires !e.UserStripsFinalizer? && Step(Run(w, es), e) == v && v.store.obj == Run(w, es).store.obj
    requires v.secrets == Run(w, es).secrets && v.namespace == Run(w, es).namespace
    ensures Orderly(w, es + [e], u, pvcName, home) && Run(w, es + [e]) == v
  {
    assert Governed(w, es, u, pvcName, home);
    OrderlyMore(w, es, e, u, pvcName, home, v);
  }

  /** The pass begins and reads object `b`. */
  lemma OrderlyRead(w: World, es: seq<Event>, b: Backup, pvcName: Bytes, r: Repository, e: Event)
    returns (fs: seq<Event>)
    requires Orderly(w, es, b.uid, pvcName, r) && Run(w, es).reconciler.BIdle? && Run(w, es).store.obj == Some(b)
    requires Succeeds(e)
    ensures Orderly(w, fs, b.uid, pvcName, r) && es <= fs
    ensures var v, v' := Run(w, es), Run(w, fs); v'.reconciler == AfterGet(b) && v'.store == v.store && Keeps(v, v')
  {
    var v := Run(w, es);
    var v1 := v.(reconciler := BGet, pass := v.pass + 1);
    QuietMore(w, es, BackupBegins, b.uid, pvcName, r, v1);
    fs := es + [BackupBegins];
    GetStep(v1, b, e);
    QuietMore(w, fs, e, b.uid, pvcName, r, Step(v1, e));
    fs := fs + [e];
  }

  /** A backup is created and gets its finalizer. */
  lemma OrderlyBackup(w: World, spec: Spec, r: Repository) returns (es: seq<Event>, b: Backup)
    requires Initial(w) && spec.credentialsSecret != ""
    requires Naming.UserSecretName(w.namespace, spec.pvcName) !in w.secrets
    ensures Orderly(w, es, b.uid, spec.pvcName, r) && Run(w, es).reconciler.BIdle? && Run(w, es).store.obj == Some(b)
    ensures b.finalizer && !b.deleting && b.spec == spec && Keeps(w, Run(w, es))
  {
    var e := BackupStep(Done, None, "", false, false);
    var v := UserNext(w, UserCreates(spec, None));
    b := v.store.obj.value;
    OrderlyMore(w, [], UserCreates(spec, None), b.uid, spec.pvcName, r, v);
    es := [] + [UserCreates(spec, None)];
    es := OrderlyRead(w, es, b, spec.pvcName, r, e);
    var v1 := Run(w, es);
    AddStep(v1, b, e);
    OrderlyMore(w, es, e, b.uid, spec.pvcName, r, Step(v1, e));
    es := es + [e];
    b := Run(w, es).store.obj.value;
    var v2 := Run(w, es);
    QuietMore(w, es, BackupCrash, b.uid, spec.pvcName, r, v2.(reconciler := BIdle));
    es := es + [BackupCrash];
  }

  lemma OrderlyToEnsure(w: World, es: seq<Event>, b: Backup, r: Repository, e: Event) returns (fs: seq<Event>)
    requires Orderly(w, es, b.uid, b.spec.pvcName, r) && Run(w, es).reconciler == BPvc(b) && b.spec.pvcName != ""
    requires r.serverEnabled && Succeeds(e) && e.repo == Some(r)
    ensures Orderly(w, fs, b.uid, b.spec.pvcName, r) && es <= fs
    ensures var v, v' := Run(w, es), Run(w, fs); v'.reconciler == BEnsure(b, r) && v'.store == v.store && Keeps(v, v')
  {
    var v := Run(w, es);
    PvcStep(v, b, e);
    QuietMore(w, es, e, b.uid, b.spec.pvcName, r, Step(v, e));
    fs := es + [e];
    var v1 := Run(w, fs);
    LookupStep(v1, b, r, e);
    QuietMore(w, fs, e, b.uid, b.spec.pvcName, r, Step(v1, e));
    fs := fs + [e];
  }

  /** Its user is created. */
  lemma OrderlyUser(w: World, es: seq<Event>, b: Backup, r: Repository) returns (fs: seq<Event>)
    requires Orderly(w, es, b.uid, b.spec.pvcName, r) && Run(w, es).reconciler.BIdle? && Run(w, es).store.obj == Some(b)
    requires b.finalizer && !b.deleting && b.spec.pvcName != "" && r.serverEnabled
    requires SecretName(Run(w, es), b) !in Run(w, es).secrets
    ensures Orderly(w, fs, b.uid, b.spec.pvcName, r) && es <= fs
    ensures var v, v' := Run(w, es), Run(w, fs);
            && v'.reconciler.BIdle? && v'.store == v.store && v'.namespace == v.namespace
            && SecretName(v', b) in v'.secrets
            && v'.commands == v.commands + [CreateUser(b.uid, HomeAccount(v.namespace, b.spec.pvcName, r))]
  {
    var e := BackupStep(Done, Some(r), "", true, true);
    fs := OrderlyRead(w, es, b, b.spec.pvcName, r, e);
    fs := OrderlyToEnsure(w, fs, b, r, e);
    var v := Run(w, fs);
    EnsureStep(v, b, r, e);
    assert Governed(w, fs, b.uid, b.spec.pvcName, r);
    OrderlyMore(w, fs, e, b.uid, b.spec.pvcName, r, Step(v, e));
    fs := fs + [e];
    var v1 := Run(w, fs);
    QuietMore(w, fs, BackupCrash, b.uid, b.spec.pvcName, r, v1.(reconciler := BIdle));
    fs := fs + [BackupCrash];
  }

  lemma OrderlyDelete(w: World, es: seq<Event>, b: Backup, r: Repository, e: Event) returns (fs: seq<Event>)
    requires Orderly(w, es, b.uid, b.spec.pvcName, r) && Run(w, es).reconciler == BDeleteLookup(b)
    requires r.serverEnabled && Succeeds(e) && e.repo == Some(r)
    ensures Orderly(w, fs, b.uid, b.spec.pvcName, r) && es <= fs
    ensures var v, v' := Run(w, es), Run(w, fs);
            && v'.reconciler == BSecretGet(b, AccountOf(v, b, r)) && v'.store == v.store && v'.secrets == v.secrets
            && v'.namespace == v.namespace && v'.commands == v.commands + [DeleteUser(b.uid, AccountOf(v, b, r))]
  {
    var v := Run(w, es);
    DeleteLookupStep(v, b, r, e);
    QuietMore(w, es, e, b.uid, b.spec.pvcName, r, Step(v, e));
    fs := es + [e];
    var v1 := Run(w, fs);
    DeleteExecStep(v1, b, AccountOf(v, b, r), e);
    QuietMore(w, fs, e, b.uid, b.spec.pvcName, r, Step(v1, e));
    fs := fs + [e];
  }

  lemma OrderlyRemoval(w: World, es: seq<Event>, b: Backup, x: Account, r: Repository, e: Event)
    returns (fs: seq<Event>)
    requires Orderly(w, es, b.uid, b.spec.pvcName, r) && Run(w, es).reconciler == BSecretGet(b, x) && Succeeds(e)
    requires Run(w, es).store.obj == Some(b) && b.deleting && b.finalizer
    requires SecretName(Run(w, es), b) in Run(w, es).secrets
    ensures Orderly(w, fs, b.uid, b.spec.pvcName, r) && es <= fs
    ensures Run(w, fs).store.obj.None? && Run(w, fs).commands == Run(w, es).commands
  {
    var v := Run(w, es);
    SecretFoundStep(v, b, x, e);
    QuietMore(w, es, e, b.uid, b.spec.pvcName, r, Step(v, e));
    fs := es + [e];
    var v1 := Run(w, fs);
    SecretDeleteStep(v1, b, x, e);
    assert Governed(w, fs, b.uid, b.spec.pvcName, r);
    OrderlyMore(w, fs, e, b.uid, b.spec.pvcName, r, Step(v1, e));
    fs := fs + [e];
    var v2 := Run(w, fs);
    RemoveStep(v2, b, e);
    OrderlyMore(w, fs, e, b.uid, b.spec.pvcName, r, Step(v2, e));
    fs := fs + [e];
  }

  /** A user deletes the backup. */
  lemma OrderlyAsked(w: World, es: seq<Event>, b: Backup, r: Repository) returns (fs: seq<Event>, o: Backup)
    requires Orderly(w, es, b.uid, b.spec.pvcName, r) && Run(w, es).reconciler.BIdle? && Run(w, es).store.obj == Some(b)
    requires b.finalizer && !b.deleting && b.spec.credentialsSecret != ""
    ensures Orderly(w, fs, b.uid, b.spec.pvcName, r) && es <= fs
    ensures var v, v' := Run(w, es), Run(w, fs);
            && v'.reconciler.BIdle? && v'.store.obj == Some(o) && Keeps(v, v')
            && o.deleting && o.finalizer && o.uid == b.uid && o.spec == b.spec
  {
    var v := Run(w, es);
    var v1 := UserNext(v, UserDeletes);
    o := v1.store.obj.value;
    assert Governed(w, es, b.uid, b.spec.pvcName, r);
    OrderlyMore(w, es, UserDeletes, b.uid, b.spec.pvcName, r, v1);
    fs := es + [UserDeletes];
  }

  /**
   * The theorem is about runs that exist: for every spec that names its secret, a governed run that
   * creates the user, deletes it and takes the finalizer off.
   */
  lemma GovernedDeletion(w: World, spec: Spec, r: Repository) returns (es: seq<Event>, n: nat, u: nat)
    requires Initial(w) && spec.pvcName != "" && spec.credentialsSecret != "" && r.serverEnabled
    requires Naming.UserSecretName(w.namespace, spec.pvcName) !in w.secrets
    ensures Governed(w, es, u, spec.pvcName, r) && HandsOff(w, es, u)
    ensures n <= |es| && HasFinalizer(Run(w, es[..n]).store, u) && Run(w, es).store.obj.None?
    ensures var x := HomeAccount(w.namespace, spec.pvcName, r);
            Run(w, es).commands == [CreateUser(u, x), DeleteUser(u, x)]
  {
    var b;
    var e := BackupStep(Done, Some(r), "", false, false);
    es, b := OrderlyBackup(w, spec, r);
    n, u := |es|, b.uid;
    var first := es;
    es := OrderlyUser(w, es, b, r);
    es, b := OrderlyAsked(w, es, b, r);
    es := OrderlyRead(w, es, b, b.spec.pvcName, r, e);
    es := OrderlyDelete(w, es, b, r, e);
    es := OrderlyRemoval(w, es, b, Run(w, es).reconciler.user, r, e);
    assert es[..n] == first;
  }
}
