/**
 * Users that outlive their backups. What a server holds follows from the commands run on it: a user is
 * there when the last command for it, by whatever object, created it.
 */
module Orphans {
  import opened Options
  import opened Resources
  import opened ApiServer
  import opened Controllers
  import opened CopyDiscipline
  import opened Finalizers
  import opened Scenarios
  import opened Text
  import Naming

  // --- What a cleanup deletes ---

  /**
   * The cleanup of `b` deletes user `x`: the secret is recorded, the lookup gave a server, and the computed name
   * on it is `x`.
   */
  predicate CleansUser(w: World, b: Backup, x: Account) {
    && b.spec.credentialsSecret != "" && w.facts.repo.Some? && w.facts.repo.value.serverEnabled
    && AccountOf(w, b, w.facts.repo.value) == x
  }

  /** What the current pass has logged. */
  predicate PassLog(w: World, log: seq<Command>) {
    w.facts.since + |log| == |w.commands| && w.commands[w.facts.since..] == log
  }

  predicate ServerFound(w: World, b: Backup) {
    b.spec.credentialsSecret != "" && w.facts.repo.Some? && w.facts.repo.value.serverEnabled
  }

  /** What a cleanup has logged so far, by the step it is about to take. */
  predicate CleanupLog(w: World) {
    match w.reconciler
    case BDeleteLookup(b) => b.spec.credentialsSecret != "" && PassLog(w, [])
    case BDeleteExec(b, x) => CleansUser(w, b, x) && PassLog(w, [])
    case BSecretGet(b, x) => CleansUser(w, b, x) && PassLog(w, [DeleteUser(b.uid, x)])
    case BSecretDelete(b, x) => CleansUser(w, b, x) && PassLog(w, [DeleteUser(b.uid, x)])
    case BRemoveFinalizer(b, cleaned) =>
      && cleaned == (if ServerFound(w, b) then Some(AccountOf(w, b, w.facts.repo.value)) else None)
      && PassLog(w, if cleaned.Some? then [DeleteUser(b.uid, cleaned.value)] else [])
    case _ => true
  }

  lemma LookupLog(w: World, out: Outcome, repo: Option<Repository>)
    requires CleanupLog(w) && w.reconciler.BDeleteLookup?
    ensures CleanupLog(FinalizerNext(w, out, repo))
  {
  }

  lemma ExecLog(w: World, out: Outcome, repo: Option<Repository>)
    requires CleanupLog(w) && w.reconciler.BDeleteExec?
    ensures CleanupLog(FinalizerNext(w, out, repo))
  {
    var v := FinalizerNext(w, out, repo);
    var n := w.facts.since;
    assert w.commands[..n] == w.commands;
    assert !out.Lost? ==> v.commands[n..] == [DeleteUser(w.reconciler.b.uid, w.reconciler.user)];
  }

  lemma SecretLog(w: World, out: Outcome, repo: Option<Repository>)
    requires CleanupLog(w) && !w.reconciler.BDeleteLookup? && !w.reconciler.BDeleteExec?
    ensures CleanupLog(FinalizerNext(w, out, repo))
  {
  }

  lemma GetLog(w: World, e: Event)
    requires w.reconciler.BGet? && e.BackupStep?
    ensures CleanupLog(Step(w, e))
  {
    assert w.commands[|w.commands|..] == [];
  }

  lemma BackupCleanupLog(w: World, e: Event)
    requires CleanupLog(w) && e.BackupStep? && !w.reconciler.BGet?
    ensures CleanupLog(Step(w, e))
  {
    if w.reconciler.BDeleteLookup? {
      LookupLog(w, e.out, e.repo);
    } else if w.reconciler.BDeleteExec? {
      ExecLog(w, e.out, e.repo);
    } else if Cleaning(w.reconciler) || w.reconciler.BAddFinalizer? {
      SecretLog(w, e.out, e.repo);
    } else if Building(w.reconciler) {
      BuildingStays(w, e.out, e.repo, e.ran, e.left);
    } else {
      EndsBuilding(w, e);
    }
  }

  lemma EndsBuilding(w: World, e: Event)
    requires e.BackupStep?
    requires (w.reconciler.BIdle? || w.reconciler.BPods? || w.reconciler.BCron? || w.reconciler.BStatus?)
    ensures !Cleaning(Step(w, e).reconciler)
  {
  }

  lemma StepCleanupLog(w: World, e: Event)
    requires CleanupLog(w)
    ensures CleanupLog(Step(w, e))
  {
    if e.WatcherStep? {
      WatcherKeepsPass(w, e.out, e.repo);
    } else if e.BackupStep? {
      if w.reconciler.BGet? { GetLog(w, e); } else { BackupCleanupLog(w, e); }
    } else {
      UserKeepsPasses(w, e);
    }
  }

  lemma {:induction false} CleanupLogRun(w: World, es: seq<Event>)
    requires Initial(w)
    ensures CleanupLog(Run(w, es))
  {
    if es != [] {
      CleanupLogRun(w, es[..|es| - 1]);
      StepCleanupLog(Run(w, es[..|es| - 1]), es[|es| - 1]);
    }
  }

  /** What the pass that takes the finalizer off has deleted itself; an earlier pass may have deleted more. */
  lemma PassDeletesIff(w: World, es: seq<Event>, b: Backup, cleaned: Option<Account>, x: Account)
    requires Initial(w) && Run(w, es).reconciler == BRemoveFinalizer(b, cleaned)
    ensures var v := Run(w, es);
            && v.facts.since <= |v.commands|
            && (DeleteUser(b.uid, x) in v.commands[v.facts.since..] <==> CleansUser(v, b, x))
  {
    CleanupLogRun(w, es);
  }

  /**
   * A cleanup of object `u` runs its delete command here: the spec it read names the secret, its lookup
   * gave a server-mode repository, the name computed from that spec and that hostname, on the server of
   * that repository, is `x`, and the command is not lost.
   */
  predicate CleansAt(v: World, e: Event, u: nat, x: Account) {
    Cleans(v, e, x) && v.reconciler.b.uid == u
  }

  /** The same, for whatever object. */
  predicate Cleans(v: World, e: Event, x: Account) {
    e.BackupStep? && !e.out.Lost? && v.reconciler.BDeleteExec? && CleansUser(v, v.reconciler.b, x)
  }

  lemma ExecLogs(w: World, out: Outcome, repo: Option<Repository>)
    requires w.reconciler.BDeleteExec?
    ensures FinalizerNext(w, out, repo).commands ==
            w.commands + if out.Lost? then [] else [DeleteUser(w.reconciler.b.uid, w.reconciler.user)]
  {
  }

  /** A step logs the delete command for `x` exactly when it is such a cleanup. */
  lemma StepDeletesIff(w: World, e: Event, u: nat, x: Account)
    requires CleanupLog(w)
    ensures DeleteUser(u, x) in Step(w, e).commands <==> DeleteUser(u, x) in w.commands || CleansAt(w, e, u, x)
  {
    if e.BackupStep? && w.reconciler.BDeleteExec? {
      ExecLogs(w, e.out, e.repo);
    } else {
      StepLogs(w, e);
      OnlyCleanupDeletes(w, e);
    }
  }

  lemma OnlyCleanupDeletes(w: World, e: Event)
    requires !(e.BackupStep? && w.reconciler.BDeleteExec?)
    ensures var v := Step(w, e);
            || v.commands == w.commands
            || (|v.commands| == |w.commands| + 1 && v.commands[..|w.commands|] == w.commands
                && v.commands[|w.commands|].CreateUser?)
  {
    StepLogs(w, e);
    if !e.BackupStep? { CommandsKept(w, e); }
  }

  lemma CommandsKept(w: World, e: Event)
    requires !e.BackupStep?
    ensures Step(w, e).commands == w.commands
  {
    if e.WatcherStep? { WatcherKeepsPass(w, e.out, e.repo); } else { UserKeepsPasses(w, e); }
  }

  /** Event `i` of the run is such a cleanup. */
  predicate CleansIn(w: World, es: seq<Event>, i: nat, u: nat, x: Account)
    requires i < |es|
  {
    CleansAt(Run(w, es[..i]), es[i], u, x)
  }

  /** Some cleanup of `u` ran its command for `x`. */
  ghost predicate Cleaned(w: World, es: seq<Event>, u: nat, x: Account) {
    exists i :: 0 <= i < |es| && CleansIn(w, es, i, u, x)
  }

  lemma CleansEarlier(w: World, es: seq<Event>, i: nat, u: nat, x: Account)
    requires es != [] && i < |es| - 1
    ensures CleansIn(w, es, i, u, x) <==> CleansIn(w, es[..|es| - 1], i, u, x)
  {
    assert es[..|es| - 1][..i] == es[..i];
  }

  lemma CleanedMore(w: World, es: seq<Event>, u: nat, x: Account)
    requires es != []
    ensures Cleaned(w, es, u, x) <==> Cleaned(w, es[..|es| - 1], u, x) || CleansIn(w, es, |es| - 1, u, x)
  {
    var before := es[..|es| - 1];
    if i :| 0 <= i < |es| && CleansIn(w, es, i, u, x) {
      if i < |before| { CleansEarlier(w, es, i, u, x); }
    }
    if i :| 0 <= i < |before| && CleansIn(w, before, i, u, x) {
      CleansEarlier(w, es, i, u, x);
    }
  }

  /**
   * Exactly when a user `x` has been deleted for object `u`, over the whole of every run: some cleanup
   * of `u` ran its command for it.
   */
  lemma {:induction false} DeletesUserIff(w: World, es: seq<Event>, u: nat, x: Account)
    requires Initial(w)
    ensures DeleteUser(u, x) in Run(w, es).commands <==> Cleaned(w, es, u, x)
  {
    if es != [] {
      DeletesUserIff(w, es[..|es| - 1], u, x);
      CleanupLogRun(w, es[..|es| - 1]);
      StepDeletesIff(Run(w, es[..|es| - 1]), es[|es| - 1], u, x);
      CleanedMore(w, es, u, x);
    }
  }

  // --- What a server holds ---

  /** The last command for account `x`, by whatever object, creates it. */
  ghost predicate OnServer(log: seq<Command>, x: Account) {
    exists i :: 0 <= i < |log| && log[i].CreateUser? && log[i].user == x
                && forall j :: i < j < |log| && log[j].user == x ==> log[j].CreateUser?
  }

  lemma OnServerMore(log: seq<Command>, c: Command, x: Account)
    ensures OnServer(log + [c], x) <==> if c.user == x then c.CreateUser? else OnServer(log, x)
  {
    var more := log + [c];
    assert more[|log|] == c;
    if c.user == x {
      if i :| 0 <= i < |more| && more[i].CreateUser? && more[i].user == x
              && forall j :: i < j < |more| && more[j].user == x ==> more[j].CreateUser? {
        assert i < |log| ==> more[|log|].CreateUser?;
      }
    } else {
      StaysOnServer(log, c, x);
    }
  }

  lemma StaysOnServer(log: seq<Command>, c: Command, x: Account)
    requires c.user != x
    ensures OnServer(log + [c], x) <==> OnServer(log, x)
  {
    var more := log + [c];
    assert forall k :: 0 <= k < |log| ==> more[k] == log[k];
    if i :| 0 <= i < |more| && more[i].CreateUser? && more[i].user == x
            && forall j :: i < j < |more| && more[j].user == x ==> more[j].CreateUser? {
      assert log[i].CreateUser? && log[i].user == x;
    }
    if i :| 0 <= i < |log| && log[i].CreateUser? && log[i].user == x
            && forall j :: i < j < |log| && log[j].user == x ==> log[j].CreateUser? {
      assert more[i].CreateUser? && more[i].user == x;
    }
  }

  /** EnsureUser, for whatever object, runs its create command for `x` here. */
  predicate Makes(v: World, e: Event, x: Account) {
    e.BackupStep? && e.ran && v.reconciler.BEnsure? && EnsuredAccount(v, v.reconciler.b, v.reconciler.repo) == x
  }

  lemma EnsureLogs(w: World, out: Outcome, repo: Option<Repository>, ran: bool, left: bool)
    requires w.reconciler.BEnsure?
    ensures DependenciesNext(w, out, repo, ran, left).commands ==
            w.commands + if ran then [Creation(w, w.reconciler.b, w.reconciler.repo)] else []
  {
  }

  /** No other step runs a command. */
  lemma OthersRunNothing(w: World, e: Event)
    requires !(e.BackupStep? && (w.reconciler.BDeleteExec? || w.reconciler.BEnsure?))
    ensures Step(w, e).commands == w.commands
  {
    if e.BackupStep? { StepLogs(w, e); } else { CommandsKept(w, e); }
  }

  /** A step puts `x` on its server, takes it off, or leaves it. */
  lemma StepOnServerIff(w: World, e: Event, x: Account)
    requires CleanupLog(w)
    ensures OnServer(Step(w, e).commands, x) <==> Makes(w, e, x) || (OnServer(w.commands, x) && !Cleans(w, e, x))
  {
    if e.BackupStep? && w.reconciler.BDeleteExec? {
      ExecLogs(w, e.out, e.repo);
      assert w.commands + [] == w.commands;
      OnServerMore(w.commands, DeleteUser(w.reconciler.b.uid, w.reconciler.user), x);
    } else if e.BackupStep? && w.reconciler.BEnsure? {
      EnsureLogs(w, e.out, e.repo, e.ran, e.left);
      assert w.commands + [] == w.commands;
      OnServerMore(w.commands, Creation(w, w.reconciler.b, w.reconciler.repo), x);
    } else {
      OthersRunNothing(w, e);
    }
  }

  predicate MakesIn(w: World, es: seq<Event>, i: nat, x: Account)
    requires i < |es|
  {
    Makes(Run(w, es[..i]), es[i], x)
  }

  predicate TakesIn(w: World, es: seq<Event>, i: nat, x: Account)
    requires i < |es|
  {
    Cleans(Run(w, es[..i]), es[i], x)
  }

  /** Event `i` runs the create command for `x`, and no cleanup of any object has run its delete command since. */
  ghost predicate StandsSince(w: World, es: seq<Event>, i: nat, x: Account)
    requires i < |es|
  {
    MakesIn(w, es, i, x) && forall j :: i < j < |es| ==> !TakesIn(w, es, j, x)
  }

  ghost predicate Stands(w: World, es: seq<Event>, x: Account) {
    exists i :: 0 <= i < |es| && StandsSince(w, es, i, x)
  }

  lemma MakesEarlier(w: World, es: seq<Event>, i: nat, x: Account)
    requires es != [] && i < |es| - 1
    ensures MakesIn(w, es, i, x) <==> MakesIn(w, es[..|es| - 1], i, x)
  {
    assert es[..|es| - 1][..i] == es[..i];
  }

  lemma TakesEarlier(w: World, es: seq<Event>, i: nat, x: Account)
    requires es != [] && i < |es| - 1
    ensures TakesIn(w, es, i, x) <==> TakesIn(w, es[..|es| - 1], i, x)
  {
    assert es[..|es| - 1][..i] == es[..i];
  }

  lemma StandsEarlier(w: World, es: seq<Event>, i: nat, x: Account)
    requires es != [] && i < |es| - 1
    ensures StandsSince(w, es, i, x) <==>
            StandsSince(w, es[..|es| - 1], i, x) && !TakesIn(w, es, |es| - 1, x)
  {
    var before := es[..|es| - 1];
    MakesEarlier(w, es, i, x);
    forall j | i < j < |before| ensures TakesIn(w, es, j, x) <==> TakesIn(w, before, j, x) {
      TakesEarlier(w, es, j, x);
    }
  }

  lemma StandsMore(w: World, es: seq<Event>, x: Account)
    requires es != []
    ensures Stands(w, es, x) <==>
            MakesIn(w, es, |es| - 1, x) || (Stands(w, es[..|es| - 1], x) && !TakesIn(w, es, |es| - 1, x))
  {
    var before := es[..|es| - 1];
    assert StandsSince(w, es, |before|, x) <==> MakesIn(w, es, |before|, x);
    if i :| 0 <= i < |es| && StandsSince(w, es, i, x) {
      if i < |before| { StandsEarlier(w, es, i, x); }
    }
    if i :| 0 <= i < |before| && StandsSince(w, before, i, x) {
      StandsEarlier(w, es, i, x);
    }
  }

  /**
   * Exactly when a server holds a user, over the whole of every run: some EnsureUser ran its create
   * command there under that name, and since then no cleanup, of whatever object, has looked that very
   * repository up and computed that very name, with its secret recorded and its command run.
   */
  lemma {:induction false} OutlivesIff(w: World, es: seq<Event>, x: Account)
    requires Initial(w)
    ensures OnServer(Run(w, es).commands, x) <==> Stands(w, es, x)
  {
    if es != [] {
      var before, e := es[..|es| - 1], es[|es| - 1];
      OutlivesIff(w, before, x);
      CleanupLogRun(w, before);
      StepOnServerIff(Run(w, before), e, x);
      StandsMore(w, es, x);
    }
  }

  lemma CreatedLast(log: seq<Command>, u: nat, x: Account)
    ensures OnServer(log + [CreateUser(u, x)], x) && !OnServer(log + [DeleteUser(u, x)], x)
  {
    OnServerMore(log, CreateUser(u, x), x);
    OnServerMore(log, DeleteUser(u, x), x);
  }

  // --- Runs in which no user outlives its backup ---

  /** A cleanup that deleted a user ran the last command there is. */
  lemma DeletedLast(w: World)
    requires CleanupLog(w) && AboutToRetire(w.reconciler)
    ensures !OnServer(w.commands, w.reconciler.cleaned.value)
  {
    var n := w.facts.since;
    assert w.commands == w.commands[..n] + w.commands[n..];
    CreatedLast(w.commands[..n], w.reconciler.b.uid, w.reconciler.cleaned.value);
  }

  /**
   * In every governed run, at the step that takes the finalizer off, none of the users ever created for
   * the object is left on the server it was created on, whatever other objects did before.
   */
  lemma RemovalFindsUserGone(w: World, es: seq<Event>, e: Event, u: nat, pvcName: Bytes, home: Repository, y: Account)
    requires Initial(w) && Governed(w, es, u, pvcName, home) && !e.UserStripsFinalizer?
    requires HasFinalizer(Run(w, es).store, u) && !HasFinalizer(Step(Run(w, es), e).store, u)
    ensures !OnServer(Run(w, es).commands, HomeAccount(w.namespace, pvcName, home))
    ensures CreateUser(u, y) in Run(w, es).commands ==> !OnServer(Run(w, es).commands, y)
  {
    CleanupRun(w, es, u, pvcName, home);
    CleanupLogRun(w, es);
    CopyRun(w, es);
    FinalizerHolds(Run(w, es), e, u);
    DeletedLast(Run(w, es));
  }

  // --- Runs in which a user outlives its backup ---

  /**
   * Created on the server, but the pass stops before the spec names the secret: deletion then removes
   * the finalizer and the object without any delete command.
   */
  lemma OrphanedUser(w: World, spec: Spec, r: Repository) returns (es: seq<Event>, u: nat)
    requires Initial(w) && spec.pvcName != "" && spec.credentialsSecret == "" && r.serverEnabled
    requires Naming.UserSecretName(w.namespace, spec.pvcName) !in w.secrets
    ensures var v, x := Run(w, es), HomeAccount(w.namespace, spec.pvcName, r);
            && v.store.obj.None? && v.reconciler.BIdle? && u < v.store.nextUid && v.namespace == w.namespace
            && v.commands == [CreateUser(u, x)] && OnServer(v.commands, x)
            && v.secrets == w.secrets[Naming.UserSecretName(w.namespace, spec.pvcName) := x.user]
  {
    var b;
    es, b := FinalizerAdded(w, [], spec);
    es := UserMade(w, es, b, r);
    es, b := DeletionAsked(w, es, b);
    es := CleanupSkipped(w, es, b);
    u := b.uid;
    CreatedLast([], u, HomeAccount(w.namespace, spec.pvcName, r));
  }

  /** A user is created with one repository in view, the backup deleted with another. */
  lemma CreateThenDelete(w: World, es: seq<Event>, spec: Spec, first: Repository, last: Repository)
    returns (fs: seq<Event>, u: nat)
    requires var v := Run(w, es); v.reconciler.BIdle? && v.store.obj.None?
    requires spec.pvcName != "" && spec.credentialsSecret != "" && first.serverEnabled && last.serverEnabled
    ensures var v, v' := Run(w, es), Run(w, fs);
            && u == v.store.nextUid && v'.store.obj.None? && v'.namespace == v.namespace
            && v'.commands == v.commands + [CreateUser(u, FirstAccount(v, spec, first)),
                                            DeleteUser(u, HomeAccount(v.namespace, spec.pvcName, last))]
  {
    var v := Run(w, es);
    var b;
    fs, b := FinalizerAdded(w, es, spec);
    fs := UserMade(w, fs, b, first);
    fs, b := DeletionAsked(w, fs, b);
    fs := CleanupDone(w, fs, b, last);
    u := b.uid;
  }

  /** The user a first call of EnsureUser works for, given the secrets there are. */
  function FirstAccount(v: World, spec: Spec, r: Repository): Account {
    var secret := Naming.UserSecretName(v.namespace, spec.pvcName);
    if secret in v.secrets then AccountOn(r, v.secrets[secret]) else HomeAccount(v.namespace, spec.pvcName, r)
  }

  /** Two commands for different users: the created one stays. */
  lemma OtherDeleted(log: seq<Command>, u: nat, x: Account, y: Account)
    requires x != y
    ensures OnServer(log + [CreateUser(u, x), DeleteUser(u, y)], x)
  {
    CreatedLast(log, u, x);
    OnServerMore(log + [CreateUser(u, x)], DeleteUser(u, y), x);
    assert log + [CreateUser(u, x)] + [DeleteUser(u, y)] == log + [CreateUser(u, x), DeleteUser(u, y)];
  }

  /** A hostname changed between creation and deletion leaves the user behind although nothing was skipped. */
  lemma HostnameChanged(w: World, spec: Spec, first: Repository, last: Repository) returns (es: seq<Event>)
    requires Initial(w) && spec.pvcName != "" && spec.credentialsSecret != "" && first.serverEnabled
    requires last.serverEnabled && first.hostname != last.hostname
    requires Naming.UserSecretName(w.namespace, spec.pvcName) !in w.secrets
    ensures Run(w, es).store.obj.None? && OnServer(Run(w, es).commands, HomeAccount(w.namespace, spec.pvcName, first))
  {
    var u;
    es, u := CreateThenDelete(w, [], spec, first, last);
    HostnamesTell(w.namespace, spec.pvcName, first.hostname, last.hostname);
    OtherDeleted([], u, HomeAccount(w.namespace, spec.pvcName, first), HomeAccount(w.namespace, spec.pvcName, last));
  }

  lemma HostnamesTell(namespace: string, pvcName: Bytes, h: string, h': string)
    requires h != h'
    ensures Naming.Username(namespace, pvcName, h) != Naming.Username(namespace, pvcName, h')
  {
    var front := namespace + "-" + pvcName + "@";
    if Naming.Username(namespace, pvcName, h) == Naming.Username(namespace, pvcName, h') {
      Naming.SplitAt(front, h, front, h');
    }
  }

  /**
   * A backup moved to another repository with the same hostname: the delete command runs, under the very
   * name that was created, but on the other server.
   */
  lemma MovedBackup(w: World, spec: Spec, first: Repository, last: Repository) returns (es: seq<Event>, u: nat)
    requires Initial(w) && spec.pvcName != "" && spec.credentialsSecret != "" && first.serverEnabled
    requires last.serverEnabled && first.hostname == last.hostname
    requires first.namespace != last.namespace || first.name != last.name
    requires Naming.UserSecretName(w.namespace, spec.pvcName) !in w.secrets
    ensures var x, y := HomeAccount(w.namespace, spec.pvcName, first), HomeAccount(w.namespace, spec.pvcName, last);
            && Run(w, es).store.obj.None? && x.user == y.user
            && Run(w, es).commands == [CreateUser(u, x), DeleteUser(u, y)] && OnServer(Run(w, es).commands, x)
  {
    es, u := CreateThenDelete(w, [], spec, first, last);
    OtherDeleted([], u, HomeAccount(w.namespace, spec.pvcName, first), HomeAccount(w.namespace, spec.pvcName, last));
  }

  /** A secret that names another user: that user is created and outlives the backup. */
  lemma ForeignUserLeft(w: World, spec: Spec, r: Repository, x: string) returns (es: seq<Event>)
    requires Initial(w) && spec.pvcName != "" && spec.credentialsSecret != "" && r.serverEnabled
    requires x != Naming.Username(w.namespace, spec.pvcName, r.hostname)
    ensures Run(w, es).store.obj.None? && OnServer(Run(w, es).commands, AccountOn(r, x))
  {
    var u;
    var written := SecretWritten(Naming.UserSecretName(w.namespace, spec.pvcName), x);
    Then(w, [], written, UserNext(w, written));
    es, u := CreateThenDelete(w, [] + [written], spec, r, r);
    OtherDeleted([], u, AccountOn(r, x), HomeAccount(w.namespace, spec.pvcName, r));
  }

  /**
   * And one in which it does not, although no command was ever run for its own object: a successor under
   * the same key takes the orphaned user over and deletes it.
   */
  lemma SuccessorCleansUp(w: World, orphan: Spec, spec: Spec, r: Repository) returns (es: seq<Event>, u: nat)
    requires Initial(w) && spec.pvcName != "" && spec.credentialsSecret != "" && r.serverEnabled
    requires orphan == spec.(credentialsSecret := "") && Naming.UserSecretName(w.namespace, spec.pvcName) !in w.secrets
    ensures var log, x := Run(w, es).commands, HomeAccount(w.namespace, spec.pvcName, r);
            && CreateUser(u, x) in log && DeleteUser(u, x) !in log
            && Run(w, es).store.obj.None? && !OnServer(log, x)
  {
    var x := HomeAccount(w.namespace, spec.pvcName, r);
    var u2;
    es, u := OrphanedUser(w, orphan, r);
    es, u2 := CreateThenDelete(w, es, spec, r, r);
    var log := [CreateUser(u, x)] + [CreateUser(u2, x)];
    assert Run(w, es).commands == log + [DeleteUser(u2, x)];
    assert Run(w, es).commands[0] == CreateUser(u, x);
    CreatedLast(log, u2, x);
  }
}
