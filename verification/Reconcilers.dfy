/**
 * The two controllers as the source writes them: `backup` is the object held in memory, every client
 * call is one step of the machine, others act before each call, and a write must hand over exactly
 * the object in memory. Each method proves that what it does is a run of the machine, so whatever
 * holds over all runs holds for it, and says what its success means.
 */
module Reconcilers {
  import opened Options
  import opened Resources
  import opened ApiServer
  import opened Controllers
  import opened CopyDiscipline
  import opened WatcherGuarantees
  import opened ReadyCondition
  import opened Finalizers
  import opened Text
  import Naming

  predicate OfWatcher(e: Event) { e.WatcherBegins? || e.WatcherStep? || e.WatcherCrash? }

  predicate OfBackup(e: Event) { e.BackupBegins? || e.BackupStep? || e.BackupCrash? }

  /** What the world answers to a call; `notReady` tells why EnsureUser failed. */
  datatype Reply = Reply(out: Outcome, node: string, ran: bool, left: bool, notReady: bool)

  /** Steps of the controllers take the outcome the world has for them. */
  predicate Honest(e: Event, r: Reply) {
    && (e.WatcherStep? ==> e.out == r.out)
    && (e.BackupStep? ==> e.out == r.out && e.node == r.node && e.ran == r.ran && e.left == r.left)
  }

  // --- What a pass was told, as a function of the run alone ---

  /** Replies to the current watcher pass; `writes` counts its write calls. */
  datatype Watch = Watch(pvc: Option<Option<Pvc>>, found: Option<Option<Backup>>, repo: Option<Option<Repository>>,
                         existed: bool, writes: nat, failed: bool, crashed: bool)

  const NO_WATCH: Watch := Watch(None, None, None, false, 0, false, false)

  /** A write call and whether it went through. */
  function Wrote(s: Watch, ok: bool): Watch {
    s.(writes := s.writes + 1, failed := s.failed || !ok)
  }

  function WatchStep(s: Watch, w: World, out: Outcome, repo: Option<Repository>): Watch {
    match w.watcher
    case WIdle => s
    case WGetPvc => if out.Done? then s.(pvc := Some(w.pvc)) else s.(failed := true)
    case WGetBackup(_) => if out.Done? then s.(found := Some(w.store.obj)) else s.(failed := true)
    case WSyncLookup(_, _) => s.(repo := Some(repo))
    case WCreateLookup(_) => s.(repo := Some(repo))
    case WDelete(_, _) => Wrote(s, out.Done?)
    case WCreate(_, _) => Wrote(s, out.Done?).(existed := w.store.obj.Some?)
    case WMarkStatus(_, b) => Wrote(s, out.Done? && Current(w.store, b))
    case WSyncUpdate(_, b, _) => Wrote(s, out.Done? && Current(w.store, b))
    case WCreatedStatus(_, b) => Wrote(s, out.Done? && Current(w.store, b))
  }

  function WatchNext(s: Watch, w: World, e: Event): Watch {
    match e
    case WatcherBegins => if w.watcher.WIdle? then NO_WATCH else s
    case WatcherCrash => s.(crashed := true)
    case WatcherStep(out, repo) => WatchStep(s, w, out, repo)
    case _ => s
  }

  function WatchOf(w: World, es: seq<Event>): Watch {
    if es == [] then NO_WATCH
    else WatchNext(WatchOf(w, es[..|es| - 1]), Run(w, es[..|es| - 1]), es[|es| - 1])
  }

  /** Replies to the current reconciler pass; `unsure` tells that EnsureUser did not succeed. */
  datatype Own = Own(read: Option<Option<Backup>>, unsure: bool, failed: bool, crashed: bool)

  const NO_OWN: Own := Own(None, false, false, false)

  function OwnStep(s: Own, w: World, out: Outcome): Own {
    match w.reconciler
    case BGet => if out.Done? then s.(read := Some(w.store.obj)) else s.(failed := true)
    case BDeleteExec(_, _) => s.(failed := s.failed || !out.Done?)
    case BSecretGet(_, _) => s.(failed := s.failed || !out.Done?)
    case BSecretDelete(b, _) => s.(failed := s.failed || !out.Done? || SecretName(w, b) !in w.secrets)
    case BRemoveFinalizer(b, _) => s.(failed := s.failed || !out.Done? || !Current(w.store, b))
    case BAddFinalizer(b) => s.(failed := s.failed || !out.Done? || !Current(w.store, b))
    case BEnsure(_, _) => s.(unsure := !out.Done?)
    case BRecord(b, _) => s.(failed := s.failed || !out.Done? || !Current(w.store, b))
    case BConfigMap(_, _) => s.(failed := s.failed || !out.Done?)
    case BCron(_, _, _, _) => s.(failed := s.failed || !out.Done?)
    case BStatus(b, _) => s.(failed := s.failed || !out.Done? || !Current(w.store, b))
    case _ => s
  }

  function OwnNext(s: Own, w: World, e: Event): Own {
    match e
    case BackupBegins => if w.reconciler.BIdle? then NO_OWN else s
    case BackupCrash => s.(crashed := true)
    case BackupStep(out, _, _, _, _) => OwnStep(s, w, out)
    case _ => s
  }

  function OwnOf(w: World, es: seq<Event>): Own {
    if es == [] then NO_OWN
    else OwnNext(OwnOf(w, es[..|es| - 1]), Run(w, es[..|es| - 1]), es[|es| - 1])
  }

  lemma Told(w: World, es: seq<Event>, e: Event)
    ensures Run(w, es + [e]) == Step(Run(w, es), e)
    ensures WatchOf(w, es + [e]) == WatchNext(WatchOf(w, es), Run(w, es), e)
    ensures OwnOf(w, es + [e]) == OwnNext(OwnOf(w, es), Run(w, es), e)
  {
    assert (es + [e])[..|es|] == es;
  }

  /** Others do not touch the reconciler's pass or the CronJob. */
  lemma PassKept(w: World, e: Event)
    requires !OfBackup(e)
    ensures var v := Step(w, e);
            && v.reconciler == w.reconciler && v.facts == w.facts && v.namespace == w.namespace && v.pass == w.pass
            && v.cron == w.cron && v.passes == w.passes && v.retired == w.retired && v.commands == w.commands
  {
    if e.WatcherStep? { WatcherKeepsPass(w, e.out, e.repo); }
  }

  /** Others do not touch the watcher's pass. */
  lemma WatchKept(w: World, e: Event)
    requires !OfWatcher(e)
    ensures Step(w, e).watcher == w.watcher
  {
    if e.BackupStep? { BackupKeepsWatcher(w, e); }
  }

  // --- The writes, step by step ---

  /** The object with the name of its secret in the spec. */
  function WithSecret(w: World, b: Backup): Backup {
    b.(spec := b.spec.(credentialsSecret := SecretName(w, b)))
  }

  lemma StatusStored(s: Store, b: Backup, st: Status)
    requires Faithful(s, b) && Current(s, b)
    ensures var t := UpdateStatus(s, b.(status := st));
            && t.obj.Some? && SameStatus(t.obj.value.status, st)
            && t.obj.value == b.(status := t.obj.value.status, version := t.obj.value.version)
  {
  }

  lemma StatusStep(was: World, e: Event)
    requires CopyInv(was) && was.reconciler.BStatus? && e.BackupStep?
    ensures var v := Step(was, e);
            && v.reconciler.BIdle? && v.facts == was.facts && v.namespace == was.namespace && v.cron == was.cron
            && (e.out.Done? && Current(was.store, was.reconciler.b) ==>
                  v.store == UpdateStatus(was.store, was.reconciler.b.(status := was.reconciler.st)))
  {
  }

  lemma SecretStored(s: Store, b: Backup, copy: Backup)
    requires Faithful(s, b) && Current(s, b) && !b.deleting
    requires copy == b.(spec := b.spec.(credentialsSecret := copy.spec.credentialsSecret))
    ensures var t := Update(s, copy);
            && t.obj.Some? && t.obj.value.uid == copy.uid && t.obj.value.spec == copy.spec
            && t.obj.value.status == copy.status
  {
  }

  lemma RecordStep(was: World, e: Event, copy: Backup)
    requires was.reconciler.BRecord? && e.BackupStep?
    requires copy == WithSecret(was, was.reconciler.b)
    requires e.out.Done? && Current(was.store, copy) ==> Update(was.store, copy).obj.Some?
    ensures var v := Step(was, e);
            && v.facts == was.facts && v.namespace == was.namespace
            && v.reconciler == if e.out.Done? && Current(was.store, copy) then
                                 var o := Update(was.store, copy).obj.value;
                                 BPods(o, ConnectedStatus(was, o, was.reconciler.repo), was.reconciler.repo)
                               else BStatus(was.reconciler.b, was.reconciler.b.status)
  {
  }

  // --- What success means ---

  /** The schedule the PVC asks for is known and not the backup's. */
  predicate Differs(p: Pvc, b: Backup, repo: Option<Repository>) {
    repo.Some? && !Wanted(p, repo.value, b.spec.schedule)
  }

  /** Write calls a watcher pass makes, from the replies it got. */
  function WritesDue(s: Watch): nat {
    if s.pvc.None? || s.pvc.value.None? || s.found.None? then 0
    else
      var p, f := s.pvc.value.value, s.found.value;
      if p.repository == "" then (if f.Some? && Ours(p, f.value) then 1 else 0)
      else if f.None? then (if s.repo.None? || s.repo.value.None? then 0 else if s.existed then 1 else 2)
      else if !Ours(p, f.value) then 0
      else
        (if f.value.status.autoCreated then 0 else 1)
        + (if s.repo.Some? && Differs(p, f.value, s.repo.value) then 1 else 0)
  }

  /**
   * The backup of an existing object after a successful pass: the flag is on it, and a differing schedule was stored.
   */
  predicate Synced(b: Backup, p: Pvc, repo: Option<Repository>, st: Store) {
    && (st.obj.Some? && st.obj.value.uid == b.uid ==> st.obj.value.status.autoCreated)
    && (Differs(p, b, repo) ==>
          && st.obj.Some? && st.obj.value.uid == b.uid && Wanted(p, repo.value, st.obj.value.spec.schedule)
          && st.obj.value.spec == b.spec.(schedule := st.obj.value.spec.schedule))
  }

  /** A new backup: spec, owner and flag are stored. */
  predicate Created(p: Pvc, r: Repository, st: Store) {
    st.obj.Some? && NewFor(p, r, st.obj.value.spec) && st.obj.value.owner == Some(p.uid)
    && st.obj.value.status.autoCreated
  }

  /** What a watcher pass that got these replies has achieved at its last call. */
  predicate Achieved(s: Watch, st: Store) {
    && !s.failed && s.pvc.Some?
    && (s.pvc.value.Some? ==>
          && s.found.Some?
          && var p, f := s.pvc.value.value, s.found.value;
             if p.repository == "" then f.Some? && Ours(p, f.value) ==> st.obj.None? || st.obj.value.deleting
             else if f.None? then s.repo.Some?
                                  && (s.repo.value.Some? && !s.existed ==> Created(p, s.repo.value.value, st))
             else Ours(p, f.value) ==> s.repo.Some? && Synced(f.value, p, s.repo.value, st))
  }

  /** The pass holds `backup`: the stored copy it works from, with its status as set in memory. */
  predicate Holding(op: BackupOp, backup: Backup) {
    BackupCopy(op).Some? && backup == op.b.(status := if HasMemory(op) then op.st else op.b.status)
  }

  /** The Ready condition a pass ends with when its CronJob call succeeded. */
  function FinalReady(node: string, suspend: bool, g: nat): Condition {
    if node == "" then Condition(false, NoPodFound, g)
    else if suspend then Condition(false, SuspendedByUser, g)
    else Condition(true, Reconciled, g)
  }

  /**
   * The conditions and fields on object `o` (read as `b`) are those of the phase the pass reached, said of what its
   * calls established.
   */
  predicate Reported(w: World, b: Backup, o: Backup) {
    var f := w.facts;
    if !f.pvc then o.status.ready == Some(Condition(false, PVCNotFound, o.generation))
    else if f.repo.None? then o.status.ready == Some(Condition(false, RepositoryNotFound, o.generation))
    else if f.repo.value.serverEnabled && f.ensured.None? then SameStatus(o.status, b.status)
    else
      && (f.configMap <==> !f.repo.value.serverEnabled && f.repo.value.storage.Filesystem?)
      && f.cron == Some(CronJob(o.spec, f.node, f.repo.value)) && w.cron == f.cron
      && o.status.nodeName == f.node && o.status.cronJobName == Naming.CronJobName(o.spec.pvcName)
      && o.status.cronJobCreated == Some(Condition(true, Reconciled, o.generation))
      && o.status.ready == Some(FinalReady(f.node, o.spec.suspend, o.generation))
      && (f.repo.value.serverEnabled ==>
            && o.spec.credentialsSecret == SecretName(w, o) && o.status.connected
            && o.status.username == UserOf(w, o, f.repo.value))
  }

  /** What a successful pass over the object read as `b` leaves behind. */
  predicate Finished(w: World, b: Backup) {
    if b.deleting then w.store.obj.None? && b.uid in w.retired
    else w.store.obj.Some? && w.store.obj.value.uid == b.uid && Reported(w, b, w.store.obj.value)
  }

  /** Both controllers over one key; `replies` gives the world's answer to every step, by its number. */
  class Operator {
    const replies: nat -> Reply
    var w: World
    var steps: nat
    ghost const start: World
    ghost var trace: seq<Event>
    ghost var watch: Watch
    ghost var own: Own

    ghost predicate Valid()
      reads this
    {
      Initial(start) && steps == |trace| && w == Run(start, trace) && watch == WatchOf(start, trace)
      && own == OwnOf(start, trace)
    }

    constructor (namespace: string, pvc: Option<Pvc>, replies: nat -> Reply)
      ensures Valid() && w.watcher.WIdle? && w.reconciler.BIdle? && this.replies == replies
    {
      var w0 := World(namespace, Store(None, 0, 0), pvc, WIdle, BIdle, map[], [], None, NO_FACTS, 0, map[], map[]);
      this.replies := replies;
      w, steps, start, trace, watch, own := w0, 0, w0, [], NO_WATCH, NO_OWN;
    }

    method Do(e: Event)
      requires Valid() && Honest(e, replies(steps))
      modifies this
      ensures Valid() && trace == old(trace) + [e] && w == Step(old(w), e)
      ensures watch == WatchNext(old(watch), old(w), e) && own == OwnNext(old(own), old(w), e)
    {
      Told(start, trace, e);
      watch := WatchNext(watch, w, e);
      own := OwnNext(own, w, e);
      w := Step(w, e);
      trace := trace + [e];
      steps := steps + 1;
    }

    // --- PVC watcher ---

    /** Users and the backup reconciler act any number of times. */
    method OthersActForWatcher()
      requires Valid()
      modifies this
      ensures Valid() && old(trace) <= trace && w.watcher == old(w.watcher) && watch == old(watch)
    {
      var n: int := *;
      var i := 0;
      while i < n
        invariant Valid() && old(trace) <= trace && w.watcher == old(w.watcher) && watch == old(watch)
      {
        var e: Event := *;
        if !OfWatcher(e) && Honest(e, replies(steps)) {
          WatchKept(w, e);
          Do(e);
        }
        i := i + 1;
      }
    }

    /** A client call of the watcher; `was` is the world the call met, from which its reply comes. */
    method WatcherCall(repo: Option<Repository>) returns (out: Outcome, was: World)
      requires Valid()
      modifies this
      ensures Valid() && old(trace) <= trace
      ensures CopyInv(was) && was.watcher == old(w.watcher)
      ensures w == WatcherNext(was, out, repo) && watch == WatchStep(old(watch), was, out, repo)
    {
      OthersActForWatcher();
      was := w;
      CopyRun(start, trace);
      out := replies(steps).out;
      Do(WatcherStep(out, repo));
    }

    /** The write calls hand over the object in memory. */
    method UpdateSchedule(copy: Backup) returns (ok: bool)
      requires Valid() && w.watcher.WSyncUpdate? && copy == WithSchedule(w.watcher.b, w.watcher.schedule)
      requires copy.spec.schedule != w.watcher.b.spec.schedule
      modifies this
      ensures Valid() && old(trace) <= trace && w.watcher.WIdle? && watch == Wrote(old(watch), ok)
      ensures ok ==> w.store.obj.Some? && w.store.obj.value.uid == copy.uid && w.store.obj.value.spec == copy.spec
                     && w.store.obj.value.status == copy.status
    {
      var out, was := WatcherCall(None);
      ok := out.Done? && Current(was.store, copy);
    }

    method SetFlag(copy: Backup) returns (ok: bool, backup: Backup)
      requires Valid() && w.watcher.WMarkStatus? && copy == Marked(w.watcher.b)
      modifies this
      ensures Valid() && old(trace) <= trace && watch == Wrote(old(watch), ok)
      ensures !ok ==> w.watcher.WIdle?
      ensures ok ==> w.watcher == WSyncLookup(old(w.watcher.pvc), backup)
      ensures ok ==> backup.uid == copy.uid && backup.spec == copy.spec && backup.status.autoCreated
    {
      var out, was := WatcherCall(None);
      ok := out.Done? && Current(was.store, copy);
      backup := if Current(was.store, copy) then UpdateStatus(was.store, copy).obj.value else copy;
    }

    method SetFirstFlag(copy: Backup) returns (ok: bool)
      requires Valid() && w.watcher.WCreatedStatus? && copy == Marked(w.watcher.b)
      modifies this
      ensures Valid() && old(trace) <= trace && w.watcher.WIdle? && watch == Wrote(old(watch), ok)
      ensures ok ==> w.store.obj.Some? && w.store.obj.value.spec == copy.spec && w.store.obj.value.owner == copy.owner
                     && w.store.obj.value.status.autoCreated
    {
      var out, was := WatcherCall(None);
      ok := out.Done? && Current(was.store, copy);
    }

    method CreateBackup(spec: Spec, owner: Option<nat>) returns (ok: bool, existed: bool, backup: Backup)
      requires Valid() && w.watcher.WCreate? && spec == w.watcher.spec && owner == Some(w.watcher.pvc.uid)
      modifies this
      ensures Valid() && old(trace) <= trace && watch == Wrote(old(watch), ok).(existed := existed)
      ensures !ok || existed ==> w.watcher.WIdle?
      ensures ok && !existed ==> w.watcher == WCreatedStatus(old(w.watcher.pvc), backup) && backup.spec == spec
                                 && backup.owner == owner
    {
      var out, was := WatcherCall(None);
      ok, existed := out.Done?, was.store.obj.Some?;
      backup := if existed then was.store.obj.value else Create(was.store, spec, owner).obj.value;
    }

    /** The schedule of the PVC into the backup: stored when it differs, otherwise no write. */
    method SyncSchedule(pvc: Pvc, b: Backup, repo: Option<Repository>) returns (ok: bool)
      requires Valid() && w.watcher == WSyncLookup(pvc, b) && b.status.autoCreated && !watch.failed
      modifies this
      ensures Valid() && old(trace) <= trace && w.watcher.WIdle?
      ensures ok ==> Synced(b, pvc, repo, w.store)
      ensures watch == old(watch).(repo := Some(repo), failed := !ok,
                writes := old(watch.writes) + if Differs(pvc, b, repo) then 1 else 0)
    {
      var _, was := WatcherCall(repo);
      if repo.None? { return true; }
      var newSchedule := ScheduleFor(pvc, repo.value);
      if newSchedule != b.spec.schedule {
        var backup := b.(spec := b.spec.(schedule := newSchedule));
        ok := UpdateSchedule(backup);
        return;
      }
      return true;
    }

    /**
     * An existing backup: restore a lost flag, then sync the schedule; a backup not the watcher's own is left alone.
     */
    method AdoptAndSync(pvc: Pvc, b: Backup, repo: Option<Repository>) returns (ok: bool)
      requires Valid() && pvc.repository != "" && w.watcher == WatcherChoice(pvc, Some(b))
      requires !watch.failed && watch.writes == 0 && watch.pvc == Some(Some(pvc)) && watch.found == Some(Some(b))
      requires watch.repo.None?
      modifies this
      ensures Valid() && old(trace) <= trace && w.watcher.WIdle?
      ensures !Ours(pvc, b) ==> w == old(w)
      ensures ok <==> !watch.failed
      ensures watch.crashed == old(watch.crashed) && watch.pvc == old(watch.pvc) && watch.found == old(watch.found)
      ensures watch.repo.Some? ==> watch.repo == Some(repo)
      ensures ok && Ours(pvc, b) ==> watch.repo == Some(repo) && Synced(b, pvc, repo, w.store)
      ensures ok ==> watch.writes == WritesDue(watch)
    {
      var backup := b;
      var isAutoCreated := backup.status.autoCreated || backup.owner == Some(pvc.uid);
      if isAutoCreated && !backup.status.autoCreated {
        backup := backup.(status := backup.status.(autoCreated := true));
        ok, backup := SetFlag(backup);
        if !ok { return; }
      }
      if isAutoCreated {
        ok := SyncSchedule(pvc, backup, repo);
        return;
      }
      return true;
    }

    /** A new backup with its flag; one that appeared meanwhile is not an error. */
    method CreateBackupForPVC(pvc: Pvc, repo: Option<Repository>) returns (ok: bool)
      requires Valid() && w.watcher == WCreateLookup(pvc) && !watch.failed && watch.writes == 0
      modifies this
      ensures Valid() && old(trace) <= trace && w.watcher.WIdle? && (ok <==> !watch.failed)
      ensures watch.crashed == old(watch.crashed) && watch.pvc == old(watch.pvc) && watch.found == old(watch.found)
      ensures watch.repo == Some(repo)
      ensures ok && repo.Some? && !watch.existed ==> Created(pvc, repo.value, w.store)
      ensures ok ==> watch.writes == if repo.None? then 0 else if watch.existed then 1 else 2
    {
      var _, was := WatcherCall(repo);
      if repo.None? { return true; }
      var spec := Spec(pvc.name, ScheduleFor(pvc, repo.value), pvc.repository, false, "");
      var existed, backup;
      ok, existed, backup := CreateBackup(spec, Some(pvc.uid));
      if !ok || existed { return; }
      backup := backup.(status := backup.status.(autoCreated := true));
      ok := SetFirstFlag(backup);
    }

    /** Once the PVC is read: delete, sync or create. */
    method HandlePvc(pvc: Pvc, repo: Option<Repository>) returns (ok: bool)
      requires Valid() && w.watcher == WGetBackup(pvc) && watch == NO_WATCH.(pvc := Some(Some(pvc)))
      modifies this
      ensures Valid() && old(trace) <= trace && w.watcher.WIdle? && !watch.crashed && (ok <==> !watch.failed)
      ensures ok ==> Achieved(watch, w.store) && watch.writes == WritesDue(watch)
      ensures ok ==> watch.pvc == Some(Some(pvc)) && (watch.repo.Some? ==> watch.repo == Some(repo))
    {
      var out, was := WatcherCall(None);
      if !out.Done? { return false; }
      var found := was.store.obj;
      assert w.watcher == WatcherChoice(pvc, found);
      if pvc.repository == "" {
        if found.Some? && (found.value.status.autoCreated || found.value.owner == Some(pvc.uid)) {
          ok := DeleteBackup();
          return;
        }
        return true;
      }
      if found.Some? {
        ok := AdoptAndSync(pvc, found.value, repo);
        return;
      }
      ok := CreateBackupForPVC(pvc, repo);
    }

    method DeleteBackup() returns (ok: bool)
      requires Valid() && w.watcher.WDelete?
      modifies this
      ensures Valid() && old(trace) <= trace && w.watcher.WIdle? && watch == Wrote(old(watch), ok)
      ensures ok ==> w.store.obj.None? || w.store.obj.value.deleting
    {
      var out, _ := WatcherCall(None);
      ok := out.Done?;
    }

    /**
     * Reconcile of the PVC watcher; `repo` is the reply of its repository lookup. The pass runs to its
     * end, fails exactly when a call failed, and otherwise has achieved what its replies ask for, with
     * exactly the write calls they ask for.
     */
    method ReconcilePvc(repo: Option<Repository>) returns (ok: bool)
      requires Valid() && w.watcher.WIdle?
      modifies this
      ensures Valid() && old(trace) <= trace && w.watcher.WIdle? && !watch.crashed && (ok <==> !watch.failed)
      ensures ok ==> Achieved(watch, w.store) && watch.writes == WritesDue(watch)
      ensures ok && watch.repo.Some? ==> watch.repo == Some(repo)
    {
      Do(WatcherBegins);
      var out, was := WatcherCall(None);
      if !out.Done? { return false; }
      if was.pvc.None? { return true; }
      ok := HandlePvc(was.pvc.value, repo);
    }

    // --- Backup reconciler ---

    /** What nobody but the reconciler's own pass changes. */
    twostate predicate PassSame()
      reads this
    {
      && w.reconciler == old(w.reconciler) && w.facts == old(w.facts) && w.namespace == old(w.namespace)
      && w.pass == old(w.pass)
      && w.cron == old(w.cron) && w.retired == old(w.retired) && w.commands == old(w.commands) && own == old(own)
    }

    /** Users and the watcher act any number of times. */
    method OthersAct()
      requires Valid()
      modifies this
      ensures Valid() && old(trace) <= trace && PassSame()
    {
      var n: int := *;
      var i := 0;
      while i < n
        invariant Valid() && old(trace) <= trace && PassSame()
      {
        var e: Event := *;
        if !OfBackup(e) && Honest(e, replies(steps)) {
          PassKept(w, e);
          Do(e);
        }
        i := i + 1;
      }
    }

    /** A client call of the reconciler; `was` is the world the call met, from which its reply comes. */
    method Call(repo: Option<Repository>) returns (r: Reply, was: World)
      requires Valid()
      modifies this
      ensures Valid() && old(trace) <= trace
      ensures CopyInv(was) && was.reconciler == old(w.reconciler) && was.facts == old(w.facts)
      ensures was.namespace == old(w.namespace)
      ensures was.pass == old(w.pass) && was.cron == old(w.cron) && was.retired == old(w.retired)
      ensures was.commands == old(w.commands)
      ensures w == Step(was, BackupStep(r.out, repo, r.node, r.ran, r.left)) && own == OwnStep(old(own), was, r.out)
      ensures steps > 0 && r == replies(steps - 1)
    {
      OthersAct();
      was := w;
      CopyRun(start, trace);
      r := replies(steps);
      Do(BackupStep(r.out, repo, r.node, r.ran, r.left));
    }

    method AddFinalizer(copy: Backup) returns (ok: bool, backup: Backup)
      requires Valid() && w.reconciler.BAddFinalizer? && copy == w.reconciler.b.(finalizer := true)
      requires !w.reconciler.b.deleting
      modifies this
      ensures Valid() && old(trace) <= trace && w.facts == old(w.facts)
      ensures own == old(own).(failed := old(own.failed) || !ok)
      ensures !ok ==> w.reconciler.BIdle?
      ensures ok ==> w.reconciler == BPvc(backup) && backup == copy.(version := backup.version)
    {
      var a, was := Call(None);
      ok := a.out.Done? && Current(was.store, copy);
      backup := if ok then Update(was.store, copy).obj.value else copy;
    }

    method RemoveFinalizer(copy: Backup) returns (ok: bool)
      requires Valid() && w.reconciler.BRemoveFinalizer? && copy == w.reconciler.b.(finalizer := false)
      requires w.reconciler.b.deleting && w.reconciler.b.finalizer
      modifies this
      ensures Valid() && old(trace) <= trace && w.reconciler.BIdle?
      ensures own == old(own).(failed := old(own.failed) || !ok)
      ensures ok ==> w.store.obj.None? && copy.uid in w.retired
    {
      var a, was := Call(None);
      ok := a.out.Done? && Current(was.store, copy);
    }

    method RecordSecret(copy: Backup, r: Repository) returns (ok: bool, backup: Backup)
      requires Valid() && w.reconciler.BRecord? && w.reconciler.repo == r && !w.reconciler.b.deleting
      requires copy == WithSecret(w, w.reconciler.b)
      modifies this
      ensures Valid() && old(trace) <= trace && w.facts == old(w.facts) && w.namespace == old(w.namespace)
      ensures own == old(own).(failed := old(own.failed) || !ok)
      ensures !ok ==> w.reconciler == BStatus(old(w.reconciler.b), old(w.reconciler.b.status))
      ensures ok ==> w.reconciler == BPods(backup, ConnectedStatus(w, backup, r), r)
      ensures ok ==> backup.uid == copy.uid && backup.spec == copy.spec && backup.status == copy.status
    {
      var a, was := Call(None);
      ok := a.out.Done? && Current(was.store, copy);
      if ok { SecretStored(was.store, was.reconciler.b, copy); }
      RecordStep(was, BackupStep(a.out, None, a.node, a.ran, a.left), copy);
      backup := if ok then Update(was.store, copy).obj.value else copy;
    }

    /**
     * The deferred status write: on success exactly the status held in memory is stored, on the object it was read
     * from.
     */
    method WriteStatus(backup: Backup) returns (ok: bool)
      requires Valid() && w.reconciler.BStatus? && Holding(w.reconciler, backup)
      modifies this
      ensures Valid() && old(trace) <= trace && w.reconciler.BIdle?
      ensures own == old(own).(failed := old(own.failed) || !ok)
      ensures w.facts == old(w.facts) && w.namespace == old(w.namespace) && w.cron == old(w.cron)
      ensures ok ==> w.store.obj.Some? && SameStatus(w.store.obj.value.status, backup.status)
      ensures ok ==>
          w.store.obj.value == backup.(status := w.store.obj.value.status, version := w.store.obj.value.version)
    {
      var a, was := Call(None);
      ok := a.out.Done? && Current(was.store, backup);
      StatusStep(was, BackupStep(a.out, None, a.node, a.ran, a.left));
      if ok { StatusStored(was.store, was.reconciler.b, was.reconciler.st); }
    }

    /** DeleteUser: the command for the computed name, then the secret. */
    method DeleteUser(b: Backup, repo: Repository) returns (ok: bool)
      requires Valid() && w.reconciler == BDeleteExec(b, AccountOf(w, b, repo)) && !own.failed
      modifies this
      ensures Valid() && old(trace) <= trace && own == old(own).(failed := !ok) && w.namespace == old(w.namespace)
      ensures ok ==> w.reconciler == BRemoveFinalizer(b, Some(AccountOf(w, b, repo)))
      ensures ok ==>
                && Controllers.DeleteUser(b.uid, AccountOf(w, b, repo)) in w.commands
                && SecretName(w, b) !in w.secrets
      ensures !ok ==> w.reconciler.BIdle?
    {
      var username := Naming.Username(w.namespace, b.spec.pvcName, repo.hostname);
      var user := AccountOn(repo, username);
      ok := RunDelete(b, user);
      if !ok { return; }
      ok := DropSecret(b, user);
    }

    method RunDelete(b: Backup, user: Account) returns (ok: bool)
      requires Valid() && w.reconciler == BDeleteExec(b, user)
      modifies this
      ensures Valid() && old(trace) <= trace && own == old(own).(failed := old(own.failed) || !ok)
      ensures w.namespace == old(w.namespace)
      ensures if ok then w.reconciler == BSecretGet(b, user) else w.reconciler.BIdle?
      ensures ok ==> Controllers.DeleteUser(b.uid, user) in w.commands
    {
      var a, was := Call(None);
      ok := a.out.Done?;
      assert ok ==> w.commands[|was.commands|] == Controllers.DeleteUser(b.uid, user);
    }

    method DropSecret(b: Backup, user: Account) returns (ok: bool)
      requires Valid() && w.reconciler == BSecretGet(b, user)
      modifies this
      ensures Valid() && old(trace) <= trace && own == old(own).(failed := old(own.failed) || !ok)
      ensures w.namespace == old(w.namespace) && w.commands == old(w.commands)
      ensures (ok ==> SecretName(w, b) !in w.secrets)
      ensures if ok then w.reconciler == BRemoveFinalizer(b, Some(user)) else w.reconciler.BIdle?
    {
      var found;
      ok, found := FindSecret(b, user);
      if ok && found { ok := DeleteSecret(b, user); }
    }

    method FindSecret(b: Backup, user: Account) returns (ok: bool, found: bool)
      requires Valid() && w.reconciler == BSecretGet(b, user)
      modifies this
      ensures Valid() && old(trace) <= trace && own == old(own).(failed := old(own.failed) || !ok)
      ensures w.namespace == old(w.namespace) && w.commands == old(w.commands)
      ensures (ok && !found ==> SecretName(w, b) !in w.secrets)
      ensures !ok ==> w.reconciler.BIdle?
      ensures ok ==> w.reconciler == if found then BSecretDelete(b, user) else BRemoveFinalizer(b, Some(user))
    {
      var a, was := Call(None);
      ok, found := a.out.Done?, SecretName(was, b) in was.secrets;
    }

    method DeleteSecret(b: Backup, user: Account) returns (ok: bool)
      requires Valid() && w.reconciler == BSecretDelete(b, user)
      modifies this
      ensures Valid() && old(trace) <= trace && own == old(own).(failed := old(own.failed) || !ok)
      ensures w.namespace == old(w.namespace) && w.commands == old(w.commands)
      ensures (ok ==> SecretName(w, b) !in w.secrets)
      ensures if ok then w.reconciler == BRemoveFinalizer(b, Some(user)) else w.reconciler.BIdle?
    {
      var a, was := Call(None);
      ok := a.out.Done? && SecretName(was, b) in was.secrets;
    }

    /**
     * The server user, its secret and then the finalizer go. Success means the object is gone; and in
     * every run that gives the cleanup what it needs, that the user is cleaned up for good.
     */
    method Cleanup(b: Backup, lookup: Option<Repository>) returns (ok: bool)
      requires Valid() && b.deleting && b.finalizer && w.reconciler == AfterGet(b) && !own.failed
      modifies this
      ensures Valid() && old(trace) <= trace && w.reconciler.BIdle? && own == old(own).(failed := !ok)
      ensures ok ==> w.store.obj.None? && b.uid in w.retired
      ensures ok ==> forall pvcName: Bytes, home: Repository :: Governed(start, trace, b.uid, pvcName, home) ==>
                       CleanedUp(w.commands, b.uid, HomeAccount(start.namespace, pvcName, home))
    {
      ok := CleanServer(b, lookup);
      if !ok { return; }
      ok := RemoveFinalizer(b.(finalizer := false));
      if ok {
        forall pvcName: Bytes, home: Repository | Governed(start, trace, b.uid, pvcName, home)
          ensures CleanedUp(w.commands, b.uid, HomeAccount(start.namespace, pvcName, home))
        {
          RetiredCleanedUp(start, trace, b.uid, pvcName, home);
        }
      }
    }

    method CleanServer(b: Backup, lookup: Option<Repository>) returns (ok: bool)
      requires Valid() && b.deleting && b.finalizer && w.reconciler == AfterGet(b) && !own.failed
      modifies this
      ensures Valid() && old(trace) <= trace && own == old(own).(failed := !ok)
      ensures if ok then w.reconciler.BRemoveFinalizer? && w.reconciler.b == b else w.reconciler.BIdle?
    {
      ok := true;
      if b.spec.credentialsSecret != "" {
        var _, was := Call(lookup);
        if lookup.Some? && lookup.value.serverEnabled {
          ok := DeleteUser(b, lookup.value);
        }
      }
    }

    /** Cleanup or the finalizer; unless done, the pass goes on with the object as stored. */
    method HandleFinalizer(b: Backup, lookup: Option<Repository>) returns (done: bool, ok: bool, backup: Backup)
      requires Valid() && w.reconciler == AfterGet(b) && !own.failed
      modifies this
      ensures Valid() && old(trace) <= trace && own == old(own).(failed := !ok)
      ensures done ==> w.reconciler.BIdle?
      ensures done && ok ==> b.deleting && (b.finalizer ==> w.store.obj.None? && b.uid in w.retired)
      ensures b.deleting && !b.finalizer ==> done && ok && w == old(w)
      ensures !done ==> ok && w.reconciler == BPvc(backup) && w.facts == old(w.facts) && !b.deleting
      ensures !done ==> backup == b.(finalizer := true, version := backup.version)
    {
      backup := b;
      if backup.deleting {
        ok := true;
        if backup.finalizer { ok := Cleanup(backup, lookup); }
        return true, ok, backup;
      }
      if !backup.finalizer {
        backup := backup.(finalizer := true);
        ok, backup := AddFinalizer(backup);
        return !ok, ok, backup;
      }
      return false, true, backup;
    }

    /** Without PVC or repository only the status is left to write: Ready is false with the reason. */
    method ValidateDependencies(b: Backup, lookup: Option<Repository>)
      returns (repo: Option<Repository>, backup: Backup)
      requires Valid() && w.reconciler == BPvc(b) && !w.facts.pvc && w.facts.repo.None?
      modifies this
      ensures Valid() && old(trace) <= trace && own == old(own)
      ensures w.facts == old(w.facts).(pvc := w.facts.pvc, repo := repo)
      ensures repo.None? ==> w.reconciler.BStatus? && w.reconciler.b == b && Holding(w.reconciler, backup)
      ensures repo.None? ==>
        backup.status == b.status.(readyBy := w.pass,
          ready := Some(Condition(false, if w.facts.pvc then RepositoryNotFound else PVCNotFound, b.generation)))
      ensures w.facts.pvc ==> repo == lookup
      ensures repo.Some? ==> w.facts.pvc && backup == b && w.reconciler == AfterRepo(b, repo.value)
    {
      backup := b;
      repo := None;
      var ok := GetPvc(b);
      if !ok {
        backup := backup.(status := SetReady(w.pass, backup, backup.status, false, PVCNotFound));
        return;
      }
      GetKopiaRepository(b, lookup);
      repo := lookup;
      if repo.None? {
        backup := backup.(status := SetReady(w.pass, backup, backup.status, false, RepositoryNotFound));
      }
    }

    method GetKopiaRepository(b: Backup, lookup: Option<Repository>)
      requires Valid() && w.reconciler == BRepo(b) && w.facts.repo.None?
      modifies this
      ensures Valid() && old(trace) <= trace && own == old(own) && w.pass == old(w.pass)
      ensures w.facts == old(w.facts).(repo := lookup)
      ensures w.reconciler == if lookup.Some? then AfterRepo(b, lookup.value)
                              else BStatus(b, SetReady(w.pass, b, b.status, false, RepositoryNotFound))
    {
      var _, was := Call(lookup);
    }

    /** An empty name counts as not found. */
    method GetPvc(b: Backup) returns (ok: bool)
      requires Valid() && w.reconciler == BPvc(b)
      modifies this
      ensures Valid() && old(trace) <= trace && own == old(own) && w.pass == old(w.pass)
      ensures ok ==> w.reconciler == BRepo(b) && w.facts == old(w.facts).(pvc := true)
      ensures !ok ==> w.reconciler == BStatus(b, SetReady(w.pass, b, b.status, false, PVCNotFound))
                      && w.facts == old(w.facts)
    {
      var a, _ := Call(None);
      ok := a.out.Done? && b.spec.pvcName != "";
    }

    /** EnsureUser, then the name of the secret into the spec, then the status fields. */
    method ReconcileServerCredentials(b: Backup, r: Repository) returns (done: bool, ok: bool, backup: Backup)
      requires Valid() && w.reconciler == BEnsure(b, r) && !b.deleting && !own.failed && w.facts.ensured.None?
      modifies this
      ensures Valid() && old(trace) <= trace && own == old(own).(failed := own.failed, unsure := own.unsure)
      ensures Holding(w.reconciler, backup)
      ensures w.facts == old(w.facts).(ensured := w.facts.ensured) && backup.uid == b.uid
      ensures done ==> w.reconciler.BStatus?
      ensures done && ok ==> own.unsure && !own.failed && w.facts.ensured.None? && backup == b
      ensures done && !ok ==> own.failed || own.unsure
      ensures done && own.unsure ==> (ok <==> replies(steps - 1).notReady)
      ensures !done ==> w.reconciler.BPods? && w.reconciler.repo == r && w.facts.ensured.Some? && !own.failed
      ensures !done ==> backup.spec == b.spec.(credentialsSecret := SecretName(w, b))
      ensures !done ==> backup.status == b.status.(username := UserOf(w, b, r), connected := true)
    {
      backup := b;
      var notReady;
      ok, notReady := EnsureUser(b, r);
      if !ok { return true, notReady, backup; }
      var secret := SecretName(w, backup);
      if backup.spec.credentialsSecret != secret {
        backup := backup.(spec := backup.spec.(credentialsSecret := secret));
        ok, backup := RecordSecret(backup, r);
        if !ok { return true, false, b; }
      }
      backup := backup.(status := backup.status.(username := UserOf(w, backup, r), connected := true));
      return false, true, backup;
    }

    method EnsureUser(b: Backup, r: Repository) returns (ok: bool, notReady: bool)
      requires Valid() && w.reconciler == BEnsure(b, r) && w.facts.ensured.None?
      modifies this
      ensures Valid() && old(trace) <= trace && own == old(own).(unsure := !ok) && w.namespace == old(w.namespace)
      ensures steps > 0 && (notReady <==> replies(steps - 1).notReady)
      ensures w.facts == old(w.facts).(ensured := w.facts.ensured) && (w.facts.ensured.Some? <==> ok)
      ensures ok ==> SecretName(w, b) in w.secrets && w.facts.ensured == Some(w.secrets[SecretName(w, b)])
      ensures !ok ==> w.reconciler == BStatus(b, b.status)
      ensures ok ==>
          w.reconciler == if b.spec.credentialsSecret != SecretName(w, b) then BRecord(b, r)
                          else BPods(b, ConnectedStatus(w, b, r), r)
    {
      var a, _ := Call(None);
      ok, notReady := a.out.Done?, a.notReady;
    }

    method ReconcileConfigMap(b: Backup, r: Repository) returns (ok: bool)
      requires Valid() && w.reconciler == BConfigMap(b, r)
      modifies this
      ensures Valid() && old(trace) <= trace && w.facts == old(w.facts).(configMap := ok)
      ensures own == old(own).(failed := old(own.failed) || !ok)
      ensures w.reconciler == if ok then BPods(b, b.status, r) else BStatus(b, b.status)
    {
      var a, _ := Call(None);
      ok := a.out.Done?;
    }

    /** Placement, CronJob, conditions: what the pass will write is what its calls established. */
    method ReconcileBackupResources(b: Backup, r: Repository) returns (ok: bool, backup: Backup)
      requires Valid() && w.reconciler.BPods? && Holding(w.reconciler, b) && w.reconciler.repo == r && !own.failed
      modifies this
      ensures Valid() && old(trace) <= trace && w.reconciler.BStatus? && Holding(w.reconciler, backup)
      ensures own == old(own).(failed := !ok) && w.namespace == old(w.namespace)
      ensures backup == b.(status := backup.status)
      ensures w.facts == old(w.facts).(node := w.facts.node,
                                       cron := if ok then Some(CronJob(b.spec, w.facts.node, r)) else None)
      ensures ok ==> w.cron == w.facts.cron
      ensures !ok ==>
        backup.status == b.status.(
          nodeName := w.facts.node, cronJobName := Naming.CronJobName(b.spec.pvcName), cronBy := w.pass,
          cronJobCreated := Some(Condition(false, CronJobFailed, b.generation)))
      ensures ok ==>
        backup.status == b.status.(
          nodeName := w.facts.node, cronJobName := Naming.CronJobName(b.spec.pvcName),
          readyBy := w.pass, cronBy := w.pass,
          cronJobCreated := Some(Condition(true, Reconciled, b.generation)),
          ready := Some(FinalReady(w.facts.node, b.spec.suspend, b.generation)))
    {
      backup := b;
      var node := FindPodUsingPVC();
      backup := backup.(status := backup.status.(nodeName := node));
      backup := backup.(status := backup.status.(cronJobName := Naming.CronJobName(backup.spec.pvcName)));
      ok, backup := CronJobAndConditions(backup, node, r);
    }

    method CronJobAndConditions(b: Backup, node: string, r: Repository) returns (ok: bool, backup: Backup)
      requires Valid() && w.reconciler.BCron? && Holding(w.reconciler, b) && w.reconciler.node == node
      requires w.reconciler.repo == r && !own.failed
      modifies this
      ensures Valid() && old(trace) <= trace && w.reconciler.BStatus? && Holding(w.reconciler, backup)
      ensures own == old(own).(failed := !ok) && w.namespace == old(w.namespace)
      ensures backup == b.(status := backup.status)
      ensures w.facts == old(w.facts).(cron := if ok then Some(CronJob(b.spec, node, r)) else None)
      ensures ok ==> w.cron == w.facts.cron
      ensures !ok ==>
        backup.status == b.status.(
          cronBy := w.pass, cronJobCreated := Some(Condition(false, CronJobFailed, b.generation)))
      ensures ok ==>
        backup.status == b.status.(
          readyBy := w.pass, cronBy := w.pass, cronJobCreated := Some(Condition(true, Reconciled, b.generation)),
          ready := Some(FinalReady(node, b.spec.suspend, b.generation)))
    {
      backup := b;
      ok := ReconcileCronJob(backup.spec, node, r);
      if !ok {
        backup := backup.(status := SetCron(w.pass, backup, backup.status, false));
        return;
      }
      backup := SetConditions(w.pass, backup, node);
    }

    /** The conditions of a pass whose CronJob call succeeded. */
    method SetConditions(n: nat, b: Backup, node: string) returns (backup: Backup)
      ensures backup == b.(status := FinalStatus(n, b, b.status, node))
      ensures backup.status == b.status.(
                readyBy := n, cronBy := n, cronJobCreated := Some(Condition(true, Reconciled, b.generation)),
                ready := Some(FinalReady(node, b.spec.suspend, b.generation)))
    {
      backup := b.(status := SetCron(n, b, b.status, true));
      if node == "" {
        backup := backup.(status := SetReady(n, backup, backup.status, false, NoPodFound));
        return;
      }
      if backup.spec.suspend {
        backup := backup.(status := SetReady(n, backup, backup.status, false, SuspendedByUser));
      } else {
        backup := backup.(status := SetReady(n, backup, backup.status, true, Reconciled));
      }
    }

    method FindPodUsingPVC() returns (node: string)
      requires Valid() && w.reconciler.BPods?
      modifies this
      ensures Valid() && old(trace) <= trace && own == old(own) && w.namespace == old(w.namespace)
      ensures w.facts == old(w.facts).(node := node)
      ensures var op := old(w.reconciler);
              var st := op.st.(nodeName := node, cronJobName := Naming.CronJobName(op.b.spec.pvcName));
              w.reconciler == BCron(op.b, st, op.repo, node)
    {
      var a, _ := Call(None);
      node := if a.out.Done? then a.node else "";
    }

    /** The CronJob is built from exactly this spec, node and repository. */
    method ReconcileCronJob(spec: Spec, node: string, r: Repository) returns (ok: bool)
      requires Valid() && w.reconciler.BCron? && w.reconciler.b.spec == spec && w.reconciler.node == node
      requires w.reconciler.repo == r
      modifies this
      ensures Valid() && old(trace) <= trace && own == old(own).(failed := old(own.failed) || !ok)
      ensures w.namespace == old(w.namespace)
      ensures w.facts == old(w.facts).(cron := if ok then Some(CronJob(spec, node, r)) else None)
      ensures ok ==> w.cron == w.facts.cron
      ensures var op := old(w.reconciler);
              w.reconciler == BStatus(op.b, if ok then FinalStatus(w.pass, op.b, op.st, op.node)
                                            else SetCron(w.pass, op.b, op.st, false))
    {
      var a, _ := Call(None);
      ok := a.out.Done?;
    }

    /** The phases after finalizer handling leave the pass with only its status to write. */
    method Phases(b: Backup, lookup: Option<Repository>) returns (ok: bool, backup: Backup)
      requires Valid() && w.reconciler == BPvc(b) && !b.deleting && !own.failed
      requires !w.facts.pvc && w.facts.repo.None? && NeitherMode(w.facts)
      modifies this
      ensures Valid() && old(trace) <= trace && w.reconciler.BStatus? && Holding(w.reconciler, backup)
      ensures own == old(own).(failed := own.failed, unsure := own.unsure) && backup.uid == b.uid
      ensures ok ==> !own.failed && Reported(w, b, backup) && (w.facts.pvc ==> w.facts.repo == lookup)
      ensures !ok ==> own.failed || own.unsure
    {
      var repo;
      repo, backup := ValidateDependencies(b, lookup);
      if repo.None? { return true, backup; }
      ok, backup := ModePhases(backup, repo.value);
    }

    /**
     * Server mode goes through the credentials, direct mode on a filesystem through the ConfigMap; then the resources.
     */
    method ModePhases(b: Backup, r: Repository) returns (ok: bool, backup: Backup)
      requires Valid() && w.reconciler == AfterRepo(b, r) && !b.deleting && !own.failed
      requires Found(w, r)
      modifies this
      ensures Valid() && old(trace) <= trace && w.reconciler.BStatus? && Holding(w.reconciler, backup)
      ensures own == old(own).(failed := own.failed, unsure := own.unsure) && backup.uid == b.uid
      ensures w.facts.pvc && w.facts.repo == Some(r)
      ensures ok ==> !own.failed && Reported(w, b, backup)
      ensures !ok ==> own.failed || own.unsure
    {
      backup := b;
      if r.serverEnabled {
        var done;
        done, ok, backup := ReconcileServerCredentials(backup, r);
        if done { return; }
      }
      if !r.serverEnabled && r.storage.Filesystem? {
        ok := ReconcileConfigMap(backup, r);
        if !ok { return; }
      }
      ok, backup := ReconcileBackupResources(backup, r);
    }

    /** The pass begins and reads its object. */
    method ReadBackup() returns (ok: bool, found: Option<Backup>)
      requires Valid() && w.reconciler.BIdle?
      modifies this
      ensures Valid() && old(trace) <= trace && own == NO_OWN.(read := if ok then Some(found) else None, failed := !ok)
      ensures !ok || found.None? ==> w.reconciler.BIdle?
      ensures ok && found.Some? ==>
        && w.reconciler == AfterGet(found.value) && (found.value.deleting ==> found.value.finalizer)
        && !w.facts.pvc && w.facts.repo.None? && NeitherMode(w.facts)
    {
      Do(BackupBegins);
      var a, was := Call(None);
      ok, found := a.out.Done?, was.store.obj;
    }

    method Pass(lookup: Option<Repository>) returns (ok: bool)
      requires Valid() && w.reconciler.BIdle?
      modifies this
      ensures Valid() && old(trace) <= trace && w.reconciler.BIdle? && !own.crashed
      ensures ok ==> !own.failed && own.read.Some? && (own.read.value.Some? ==> Finished(w, own.read.value.value))
      ensures ok && own.read.value.Some? && !own.read.value.value.deleting && w.facts.pvc ==> w.facts.repo == lookup
      ensures !ok ==> own.failed || own.unsure
    {
      var found;
      ok, found := ReadBackup();
      if !ok || found.None? { return; }
      var b := found.value;
      var done, backup;
      done, ok, backup := HandleFinalizer(b, lookup);
      if done { return; }
      ok, backup := Phases(backup, lookup);
      var written := WriteStatus(backup);
      ok := ok && written;
    }

    /**
     * `reconcile` of the backup controller; `lookup` is the reply of its repository lookups. The pass
     * runs to its end and fails only if a call failed. Success over an object being deleted means it is
     * gone; over any other, that the stored status is that of the phase reached. A Ready=True it leaves
     * stored was set by a complete pass.
     */
    method ReconcileBackup(lookup: Option<Repository>) returns (ok: bool)
      requires Valid() && w.reconciler.BIdle?
      modifies this
      ensures Valid() && old(trace) <= trace && w.reconciler.BIdle? && !own.crashed
      ensures ok ==> !own.failed && own.read.Some? && (own.read.value.Some? ==> Finished(w, own.read.value.value))
      ensures ok && own.read.value.Some? && !own.read.value.value.deleting && w.facts.pvc ==> w.facts.repo == lookup
      ensures !ok ==> own.failed || own.unsure
      ensures w.store.obj.Some? && ReadyTrue(w.store.obj.value.status) ==>
        w.store.obj.value.status.readyBy in w.passes && Complete(w.passes[w.store.obj.value.status.readyBy])
    {
      ok := Pass(lookup);
      if w.store.obj.Some? && ReadyTrue(w.store.obj.value.status) {
        ReadyMeans(start, trace, w.store.obj.value);
      }
    }
  }
}
