/**
 * The PVC watcher (internal/controller/pvcwatcher/reconciler.go) and the backup reconciler
 * (internal/controller/kopiabackup/reconciler.go) at work on one KopiaBackup key. Every client call
 * is one atomic step whose outcome is part of the event; users act and controllers crash between any
 * two steps. Each controller handles the key one pass at a time.
 */
module Controllers {
  import opened Options
  import opened Resources
  import opened ApiServer
  import opened Text
  import Naming

  /** A PVC with its repository label and schedule annotation, empty when absent. */
  datatype Pvc = Pvc(uid: nat, name: Bytes, repository: string, schedule: string)

  /** The watcher's pass; `b` is always the object as the server last returned it. */
  datatype WatcherOp =
    | WIdle
    | WGetPvc
    | WGetBackup(pvc: Pvc)
    | WDelete(pvc: Pvc, b: Backup)
    | WMarkStatus(pvc: Pvc, b: Backup)
    | WSyncLookup(pvc: Pvc, b: Backup)
    | WSyncUpdate(pvc: Pvc, b: Backup, schedule: string)
    | WCreateLookup(pvc: Pvc)
    | WCreate(pvc: Pvc, spec: Spec)
    | WCreatedStatus(pvc: Pvc, b: Backup)

  /** A user on the server of a repository. */
  datatype Account = Account(namespace: string, repository: string, user: string)

  /** The reconciler's pass; `st` is the status held in memory once the pass has begun to set it. */
  datatype BackupOp =
    | BIdle
    | BGet
    | BDeleteLookup(b: Backup)
    | BDeleteExec(b: Backup, user: Account)
    | BSecretGet(b: Backup, user: Account)
    | BSecretDelete(b: Backup, user: Account)
    | BRemoveFinalizer(b: Backup, cleaned: Option<Account>)
    | BAddFinalizer(b: Backup)
    | BPvc(b: Backup)
    | BRepo(b: Backup)
    | BEnsure(b: Backup, repo: Repository)
    | BRecord(b: Backup, repo: Repository)
    | BConfigMap(b: Backup, repo: Repository)
    | BPods(b: Backup, st: Status, repo: Repository)
    | BCron(b: Backup, st: Status, repo: Repository, node: string)
    | BStatus(b: Backup, st: Status)

  /** Commands run on the server for a backup object. */
  datatype Command = CreateUser(uid: nat, user: Account) | DeleteUser(uid: nat, user: Account)

  /** The inputs the stored CronJob was built from. */
  datatype CronJob = CronJob(spec: Spec, node: string, repo: Repository)

  /**
   * What the calls of the current reconciler pass have established; `since` is the length of the command log when it
   * began.
   */
  datatype Facts = Facts(pvc: bool, repo: Option<Repository>, ensured: Option<string>, configMap: bool, node: string,
                         cron: Option<CronJob>, since: nat)

  const NO_FACTS: Facts := Facts(false, None, None, false, "", None, 0)

  /** What a pass had seen and established when its CronJob call returned. */
  datatype Pass = Pass(uid: nat, generation: nat, spec: Spec, facts: Facts)

  /**
   * `secrets` maps the names of the existing credentials secrets to the user names they hold, `commands` is
   * the log of server commands, `pass` numbers the reconciler's passes, `passes` records those that called
   * for the CronJob, and `retired` maps each object whose finalizer the operator removed to the length of
   * the log then.
   */
  datatype World = World(
    namespace: string, store: Store, pvc: Option<Pvc>, watcher: WatcherOp, reconciler: BackupOp,
    secrets: map<string, string>, commands: seq<Command>, cron: Option<CronJob>, facts: Facts,
    pass: nat, passes: map<nat, Pass>, retired: map<nat, nat>)

  datatype Event =
    | WatcherBegins
    | WatcherStep(out: Outcome, repo: Option<Repository>)
    | WatcherCrash
    | BackupBegins
    | BackupStep(out: Outcome, repo: Option<Repository>, node: string, ran: bool, left: bool)
    | BackupCrash
    | UserEditsSpec(spec: Spec)
    | UserEditsOwner(owner: Option<nat>)
    | UserDeletes
    | UserCreates(spec: Spec, owner: Option<nat>)
    | PvcChanges(pvc: Option<Pvc>)
    | UserStripsFinalizer
    | SecretRemoved(name: string)
    | SecretWritten(name: string, user: string)

  // --- PVC watcher ---

  /** Marked auto-created, or controlled by the PVC. */
  predicate Managed(b: Backup, pvcUid: nat) {
    b.status.autoCreated || b.owner == Some(pvcUid)
  }

  /** `getScheduleFromPVC` */
  function ScheduleFor(pvc: Pvc, repo: Repository): string {
    if pvc.schedule != "" then pvc.schedule else repo.defaultSchedule
  }

  /** What Reconcile does once it has read the PVC and looked for the backup. */
  function WatcherChoice(pvc: Pvc, found: Option<Backup>): WatcherOp {
    if pvc.repository == "" then
      if found.Some? && Managed(found.value, pvc.uid) then WDelete(pvc, found.value) else WIdle
    else if found.None? then WCreateLookup(pvc)
    else if !Managed(found.value, pvc.uid) then WIdle
    else if !found.value.status.autoCreated then WMarkStatus(pvc, found.value)
    else WSyncLookup(pvc, found.value)
  }

  function Marked(b: Backup): Backup {
    b.(status := b.status.(autoCreated := true))
  }

  function WithSchedule(b: Backup, schedule: string): Backup {
    b.(spec := b.spec.(schedule := schedule))
  }

  function NewSpec(pvc: Pvc, repo: Repository): Spec {
    Spec(pvc.name, ScheduleFor(pvc, repo), pvc.repository, false, "")
  }

  function WatcherNext(w: World, out: Outcome, repo: Option<Repository>): World {
    match w.watcher
    case WIdle => w
    case WGetPvc =>
      if !out.Done? || w.pvc.None? then w.(watcher := WIdle) else w.(watcher := WGetBackup(w.pvc.value))
    case WGetBackup(pvc) =>
      if !out.Done? then w.(watcher := WIdle) else w.(watcher := WatcherChoice(pvc, w.store.obj))
    case WDelete(_, _) => w.(store := if out.Lost? then w.store else Delete(w.store), watcher := WIdle)
    case WMarkStatus(pvc, b) =>
      if out.Lost? || !Current(w.store, b) then w.(watcher := WIdle)
      else
        var s := UpdateStatus(w.store, Marked(b));
        w.(store := s, watcher := if out.Done? then WSyncLookup(pvc, s.obj.value) else WIdle)
    case WSyncLookup(pvc, b) =>
      if repo.None? || ScheduleFor(pvc, repo.value) == b.spec.schedule then w.(watcher := WIdle)
      else w.(watcher := WSyncUpdate(pvc, b, ScheduleFor(pvc, repo.value)))
    case WSyncUpdate(_, b, schedule) =>
      w.(store := if out.Lost? || !Current(w.store, b) then w.store else Update(w.store, WithSchedule(b, schedule)),
         watcher := WIdle)
    case WCreateLookup(pvc) =>
      w.(watcher := if repo.None? then WIdle else WCreate(pvc, NewSpec(pvc, repo.value)))
    case WCreate(pvc, spec) =>
      if out.Lost? || w.store.obj.Some? then w.(watcher := WIdle)
      else
        var s := Create(w.store, spec, Some(pvc.uid));
        w.(store := s, watcher := if out.Done? then WCreatedStatus(pvc, s.obj.value) else WIdle)
    case WCreatedStatus(_, b) =>
      w.(store := if out.Lost? || !Current(w.store, b) then w.store else UpdateStatus(w.store, Marked(b)),
         watcher := WIdle)
  }

  // --- Backup reconciler ---

  function SecretName(w: World, b: Backup): string {
    Naming.UserSecretName(w.namespace, b.spec.pvcName)
  }

  function UserOf(w: World, b: Backup, repo: Repository): string {
    Naming.Username(w.namespace, b.spec.pvcName, repo.hostname)
  }

  function AccountOn(repo: Repository, user: string): Account {
    Account(repo.namespace, repo.name, user)
  }

  /** The computed user on the server of the repository. */
  function AccountOf(w: World, b: Backup, repo: Repository): Account {
    AccountOn(repo, UserOf(w, b, repo))
  }

  /** The user EnsureUser works for: the one an existing secret names, else the computed one. */
  function EnsuredUser(w: World, b: Backup, repo: Repository): string {
    if SecretName(w, b) in w.secrets then w.secrets[SecretName(w, b)] else UserOf(w, b, repo)
  }

  /** The first decision of a pass: finalizer handling. */
  function AfterGet(b: Backup): BackupOp {
    if b.deleting then
      if !b.finalizer then BIdle
      else if b.spec.credentialsSecret != "" then BDeleteLookup(b)
      else BRemoveFinalizer(b, None)
    else if !b.finalizer then BAddFinalizer(b)
    else BPvc(b)
  }

  /** `setCondition` for Ready, in pass `n`. */
  function SetReady(n: nat, b: Backup, st: Status, isTrue: bool, reason: Reason): Status {
    st.(ready := Some(Condition(isTrue, reason, b.generation)), readyBy := n)
  }

  /** `setCondition` for CronJobCreated, in pass `n`. */
  function SetCron(n: nat, b: Backup, st: Status, isTrue: bool): Status {
    var reason := if isTrue then Reconciled else CronJobFailed;
    st.(cronJobCreated := Some(Condition(isTrue, reason, b.generation)), cronBy := n)
  }

  /** Server mode goes on with the credentials, direct mode on a filesystem with the ConfigMap. */
  function AfterRepo(b: Backup, repo: Repository): BackupOp {
    if repo.serverEnabled then BEnsure(b, repo)
    else if repo.storage.Filesystem? then BConfigMap(b, repo)
    else BPods(b, b.status, repo)
  }

  /** Status fields set once the credentials are recorded. */
  function ConnectedStatus(w: World, b: Backup, repo: Repository): Status {
    b.status.(username := UserOf(w, b, repo), connected := true)
  }

  /** The conditions at the end of a pass whose CronJob call succeeded. */
  function FinalStatus(n: nat, b: Backup, st: Status, node: string): Status {
    var st' := SetCron(n, b, st, true);
    if node == "" then SetReady(n, b, st', false, NoPodFound)
    else if b.spec.suspend then SetReady(n, b, st', false, SuspendedByUser)
    else SetReady(n, b, st', true, Reconciled)
  }

  /** The part of a pass that handles finalizers. */
  function FinalizerNext(w: World, out: Outcome, repo: Option<Repository>): World {
    match w.reconciler
    case BDeleteLookup(b) =>
      w.(facts := w.facts.(repo := repo),
         reconciler := if repo.Some? && repo.value.serverEnabled then BDeleteExec(b, AccountOf(w, b, repo.value))
                       else BRemoveFinalizer(b, None))
    case BDeleteExec(b, user) =>
      w.(commands := if out.Lost? then w.commands else w.commands + [DeleteUser(b.uid, user)],
         reconciler := if out.Done? then BSecretGet(b, user) else BIdle)
    case BSecretGet(b, user) =>
      w.(reconciler := if !out.Done? then BIdle
                       else if SecretName(w, b) in w.secrets then BSecretDelete(b, user)
                       else BRemoveFinalizer(b, Some(user)))
    case BSecretDelete(b, user) =>
      if out.Lost? || SecretName(w, b) !in w.secrets then w.(reconciler := BIdle)
      else w.(secrets := w.secrets - {SecretName(w, b)},
              reconciler := if out.Done? then BRemoveFinalizer(b, Some(user)) else BIdle)
    case BRemoveFinalizer(b, _) =>
      if out.Lost? || !Current(w.store, b) then w.(reconciler := BIdle)
      else
        w.(store := Update(w.store, b.(finalizer := false)), reconciler := BIdle,
           retired := w.retired[b.uid := |w.commands|])
    case BAddFinalizer(b) =>
      if out.Lost? || !Current(w.store, b) then w.(reconciler := BIdle)
      else
        var s := Update(w.store, b.(finalizer := true));
        w.(store := s, reconciler := if out.Done? && s.obj.Some? then BPvc(s.obj.value) else BIdle)
    case _ => w
  }

  /** The part of a pass that validates dependencies and ensures the server user. */
  function DependenciesNext(w: World, out: Outcome, repo: Option<Repository>, ran: bool, left: bool): World {
    match w.reconciler
    case BPvc(b) =>
      if out.Done? && b.spec.pvcName != "" then w.(reconciler := BRepo(b), facts := w.facts.(pvc := true))
      else w.(reconciler := BStatus(b, SetReady(w.pass, b, b.status, false, PVCNotFound)))
    case BRepo(b) =>
      if repo.Some? then w.(reconciler := AfterRepo(b, repo.value), facts := w.facts.(repo := repo))
      else w.(reconciler := BStatus(b, SetReady(w.pass, b, b.status, false, RepositoryNotFound)))
    case BEnsure(b, r) =>
      var name := SecretName(w, b);
      var user := EnsuredUser(w, b, r);
      var w' := w.(commands := if ran then w.commands + [CreateUser(b.uid, AccountOn(r, user))] else w.commands,
                   secrets := if name !in w.secrets && (out.Done? || left) then w.secrets[name := user] else w.secrets);
      if !out.Done? then w'.(reconciler := BStatus(b, b.status))
      else
        w'.(facts := w.facts.(ensured := Some(user)),
            reconciler := if b.spec.credentialsSecret != SecretName(w, b) then BRecord(b, r)
                          else BPods(b, ConnectedStatus(w, b, r), r))
    case BRecord(b, r) =>
      if out.Lost? || !Current(w.store, b) then w.(reconciler := BStatus(b, b.status))
      else
        var s := Update(w.store, b.(spec := b.spec.(credentialsSecret := SecretName(w, b))));
        w.(store := s,
           reconciler := if out.Done? && s.obj.Some? then BPods(s.obj.value, ConnectedStatus(w, s.obj.value, r), r)
                         else BStatus(b, b.status))
    case BConfigMap(b, r) =>
      w.(facts := w.facts.(configMap := out.Done?),
         reconciler := if out.Done? then BPods(b, b.status, r) else BStatus(b, b.status))
    case _ => w
  }

  /** The part of a pass that brings the CronJob up to date and writes the status. */
  function ResourcesNext(w: World, out: Outcome, node: string): World {
    match w.reconciler
    case BPods(b, st, r) =>
      var found := if out.Done? then node else "";
      w.(reconciler := BCron(b, st.(nodeName := found, cronJobName := Naming.CronJobName(b.spec.pvcName)), r, found),
         facts := w.facts.(node := found))
    case BCron(b, st, r, n) =>
      var cron := Some(CronJob(b.spec, n, r));
      var facts := w.facts.(cron := if out.Done? then cron else None);
      w.(cron := if out.Lost? then w.cron else cron, facts := facts,
         reconciler := BStatus(b, if out.Done? then FinalStatus(w.pass, b, st, n) else SetCron(w.pass, b, st, false)),
         passes := w.passes[w.pass := Pass(b.uid, b.generation, b.spec, facts)])
    case BStatus(b, st) =>
      w.(store := if out.Lost? || !Current(w.store, b) then w.store else UpdateStatus(w.store, b.(status := st)),
         reconciler := BIdle)
    case _ => w
  }

  function BackupNext(w: World, e: Event): World
    requires e.BackupStep?
  {
    match w.reconciler
    case BIdle => w
    case BGet =>
      if !e.out.Done? || w.store.obj.None? then w.(reconciler := BIdle)
      else w.(reconciler := AfterGet(w.store.obj.value), facts := NO_FACTS.(since := |w.commands|))
    case BDeleteLookup(_) => FinalizerNext(w, e.out, e.repo)
    case BDeleteExec(_, _) => FinalizerNext(w, e.out, e.repo)
    case BSecretGet(_, _) => FinalizerNext(w, e.out, e.repo)
    case BSecretDelete(_, _) => FinalizerNext(w, e.out, e.repo)
    case BRemoveFinalizer(_, _) => FinalizerNext(w, e.out, e.repo)
    case BAddFinalizer(_) => FinalizerNext(w, e.out, e.repo)
    case BPods(_, _, _) => ResourcesNext(w, e.out, e.node)
    case BCron(_, _, _, _) => ResourcesNext(w, e.out, e.node)
    case BStatus(_, _) => ResourcesNext(w, e.out, e.node)
    case _ => DependenciesNext(w, e.out, e.repo, e.ran, e.left)
  }

  // --- All together ---

  function UserNext(w: World, e: Event): World {
    match e
    case UserEditsSpec(spec) =>
      if w.store.obj.None? then w else w.(store := Update(w.store, w.store.obj.value.(spec := spec)))
    case UserEditsOwner(owner) =>
      if w.store.obj.None? then w else w.(store := Update(w.store, w.store.obj.value.(owner := owner)))
    case UserDeletes => w.(store := Delete(w.store))
    case UserCreates(spec, owner) => if w.store.obj.Some? then w else w.(store := Create(w.store, spec, owner))
    case PvcChanges(pvc) => w.(pvc := pvc)
    case UserStripsFinalizer =>
      if w.store.obj.None? then w else w.(store := Update(w.store, w.store.obj.value.(finalizer := false)))
    case SecretRemoved(name) => w.(secrets := w.secrets - {name})
    case SecretWritten(name, user) => w.(secrets := w.secrets[name := user])
    case _ => w
  }

  /** One step; an event that is not possible changes nothing. */
  function Step(w: World, e: Event): World {
    match e
    case WatcherBegins => if w.watcher.WIdle? then w.(watcher := WGetPvc) else w
    case WatcherStep(out, repo) => WatcherNext(w, out, repo)
    case WatcherCrash => w.(watcher := WIdle)
    case BackupBegins => if w.reconciler.BIdle? then w.(reconciler := BGet, pass := w.pass + 1) else w
    case BackupStep(_, _, _, _, _) => BackupNext(w, e)
    case BackupCrash => w.(reconciler := BIdle)
    case _ => UserNext(w, e)
  }

  function Run(w: World, es: seq<Event>): World {
    if es == [] then w else Step(Run(w, es[..|es| - 1]), es[|es| - 1])
  }

  lemma Append(w: World, es: seq<Event>, e: Event)
    ensures Run(w, es + [e]) == Step(Run(w, es), e)
  {
    assert (es + [e])[..|es|] == es;
  }

  /** No object yet, nobody at work. */
  predicate Initial(w: World) {
    && w.store.obj.None? && w.watcher.WIdle? && w.reconciler.BIdle?
    && w.commands == [] && w.passes == map[] && w.retired == map[]
  }
}
