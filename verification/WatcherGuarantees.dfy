/** Which backups the PVC watcher touches, and what one undisturbed pass achieves. */
module WatcherGuarantees {
  import opened Options
  import opened Resources
  import opened ApiServer
  import opened Controllers
  import opened CopyDiscipline

  /** The pass goes on only with a backup it found managed. */
  predicate ManagedInv(op: WatcherOp) {
    match op
    case WDelete(pvc, b) => Managed(b, pvc.uid)
    case WMarkStatus(pvc, b) => Managed(b, pvc.uid)
    case WSyncLookup(pvc, b) => b.status.autoCreated
    case WSyncUpdate(pvc, b, _) => b.status.autoCreated
    case WCreatedStatus(pvc, b) => b.owner == Some(pvc.uid)
    case _ => true
  }

  lemma MarkedAfterUpdate(s: Store, b: Backup)
    requires Current(s, b)
    ensures UpdateStatus(s, Marked(b)).obj.Some? && UpdateStatus(s, Marked(b)).obj.value.status.autoCreated
  {
  }

  lemma ManagedStep(w: World, e: Event)
    requires ManagedInv(w.watcher)
    ensures ManagedInv(Step(w, e).watcher)
  {
    if e.WatcherStep? {
      if w.watcher.WMarkStatus? && Current(w.store, w.watcher.b) {
        MarkedAfterUpdate(w.store, w.watcher.b);
      }
    } else {
      OthersKeepWatcher(w, e);
    }
  }

  lemma OthersKeepWatcher(w: World, e: Event)
    requires !e.WatcherStep?
    ensures Step(w, e).watcher == w.watcher || Step(w, e).watcher == WIdle || Step(w, e).watcher == WGetPvc
  {
    if e.BackupStep? { BackupKeepsWatcher(w, e); }
  }

  lemma {:induction false} ManagedRun(w: World, es: seq<Event>)
    requires Initial(w)
    ensures ManagedInv(Run(w, es).watcher)
  {
    if es != [] {
      ManagedRun(w, es[..|es| - 1]);
      ManagedStep(Run(w, es[..|es| - 1]), es[|es| - 1]);
    }
  }

  /** The PVC of the current pass, once it has been read. */
  predicate HasPvc(op: WatcherOp) {
    !op.WIdle? && !op.WGetPvc?
  }

  /**
   * In every run a watcher step changes an unmanaged backup exactly when it is a delete that reaches
   * the server and finds the object not already held back by a finalizer after an earlier delete; and
   * that happens only to an object changed or replaced since the pass read it.
   */
  lemma SparesUnmanagedIff(w: World, es: seq<Event>, out: Outcome, repo: Option<Repository>, o: Backup)
    requires Initial(w)
    requires var v := Run(w, es);
             v.store.obj == Some(o) && HasPvc(v.watcher) && !Managed(o, v.watcher.pvc.uid)
    ensures var v := Run(w, es);
            && (WatcherNext(v, out, repo).store != v.store <==>
                  v.watcher.WDelete? && !out.Lost? && !(o.finalizer && o.deleting))
            && (v.watcher.WDelete? ==> !Current(v.store, v.watcher.b))
  {
    CopyRun(w, es);
    ManagedRun(w, es);
    var v := Run(w, es);
    if !v.watcher.WMarkStatus? && !v.watcher.WCreatedStatus? && !v.watcher.WSyncUpdate? && !v.watcher.WDelete?
       && !v.watcher.WCreate? {
      WatcherReadsKeepStore(v, out, repo);
    }
  }

  // --- One undisturbed pass ---

  function Next(w: World, repo: Option<Repository>): World {
    Step(w, WatcherStep(Done, repo))
  }

  /** All calls succeed and nobody interferes; five steps are the longest pass. */
  function UndisturbedPass(w: World, repo: Option<Repository>): World {
    FromChoice(Next(Next(Step(w, WatcherBegins), repo), repo), repo)
  }

  function FromChoice(w: World, repo: Option<Repository>): World {
    Next(Next(Next(w, repo), repo), repo)
  }

  /** The annotation of the PVC when there is one, else the default of the repository. */
  predicate Wanted(pvc: Pvc, repo: Repository, schedule: string) {
    && (pvc.schedule != "" ==> schedule == pvc.schedule)
    && (pvc.schedule == "" ==> schedule == repo.defaultSchedule)
  }

  /** The spec of a new backup: for this PVC, on the labelled repository, not suspended, without a secret yet. */
  predicate NewFor(pvc: Pvc, repo: Repository, spec: Spec) {
    && spec.pvcName == pvc.name && spec.repository == pvc.repository && Wanted(pvc, repo, spec.schedule)
    && !spec.suspend && spec.credentialsSecret == ""
  }

  /** The watcher's own: it carries the flag, or the PVC controls it. */
  predicate Ours(pvc: Pvc, b: Backup) {
    b.status.autoCreated || (b.owner.Some? && b.owner.value == pvc.uid)
  }

  /** What the store should hold after a pass, said of the store alone. */
  predicate Target(s: Store, pvc: Pvc, repo: Option<Repository>, t: Store) {
    if pvc.repository == "" then
      if s.obj.Some? && Ours(pvc, s.obj.value) then
        t.obj.None? || (t.obj.value.deleting && t.obj.value.uid == s.obj.value.uid)
      else t == s
    else if s.obj.None? then
      if repo.None? then t == s
      else
        && t.obj.Some? && t.obj.value.uid == s.nextUid
        && NewFor(pvc, repo.value, t.obj.value.spec)
        && t.obj.value.status == NO_STATUS.(autoCreated := true)
        && t.obj.value.owner == Some(pvc.uid)
    else if !Ours(pvc, s.obj.value) then t == s
    else
      && t.obj.Some? && t.obj.value.uid == s.obj.value.uid
      && t.obj.value.status == s.obj.value.status.(autoCreated := true)
      && t.obj.value.spec == s.obj.value.spec.(schedule := t.obj.value.spec.schedule)
      && (repo.Some? ==> Wanted(pvc, repo.value, t.obj.value.spec.schedule))
      && (repo.None? ==> t.obj.value.spec == s.obj.value.spec)
      && t.obj.value.finalizer == s.obj.value.finalizer && t.obj.value.owner == s.obj.value.owner
      && t.obj.value.deleting == s.obj.value.deleting
  }

  /** Rules out the state the API server never keeps: marked for deletion without a finalizer. */
  predicate NoGhost(s: Store) {
    s.obj.Some? && s.obj.value.deleting ==> s.obj.value.finalizer
  }

  lemma ReadsFirst(w: World, pvc: Pvc, repo: Option<Repository>)
    requires w.watcher.WIdle? && w.pvc == Some(pvc)
    ensures UndisturbedPass(w, repo) == FromChoice(w.(watcher := WatcherChoice(pvc, w.store.obj)), repo)
  {
    var v1 := Next(Step(w, WatcherBegins), repo);
    assert v1 == w.(watcher := WGetBackup(pvc));
    assert Next(v1, repo) == w.(watcher := WatcherChoice(pvc, w.store.obj));
  }

  lemma IdleStays(w: World, repo: Option<Repository>)
    requires w.watcher.WIdle?
    ensures Next(w, repo) == w
  {
  }

  lemma SyncDecides(w: World, pvc: Pvc, b: Backup, repo: Option<Repository>)
    requires w.watcher == WSyncLookup(pvc, b)
    ensures Next(w, repo) == w.(watcher := if repo.None? || ScheduleFor(pvc, repo.value) == b.spec.schedule then WIdle
                                           else WSyncUpdate(pvc, b, ScheduleFor(pvc, repo.value)))
  {
  }

  lemma SyncStores(w: World, b: Backup, repo: Option<Repository>)
    requires w.watcher.WSyncUpdate? && w.watcher.b == b && w.store.obj == Some(b)
    ensures Next(w, repo) == w.(store := Update(w.store, WithSchedule(b, w.watcher.schedule)), watcher := WIdle)
  {
  }

  lemma ScheduleStored(s: Store, b: Backup, schedule: string)
    requires s.obj == Some(b) && NoGhost(s) && schedule != b.spec.schedule
    ensures var t := Update(s, WithSchedule(b, schedule));
            && NoGhost(t) && t.obj.Some?
            && t.obj.value.(version := b.version, generation := b.generation) == WithSchedule(b, schedule)
  {
  }

  /** From the decision to sync on. */
  lemma SyncReaches(w: World, pvc: Pvc, b: Backup, repo: Option<Repository>)
    requires w.watcher == WSyncLookup(pvc, b) && w.store.obj == Some(b) && NoGhost(w.store)
    ensures var v := Next(Next(w, repo), repo);
            && v.watcher.WIdle? && NoGhost(v.store) && v.store.obj.Some?
            && v.store.obj.value.(version := b.version, generation := b.generation) ==
               (if repo.None? then b else WithSchedule(b, ScheduleFor(pvc, repo.value)))
            && (repo.None? || ScheduleFor(pvc, repo.value) == b.spec.schedule ==> v.store == w.store)
  {
    var v1 := Next(w, repo);
    SyncDecides(w, pvc, b, repo);
    if repo.Some? && ScheduleFor(pvc, repo.value) != b.spec.schedule {
      SyncStores(v1, b, repo);
      ScheduleStored(w.store, b, ScheduleFor(pvc, repo.value));
    } else {
      IdleStays(v1, repo);
    }
  }

  lemma MarkReaches(w: World, pvc: Pvc, b: Backup, repo: Option<Repository>)
    requires w.watcher == WMarkStatus(pvc, b) && w.store.obj == Some(b) && !b.status.autoCreated && NoGhost(w.store)
    ensures var v := Next(w, repo);
            && v.store.obj.Some? && v.watcher == WSyncLookup(pvc, v.store.obj.value) && NoGhost(v.store)
            && v.store.obj.value.(version := b.version) == Marked(b)
  {
  }

  lemma CreateReaches(w: World, pvc: Pvc, repo: Option<Repository>)
    requires w.watcher == WCreateLookup(pvc) && w.store.obj.None?
    ensures var v := FromChoice(w, repo);
            v.watcher.WIdle? && NoGhost(v.store) && (repo.None? ==> v.store == w.store)
    ensures var v := FromChoice(w, repo);
            repo.Some? ==>
              && v.store.obj.Some? && v.store.obj.value.uid == w.store.nextUid
              && v.store.obj.value.spec == NewSpec(pvc, repo.value)
              && v.store.obj.value.status == NO_STATUS.(autoCreated := true)
              && v.store.obj.value.owner == Some(pvc.uid)
  {
    var v1 := Next(w, repo);
    if repo.Some? {
      assert v1 == w.(watcher := WCreate(pvc, NewSpec(pvc, repo.value)));
      var v2 := Next(v1, repo);
      assert v2.store.obj.Some? && v2.watcher == WCreatedStatus(pvc, v2.store.obj.value);
    }
  }

  /**
   * One undisturbed pass reaches its target: the backup exists with the wanted schedule and flag, or is being deleted.
   */
  lemma PassReachesTarget(w: World, pvc: Pvc, repo: Option<Repository>)
    requires w.watcher.WIdle? && w.pvc == Some(pvc) && NoGhost(w.store)
    ensures var v := UndisturbedPass(w, repo);
            v.watcher.WIdle? && v.pvc == w.pvc && NoGhost(v.store) && Target(w.store, pvc, repo, v.store)
  {
    ReadsFirst(w, pvc, repo);
    var c := w.(watcher := WatcherChoice(pvc, w.store.obj));
    if c.watcher.WCreateLookup? {
      CreateReaches(c, pvc, repo);
    } else if c.watcher.WMarkStatus? {
      MarkReaches(c, pvc, c.watcher.b, repo);
      var v1 := Next(c, repo);
      SyncReaches(v1, pvc, v1.store.obj.value, repo);
    } else if c.watcher.WSyncLookup? {
      SyncReaches(c, pvc, c.watcher.b, repo);
      IdleStays(Next(Next(c, repo), repo), repo);
    } else {
      DeleteReaches(c, repo);
    }
    PvcUntouched(w, repo);
  }

  lemma DeleteReaches(w: World, repo: Option<Repository>)
    requires w.watcher.WDelete? || w.watcher.WIdle?
    requires NoGhost(w.store)
    ensures var v := FromChoice(w, repo);
            && v.watcher.WIdle? && NoGhost(v.store)
            && v.store == if w.watcher.WDelete? then Delete(w.store) else w.store
  {
  }

  lemma NextKeepsPvc(w: World, repo: Option<Repository>)
    ensures Next(w, repo).pvc == w.pvc
  {
  }

  lemma PvcUntouched(w: World, repo: Option<Repository>)
    ensures UndisturbedPass(w, repo).pvc == w.pvc
  {
    var v0 := Step(w, WatcherBegins);
    var v1 := Next(v0, repo);
    var v2 := Next(v1, repo);
    var v3 := Next(v2, repo);
    NextKeepsPvc(v0, repo);
    NextKeepsPvc(v1, repo);
    NextKeepsPvc(v2, repo);
    NextKeepsPvc(v3, repo);
    NextKeepsPvc(Next(v3, repo), repo);
  }

  /** What makes a second pass idle: the target is a fixed point. */
  lemma TargetStable(s: Store, pvc: Pvc, repo: Option<Repository>, w: World)
    requires w.watcher.WIdle? && w.pvc == Some(pvc) && NoGhost(w.store) && Target(s, pvc, repo, w.store)
    ensures UndisturbedPass(w, repo).store == w.store
  {
    ReadsFirst(w, pvc, repo);
    var c := w.(watcher := WatcherChoice(pvc, w.store.obj));
    if c.watcher.WSyncLookup? {
      SyncReaches(c, pvc, c.watcher.b, repo);
      IdleStays(Next(Next(c, repo), repo), repo);
    } else if c.watcher.WCreateLookup? {
      CreateReaches(c, pvc, repo);
    } else if c.watcher.WIdle? || c.watcher.WDelete? {
      DeleteReaches(c, repo);
    }
  }

  /** A second undisturbed pass changes nothing stored. */
  lemma PassIdempotent(w: World, pvc: Pvc, repo: Option<Repository>)
    requires w.watcher.WIdle? && w.pvc == Some(pvc) && NoGhost(w.store)
    ensures var v := UndisturbedPass(w, repo); UndisturbedPass(v, repo).store == v.store
  {
    PassReachesTarget(w, pvc, repo);
    TargetStable(w.store, pvc, repo, UndisturbedPass(w, repo));
  }

  /** A flag lost after creation is restored by the next undisturbed pass. */
  lemma LostFlagRestored(w: World, pvc: Pvc, repo: Option<Repository>)
    requires w.watcher.WIdle? && w.pvc == Some(pvc) && NoGhost(w.store) && pvc.repository != ""
    requires w.store.obj.Some? && w.store.obj.value.owner == Some(pvc.uid)
    ensures var v := UndisturbedPass(w, repo);
            v.store.obj.Some? && v.store.obj.value.uid == w.store.obj.value.uid && v.store.obj.value.status.autoCreated
  {
    PassReachesTarget(w, pvc, repo);
  }

  /** Relabelling the PVC never moves an existing backup to the other repository. */
  lemma RelabelKeepsRepository(w: World, pvc: Pvc, repo: Option<Repository>)
    requires w.watcher.WIdle? && w.pvc == Some(pvc) && NoGhost(w.store) && pvc.repository != "" && w.store.obj.Some?
    ensures var v := UndisturbedPass(w, repo);
            v.store.obj.Some? && v.store.obj.value.spec.repository == w.store.obj.value.spec.repository
  {
    PassReachesTarget(w, pvc, repo);
  }

  lemma DeleteChosen(v: World, pvc: Pvc, b: Backup)
    requires v.watcher.WGetPvc? && v.pvc == Some(pvc) && v.store.obj == Some(b) && pvc.repository == ""
    requires b.owner == Some(pvc.uid)
    ensures Next(Next(v, None), None) == v.(watcher := WDelete(pvc, b))
  {
    assert Next(v, None) == v.(watcher := WGetBackup(pvc));
  }

  lemma UpToDelete(w: World, spec: Spec, pvc: Pvc) returns (es: seq<Event>)
    requires Initial(w) && pvc.repository == ""
    ensures var v := Run(w, es);
            v.watcher.WDelete? && v.store.obj.Some? && !v.store.obj.value.finalizer
  {
    var e := WatcherStep(Done, None);
    Append(w, [], PvcChanges(Some(pvc)));
    es := [] + [PvcChanges(Some(pvc))];
    Append(w, es, UserCreates(spec, Some(pvc.uid)));
    es := es + [UserCreates(spec, Some(pvc.uid))];
    Append(w, es, WatcherBegins);
    es := es + [WatcherBegins];
    var v := Run(w, es);
    DeleteChosen(v, pvc, v.store.obj.value);
    Append(w, es, e);
    Append(w, es + [e], e);
    es := es + [e] + [e];
  }

  /** The exception is real: a same-name replacement between read and delete is deleted although unmanaged. */
  lemma ReplacementDeleted(w: World, spec: Spec, pvc: Pvc) returns (es: seq<Event>)
    requires Initial(w) && pvc.repository == ""
    ensures var v := Run(w, es);
            && v.store.obj.Some? && v.watcher.WDelete? && !Managed(v.store.obj.value, pvc.uid)
            && Step(v, WatcherStep(Done, None)).store.obj.None?
  {
    es := UpToDelete(w, spec, pvc);
    Append(w, es, UserDeletes);
    Append(w, es + [UserDeletes], UserCreates(spec, None));
    es := es + [UserDeletes] + [UserCreates(spec, None)];
  }
}
