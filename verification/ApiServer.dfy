/**
 * The API server as the two controllers see it: one KopiaBackup key, optimistic locking by resource
 * version, spec and status written through separate verbs.
 */
module ApiServer {
  import opened Options
  import opened Resources
  import opened Text

  datatype Spec = Spec(pvcName: Bytes, schedule: string, repository: string, suspend: bool, credentialsSecret: string)

  /**
   * `readyBy` and `cronBy` are no fields of the source: they number the reconciler passes that set the two conditions.
   */
  datatype Status = Status(autoCreated: bool, ready: Option<Condition>, cronJobCreated: Option<Condition>,
                           nodeName: string, cronJobName: string, username: string, connected: bool,
                           readyBy: nat, cronBy: nat)

  const NO_STATUS: Status := Status(false, None, None, "", "", "", false, 0, 0)

  /** Equal in every field of the source. */
  predicate SameStatus(a: Status, b: Status) {
    a.(readyBy := b.readyBy, cronBy := b.cronBy) == b
  }

  /** A stored KopiaBackup; `owner` is the uid of its controlling PVC. */
  datatype Backup = Backup(uid: nat, version: nat, generation: nat, spec: Spec, status: Status,
                           finalizer: bool, deleting: bool, owner: Option<nat>)

  datatype Store = Store(obj: Option<Backup>, nextVersion: nat, nextUid: nat)

  /** The version check of Update and Status().Update. */
  predicate Current(s: Store, copy: Backup) {
    s.obj.Some? && s.obj.value.version == copy.version
  }

  function Put(s: Store, b: Backup): Store {
    s.(obj := Some(b.(version := s.nextVersion)), nextVersion := s.nextVersion + 1)
  }

  /** Update: spec and metadata of the copy, status untouched; nothing happens if nothing differs. */
  function Update(s: Store, copy: Backup): Store
    requires Current(s, copy)
  {
    var o := s.obj.value;
    var o' := o.(spec := copy.spec, finalizer := copy.finalizer, owner := copy.owner,
                 generation := if copy.spec == o.spec then o.generation else o.generation + 1);
    if o' == o then s
    else if o'.deleting && !o'.finalizer then s.(obj := None)
    else Put(s, o')
  }

  /** Status().Update: only the status of the copy. */
  function UpdateStatus(s: Store, copy: Backup): Store
    requires Current(s, copy)
  {
    var o := s.obj.value;
    if SameStatus(copy.status, o.status) then s else Put(s, o.(status := copy.status))
  }

  /** Delete by name: marks the object while its finalizer remains. */
  function Delete(s: Store): Store {
    if s.obj.None? then s
    else
      var o := s.obj.value;
      if !o.finalizer then s.(obj := None)
      else if o.deleting then s
      else Put(s, o.(deleting := true, generation := o.generation + 1))
  }

  /** Create: a new object without status. */
  function Create(s: Store, spec: Spec, owner: Option<nat>): Store
    requires s.obj.None?
  {
    Put(s.(nextUid := s.nextUid + 1), Backup(s.nextUid, 0, 1, spec, NO_STATUS, false, false, owner))
  }
}
