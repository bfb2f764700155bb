/**
 * Keeping the server's user table in step with the credentials secret (EnsureUser, markUserSynced and
 * createUserOnServer in internal/kopia/user/manager.go). The annotation on the secret is a cache of
 * what the server was last given. Every call is one step that may fail, with or without effect; the
 * operator may crash and others may write the secret between any two steps. Calls for one backup do
 * not overlap, and the effect of a command, if any, lands before the call returns.
 */
module Credentials {
  import opened Options

  datatype Creds = Creds(user: string, pass: string)

  /** SHA-256, as far as it matters here. */
  type Digest = string -> string

  ghost predicate CollisionFree(d: Digest) {
    forall x, y :: d(x) == d(y) ==> x == y
  }

  /** `credentialsFingerprint` */
  function Fingerprint(d: Digest, c: Creds): string {
    d(c.user + "\0" + c.pass)
  }

  /** A user name as a command line can carry it. */
  predicate Clean(user: string) {
    '\0' !in user
  }

  /** The separator keeps NUL-free user names apart from passwords. */
  lemma FingerprintInjective(d: Digest, a: Creds, b: Creds)
    requires CollisionFree(d) && Clean(a.user) && Clean(b.user)
    requires Fingerprint(d, a) == Fingerprint(d, b)
    ensures a == b
  {
    var x := a.user + "\0" + a.pass;
    assert x == b.user + "\0" + b.pass;
    assert x[|a.user|] == '\0' && x[|b.user|] == '\0';
    assert |a.user| == |b.user|;
    assert a.user == x[..|a.user|] && b.user == x[..|b.user|];
    assert a.pass == x[|a.user| + 1..] && b.pass == x[|b.user| + 1..];
  }

  /** With a NUL in the user name two different pairs have one fingerprint under every digest. */
  lemma NulConfuses(d: Digest)
    ensures Fingerprint(d, Creds("a\0b", "c")) == Fingerprint(d, Creds("a", "b\0c"))
    ensures Creds("a\0b", "c") != Creds("a", "b\0c")
  {
    assert "a\0b" + "\0" + "c" == "a" + "\0" + "b\0c";
  }

  /** The credentials secret: either key may be missing. */
  datatype Secret = Secret(user: Option<string>, pass: Option<string>, synced: Option<string>) {
    function Pair(): Option<Creds> {
      if user.Some? && pass.Some? then Some(Creds(user.value, pass.value)) else None
    }
  }

  /** Where a call of EnsureUser stands; `created` tells that this call created the secret. */
  datatype Op =
    | Idle
    | AtGet
    | AtCreate
    | AtPod(creds: Creds, created: bool)
    | AtExec(creds: Creds, created: bool)
    | AtRollback(creds: Creds)
    | AtPatch(creds: Creds)
    | Returned(creds: Creds)

  /**
   * `server` is the user table; `seen` holds all credentials ever stored; `execs` counts the creation
   * commands run and `troubles` the writes by others, failed commands, failed patches and crashes.
   */
  datatype World = World(name: string, secret: Option<Secret>, server: map<string, string>, op: Op,
                         seen: set<Creds>, execs: nat, troubles: nat)

  datatype Event =
    | Begin
    | GetSecret(ok: bool)
    | CreateSecret(password: string, effect: bool, ok: bool)
    | FindPod(ok: bool)
    | Exec(effect: bool, ok: bool)
    | Rollback(effect: bool, ok: bool)
    | Patch(effect: bool, ok: bool)
    | Crash
    | OthersWrite(secret: Option<Secret>)
    | OtherUser(user: string, pass: Option<string>)
    | Repoint(server: map<string, string>)

  function Stored(w: World): Option<Creds> {
    if w.secret.Some? then w.secret.value.Pair() else None
  }

  /** The test that lets EnsureUser skip the command. */
  predicate Marked(d: Digest, s: Secret) {
    s.Pair().Some? && s.synced == Some(Fingerprint(d, s.Pair().value))
  }

  predicate Synced(d: Digest, w: World) {
    w.secret.Some? && Marked(d, w.secret.value)
  }

  predicate Holds(w: World, c: Creds) {
    c.user in w.server && w.server[c.user] == c.pass
  }

  function Note(seen: set<Creds>, c: Option<Creds>): set<Creds> {
    if c.Some? then seen + {c.value} else seen
  }

  function AfterGet(d: Digest, w: World): Op {
    if w.secret.None? then AtCreate
    else
      var s := w.secret.value;
      if s.Pair().None? then Idle
      else if Marked(d, s) then Returned(s.Pair().value)
      else AtPod(s.Pair().value, false)
  }

  /** One step; an event that is not possible changes nothing. */
  function Step(d: Digest, w: World, e: Event): World {
    match e
    case Begin => if w.op.Idle? || w.op.Returned? then w.(op := AtGet) else w
    case GetSecret(ok) => if !w.op.AtGet? then w else w.(op := if ok then AfterGet(d, w) else Idle)
    case CreateSecret(password, effect, ok) =>
      if !w.op.AtCreate? then w
      else if w.secret.Some? || !(effect || ok) then w.(op := Idle)
      else
        var c := Creds(w.name, password);
        w.(secret := Some(Secret(Some(w.name), Some(password), None)), seen := w.seen + {c},
           op := if ok then AtPod(c, true) else Idle)
    case FindPod(ok) =>
      if !w.op.AtPod? then w
      else w.(op := if ok then AtExec(w.op.creds, w.op.created)
                    else if w.op.created then AtRollback(w.op.creds) else Idle)
    case Exec(effect, ok) =>
      if !w.op.AtExec? then w
      else
        var c := w.op.creds;
        w.(server := if effect || ok then w.server[c.user := c.pass] else w.server,
           execs := w.execs + 1, troubles := if ok then w.troubles else w.troubles + 1,
           op := if ok then AtPatch(c) else if w.op.created then AtRollback(c) else Idle)
    case Rollback(effect, ok) =>
      if !w.op.AtRollback? then w
      else w.(secret := if effect || ok then None else w.secret, op := Idle)
    case Patch(effect, ok) =>
      if !w.op.AtPatch? then w
      else if w.secret.None? then w.(op := Returned(w.op.creds))
      else
        var marked := w.secret.value.(synced := Some(Fingerprint(d, w.op.creds)));
        w.(secret := if effect || ok then Some(marked) else w.secret,
           troubles := if ok then w.troubles else w.troubles + 1,
           op := Returned(w.op.creds))
    case Crash => w.(op := Idle, troubles := w.troubles + 1)
    case OthersWrite(secret) =>
      w.(secret := secret, troubles := w.troubles + 1,
         seen := Note(w.seen, if secret.Some? then secret.value.Pair() else None))
    case OtherUser(user, pass) =>
      if exists c :: c in w.seen && c.user == user then w
      else w.(server := if pass.Some? then w.server[user := pass.value] else w.server - {user})
    case Repoint(server) => w.(server := server)
  }

  function Run(d: Digest, w: World, es: seq<Event>): World {
    if es == [] then w else Step(d, Run(d, w, es[..|es| - 1]), es[|es| - 1])
  }

  /** No call in progress, nothing counted, and no mark that the server would contradict. */
  predicate Start(d: Digest, w: World) {
    && w.op.Idle? && w.execs == 0 && w.troubles == 0 && Clean(w.name)
    && (Synced(d, w) ==> Holds(w, Stored(w).value))
    && (Stored(w).Some? ==> Stored(w).value in w.seen)
    && (forall c :: c in w.seen ==> Clean(c.user))
  }

  // --- How many commands are run ---

  /** Commands that would still be run if nothing more went wrong. */
  function Needed(d: Digest, w: World): nat {
    match w.op
    case AtPod(c, _) => 1 + Outdated(d, w, c)
    case AtExec(c, _) => 1 + Outdated(d, w, c)
    case AtPatch(c) => Outdated(d, w, c)
    case AtRollback(_) => 1
    case _ => if Synced(d, w) then 0 else 1
  }

  /** 1 when a mark for `c` would not match what is stored. */
  function Outdated(d: Digest, w: World, c: Creds): nat {
    if Stored(w).Some? && Fingerprint(d, Stored(w).value) == Fingerprint(d, c) then 0 else 1
  }

  lemma StepCost(d: Digest, w: World, e: Event)
    ensures var v := Step(d, w, e);
            v.execs + Needed(d, v) <= w.execs + Needed(d, w) + (v.troubles - w.troubles) && w.troubles <= v.troubles
  {
  }

  /** In any run, however others write and whatever fails, every trouble costs at most one more command. */
  lemma {:induction false} RunCost(d: Digest, w: World, es: seq<Event>)
    ensures var v := Run(d, w, es);
            v.execs + Needed(d, v) <= w.execs + Needed(d, w) + (v.troubles - w.troubles) && w.troubles <= v.troubles
  {
    if es != [] {
      RunCost(d, w, es[..|es| - 1]);
      StepCost(d, Run(d, w, es[..|es| - 1]), es[|es| - 1]);
    }
  }

  /** At most one command plus one per trouble. */
  lemma ExecsBounded(d: Digest, w: World, es: seq<Event>)
    requires Start(d, w)
    ensures Run(d, w, es).execs <= 1 + Run(d, w, es).troubles
  {
    RunCost(d, w, es);
  }

  /** Once in step and undisturbed, no command is ever run again. */
  lemma QuietRunsNothing(d: Digest, w: World, es: seq<Event>)
    requires Synced(d, w) && (w.op.Idle? || w.op.Returned?)
    requires Run(d, w, es).troubles == w.troubles
    ensures Run(d, w, es).execs <= w.execs
  {
    RunCost(d, w, es);
  }

  // --- What a matching mark means ---

  /** Credentials a command may still be run with. */
  function Pending(w: World): Option<Creds> {
    if w.op.AtPod? || w.op.AtExec? then Some(w.op.creds) else None
  }

  /** A pending command that would take the stored credentials away from the server. */
  predicate Competes(w: World, c: Creds) {
    Pending(w).Some? && Pending(w).value.user == c.user && Pending(w).value != c
  }

  /** Credentials known to this call or to the secret. */
  predicate Tracked(w: World) {
    && Clean(w.name)
    && (forall c :: c in w.seen ==> Clean(c.user))
    && (Stored(w).Some? ==> Stored(w).value in w.seen)
    && (w.op.AtPod? || w.op.AtExec? || w.op.AtRollback? || w.op.AtPatch? || w.op.Returned? ==> w.op.creds in w.seen)
  }

  /** A mark that matches the stored credentials tells the truth, and goes on telling it. */
  predicate Truthful(d: Digest, w: World) {
    Synced(d, w) ==> Holds(w, Stored(w).value) && !Competes(w, Stored(w).value)
  }

  predicate Inv(d: Digest, w: World) {
    && Tracked(w)
    && Truthful(d, w)
    && (w.op.AtPatch? || w.op.Returned? ==> Holds(w, w.op.creds))
  }

  /** A write by others that leaves no matching mark, unless credentials and mark are as they were. */
  predicate Guarded(d: Digest, w: World, s: Option<Secret>) {
    s.Some? ==>
      && (s.value.user.Some? ==> Clean(s.value.user.value))
      && (Marked(d, s.value) ==> w.secret == s)
  }

  predicate Allowed(d: Digest, w: World, e: Event) {
    (e.OthersWrite? ==> Guarded(d, w, e.secret)) && !e.Repoint?
  }

  lemma InvStep(d: Digest, w: World, e: Event)
    requires CollisionFree(d) && Inv(d, w) && Allowed(d, w, e)
    ensures Inv(d, Step(d, w, e))
  {
    var v := Step(d, w, e);
    if e.Patch? && w.op.AtPatch? && w.secret.Some? {
      if Synced(d, v) && v.secret != w.secret {
        FingerprintInjective(d, Stored(v).value, w.op.creds);
      }
    }
  }

  /** Every event of the run is allowed at its point. */
  predicate AllowedRun(d: Digest, w: World, es: seq<Event>) {
    es == [] || (AllowedRun(d, w, es[..|es| - 1]) && Allowed(d, Run(d, w, es[..|es| - 1]), es[|es| - 1]))
  }

  lemma {:induction false} InvRun(d: Digest, w: World, es: seq<Event>)
    requires CollisionFree(d) && Start(d, w) && AllowedRun(d, w, es)
    ensures Inv(d, Run(d, w, es))
  {
    if es != [] {
      InvRun(d, w, es[..|es| - 1]);
      InvStep(d, Run(d, w, es[..|es| - 1]), es[|es| - 1]);
    }
  }

  /**
   * In every interleaving: a mark equal to the fingerprint of the stored credentials means the server holds exactly
   * them.
   */
  lemma MarkTellsTruth(d: Digest, w: World, es: seq<Event>)
    requires CollisionFree(d) && Start(d, w) && AllowedRun(d, w, es) && Synced(d, Run(d, w, es))
    ensures var v := Run(d, w, es); Holds(v, Stored(v).value)
  {
    InvRun(d, w, es);
  }

  /** And a call that returned without error returned credentials the server holds. */
  lemma SuccessMeansHeld(d: Digest, w: World, es: seq<Event>)
    requires CollisionFree(d) && Start(d, w) && AllowedRun(d, w, es) && Run(d, w, es).op.Returned?
    ensures Holds(Run(d, w, es), Run(d, w, es).op.creds)
  {
    InvRun(d, w, es);
  }

  // --- Where credentials come from ---

  /** Others stored these credentials in the run. */
  ghost predicate Brought(es: seq<Event>, c: Creds) {
    exists e :: e in es && e.OthersWrite? && e.secret.Some? && e.secret.value.Pair() == Some(c)
  }

  /** A call of the run generated this password. */
  ghost predicate Drawn(es: seq<Event>, password: string) {
    exists e :: e in es && e.CreateSecret? && e.password == password
  }

  /** Known at first, stored by others, or the backup's own name with a generated password. */
  ghost predicate Accounted(w: World, es: seq<Event>, c: Creds) {
    c in w.seen || Brought(es, c) || (c.user == w.name && Drawn(es, c.pass))
  }

  /** Others gave the server this user and password, or another server with them. */
  ghost predicate GivenByOthers(es: seq<Event>, c: Creds) {
    exists e :: e in es && (e == OtherUser(c.user, Some(c.pass))
                            || (e.Repoint? && c.user in e.server && e.server[c.user] == c.pass))
  }

  /** What a call works with has been stored. */
  predicate CredsSeen(w: World) {
    && (Stored(w).Some? ==> Stored(w).value in w.seen)
    && (w.op.AtPod? || w.op.AtExec? || w.op.AtRollback? || w.op.AtPatch? || w.op.Returned? ==> w.op.creds in w.seen)
  }

  lemma OriginsStep(d: Digest, w: World, e: Event)
    requires CredsSeen(w)
    ensures var v := Step(d, w, e);
            && CredsSeen(v) && v.name == w.name
            && (forall c :: c in v.seen && c !in w.seen ==> Brought([e], c) || (c.user == w.name && Drawn([e], c.pass)))
            && (forall c: Creds :: Holds(v, c) && !Holds(w, c) ==> c in w.seen || GivenByOthers([e], c))
  {
    assert e in [e];
  }

  lemma AccountedMore(w: World, es: seq<Event>, e: Event, c: Creds)
    requires Accounted(w, es, c) || Brought([e], c) || (c.user == w.name && Drawn([e], c.pass))
    ensures Accounted(w, es + [e], c)
  {
    var all := es + [e];
    assert forall x :: x in all <==> x in es || x in [e];
  }

  lemma GivenMore(es: seq<Event>, e: Event, c: Creds)
    requires GivenByOthers(es, c) || GivenByOthers([e], c)
    ensures GivenByOthers(es + [e], c)
  {
    var all := es + [e];
    assert forall x :: x in all <==> x in es || x in [e];
  }

  lemma {:induction false} OriginsRun(d: Digest, w: World, es: seq<Event>, c: Creds)
    requires CredsSeen(w)
    ensures CredsSeen(Run(d, w, es)) && Run(d, w, es).name == w.name
    ensures c in Run(d, w, es).seen ==> Accounted(w, es, c)
    ensures Holds(Run(d, w, es), c) ==> Holds(w, c) || GivenByOthers(es, c) || Accounted(w, es, c)
  {
    if es != [] {
      var before, e := es[..|es| - 1], es[|es| - 1];
      assert es == before + [e];
      var v := Run(d, w, before);
      OriginsRun(d, w, before, c);
      OriginsStep(d, v, e);
      if c in Run(d, w, es).seen { AccountedMore(w, before, e, c); }
      if c in v.seen { AccountedMore(w, before, e, c); }
      if GivenByOthers(before, c) || GivenByOthers([e], c) { GivenMore(before, e, c); }
    }
  }

  /**
   * Over every run, whatever fails and whoever writes: the server holds a pair only if it did at first,
   * others put it there, it was known or stored by others, or its user is the name computed for the
   * backup and its password one that a call generated.
   */
  lemma ServerAccounted(d: Digest, w: World, es: seq<Event>, c: Creds)
    requires Start(d, w) && Holds(Run(d, w, es), c)
    ensures || Holds(w, c) || GivenByOthers(es, c) || c in w.seen || Brought(es, c)
            || (c.user == w.name && Drawn(es, c.pass))
  {
    OriginsRun(d, w, es, c);
  }

  // --- Values that are never reused ---

  /** Every mark was made from credentials that were stored once. */
  ghost predicate MarkSeen(d: Digest, w: World) {
    w.secret.Some? && w.secret.value.synced.Some? ==>
      exists c :: c in w.seen && w.secret.value.synced == Some(Fingerprint(d, c))
  }

  /** Others never write a mark of their own, and never bring back credentials stored earlier. */
  predicate NoReuse(w: World, s: Option<Secret>) {
    s.Some? ==>
      && (s.value.user.Some? ==> Clean(s.value.user.value))
      && (s.value.synced.Some? ==> w.secret.Some? && s.value.synced == w.secret.value.synced)
      && (s.value.Pair().Some? ==> s.value.Pair() == Stored(w) || s.value.Pair().value !in w.seen)
  }

  predicate NoReuseRun(d: Digest, w: World, es: seq<Event>) {
    es == [] ||
    (NoReuseRun(d, w, es[..|es| - 1])
     && !es[|es| - 1].Repoint?
     && (es[|es| - 1].OthersWrite? ==> NoReuse(Run(d, w, es[..|es| - 1]), es[|es| - 1].secret)))
  }

  lemma NoReuseGuarded(d: Digest, w: World, s: Option<Secret>)
    requires CollisionFree(d) && Tracked(w) && MarkSeen(d, w) && NoReuse(w, s)
    ensures Guarded(d, w, s)
  {
    if s.Some? && Marked(d, s.value) {
      var c :| c in w.seen && w.secret.value.synced == Some(Fingerprint(d, c));
      FingerprintInjective(d, c, s.value.Pair().value);
      assert s.value.Pair() == Stored(w);
    }
  }

  lemma MarkSeenStep(d: Digest, w: World, e: Event)
    requires Tracked(w) && MarkSeen(d, w) && (e.OthersWrite? ==> NoReuse(w, e.secret))
    ensures MarkSeen(d, Step(d, w, e))
  {
    var v := Step(d, w, e);
    if v.secret.Some? && v.secret.value.synced.Some? {
      if e.Patch? && w.op.AtPatch? && v.secret != w.secret {
        assert w.op.creds in v.seen;
      } else {
        var c :| c in w.seen && w.secret.value.synced == Some(Fingerprint(d, c));
        assert c in v.seen;
      }
    }
  }

  /** If values are never reused every run is allowed, so the mark tells the truth. */
  lemma {:induction false} NoReuseAllowed(d: Digest, w: World, es: seq<Event>)
    requires CollisionFree(d) && Start(d, w) && MarkSeen(d, w) && NoReuseRun(d, w, es)
    ensures AllowedRun(d, w, es) && Inv(d, Run(d, w, es)) && MarkSeen(d, Run(d, w, es))
  {
    if es != [] {
      var before := es[..|es| - 1];
      NoReuseAllowed(d, w, before);
      var v := Run(d, w, before);
      if es[|es| - 1].OthersWrite? {
        NoReuseGuarded(d, v, es[|es| - 1].secret);
      }
      MarkSeenStep(d, v, es[|es| - 1]);
      InvStep(d, v, es[|es| - 1]);
    }
  }

  // --- Where the mark misleads ---

  /** A failed patch can cost more than one redundant command: an earlier password comes back unnoticed. */
  lemma RestoredPasswordMissed(d: Digest, w: World) returns (es: seq<Event>)
    requires CollisionFree(d)
    requires w.op.Returned? && Synced(d, w) && Holds(w, Stored(w).value) && w.op.creds == Stored(w).value
    ensures var v := Run(d, w, es);
            v.op == Returned(Stored(w).value) && v.secret == w.secret && !Holds(v, Stored(w).value)
  {
    var s := w.secret.value;
    var c := Stored(w).value;
    var other := Creds(c.user, c.pass + "x");
    assert other.pass != c.pass;
    var s1 := Secret(Some(c.user), Some(other.pass), s.synced);
    var e1, e2, e3 := OthersWrite(Some(s1)), Begin, GetSecret(true);
    var e4, e5, e6 := FindPod(true), Exec(true, true), Patch(false, false);
    var e7 := OthersWrite(Some(s));
    var w1 := Step(d, w, e1);
    if Marked(d, s1) {
      SameDigest(d, c, other);
    }
    var w3 := Step(d, Step(d, w1, e2), e3);
    assert w3.op == AtPod(other, false);
    var w6 := Step(d, Step(d, Step(d, w3, e4), e5), e6);
    assert w6.server[c.user] == other.pass && w6.secret == Some(s1);
    es := Extend(d, w, [], [e1, e2, e3]);
    es := Extend(d, w, es, [e4, e5, e6]);
    es := Extend(d, w, es, [e7, e2, e3]);
  }

  /** Three steps more. */
  lemma Extend(d: Digest, w: World, es: seq<Event>, three: seq<Event>) returns (all: seq<Event>)
    requires |three| == 3
    ensures Run(d, w, all) == Step(d, Step(d, Step(d, Run(d, w, es), three[0]), three[1]), three[2])
  {
    Append(d, w, es, three[0]);
    Append(d, w, es + [three[0]], three[1]);
    Append(d, w, es + [three[0]] + [three[1]], three[2]);
    all := es + [three[0]] + [three[1]] + [three[2]];
  }

  lemma SameDigest(d: Digest, c: Creds, other: Creds)
    requires CollisionFree(d) && c.user == other.user && Fingerprint(d, c) == Fingerprint(d, other)
    ensures c.pass == other.pass
  {
    var x := c.user + "\0" + c.pass;
    assert x == other.user + "\0" + other.pass;
    assert c.pass == x[|c.user| + 1..] && other.pass == x[|c.user| + 1..];
  }

  lemma Append(d: Digest, w: World, es: seq<Event>, e: Event)
    ensures Run(d, w, es + [e]) == Step(d, Run(d, w, es), e)
  {
    assert (es + [e])[..|es|] == es;
  }

  /**
   * One call of EnsureUser in which every step succeeds and nobody interferes; steps that do not apply change nothing.
   */
  function Called(d: Digest, w: World): World {
    var v := Step(d, Step(d, w, Begin), GetSecret(true));
    Step(d, Step(d, Step(d, v, FindPod(true)), Exec(true, true)), Patch(true, true))
  }

  /**
   * After an undisturbed call the server holds the stored credentials exactly when the mark did not fit or it held them
   * before.
   */
  lemma CallHoldsIff(d: Digest, w: World)
    requires (w.op.Idle? || w.op.Returned?) && Stored(w).Some?
    ensures var v := Called(d, w);
            && v.op == Returned(Stored(w).value) && Stored(v) == Stored(w)
            && (Holds(v, Stored(w).value) <==> !Synced(d, w) || Holds(w, Stored(w).value))
  {
    var v := Step(d, Step(d, w, Begin), GetSecret(true));
    if Synced(d, w) {
      assert v == w.(op := Returned(Stored(w).value));
    } else {
      assert v == w.(op := AtPod(Stored(w).value, false));
      var x := Step(d, Step(d, v, FindPod(true)), Exec(true, true));
      assert x.op == AtPatch(Stored(w).value) && Holds(x, Stored(w).value) && x.secret == w.secret;
    }
  }

  /**
   * Exactly when a changed password reaches the server. At any point of an allowed run where a call
   * has returned the stored credentials, others change the password alone; after the next undisturbed
   * call the server holds the new pair unless the mark, left from before, is the fingerprint of it.
   */
  lemma ChangedPasswordHeldIff(d: Digest, w: World, es: seq<Event>, pass: string)
    requires CollisionFree(d) && Start(d, w) && AllowedRun(d, w, es)
    requires var v := Run(d, w, es); Stored(v).Some? && v.op == Returned(Stored(v).value)
    ensures var v := Run(d, w, es);
            var c := Creds(Stored(v).value.user, pass);
            var u := Step(d, v, OthersWrite(Some(v.secret.value.(pass := Some(pass)))));
            && Stored(u) == Some(c)
            && (Holds(Called(d, u), c) <==> pass == Stored(v).value.pass
                                            || v.secret.value.synced != Some(Fingerprint(d, c)))
  {
    InvRun(d, w, es);
    PasswordWritten(d, Run(d, w, es), pass);
  }

  lemma PasswordWritten(d: Digest, v: World, pass: string)
    requires Stored(v).Some? && v.op == Returned(Stored(v).value) && Holds(v, Stored(v).value)
    ensures var c := Creds(Stored(v).value.user, pass);
            var u := Step(d, v, OthersWrite(Some(v.secret.value.(pass := Some(pass)))));
            && Stored(u) == Some(c)
            && (Holds(Called(d, u), c) <==> pass == Stored(v).value.pass
                                            || v.secret.value.synced != Some(Fingerprint(d, c)))
  {
    var u := Step(d, v, OthersWrite(Some(v.secret.value.(pass := Some(pass)))));
    assert u.server == v.server && u.op == v.op && u.secret.value.synced == v.secret.value.synced;
    CallHoldsIff(d, u);
  }

  /**
   * Exactly when a move to another server leaves the credentials there: the mark did not fit, or that
   * server held them already. A fitting mark makes the call succeed without touching it.
   */
  lemma MoveNoticedIff(d: Digest, w: World, server: map<string, string>)
    requires (w.op.Idle? || w.op.Returned?) && Stored(w).Some?
    ensures var u := Step(d, w, Repoint(server));
            var v := Called(d, u);
            && v.op == Returned(Stored(w).value)
            && (Holds(v, Stored(w).value) <==> !Synced(d, w) || Holds(u, Stored(w).value))
            && (Synced(d, w) ==> v.server == server && v.execs == w.execs)
  {
    CallHoldsIff(d, Step(d, w, Repoint(server)));
  }

  /** The patch touches the mark alone, and makes it fit the credentials of the call if they are stored. */
  lemma PatchLeaves(d: Digest, w: World, effect: bool, ok: bool)
    requires w.op.AtPatch?
    ensures var v := Step(d, w, Patch(effect, ok));
            && v.op == Returned(w.op.creds) && v.name == w.name && v.execs == w.execs && SameButMark(w.secret, v.secret)
            && ((effect || ok) && Stored(w) == Some(w.op.creds) ==> Synced(d, v))
  {
  }

  // --- The call as the source writes it ---

  datatype Result = Success(creds: Creds) | ServerNotReady | Error | Crashed

  /**
   * What the world has in store at a step: the outcome of a call, for an exec whether it failed for want of the
   * container, a crash, the fresh password, and what others do before it.
   */
  datatype Reply = Reply(ok: bool, noContainer: bool, effect: bool, crash: bool, password: string,
                         written: Option<Option<Secret>>, user: string, pass: Option<string>)

  /** Calls take the outcome the world has for them, and crashes are its doing. */
  predicate Honest(e: Event, r: Reply) {
    match e
    case GetSecret(ok) => ok == r.ok
    case CreateSecret(password, effect, ok) => password == r.password && effect == r.effect && ok == r.ok
    case FindPod(ok) => ok == r.ok
    case Exec(effect, ok) => effect == r.effect && ok == r.ok
    case Rollback(effect, ok) => effect == r.effect && ok == r.ok
    case Patch(effect, ok) => effect == r.effect && ok == r.ok
    case Crash => r.crash
    case _ => true
  }

  /** Some call from step `i` on, up to step `j`, failed or met a crash or a write by others. */
  ghost predicate Trouble(replies: nat -> Reply, i: nat, j: nat) {
    exists k :: i <= k < j && (!replies(k).ok || replies(k).crash || replies(k).written.Some?)
  }

  /** Nobody else writes the secret from step `i` on, up to step `j`. */
  ghost predicate Undisturbed(replies: nat -> Reply, i: nat, j: nat) {
    forall k :: i <= k < j ==> replies(k).written.None?
  }

  /** Equal but for the mark. */
  predicate SameButMark(a: Option<Secret>, b: Option<Secret>) {
    && (a.Some? <==> b.Some?)
    && (a.Some? ==> a.value.user == b.value.user && a.value.pass == b.value.pass)
  }

  /** The password was generated at one of these steps. */
  ghost predicate DrawnAt(replies: nat -> Reply, i: nat, j: nat, password: string) {
    exists k :: i <= k < j && replies(k).password == password
  }

  /** An exec failed at one of these steps, for want of its container or not. */
  ghost predicate ExecFailed(replies: nat -> Reply, i: nat, j: nat, noContainer: bool) {
    exists k :: i <= k < j && !replies(k).ok && replies(k).noContainer == noContainer
  }

  /** A user manager at work on one backup; `trace` is what has happened since `start`. */
  class UserManager {
    const digest: Digest
    const replies: nat -> Reply
    var w: World
    var steps: nat
    ghost const start: World
    ghost var trace: seq<Event>

    ghost predicate Valid()
      reads this
    {
      Start(digest, start) && steps == |trace| && AllowedRun(digest, start, trace) && w == Run(digest, start, trace)
    }

    constructor (digest: Digest, w: World, replies: nat -> Reply)
      requires Start(digest, w)
      ensures Valid() && this.w == w && this.digest == digest && this.replies == replies
    {
      this.digest, this.replies, this.w, steps, start, trace := digest, replies, w, 0, w, [];
    }

    method Do(e: Event)
      requires Valid() && Allowed(digest, w, e) && Honest(e, replies(steps))
      modifies this
      ensures Valid() && trace == old(trace) + [e] && w == Step(digest, old(w), e) && steps == old(steps) + 1
    {
      w := Step(digest, w, e);
      trace := trace + [e];
      steps := steps + 1;
      assert trace[..|trace| - 1] == old(trace);
    }

    /** Others write the secret, within what is allowed, or the users of other backups change. */
    method Interfere()
      requires Valid()
      modifies this
      ensures Valid() && old(trace) <= trace && old(steps) < steps
      ensures w.op == old(w.op) && w.name == old(w.name) && w.execs == old(w.execs)
      ensures w.secret == old(w.secret) || Trouble(replies, old(steps), steps)
      ensures Undisturbed(replies, old(steps), steps) ==> w.secret == old(w.secret)
    {
      var r := replies(steps);
      ghost var k := steps;
      Do(OtherUser(r.user, r.pass));
      if r.written.Some? && Guarded(digest, w, r.written.value) {
        Do(OthersWrite(r.written.value));
        assert old(steps) <= k < steps && replies(k).written.Some?;
      }
    }

    /**
     * EnsureUser: a call that succeeds has left its credentials on the server; it fails only over a call, a write or a
     * broken secret. Undisturbed, an existing secret keeps its credentials and a success returns them; without one a
     * success has stored the computed name with a generated password, and a failure takes its secret away again, unless
     * its last call was the rollback and failed, or the creation and took effect all the same.
     */
    method EnsureUser() returns (r: Result)
      requires Valid() && CollisionFree(digest) && (w.op.Idle? || w.op.Returned?)
      modifies this
      ensures Valid() && old(trace) <= trace && old(steps) <= steps
      ensures r.Success? ==> w.op == Returned(r.creds) && Holds(w, r.creds)
      ensures !r.Success? ==> w.op.Idle?
      ensures w.execs <= old(w.execs) + 1
      ensures !r.Success? && (old(w.secret).Some? ==> old(w.secret.value).Pair().Some?) ==>
          Trouble(replies, old(steps), steps)
      ensures w.name == old(w.name)
      ensures Undisturbed(replies, old(steps), steps) ==> Outcome(r, old(w), old(steps))
    {
      var getOk, secret := ReadSecret();
      if !getOk { return Error; }
      if secret.None? {
        r := NewSecret();
      } else {
        r := ReuseSecret(secret.value);
      }
    }

    /** The call begins and reads the secret. */
    method ReadSecret() returns (ok: bool, secret: Option<Secret>)
      requires Valid() && (w.op.Idle? || w.op.Returned?)
      modifies this
      ensures Valid() && old(trace) <= trace && old(steps) < steps && w.name == old(w.name) && w.execs == old(w.execs)
      ensures secret == w.secret && w.op == if ok then AfterGet(digest, w) else Idle
      ensures !ok ==> Trouble(replies, old(steps), steps)
      ensures w.secret == old(w.secret) || Trouble(replies, old(steps), steps)
      ensures Undisturbed(replies, old(steps), steps) ==> w.secret == old(w.secret)
    {
      Do(Begin);
      Interfere();
      ok, secret := replies(steps).ok, w.secret;
      ghost var k := steps;
      Do(GetSecret(ok));
      assert !ok ==> old(steps) <= k < steps && !replies(k).ok;
    }

    /** What an undisturbed call that began in world `was` at step `i` has left behind. */
    ghost predicate Outcome(r: Result, was: World, i: nat)
      reads this
    {
      && (was.secret.Some? ==> SameButMark(was.secret, w.secret))
      && (was.secret.Some? && was.secret.value.Pair().None? ==> !r.Success? && w.execs == was.execs)
      && (was.secret.None? && r.Success? ==> r.creds.user == w.name && DrawnAt(replies, i, steps, r.creds.pass))
      && (was.secret.None? && !r.Success? && !r.Crashed? ==> w.secret.None? || RollbackFailed() || CreateFailed())
      && (r.Success? ==> Stored(w) == Some(r.creds) && (Synced(digest, w) || PatchFailed()))
    }

    /** The last call was the deletion of a fresh secret, and failed without effect. */
    ghost predicate RollbackFailed()
      reads this
    {
      trace != [] && trace[|trace| - 1] == Rollback(false, false)
    }

    /** The last call was the creation of the secret, and failed although it took effect. */
    ghost predicate CreateFailed()
      reads this
    {
      trace != [] && trace[|trace| - 1].CreateSecret? && trace[|trace| - 1].effect && !trace[|trace| - 1].ok
    }

    /** The last call was the patch of the mark, and failed without effect. */
    ghost predicate PatchFailed()
      reads this
    {
      trace != [] && trace[|trace| - 1] == Patch(false, false)
    }

    /** The branch without a secret: a fresh password, stored before the server hears of it. */
    method NewSecret() returns (r: Result)
      requires Valid() && CollisionFree(digest) && w.op.AtCreate? && w.secret.None?
      modifies this
      ensures Valid() && old(trace) <= trace && old(steps) <= steps
      ensures r.Success? ==> w.op == Returned(r.creds) && Holds(w, r.creds)
      ensures !r.Success? ==> w.op.Idle? && Trouble(replies, old(steps), steps)
      ensures w.execs <= old(w.execs) + 1 && w.name == old(w.name)
      ensures Undisturbed(replies, old(steps), steps) ==> Outcome(r, old(w), old(steps))
    {
      Interfere();
      var a := replies(steps);
      ghost var k := steps;
      var present := w.secret.Some?;
      Do(CreateSecret(a.password, a.effect, a.ok));
      if present || !a.ok {
        assert !a.ok ==> old(steps) <= k < steps && !replies(k).ok;
        return Error;
      }
      r := CreateUserOnServer(Creds(w.name, a.password), true);
    }

    /** The branch for an existing secret: nothing to run if its mark fits. */
    method ReuseSecret(secret: Secret) returns (r: Result)
      requires Valid() && CollisionFree(digest) && w.secret == Some(secret) && w.op == AfterGet(digest, w)
      modifies this
      ensures Valid() && old(trace) <= trace && old(steps) <= steps
      ensures r.Success? ==> w.op == Returned(r.creds) && Holds(w, r.creds)
      ensures !r.Success? ==> w.op.Idle? && (secret.Pair().None? || Trouble(replies, old(steps), steps))
      ensures w.execs <= old(w.execs) + 1 && w.name == old(w.name)
      ensures Marked(digest, secret) ==> r.Success? && w == old(w)
      ensures Undisturbed(replies, old(steps), steps) ==> Outcome(r, old(w), old(steps))
    {
      var username, pass := secret.user, secret.pass;
      if username.None? { return Error; }
      if pass.None? { return Error; }
      var c := Creds(username.value, pass.value);
      if secret.synced == Some(Fingerprint(digest, c)) {
        SuccessMeansHeld(digest, start, trace);
        return Success(c);
      }
      r := CreateUserOnServer(c, false);
    }

    /** The server command, the rollback of a fresh secret on failure, the mark on success. */
    method CreateUserOnServer(c: Creds, created: bool) returns (r: Result)
      requires Valid() && CollisionFree(digest) && w.op == AtPod(c, created) && Stored(w) == Some(c)
      modifies this
      ensures Valid() && old(trace) <= trace && old(steps) <= steps
      ensures r.Success? ==> w.op == Returned(c) && r.creds == c && Holds(w, c)
      ensures !r.Success? ==> w.op.Idle? && Trouble(replies, old(steps), steps)
      ensures w.execs <= old(w.execs) + 1 && w.name == old(w.name)
      ensures Undisturbed(replies, old(steps), steps) ==> Left(r, old(w.secret), created)
      ensures r.ServerNotReady? ==> w.execs == old(w.execs) || ExecFailed(replies, old(steps), steps, true)
      ensures r.Error? ==> w.execs == old(w.execs) + 1 && ExecFailed(replies, old(steps), steps, false)
    {
      Interfere();
      var podOk := replies(steps).ok;
      ghost var k := steps;
      Do(FindPod(podOk));
      if !podOk {
        assert old(steps) <= k < steps && !replies(k).ok;
        if created { RollBack(); }
        return ServerNotReady;
      }
      r := RunCommand(c, created);
    }

    /** The secret after the server command: taken away again if this call made it and failed, else kept. */
    ghost predicate Left(r: Result, was: Option<Secret>, created: bool)
      reads this
    {
      && (r.Success? || !created ==> SameButMark(was, w.secret))
      && (r.Success? ==> Synced(digest, w) || PatchFailed())
      && (!r.Success? && !r.Crashed? && created ==> w.secret.None? || RollbackFailed())
    }

    /** The exec in the server's pod. */
    method RunCommand(c: Creds, created: bool) returns (r: Result)
      requires Valid() && CollisionFree(digest) && w.op == AtExec(c, created)
      modifies this
      ensures Valid() && old(trace) <= trace && old(steps) <= steps
      ensures r.Success? ==> w.op == Returned(c) && r.creds == c && Holds(w, c)
      ensures !r.Success? ==> w.op.Idle? && Trouble(replies, old(steps), steps)
      ensures w.execs <= old(w.execs) + 1 && w.name == old(w.name)
      ensures Undisturbed(replies, old(steps), steps) && old(Stored(w)) == Some(c) ==> Left(r, old(w.secret), created)
      ensures r.ServerNotReady? || r.Error? ==>
          w.execs == old(w.execs) + 1 && ExecFailed(replies, old(steps), steps, r.ServerNotReady?)
    {
      Interfere();
      var a := replies(steps);
      ghost var k := steps;
      if a.crash {
        Do(Crash);
        assert old(steps) <= k < steps && replies(k).crash;
        return Crashed;
      }
      Do(Exec(a.effect, a.ok));
      if !a.ok {
        assert old(steps) <= k < steps && !replies(k).ok;
        if created { RollBack(); }
        return if a.noContainer then ServerNotReady else Error;
      }
      r := MarkUserSynced(c);
    }

    /** markUserSynced: a patch of the mark alone, whose failure is not reported. */
    method MarkUserSynced(c: Creds) returns (r: Result)
      requires Valid() && CollisionFree(digest) && w.op == AtPatch(c)
      modifies this
      ensures Valid() && old(trace) <= trace && w.execs == old(w.execs) && old(steps) <= steps
      ensures r == Success(c) || (r.Crashed? && Trouble(replies, old(steps), steps))
      ensures r.Success? ==> w.op == Returned(c) && Holds(w, c)
      ensures r.Crashed? ==> w.op.Idle?
      ensures w.name == old(w.name)
      ensures Undisturbed(replies, old(steps), steps) ==> SameButMark(old(w.secret), w.secret)
      ensures Undisturbed(replies, old(steps), steps) && old(Stored(w)) == Some(c) && r.Success? ==>
          Synced(digest, w) || PatchFailed()
    {
      Interfere();
      var a := replies(steps);
      ghost var k := steps;
      if a.crash {
        Do(Crash);
        assert old(steps) <= k < steps && replies(k).crash;
        return Crashed;
      }
      PatchSecret();
      SuccessMeansHeld(digest, start, trace);
      return Success(c);
    }

    method PatchSecret()
      requires Valid() && w.op.AtPatch?
      modifies this
      ensures Valid() && old(trace) <= trace && w.name == old(w.name) && w.execs == old(w.execs)
      ensures old(steps) < steps && w.op == Returned(old(w.op.creds)) && SameButMark(old(w.secret), w.secret)
      ensures old(Stored(w)) == Some(old(w.op.creds)) ==> Synced(digest, w) || PatchFailed()
    {
      var a := replies(steps);
      PatchLeaves(digest, w, a.effect, a.ok);
      Do(Patch(a.effect, a.ok));
    }

    method RollBack()
      requires Valid() && w.op.AtRollback?
      modifies this
      ensures Valid() && old(trace) <= trace && w.op.Idle? && w.execs == old(w.execs) && old(steps) <= steps
      ensures w.name == old(w.name) && (w.secret.None? || RollbackFailed())
    {
      Interfere();
      var a := replies(steps);
      Do(Rollback(a.effect, a.ok));
    }
  }
}
