/**
 * The server's TLS secret (EnsureTLSSecret, certNeedsRotation and generateSelfSignedCert in
 * internal/kopia/server/manager.go) as a timed machine. Every client call is one step that may fail,
 * with or without having taken effect; the clock may advance before any step and the operator may
 * crash after any step. Times are nanoseconds; a certificate records whole seconds (section 4.1.2.5
 * of RFC 5280).
 */
module Tls {
  import opened Options

  const SECOND: int := 1_000_000_000
  const DAY_SECONDS: int := 86_400
  const VALIDITY: int := 365 * DAY_SECONDS * SECOND
  const RENEW_BEFORE: int := 30 * DAY_SECONDS * SECOND
  const SPACING: int := 335 * DAY_SECONDS

  datatype Cert = Cert(serial: nat, notAfter: int)

  /** Contents of `tls.crt`. */
  datatype Pem = Certificate(cert: Cert) | Garbage

  /** Digest of a certificate; the constructor keeps different certificates apart. */
  datatype Fingerprint = Sha256(cert: Cert)

  datatype Secret = Secret(crt: Option<Pem>, hasKey: bool, fingerprint: Option<Fingerprint>)

  /** `calculateCertFingerprint` */
  function FingerprintOf(p: Pem): Option<Fingerprint> {
    if p.Certificate? then Some(Sha256(p.cert)) else None
  }

  /** `certNeedsRotation` with the clock reading `now`. */
  predicate NeedsRotation(p: Pem, now: int) {
    if p.Garbage? then true
    else
      var remaining := p.cert.notAfter * SECOND - now;
      remaining <= 0 || remaining < RENEW_BEFORE
  }

  /** The certificate generated at `now`: expiry is cut to whole seconds. */
  function Generated(serial: nat, now: int): Cert {
    Cert(serial, (now + VALIDITY) / SECOND)
  }

  function AutoSecret(c: Cert): Secret {
    Secret(Some(Certificate(c)), true, Some(Sha256(c)))
  }

  /** A secret a server can start with: a key, and a certificate that parses. */
  predicate Usable(s: Option<Secret>) {
    s.Some? && s.value.hasKey && s.value.crt.Some? && s.value.crt.value.Certificate?
  }

  /** A usable secret whose certificate and fingerprint key both show `f`. */
  predicate Complete(s: Option<Secret>, f: Fingerprint) {
    Usable(s) && s.value.crt.value.cert == f.cert && s.value.fingerprint == Some(f)
  }

  /** At least thirty days are left at time `t`. */
  predicate Lasting(f: Fingerprint, t: int) {
    f.cert.notAfter * 1_000_000_000 - t >= 30 * 86_400 * 1_000_000_000
  }

  /** Where a call of EnsureTLSSecret stands. `Returned` keeps its result and its last clock reading. */
  datatype Op =
    | Idle
    | AtGet
    | AtCheck(secret: Secret)
    | AtDelete
    | AtGenerate
    | AtCreate(cert: Cert, generatedAt: int)
    | Returned(fingerprint: Fingerprint, readAt: int)

  /** `made` lists the generation times of all certificates ever stored by the operator. */
  datatype World = World(userProvided: bool, now: int, store: Option<Secret>, op: Op, made: seq<int>)

  datatype Event =
    | Tick(elapsed: nat)
    | Begin
    | Get(ok: bool)
    | Check
    | Delete(effect: bool, ok: bool)
    | Generate(serial: nat)
    | Create(effect: bool, ok: bool)
    | Crash
    | UserWrites(secret: Option<Secret>)

  /** What the call does with the secret it read. */
  function AfterGet(w: World): Op {
    if w.store.None? then
      if w.userProvided then Idle else AtGenerate
    else
      var s := w.store.value;
      if w.userProvided then
        if s.crt.None? || !s.hasKey || FingerprintOf(s.crt.value).None? then Idle
        else Returned(FingerprintOf(s.crt.value).value, w.now)
      else if s.crt.Some? then AtCheck(s)
      else AtGenerate
  }

  /** Rotation, the stored fingerprint, or a fingerprint computed from the certificate. */
  function AfterCheck(s: Secret, now: int): Op
    requires s.crt.Some?
  {
    if NeedsRotation(s.crt.value, now) then AtDelete
    else if s.fingerprint.Some? then Returned(s.fingerprint.value, now)
    else Returned(FingerprintOf(s.crt.value).value, now)
  }

  /** One step; an event that is not possible changes nothing. */
  function Step(w: World, e: Event): World {
    match e
    case Tick(elapsed) => w.(now := w.now + elapsed)
    case Begin => if w.op.Idle? || w.op.Returned? then w.(op := AtGet) else w
    case Get(ok) => if !w.op.AtGet? then w else if !ok then w.(op := Idle) else w.(op := AfterGet(w))
    case Check => if w.op.AtCheck? && w.op.secret.crt.Some? then w.(op := AfterCheck(w.op.secret, w.now)) else w
    case Delete(effect, ok) =>
      if !w.op.AtDelete? then w
      else
        var done := ok && w.store.Some?;
        w.(store := if effect || done then None else w.store, op := if done then AtGenerate else Idle)
    case Generate(serial) => if w.op.AtGenerate? then w.(op := AtCreate(Generated(serial, w.now), w.now)) else w
    case Create(effect, ok) =>
      if !w.op.AtCreate? then w
      else if w.store.Some? || !(effect || ok) then w.(op := Idle)
      else
        w.(store := Some(AutoSecret(w.op.cert)), made := w.made + [w.op.generatedAt],
           op := if ok then Returned(Sha256(w.op.cert), w.op.generatedAt) else Idle)
    case Crash => w.(op := Idle)
    case UserWrites(secret) => if w.userProvided then w.(store := secret) else w
  }

  function Run(w: World, es: seq<Event>): World {
    if es == [] then w else Step(Run(w, es[..|es| - 1]), es[|es| - 1])
  }

  lemma Append(w: World, es: seq<Event>, e: Event)
    ensures Run(w, es + [e]) == Step(Run(w, es), e)
  {
    assert (es + [e])[..|es|] == es;
  }

  /** Before the operator ever acted. */
  predicate Fresh(w: World) {
    w.op.Idle? && w.made == [] && (!w.userProvided ==> w.store.None?)
  }

  // --- Automatic certificates ---

  /** The last certificate was inside its renewal window at time `t`, or there was none. */
  predicate Due(made: seq<int>, t: int) {
    made != [] ==> (made[|made| - 1] + VALIDITY) / SECOND * SECOND - RENEW_BEFORE < t
  }

  /** Consecutive certificates are at least 335 days apart, counted in whole seconds. */
  predicate Spaced(made: seq<int>) {
    forall i :: 0 <= i < |made| - 1 ==> made[i] / SECOND + SPACING <= made[i + 1] / SECOND
  }

  /** The stored secret is the operator's latest: its fingerprint key is that of its certificate. */
  predicate StoreSound(w: World) {
    w.store.Some? ==>
      && w.made != []
      && Usable(w.store) && w.store.value.fingerprint == Some(Sha256(w.store.value.crt.value.cert))
      && w.store.value.crt.value.cert.notAfter == (w.made[|w.made| - 1] + VALIDITY) / SECOND
  }

  predicate OpSound(w: World) {
    match w.op
    case AtCheck(s) => w.store == Some(s)
    case AtDelete => Due(w.made, w.now)
    case AtGenerate => w.store.None?
    case AtCreate(c, g) => w.store.None? && g <= w.now && Due(w.made, g) && c.notAfter == (g + VALIDITY) / SECOND
    case Returned(f, t) =>
      && t <= w.now
      && w.store.Some? && w.store.value.fingerprint == Some(f)
      && Lasting(f, t)
    case _ => true
  }

  /** What every run keeps for an automatic secret. */
  predicate AutoInv(w: World) {
    && !w.userProvided
    && Spaced(w.made)
    && StoreSound(w)
    && (w.store.None? ==> Due(w.made, w.now))
    && OpSound(w)
  }

  lemma DueSpaces(made: seq<int>, g: int)
    requires Spaced(made) && Due(made, g)
    ensures Spaced(made + [g])
  {
    if made != [] {
      var l := made[|made| - 1];
      assert (l + VALIDITY) / SECOND == l / SECOND + 365 * DAY_SECONDS;
      assert (l / SECOND + SPACING) * SECOND < g;
    }
  }

  lemma AutoCheck(w: World, e: Event)
    requires AutoInv(w) && (e.Get? || e.Check?)
    ensures AutoInv(Step(w, e))
  {
  }

  lemma AutoWrite(w: World, e: Event)
    requires AutoInv(w) && (e.Delete? || e.Generate? || e.Create?)
    ensures AutoInv(Step(w, e))
  {
    if e.Create? && w.op.AtCreate? {
      DueSpaces(w.made, w.op.generatedAt);
    }
  }

  lemma AutoStep(w: World, e: Event)
    requires AutoInv(w)
    ensures AutoInv(Step(w, e))
  {
    if e.Get? || e.Check? {
      AutoCheck(w, e);
    } else if e.Delete? || e.Generate? || e.Create? {
      AutoWrite(w, e);
    }
  }

  lemma {:induction false} AutoRun(w: World, es: seq<Event>)
    requires Fresh(w) && !w.userProvided
    ensures AutoInv(Run(w, es))
  {
    if es != [] {
      AutoRun(w, es[..|es| - 1]);
      AutoStep(Run(w, es[..|es| - 1]), es[|es| - 1]);
    }
  }

  lemma WholeYear(g: int)
    ensures (g + VALIDITY) / SECOND == g / 1_000_000_000 + 365 * 86_400
  {
  }

  /**
   * Every successful call leaves a certificate with its key and the returned fingerprint, made for 365
   * days at the last generation and with 30 days left.
   */
  lemma SuccessLeavesValidCert(w: World, es: seq<Event>)
    requires Fresh(w) && !w.userProvided && Run(w, es).op.Returned?
    ensures var v := Run(w, es);
            && Complete(v.store, v.op.fingerprint) && Lasting(v.op.fingerprint, v.op.readAt)
            && v.made != []
            && v.op.fingerprint.cert.notAfter == v.made[|v.made| - 1] / 1_000_000_000 + 365 * 86_400
  {
    AutoRun(w, es);
    var made := Run(w, es).made;
    WholeYear(made[|made| - 1]);
  }

  lemma {:induction false} SpacedApart(made: seq<int>, i: nat, j: nat)
    requires Spaced(made) && i <= j < |made|
    ensures made[i] / SECOND + (j - i) * SPACING <= made[j] / SECOND
    decreases j - i
  {
    if i < j {
      SpacedApart(made, i, j - 1);
      assert made[j - 1] / SECOND + SPACING <= made[(j - 1) + 1] / SECOND;
    }
  }

  /** In any span of `seconds`, a run stores at most one certificate more than the span has periods of 335 days. */
  lemma FewRotations(w: World, es: seq<Event>, i: nat, j: nat, seconds: nat)
    requires Fresh(w) && !w.userProvided
    requires i <= j < |Run(w, es).made|
    requires Run(w, es).made[j] / 1_000_000_000 - Run(w, es).made[i] / 1_000_000_000 <= seconds
    ensures j - i + 1 <= 1 + seconds / (335 * 86_400)
  {
    AutoRun(w, es);
    var made := Run(w, es).made;
    SpacedApart(made, i, j);
    Quotient(j - i, seconds);
  }

  lemma Quotient(n: nat, seconds: nat)
    requires n * SPACING <= seconds
    ensures n <= seconds / SPACING
  {
  }

  // --- User-provided certificates ---

  predicate UserInv(w: World) {
    && w.userProvided && w.made == []
    && !w.op.AtCheck? && !w.op.AtDelete? && !w.op.AtGenerate? && !w.op.AtCreate?
  }

  /** A secret named by the user is changed only by the user. */
  lemma UserSecretUntouched(w: World, e: Event)
    requires UserInv(w)
    ensures UserInv(Step(w, e))
    ensures !e.UserWrites? ==> Step(w, e).store == w.store
  {
  }

  lemma {:induction false} UserRun(w: World, es: seq<Event>)
    requires Fresh(w) && w.userProvided
    ensures UserInv(Run(w, es))
    ensures (forall e :: e in es ==> !e.UserWrites?) ==> Run(w, es).store == w.store
  {
    if es != [] {
      var before := es[..|es| - 1];
      UserRun(w, before);
      assert forall e :: e in before ==> e in es;
      UserSecretUntouched(Run(w, before), es[|es| - 1]);
    }
  }

  // --- The call as the source writes it ---

  /** The secret holds a certificate with this fingerprint. */
  predicate ShownBy(store: Option<Secret>, f: Fingerprint) {
    store.Some? && store.value.crt.Some? && FingerprintOf(store.value.crt.value) == Some(f)
  }

  datatype Result = Success(fingerprint: Fingerprint) | Error | Crashed

  /** What the world has in store at a step: the outcome of a call, a crash, time and a user's write before it. */
  datatype Reply = Reply(ok: bool, effect: bool, crash: bool, serial: nat, elapsed: nat,
                         written: Option<Option<Secret>>)

  /** Calls take the outcome the world has for them, and crashes are its doing. */
  predicate Honest(e: Event, r: Reply) {
    match e
    case Get(ok) => ok == r.ok
    case Delete(effect, ok) => effect == r.effect && ok == r.ok
    case Create(effect, ok) => effect == r.effect && ok == r.ok
    case Crash => r.crash
    case _ => true
  }

  /** Some call from step `i` on, up to step `j`, failed or met a crash. */
  ghost predicate Trouble(replies: nat -> Reply, i: nat, j: nat) {
    exists k :: i <= k < j && (!replies(k).ok || replies(k).crash)
  }

  /** A server manager at work on one repository; `trace` is what has happened since `start`. */
  class ServerManager {
    const replies: nat -> Reply
    var w: World
    var steps: nat
    ghost const start: World
    ghost var trace: seq<Event>

    ghost predicate Valid()
      reads this
    {
      Fresh(start) && steps == |trace| && w == Run(start, trace) && w.userProvided == start.userProvided
    }

    constructor (userProvided: bool, now: int, given: Option<Secret>, replies: nat -> Reply)
      ensures Valid() && w.op.Idle? && steps == 0 && this.replies == replies && w.userProvided == userProvided
      ensures userProvided ==> w.store == given
    {
      var w0 := World(userProvided, now, if userProvided then given else None, Idle, []);
      this.replies := replies;
      w, steps, start, trace := w0, 0, w0, [];
    }

    method Do(e: Event)
      requires Valid() && Honest(e, replies(steps))
      modifies this
      ensures Valid() && trace == old(trace) + [e] && w == Step(old(w), e) && steps == old(steps) + 1
    {
      w := Step(w, e);
      trace := trace + [e];
      steps := steps + 1;
      Append(start, old(trace), e);
    }

    /** Time passes; for a secret of the user's, the user may write it. */
    method Interfere()
      requires Valid()
      modifies this
      ensures Valid() && old(trace) <= trace
      ensures steps == old(steps) + if replies(old(steps)).written.None? then 1 else 2
      ensures w.op == old(w.op) && w.userProvided == old(w.userProvided) && w.made == old(w.made)
      ensures !w.userProvided || replies(old(steps)).written.None? ==> w.store == old(w.store)
    {
      var r := replies(steps);
      Do(Tick(r.elapsed));
      if r.written.Some? {
        Do(UserWrites(r.written.value));
      }
    }

    /**
     * EnsureTLSSecret; a crash may end it before any write. Success leaves a secret a server can start with. On a
     * secret of its own it fails only if a call does; on one of the user's, exactly when the read fails or the secret
     * lacks its key or a certificate that parses.
     */
    method EnsureTLSSecret() returns (r: Result)
      requires Valid() && (w.op.Idle? || w.op.Returned?)
      modifies this
      ensures Valid() && old(trace) <= trace && old(steps) <= steps
      ensures r.Success? ==> w.op.Returned? && w.op.fingerprint == r.fingerprint
      ensures !r.Success? ==> w.op.Idle?
      ensures w.userProvided == old(w.userProvided)
      ensures r.Success? ==> Usable(w.store) && ShownBy(w.store, r.fingerprint)
      ensures r.Success? && !w.userProvided ==>
        Complete(w.store, r.fingerprint) && Lasting(r.fingerprint, w.op.readAt)
      ensures !r.Success? && !w.userProvided ==> Trouble(replies, old(steps), steps)
      ensures w.userProvided && replies(old(steps) + 1).written.None? ==>
                (r.Success? <==> replies(old(steps) + 2).ok && Usable(old(w.store)))
      ensures w.userProvided && replies(old(steps) + 1).written.None? ==> steps == old(steps) + 3
                                                                          && w.store == old(w.store)
      ensures replies(old(steps) + 1).written.None? && !replies(old(steps) + 2).ok ==>
                !r.Success? && w.store == old(w.store)
    {
      Do(Begin);
      Interfere();
      var getOk := replies(steps).ok;
      ghost var k := steps;
      var secret := w.store;
      Do(Get(getOk));
      if !getOk {
        assert old(steps) <= k < steps && !replies(k).ok;
        return Error;
      }

      if secret.Some? {
        if w.userProvided {
          if secret.value.crt.None? { return Error; }
          if !secret.value.hasKey { return Error; }
          var f := FingerprintOf(secret.value.crt.value);
          if f.None? { return Error; }
          return Success(f.value);
        }
        if secret.value.crt.Some? {
          AutoRun(start, trace);
          var regenerate;
          r, regenerate := CheckRotation(secret.value);
          if !regenerate { return; }
        } else {
          AutoRun(start, trace);
        }
      } else if w.userProvided {
        return Error;
      }
      r := Regenerate();
    }

    /** The branch for an existing automatic secret; asks for regeneration once the old one is deleted. */
    method CheckRotation(secret: Secret) returns (r: Result, regenerate: bool)
      requires Valid() && !w.userProvided && w.op == AtCheck(secret) && secret.crt.Some? && w.store == Some(secret)
      modifies this
      ensures Valid() && old(trace) <= trace && !w.userProvided && old(steps) <= steps
      ensures r.Success? ==> w.op.Returned? && w.op.fingerprint == r.fingerprint
      ensures regenerate ==> !r.Success? && w.op.AtGenerate?
      ensures !regenerate && !r.Success? ==> w.op.Idle? && Trouble(replies, old(steps), steps)
      ensures r.Success? ==>
        Complete(w.store, r.fingerprint) && Lasting(r.fingerprint, w.op.readAt)
    {
      Interfere();
      var now := w.now;
      Do(Check);
      if !NeedsRotation(secret.crt.value, now) {
        var f := if secret.fingerprint.Some? then secret.fingerprint.value else FingerprintOf(secret.crt.value).value;
        SuccessLeavesValidCert(start, trace);
        return Success(f), false;
      }
      Interfere();
      var a := replies(steps);
      ghost var k := steps;
      if a.crash {
        Do(Crash);
        return Crashed, false;
      }
      var deleted := a.ok && w.store.Some?;
      Do(Delete(a.effect, a.ok));
      assert !a.ok ==> old(steps) <= k < steps && !replies(k).ok;
      return Error, deleted;
    }

    /** Generates a certificate and creates the secret. */
    method Regenerate() returns (r: Result)
      requires Valid() && !w.userProvided && w.op.AtGenerate?
      modifies this
      ensures Valid() && old(trace) <= trace && !w.userProvided && old(steps) <= steps
      ensures r.Success? ==> w.op.Returned? && w.op.fingerprint == r.fingerprint
      ensures !r.Success? ==> w.op.Idle? && Trouble(replies, old(steps), steps)
      ensures r.Success? ==>
        Complete(w.store, r.fingerprint) && Lasting(r.fingerprint, w.op.readAt)
    {
      AutoRun(start, trace);
      Interfere();
      var serial := replies(steps).serial;
      var cert := Generated(serial, w.now);
      Do(Generate(serial));
      Interfere();
      var a := replies(steps);
      ghost var k := steps;
      if a.crash {
        Do(Crash);
        return Crashed;
      }
      var present := w.store.Some?;
      Do(Create(a.effect, a.ok));
      if present || !a.ok {
        assert old(steps) <= k < steps && !replies(k).ok;
        return Error;
      }
      SuccessLeavesValidCert(start, trace);
      return Success(Sha256(cert));
    }
  }
}
