/** Resource names (internal/naming/names.go), lengths counted in bytes as Go does. */
module Naming {
  import opened Text

  const CRONJOB_PREFIX: Bytes := "snapshot-"
  const KEPT: nat := 42

  /** Go's `string(b)` of one byte: the UTF-8 form of the code point with that number. */
  function ByteAsText(b: Byte): (t: Bytes)
    ensures |t| == if b as int < 128 then 1 else 2
  {
    if b as int < 128 then [b]
    else [(192 + b as int / 64) as char, (128 + b as int % 64) as char]
  }

  function CronJobName(pvcName: Bytes): Bytes {
    if pvcName == "" then CRONJOB_PREFIX + "unknown"
    else if |pvcName| > KEPT then
      CRONJOB_PREFIX + pvcName[..KEPT] + "-" + ByteAsText(pvcName[|pvcName| - 1])
    else CRONJOB_PREFIX + pvcName
  }

  function ConfigMapName(repository: string): string {
    "kopia-config-" + repository
  }

  function UserSecretName(namespace: string, pvcName: string): string {
    "kopia-backup-user-" + namespace + "-" + pvcName
  }

  function Username(namespace: string, pvcName: string, hostname: string): string {
    namespace + "-" + pvcName + "@" + hostname
  }

  // --- CronJob names ---

  /** Two long names that agree on the kept bytes and on the last byte. */
  predicate Truncate(a: Bytes, b: Bytes) {
    |a| > KEPT && |b| > KEPT && a[..KEPT] == b[..KEPT] && a[|a| - 1] == b[|b| - 1]
  }

  lemma ByteAsTextInjective(a: Byte, b: Byte)
    requires ByteAsText(a) == ByteAsText(b)
    ensures a == b
  {
    assert ByteAsText(a)[0] == ByteAsText(b)[0];
    if a as int >= 128 {
      assert ByteAsText(a)[1] == ByteAsText(b)[1];
      assert (192 + a as int / 64) == (192 + b as int / 64);
      assert (128 + a as int % 64) == (128 + b as int % 64);
    }
  }

  /** The part of the name that follows the prefix. */
  function Stem(pvcName: Bytes): Bytes {
    CronJobName(pvcName)[|CRONJOB_PREFIX|..]
  }

  lemma StemIs(pvcName: Bytes)
    ensures CronJobName(pvcName) == CRONJOB_PREFIX + Stem(pvcName)
    ensures pvcName == "" ==> Stem(pvcName) == "unknown"
    ensures 0 < |pvcName| <= KEPT ==> Stem(pvcName) == pvcName
    ensures |pvcName| > KEPT ==> Stem(pvcName) == pvcName[..KEPT] + "-" + ByteAsText(pvcName[|pvcName| - 1])
  {
  }

  /** When two PVC names share a CronJob name. */
  predicate Collide(a: Bytes, b: Bytes) {
    a == b || Truncate(a, b) || (a == "" && b == "unknown") || (a == "unknown" && b == "")
  }

  lemma CronJobNamesCollideIff(a: Bytes, b: Bytes)
    ensures CronJobName(a) == CronJobName(b) <==> Collide(a, b)
  {
    StemIs(a);
    StemIs(b);
    if CronJobName(a) == CronJobName(b) {
      assert Stem(a) == Stem(b);
      if |a| > KEPT && |b| > KEPT {
        LongStems(a, b);
      }
    }
  }

  lemma LongStems(a: Bytes, b: Bytes)
    requires |a| > KEPT && |b| > KEPT
    requires a[..KEPT] + "-" + ByteAsText(a[|a| - 1]) == b[..KEPT] + "-" + ByteAsText(b[|b| - 1])
    ensures Truncate(a, b)
  {
    var x, y := a[..KEPT] + "-" + ByteAsText(a[|a| - 1]), b[..KEPT] + "-" + ByteAsText(b[|b| - 1]);
    assert a[..KEPT] == x[..KEPT] == y[..KEPT] == b[..KEPT];
    assert ByteAsText(a[|a| - 1]) == x[KEPT + 1..] == y[KEPT + 1..] == ByteAsText(b[|b| - 1]);
    ByteAsTextInjective(a[|a| - 1], b[|b| - 1]);
  }

  /** The Kubernetes limit of 52 bytes is met exactly when nothing was cut off; 54 bytes are never exceeded. */
  lemma CronJobNameLength(pvcName: Bytes)
    ensures "snapshot-" <= CronJobName(pvcName)
    ensures |CronJobName(pvcName)| <= 52 <==> |pvcName| <= 42
    ensures |CronJobName(pvcName)| <= 54
    ensures (forall k :: 0 <= k < |pvcName| ==> pvcName[k] as int < 128) ==> |CronJobName(pvcName)| <= 53
  {
    StemIs(pvcName);
  }

  predicate LowerAlnum(c: char) {
    'a' <= c <= 'z' || '0' <= c <= '9'
  }

  /** DNS-1123 subdomain grammar: every dot and both ends touch only letters and digits. */
  predicate Subdomain(s: string) {
    && s != ""
    && LowerAlnum(s[0]) && LowerAlnum(s[|s| - 1])
    && (forall k :: 0 <= k < |s| ==> LowerAlnum(s[k]) || s[k] == '-' || s[k] == '.')
    && (forall k :: 0 < k < |s| - 1 && s[k] == '.' ==> LowerAlnum(s[k - 1]) && LowerAlnum(s[k + 1]))
  }

  lemma PrefixFine(k: nat)
    requires k < |CRONJOB_PREFIX|
    ensures LowerAlnum(CRONJOB_PREFIX[k]) || CRONJOB_PREFIX[k] == '-'
  {
  }

  /** Behind the prefix, only the grammar of what follows matters. */
  lemma PrefixedIff(s: string)
    requires s != "" && LowerAlnum(s[0])
    ensures Subdomain(CRONJOB_PREFIX + s) <==> Subdomain(s)
  {
    forall k | 0 <= k < |CRONJOB_PREFIX| ensures LowerAlnum(CRONJOB_PREFIX[k]) || CRONJOB_PREFIX[k] == '-' {
      PrefixFine(k);
    }
    assert LowerAlnum(CRONJOB_PREFIX[0]);
    FrontIff(CRONJOB_PREFIX, s);
  }

  /** A front of letters, digits and inner hyphens. */
  predicate Front(p: string) {
    p != "" && LowerAlnum(p[0]) && forall k :: 0 <= k < |p| ==> LowerAlnum(p[k]) || p[k] == '-'
  }

  lemma FrontIff(p: string, s: string)
    requires s != "" && LowerAlnum(s[0]) && Front(p)
    ensures Subdomain(p + s) <==> Subdomain(s)
  {
    if Subdomain(p + s) { WithoutFront(p, s); }
    if Subdomain(s) { WithFront(p, s); }
  }

  lemma WithoutFront(p: string, s: string)
    requires s != "" && LowerAlnum(s[0]) && Subdomain(p + s)
    ensures Subdomain(s)
  {
    var n, r := |p|, p + s;
    assert forall k :: 0 <= k < |s| ==> r[n + k] == s[k];
    forall k | 0 < k < |s| - 1 && s[k] == '.' ensures LowerAlnum(s[k - 1]) && LowerAlnum(s[k + 1]) {
      assert r[n + k] == '.' && r[n + k - 1] == s[k - 1] && r[n + k + 1] == s[k + 1];
    }
  }

  lemma WithFront(p: string, s: string)
    requires Front(p) && Subdomain(s)
    ensures Subdomain(p + s)
  {
    var n, r := |p|, p + s;
    assert forall k :: 0 <= k < n ==> r[k] == p[k];
    assert forall k :: n <= k < |r| ==> r[k] == s[k - n];
    forall k | 0 < k < |r| - 1 && r[k] == '.' ensures LowerAlnum(r[k - 1]) && LowerAlnum(r[k + 1]) {
      assert n < k && s[k - n] == '.';
    }
  }

  lemma CutIff(s: string, last: char)
    requires Subdomain(s) && |s| > KEPT && last == s[|s| - 1]
    ensures Subdomain(s[..KEPT] + "-" + [last]) <==> s[KEPT - 1] != '.'
  {
    var r := s[..KEPT] + "-" + [last];
    assert r[KEPT] == '-' && r[KEPT + 1] == last && |r| == KEPT + 2;
    assert forall k :: 0 <= k < KEPT ==> r[k] == s[k];
    if s[KEPT - 1] == '.' {
      assert r[KEPT - 1] == '.' && !LowerAlnum(r[KEPT]);
    }
  }

  /** A valid PVC name gives a valid CronJob name exactly when the cut does not fall right after a dot. */
  lemma CronJobNameValidIff(pvcName: Bytes)
    requires Subdomain(pvcName)
    ensures Subdomain(CronJobName(pvcName)) <==> (|pvcName| > KEPT ==> pvcName[KEPT - 1] != '.')
  {
    StemIs(pvcName);
    PrefixedIff(Stem(pvcName));
    if |pvcName| > KEPT {
      CutIff(pvcName, pvcName[|pvcName| - 1]);
    }
  }

  // --- User names ---

  /** One namespace continues the other and the first PVC name makes up for it. */
  ghost predicate Shifted(n: string, p: string, n': string, p': string) {
    exists s: string :: n' == n + "-" + s && p == s + "-" + p'
  }

  lemma SplitAt(a: string, b: string, c: string, d: string)
    requires a + b == c + d && |a| == |c|
    ensures a == c && b == d
  {
    assert a == (a + b)[..|a|] && c == (c + d)[..|c|];
    assert b == (a + b)[|a|..] && d == (c + d)[|c|..];
  }

  lemma ShorterNamespace(n: string, p: string, n': string, p': string)
    requires n + "-" + p == n' + "-" + p' && |n| < |n'|
    ensures Shifted(n, p, n', p')
  {
    var x := n + "-" + p;
    var s := n'[|n| + 1..];
    assert x == n' + ("-" + p') == n + ("-" + p);
    assert n' == x[..|n'|] && n == x[..|n|] && x[|n|] == '-';
    assert n'[..|n|] == n && n'[|n|] == '-';
    assert n' == n + "-" + s;
    assert p == x[|n| + 1..];
    assert p' == x[|n'| + 1..] && x[|n'|] == '-';
    assert p == s + "-" + p';
  }

  /** Without the host part, two pairs share a user exactly when they are equal or shifted. */
  lemma JoinedCollideIff(n: string, p: string, n': string, p': string)
    ensures n + "-" + p == n' + "-" + p' <==> (n == n' && p == p') || Shifted(n, p, n', p') || Shifted(n', p', n, p)
  {
    if n + "-" + p == n' + "-" + p' {
      if |n| < |n'| {
        ShorterNamespace(n, p, n', p');
      } else if |n'| < |n| {
        ShorterNamespace(n', p', n, p);
      } else {
        assert (n + "-") + p == (n' + "-") + p';
        SplitAt(n + "-", p, n' + "-", p');
        SplitAt(n, "-", n', "-");
      }
    }
    if Shifted(n, p, n', p') {
      var s: string :| n' == n + "-" + s && p == s + "-" + p';
      assert n + "-" + (s + "-" + p') == (n + "-" + s) + "-" + p';
    }
    if Shifted(n', p', n, p) {
      var s: string :| n == n' + "-" + s && p' == s + "-" + p;
      assert n' + "-" + (s + "-" + p) == (n' + "-" + s) + "-" + p;
    }
  }

  /** The first `@` of a user name ends the user part, whatever the host name holds. */
  lemma FirstAt(u: string, h: string, u': string, h': string)
    requires '@' !in u && '@' !in u' && u + "@" + h == u' + "@" + h'
    ensures u == u' && h == h'
  {
    var x := u + "@" + h;
    assert x[|u|] == '@' && x[|u'|] == '@';
    assert |u| == |u'|;
    SplitAt(u + "@", h, u' + "@", h');
    SplitAt(u, "@", u', "@");
  }

  /** Exactly when two backups share a server user: same host name, and equal or shifted pairs. */
  lemma UsernamesCollideIff(n: string, p: string, h: string, n': string, p': string, h': string)
    requires '@' !in n && '@' !in p && '@' !in n' && '@' !in p'
    ensures Username(n, p, h) == Username(n', p', h') <==>
            h == h' && ((n == n' && p == p') || Shifted(n, p, n', p') || Shifted(n', p', n, p))
  {
    JoinedCollideIff(n, p, n', p');
    if Username(n, p, h) == Username(n', p', h') {
      FirstAt(n + "-" + p, h, n' + "-" + p', h');
    }
  }

  /** Exactly when two backups ask for one secret name: equal or shifted pairs; the secrets stay in their namespaces. */
  lemma SecretNamesCollideIff(n: string, p: string, n': string, p': string)
    ensures UserSecretName(n, p) == UserSecretName(n', p') <==>
            (n == n' && p == p') || Shifted(n, p, n', p') || Shifted(n', p', n, p)
  {
    JoinedCollideIff(n, p, n', p');
    InSecretName(n, p);
    InSecretName(n', p');
    if UserSecretName(n, p) == UserSecretName(n', p') {
      SplitAt("kopia-backup-user-", n + "-" + p, "kopia-backup-user-", n' + "-" + p');
    }
  }

  lemma InSecretName(n: string, p: string)
    ensures UserSecretName(n, p) == "kopia-backup-user-" + (n + "-" + p)
  {
  }

  /** Two different backups on one host that share a user. */
  lemma SharedUserExample()
    ensures Username("team", "db-data", "h") == Username("team-db", "data", "h")
  {
  }

  /** Within one namespace neither the secret name nor the user name is ever shared. */
  lemma SameNamespaceDistinct(n: string, p: string, p': string, h: string)
    ensures UserSecretName(n, p) == UserSecretName(n, p') <==> p == p'
    ensures Username(n, p, h) == Username(n, p', h) <==> p == p'
  {
    if UserSecretName(n, p) == UserSecretName(n, p') {
      SplitAt("kopia-backup-user-" + n + "-", p, "kopia-backup-user-" + n + "-", p');
    }
    if Username(n, p, h) == Username(n, p', h) {
      var x := Username(n, p, h);
      assert |p| == |p'|;
      assert p == x[|n| + 1..|n| + 1 + |p|] == p';
    }
  }
}
