/**
 * Repository lookup (`getKopiaRepository`), the same code in the backup reconciler and in the PVC
 * watcher: the local namespace first, then a unique match across all namespaces.
 */
module Repositories {
  import opened Resources

  /** Outcome of one read of the API server. */
  datatype Reply<+T> = Ok(value: T) | Failed

  datatype Lookup = Found(repo: Repository) | ListFailed | NoMatch | Ambiguous(count: nat)

  function Matching(items: seq<Repository>, name: string): seq<Repository> {
    if items == [] then []
    else
      var last := items[|items| - 1];
      Matching(items[..|items| - 1], name) + if last.name == name then [last] else []
  }

  /** What the lookup answers, given the replies of the local Get and of the cluster-wide List. */
  function Resolve(local: Reply<Repository>, listed: Reply<seq<Repository>>, name: string): Lookup {
    if local.Ok? then Found(local.value)
    else if listed.Failed? then ListFailed
    else
      var m := Matching(listed.value, name);
      if |m| == 0 then NoMatch else if |m| == 1 then Found(m[0]) else Ambiguous(|m|)
  }

  /** The loop of the source. */
  method GetKopiaRepository(local: Reply<Repository>, listed: Reply<seq<Repository>>, name: string) returns (r: Lookup)
    ensures r == Resolve(local, listed, name)
  {
    if local.Ok? { return Found(local.value); }
    if listed.Failed? { return ListFailed; }
    var matches: seq<Repository> := [];
    for i := 0 to |listed.value|
      invariant matches == Matching(listed.value[..i], name)
    {
      assert listed.value[..i + 1][..i] == listed.value[..i];
      if listed.value[i].name == name {
        matches := matches + [listed.value[i]];
      }
    }
    assert listed.value[..|listed.value|] == listed.value;
    if |matches| == 0 { return NoMatch; }
    if |matches| == 1 { return Found(matches[0]); }
    return Ambiguous(|matches|);
  }

  // --- The cluster behind the replies ---

  /** A cluster holds at most one repository per namespace and name. */
  predicate WellKeyed(cluster: set<Repository>) {
    forall a, b :: a in cluster && b in cluster && a.namespace == b.namespace && a.name == b.name ==> a == b
  }

  /** A list reply holds every repository once, in any order. */
  predicate Lists(items: seq<Repository>, cluster: set<Repository>) {
    multiset(items) == multiset(cluster)
  }

  /** The local Get, when it succeeds, returns the repository with that key. */
  predicate LocalReply(local: Reply<Repository>, cluster: set<Repository>, name: string, namespace: string) {
    local.Ok? ==> local.value in cluster && local.value.name == name && local.value.namespace == namespace
  }

  function Named(cluster: set<Repository>, name: string): set<Repository> {
    set r | r in cluster && r.name == name
  }

  lemma {:induction false} MatchingMembers(items: seq<Repository>, name: string)
    ensures forall r :: multiset(Matching(items, name))[r] == if r.name == name then multiset(items)[r] else 0
  {
    if items != [] {
      var last := items[|items| - 1];
      assert items == items[..|items| - 1] + [last];
      MatchingMembers(items[..|items| - 1], name);
    }
  }

  /** The matches in a list are the repositories of that name, each once, whatever the order. */
  lemma MatchingIsNamed(items: seq<Repository>, cluster: set<Repository>, name: string)
    requires Lists(items, cluster)
    ensures multiset(Matching(items, name)) == multiset(Named(cluster, name))
    ensures |Matching(items, name)| == |Named(cluster, name)|
  {
    MatchingMembers(items, name);
    var m := multiset(Matching(items, name));
    forall r ensures m[r] == multiset(Named(cluster, name))[r] {
      assert multiset(items)[r] == multiset(cluster)[r];
    }
    assert m == multiset(Named(cluster, name));
    assert |multiset(Matching(items, name))| == |Matching(items, name)|;
    assert |multiset(Named(cluster, name))| == |Named(cluster, name)|;
  }

  /** What the answer should be, said of the cluster alone. */
  ghost predicate Answers(r: Lookup, cluster: set<Repository>, name: string) {
    var n := Named(cluster, name);
    match r
    case Found(repo) => n == {repo}
    case NoMatch => n == {}
    case Ambiguous(count) => count == |n| > 1
    case ListFailed => false
  }

  lemma SingletonOf(s: set<Repository>, x: Repository)
    requires |s| == 1 && x in s
    ensures s == {x}
  {
    assert |s - {x}| == 0;
  }

  /**
   * The full contract of the lookup: a successful local Get wins; otherwise the answer is fixed by
   * the cluster, independent of the order of the list.
   */
  lemma ResolveMeaning(local: Reply<Repository>, items: seq<Repository>, cluster: set<Repository>, name: string,
                       namespace: string)
    requires Lists(items, cluster) && LocalReply(local, cluster, name, namespace)
    ensures local.Ok? ==> Resolve(local, Ok(items), name) == Found(local.value)
    ensures local.Failed? ==> Answers(Resolve(local, Ok(items), name), cluster, name)
  {
    MatchingIsNamed(items, cluster, name);
    var m := Matching(items, name);
    if local.Failed? && |m| == 1 {
      assert m[0] in multiset(m);
      SingletonOf(Named(cluster, name), m[0]);
    }
  }

  /** Two listings of one cluster give the same answer. */
  lemma OrderIrrelevant(local: Reply<Repository>, a: seq<Repository>, b: seq<Repository>, cluster: set<Repository>,
                        name: string)
    requires Lists(a, cluster) && Lists(b, cluster)
    ensures Resolve(local, Ok(a), name) == Resolve(local, Ok(b), name)
  {
    MatchingIsNamed(a, cluster, name);
    MatchingIsNamed(b, cluster, name);
    var m, m' := Matching(a, name), Matching(b, name);
    if |m| == 1 {
      assert m[0] in multiset(m);
      assert m[0] in multiset(m');
    }
  }

  /** Even if the local Get fails for any reason, no foreign repository is returned while a local one is listed. */
  lemma NeverForeign(local: Reply<Repository>, items: seq<Repository>, cluster: set<Repository>, name: string,
                     namespace: string, mine: Repository)
    requires WellKeyed(cluster) && Lists(items, cluster) && LocalReply(local, cluster, name, namespace)
    requires mine in cluster && mine.name == name && mine.namespace == namespace
    ensures var r := Resolve(local, Ok(items), name); r == Found(mine) || r.Ambiguous?
    ensures Resolve(local, Ok(items), name) == Found(mine) <==> local.Ok? || Named(cluster, name) == {mine}
  {
    ResolveMeaning(local, items, cluster, name, namespace);
    assert mine in Named(cluster, name);
  }
}
