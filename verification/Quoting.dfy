/** `shellQuote` (internal/kopia/server/manager.go) against the shell's own reading rules. */
module Quoting {
  import opened Options
  import opened Text
  import opened Shell

  const ESCAPED_QUOTE: string := "'\\''"

  function Escape(v: string): string {
    ReplaceAll(v, "'", ESCAPED_QUOTE)
  }

  function ShellQuote(v: string): string {
    "'" + Escape(v) + "'"
  }

  // --- Reading lemmas ---

  lemma {:induction false} SingleReads(body: string, rest: string)
    requires '\'' !in body
    ensures ReadSingle(body + "'" + rest) == if '\0' in body then None else Some(Quoted(body, rest))
  {
    var s := body + "'" + rest;
    if body == "" {
      assert s[1..] == rest;
    } else if body[0] != '\0' {
      assert s[1..] == body[1..] + "'" + rest;
      SingleReads(body[1..], rest);
      assert body == [body[0]] + body[1..];
    } else {
      assert s[0] == '\0';
    }
  }

  lemma {:induction false} EscapeSplits(a: string, b: string)
    requires '\'' !in a
    ensures Escape(a + "'" + b) == a + ESCAPED_QUOTE + Escape(b)
    ensures Escape(a) == a
  {
    var v := a + "'" + b;
    if a == "" {
      assert v[1..] == b && "'" <= v;
    } else {
      assert v[1..] == a[1..] + "'" + b;
      assert v[0] == a[0] != '\'';
      EscapeSplits(a[1..], b);
    }
  }

  /** First single quote of `v`, or its length. */
  function FirstQuote(v: string): (n: nat)
    ensures n <= |v| && '\'' !in v[..n] && (n < |v| ==> v[n] == '\'')
  {
    if v == "" || v[0] == '\'' then 0
    else
      var n := 1 + FirstQuote(v[1..]);
      assert v[..n] == [v[0]] + v[1..][..n - 1];
      n
  }

  lemma SingleWord(a: string, rest: string, env: Env, cur: Option<string>, done: seq<string>)
    requires '\'' !in a
    ensures Read("'" + a + "'" + rest, env, cur, done) ==
            if '\0' in a then None else Read(rest, env, Some(Begun(cur) + a), done)
  {
    assert ("'" + a + "'" + rest)[1..] == a + "'" + rest;
    SingleReads(a, rest);
  }

  lemma EscapedQuote(rest: string, env: Env, cur: Option<string>, done: seq<string>)
    ensures Read("\\'" + rest, env, cur, done) == Read(rest, env, Some(Begun(cur) + "'"), done)
  {
    assert ("\\'" + rest)[2..] == rest;
  }

  /** A value with a quote is quoted piece by piece. */
  lemma QuoteSplits(a: string, b: string)
    requires '\'' !in a
    ensures ShellQuote(a + "'" + b) == "'" + a + "'" + ("\\'" + ShellQuote(b))
  {
    EscapeSplits(a, b);
    assert ESCAPED_QUOTE == "'" + "\\'" + "'";
  }

  /** Up to and including the first quote of a value. */
  lemma FirstPieceReads(a: string, b: string, rest: string, env: Env, cur: Option<string>, done: seq<string>)
    requires '\'' !in a
    ensures Read(ShellQuote(a + "'" + b) + rest, env, cur, done) ==
            if '\0' in a then None else Read(ShellQuote(b) + rest, env, Some(Begun(cur) + a + "'"), done)
  {
    QuoteSplits(a, b);
    var tail := ShellQuote(b) + rest;
    PiecesRegroup("'" + a + "'", "\\'", ShellQuote(b), rest);
    SingleWord(a, "\\'" + tail, env, cur, done);
    EscapedQuote(tail, env, Some(Begun(cur) + a), done);
  }

  lemma PiecesRegroup(x: string, y: string, z: string, rest: string)
    ensures x + (y + z) + rest == x + (y + (z + rest))
  {
  }

  /** A quoted value adds exactly that value to the current word; only NUL cannot be carried. */
  lemma {:induction false} QuoteReads(v: string, rest: string, env: Env, cur: Option<string>, done: seq<string>)
    ensures Read(ShellQuote(v) + rest, env, cur, done) ==
            if '\0' in v then None else Read(rest, env, Some(Begun(cur) + v), done)
    decreases |v|
  {
    var n := FirstQuote(v);
    var a := v[..n];
    if n == |v| {
      EscapeSplits(v, "");
      SingleWord(v, rest, env, cur, done);
    } else {
      var b := v[n + 1..];
      assert v == a + "'" + b;
      FirstPieceReads(a, b, rest, env, cur, done);
      QuoteReads(b, rest, env, Some(Begun(cur) + a + "'"), done);
      AroundQuote(Begun(cur), a, b);
    }
  }

  lemma AroundQuote(x: string, a: string, b: string)
    ensures x + a + "'" + b == x + (a + "'" + b)
    ensures '\0' in a + "'" + b <==> '\0' in a || '\0' in b
  {
    assert (a + "'" + b)[..|a|] == a && (a + "'" + b)[|a| + 1..] == b;
  }

  /** The promise of `shellQuote`: as a whole line it is read back as one word, the value itself. */
  lemma UnquoteQuote(v: string, env: Env)
    ensures ReadCommand(ShellQuote(v), env) == if '\0' in v then None else Some(Command([v], ""))
  {
    QuoteReads(v, "", env, None, []);
    assert ShellQuote(v) + "" == ShellQuote(v);
    assert Begun(None) + v == v;
    assert Flush(Some(v), []) == [v];
  }

  predicate AllOrdinary(p: string) {
    forall k :: 0 <= k < |p| ==> Ordinary(p[k])
  }

  predicate AllPlain(p: string) {
    forall k :: 0 <= k < |p| ==> Plain(p[k])
  }

  /** Text that may stand as it is where a word begins. */
  predicate Wordlike(p: string) {
    AllPlain(p) && (p != "" ==> Ordinary(p[0]))
  }

  /** Plain characters outside quotes are added to the word as they stand. */
  lemma {:induction false} PlainReads(p: string, rest: string, env: Env, cur: Option<string>, done: seq<string>)
    requires p != "" && AllPlain(p) && (cur.Some? || Ordinary(p[0]))
    ensures Read(p + rest, env, cur, done) == Read(rest, env, Some(Begun(cur) + p), done)
    decreases |p|
  {
    assert (p + rest)[1..] == p[1..] + rest;
    assert (p + rest)[0] == p[0];
    var cur' := Some(Begun(cur) + [p[0]]);
    if |p| == 1 {
      assert p == [p[0]];
      assert p[1..] + rest == rest;
    } else {
      PlainReads(p[1..], rest, env, cur', done);
      assert Begun(cur) + [p[0]] + p[1..] == Begun(cur) + p;
    }
  }

  lemma BlankReads(rest: string, env: Env, cur: Option<string>, done: seq<string>)
    ensures Read(" " + rest, env, cur, done) == Read(rest, env, None, Flush(cur, done))
  {
    assert (" " + rest)[1..] == rest;
  }

  /** The first word of a line. */
  lemma FirstWordReads(w: string, rest: string, env: Env, done: seq<string>)
    requires w != "" && Wordlike(w)
    ensures Read(w + rest, env, None, done) == Read(rest, env, Some(w), done)
  {
    PlainReads(w, rest, env, None, done);
    assert Begun(None) + w == w;
  }

  /** A word followed by a blank. */
  lemma WordReads(w: string, rest: string, env: Env, done: seq<string>)
    requires w != "" && Wordlike(w)
    ensures Read(w + " " + rest, env, None, done) == Read(rest, env, None, done + [w])
  {
    Associative(w, " ", rest);
    FirstWordReads(w, " " + rest, env, done);
    BlankReads(rest, env, Some(w), done);
  }

  // --- Inside double quotes ---

  /** Characters with no meaning of their own inside double quotes. */
  predicate Inert(c: char) {
    c != '$' && c != '`' && c != '"' && c != '\0'
  }

  /** A backslash before one of these stays inside double quotes. */
  predicate Kept(c: char) {
    !Escapable(c) && c != '\n'
  }

  predicate Unpaired(c: char) {
    c != '\\' && c != '\n'
  }

  /** What reading inside double quotes leaves alone. */
  predicate Verbatim(v: string) {
    forall k :: 0 <= k < |v| ==>
      && Inert(v[k])
      && (v[k] == '\\' && k + 1 < |v| ==> Unpaired(v[k + 1]))
  }

  predicate Shrunk(s: string) {
    var q := ReadDouble(s, map[]); q.Some? ==> |q.value.text| + |q.value.rest| < |s|
  }

  lemma NamedShrinks(s: string, n: nat)
    requires s != "" && s[0] == '$' && !(|s| > 1 && s[1] == '{') && n == NameLength(s[1..]) && Shrunk(s[1 + n..])
    ensures Shrunk(s)
  {
  }

  lemma NamedStep(s: string, n: nat)
    requires s != "" && s[0] == '$' && !(|s| > 1 && s[1] == '{') && n == NameLength(s[1..])
    requires ReadDouble(s, map[]).Some?
    ensures 0 < n < |s| && ReadDouble(s, map[]) == Prepend("", ReadDouble(s[1 + n..], map[]))
  {
  }

  lemma BracedStep(s: string, n: nat)
    requires |s| > 1 && s[0] == '$' && s[1] == '{' && n == NameLength(s[2..]) && ReadDouble(s, map[]).Some?
    ensures 3 + n <= |s| && s[2 + n] == '}' && ReadDouble(s, map[]) == Prepend("", ReadDouble(s[3 + n..], map[]))
  {
  }

  lemma BracedShrinks(s: string, n: nat)
    requires |s| > 1 && s[0] == '$' && s[1] == '{' && n == NameLength(s[2..]) && (3 + n <= |s| ==> Shrunk(s[3 + n..]))
    ensures Shrunk(s)
  {
    if ReadDouble(s, map[]).Some? { BracedStep(s, n); }
  }

  lemma BackslashShrinks(s: string)
    requires |s| > 1 && s[0] == '\\' && Shrunk(s[1..]) && Shrunk(s[2..])
    ensures Shrunk(s)
  {
  }

  /** With nothing set, reading inside double quotes never makes the text longer. */
  lemma {:induction false} DoubleShrinks(s: string)
    ensures Shrunk(s)
    decreases |s|
  {
    if s != "" {
      if s[0] == '\\' && |s| > 1 {
        DoubleShrinks(s[1..]);
        DoubleShrinks(s[2..]);
        BackslashShrinks(s);
      } else if s[0] == '$' {
        if |s| > 1 && s[1] == '{' {
          var n := NameLength(s[2..]);
          if 3 + n <= |s| { DoubleShrinks(s[3 + n..]); }
          BracedShrinks(s, n);
        } else {
          var n := NameLength(s[1..]);
          DoubleShrinks(s[1 + n..]);
          NamedShrinks(s, n);
        }
      } else {
        DoubleShrinks(s[1..]);
      }
    }
  }

  lemma InertStep(s: string, env: Env)
    requires s != "" && Inert(s[0]) && (s[0] == '\\' ==> |s| > 1 && Kept(s[1]))
    ensures ReadDouble(s, env) == Prepend([s[0]], ReadDouble(s[1..], env))
  {
  }

  lemma PrependTwice(a: string, b: string, q: Option<Quoted>)
    ensures Prepend(a, Prepend(b, q)) == Prepend(a + b, q)
    ensures Prepend("", q) == q
  {
    if q.Some? {
      assert a + (b + q.value.text) == (a + b) + q.value.text;
      assert "" + q.value.text == q.value.text;
    }
  }

  lemma {:induction false} VerbatimReads(v: string, rest: string, env: Env)
    requires Verbatim(v) && (v != "" && v[|v| - 1] == '\\' ==> rest != "" && Kept(rest[0]))
    ensures ReadDouble(v + rest, env) == Prepend(v, ReadDouble(rest, env))
    decreases |v|
  {
    var s := v + rest;
    if v == "" {
      assert s == rest;
      PrependTwice("", "", ReadDouble(rest, env));
    } else {
      assert s[0] == v[0] && s[1..] == v[1..] + rest;
      assert |v| > 1 ==> s[1] == v[1] && Inert(v[1]);
      InertStep(s, env);
      assert forall k :: 0 <= k < |v| - 1 ==> v[1..][k] == v[k + 1];
      VerbatimReads(v[1..], rest, env);
      PrependTwice([v[0]], v[1..], ReadDouble(rest, env));
      assert v == [v[0]] + v[1..];
    }
  }

  /** Between double quotes `v` must reach the reader unchanged. */
  predicate ComesThrough(v: string, rest: string, env: Env) {
    ReadDouble(v + "\"" + rest, env) == Some(Quoted(v, rest))
  }

  /**
   * Text is guaranteed to come through double quotes, whatever is set, exactly when it is verbatim and does not end
   * in `\`. The reader has no result where section 2.6 leaves the result open, as for a dollar sign before a blank:
   * such text has no guarantee, although a shell may keep it.
   */
  lemma VerbatimIff(v: string, rest: string)
    ensures (forall env: Env :: ComesThrough(v, rest, env)) <==> Verbatim(v) && (v == "" || v[|v| - 1] != '\\')
  {
    if Verbatim(v) && (v == "" || v[|v| - 1] != '\\') {
      forall env: Env ensures ComesThrough(v, rest, env) {
        VerbatimThrough(v, rest, env);
      }
    } else {
      if ComesThrough(v, rest, map[]) { NotVerbatim(v, rest); }
      assert !ComesThrough(v, rest, map[]);
    }
  }

  lemma VerbatimThrough(v: string, rest: string, env: Env)
    requires Verbatim(v) && (v == "" || v[|v| - 1] != '\\')
    ensures ReadDouble(v + "\"" + rest, env) == Some(Quoted(v, rest))
  {
    var close := "\"" + rest;
    assert v + "\"" + rest == v + close && close[1..] == rest;
    VerbatimReads(v, close, env);
    assert v + "" == v;
  }

  lemma {:induction false} NotVerbatim(v: string, rest: string)
    requires ReadDouble(v + "\"" + rest, map[]) == Some(Quoted(v, rest))
    ensures Verbatim(v) && (v == "" || v[|v| - 1] != '\\')
    decreases |v|
  {
    if v != "" {
      FirstCopied(v, rest);
      NotVerbatim(v[1..], rest);
      VerbatimCons(v);
    }
  }

  lemma Opening(v: string, rest: string)
    requires v != ""
    ensures var s := v + "\"" + rest;
            && |s| == |v| + 1 + |rest| && s[0] == v[0] && s[1] == (if |v| > 1 then v[1] else '"')
            && s[1..] == v[1..] + "\"" + rest
  {
  }

  lemma ConsTail(c: char, t: string, v: string)
    requires v == [c] + t
    ensures t == v[1..]
  {
  }

  lemma FirstCopied(v: string, rest: string)
    requires v != "" && ReadDouble(v + "\"" + rest, map[]) == Some(Quoted(v, rest))
    ensures Inert(v[0]) && (v[0] == '\\' ==> |v| > 1 && Kept(v[1]))
    ensures ReadDouble(v[1..] + "\"" + rest, map[]) == Some(Quoted(v[1..], rest))
  {
    var s := v + "\"" + rest;
    Opening(v, rest);
    FirstStep(s, v, rest);
  }

  lemma FirstStep(s: string, v: string, rest: string)
    requires v != "" && |s| == |v| + 1 + |rest| && s[0] == v[0] && s[1] == (if |v| > 1 then v[1] else '"')
    requires ReadDouble(s, map[]) == Some(Quoted(v, rest))
    ensures Inert(v[0]) && (v[0] == '\\' ==> |v| > 1 && Kept(v[1]))
    ensures ReadDouble(s[1..], map[]) == Some(Quoted(v[1..], rest))
  {
    StepOrShrink(s);
    ConsTail(v[0], ReadDouble(s[1..], map[]).value.text, v);
  }

  lemma VerbatimCons(v: string)
    requires v != "" && Inert(v[0]) && (v[0] == '\\' && |v| > 1 ==> Unpaired(v[1])) && Verbatim(v[1..])
    ensures Verbatim(v)
  {
    assert forall k :: 1 <= k < |v| ==> v[k] == v[1..][k - 1];
  }

  /** Each step inside double quotes copies one character or loses at least one. */
  lemma StepOrShrink(s: string)
    requires s != ""
    ensures var q := ReadDouble(s, map[]);
            q.Some? && s[0] != '"' && |q.value.text| + 1 + |q.value.rest| == |s| ==>
              && Inert(s[0]) && (s[0] == '\\' ==> |s| > 1 && Kept(s[1]))
              && q == Prepend([s[0]], ReadDouble(s[1..], map[]))
  {
    if s[0] == '\\' && |s| > 1 {
      DoubleShrinks(s[2..]);
    } else if s[0] == '$' {
      var from := if |s| > 1 && s[1] == '{' then 2 else 1;
      var n := NameLength(s[from..]);
      if from + n <= |s| { DoubleShrinks(s[from + n..]); }
      if from + n + 1 <= |s| { DoubleShrinks(s[from + n + 1..]); }
    }
  }

  lemma VerbatimAroundQuote(a: string, b: string)
    ensures Verbatim(a + "'" + b) <==> Verbatim(a) && Verbatim(b)
  {
    assert a + "'" + b == a + ("'" + b);
    JoinVerbatim("'", b);
    JoinVerbatim(a, "'" + b);
  }

  /** Quoting neither adds nor hides anything that double quotes would change. */
  lemma {:induction false} QuoteVerbatimIff(v: string)
    ensures Verbatim(ShellQuote(v)) <==> Verbatim(v)
    decreases |v|
  {
    var n := FirstQuote(v);
    var a := v[..n];
    if n == |v| {
      assert a == v;
      EscapeSplits(v, "");
      VerbatimAroundQuote("", v + "'");
      VerbatimAroundQuote(v, "");
      assert ShellQuote(v) == "" + "'" + (v + "'") && v + "'" == v + "'" + "";
    } else {
      var b := v[n + 1..];
      assert v == a + "'" + b;
      QuoteVerbatimIff(b);
      VerbatimAroundQuote(a, b);
      QuoteSplits(a, b);
      QuotedPieces(a, ShellQuote(b));
    }
  }

  lemma QuotedPieces(a: string, q: string)
    ensures Verbatim("'" + a + "'" + ("\\'" + q)) <==> Verbatim(a) && Verbatim(q)
  {
    VerbatimAroundQuote("\\", q);
    assert "\\'" + q == "\\" + "'" + q;
    VerbatimAroundQuote("'" + a, "\\'" + q);
    VerbatimAroundQuote("", a);
    assert "'" + a == "" + "'" + a;
  }

  /** Verbatim texts join, unless a backslash at the seam meets a backslash or a newline. */
  lemma JoinVerbatim(a: string, b: string)
    requires a != "" && b != "" && a[|a| - 1] == '\\' ==> Unpaired(b[0])
    ensures Verbatim(a + b) <==> Verbatim(a) && Verbatim(b)
  {
    if Verbatim(a + b) {
      VerbatimFront(a, b);
      VerbatimBack(a, b);
    }
    if Verbatim(a) && Verbatim(b) { VerbatimBoth(a, b); }
  }

  lemma VerbatimFront(a: string, b: string)
    requires Verbatim(a + b)
    ensures Verbatim(a)
  {
    assert forall k :: 0 <= k < |a| ==> (a + b)[k] == a[k];
  }

  lemma VerbatimBack(a: string, b: string)
    requires Verbatim(a + b)
    ensures Verbatim(b)
  {
    var s := a + b;
    forall k | 0 <= k < |b| ensures Inert(b[k]) && (b[k] == '\\' && k + 1 < |b| ==> Unpaired(b[k + 1])) {
      assert s[|a| + k] == b[k];
      assert k + 1 < |b| ==> s[|a| + k + 1] == b[k + 1];
    }
  }

  lemma VerbatimBoth(a: string, b: string)
    requires Verbatim(a) && Verbatim(b) && (a != "" && b != "" && a[|a| - 1] == '\\' ==> Unpaired(b[0]))
    ensures Verbatim(a + b)
  {
    var s := a + b;
    forall k | 0 <= k < |s| ensures Inert(s[k]) && (s[k] == '\\' && k + 1 < |s| ==> Unpaired(s[k + 1])) {
      if k < |a| {
        assert s[k] == a[k];
      } else {
        assert s[k] == b[k - |a|];
      }
    }
  }

  // --- Both readings ---

  lemma EscapeCons(v: string)
    requires v != ""
    ensures Escape(v) == (if v[0] == '\'' then ESCAPED_QUOTE else [v[0]]) + Escape(v[1..])
  {
  }

  /** How the escaped value begins, a closing quote being its end. */
  lemma EscapeFirst(v: string, x: string)
    ensures (Escape(v) + "'" + x)[0] == (if v == "" then '\'' else v[0])
    ensures v != "" && v[0] != '\'' ==> (Escape(v) + "'" + x)[1..] == Escape(v[1..]) + "'" + x
  {
    if v == "" {
      assert Escape(v) == "";
    } else {
      EscapeCons(v);
    }
  }

  /** As far as no quote is met, the escaped text runs along with the value. */
  lemma {:induction false} RunsAlong(v: string, x: string, m: nat)
    requires var s := Escape(v) + "'" + x; m <= |s| && '\'' !in s[..m]
    ensures m <= |v| && (Escape(v) + "'" + x)[m..] == Escape(v[m..]) + "'" + x
    ensures forall k :: 0 <= k < m ==> (Escape(v) + "'" + x)[k] == v[k]
  {
    var s := Escape(v) + "'" + x;
    if m == 0 {
      assert v[0..] == v;
    } else {
      assert s[0] in s[..m];
      EscapeFirst(v, x);
      assert forall c :: c in s[1..][..m - 1] ==> c in s[..m];
      RunsAlong(v[1..], x, m - 1);
      assert v[1..][m - 1..] == v[m..] && s[m..] == s[1..][m - 1..];
      assert forall k :: 1 <= k < m ==> s[k] == s[1..][k - 1] && v[k] == v[1..][k - 1];
    }
  }

  const CLOSING: string := "'\""

  /** The part of a quoted value behind its opening quote, inside double quotes. */
  function Inner(v: string): string {
    Escape(v) + CLOSING
  }

  /**
   * Reading `s` gives the quoted form of `u`, which is no longer than `v`, and shorter unless it is `v` and nothing was
   * changed.
   */
  predicate ReadsAs(s: string, v: string, u: string) {
    && ReadDouble(s, map[]) == Some(Quoted(Escape(u) + "'", ""))
    && |u| <= |v| && (|u| == |v| ==> u == v && Verbatim(v))
  }

  predicate Whole(s: string) {
    ReadDouble(s, map[]).Some? && ReadDouble(s, map[]).value.rest == ""
  }

  lemma InnerDrop(v: string, m: nat)
    requires m <= |Inner(v)| && '\'' !in Inner(v)[..m]
    ensures m <= |v| && Inner(v)[m..] == Inner(v[m..]) && forall k :: 0 <= k < m ==> Inner(v)[k] == v[k]
  {
    assert Inner(v) == Escape(v) + "'" + "\"";
    assert forall u: string :: Inner(u) == Escape(u) + "'" + "\"";
    RunsAlong(v, "\"", m);
  }

  /** One character copied. */
  lemma CopyInner(v: string, u: string)
    requires v != "" && v[0] != '\'' && ReadsAs(Inner(v[1..]), v[1..], u)
    requires ReadDouble(Inner(v), map[]) == Prepend([v[0]], ReadDouble(Inner(v[1..]), map[]))
    requires Inert(v[0]) && (v[0] == '\\' && |v| > 1 ==> Unpaired(v[1]))
    ensures ReadsAs(Inner(v), v, [v[0]] + u)
  {
    var w := [v[0]] + u;
    EscapeCons(w);
    assert w[1..] == u;
    assert [v[0]] + (Escape(u) + "'") == Escape(w) + "'";
    if |w| == |v| {
      VerbatimCons(v);
      assert v == [v[0]] + v[1..];
    }
  }

  /** The first character of the inner part. */
  lemma InnerFirst(v: string)
    requires v != "" && v[0] != '\''
    ensures Inner(v)[0] == v[0] && Inner(v)[1..] == Inner(v[1..])
    ensures Inner(v)[1] == (if |v| > 1 then v[1] else '\'')
  {
    EscapeCons(v);
    if |v| > 1 { EscapeCons(v[1..]); }
    assert Inner(v)[1..] == Inner(v[1..]);
  }

  /** A quote of the value comes through as it was escaped. */
  lemma QuoteInner(v: string, u: string)
    requires v != "" && v[0] == '\'' && ReadsAs(Inner(v[1..]), v[1..], u)
    ensures ReadsAs(Inner(v), v, "'" + u)
  {
    EscapeCons(v);
    var s, rest := Inner(v), Inner(v[1..]);
    assert s == ESCAPED_QUOTE + rest;
    EscapedThrough(s, rest);
    var w := "'" + u;
    EscapeCons(w);
    assert w[1..] == u;
    assert ESCAPED_QUOTE + (Escape(u) + "'") == Escape(w) + "'";
    if |w| == |v| {
      VerbatimCons(v);
      assert v == [v[0]] + v[1..];
    }
  }

  lemma EscapedThrough(s: string, rest: string)
    requires s == ESCAPED_QUOTE + rest
    ensures ReadDouble(s, map[]) == Prepend(ESCAPED_QUOTE, ReadDouble(rest, map[]))
  {
    assert s[0] == '\'' && s[1] == '\\' && s[2] == '\'' && s[3] == '\'' && s[4..] == rest;
    InertStep(s, map[]);
    InertStep(s[1..], map[]);
    InertStep(s[1..][1..], map[]);
    InertStep(s[1..][1..][1..], map[]);
    assert s[1..][1..][1..][1..] == rest;
    var q := ReadDouble(rest, map[]);
    if q.Some? {
      assert "'" + ("\\" + ("'" + ("'" + q.value.text))) == ESCAPED_QUOTE + q.value.text;
    }
  }

  /** What stands behind a dollar sign: only name characters and braces, never a quote. */
  lemma DollarDrop(s: string) returns (m: nat)
    requires s != "" && s[0] == '$' && ReadDouble(s, map[]).Some?
    ensures 1 < m <= |s| && '\'' !in s[..m] && ReadDouble(s, map[]) == ReadDouble(s[m..], map[])
  {
    if |s| > 1 && s[1] == '{' { m := BracedDrop(s); } else { m := NamedDrop(s); }
    PrependTwice("", "", ReadDouble(s[m..], map[]));
  }

  lemma NamedDrop(s: string) returns (m: nat)
    requires s != "" && s[0] == '$' && !(|s| > 1 && s[1] == '{') && ReadDouble(s, map[]).Some?
    ensures 1 < m <= |s| && '\'' !in s[..m] && ReadDouble(s, map[]) == Prepend("", ReadDouble(s[m..], map[]))
  {
    var n := NameLength(s[1..]);
    NamedStep(s, n);
    NamePlain(s, 1, n);
    m := 1 + n;
  }

  lemma BracedDrop(s: string) returns (m: nat)
    requires |s| > 1 && s[0] == '$' && s[1] == '{' && ReadDouble(s, map[]).Some?
    ensures 1 < m <= |s| && '\'' !in s[..m] && ReadDouble(s, map[]) == Prepend("", ReadDouble(s[m..], map[]))
  {
    var n := NameLength(s[2..]);
    BracedStep(s, n);
    NamePlain(s, 2, n);
    m := 3 + n;
  }

  lemma NamePlain(s: string, from: nat, n: nat)
    requires from <= |s| && n == NameLength(s[from..])
    ensures forall k :: from <= k < from + n ==> s[k] != '\''
  {
    assert forall k :: from <= k < from + n ==> s[k] == s[from..][k - from];
  }

  /** A value read to its end does not begin with what ends the reading. */
  lemma NotClosed(v: string)
    requires v != "" && v[0] != '\'' && v[0] != '$'
    ensures Whole(Inner(v)) ==> Inert(v[0])
  {
    InnerFirst(v);
    assert |Inner(v)[1..]| > 0;
  }

  /** Whatever the double quotes change, they make the quoted value shorter. */
  lemma {:induction false} InnerPasses(v: string) returns (u: string)
    requires Whole(Inner(v))
    ensures ReadsAs(Inner(v), v, u)
    decreases |v|
  {
    var s := Inner(v);
    if v == "" {
      assert Escape(v) == "" && s == CLOSING;
      assert s[1..] == "\"" && s[1..][1..] == "";
      u := "";
      assert Escape(u) + "'" == "'" + "";
    } else if v[0] == '\'' {
      EscapeCons(v);
      assert s == ESCAPED_QUOTE + Inner(v[1..]);
      EscapedThrough(s, Inner(v[1..]));
      u := InnerPasses(v[1..]);
      QuoteInner(v, u);
      u := "'" + u;
    } else {
      InnerFirst(v);
      if v[0] == '$' {
        u := DollarPasses(v);
      } else if v[0] == '\\' && !Kept(s[1]) {
        u := PairPasses(v);
      } else {
        NotClosed(v);
        InertStep(s, map[]);
        u := InnerPasses(v[1..]);
        CopyInner(v, u);
        u := [v[0]] + u;
      }
    }
  }

  lemma {:induction false} DollarPasses(v: string) returns (u: string)
    requires v != "" && v[0] == '$' && Whole(Inner(v))
    ensures ReadsAs(Inner(v), v, u)
    decreases |v|, 0
  {
    InnerFirst(v);
    var m := DollarDrop(Inner(v));
    InnerDrop(v, m);
    u := InnerPasses(v[m..]);
  }

  lemma {:induction false} PairPasses(v: string) returns (u: string)
    requires v != "" && v[0] == '\\' && !Kept(Inner(v)[1]) && Whole(Inner(v))
    ensures ReadsAs(Inner(v), v, u)
    decreases |v|, 0
  {
    var s := Inner(v);
    InnerFirst(v);
    assert s[..2] == [s[0], s[1]];
    InnerDrop(v, 2);
    u := InnerPasses(v[2..]);
    if v[1] != '\n' {
      var w := [v[1]] + u;
      EscapeCons(w);
      assert w[1..] == u;
      assert [v[1]] + (Escape(u) + "'") == Escape(w) + "'";
      u := w;
    }
  }

  /** What eval reads of a quoted value that an assignment has put through double quotes, with `first` set then. */
  function EvalOf(v: string, first: Env, env: Env): Option<Command> {
    var q := ReadDouble(ShellQuote(v) + "\"", first);
    if q.Some? && q.value.rest == "" then ReadCommand(q.value.text, env) else None
  }

  /**
   * Both readings, double quotes and then eval, are guaranteed to give one word, the value itself, whatever is set,
   * exactly when it is verbatim.
   */
  lemma TwoReadingsIff(v: string, env: Env)
    ensures (forall first: Env :: EvalOf(v, first, env) == Some(Command([v], ""))) <==> Verbatim(v)
  {
    if Verbatim(v) {
      forall first: Env ensures EvalOf(v, first, env) == Some(Command([v], "")) {
        VerbatimSurvives(v, first, env);
      }
    } else {
      OthersLost(v, env);
    }
  }

  lemma OthersLost(v: string, env: Env)
    requires !Verbatim(v)
    ensures EvalOf(v, map[], env) != Some(Command([v], ""))
  {
    var s := ShellQuote(v) + "\"";
    assert s == "'" + Inner(v) && s[1..] == Inner(v);
    InertStep(s, map[]);
    if Whole(Inner(v)) {
      var u := InnerPasses(v);
      assert "'" + (Escape(u) + "'") == ShellQuote(u);
      UnquoteQuote(u, env);
      assert [u][0] != [v][0];
    }
  }

  lemma VerbatimSurvives(v: string, first: Env, env: Env)
    requires Verbatim(v)
    ensures EvalOf(v, first, env) == Some(Command([v], ""))
  {
    assert ShellQuote(v) + "\"" == ShellQuote(v) + "\"" + "";
    QuoteVerbatimIff(v);
    VerbatimThrough(ShellQuote(v), "", first);
    UnquoteQuote(v, env);
    assert forall k :: 0 <= k < |v| ==> Inert(v[k]);
  }

  // --- Values put into a command line unquoted ---

  /** Letters of the words plus one for each of them: what a line of single blanks would take, but for one. */
  function Size(words: seq<string>): nat {
    if words == [] then 0 else Size(words[..|words| - 1]) + |words[|words| - 1]| + 1
  }

  lemma SizeMore(words: seq<string>, w: string)
    ensures Size(words + [w]) == Size(words) + |w| + 1
  {
    assert (words + [w])[..|words|] == words;
  }

  /** What a reader has in hand, the blank before a word to come included. */
  function InHand(cur: Option<string>, done: seq<string>): nat {
    Size(Flush(cur, done)) + if cur.None? then 1 else 0
  }

  lemma InHandIs(cur: Option<string>, done: seq<string>)
    ensures InHand(cur, done) == Size(done) + 1 + |Begun(cur)|
  {
    if cur.Some? { SizeMore(done, cur.value); }
  }

  lemma {:induction false} SingleShrinks(s: string)
    ensures var q := ReadSingle(s);
            q.Some? ==> |q.value.text| + |q.value.rest| < |s| && forall c :: c in q.value.rest ==> c in s
  {
    if s != "" && s[0] != '\0' && s[0] != '\'' { SingleShrinks(s[1..]); }
  }

  lemma {:induction false} PlainDoubleShrinks(s: string, env: Env)
    requires '$' !in s
    ensures var q := ReadDouble(s, env);
            q.Some? ==> |q.value.text| + |q.value.rest| < |s| && forall c :: c in q.value.rest ==> c in s
    decreases |s|
  {
    if s != "" {
      PlainDoubleShrinks(s[1..], env);
      if |s| > 1 { PlainDoubleShrinks(s[2..], env); }
    }
  }

  /** The words of a line and what is left of it fit into the text they come from. */
  predicate Fits(r: Option<Command>, limit: int) {
    r.Some? ==> Size(r.value.words) + |r.value.rest| <= limit
  }

  /** Without a dollar sign, reading a line never makes more of it than was there. */
  lemma {:induction false} LineFits(s: string, env: Env, cur: Option<string>, done: seq<string>)
    requires '$' !in s
    ensures Fits(Read(s, env, cur, done), InHand(cur, done) + |s|)
    decreases |s|, 1
  {
    InHandIs(cur, done);
    if s != "" && Read(s, env, cur, done).Some? {
      if s[0] == ' ' || s[0] == '\t' {
        LineFits(s[1..], env, None, Flush(cur, done));
        InHandIs(None, Flush(cur, done));
      } else if s[0] == '\\' || s[0] == '\'' || s[0] == '"' {
        QuotingShrinks(s, env, cur, done);
      } else if Plain(s[0]) {
        LineFits(s[1..], env, Some(Begun(cur) + [s[0]]), done);
        InHandIs(Some(Begun(cur) + [s[0]]), done);
      }
    }
  }

  /** Quoting takes room that the words do not get back. */
  lemma {:induction false} QuotingShrinks(s: string, env: Env, cur: Option<string>, done: seq<string>)
    requires '$' !in s && s != "" && (s[0] == '\\' || s[0] == '\'' || s[0] == '"')
    ensures Fits(Read(s, env, cur, done), InHand(cur, done) + |s| - 1)
    decreases |s|, 0
  {
    InHandIs(cur, done);
    if Read(s, env, cur, done).Some? {
      if s[0] == '\\' {
        if s[1] == '\n' {
          LineFits(s[2..], env, cur, done);
        } else {
          LineFits(s[2..], env, Some(Begun(cur) + [s[1]]), done);
          InHandIs(Some(Begun(cur) + [s[1]]), done);
        }
      } else {
        var q := if s[0] == '\'' then ReadSingle(s[1..]) else ReadDouble(s[1..], env);
        if s[0] == '\'' { SingleShrinks(s[1..]); } else { PlainDoubleShrinks(s[1..], env); }
        LineFits(q.value.rest, env, Some(Begun(cur) + q.value.text), done);
        InHandIs(Some(Begun(cur) + q.value.text), done);
      }
    }
  }

  /** Finished words stay. */
  lemma {:induction false} FinishedStay(s: string, env: Env, cur: Option<string>, done: seq<string>)
    ensures var r := Read(s, env, cur, done); r.Some? ==> done <= r.value.words
    decreases |s|
  {
    if s != "" && Read(s, env, cur, done).Some? {
      if s[0] == ' ' || s[0] == '\t' {
        FinishedStay(s[1..], env, None, Flush(cur, done));
      } else if s[0] == '\\' {
        FinishedStay(s[2..], env, if s[1] == '\n' then cur else Some(Begun(cur) + [s[1]]), done);
      } else if s[0] == '\'' || s[0] == '"' {
        var q := if s[0] == '\'' then ReadSingle(s[1..]) else ReadDouble(s[1..], env);
        FinishedStay(q.value.rest, env, Some(Begun(cur) + q.value.text), done);
      } else if Plain(s[0]) {
        FinishedStay(s[1..], env, Some(Begun(cur) + [s[0]]), done);
      }
    }
  }

  /** First character of `x` that is not plain, or its length. */
  function FirstOdd(x: string): (n: nat)
    ensures n <= |x| && AllPlain(x[..n]) && if n < |x| then !Plain(x[n]) else AllPlain(x)
  {
    if x == "" || !Plain(x[0]) then 0
    else
      var n := 1 + FirstOdd(x[1..]);
      assert x[..n] == [x[0]] + x[1..][..n - 1];
      n
  }

  /** A value as the script hands it on: its variable may hold anything but what the reader expands. */
  predicate Unexpanded(x: string) {
    '$' !in x && '`' !in x && '*' !in x && '?' !in x && '[' !in x && '\0' !in x
  }

  /** The command line with a value unquoted behind its flag, and another word after it. */
  function Unquoted(flag: string, x: string, next: string): string {
    flag + (x + (" " + next))
  }

  lemma PlainSurvives(flag: string, x: string, next: string, env: Env)
    requires flag != "" && AllOrdinary(flag) && next != "" && AllOrdinary(next) && AllPlain(x)
    ensures ReadCommand(Unquoted(flag, x, next), env) == Some(Command([flag + x, next], ""))
  {
    var w := flag + x;
    assert Unquoted(flag, x, next) == w + " " + next;
    WordReads(w, next, env, []);
    assert [] + [w] == [w];
    PlainReads(next, "", env, None, [w]);
    assert next + "" == next && Begun(None) + next == next;
    assert Flush(Some(next), [w]) == [w, next];
  }

  lemma UnquotedSplit(flag: string, x: string, next: string, n: nat)
    requires n <= |x|
    ensures Unquoted(flag, x, next) == (flag + x[..n]) + (x[n..] + (" " + next))
  {
    assert x == x[..n] + x[n..];
  }

  /** Up to the first character that is not plain. */
  lemma UpToOdd(flag: string, x: string, next: string, env: Env)
    requires flag != "" && AllOrdinary(flag)
    ensures var n := FirstOdd(x);
            ReadCommand(Unquoted(flag, x, next), env) == Read(x[n..] + (" " + next), env, Some(flag + x[..n]), [])
  {
    var n := FirstOdd(x);
    var w := flag + x[..n];
    UnquotedSplit(flag, x, next, n);
    PlainReads(w, x[n..] + (" " + next), env, None, []);
    assert Begun(None) + w == w;
  }

  /** A word that ends early is not the value. */
  lemma EndsEarly(s: string, env: Env, w: string, all: seq<string>)
    requires s != "" && (s[0] == ' ' || s[0] == '\t' || s[0] == '\n' || Operator(s[0])) && all != [] && all[0] != w
    ensures Read(s, env, Some(w), []) != Some(Command(all, ""))
  {
    assert Flush(Some(w), []) == [w];
    if s[0] == ' ' || s[0] == '\t' { FinishedStay(s[1..], env, None, [w]); }
  }

  lemma OddChanges(flag: string, x: string, next: string, env: Env)
    requires flag != "" && AllOrdinary(flag) && next != "" && AllOrdinary(next) && Unexpanded(x) && !AllPlain(x)
    ensures ReadCommand(Unquoted(flag, x, next), env) != Some(Command([flag + x, next], ""))
  {
    var n := FirstOdd(x);
    var w, s := flag + x[..n], x[n..] + (" " + next);
    UpToOdd(flag, x, next, env);
    assert x[n] in x && s[0] == x[n] && |w| < |flag + x|;
    if s[0] == '\\' || s[0] == '\'' || s[0] == '"' {
      NoDollar(x, n, next);
      QuotingShrinks(s, env, Some(w), []);
      InHandIs(Some(w), []);
      TwoWords(flag + x, next);
    } else {
      EndsEarly(s, env, w, [flag + x, next]);
    }
  }

  lemma NoDollar(x: string, n: nat, next: string)
    requires n <= |x| && '$' !in x && AllOrdinary(next)
    ensures '$' !in x[n..] + (" " + next)
  {
    assert forall k :: 0 <= k < |next| ==> Ordinary(next[k]);
  }

  lemma TwoWords(a: string, b: string)
    ensures Size([a, b]) == |a| + |b| + 2
  {
    SizeMore([], a);
    SizeMore([a], b);
    assert [] + [a] == [a] && [a] + [b] == [a, b];
  }

  /**
   * Exactly which values survive eval unquoted behind a flag and before another word: those of plain
   * characters alone. Values that the shell would expand, or match against files, are not covered.
   */
  lemma UnquotedSurvivesIff(flag: string, x: string, next: string, env: Env)
    requires flag != "" && AllOrdinary(flag) && next != "" && AllOrdinary(next) && Unexpanded(x)
    ensures ReadCommand(Unquoted(flag, x, next), env) == Some(Command([flag + x, next], "")) <==> AllPlain(x)
  {
    if AllPlain(x) { PlainSurvives(flag, x, next, env); } else { OddChanges(flag, x, next, env); }
  }

  /** A value with a blank becomes two words, one with a hash or a tilde inside stays one. */
  lemma BlankSplits(flag: string, next: string, env: Env)
    requires flag != "" && AllOrdinary(flag) && next != "" && AllOrdinary(next)
    ensures ReadCommand(Unquoted(flag, "a b", next), env) == Some(Command([flag + "a", "b", next], ""))
    ensures ReadCommand(Unquoted(flag, "a#~b", next), env) == Some(Command([flag + "a#~b", next], ""))
  {
    PlainSurvives(flag, "a#~b", next, env);
    assert Unquoted(flag, "a b", next) == (flag + "a") + " " + ("b" + " " + next);
    WordReads(flag + "a", "b" + " " + next, env, []);
    assert [] + [flag + "a"] == [flag + "a"];
    WordReads("b", next, env, [flag + "a"]);
    var done := [flag + "a", "b"];
    assert [flag + "a"] + ["b"] == done;
    PlainReads(next, "", env, None, done);
    assert next + "" == next && Begun(None) + next == next;
    assert Flush(Some(next), done) == [flag + "a", "b", next];
  }
}
