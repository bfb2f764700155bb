/**
 * The parts of the POSIX.1-2017 Shell Command Language that the generated scripts rely on:
 * quoting (section 2.2), token recognition (2.3) and parameter expansion (2.6.2). Reading stops
 * with no result at any construct outside this part, so a result is never a guess.
 */
module Shell {
  import opened Options

  type Env = map<string, string>

  /** Value of a parameter; unset parameters expand to nothing. */
  function Value(env: Env, name: string): string {
    if name in env then env[name] else ""
  }

  predicate NameStart(c: char) {
    'a' <= c <= 'z' || 'A' <= c <= 'Z' || c == '_'
  }

  predicate NameChar(c: char) {
    NameStart(c) || '0' <= c <= '9'
  }

  /** Length of the longest run of name characters at the front. */
  function NameLength(s: string): (n: nat)
    ensures n <= |s| && forall k :: 0 <= k < n ==> NameChar(s[k])
    ensures n < |s| ==> !NameChar(s[n])
  {
    if s == "" || !NameChar(s[0]) then 0 else 1 + NameLength(s[1..])
  }

  /** Text read inside quotes, and what follows the closing quote. */
  datatype Quoted = Quoted(text: string, rest: string)

  function Prepend(t: string, q: Option<Quoted>): Option<Quoted> {
    if q.None? then None else Some(Quoted(t + q.value.text, q.value.rest))
  }

  /** After an opening single quote (2.2.2): everything is literal up to the next one. */
  function ReadSingle(s: string): (q: Option<Quoted>)
    ensures q.Some? ==> |q.value.rest| < |s|
  {
    if s == "" || s[0] == '\0' then None
    else if s[0] == '\'' then Some(Quoted("", s[1..]))
    else Prepend([s[0]], ReadSingle(s[1..]))
  }

  /** What `\\` quotes inside double quotes, besides newline. */
  predicate Escapable(c: char) {
    c == '$' || c == '`' || c == '"' || c == '\\'
  }

  /** After an opening double quote (2.2.3): `$` expands, and `\` quotes only `$`, backquote, `"`, `\` and newline. */
  function ReadDouble(s: string, env: Env): (q: Option<Quoted>)
    ensures q.Some? ==> |q.value.rest| < |s|
    decreases |s|
  {
    if s == "" || s[0] == '\0' || s[0] == '`' then None
    else if s[0] == '"' then Some(Quoted("", s[1..]))
    else if s[0] == '\\' then
      if |s| == 1 then None
      else if Escapable(s[1]) then Prepend([s[1]], ReadDouble(s[2..], env))
      else if s[1] == '\n' then ReadDouble(s[2..], env)
      else Prepend("\\", ReadDouble(s[1..], env))
    else if s[0] == '$' then
      var braced := |s| > 1 && s[1] == '{';
      var from := if braced then 2 else 1;
      var n := NameLength(s[from..]);
      if n == 0 || !NameStart(s[from]) then None
      else if !braced then Prepend(Value(env, s[1..1 + n]), ReadDouble(s[1 + n..], env))
      else if |s| == 2 + n || s[2 + n] != '}' then None
      else Prepend(Value(env, s[2..2 + n]), ReadDouble(s[3 + n..], env))
    else Prepend([s[0]], ReadDouble(s[1..], env))
  }

  /** The words of one simple command, and the text from its first operator or after its line. */
  datatype Command = Command(words: seq<string>, rest: string)

  /** The word being read, if one has begun. */
  function Begun(cur: Option<string>): string {
    if cur.Some? then cur.value else ""
  }

  function Flush(cur: Option<string>, done: seq<string>): seq<string> {
    if cur.Some? then done + [cur.value] else done
  }

  /** Characters of operators: unquoted, they end the word before them (2.3). */
  predicate Operator(c: char) {
    c == '|' || c == '&' || c == ';' || c == '<' || c == '>' || c == '(' || c == ')'
  }

  /** Characters that start an expansion or a pattern when unquoted; no text holds NUL. */
  predicate Expanding(c: char) {
    c == '$' || c == '`' || c == '*' || c == '?' || c == '[' || c == '\0'
  }

  /** The comment mark and the tilde mean something only where a word would begin. */
  predicate Opening(c: char) {
    c == '#' || c == '~'
  }

  /** Characters that stand for themselves outside quotes once a word has begun. */
  predicate Plain(c: char) {
    && !Operator(c) && !Expanding(c)
    && c != ' ' && c != '\t' && c != '\n' && c != '\\' && c != '\'' && c != '"'
  }

  /** Characters that stand for themselves anywhere outside quotes. */
  predicate Ordinary(c: char) {
    Plain(c) && !Opening(c)
  }

  /** Digits right before a redirection are no word but the number of a file. */
  predicate FileNumber(cur: Option<string>, c: char) {
    (c == '<' || c == '>') && cur.Some? && forall k :: 0 <= k < |cur.value| ==> '0' <= cur.value[k] <= '9'
  }

  /** Reads words up to the end of the line or an operator, outside quotes (2.3). */
  function Read(s: string, env: Env, cur: Option<string>, done: seq<string>): Option<Command>
    decreases |s|
  {
    if s == "" then Some(Command(Flush(cur, done), ""))
    else if s[0] == '\n' then Some(Command(Flush(cur, done), s[1..]))
    else if s[0] == ' ' || s[0] == '\t' then Read(s[1..], env, None, Flush(cur, done))
    else if s[0] == '\\' then
      if |s| == 1 || s[1] == '\0' then None
      else if s[1] == '\n' then Read(s[2..], env, cur, done)
      else Read(s[2..], env, Some(Begun(cur) + [s[1]]), done)
    else if s[0] == '\'' then
      var q := ReadSingle(s[1..]);
      if q.None? then None else Read(q.value.rest, env, Some(Begun(cur) + q.value.text), done)
    else if s[0] == '"' then
      var q := ReadDouble(s[1..], env);
      if q.None? then None else Read(q.value.rest, env, Some(Begun(cur) + q.value.text), done)
    else if Operator(s[0]) then
      if FileNumber(cur, s[0]) then None else Some(Command(Flush(cur, done), s))
    else if Expanding(s[0]) || (cur.None? && Opening(s[0])) then None
    else Read(s[1..], env, Some(Begun(cur) + [s[0]]), done)
  }

  /** The command at the front of a script. */
  function ReadCommand(script: string, env: Env): Option<Command> {
    Read(script, env, None, [])
  }

  // --- Pattern removal (2.6.2) ---

  datatype Glob = Lit(c: char) | Star

  predicate Matches(pat: seq<Glob>, s: string)
    decreases |pat| + |s|
  {
    if pat == [] then s == ""
    else match pat[0]
      case Lit(c) => s != "" && s[0] == c && Matches(pat[1..], s[1..])
      case Star => Matches(pat[1..], s) || (s != "" && Matches(pat, s[1..]))
  }

  /** `${x%%pat}`: without the largest suffix that matches; `i` counts the bytes known to stay. */
  function RemoveLargestSuffix(s: string, pat: seq<Glob>, i: nat): string
    requires i <= |s|
    decreases |s| - i
  {
    if Matches(pat, s[i..]) then s[..i]
    else if i == |s| then s
    else RemoveLargestSuffix(s, pat, i + 1)
  }

  /** `${x#pat}`: without the smallest prefix that matches; `i` counts the bytes tried. */
  function RemoveSmallestPrefix(s: string, pat: seq<Glob>, i: nat): string
    requires i <= |s|
    decreases |s| - i
  {
    if Matches(pat, s[..i]) then s[i..]
    else if i == |s| then s
    else RemoveSmallestPrefix(s, pat, i + 1)
  }

  const AT_REST: seq<Glob> := [Lit('@'), Star]
  const UP_TO_AT: seq<Glob> := [Star, Lit('@')]

  lemma {:induction false} StarMatchesAll(s: string)
    ensures Matches([Star], s)
  {
    assert [Star][1..] == [];
    if s != "" { StarMatchesAll(s[1..]); }
  }

  lemma MatchesAtRest(s: string)
    ensures Matches(AT_REST, s) <==> s != "" && s[0] == '@'
  {
    assert AT_REST[1..] == [Star];
    if s != "" { StarMatchesAll(s[1..]); }
  }

  lemma {:induction false} MatchesUpToAt(s: string)
    ensures Matches(UP_TO_AT, s) <==> s != "" && s[|s| - 1] == '@'
  {
    assert UP_TO_AT[1..] == [Lit('@')] && [Lit('@')][1..] == [];
    if s != "" {
      MatchesUpToAt(s[1..]);
      assert Matches([Lit('@')], s) <==> s == "@";
    }
  }

  lemma {:induction false} SuffixFrom(u: string, h: string, i: nat)
    requires '@' !in u && i <= |u|
    ensures RemoveLargestSuffix(u + "@" + h, AT_REST, i) == u
    decreases |u| - i
  {
    var x := u + "@" + h;
    MatchesAtRest(x[i..]);
    if i == |u| {
      assert x[..i] == u;
    } else {
      assert x[i] == u[i];
      SuffixFrom(u, h, i + 1);
    }
  }

  lemma {:induction false} PrefixFrom(u: string, h: string, i: nat)
    requires '@' !in u && i <= |u| + 1
    ensures RemoveSmallestPrefix(u + "@" + h, UP_TO_AT, i) == h
    decreases |u| + 1 - i
  {
    var x := u + "@" + h;
    MatchesUpToAt(x[..i]);
    if i == |u| + 1 {
      assert x[i..] == h;
    } else {
      assert i > 0 ==> x[..i][i - 1] == u[i - 1];
      PrefixFrom(u, h, i + 1);
    }
  }

  /** `${x%%@*}` and `${x#*@}` take `user@host` apart at the first `@`, for every host. */
  lemma SplitsUserAndHost(u: string, h: string)
    requires '@' !in u
    ensures RemoveLargestSuffix(u + "@" + h, AT_REST, 0) == u
    ensures RemoveSmallestPrefix(u + "@" + h, UP_TO_AT, 0) == h
  {
    SuffixFrom(u, h, 0);
    PrefixFrom(u, h, 0);
  }

  lemma {:induction false} FirstOccurrence(u: string, c: char) returns (k: nat)
    requires c in u
    ensures k < |u| && u[k] == c && c !in u[..k]
  {
    if u[0] == c {
      k := 0;
    } else {
      assert u == [u[0]] + u[1..];
      k := FirstOccurrence(u[1..], c);
      k := k + 1;
      assert u[..k] == [u[0]] + u[1..][..k - 1];
    }
  }

  /** The expansions recover both parts exactly when the user part holds no `@`. */
  lemma SplitsUserAndHostIff(u: string, h: string)
    ensures RemoveLargestSuffix(u + "@" + h, AT_REST, 0) == u && RemoveSmallestPrefix(u + "@" + h, UP_TO_AT, 0) == h
            <==> '@' !in u
  {
    if '@' in u {
      var k := FirstOccurrence(u, '@');
      assert u + "@" + h == u[..k] + "@" + (u[k + 1..] + "@" + h);
      SplitsUserAndHost(u[..k], u[k + 1..] + "@" + h);
    } else {
      SplitsUserAndHost(u, h);
    }
  }
}
