/**
 * The SFTP command of the server script, read twice by the shell: once inside double quotes when
 * `SFTP_CMD` is assigned, once more by `eval` (writeSFTPServerScript and writeSFTPAuthFlags).
 */
module SftpScript {
  import opened Options
  import opened Text
  import opened Shell
  import opened Quoting
  import opened ServerScript

  const CMD: string := "SFTP_CMD"
  const ASSIGN: string := "SFTP_CMD=\""

  /** A flag whose value is taken from a shell variable. */
  datatype FromVar = FromVar(flag: string, name: string)

  /** One assignment: a fresh command or the one so far, more words, then perhaps a variable's value. */
  datatype Line = Line(onto: bool, items: seq<Item>, last: Option<FromVar>) {
    function Tail(): string {
      if last.None? then "" else " " + last.value.flag + "$" + last.value.name
    }
    /** The text between the double quotes. */
    function Body(): string {
      (if onto then "$" + CMD else "kopia") + (Render(BLANK, items) + Tail())
    }
    function Script(): string {
      ASSIGN + Body() + "\""
    }
    /** The words the line adds. */
    function Adds(env: Env): seq<Item> {
      items + if last.None? then [] else [Bare(last.value.flag + Value(env, last.value.name))]
    }
    predicate Sound(env: Env) {
      && (forall i :: i in items ==> i.Readable() && i.Unchanged())
      && (last.Some? ==>
            && VariableName(last.value.name) && last.value.name != CMD
            && last.value.flag != "" && AllOrdinary(last.value.flag)
            && AllPlain(Value(env, last.value.name)))
    }
  }

  predicate VariableName(name: string) {
    name != "" && NameStart(name[0]) && forall k :: 0 <= k < |name| ==> NameChar(name[k])
  }

  /** Carries out one assignment line. */
  function RunLine(line: Line, env: Env): Option<Env> {
    var c := ReadCommand(line.Script(), env);
    if c.Some? && |c.value.words| == 1 && CMD + "=" <= c.value.words[0] && c.value.rest == "" then
      Some(env[CMD := c.value.words[0][|CMD| + 1..]])
    else None
  }

  function RunLines(lines: seq<Line>, env: Env): Option<Env> {
    if lines == [] then Some(env)
    else
      var env' := RunLine(lines[0], env);
      if env'.None? then None else RunLines(lines[1..], env'.value)
  }

  function AllAdded(lines: seq<Line>, env: Env): seq<Item> {
    if lines == [] then [] else lines[0].Adds(env) + AllAdded(lines[1..], env)
  }

  // --- First reading ---

  lemma PlainVerbatim(p: string)
    requires AllPlain(p)
    ensures Verbatim(p)
  {
    forall k | 0 <= k < |p| ensures Inert(p[k]) && (p[k] == '\\' && k + 1 < |p| ==> Unpaired(p[k + 1])) {
      assert Plain(p[k]);
    }
  }

  /** Rendered words pass the double quotes unchanged; they end neither in a backslash. */
  lemma {:induction false} RenderVerbatim(items: seq<Item>)
    requires forall i :: i in items ==> i.Readable() && i.Unchanged()
    ensures Verbatim(Render(BLANK, items))
    ensures items != [] ==> Render(BLANK, items)[|Render(BLANK, items)| - 1] != '\\'
    ensures items != [] ==> Render(BLANK, items)[0] == ' '
  {
    if items != [] {
      RenderVerbatim(items[1..]);
      ItemVerbatim(items[0]);
      BlankAndMore(items[0].Render(), Render(BLANK, items[1..]));
    }
  }

  lemma BlankAndMore(x: string, r: string)
    requires x != "" && Verbatim(x) && x[|x| - 1] != '\\' && Verbatim(r) && (r != "" ==> r[|r| - 1] != '\\')
    ensures Verbatim(BLANK + x + r) && (BLANK + x + r)[0] == ' ' && (BLANK + x + r)[|BLANK + x + r| - 1] != '\\'
  {
    JoinVerbatim(BLANK, x);
    assert (BLANK + x)[|BLANK + x| - 1] == x[|x| - 1];
    JoinVerbatim(BLANK + x, r);
  }

  lemma ItemVerbatim(i: Item)
    requires i.Readable() && i.Unchanged()
    ensures i.Render() != "" && Verbatim(i.Render()) && i.Render()[|i.Render()| - 1] != '\\'
  {
    PlainVerbatim(i.text);
    if i.Quote? {
      QuoteVerbatimIff(i.value);
      JoinVerbatim(i.text, ShellQuote(i.value));
    } else {
      assert Plain(i.text[|i.text| - 1]);
    }
  }

  lemma FlagReads(f: string, n: string, env: Env)
    requires f != "" && AllOrdinary(f) && VariableName(n)
    ensures ReadDouble((" " + f) + ("$" + n + "\""), env) == Some(Quoted((" " + f) + Value(env, n), ""))
  {
    PlainVerbatim(f);
    JoinVerbatim(" ", f);
    assert Ordinary(f[|f| - 1]);
    VerbatimReads(" " + f, "$" + n + "\"", env);
    DollarReads(n, "\"", env);
    CloseReads(env);
    assert Value(env, n) + "" == Value(env, n);
  }

  lemma RenderSingle(i: Item)
    ensures Render(BLANK, [i]) == " " + i.Render()
  {
    assert [i][1..] == [];
    assert Render(BLANK, [i]) == BLANK + i.Render() + "";
  }

  /** The tail inside double quotes becomes a blank, the flag and the variable's value. */
  lemma TailReads(line: Line, env: Env)
    requires line.Sound(env)
    ensures ReadDouble(line.Tail() + "\"", env) ==
            Some(Quoted(Render(BLANK, line.Adds(env)[|line.items|..]), ""))
  {
    if line.last.Some? {
      var f, n := line.last.value.flag, line.last.value.name;
      assert line.Tail() + "\"" == (" " + f) + ("$" + n + "\"");
      FlagReads(f, n, env);
      var i := Bare(f + Value(env, n));
      assert line.Adds(env)[|line.items|..] == [i];
      RenderSingle(i);
      assert " " + (f + Value(env, n)) == (" " + f) + Value(env, n);
    } else {
      assert line.Tail() + "\"" == "\"";
      CloseReads(env);
      assert line.Adds(env)[|line.items|..] == [];
    }
  }

  lemma CloseReads(env: Env)
    ensures ReadDouble("\"", env) == Some(Quoted("", ""))
  {
  }

  lemma CommandNameOk()
    ensures VariableName(CMD) && Verbatim("kopia")
  {
    PlainVerbatim("kopia");
  }

  /** A fresh command starts with the program, an extended one with what `SFTP_CMD` holds. */
  lemma HeadReads(onto: bool, more: string, env: Env)
    requires more != "" && (more[0] == ' ' || more[0] == '"')
    ensures ReadDouble((if onto then "$" + CMD else "kopia") + more, env) ==
            Prepend(if onto then Value(env, CMD) else "kopia", ReadDouble(more, env))
  {
    CommandNameOk();
    if onto {
      DollarReads(CMD, more, env);
    } else {
      VerbatimReads("kopia", more, env);
    }
  }

  /** The added words pass unchanged, the variable at the end is replaced. */
  lemma AddedReads(line: Line, env: Env)
    requires line.Sound(env)
    ensures ReadDouble(Render(BLANK, line.items) + (line.Tail() + "\""), env) ==
            Some(Quoted(Render(BLANK, line.Adds(env)), ""))
  {
    var added := line.Adds(env);
    RenderVerbatim(line.items);
    TailReads(line, env);
    VerbatimReads(Render(BLANK, line.items), line.Tail() + "\"", env);
    assert added == line.items + added[|line.items|..];
    RenderJoins(BLANK, line.items, added[|line.items|..]);
  }

  /** The whole body: what came before, then the rendered words the line adds. */
  lemma BodyReads(line: Line, env: Env)
    requires line.Sound(env)
    ensures ReadDouble(line.Body() + "\"", env) ==
            Some(Quoted((if line.onto then Value(env, CMD) else "kopia") + Render(BLANK, line.Adds(env)), ""))
  {
    var more := Render(BLANK, line.items) + (line.Tail() + "\"");
    var head := if line.onto then "$" + CMD else "kopia";
    RenderVerbatim(line.items);
    assert line.Body() + "\"" == head + more;
    assert more[0] == ' ' || more[0] == '"';
    HeadReads(line.onto, more, env);
    AddedReads(line, env);
  }

  // --- Both readings ---

  lemma AssignReads(body: string, v: string, env: Env)
    requires ReadDouble(body + "\"", env) == Some(Quoted(v, ""))
    ensures ReadCommand(ASSIGN + body + "\"", env) == Some(Command([CMD + "=" + v], ""))
  {
    var q := "\"" + (body + "\"");
    assert ASSIGN + body + "\"" == (CMD + "=") + q;
    AssignPrefix(q, env);
    assert q[1..] == body + "\"";
    assert Read(q, env, Some(CMD + "="), []) == Read("", env, Some(CMD + "=" + v), []);
    assert Flush(Some(CMD + "=" + v), []) == [CMD + "=" + v];
  }

  lemma AssignPrefix(rest: string, env: Env)
    ensures Read((CMD + "=") + rest, env, None, []) == Read(rest, env, Some(CMD + "="), [])
  {
    assert AllOrdinary(CMD + "=");
    PlainReads(CMD + "=", rest, env, None, []);
    assert Begun(None) + (CMD + "=") == CMD + "=";
  }

  lemma LineRuns(line: Line, env: Env)
    requires line.Sound(env)
    ensures RunLine(line, env) ==
            Some(env[CMD := (if line.onto then Value(env, CMD) else "kopia") + Render(BLANK, line.Adds(env))])
  {
    var v := (if line.onto then Value(env, CMD) else "kopia") + Render(BLANK, line.Adds(env));
    BodyReads(line, env);
    AssignReads(line.Body(), v, env);
    assert (CMD + "=" + v)[|CMD| + 1..] == v;
  }

  /** The command text after some words have been added to it. */
  function With(head: string, items: seq<Item>): string {
    head + Render(BLANK, items)
  }

  lemma WithMore(head: string, a: seq<Item>, b: seq<Item>)
    ensures With(head, a) + Render(BLANK, b) == With(head, a + b)
  {
    RenderJoins(BLANK, a, b);
    Associative(head, Render(BLANK, a), Render(BLANK, b));
  }

  /** A line that extends the command adds its words to it. */
  lemma LineExtends(l: Line, env: Env, head: string, acc: seq<Item>)
    requires l.onto && l.Sound(env) && CMD in env && env[CMD] == With(head, acc)
    ensures RunLine(l, env) == Some(env[CMD := With(head, acc + l.Adds(env))])
  {
    LineRuns(l, env);
    WithMore(head, acc, l.Adds(env));
  }

  /** Lines that extend the command keep adding words to it. */
  lemma {:induction false} LinesRun(lines: seq<Line>, env: Env, head: string, acc: seq<Item>)
    requires forall l :: l in lines ==> l.onto && l.Sound(env)
    requires CMD in env && env[CMD] == With(head, acc)
    ensures RunLines(lines, env) == Some(env[CMD := With(head, acc + AllAdded(lines, env))])
    decreases |lines|
  {
    if lines == [] {
      assert acc + AllAdded(lines, env) == acc;
      assert env == env[CMD := env[CMD]];
    } else {
      var acc' := acc + lines[0].Adds(env);
      var env' := env[CMD := With(head, acc')];
      LineExtends(lines[0], env, head, acc);
      OtherVariables(lines[1..], env, env');
      LinesRun(lines[1..], env', head, acc');
      AddedFirst(lines, env, acc);
      OverwriteTwice(env, With(head, acc'), With(head, acc + AllAdded(lines, env)));
    }
  }

  lemma AddedFirst(lines: seq<Line>, env: Env, acc: seq<Item>)
    requires lines != []
    ensures acc + lines[0].Adds(env) + AllAdded(lines[1..], env) == acc + AllAdded(lines, env)
  {
  }

  lemma OverwriteTwice(env: Env, v: string, w: string)
    ensures env[CMD := v][CMD := w] == env[CMD := w]
  {
  }

  /** The variables a line uses are not the command variable. */
  lemma {:induction false} OtherVariables(lines: seq<Line>, env: Env, env': Env)
    requires forall l :: l in lines ==> l.Sound(env)
    requires env' == env[CMD := Value(env', CMD)]
    ensures forall l :: l in lines ==> l.Sound(env')
    ensures AllAdded(lines, env') == AllAdded(lines, env)
  {
    if lines != [] {
      OtherVariables(lines[1..], env, env');
      assert lines[0].Sound(env);
      assert forall l :: l in lines ==> l == lines[0] || l in lines[1..];
    }
  }

  // --- The script ---

  datatype Sftp = Sftp(
    host: string, port: int, path: string, hostname: string, username: string,
    inlineKnownHosts: bool, externalSsh: bool, sshCommand: string, cacheFlags: seq<string>)

  function PortOf(s: Sftp): nat {
    if s.port > 0 then s.port else DEFAULT_SFTP_PORT
  }

  function FirstLine(s: Sftp, verb: string): Line {
    Line(false,
         [Bare("repository"), Bare(verb), Bare("sftp"), Quote("--host=", s.host),
          Bare("--port=" + Decimal(PortOf(s))), Quote("--path=", s.path)],
         Some(FromVar("--username=", "SFTP_USER")))
  }

  /** The key file is preferred to the password; with neither the script exits. */
  function AuthLine(env: Env): Option<Line> {
    if Value(env, "SFTP_KEY") != "" then Some(Line(true, [], Some(FromVar("--keyfile=", "SSH_KEY_FILE"))))
    else if Value(env, "SFTP_PASSWORD") != "" then
      Some(Line(true, [], Some(FromVar("--sftp-password=", "SFTP_PASSWORD"))))
    else None
  }

  function KnownHostsLines(s: Sftp, env: Env): seq<Line> {
    if s.inlineKnownHosts || Value(env, "SFTP_KNOWN_HOSTS") != "" then
      [Line(true, [Bare("--known-hosts=/tmp/known_hosts")], None)]
    else []
  }

  function ExternalLines(s: Sftp): seq<Line> {
    if s.externalSsh then
      [Line(true, [Bare("--external-ssh"),
                   Quote("--ssh-command=", if s.sshCommand != "" then s.sshCommand else "ssh")], None)]
    else []
  }

  function LastLine(s: Sftp): Line {
    Line(true,
         [Quote("--override-hostname=", s.hostname), Quote("--override-username=", s.username)]
         + seq(|s.cacheFlags|, k requires 0 <= k < |s.cacheFlags| => Bare(s.cacheFlags[k])),
         None)
  }

  /** The assignments the script carries out, or none when it exits for want of credentials. */
  function Lines(s: Sftp, verb: string, env: Env): Option<seq<Line>> {
    if AuthLine(env).None? then None
    else Some([FirstLine(s, verb)] + [AuthLine(env).value] + KnownHostsLines(s, env) + ExternalLines(s) + [LastLine(s)])
  }

  /** The spec values survive double quotes; the values from the credentials secret are plain words. */
  predicate Passable(s: Sftp, env: Env) {
    && Verbatim(s.host) && Verbatim(s.path) && Verbatim(s.hostname) && Verbatim(s.username) && Verbatim(s.sshCommand)
    && AllPlain(Value(env, "SFTP_USER")) && AllPlain(Value(env, "SSH_KEY_FILE"))
    && AllPlain(Value(env, "SFTP_PASSWORD"))
    && (forall f :: f in s.cacheFlags ==> f != "" && Wordlike(f))
  }

  lemma VerbatimNoNul(v: string)
    requires Verbatim(v)
    ensures '\0' !in v
  {
  }

  predicate Good(i: Item) {
    i.Readable() && i.Unchanged()
  }

  lemma QuoteGood(text: string, v: string)
    requires AllOrdinary(text) && Verbatim(v)
    ensures Good(Quote(text, v))
  {
    VerbatimNoNul(v);
  }

  lemma AllGood(a: Item, b: Item, c: Item, d: Item, e: Item, f: Item)
    requires Good(a) && Good(b) && Good(c) && Good(d) && Good(e) && Good(f)
    ensures forall i :: i in [a, b, c, d, e, f] ==> i.Readable() && i.Unchanged()
  {
  }

  lemma VerbsOrdinary(n: nat)
    ensures Good(Bare("repository")) && Good(Bare("connect")) && Good(Bare("create")) && Good(Bare("sftp"))
    ensures Good(Bare("--port=" + Decimal(n)))
  {
    assert AllOrdinary("--port=");
  }

  lemma FlagsOrdinary()
    ensures AllOrdinary("--host=") && AllOrdinary("--path=") && AllOrdinary("--username=")
  {
  }

  lemma OverridesOrdinary()
    ensures AllOrdinary("--override-hostname=")
    ensures AllOrdinary("--override-username=")
  {
  }

  lemma KnownHostsOrdinary()
    ensures AllOrdinary("--known-hosts=/tmp/known_hosts")
  {
  }

  lemma ExternalOrdinary()
    ensures AllOrdinary("--external-ssh") && AllOrdinary("--ssh-command=")
    ensures AllOrdinary("ssh") && Verbatim("ssh")
  {
    PlainVerbatim("ssh");
  }

  lemma UserName()
    ensures VariableName("SFTP_USER") && "SFTP_USER" != CMD
  {
    assert "SFTP_USER"[5] == 'U';
  }

  lemma FirstLineSound(s: Sftp, verb: string, env: Env)
    requires Passable(s, env) && (verb == "connect" || verb == "create")
    ensures FirstLine(s, verb).Sound(env)
  {
    VerbsOrdinary(PortOf(s));
    FlagsOrdinary();
    QuoteGood("--host=", s.host);
    QuoteGood("--path=", s.path);
    UserName();
    AllGood(Bare("repository"), Bare(verb), Bare("sftp"), Quote("--host=", s.host),
            Bare("--port=" + Decimal(PortOf(s))), Quote("--path=", s.path));
  }

  lemma KeyFileOrdinary()
    ensures AllOrdinary("--keyfile=") && VariableName("SSH_KEY_FILE")
  {
  }

  lemma SftpPasswordOrdinary()
    ensures AllOrdinary("--sftp-password=") && VariableName("SFTP_PASSWORD")
  {
  }

  lemma AuthLineSound(s: Sftp, env: Env)
    requires Passable(s, env) && AuthLine(env).Some?
    ensures AuthLine(env).value.Sound(env)
  {
    KeyFileOrdinary();
    SftpPasswordOrdinary();
  }

  lemma KnownHostsSound(s: Sftp, env: Env)
    ensures forall l :: l in KnownHostsLines(s, env) ==> l.onto && l.Sound(env)
  {
    KnownHostsOrdinary();
  }

  lemma ExternalSound(s: Sftp, env: Env)
    requires Verbatim(s.sshCommand)
    ensures forall l :: l in ExternalLines(s) ==> l.onto && l.Sound(env)
  {
    ExternalOrdinary();
    var v := if s.sshCommand != "" then s.sshCommand else "ssh";
    QuoteGood("--ssh-command=", v);
    assert Good(Bare("--external-ssh"));
  }

  lemma LastLineSound(s: Sftp, env: Env)
    requires Passable(s, env)
    ensures LastLine(s).Sound(env)
  {
    OverridesOrdinary();
    QuoteGood("--override-hostname=", s.hostname);
    QuoteGood("--override-username=", s.username);
    forall i | i in LastLine(s).items ensures Good(i) {
      if i != Quote("--override-hostname=", s.hostname) && i != Quote("--override-username=", s.username) {
        var k :| 0 <= k < |s.cacheFlags| && i == Bare(s.cacheFlags[k]);
        assert s.cacheFlags[k] in s.cacheFlags;
      }
    }
  }

  function AuthWords(env: Env): seq<string> {
    if Value(env, "SFTP_KEY") != "" then ["--keyfile=" + Value(env, "SSH_KEY_FILE")]
    else ["--sftp-password=" + Value(env, "SFTP_PASSWORD")]
  }

  function OptionalWords(s: Sftp, env: Env): seq<string> {
    (if s.inlineKnownHosts || Value(env, "SFTP_KNOWN_HOSTS") != "" then ["--known-hosts=/tmp/known_hosts"] else [])
    + if s.externalSsh then
        ["--external-ssh", "--ssh-command=" + if s.sshCommand != "" then s.sshCommand else "ssh"]
      else []
  }

  /** The words the command is meant to consist of. */
  function ExpectedWords(s: Sftp, verb: string, env: Env): seq<string> {
    ["kopia", "repository", verb, "sftp", "--host=" + s.host,
     "--port=" + (if s.port > 0 then Decimal(s.port) else "22"), "--path=" + s.path,
     "--username=" + Value(env, "SFTP_USER")]
    + AuthWords(env)
    + OptionalWords(s, env)
    + ["--override-hostname=" + s.hostname, "--override-username=" + s.username]
    + s.cacheFlags
  }

  lemma {:induction false} AddedJoin(a: seq<Line>, b: seq<Line>, env: Env)
    ensures AllAdded(a + b, env) == AllAdded(a, env) + AllAdded(b, env)
  {
    if a == [] {
      assert a + b == b;
    } else {
      assert (a + b)[1..] == a[1..] + b;
      AddedJoin(a[1..], b, env);
    }
  }

  lemma OneAdded(l: Line, env: Env)
    ensures AllAdded([l], env) == l.Adds(env)
  {
    assert [l][1..] == [];
    assert AllAdded([], env) == [];
  }

  lemma FirstWords(s: Sftp, verb: string, env: Env)
    ensures ["kopia"] + Words(FirstLine(s, verb).Adds(env)) ==
            ["kopia", "repository", verb, "sftp", "--host=" + s.host,
             "--port=" + (if s.port > 0 then Decimal(s.port) else "22"), "--path=" + s.path,
             "--username=" + Value(env, "SFTP_USER")]
  {
    DefaultPorts();
  }

  lemma OptionalAdded(s: Sftp, env: Env)
    ensures Words(AllAdded(KnownHostsLines(s, env) + ExternalLines(s), env)) == OptionalWords(s, env)
  {
    var k, x := KnownHostsLines(s, env), ExternalLines(s);
    AddedJoin(k, x, env);
    WordsJoin(AllAdded(k, env), AllAdded(x, env));
    if k != [] { OneAdded(k[0], env); }
    if x != [] { OneAdded(x[0], env); }
  }

  lemma LastWords(s: Sftp, env: Env)
    ensures Words(LastLine(s).Adds(env)) ==
            ["--override-hostname=" + s.hostname, "--override-username=" + s.username] + s.cacheFlags
  {
  }

  lemma WordsAdded(s: Sftp, verb: string, env: Env, lines: seq<Line>)
    requires Lines(s, verb, env) == Some(lines)
    ensures ["kopia"] + Words(AllAdded(lines, env)) == ExpectedWords(s, verb, env)
  {
    var f, a, l := FirstLine(s, verb), AuthLine(env).value, LastLine(s);
    var o := KnownHostsLines(s, env) + ExternalLines(s);
    assert lines == [f] + ([a] + (o + [l]));
    JoinFour([f], [a], o, [l], env);
    OneAdded(f, env);
    OneAdded(a, env);
    OneAdded(l, env);
    FirstWords(s, verb, env);
    AuthAdded(env);
    OptionalAdded(s, env);
    LastWords(s, env);
    Arrange("kopia", Words(f.Adds(env)), AuthWords(env), OptionalWords(s, env),
            ["--override-hostname=" + s.hostname, "--override-username=" + s.username], s.cacheFlags);
  }

  lemma AuthAdded(env: Env)
    requires AuthLine(env).Some?
    ensures Words(AuthLine(env).value.Adds(env)) == AuthWords(env)
  {
  }

  lemma Arrange(k: string, a: seq<string>, b: seq<string>, c: seq<string>, d: seq<string>, e: seq<string>)
    ensures [k] + (a + b + c + (d + e)) == ([k] + a) + b + c + d + e
  {
  }

  lemma JoinTwo(a: seq<Line>, b: seq<Line>, env: Env)
    ensures Words(AllAdded(a + b, env)) == Words(AllAdded(a, env)) + Words(AllAdded(b, env))
  {
    AddedJoin(a, b, env);
    WordsJoin(AllAdded(a, env), AllAdded(b, env));
  }

  lemma JoinFour(a: seq<Line>, b: seq<Line>, c: seq<Line>, d: seq<Line>, env: Env)
    ensures Words(AllAdded(a + (b + (c + d)), env)) ==
            Words(AllAdded(a, env)) + Words(AllAdded(b, env)) + Words(AllAdded(c, env)) + Words(AllAdded(d, env))
  {
    JoinTwo(a, b + (c + d), env);
    JoinTwo(b, c + d, env);
    JoinTwo(c, d, env);
    FourWords(Words(AllAdded(a, env)), Words(AllAdded(b, env)), Words(AllAdded(c, env)), Words(AllAdded(d, env)));
  }

  lemma FourWords(a: seq<string>, b: seq<string>, c: seq<string>, d: seq<string>)
    ensures a + (b + (c + d)) == a + b + c + d
  {
  }

  /**
   * After both readings `eval` sees exactly the intended words, one per value, single quotes included; the script exits
   * before that exactly when the secret has neither key nor password.
   */
  lemma SftpCommandReads(s: Sftp, verb: string, env: Env)
    requires verb == "connect" || verb == "create"
    requires Passable(s, env)
    ensures Lines(s, verb, env).None? <==> Value(env, "SFTP_KEY") == "" && Value(env, "SFTP_PASSWORD") == ""
    ensures Lines(s, verb, env).Some? ==>
              var out := RunLines(Lines(s, verb, env).value, env);
              && out.Some?
              && ReadCommand(Value(out.value, CMD), out.value) == Some(Command(ExpectedWords(s, verb, env), ""))
  {
    if Lines(s, verb, env).Some? { LinesRead(s, verb, env, Lines(s, verb, env).value); }
  }

  lemma LinesRead(s: Sftp, verb: string, env: Env, lines: seq<Line>)
    requires verb == "connect" || verb == "create"
    requires Lines(s, verb, env) == Some(lines) && Passable(s, env)
    ensures var out := RunLines(lines, env);
            && out.Some?
            && ReadCommand(Value(out.value, CMD), out.value) ==
               Some(Command(ExpectedWords(s, verb, env), ""))
  {
    var first, more := lines[0], lines[1..];
    FirstLineSound(s, verb, env);
    LineRuns(first, env);
    MoreLinesSound(s, verb, env, lines);
    var acc := first.Adds(env);
    var env' := env[CMD := With("kopia", acc)];
    OtherVariables(more, env, env');
    LinesRun(more, env', "kopia", acc);
    var all := acc + AllAdded(more, env);
    assert all == AllAdded(lines, env);
    var out := env'[CMD := With("kopia", all)];
    assert RunLines(lines, env) == Some(out);
    AddedReadable(lines, env);
    EvalReads(all, out);
    WordsAdded(s, verb, env, lines);
  }

  lemma MoreLinesSound(s: Sftp, verb: string, env: Env, lines: seq<Line>)
    requires Lines(s, verb, env) == Some(lines) && Passable(s, env)
    ensures lines != [] && lines[0] == FirstLine(s, verb)
    ensures forall l :: l in lines[1..] ==> l.onto && l.Sound(env)
  {
    AuthLineSound(s, env);
    KnownHostsSound(s, env);
    ExternalSound(s, env);
    LastLineSound(s, env);
    var a, k, x := AuthLine(env).value, KnownHostsLines(s, env), ExternalLines(s);
    assert lines[1..] == [a] + k + x + [LastLine(s)];
  }

  lemma {:induction false} AddedReadable(lines: seq<Line>, env: Env)
    requires forall l :: l in lines ==> l.Sound(env)
    ensures forall i :: i in AllAdded(lines, env) ==> i.Readable()
  {
    if lines != [] {
      AddedReadable(lines[1..], env);
      assert lines[0].Sound(env);
    }
  }

  lemma KopiaOrdinary()
    ensures AllOrdinary("kopia")
  {
    var s := "kopia";
    assert forall k :: 0 <= k < |s| ==> 'a' <= s[k] <= 'z';
  }

  lemma CommandReads(head: string, items: seq<Item>, env: Env)
    requires head != "" && AllOrdinary(head) && forall i :: i in items ==> i.Readable()
    ensures ReadCommand(head + Render(BLANK, items), env) == Some(Command([head] + Words(items), ""))
  {
    FirstWordReads(head, Render(BLANK, items), env, []);
    AllItemsRead(head, items, env);
  }

  lemma AllItemsRead(head: string, items: seq<Item>, env: Env)
    requires forall i :: i in items ==> i.Readable()
    ensures Read(Render(BLANK, items), env, Some(head), []) == Some(Command([head] + Words(items), ""))
  {
    ItemsRead(BLANK, items, "", env, head, []);
    NothingAround(Render(BLANK, items), head, Words(items));
  }

  lemma NothingAround(r: string, head: string, words: seq<string>)
    ensures r + "" == r && [] + [head] + words == [head] + words
  {
  }

  lemma EvalReads(items: seq<Item>, env: Env)
    requires forall i :: i in items ==> i.Readable()
    ensures ReadCommand("kopia" + Render(BLANK, items), env) == Some(Command(["kopia"] + Words(items), ""))
  {
    KopiaOrdinary();
    CommandReads("kopia", items, env);
  }
}
