/** The generated server scripts (internal/kopia/server/manager.go) as the shell reads them. */
module ServerScript {
  import opened Options
  import opened Text
  import opened Shell
  import opened Quoting

  const DEFAULT_SERVER_PORT: nat := 51515
  const DEFAULT_SFTP_PORT: nat := 22

  /** `%d` for a non-negative number. */
  function Decimal(n: nat): (s: string)
    ensures s != "" && forall k :: 0 <= k < |s| ==> '0' <= s[k] <= '9'
  {
    if n < 10 then [(48 + n) as char] else Decimal(n / 10) + [(48 + n % 10) as char]
  }

  /** What a string of digits stands for. */
  function Number(s: string): nat
    requires forall k :: 0 <= k < |s| ==> '0' <= s[k] <= '9'
  {
    if s == "" then 0 else 10 * Number(s[..|s| - 1]) + (s[|s| - 1] as int - '0' as int)
  }

  /** The decimal form stands for its number, and has no leading zero. */
  lemma {:induction false} DecimalReads(n: nat)
    ensures Number(Decimal(n)) == n && (n > 0 ==> Decimal(n)[0] != '0')
  {
    var s := Decimal(n);
    if n < 10 {
      assert s[..0] == "" && Number(s[..|s| - 1]) == 0;
    } else {
      DecimalReads(n / 10);
      assert s[..|s| - 1] == Decimal(n / 10);
    }
  }

  lemma DefaultPorts()
    ensures Decimal(DEFAULT_SERVER_PORT) == "51515" && Decimal(DEFAULT_SFTP_PORT) == "22"
  {
    assert Decimal(5) == "5" && Decimal(51) == "51" && Decimal(515) == "515" && Decimal(5151) == "5151";
    assert Decimal(2) == "2";
  }

  // --- A command as a list of words ---

  /** A word of a command line: plain text, then optionally a quoted value. */
  datatype Item = Bare(text: string) | Quote(text: string, value: string) {
    function Render(): string {
      if Bare? then text else text + ShellQuote(value)
    }
    function Word(): string {
      if Bare? then text else text + value
    }
    predicate Readable() {
      Wordlike(text) && (Bare? ==> text != "") && (Quote? ==> '\0' !in value)
    }
    predicate Unchanged() {
      Quote? ==> Verbatim(value)
    }
  }

  function Words(items: seq<Item>): seq<string> {
    seq(|items|, k requires 0 <= k < |items| => items[k].Word())
  }

  /** Every item after a separator. */
  function Render(sep: string, items: seq<Item>): string {
    if items == [] then "" else sep + items[0].Render() + Render(sep, items[1..])
  }

  const BLANK: string := " "
  const NEXT_LINE: string := " \\\n  "

  lemma ContinuationReads(rest: string, env: Env, cur: Option<string>, done: seq<string>)
    ensures Read("\\\n" + rest, env, cur, done) == Read(rest, env, cur, done)
  {
    assert ("\\\n" + rest)[2..] == rest;
  }

  lemma EndReads(rest: string, env: Env, cur: string, done: seq<string>)
    requires rest == "" || rest[0] == '\n'
    ensures Read(rest, env, Some(cur), done) == Some(Command(done + [cur], if rest == "" then "" else rest[1..]))
  {
  }

  lemma SeparatorReads(sep: string, rest: string, env: Env, cur: Option<string>, done: seq<string>)
    requires sep == BLANK || sep == NEXT_LINE
    ensures Read(sep + rest, env, cur, done) == Read(rest, env, None, Flush(cur, done))
  {
    if sep == BLANK {
      BlankReads(rest, env, cur, done);
    } else {
      var done' := Flush(cur, done);
      assert sep + rest == " " + ("\\\n" + (" " + (" " + rest)));
      BlankReads("\\\n" + (" " + (" " + rest)), env, cur, done);
      ContinuationReads(" " + (" " + rest), env, None, done');
      BlankReads(" " + rest, env, None, done');
      BlankReads(rest, env, None, done');
    }
  }

  lemma ItemReads(i: Item, rest: string, env: Env, done: seq<string>)
    requires i.Readable()
    ensures Read(i.Render() + rest, env, None, done) == Read(rest, env, Some(i.Word()), done)
  {
    if i.Bare? {
      PlainReads(i.text, rest, env, None, done);
      assert Begun(None) + i.text == i.text;
    } else {
      var q := ShellQuote(i.value) + rest;
      assert i.Render() + rest == i.text + q;
      if i.text == "" {
        assert i.text + q == q;
        QuoteReads(i.value, rest, env, None, done);
        assert Begun(None) + i.value == i.Word();
      } else {
        PlainReads(i.text, q, env, None, done);
        assert Begun(None) + i.text == i.text;
        QuoteReads(i.value, rest, env, Some(i.text), done);
      }
    }
  }

  lemma FirstItemReads(sep: string, items: seq<Item>, rest: string, env: Env, cur: string, done: seq<string>)
    requires sep == BLANK || sep == NEXT_LINE
    requires items != [] && items[0].Readable()
    ensures Read(Render(sep, items) + rest, env, Some(cur), done) ==
            Read(Render(sep, items[1..]) + rest, env, Some(items[0].Word()), done + [cur])
  {
    var tail := Render(sep, items[1..]) + rest;
    RenderFirst(sep, items, rest);
    SeparatorReads(sep, items[0].Render() + tail, env, Some(cur), done);
    ItemReads(items[0], tail, env, done + [cur]);
  }

  /** All words but the last are done, the last is still open. */
  lemma {:induction false} ItemsThrough(sep: string, items: seq<Item>, rest: string, env: Env, cur: string,
                                        done: seq<string>)
    requires sep == BLANK || sep == NEXT_LINE
    requires forall i :: i in items ==> i.Readable()
    ensures var all := [cur] + Words(items);
            Read(Render(sep, items) + rest, env, Some(cur), done) ==
            Read(rest, env, Some(all[|items|]), done + all[..|items|])
    decreases |items|
  {
    if items == [] {
      assert Render(sep, items) + rest == rest;
      assert done + ([cur] + Words(items))[..0] == done;
    } else {
      FirstItemReads(sep, items, rest, env, cur, done);
      ItemsThrough(sep, items[1..], rest, env, items[0].Word(), done + [cur]);
      ShiftWords(items, cur, done);
    }
  }

  lemma ShiftWords(items: seq<Item>, cur: string, done: seq<string>)
    requires items != []
    ensures var all := [cur] + Words(items);
            var less := [items[0].Word()] + Words(items[1..]);
            && all[|items|] == less[|items| - 1]
            && done + all[..|items|] == done + [cur] + less[..|items| - 1]
  {
    assert Words(items) == [items[0].Word()] + Words(items[1..]);
  }

  /** Rendered items are read back as exactly their words, one word each. */
  lemma ItemsRead(sep: string, items: seq<Item>, rest: string, env: Env, cur: string, done: seq<string>)
    requires sep == BLANK || sep == NEXT_LINE
    requires forall i :: i in items ==> i.Readable()
    requires rest == "" || rest[0] == '\n'
    ensures Read(Render(sep, items) + rest, env, Some(cur), done) ==
            Some(Command(done + [cur] + Words(items), if rest == "" then "" else rest[1..]))
  {
    var all := [cur] + Words(items);
    ItemsThrough(sep, items, rest, env, cur, done);
    EndReads(rest, env, all[|items|], done + all[..|items|]);
    assert done + all[..|items|] + [all[|items|]] == done + [cur] + Words(items);
  }

  /** A value with NUL stops the reader. */
  lemma {:induction false} ItemsStop(sep: string, items: seq<Item>, rest: string, env: Env, cur: string,
                                     done: seq<string>)
    requires sep == BLANK || sep == NEXT_LINE
    requires forall i :: i in items ==> i.Quote? && i.text == ""
    requires exists i :: i in items && '\0' in i.value
    ensures Read(Render(sep, items) + rest, env, Some(cur), done) == None
    decreases |items|
  {
    if '\0' in items[0].value {
      var tail := Render(sep, items[1..]) + rest;
      RenderFirst(sep, items, rest);
      SeparatorReads(sep, items[0].Render() + tail, env, Some(cur), done);
      assert items[0].Render() == ShellQuote(items[0].value);
      QuoteReads(items[0].value, tail, env, None, done + [cur]);
    } else {
      FirstItemReads(sep, items, rest, env, cur, done);
      ItemsStop(sep, items[1..], rest, env, items[0].Word(), done + [cur]);
    }
  }

  lemma RenderFirst(sep: string, items: seq<Item>, rest: string)
    requires items != []
    ensures Render(sep, items) + rest == sep + (items[0].Render() + (Render(sep, items[1..]) + rest))
  {
  }

  lemma {:induction false} RenderJoins(sep: string, a: seq<Item>, b: seq<Item>)
    ensures Render(sep, a + b) == Render(sep, a) + Render(sep, b)
  {
    if a == [] {
      assert a + b == b;
    } else {
      assert (a + b)[1..] == a[1..] + b;
      RenderJoins(sep, a[1..], b);
    }
  }

  lemma WordsJoin(a: seq<Item>, b: seq<Item>)
    ensures Words(a + b) == Words(a) + Words(b)
  {
  }

  // --- kopia server start ---

  /** strings.Builder */
  class Builder {
    var text: string

    constructor ()
      ensures text == ""
    {
      text := "";
    }

    method WriteString(s: string)
      modifies this
      ensures text == old(text) + s
    {
      text := text + s;
    }
  }

  function QuotedArgs(args: seq<string>): seq<Item> {
    seq(|args|, k requires 0 <= k < |args| => Quote("", args[k]))
  }

  const PASSWORD_NAME: string := "KOPIA_SERVER_PASSWORD"
  const PASSWORD_FLAG: string := "--server-control-" + "password="
  const KEY_FLAG: string := "--tls-key-file=" + "/tls/tls.key"
  const CERT_FLAG: string := "--tls-cert-file=" + "/tls/tls.crt"
  const ADDRESS_FLAG: string := "--address=" + "0.0.0.0:"
  const CONTROL_FLAG: string := "--server-control-" + "username=admin"
  const START: string := "kopia server start"

  /** The flags before the password value, one to a line. */
  function FixedItems(): seq<Item> {
    [Bare(CERT_FLAG), Bare(KEY_FLAG),
     Bare(ADDRESS_FLAG + Decimal(DEFAULT_SERVER_PORT)), Bare(CONTROL_FLAG),
     Bare(PASSWORD_FLAG)]
  }

  function QuotedPassword(): string {
    "\"${" + PASSWORD_NAME + "}\""
  }

  /** The text that starts the server: each flag on a continued line of its own. */
  function StartCommand(extraArgs: seq<string>): string {
    START + Render(NEXT_LINE, FixedItems()) + QuotedPassword() + Render(NEXT_LINE, QuotedArgs(extraArgs)) + "\n"
  }

  /** The arguments before the extra ones, the server password taken from the environment. */
  function FixedArgs(env: Env): seq<string> {
    ["kopia", "server", "start", "--tls-cert-file=/tls/tls.crt", "--tls-key-file=/tls/tls.key",
     "--address=0.0.0.0:51515", "--server-control-username=admin",
     "--server-control-password=" + Value(env, "KOPIA_SERVER_PASSWORD")]
  }

  lemma CertWord()
    ensures CERT_FLAG == "--tls-cert-file=/tls/tls.crt"
  {
  }

  lemma KeyWord()
    ensures KEY_FLAG == "--tls-key-file=/tls/tls.key"
  {
  }

  lemma AddressWord()
    ensures ADDRESS_FLAG + Decimal(DEFAULT_SERVER_PORT) == "--address=0.0.0.0:51515"
  {
    DefaultPorts();
  }

  lemma ControlWord()
    ensures CONTROL_FLAG == "--server-control-username=admin"
  {
  }

  lemma PasswordWord(value: string)
    ensures PASSWORD_FLAG + value == "--server-control-password=" + value
  {
    assert PASSWORD_FLAG == "--server-control-password=";
  }

  lemma {:induction false} NameLengthIs(name: string, rest: string)
    requires forall k :: 0 <= k < |name| ==> NameChar(name[k])
    requires rest == "" || !NameChar(rest[0])
    ensures NameLength(name + rest) == |name|
  {
    if name == "" {
      assert name + rest == rest;
    } else {
      assert (name + rest)[1..] == name[1..] + rest;
      NameLengthIs(name[1..], rest);
    }
  }

  /** `${name}` inside double quotes. */
  lemma BracedReads(name: string, rest: string, env: Env)
    requires name != "" && NameStart(name[0]) && forall k :: 0 <= k < |name| ==> NameChar(name[k])
    ensures ReadDouble("${" + name + "}" + rest, env) == Prepend(Value(env, name), ReadDouble(rest, env))
  {
    var s := "${" + name + "}" + rest;
    assert s[2..] == name + ("}" + rest);
    NameLengthIs(name, "}" + rest);
    assert s[2..2 + |name|] == name && s[2 + |name|] == '}' && s[3 + |name|..] == rest;
  }

  /** `$name` inside double quotes. */
  lemma DollarReads(name: string, rest: string, env: Env)
    requires name != "" && NameStart(name[0]) && forall k :: 0 <= k < |name| ==> NameChar(name[k])
    requires rest == "" || !NameChar(rest[0])
    ensures ReadDouble("$" + name + rest, env) == Prepend(Value(env, name), ReadDouble(rest, env))
  {
    var s := "$" + name + rest;
    assert s[1..] == name + rest && s[1] == name[0];
    NameLengthIs(name, rest);
    assert s[1..1 + |name|] == name && s[1 + |name|..] == rest;
  }

  /** A double-quoted expansion adds the value to the word, unsplit. */
  lemma QuotedParameterReads(name: string, rest: string, env: Env, cur: string, done: seq<string>)
    requires name != "" && NameStart(name[0]) && forall k :: 0 <= k < |name| ==> NameChar(name[k])
    ensures Read("\"${" + name + "}\"" + rest, env, Some(cur), done) ==
            Read(rest, env, Some(cur + Value(env, name)), done)
  {
    Regrouped(name, rest);
    BracedCloses(name, rest, env);
    OpenQuote("${" + name + "}" + ("\"" + rest), Value(env, name), rest, env, cur, done);
  }

  lemma Regrouped(name: string, rest: string)
    ensures "\"${" + name + "}\"" + rest == "\"" + ("${" + name + "}" + ("\"" + rest))
  {
  }

  lemma OpenQuote(t: string, text: string, rest: string, env: Env, cur: string, done: seq<string>)
    requires ReadDouble(t, env) == Some(Quoted(text, rest))
    ensures Read("\"" + t, env, Some(cur), done) == Read(rest, env, Some(cur + text), done)
  {
    assert ("\"" + t)[1..] == t;
  }

  lemma BracedCloses(name: string, rest: string, env: Env)
    requires name != "" && NameStart(name[0]) && forall k :: 0 <= k < |name| ==> NameChar(name[k])
    ensures ReadDouble("${" + name + "}" + ("\"" + rest), env) == Some(Quoted(Value(env, name), rest))
  {
    var close := "\"" + rest;
    BracedReads(name, close, env);
    assert close[1..] == rest;
    assert Value(env, name) + "" == Value(env, name);
  }

  lemma PasswordNameOk()
    ensures PASSWORD_NAME != "" && NameStart(PASSWORD_NAME[0])
    ensures forall k :: 0 <= k < |PASSWORD_NAME| ==> NameChar(PASSWORD_NAME[k])
  {
  }

  lemma StartReads(rest: string, env: Env)
    ensures Read(START + rest, env, None, []) == Read(rest, env, Some("start"), ["kopia", "server"])
  {
    var r2 := "start" + rest;
    var r1 := "server" + " " + r2;
    assert START + rest == "kopia" + " " + r1;
    StartWords();
    ThreeWordsRead("kopia", "server", "start", rest, env);
  }

  lemma StartWords()
    ensures AllOrdinary("kopia") && AllOrdinary("server") && AllOrdinary("start")
  {
  }

  lemma ThreeWordsRead(a: string, b: string, c: string, rest: string, env: Env)
    requires a != "" && b != "" && c != "" && AllOrdinary(a) && AllOrdinary(b) && AllOrdinary(c)
    ensures Read(a + " " + (b + " " + (c + rest)), env, None, []) == Read(rest, env, Some(c), [a, b])
  {
    WordReads(a, b + " " + (c + rest), env, []);
    assert [] + [a] == [a];
    WordReads(b, c + rest, env, [a]);
    assert [a] + [b] == [a, b];
    PlainReads(c, rest, env, None, [a, b]);
    assert Begun(None) + c == c;
  }

  lemma CertFlagOrdinary()
    ensures AllOrdinary(CERT_FLAG)
  {
    assert AllOrdinary("--tls-cert-file=") && AllOrdinary("/tls/tls.crt");
  }

  lemma KeyFlagOrdinary()
    ensures AllOrdinary(KEY_FLAG)
  {
    assert AllOrdinary("--tls-key-file=") && AllOrdinary("/tls/tls.key");
  }

  lemma AddressFlagOrdinary(n: nat)
    ensures AllOrdinary(ADDRESS_FLAG + Decimal(n))
  {
    assert AllOrdinary("--address=") && AllOrdinary("0.0.0.0:");
  }

  lemma ControlFlagsOrdinary()
    ensures AllOrdinary(CONTROL_FLAG)
  {
    assert AllOrdinary("--server-control-") && AllOrdinary("username=admin");
  }

  lemma PasswordFlagOrdinary()
    ensures AllOrdinary(PASSWORD_FLAG)
  {
    assert AllOrdinary("--server-control-") && AllOrdinary("password=");
  }

  lemma FixedItemsReadable()
    ensures forall i :: i in FixedItems() ==> i.Readable()
  {
    CertFlagOrdinary();
    KeyFlagOrdinary();
    AddressFlagOrdinary(DEFAULT_SERVER_PORT);
    ControlFlagsOrdinary();
    PasswordFlagOrdinary();
  }

  lemma QuotedArgsWords(args: seq<string>)
    ensures Words(QuotedArgs(args)) == args
  {
    assert forall k :: 0 <= k < |args| ==> "" + args[k] == args[k];
  }

  /** The extra arguments, for whatever came before. */
  lemma ArgsRead(args: seq<string>, env: Env, cur: string, done: seq<string>)
    ensures Read(Render(NEXT_LINE, QuotedArgs(args)) + "\n", env, Some(cur), done) ==
            if exists a :: a in args && '\0' in a then None else Some(Command(done + [cur] + args, ""))
  {
    var items := QuotedArgs(args);
    if exists a :: a in args && '\0' in a {
      var k :| 0 <= k < |args| && '\0' in args[k];
      assert items[k] in items;
      ItemsStop(NEXT_LINE, items, "\n", env, cur, done);
    } else {
      ItemsRead(NEXT_LINE, items, "\n", env, cur, done);
      QuotedArgsWords(args);
    }
  }

  /** From the password on. */
  lemma ExtraArgsRead(args: seq<string>, env: Env, cur: string, done: seq<string>)
    ensures Read(QuotedPassword() + (Render(NEXT_LINE, QuotedArgs(args)) + "\n"), env, Some(cur), done) ==
            if exists a :: a in args && '\0' in a then None
            else Some(Command(done + [cur + Value(env, PASSWORD_NAME)] + args, ""))
  {
    PasswordNameOk();
    QuotedParameterReads(PASSWORD_NAME, Render(NEXT_LINE, QuotedArgs(args)) + "\n", env, cur, done);
    ArgsRead(args, env, cur + Value(env, PASSWORD_NAME), done);
  }

  lemma FixedWords(env: Env)
    ensures var all := ["start"] + Words(FixedItems());
            && all[5] == PASSWORD_FLAG
            && ["kopia", "server"] + all[..5] + [PASSWORD_FLAG + Value(env, PASSWORD_NAME)] == FixedArgs(env)
  {
    CertWord();
    KeyWord();
    AddressWord();
    ControlWord();
    PasswordWord(Value(env, PASSWORD_NAME));
  }

  /** The start command is read as the fixed arguments, then exactly the extra ones, one word each. */
  lemma StartCommandReads(args: seq<string>, env: Env)
    ensures ReadCommand(StartCommand(args), env) ==
            if exists a :: a in args && '\0' in a then None else Some(Command(FixedArgs(env) + args, ""))
  {
    var rest := QuotedPassword() + (Render(NEXT_LINE, QuotedArgs(args)) + "\n");
    Reassociate(START, Render(NEXT_LINE, FixedItems()), QuotedPassword(), Render(NEXT_LINE, QuotedArgs(args)), "\n");
    FixedItemsReadable();
    FixedFlagsRead(FixedItems(), rest, env);
    var all := ["start"] + Words(FixedItems());
    ExtraArgsRead(args, env, all[5], ["kopia", "server"] + all[..5]);
    FixedWords(env);
  }

  lemma Reassociate(a: string, b: string, c: string, d: string, e: string)
    ensures a + b + c + d + e == a + (b + (c + (d + e)))
  {
  }

  lemma FixedFlagsRead(items: seq<Item>, rest: string, env: Env)
    requires forall i :: i in items ==> i.Readable()
    ensures var all := ["start"] + Words(items);
            ReadCommand(START + (Render(NEXT_LINE, items) + rest), env) ==
            Read(rest, env, Some(all[|items|]), ["kopia", "server"] + all[..|items|])
  {
    StartReads(Render(NEXT_LINE, items) + rest, env);
    ItemsThrough(NEXT_LINE, items, rest, env, "start", ["kopia", "server"]);
  }

  lemma RenderOneMore(sep: string, items: seq<Item>, i: Item)
    ensures Render(sep, items + [i]) == Render(sep, items) + (sep + i.Render())
  {
    RenderJoins(sep, items, [i]);
    assert [i][1..] == [];
    assert Render(sep, [i]) == sep + i.Render() + "";
  }

  lemma FiveLines(x: string, sep: string, a: string, b: string, c: string, d: string, e: string)
    ensures x + (sep + a) + (sep + b) + (sep + c) + (sep + d) + (sep + e) ==
            x + Render(sep, [Bare(a), Bare(b), Bare(c), Bare(d), Bare(e)])
  {
    assert Render(sep, []) == "";
    RenderOneMore(sep, [], Bare(a));
    assert [] + [Bare(a)] == [Bare(a)];
    RenderOneMore(sep, [Bare(a)], Bare(b));
    assert [Bare(a)] + [Bare(b)] == [Bare(a), Bare(b)];
    RenderOneMore(sep, [Bare(a), Bare(b)], Bare(c));
    assert [Bare(a), Bare(b)] + [Bare(c)] == [Bare(a), Bare(b), Bare(c)];
    RenderOneMore(sep, [Bare(a), Bare(b), Bare(c)], Bare(d));
    assert [Bare(a), Bare(b), Bare(c)] + [Bare(d)] == [Bare(a), Bare(b), Bare(c), Bare(d)];
    RenderOneMore(sep, [Bare(a), Bare(b), Bare(c), Bare(d)], Bare(e));
    assert [Bare(a), Bare(b), Bare(c), Bare(d)] + [Bare(e)] == [Bare(a), Bare(b), Bare(c), Bare(d), Bare(e)];
  }

  /** `writeServerStartCommand`: the fixed flags, then the extra arguments in a loop. */
  method WriteServerStartCommand(b: Builder, extraArgs: seq<string>)
    modifies b
    ensures b.text == old(b.text) + StartCommand(extraArgs)
  {
    b.WriteString(START);
    WriteFixedFlags(b);
    b.WriteString(QuotedPassword());
    WriteExtraArgs(b, NEXT_LINE, extraArgs);
    b.WriteString("\n");
    Regroup(old(b.text), START, Render(NEXT_LINE, FixedItems()), QuotedPassword(),
            Render(NEXT_LINE, QuotedArgs(extraArgs)), "\n");
  }

  lemma Regroup(x: string, a: string, b: string, c: string, d: string, e: string)
    ensures x + a + b + c + d + e == x + (a + b + c + d + e)
  {
  }

  method WriteFixedFlags(b: Builder)
    modifies b
    ensures b.text == old(b.text) + Render(NEXT_LINE, FixedItems())
  {
    var address := ADDRESS_FLAG + Decimal(DEFAULT_SERVER_PORT);
    b.WriteString(NEXT_LINE + CERT_FLAG);
    b.WriteString(NEXT_LINE + KEY_FLAG);
    b.WriteString(NEXT_LINE + address);
    b.WriteString(NEXT_LINE + CONTROL_FLAG);
    b.WriteString(NEXT_LINE + PASSWORD_FLAG);
    FiveLines(old(b.text), NEXT_LINE, CERT_FLAG, KEY_FLAG, address,
              CONTROL_FLAG, PASSWORD_FLAG);
  }

  /** The loop over the extra arguments, each on a continued line. */
  method WriteExtraArgs(b: Builder, sep: string, args: seq<string>)
    modifies b
    ensures b.text == old(b.text) + Render(sep, QuotedArgs(args))
  {
    for k := 0 to |args|
      invariant b.text == old(b.text) + Render(sep, QuotedArgs(args[..k]))
    {
      b.WriteString(sep + ShellQuote(args[k]));
      OneMoreArg(sep, args, k);
      Associative(old(b.text), Render(sep, QuotedArgs(args[..k])), sep + ShellQuote(args[k]));
    }
    assert args[..|args|] == args;
  }

  lemma OneMoreArg(sep: string, args: seq<string>, k: nat)
    requires k < |args|
    ensures Render(sep, QuotedArgs(args[..k + 1])) == Render(sep, QuotedArgs(args[..k])) + (sep + ShellQuote(args[k]))
  {
    QuotedArgsMore(args, k);
    BareQuote(args[k]);
    RenderOneMore(sep, QuotedArgs(args[..k]), Quote("", args[k]));
  }

  lemma QuotedArgsMore(args: seq<string>, k: nat)
    requires k < |args|
    ensures QuotedArgs(args[..k + 1]) == QuotedArgs(args[..k]) + [Quote("", args[k])]
  {
  }

  lemma BareQuote(v: string)
    ensures Quote("", v).Render() == ShellQuote(v)
  {
    assert "" + ShellQuote(v) == ShellQuote(v);
  }
}
