/** Quoting for a remote shell (internal/cli/doctor_helpers.go) against a reader that follows sections
    2.2, 2.3 and 2.10.1 of the POSIX.1-2017 Shell Command Language. */
module Shell {
  import opened Rows

  // ---------------------------------------------------------------------------------------------
  // Printing

  /** strings.ReplaceAll of each single quote. */
  function Escape(v: string): string {
    if v == "" then "" else (if v[0] == '\'' then "'\"'\"'" else [v[0]]) + Escape(v[1..])
  }

  function ShellQuote(v: string): string {
    "'" + Escape(v) + "'"
  }

  function Decimal(n: nat): string {
    (if n < 10 then "" else Decimal(n / 10)) + [('0' as int + n % 10) as char]
  }

  function Seconds(seconds: int): nat {
    if seconds <= 0 then 10 else seconds
  }

  function WithRemoteTimeout(seconds: int, cmd: string): string {
    var quoted := ShellQuote(cmd);
    "if command -v timeout " + (">/dev/null 2>&1; then timeout " + (Decimal(Seconds(seconds)) + (" sh -c " + (quoted +
    ("; else sh -c " + (quoted + "; fi"))))))
  }

  // ---------------------------------------------------------------------------------------------
  // Reading

  /** IoNumber is the descriptor in front of a redirection. */
  datatype Token = Word(text: string) | Op(op: string) | IoNumber(digits: string)

  /** The part of a word read so far, and whether no character of it was quoted. */
  datatype Part = Nothing | Part(text: string, bare: bool)

  datatype Mode = Plain | Single | Double

  /** Characters whose unquoted use starts an expansion. Expansions are not modelled. */
  predicate Expands(c: char) {
    c in {'$', '`', '*', '?', '[', '~'}
  }

  predicate IsOperator(c: char) {
    c in {'&', '|', ';', '<', '>', '(', ')', '\n'}
  }

  predicate IsBlank(c: char) {
    c == ' ' || c == '\t'
  }

  predicate IsPair(a: char, b: char) {
    [a, b] in {"&&", "||", ";;", "<&", ">&", ">>", "<>", ">|"}
  }

  function Flush(w: Part): seq<Token> {
    if w.Part? then [Word(w.text)] else []
  }

  predicate Digits(s: string) {
    s != "" && forall i :: 0 <= i < |s| ==> '0' <= s[i] <= '9'
  }

  /** In front of a redirection operator an unquoted word of digits is a descriptor. */
  function FlushAt(w: Part, c: char): seq<Token> {
    if w.Part? && w.bare && Digits(w.text) && (c == '<' || c == '>') then [IoNumber(w.text)] else Flush(w)
  }

  function So(w: Part): string {
    if w.Part? then w.text else ""
  }

  predicate Bare(w: Part) {
    w.Part? ==> w.bare
  }

  function Quoted(w: Part, text: string): Part {
    Part(So(w) + text, false)
  }

  function Prepend(tokens: seq<Token>, rest: Option<seq<Token>>): Option<seq<Token>> {
    if rest.Some? then Some(tokens + rest.value) else None
  }

  function SkipComment(s: string): (rest: string)
    ensures |rest| <= |s|
  {
    if s == "" || s[0] == '\n' then s else SkipComment(s[1..])
  }

  /** The tokens of a text read in a quoting mode after part of a word. Nothing is read when a quote
      is left open, an expansion would start, or a here-document follows. */
  function Read(s: string, m: Mode, w: Part): Option<seq<Token>>
    decreases |s|
  {
    if s == "" then if m == Plain then Some(Flush(w)) else None
    else
      var c := s[0];
      match m
      case Single => if c == '\'' then Read(s[1..], Plain, w) else Read(s[1..], Single, Quoted(w, [c]))
      case Double =>
        if c == '"' then Read(s[1..], Plain, w)
        else if c == '$' || c == '`' then None
        else if c == '\\' && |s| > 1 && s[1] in {'$', '`', '"', '\\'} then Read(s[2..], Double, Quoted(w, [s[1]]))
        else if c == '\\' && |s| > 1 && s[1] == '\n' then Read(s[2..], Double, w)
        else Read(s[1..], Double, Quoted(w, [c]))
      case Plain =>
        if c == '\'' then Read(s[1..], Single, Quoted(w, ""))
        else if c == '"' then Read(s[1..], Double, Quoted(w, ""))
        else if c == '\\' then
          if |s| == 1 then None
          else if s[1] == '\n' then Read(s[2..], Plain, w)
          else Read(s[2..], Plain, Quoted(w, [s[1]]))
        else if Expands(c) then None
        else if c == '#' && w.Nothing? then Read(SkipComment(s[1..]), Plain, Nothing)
        else if IsBlank(c) then Prepend(Flush(w), Read(s[1..], Plain, Nothing))
        else if IsOperator(c) then
          if c == '<' && |s| > 1 && s[1] == '<' then None
          else if |s| > 1 && IsPair(c, s[1]) then Prepend(FlushAt(w, c) + [Op([c, s[1]])], Read(s[2..], Plain, Nothing))
          else Prepend(FlushAt(w, c) + [Op([c])], Read(s[1..], Plain, Nothing))
        else Read(s[1..], Plain, Part(So(w) + [c], Bare(w)))
  }

  /** What a shell takes a whole text to be. */
  function Tokens(s: string): Option<seq<Token>> {
    Read(s, Plain, Nothing)
  }

  // ---------------------------------------------------------------------------------------------
  // The reader undoes the printer

  /** Inside single quotes every other character stands for itself. */
  lemma CharIsRead(c: char, tail: string, w: string)
    requires c != '\''
    ensures Read([c] + tail, Single, Part(w, false)) == Read(tail, Single, Part(w + [c], false))
  {
    var s := [c] + tail;
    assert s[1..] == tail;
  }

  lemma QuoteEndIsRead(rest: string, w: string)
    ensures Read("'" + rest, Single, Part(w, false)) == Read(rest, Plain, Part(w, false))
  {
    var s := "'" + rest;
    assert s[1..] == rest;
  }

  lemma {:induction false} EscapedIsRead(v: string, rest: string, w: string)
    ensures Read(Escape(v) + "'" + rest, Single, Part(w, false)) == Read(rest, Plain, Part(w + v, false))
    decreases |v|
  {
    hide Read;
    if v == "" {
      assert Escape(v) + "'" + rest == "'" + rest && w + v == w;
      QuoteEndIsRead(rest, w);
    } else {
      var tail := Escape(v[1..]) + "'" + rest;
      EscapedIsRead(v[1..], rest, w + [v[0]]);
      assert w + [v[0]] + v[1..] == w + v;
      if v[0] == '\'' {
        assert Escape(v) + "'" + rest == "'\"'\"'" + tail;
        QuoteCharIsRead(tail, w);
      } else {
        assert Escape(v) + "'" + rest == [v[0]] + tail;
        CharIsRead(v[0], tail, w);
      }
    }
  }

  /** Leaving single quotes for one double-quoted quote character and coming back. */
  lemma QuoteCharIsRead(tail: string, w: string)
    ensures Read("'\"'\"'" + tail, Single, Part(w, false)) == Read(tail, Single, Part(w + "'", false))
  {
    var a := "'\"'\"'" + tail;
    var b := "\"'\"'" + tail;
    var c := "'\"'" + tail;
    var d := "\"'" + tail;
    var e := "'" + tail;
    assert a[1..] == b && b[1..] == c && c[1..] == d && d[1..] == e && e[1..] == tail;
    assert w + "" == w && w + "'" + "" == w + "'";
    assert Read(a, Single, Part(w, false)) == Read(b, Plain, Part(w, false));
    assert Read(b, Plain, Part(w, false)) == Read(c, Double, Part(w, false));
    assert Read(c, Double, Part(w, false)) == Read(d, Double, Part(w + "'", false));
    assert Read(d, Double, Part(w + "'", false)) == Read(e, Plain, Part(w + "'", false));
  }

  /** Wherever it stands, a quoted text adds exactly the text to the current word. */
  lemma QuotedIsRead(v: string, rest: string, w: Part)
    ensures Read(ShellQuote(v) + rest, Plain, w) == Read(rest, Plain, Quoted(w, v))
  {
    var s := ShellQuote(v) + rest;
    assert s[0] == '\'' && s[1..] == Escape(v) + "'" + rest;
    assert So(w) + "" == So(w);
    EscapedIsRead(v, rest, So(w));
  }

  /** A quoted text is one word, equal to the text. */
  lemma QuotedIsOneWord(v: string)
    ensures Tokens(ShellQuote(v)) == Some([Word(v)])
  {
    QuotedIsRead(v, "", Nothing);
    assert ShellQuote(v) + "" == ShellQuote(v) && "" + v == v;
    assert Read("", Plain, Part(v, false)) == Some([Word(v)]);
  }

  /** Quoting a command that already holds quoted text nests: each shell removes one layer. */
  lemma QuotingNests(v: string)
    ensures Tokens(ShellQuote(ShellQuote(v))) == Some([Word(ShellQuote(v))])
    ensures Tokens(ShellQuote(v)) == Some([Word(v)])
  {
    QuotedIsOneWord(v);
    QuotedIsOneWord(ShellQuote(v));
  }

  function QuoteAll(args: seq<string>): string {
    if args == [] then ""
    else if |args| == 1 then ShellQuote(args[0])
    else ShellQuote(args[0]) + " " + QuoteAll(args[1..])
  }

  function Words(args: seq<string>): seq<Token> {
    seq(|args|, i requires 0 <= i < |args| => Word(args[i]))
  }

  /** A command line of quoted arguments is read as exactly those arguments. */
  lemma {:induction false} QuotedArgumentsAreRead(args: seq<string>)
    ensures Tokens(QuoteAll(args)) == Some(Words(args))
  {
    if |args| == 1 {
      QuotedIsOneWord(args[0]);
      assert Words(args) == [Word(args[0])];
    } else if |args| > 1 {
      QuotedArgumentsAreRead(args[1..]);
      var rest := " " + QuoteAll(args[1..]);
      assert QuoteAll(args) == ShellQuote(args[0]) + rest;
      QuotedIsRead(args[0], rest, Nothing);
      assert rest[1..] == QuoteAll(args[1..]);
      assert "" + args[0] == args[0];
      assert Words(args) == [Word(args[0])] + Words(args[1..]);
    }
  }

  // ---------------------------------------------------------------------------------------------
  // The remote command with a timeout

  /** A character that stands for itself outside quotes. */
  predicate Ordinary(c: char) {
    !IsBlank(c) && !IsOperator(c) && !Expands(c) && c !in {'\'', '"', '\\', '#'}
  }

  lemma {:induction false} OrdinaryIsRead(t: string, rest: string, w: Part)
    requires t != "" && forall i :: 0 <= i < |t| ==> Ordinary(t[i])
    ensures Read(t + rest, Plain, w) == Read(rest, Plain, Part(So(w) + t, Bare(w)))
    decreases |t|
  {
    var s := t + rest;
    assert s[1..] == t[1..] + rest;
    if |t| == 1 {
      assert s[1..] == rest && [t[0]] == t;
    } else {
      OrdinaryIsRead(t[1..], rest, Part(So(w) + [t[0]], Bare(w)));
      assert So(w) + [t[0]] + t[1..] == So(w) + t;
    }
  }

  lemma WordIsRead(t: string, rest: string)
    requires t != "" && forall i :: 0 <= i < |t| ==> Ordinary(t[i])
    ensures Read(t + " " + rest, Plain, Nothing) == Prepend([Word(t)], Read(rest, Plain, Nothing))
  {
    OrdinaryIsRead(t, " " + rest, Nothing);
    assert t + " " + rest == t + (" " + rest) && (" " + rest)[1..] == rest && "" + t == t;
  }

  /** A word ended by an operator of one character and a blank. */
  lemma OperatorIsRead(w: Part, rest: string)
    ensures Read("; " + rest, Plain, w) == Prepend(Flush(w) + [Op(";")], Read(rest, Plain, Nothing))
  {
    var s := "; " + rest;
    assert s[1..] == " " + rest && (" " + rest)[1..] == rest;
    assert !IsPair(';', ' ');
    assert Read(" " + rest, Plain, Nothing) == Prepend([], Read(rest, Plain, Nothing));
    PrependNothing(Read(rest, Plain, Nothing));
  }

  lemma PrependNothing(rest: Option<seq<Token>>)
    ensures Prepend([], rest) == rest
  {
    if rest.Some? {
      assert [] + rest.value == rest.value;
    }
  }

  lemma {:induction false} DecimalIsOrdinary(n: nat)
    ensures Decimal(n) != "" && forall i :: 0 <= i < |Decimal(n)| ==> Ordinary(Decimal(n)[i])
  {
    if n >= 10 {
      DecimalIsOrdinary(n / 10);
    }
  }

  lemma PrependTwice(a: seq<Token>, b: seq<Token>, rest: Option<seq<Token>>)
    ensures Prepend(a, Prepend(b, rest)) == Prepend(a + b, rest)
  {
    if rest.Some? {
      assert a + b + rest.value == a + (b + rest.value);
    }
  }

  /** `sh -c` with a quoted command, before an operator. */
  lemma ShellCallIsRead(cmd: string, rest: string)
    ensures Read("sh -c " + ShellQuote(cmd) + "; " + rest, Plain, Nothing) ==
            Prepend([Word("sh"), Word("-c"), Word(cmd), Op(";")], Read(rest, Plain, Nothing))
  {
    hide Read, ShellQuote, Ordinary, Prepend;
    PlainText();
    var after := "; " + rest;
    var quoted := ShellQuote(cmd) + after;
    assert "sh -c " == "sh" + " " + "-c" + " ";
    assert "sh -c " + ShellQuote(cmd) + "; " + rest == "sh" + " " + ("-c" + " " + quoted);
    WordIsRead("sh", "-c" + " " + quoted);
    WordIsRead("-c", quoted);
    QuotedIsRead(cmd, after, Nothing);
    assert "" + cmd == cmd;
    OperatorIsRead(Part(cmd, false), rest);
    var last := Read(rest, Plain, Nothing);
    assert Flush(Part(cmd, false)) + [Op(";")] == [Word(cmd), Op(";")];
    PrependTwice([Word("-c")], [Word(cmd), Op(";")], last);
    assert [Word("-c")] + [Word(cmd), Op(";")] == [Word("-c"), Word(cmd), Op(";")];
    PrependTwice([Word("sh")], [Word("-c"), Word(cmd), Op(";")], last);
    assert [Word("sh")] + [Word("-c"), Word(cmd), Op(";")] == [Word("sh"), Word("-c"), Word(cmd), Op(";")];
  }

  function Probe(): seq<Token> {
    [Word("if"), Word("command"), Word("-v"), Word("timeout"), Op(">"), Word("/dev/null"), IoNumber("2"),
      Op(">&"), Word("1"), Op(";")]
  }

  lemma OpenIsRead(path: string)
    requires path != "" && path[0] == '/'
    ensures Read(">" + path, Plain, Nothing) == Prepend([Op(">")], Read(path, Plain, Nothing))
  {
    var s := ">" + path;
    assert s[1..] == path && !IsPair('>', '/') && [s[0]] == ">";
    assert FlushAt(Nothing, '>') + [Op(">")] == [Op(">")];
  }

  lemma DuplicateIsRead(rest: string, w: string)
    requires Digits(w)
    ensures Read(">&" + rest, Plain, Part(w, true)) == Prepend([IoNumber(w), Op(">&")], Read(rest, Plain, Nothing))
  {
    var s := ">&" + rest;
    assert s[2..] == rest && IsPair('>', '&') && [s[0], s[1]] == ">&";
    assert FlushAt(Part(w, true), '>') + [Op(">&")] == [IoNumber(w), Op(">&")];
  }

  lemma DuplicationIsRead(rest: string)
    ensures Read("2" + (">&" + ("1" + ("; " + rest))), Plain, Nothing) ==
            Prepend([IoNumber("2"), Op(">&"), Word("1"), Op(";")], Read(rest, Plain, Nothing))
  {
    hide Read, Ordinary, Prepend;
    PlainText();
    var end := "; " + rest;
    var one := "1" + end;
    OrdinaryIsRead("2", ">&" + one, Nothing);
    DuplicateIsRead(one, "2");
    OrdinaryIsRead("1", end, Nothing);
    OperatorIsRead(Part("1", true), rest);
    assert "" + "2" == "2" && "" + "1" == "1" && Flush(Part("1", true)) + [Op(";")] == [Word("1"), Op(";")];
    PrependTwice([IoNumber("2"), Op(">&")], [Word("1"), Op(";")], Read(rest, Plain, Nothing));
    assert [IoNumber("2"), Op(">&")] + [Word("1"), Op(";")] == [IoNumber("2"), Op(">&"), Word("1"), Op(";")];
  }

  lemma RedirectIsRead(rest: string)
    ensures Read(">/dev/null 2>&1; " + rest, Plain, Nothing) ==
            Prepend([Op(">"), Word("/dev/null"), IoNumber("2"), Op(">&"), Word("1"), Op(";")],
              Read(rest, Plain, Nothing))
  {
    hide Read, Ordinary, Prepend;
    PlainText();
    var last := Read(rest, Plain, Nothing);
    var two := "2" + (">&" + ("1" + ("; " + rest)));
    var read := [IoNumber("2"), Op(">&"), Word("1"), Op(";")];
    OpenIsRead("/dev/null" + " " + two);
    WordIsRead("/dev/null", two);
    DuplicationIsRead(rest);
    PrependTwice([Word("/dev/null")], read, last);
    PrependTwice([Op(">")], [Word("/dev/null")] + read, last);
    assert [Op(">")] + ([Word("/dev/null")] + read)
        == [Op(">"), Word("/dev/null"), IoNumber("2"), Op(">&"), Word("1"), Op(";")];
    RedirectAssembled(rest);
  }

  lemma RedirectAssembled(rest: string)
    ensures ">/dev/null 2>&1; " + rest == ">" + ("/dev/null" + " " + ("2" + (">&" + ("1" + ("; " + rest)))))
  {
    assert ">/dev/null 2>&1; " == ">" + "/dev/null" + " " + "2" + ">&" + "1" + "; ";
  }

  lemma PlainText()
    ensures forall t ::
      t in {"/dev/null", "2", "1", "if", "command", "-v", "timeout", "then", "else", "fi", "sh", "-c"} ==>
      forall i :: 0 <= i < |t| ==> Ordinary(t[i])
  {
  }

  predicate Reads(s: string, tokens: seq<Token>) {
    Tokens(s) == Some(tokens)
  }

  lemma WordThen(t: string, rest: string, tokens: seq<Token>)
    requires t != "" && (forall i :: 0 <= i < |t| ==> Ordinary(t[i])) && Reads(rest, tokens)
    ensures Reads(t + " " + rest, [Word(t)] + tokens)
  {
    hide Read;
    WordIsRead(t, rest);
  }

  lemma CallThen(cmd: string, rest: string, tokens: seq<Token>)
    requires Reads(rest, tokens)
    ensures Reads("sh -c " + ShellQuote(cmd) + "; " + rest, [Word("sh"), Word("-c"), Word(cmd), Op(";")] + tokens)
  {
    hide Read, ShellQuote;
    ShellCallIsRead(cmd, rest);
  }

  lemma FiIsRead()
    ensures Reads("fi", [Word("fi")])
  {
    PlainText();
    OrdinaryIsRead("fi", "", Nothing);
    assert "fi" + "" == "fi" && "" + "fi" == "fi";
  }

  function ElseTokens(cmd: string): seq<Token> {
    [Word("else"), Word("sh"), Word("-c"), Word(cmd), Op(";"), Word("fi")]
  }

  function ThenTokens(seconds: string, cmd: string): seq<Token> {
    [Word("then"), Word("timeout"), Word(seconds), Word("sh"), Word("-c"), Word(cmd), Op(";")]
  }

  lemma ElseIsRead(cmd: string)
    ensures Reads("else " + ("sh -c " + ShellQuote(cmd) + "; " + "fi"), ElseTokens(cmd))
  {
    hide Read, ShellQuote, Ordinary;
    PlainText();
    FiIsRead();
    CallThen(cmd, "fi", [Word("fi")]);
    var call := "sh -c " + ShellQuote(cmd) + "; " + "fi";
    WordThen("else", call, [Word("sh"), Word("-c"), Word(cmd), Op(";")] + [Word("fi")]);
    assert "else" + " " + call == "else " + call;
    assert [Word("else")] + ([Word("sh"), Word("-c"), Word(cmd), Op(";")] + [Word("fi")]) == ElseTokens(cmd);
  }

  lemma TimedCallIsRead(n: nat, call: string, tokens: seq<Token>)
    requires Reads(call, tokens)
    ensures Reads("then timeout " + (Decimal(n) + " " + call),
                  [Word("then"), Word("timeout"), Word(Decimal(n))] + tokens)
  {
    hide Read, Reads, Ordinary, Decimal;
    PlainText();
    DecimalIsOrdinary(n);
    var timed := Decimal(n) + " " + call;
    WordThen(Decimal(n), call, tokens);
    WordThen("timeout", timed, [Word(Decimal(n))] + tokens);
    WordThen("then", "timeout" + " " + timed, [Word("timeout")] + ([Word(Decimal(n))] + tokens));
    assert "then" + " " + ("timeout" + " " + timed) == "then timeout " + timed;
    assert [Word("then")] + ([Word("timeout")] + ([Word(Decimal(n))] + tokens)) ==
      [Word("then"), Word("timeout"), Word(Decimal(n))] + tokens;
  }

  lemma ThenIsRead(n: nat, cmd: string, rest: string, tokens: seq<Token>)
    requires Reads(rest, tokens)
    ensures Reads("then timeout " +
      (Decimal(n) + " " + ("sh -c " + ShellQuote(cmd) + "; " + rest)), ThenTokens(Decimal(n), cmd) + tokens)
  {
    hide Read, Reads, ShellQuote, Decimal;
    CallThen(cmd, rest, tokens);
    var callTokens := [Word("sh"), Word("-c"), Word(cmd), Op(";")] + tokens;
    TimedCallIsRead(n, "sh -c " + ShellQuote(cmd) + "; " + rest, callTokens);
    assert [Word("then"), Word("timeout"), Word(Decimal(n))] + callTokens == ThenTokens(Decimal(n), cmd) + tokens;
  }

  lemma ProbeIsRead(rest: string, tokens: seq<Token>)
    requires Reads(rest, tokens)
    ensures Reads("if " + ("command " + ("-v " + ("timeout " + (">/dev/null 2>&1; " + rest)))), Probe() + tokens)
  {
    hide Read, Ordinary;
    PlainText();
    RedirectIsRead(rest);
    var redirect := ">/dev/null 2>&1; " + rest;
    var r := [Op(">"), Word("/dev/null"), IoNumber("2"), Op(">&"), Word("1"), Op(";")] + tokens;
    SpacedWord("timeout", redirect, r);
    var a := "timeout " + redirect;
    SpacedWord("-v", a, [Word("timeout")] + r);
    var b := "-v " + a;
    SpacedWord("command", b, [Word("-v")] + ([Word("timeout")] + r));
    SpacedWord("if", "command " + b, [Word("command")] + ([Word("-v")] + ([Word("timeout")] + r)));
    assert [Word("if")] + ([Word("command")] + ([Word("-v")] + ([Word("timeout")] + r))) == Probe() + tokens;
  }

  lemma SpacedWord(t: string, rest: string, tokens: seq<Token>)
    requires t in {"timeout", "-v", "command", "if"} && (forall i :: 0 <= i < |t| ==> Ordinary(t[i])) &&
      Reads(rest, tokens)
    ensures Reads((t + " ") + rest, [Word(t)] + tokens)
    ensures "timeout" + " " == "timeout " && "-v" + " " == "-v " && "command" + " " == "command " && "if" + " " == "if "
  {
    hide Read, Ordinary;
    WordThen(t, rest, tokens);
  }

  /** The wrapper runs `sh -c` on exactly the command in both branches, once under the timeout. */
  lemma RemoteTimeoutIsRead(seconds: int, cmd: string)
    ensures Tokens(WithRemoteTimeout(seconds, cmd)) ==
            Some(Probe() + (ThenTokens(Decimal(Seconds(seconds)), cmd) + ElseTokens(cmd)))
  {
    hide Read, ShellQuote, Decimal, Probe, ThenTokens, ElseTokens;
    var quoted, time := ShellQuote(cmd), Decimal(Seconds(seconds));
    ElseIsRead(cmd);
    var e := "else " + ("sh -c " + quoted + "; " + "fi");
    ThenIsRead(Seconds(seconds), cmd, e, ElseTokens(cmd));
    var t := "then timeout " + (time + " " + ("sh -c " + quoted + "; " + e));
    ProbeIsRead(t, ThenTokens(time, cmd) + ElseTokens(cmd));
    ElseAssembled(quoted);
    ThenAssembled(quoted, time, e, quoted + "; fi");
    ProbeAssembled(t, time + (" sh -c " + (quoted + ("; else sh -c " + (quoted + "; fi")))));
  }

  lemma ElseAssembled(quoted: string)
    ensures "; else sh -c " + (quoted + "; fi") == "; " + ("else " + ("sh -c " + quoted + "; " + "fi"))
  {
    assert "; fi" == "; " + "fi";
    assert "; else sh -c " == "; " + "else " + "sh -c ";
  }

  lemma ThenAssembled(quoted: string, time: string, e: string, last: string)
    requires "; else sh -c " + last == "; " + e
    ensures "then timeout " + (time + " " + ("sh -c " + quoted + "; " + e)) ==
            "then timeout " + (time + (" sh -c " + (quoted + ("; else sh -c " + last))))
  {
    assert " sh -c " == " " + "sh -c ";
    assert time + " " + ("sh -c " + quoted + "; " + e) == time + (" sh -c " + (quoted + ("; " + e)));
  }

  lemma ProbeAssembled(t: string, timed: string)
    requires t == "then timeout " + timed
    ensures "if " + ("command " + ("-v " + ("timeout " + (">/dev/null 2>&1; " + t)))) ==
            "if command -v timeout " + (">/dev/null 2>&1; then timeout " + timed)
  {
    assert ">/dev/null 2>&1; " + "then timeout " == ">/dev/null 2>&1; then timeout ";
    var rest := ">/dev/null 2>&1; " + t;
    assert rest == ">/dev/null 2>&1; then timeout " + timed;
    assert "if " + "command " + "-v " + "timeout " == "if command -v timeout ";
    assert "if " + ("command " + ("-v " + ("timeout " + rest))) == "if " + "command " + "-v " + "timeout " + rest;
  }
}
