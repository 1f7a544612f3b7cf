/** Quoting kubectl commands for a remote POSIX shell, and reading kubectl commands from shell text. */
module Quoting {
  import opened Text

  // How the shell divides a line: sections 2.2 and 2.3 of the POSIX.1-2017 Shell Command Language

  datatype Quote = Bare | Escaped | Single | Double

  /** A character of a word, with the quoting it had. */
  datatype Mark = Mark(c: char, quote: Quote)

  /** Operators are given character by character. */
  datatype Token = Word(marks: seq<Mark>) | Operator(c: char)

  datatype Mode = Between | InWord | AfterBackslash(inWord: bool) | InSingle | InDouble | InDoubleBackslash | InComment

  datatype Lexer = Lexer(mode: Mode, tokens: seq<Token>, word: seq<Mark>)
  {
    function Add(c: char, quote: Quote, mode: Mode): Lexer {
      Lexer(mode, tokens, word + [Mark(c, quote)])
    }

    function EndWord(): Lexer {
      if mode == InWord then Lexer(Between, tokens + [Word(word)], []) else this
    }

    function Step(c: char): Lexer {
      match mode
      case Between => Unquoted(c)
      case InWord => Unquoted(c)
      case AfterBackslash(inWord) =>
        if c == '\n' then this.(mode := if inWord then InWord else Between) else Add(c, Escaped, InWord)
      case InSingle => if c == '\'' then this.(mode := InWord) else Add(c, Single, InSingle)
      case InDouble =>
        if c == '"' then this.(mode := InWord)
        else if c == '\\' then this.(mode := InDoubleBackslash)
        else Add(c, Double, InDouble)
      case InDoubleBackslash =>
        if c == '\n' then this.(mode := InDouble)
        else if c in "$`\"\\" then Add(c, Escaped, InDouble)
        else Add('\\', Double, InDouble).Add(c, Double, InDouble)
      case InComment => if c == '\n' then Lexer(Between, tokens + [Operator(c)], word) else this
    }

    function Unquoted(c: char): Lexer {
      if c in " \t" then EndWord()
      else if IsOperator(c) then Lexer(Between, EndWord().tokens + [Operator(c)], EndWord().word)
      else if c == '\'' then this.(mode := InSingle)
      else if c == '"' then this.(mode := InDouble)
      else if c == '\\' then this.(mode := AfterBackslash(mode == InWord))
      else if c == '#' && mode == Between then this.(mode := InComment)
      else Add(c, Bare, InWord)
    }

    function Run(text: string): Lexer
      decreases |text|
    {
      if text == "" then this else Step(text[0]).Run(text[1..])
    }
  }

  predicate IsOperator(c: char) {
    c in "|&;<>()\n"
  }

  const START := Lexer(Between, [], [])

  /** The tokens of a text; None when a quotation is not closed. */
  function Lex(text: string): Option<seq<Token>> {
    var end := START.Run(text);
    if end.mode in {Between, InWord, InComment} then Some(end.EndWord().tokens) else None
  }

  /** A character that can make the shell replace the word by something else. */
  predicate IsActive(m: Mark) {
    (m.quote == Bare && m.c in "$`*?[]~={}!%") || (m.quote == Double && m.c in "$`")
  }

  predicate IsInert(t: Token) {
    t.Word? && forall m | m in t.marks :: !IsActive(m)
  }

  /** Quote removal. */
  function Unquote(marks: seq<Mark>): string {
    seq(|marks|, i requires 0 <= i < |marks| => marks[i].c)
  }

  function Values(tokens: seq<Token>): seq<string>
    requires forall t | t in tokens :: t.Word?
  {
    seq(|tokens|, i requires 0 <= i < |tokens| => Unquote(tokens[i].marks))
  }

  /** The argument list the shell makes of a text, when that text is one simple command without expansions. */
  function ReadCommand(text: string): Option<seq<string>> {
    match Lex(text)
    case Some(tokens) => if forall t | t in tokens :: IsInert(t) then Some(Values(tokens)) else None
    case None => None
  }

  // Quoting

  /** Every single quote replaced by '"'"'. */
  function Replaced(s: string): string {
    if s == "" then "" else (if s[0] == '\'' then "'\"'\"'" else [s[0]]) + Replaced(s[1..])
  }

  function QuotePosixArg(s: string): string {
    if s == "" then "''" else "'" + Replaced(s) + "'"
  }

  function QuotedArgs(args: seq<string>): (r: seq<string>)
    ensures |r| == |args|
  {
    seq(|args|, i requires 0 <= i < |args| => QuotePosixArg(args[i]))
  }

  function Quoted(args: seq<string>): string {
    Join(["kubectl"] + QuotedArgs(args), " ")
  }

  method BuildQuotedKubectlCommand(args: seq<string>) returns (command: string)
    ensures command == Quoted(args)
  {
    var parts := ["kubectl"];
    for i := 0 to |args|
      invariant parts == ["kubectl"] + QuotedArgs(args[..i])
    {
      parts := parts + [QuotePosixArg(args[i])];
      assert args[..i + 1] == args[..i] + [args[i]];
    }
    assert args[..|args|] == args;
    command := Join(parts, " ");
  }

  // Quoting and reading back

  lemma {:induction false} RunSplit(l: Lexer, a: string, b: string)
    ensures l.Run(a + b) == l.Run(a).Run(b)
    decreases |a|
  {
    if a == "" {
      assert a + b == b;
    } else {
      assert (a + b)[0] == a[0] && (a + b)[1..] == a[1..] + b;
      RunSplit(l.Step(a[0]), a[1..], b);
    }
  }

  lemma RunOne(l: Lexer, c: char)
    ensures l.Run([c]) == l.Step(c)
  {
    assert [c][1..] == "";
    assert l.Step(c).Run("") == l.Step(c);
  }

  /** How the characters of a quoted argument end up: in single quotes, and single quotes in double quotes. */
  function QuotedMarks(s: string): (r: seq<Mark>)
    ensures |r| == |s|
  {
    seq(|s|, i requires 0 <= i < |s| => Mark(s[i], if s[i] == '\'' then Double else Single))
  }

  lemma RunReplacedChar(l: Lexer, c: char)
    requires l.mode == InSingle
    ensures l.Run(Replaced([c])) == l.(word := l.word + QuotedMarks([c]))
  {
    hide Lexer.Run, Replaced;
    ReplacedOne(c);
    if c == '\'' {
      var s := "'\"'\"'";
      assert s == "'" + ("\"" + ("'" + ("\"" + "'")));
      RunSplit(l, "'", "\"" + ("'" + ("\"" + "'")));
      RunOne(l, '\'');
      var l1 := l.Step('\'');
      RunSplit(l1, "\"", "'" + ("\"" + "'"));
      RunOne(l1, '"');
      var l2 := l1.Step('"');
      RunSplit(l2, "'", "\"" + "'");
      RunOne(l2, '\'');
      var l3 := l2.Step('\'');
      RunSplit(l3, "\"", "'");
      RunOne(l3, '"');
      RunOne(l3.Step('"'), '\'');
    } else {
      RunOne(l, c);
    }
  }

  lemma ReplacedOne(c: char)
    ensures Replaced([c]) == if c == '\'' then "'\"'\"'" else [c]
  {
    assert [c][1..] == "" && Replaced("") == "";
  }

  lemma {:induction false} RunReplaced(l: Lexer, s: string)
    requires l.mode == InSingle
    ensures l.Run(Replaced(s)) == l.(word := l.word + QuotedMarks(s))
    decreases |s|
  {
    hide Lexer.Step, Lexer.Run;
    if s == "" {
      assert l.Run("") == l by { RunNothing(l); }
      assert l.word + QuotedMarks(s) == l.word;
    } else {
      var c, rest := s[0], s[1..];
      assert Replaced(s) == Replaced([c]) + Replaced(rest) by { ReplacedOne(c); }
      RunSplit(l, Replaced([c]), Replaced(rest));
      RunReplacedChar(l, c);
      RunReplaced(l.(word := l.word + QuotedMarks([c])), rest);
      assert l.word + QuotedMarks([c]) + QuotedMarks(rest) == l.word + QuotedMarks(s);
    }
  }

  lemma RunNothing(l: Lexer)
    ensures l.Run("") == l
  {
  }

  lemma RunQuoted(l: Lexer, s: string)
    requires l.mode in {Between, InWord}
    ensures l.Run(QuotePosixArg(s)) == Lexer(InWord, l.tokens, l.word + QuotedMarks(s))
  {
    hide Lexer.Run;
    var open := l.(mode := InSingle);
    assert QuotePosixArg(s) == "'" + (Replaced(s) + "'");
    RunSplit(l, "'", Replaced(s) + "'");
    RunOne(l, '\'');
    RunSplit(open, Replaced(s), "'");
    RunReplaced(open, s);
    RunOne(open.(word := l.word + QuotedMarks(s)), '\'');
  }

  function QuotedWords(args: seq<string>): (r: seq<Token>)
    ensures |r| == |args|
  {
    seq(|args|, i requires 0 <= i < |args| => Word(QuotedMarks(args[i])))
  }

  /** After reading quoted arguments the lexer is in the last of them and has the others. */
  lemma {:induction false} RunQuotedArgs(tokens: seq<Token>, args: seq<string>)
    requires args != []
    ensures var l := Lexer(Between, tokens, []).Run(Join(QuotedArgs(args), " "));
            l.mode == InWord && l.EndWord() == Lexer(Between, tokens + QuotedWords(args), [])
    decreases |args|
  {
    hide Lexer.Run;
    var l := Lexer(Between, tokens, []);
    var a := args[0];
    RunQuoted(l, a);
    assert [] + QuotedMarks(a) == QuotedMarks(a);
    var next := tokens + [Word(QuotedMarks(a))];
    if |args| == 1 {
      assert tokens + QuotedWords(args) == next;
    } else {
      var rest := args[1..];
      assert QuotedArgs(args)[1..] == QuotedArgs(rest);
      assert Join(QuotedArgs(args), " ") == QuotePosixArg(a) + (" " + Join(QuotedArgs(rest), " "));
      RunSplit(l, QuotePosixArg(a), " " + Join(QuotedArgs(rest), " "));
      RunSplit(Lexer(InWord, tokens, QuotedMarks(a)), " ", Join(QuotedArgs(rest), " "));
      RunOne(Lexer(InWord, tokens, QuotedMarks(a)), ' ');
      RunQuotedArgs(next, rest);
      assert next + QuotedWords(rest) == tokens + QuotedWords(args);
    }
  }

  /** A character without meaning to the lexer. */
  predicate IsPlain(c: char) {
    c !in " \t'\"\\#" && !IsOperator(c)
  }

  function Marked(s: string, quote: Quote): (r: seq<Mark>)
    ensures |r| == |s|
    ensures Unquote(r) == s
  {
    seq(|s|, i requires 0 <= i < |s| => Mark(s[i], quote))
  }

  lemma {:induction false} RunPlain(l: Lexer, s: string)
    requires l.mode in {Between, InWord} && s != "" && forall c | c in s :: IsPlain(c)
    ensures l.Run(s) == Lexer(InWord, l.tokens, l.word + Marked(s, Bare))
    decreases |s|
  {
    var l1 := l.Step(s[0]);
    assert l1 == Lexer(InWord, l.tokens, l.word + [Mark(s[0], Bare)]) by { assert s[0] in s; }
    if |s| == 1 {
      assert s == [s[0]];
      RunOne(l, s[0]);
      assert Marked(s, Bare) == [Mark(s[0], Bare)];
    } else {
      RunPlain(l1, s[1..]);
      assert l.word + [Mark(s[0], Bare)] + Marked(s[1..], Bare) == l.word + Marked(s, Bare);
    }
  }

  /** The tokens of a plain program name followed by quoted arguments. */
  function CommandWords(program: string, args: seq<string>): seq<Token> {
    [Word(Marked(program, Bare))] + QuotedWords(args)
  }

  lemma JoinFirst(first: string, parts: seq<string>)
    ensures Join([first] + parts, " ") == if parts == [] then first else first + (" " + Join(parts, " "))
  {
    assert ([first] + parts)[1..] == parts;
    if parts == [] {
      assert [first] + parts == [first];
    }
  }

  lemma RunCommand(tokens: seq<Token>, program: string, args: seq<string>)
    requires program != "" && forall c | c in program :: IsPlain(c)
    ensures var l := Lexer(Between, tokens, []).Run(Join([program] + QuotedArgs(args), " "));
            l.mode == InWord && l.EndWord() == Lexer(Between, tokens + CommandWords(program, args), [])
  {
    hide Lexer.Run, Lexer.EndWord, Join, IsPlain, QuotedArgs, CommandWords;
    var l := Lexer(Between, tokens, []);
    RunProgram(tokens, program);
    JoinFirst(program, QuotedArgs(args));
    if args == [] {
      assert QuotedArgs(args) == [] by { NothingQuoted(); }
      ProgramAlone(tokens, program);
    } else {
      RunSplit(l, program, " " + Join(QuotedArgs(args), " "));
      RunArgsAfter(tokens, program, args);
    }
  }

  lemma NothingQuoted()
    ensures QuotedArgs([]) == [] && QuotedWords([]) == []
  {
  }

  lemma RunProgram(tokens: seq<Token>, program: string)
    requires program != "" && forall c | c in program :: IsPlain(c)
    ensures Lexer(Between, tokens, []).Run(program) == Lexer(InWord, tokens, Marked(program, Bare))
  {
    hide Lexer.Run, IsPlain;
    RunPlain(Lexer(Between, tokens, []), program);
    assert [] + Marked(program, Bare) == Marked(program, Bare);
  }

  lemma ProgramAlone(tokens: seq<Token>, program: string)
    ensures Lexer(InWord, tokens, Marked(program, Bare)).EndWord() == Lexer(Between, tokens + CommandWords(program, []), [])
  {
    NothingQuoted();
    assert tokens + CommandWords(program, []) == tokens + [Word(Marked(program, Bare))];
  }

  lemma RunArgsAfter(tokens: seq<Token>, program: string, args: seq<string>)
    requires program != "" && args != []
    ensures var l := Lexer(InWord, tokens, Marked(program, Bare)).Run(" " + Join(QuotedArgs(args), " "));
            l.mode == InWord && l.EndWord() == Lexer(Between, tokens + CommandWords(program, args), [])
  {
    hide Lexer.Run, Join, IsPlain, QuotePosixArg;
    var named := Lexer(InWord, tokens, Marked(program, Bare));
    var rest := Join(QuotedArgs(args), " ");
    RunSplit(named, " ", rest);
    RunOne(named, ' ');
    RunQuotedArgs(tokens + [Word(Marked(program, Bare))], args);
    assert tokens + [Word(Marked(program, Bare))] + QuotedWords(args) == tokens + CommandWords(program, args);
  }

  lemma CommandWordsRead(program: string, args: seq<string>)
    requires forall c | c in program :: IsPlain(c) && !IsActive(Mark(c, Bare))
    ensures forall t | t in CommandWords(program, args) :: IsInert(t)
    ensures Values(CommandWords(program, args)) == [program] + args
  {
    var tokens := CommandWords(program, args);
    assert Unquote(Marked(program, Bare)) == program;
    forall i | 0 <= i < |tokens| ensures IsInert(tokens[i]) && Unquote(tokens[i].marks) == ([program] + args)[i] {
      if i > 0 {
        assert tokens[i] == Word(QuotedMarks(args[i - 1]));
        assert Unquote(QuotedMarks(args[i - 1])) == args[i - 1];
      }
    }
  }

  /** A shell reads a quoted command back as exactly the program and its arguments. */
  lemma ReadsBack(program: string, args: seq<string>)
    requires program != "" && forall c | c in program :: IsPlain(c) && !IsActive(Mark(c, Bare))
    ensures ReadCommand(Join([program] + QuotedArgs(args), " ")) == Some([program] + args)
  {
    hide Lexer.Run, Lexer.Step;
    RunCommand([], program, args);
    assert [] + CommandWords(program, args) == CommandWords(program, args);
    CommandWordsRead(program, args);
  }

  /** BuildQuotedKubectlCommand: whatever the arguments contain, the shell runs kubectl with exactly them. */
  lemma KubectlReadsBack(args: seq<string>)
    ensures ReadCommand(Quoted(args)) == Some(["kubectl"] + args)
  {
    hide ReadCommand;
    ReadsBack("kubectl", args);
  }

  // The script for the remote shell

  function InDoubleQuotes(s: string): string {
    "\"" + s + "\""
  }

  const SETUP :=
    "tmp=" + InDoubleQuotes("${TMPDIR:-/tmp}/opskat-kubeconfig-$$") + "; umask 077; cat > " + InDoubleQuotes("$tmp") + "; "
  const CONFIG := "KUBECONFIG=" + InDoubleQuotes("$tmp") + " "
  const CLEANUP := "; status=$?; rm -f " + InDoubleQuotes("$tmp") + "; exit $status"

  function Script(args: seq<string>): string {
    SETUP + CONFIG + Quoted(args) + CLEANUP
  }

  /** What is sent to the SSH server. */
  function RemoteCommand(args: seq<string>): string {
    "sh -lc " + QuotePosixArg(Script(args))
  }

  /** The login shell of the SSH user starts sh with the script as one argument. */
  lemma RemoteCommandReadsBack(args: seq<string>)
    ensures ReadCommand(RemoteCommand(args)) == Some(["sh", "-lc", Script(args)])
  {
    hide Lex, Script, RemoteCommand;
    LexRemote(args);
    CommandWordsRead("sh", []);
    CommandWordsRead("-lc", [Script(args)]);
    InertTogether(CommandWords("sh", []), CommandWords("-lc", [Script(args)]));
    assert ["sh"] + [] + (["-lc"] + [Script(args)]) == ["sh", "-lc", Script(args)];
  }

  lemma LexRemote(args: seq<string>)
    ensures Lex(RemoteCommand(args)) == Some(CommandWords("sh", []) + CommandWords("-lc", [Script(args)]))
  {
    hide Lexer.Run, Lexer.Step, Script, QuotePosixArg;
    var script := Script(args);
    var l := Lexer(InWord, [], Marked("sh", Bare));
    var sh := [Word(Marked("sh", Bare))];
    assert QuotedArgs([script]) == [QuotePosixArg(script)];
    var rest := Join(["-lc"] + QuotedArgs([script]), " ");
    assert RemoteCommand(args) == "sh" + (" " + rest) by {
      assert (["-lc"] + QuotedArgs([script]))[1..] == [QuotePosixArg(script)];
      assert Join([QuotePosixArg(script)], " ") == QuotePosixArg(script);
      assert rest == "-lc" + " " + QuotePosixArg(script);
    }
    RunSplit(START, "sh", " " + rest);
    RunPlain(START, "sh");
    assert [] + Marked("sh", Bare) == Marked("sh", Bare);
    RunSplit(l, " ", rest);
    RunOne(l, ' ');
    SpaceEndsWord(l);
    assert [] + sh == sh;
    RunCommand(sh, "-lc", [script]);
    assert CommandWords("sh", []) == sh;
  }

  lemma SpaceEndsWord(l: Lexer)
    requires l.mode in {Between, InWord}
    ensures l.Step(' ') == l.EndWord()
  {
  }

  lemma InertTogether(a: seq<Token>, b: seq<Token>)
    requires (forall t | t in a :: IsInert(t)) && (forall t | t in b :: IsInert(t))
    ensures forall t | t in a + b :: IsInert(t) && t.Word?
    ensures Values(a + b) == Values(a) + Values(b)
  {
  }

  // Reading on from known positions

  predicate Unfinished(l: Lexer) {
    l.mode == InWord || (l.mode == Between && l.word == [])
  }

  /** Text without quotes, backslashes and comments leaves the lexer outside of quotes. */
  lemma {:induction false} RunOpen(l: Lexer, s: string)
    requires Unfinished(l) && forall c | c in s :: c !in "'\"\\#"
    ensures Unfinished(l.Run(s))
    ensures s != "" && s[|s| - 1] == ' ' ==> l.Run(s).mode == Between
    decreases |s|
  {
    if s != "" {
      assert s[0] in s;
      forall c | c in s[1..] ensures c !in "'\"\\#" { assert c in s; }
      RunOpen(l.Step(s[0]), s[1..]);
    }
  }

  lemma {:induction false} RunInDouble(l: Lexer, s: string)
    requires l.mode == InDouble && forall c | c in s :: c !in "\"\\"
    ensures l.Run(s).mode == InDouble
    decreases |s|
  {
    if s != "" {
      assert s[0] in s;
      forall c | c in s[1..] ensures c !in "\"\\" { assert c in s; }
      RunInDouble(l.Step(s[0]), s[1..]);
    }
  }

  /** Unquoted text followed by a text in double quotes. */
  lemma RunDouble(l: Lexer, open: string, s: string)
    requires Unfinished(l) && forall c | c in open :: c !in "'\"\\#"
    requires forall c | c in s :: c !in "\"\\"
    ensures l.Run(open + InDoubleQuotes(s)).mode == InWord
  {
    hide Lexer.Run;
    assert InDoubleQuotes(s) == "\"" + (s + "\"");
    RunSplit(l, open, "\"" + (s + "\""));
    RunOpen(l, open);
    var l0 := l.Run(open);
    RunSplit(l0, "\"", s + "\"");
    RunOne(l0, '"');
    var l1 := l0.Step('"');
    RunSplit(l1, s, "\"");
    RunInDouble(l1, s);
    RunOne(l1.Run(s), '"');
  }

  /** What follows does not depend on the tokens before it. */
  lemma {:induction false} RunAfter(tokens: seq<Token>, l: Lexer, s: string)
    ensures var r := l.Run(s); Lexer(l.mode, tokens + l.tokens, l.word).Run(s) == Lexer(r.mode, tokens + r.tokens, r.word)
    decreases |s|
  {
    if s != "" {
      StepAfter(tokens, l, s[0]);
      RunAfter(tokens, l.Step(s[0]), s[1..]);
    }
  }

  lemma StepAfter(tokens: seq<Token>, l: Lexer, c: char)
    ensures var r := l.Step(c); Lexer(l.mode, tokens + l.tokens, l.word).Step(c) == Lexer(r.mode, tokens + r.tokens, r.word)
  {
    assert tokens + (l.tokens + [Operator(c)]) == tokens + l.tokens + [Operator(c)];
    assert tokens + (l.tokens + [Word(l.word)]) == tokens + l.tokens + [Word(l.word)];
    var ended := l.tokens + [Word(l.word)];
    assert tokens + (ended + [Operator(c)]) == tokens + l.tokens + [Word(l.word)] + [Operator(c)];
  }

  lemma AfterSetup()
    ensures START.Run(SETUP).mode == Between && START.Run(SETUP).word == []
  {
    hide Lexer.Run, Lexer.Step, InDoubleQuotes;
    var a := "tmp=" + InDoubleQuotes("${TMPDIR:-/tmp}/opskat-kubeconfig-$$");
    var b := "; umask 077; cat > " + InDoubleQuotes("$tmp");
    RunDouble(START, "tmp=", "${TMPDIR:-/tmp}/opskat-kubeconfig-$$");
    RunSplit(START, a, b);
    RunDouble(START.Run(a), "; umask 077; cat > ", "$tmp");
    assert SETUP == (a + b) + "; ";
    RunSplit(START, a + b, "; ");
    RunOpen(START.Run(a + b), "; ");
  }

  lemma AfterConfig(l: Lexer)
    requires l.mode == Between && l.word == []
    ensures l.Run(CONFIG).mode == Between && l.Run(CONFIG).word == []
  {
    hide Lexer.Run, Lexer.Step, InDoubleQuotes;
    RunDouble(l, "KUBECONFIG=", "$tmp");
    RunSplit(l, "KUBECONFIG=" + InDoubleQuotes("$tmp"), " ");
    RunOpen(l.Run("KUBECONFIG=" + InDoubleQuotes("$tmp")), " ");
  }

  lemma AfterCleanup()
    ensures Unfinished(START.Run(CLEANUP))
  {
    hide Lexer.Run, Lexer.Step, InDoubleQuotes;
    var a := "; status=$?; rm -f " + InDoubleQuotes("$tmp");
    RunDouble(START, "; status=$?; rm -f ", "$tmp");
    RunSplit(START, a, "; exit $status");
    RunOpen(START.Run(a), "; exit $status");
  }

  /** A semicolon ends the word before it. */
  lemma SemicolonEndsWord(l: Lexer, s: string)
    requires l.mode == InWord && s != "" && s[0] == ';'
    ensures l.Run(s) == l.EndWord().Run(s)
  {
    assert l.Step(s[0]) == l.EndWord().Step(s[0]);
  }

  lemma EndsWithCleanup(l: Lexer, s: string)
    requires l.mode == InWord && s == CLEANUP && l.EndWord().word == []
    ensures l.Run(s).EndWord().tokens == l.EndWord().tokens + START.Run(s).EndWord().tokens
    ensures l.Run(s).mode == START.Run(s).mode
  {
    hide Lexer.Run, Lexer.Step;
    SemicolonEndsWord(l, s);
    var tokens := l.EndWord().tokens;
    assert tokens + [] == tokens;
    RunAfter(tokens, START, s);
    var r := START.Run(s);
    assert tokens + (r.tokens + [Word(r.word)]) == tokens + r.tokens + [Word(r.word)];
  }

  function Lexed(text: string): seq<Token> {
    match Lex(text)
    case Some(tokens) => tokens
    case None => []
  }

  lemma ScriptStart()
    ensures var l := START.Run(SETUP + CONFIG);
            l.mode == Between && l.word == [] && Lex(SETUP + CONFIG) == Some(l.tokens)
  {
    hide Lexer.Run, Lexer.Step, InDoubleQuotes;
    AfterSetup();
    RunSplit(START, SETUP, CONFIG);
    AfterConfig(START.Run(SETUP));
  }

  /** In the script the arguments stay arguments: whatever they contain, the shell reads the setup, the KUBECONFIG
      assignment, the words of the kubectl command, and the cleanup. */
  lemma ScriptRunsKubectl(args: seq<string>)
    ensures Lex(SETUP + CONFIG).Some? && Lex(CLEANUP).Some?
    ensures Lex(Script(args)) == Some(Lexed(SETUP + CONFIG) + CommandWords("kubectl", args) + Lexed(CLEANUP))
    ensures Values(CommandWords("kubectl", args)) == ["kubectl"] + args
  {
    hide Lexer.Run, Lexer.Step, Quoted, CommandWords;
    ScriptStart();
    var start, command, cleanup := SETUP + CONFIG, Quoted(args), CLEANUP;
    var l1 := START.Run(start);
    KubectlAfter(l1.tokens, args);
    var l2 := l1.Run(command);
    AfterCleanup();
    EndsWithCleanup(l2, cleanup);
    RunSplit(START, start, command);
    RunSplit(START, start + command, cleanup);
    CommandWordsRead("kubectl", args);
  }

  lemma KubectlAfter(tokens: seq<Token>, args: seq<string>)
    ensures var l := Lexer(Between, tokens, []).Run(Quoted(args));
            l.mode == InWord && l.EndWord() == Lexer(Between, tokens + CommandWords("kubectl", args), [])
  {
    RunCommand(tokens, "kubectl", args);
  }

  // Reading a kubectl command

  /** A part of a word as the parser gives it; every kind of expansion is alike here. */
  datatype WordPart = Lit(value: string) | SglQuoted(value: string) | DblQuoted(parts: seq<WordPart>) | Expansion

  datatype Command = Call(assigns: nat, words: seq<seq<WordPart>>) | OtherCommand

  datatype Statement = Statement(redirects: nat, command: Command)

  datatype Input = Unparsable | Statements(stmts: seq<Statement>)

  function LiteralOf(part: WordPart): Option<string> {
    match part
    case Lit(v) => Some(v)
    case SglQuoted(v) => Some(v)
    case DblQuoted(parts) => Literal(parts)
    case Expansion => None
  }

  /** The concatenated literal parts; None if there is an expansion. */
  function Literal(parts: seq<WordPart>): Option<string> {
    if parts == [] then Some("")
    else match (LiteralOf(parts[0]), Literal(parts[1..]))
         case (Some(a), Some(b)) => Some(a + b)
         case _ => None
  }

  method AppendShellWordPart(b: string, part: WordPart) returns (r: Option<string>)
    ensures r == match LiteralOf(part) case Some(v) => Some(b + v) case None => None
    decreases part
  {
    match part
    case Lit(v) => r := Some(b + v);
    case SglQuoted(v) => r := Some(b + v);
    case DblQuoted(parts) =>
      r := Some(b);
      var i := 0;
      while i < |parts|
        invariant 0 <= i <= |parts| && r.Some?
        invariant Continue(r.value, parts[i..]) == Continue(b, parts)
      {
        var rest := parts[i..];
        assert rest[0] == parts[i] && rest[1..] == parts[i + 1..];
        var before := r.value;
        r := AppendShellWordPart(before, parts[i]);
        ContinueStep(before, rest);
        if r == None {
          return None;
        }
        i := i + 1;
      }
      assert parts[|parts|..] == [];
      assert r.value + "" == r.value;
    case Expansion => r := None;
  }

  function Continue(b: string, parts: seq<WordPart>): Option<string> {
    match Literal(parts)
    case Some(v) => Some(b + v)
    case None => None
  }

  lemma ContinueStep(b: string, parts: seq<WordPart>)
    requires parts != []
    ensures Continue(b, parts)
         == match LiteralOf(parts[0]) case Some(v) => Continue(b + v, parts[1..]) case None => None
  {
    if LiteralOf(parts[0]).Some? && Literal(parts[1..]).Some? {
      var v, w := LiteralOf(parts[0]).value, Literal(parts[1..]).value;
      assert b + (v + w) == b + v + w;
    }
  }

  method ShellWordLiteral(word: seq<WordPart>) returns (r: Option<string>)
    ensures r == Literal(word)
  {
    r := AppendShellWordPart("", DblQuoted(word));
    if r.Some? {
      assert "" + Literal(word).value == Literal(word).value;
    }
  }

  function Fold(c: char): char {
    if 'A' <= c <= 'Z' then c + 32 as char else if c == '\U{212A}' then 'k' else c
  }

  /** strings.EqualFold against an ASCII text */
  predicate EqualFold(a: string, b: string) {
    |a| == |b| && forall i | 0 <= i < |a| :: Fold(a[i]) == Fold(b[i])
  }

  /** The part after the last slash or backslash. */
  function BaseName(s: string): string {
    if '/' in s || '\\' in s then BaseName(s[1..]) else s
  }

  predicate IsKubectlProgram(program: string) {
    EqualFold(BaseName(program), "kubectl") || EqualFold(BaseName(program), "kubectl.exe")
  }

  predicate IsKubeconfigFlag(arg: string) {
    arg == "--kubeconfig" || "--kubeconfig=" <= arg
  }

  /** The values of the words that are not empty; None if there is an expansion. */
  function NonEmptyLiterals(words: seq<seq<WordPart>>): Option<seq<string>> {
    if words == [] then Some([])
    else match (Literal(words[0]), NonEmptyLiterals(words[1..]))
         case (Some(w), Some(ws)) => Some((if w == "" then [] else [w]) + ws)
         case _ => None
  }

  function ArgsOf(values: seq<string>): Option<seq<string>> {
    if values == [] then None
    else
      var args := if IsKubectlProgram(values[0]) then values[1..] else values;
      if args == [] || exists a | a in args :: IsKubeconfigFlag(a) then None else Some(args)
  }

  function KubectlArgs(input: Input): Option<seq<string>> {
    if input.Unparsable? || |input.stmts| != 1 then None
    else
      var stmt := input.stmts[0];
      if stmt.redirects > 0 || stmt.command.OtherCommand? || stmt.command.assigns > 0 then None
      else match NonEmptyLiterals(stmt.command.words)
           case Some(values) => ArgsOf(values)
           case None => None
  }

  function Prepend(a: seq<string>, b: Option<seq<string>>): Option<seq<string>> {
    match b
    case Some(v) => Some(a + v)
    case None => None
  }

  lemma PrependNothing(b: Option<seq<string>>)
    ensures Prepend([], b) == b
  {
    if b.Some? {
      assert [] + b.value == b.value;
    }
  }

  method CollectLiterals(words: seq<seq<WordPart>>) returns (r: Option<seq<string>>)
    ensures r == NonEmptyLiterals(words)
  {
    var args: seq<string> := [];
    assert words[0..] == words;
    assert Prepend([], NonEmptyLiterals(words)) == NonEmptyLiterals(words) by { PrependNothing(NonEmptyLiterals(words)); }
    for i := 0 to |words|
      invariant Prepend(args, NonEmptyLiterals(words[i..])) == NonEmptyLiterals(words)
    {
      var rest := words[i..];
      assert rest[0] == words[i] && rest[1..] == words[i + 1..];
      var arg := ShellWordLiteral(words[i]);
      if arg == None {
        return None;
      }
      var one := if arg.value == "" then [] else [arg.value];
      if NonEmptyLiterals(rest[1..]).Some? {
        assert args + (one + NonEmptyLiterals(rest[1..]).value) == args + one + NonEmptyLiterals(rest[1..]).value;
      }
      args := args + one;
    }
    assert words[|words|..] == [];
    assert args + [] == args;
    r := Some(args);
  }

  method ParseK8sCommandArgs(input: Input) returns (r: Option<seq<string>>)
    ensures r == KubectlArgs(input)
  {
    if input.Unparsable? || |input.stmts| != 1 || input.stmts[0].redirects > 0 {
      return None;
    }
    var command := input.stmts[0].command;
    if command.OtherCommand? || command.assigns > 0 || |command.words| == 0 {
      return None;
    }
    r := CollectLiterals(command.words);
    if r == None || |r.value| == 0 {
      return None;
    }
    var args := r.value;
    if IsKubectlProgram(args[0]) {
      args := args[1..];
    }
    if |args| == 0 {
      return None;
    }
    for i := 0 to |args|
      invariant forall k | 0 <= k < i :: !IsKubeconfigFlag(args[k])
    {
      if IsKubeconfigFlag(args[i]) {
        return None;
      }
    }
    r := Some(args);
  }

  // What is accepted

  predicate IsExpanded(part: WordPart) {
    match part
    case Lit(_) => false
    case SglQuoted(_) => false
    case DblQuoted(parts) => HasExpansion(parts)
    case Expansion => true
  }

  predicate HasExpansion(parts: seq<WordPart>) {
    exists p | p in parts :: IsExpanded(p)
  }

  lemma FirstExpansion(parts: seq<WordPart>)
    requires parts != []
    ensures HasExpansion(parts) <==> IsExpanded(parts[0]) || HasExpansion(parts[1..])
  {
    assert parts[0] in parts;
    assert forall p | p in parts[1..] :: p in parts;
    assert forall p | p in parts :: p == parts[0] || p in parts[1..];
  }

  lemma {:induction false} LiteralExactly(parts: seq<WordPart>)
    ensures Literal(parts).Some? <==> !HasExpansion(parts)
  {
    if parts != [] {
      if parts[0].DblQuoted? {
        LiteralExactly(parts[0].parts);
      }
      LiteralExactly(parts[1..]);
      assert LiteralOf(parts[0]).Some? <==> !IsExpanded(parts[0]);
      FirstExpansion(parts);
    }
  }

  lemma {:induction false} NonEmptyLiteralsExactly(words: seq<seq<WordPart>>)
    ensures NonEmptyLiterals(words).Some? <==> forall w | w in words :: !HasExpansion(w)
    ensures NonEmptyLiterals(words).Some? ==> "" !in NonEmptyLiterals(words).value
  {
    hide HasExpansion, Literal;
    if words != [] {
      LiteralExactly(words[0]);
      NonEmptyLiteralsExactly(words[1..]);
      assert words == [words[0]] + words[1..];
    }
  }

  /** Only one plain command is accepted: no redirection, no assignment in front, no expansion in any word, at least one
      argument, and no other configuration of the cluster. */
  lemma AcceptedIsPlain(input: Input)
    requires KubectlArgs(input).Some?
    ensures input.Statements? && |input.stmts| == 1
    ensures var stmt := input.stmts[0];
            && stmt.redirects == 0 && stmt.command.Call? && stmt.command.assigns == 0
            && forall w | w in stmt.command.words :: !HasExpansion(w)
    ensures var args := KubectlArgs(input).value;
            args != [] && "" !in args && "--kubeconfig" !in args && forall a | a in args :: !("--kubeconfig=" <= a)
  {
    hide HasExpansion, NonEmptyLiterals;
    var words := input.stmts[0].command.words;
    NonEmptyLiteralsExactly(words);
    var values := NonEmptyLiterals(words).value;
    assert forall a | a in values[1..] :: a in values;
    KubeconfigArgs(KubectlArgs(input).value);
  }

  /** The directory of a program does not matter, whichever slashes it is written with. */
  lemma {:induction false} BaseNameExactly(dir: string, name: string)
    requires '/' !in name && '\\' !in name
    requires dir == "" || dir[|dir| - 1] == '/' || dir[|dir| - 1] == '\\'
    ensures BaseName(dir + name) == name
  {
    if dir == "" {
      assert dir + name == name;
    } else {
      assert dir[|dir| - 1] in dir;
      assert dir[|dir| - 1] in dir + name;
      assert (dir + name)[1..] == dir[1..] + name;
      BaseNameExactly(dir[1..], name);
    }
  }

  // The parser gives a tree for the tokens of the lexer

  /** The marks of word parts inside quotes `quote`; None where the tree has escapes or expansions. */
  function MarksOf(parts: seq<WordPart>, quote: Quote): Option<seq<Mark>> {
    if parts == [] then Some([])
    else match (MarksOfPart(parts[0], quote), MarksOf(parts[1..], quote))
         case (Some(a), Some(b)) => Some(a + b)
         case _ => None
  }

  function MarksOfPart(part: WordPart, quote: Quote): Option<seq<Mark>> {
    match part
    case Lit(v) => if '\\' in v then None else Some(Marked(v, quote))
    case SglQuoted(v) => Some(Marked(v, Single))
    case DblQuoted(parts) => MarksOf(parts, Double)
    case Expansion => None
  }

  predicate IsTreeOf(words: seq<seq<WordPart>>, tokens: seq<Token>) {
    && |words| == |tokens|
    && forall i | 0 <= i < |words| :: tokens[i].Word? && MarksOf(words[i], Bare) == Some(tokens[i].marks)
  }

  lemma UnquoteSplit(a: seq<Mark>, b: seq<Mark>)
    ensures Unquote(a + b) == Unquote(a) + Unquote(b)
  {
  }

  lemma {:induction false} TreeHasLiteral(parts: seq<WordPart>, quote: Quote)
    requires MarksOf(parts, quote).Some?
    ensures Literal(parts) == Some(Unquote(MarksOf(parts, quote).value))
    decreases parts
  {
    if parts == [] {
      assert Unquote([]) == "";
    } else {
      TreeHasLiteral(parts[1..], quote);
      var a, b := MarksOfPart(parts[0], quote).value, MarksOf(parts[1..], quote).value;
      if parts[0].DblQuoted? {
        TreeHasLiteral(parts[0].parts, Double);
      }
      assert LiteralOf(parts[0]) == Some(Unquote(a));
      assert Literal(parts) == Some(Unquote(a) + Unquote(b));
      UnquoteSplit(a, b);
    }
  }

  function WithoutEmpty(values: seq<string>): seq<string> {
    if values == [] then [] else (if values[0] == "" then [] else [values[0]]) + WithoutEmpty(values[1..])
  }

  lemma {:induction false} TreeHasLiterals(words: seq<seq<WordPart>>, tokens: seq<Token>)
    requires IsTreeOf(words, tokens)
    ensures NonEmptyLiterals(words) == Some(WithoutEmpty(Values(tokens)))
    decreases |words|
  {
    if words != [] {
      TreeHasLiteral(words[0], Bare);
      TreeHasLiterals(words[1..], tokens[1..]);
      assert Values(tokens)[1..] == Values(tokens[1..]);
    }
  }

  lemma {:induction false} WithoutEmptyKeeps(values: seq<string>)
    ensures |WithoutEmpty(values)| <= |values|
    ensures WithoutEmpty(values) == values <==> "" !in values
  {
    if values != [] {
      WithoutEmptyKeeps(values[1..]);
      assert values == [values[0]] + values[1..];
      if values[0] == "" {
        assert WithoutEmpty(values) == WithoutEmpty(values[1..]);
      } else {
        assert WithoutEmpty(values)[1..] == WithoutEmpty(values[1..]);
      }
    }
  }

  /** The tree with one part for each character. */
  function TreeOf(marks: seq<Mark>): seq<WordPart> {
    if marks == [] then []
    else [match marks[0].quote
          case Single => SglQuoted([marks[0].c])
          case Double => DblQuoted([Lit([marks[0].c])])
          case _ => Lit([marks[0].c])] + TreeOf(marks[1..])
  }

  lemma {:induction false} QuotedHasTree(s: string)
    ensures MarksOf(TreeOf(QuotedMarks(s)), Bare) == Some(QuotedMarks(s))
    decreases |s|
  {
    if s != "" {
      QuotedHasTree(s[1..]);
      var m := QuotedMarks(s)[0];
      assert QuotedMarks(s)[1..] == QuotedMarks(s[1..]);
      assert QuotedMarks(s) == [m] + QuotedMarks(s[1..]);
      var tree := TreeOf(QuotedMarks(s));
      assert tree[1..] == TreeOf(QuotedMarks(s[1..]));
      if m.quote == Double {
        assert tree[0] == DblQuoted([Lit([m.c])]) && [Lit([m.c])][1..] == [];
        assert Marked([m.c], Double) == [m] && [m] + [] == [m];
        assert MarksOf([Lit([m.c])], Double) == Some([m]);
      } else {
        assert tree[0] == SglQuoted([m.c]) && Marked([m.c], Single) == [m];
      }
    }
  }

  lemma LexQuoted(args: seq<string>)
    ensures Lexed(Quoted(args)) == CommandWords("kubectl", args)
    ensures Values(CommandWords("kubectl", args)) == ["kubectl"] + args
  {
    hide Lexer.Run, Quoted;
    KubectlAfter([], args);
    assert [] + CommandWords("kubectl", args) == CommandWords("kubectl", args);
    CommandWordsRead("kubectl", args);
  }

  predicate CanBeParsed(args: seq<string>) {
    args != [] && "" !in args && "--kubeconfig" !in args && forall a | a in args :: !("--kubeconfig=" <= a)
  }

  lemma KubeconfigArgs(args: seq<string>)
    ensures (forall a | a in args :: !IsKubeconfigFlag(a))
       <==> "--kubeconfig" !in args && forall a | a in args :: !("--kubeconfig=" <= a)
  {
    if "--kubeconfig" in args {
      assert IsKubeconfigFlag("--kubeconfig");
    }
  }

  lemma ArgsOfKubectl(args: seq<string>)
    ensures ArgsOf(WithoutEmpty(["kubectl"] + args)) == Some(args) <==> CanBeParsed(args)
  {
    var values := ["kubectl"] + args;
    assert values[1..] == args;
    WithoutEmptyKeeps(args);
    KubeconfigArgs(args);
    hide IsKubeconfigFlag;
    var kept := WithoutEmpty(args);
    assert WithoutEmpty(values) == ["kubectl"] + kept;
    assert (["kubectl"] + kept)[1..] == kept;
    assert BaseName("kubectl") == "kubectl";
    assert IsKubectlProgram("kubectl");
  }

  /** parseK8sCommandArgs reads the quoted command back exactly when there are arguments, none of them empty and none
      a --kubeconfig flag. */
  lemma ParsesBackExactly(args: seq<string>, words: seq<seq<WordPart>>)
    requires IsTreeOf(words, Lexed(Quoted(args)))
    ensures KubectlArgs(Statements([Statement(0, Call(0, words))])) == Some(args) <==> CanBeParsed(args)
  {
    hide Lexed, Quoted, IsTreeOf, ArgsOf, CanBeParsed, CommandWords;
    LexQuoted(args);
    TreeHasLiterals(words, Lexed(Quoted(args)));
    ArgsOfKubectl(args);
  }

  /** Every quoted command has such a tree. */
  lemma QuotedCommandHasTree(args: seq<string>) returns (words: seq<seq<WordPart>>)
    ensures IsTreeOf(words, Lexed(Quoted(args)))
  {
    hide Lexed, Quoted, MarksOf, TreeOf;
    LexQuoted(args);
    var first := [Lit("kubectl")];
    PlainHasTree("kubectl");
    words := [first] + seq(|args|, i requires 0 <= i < |args| => TreeOf(QuotedMarks(args[i])));
    forall i | 0 <= i < |args| ensures MarksOf(words[i + 1], Bare) == Some(QuotedMarks(args[i])) {
      QuotedHasTree(args[i]);
    }
    assert words[0] == first;
  }

  lemma PlainHasTree(w: string)
    requires '\\' !in w
    ensures MarksOf([Lit(w)], Bare) == Some(Marked(w, Bare))
  {
    assert [Lit(w)][1..] == [];
    assert Marked(w, Bare) + [] == Marked(w, Bare);
  }
}
