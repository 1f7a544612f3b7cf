/** Command rules: how a rule and a shell command are parsed and matched. */
module CommandRule {
  import opened Text
  import opened Glob

  datatype ParsedCommand = ParsedCommand(program: string, args: Args)

  /** What follows the program; a later setting of a flag replaces an earlier one. */
  datatype Args = Args(subCommands: seq<string>, flags: map<string, string>, wildcard: bool) {
    function Then(rest: Args): Args {
      Args(subCommands + rest.subCommands, flags + rest.flags, wildcard || rest.wildcard)
    }
  }

  const NO_ARGS := Args([], map[], false)

  // Tokens

  predicate IsFlag(t: string) {
    t != "" && t[0] == '-'
  }

  function ByteLen(s: string): nat {
    if s == "" then 0 else Utf8Len(s[0]) + ByteLen(s[1..])
  }

  /** One flag per scalar; the code sizes its result in bytes, so longer ones leave empty tokens. */
  function ShortFlags(chars: string): seq<string> {
    if chars == "" then [] else ["-" + [chars[0]]] + seq(Utf8Len(chars[0]) - 1, _ => "") + ShortFlags(chars[1..])
  }

  function ExpandShortFlag(token: string): seq<string> {
    if !IsFlag(token) || "--" <= token then [token]
    else if ByteLen(token[1..]) <= 1 || '=' in token then [token]
    else ShortFlags(token[1..])
  }

  function ExpandAll(fields: seq<string>): seq<string> {
    if fields == [] then [] else ExpandShortFlag(fields[0]) + ExpandAll(fields[1..])
  }

  function Tokens(s: string): seq<string> {
    ExpandAll(Fields(s))
  }

  method Tokenize(s: string) returns (result: seq<string>)
    ensures result == Tokens(s)
  {
    var fields := Fields(s);
    result := [];
    for i := 0 to |fields|
      invariant result + ExpandAll(fields[i..]) == Tokens(s)
    {
      result := result + ExpandShortFlag(fields[i]);
    }
  }

  // Leading assignments

  const DANGEROUS_ENV_ASSIGNS: set<string> := {
    "PATH", "LD_PRELOAD", "LD_LIBRARY_PATH", "LD_AUDIT", "LD_DEBUG", "DYLD_INSERT_LIBRARIES",
    "DYLD_LIBRARY_PATH", "DYLD_FALLBACK_LIBRARY_PATH", "IFS", "BASH_ENV", "ENV", "SHELLOPTS", "BASHOPTS",
    "BASH_FUNC", "PROMPT_COMMAND", "PS4", "GIT_CONFIG_GLOBAL", "GIT_CONFIG_SYSTEM", "NIX_PATH", "PYTHONPATH",
    "PERL5LIB", "RUBYLIB", "NODE_OPTIONS" }

  /** The text before the first `=`. */
  function BeforeEquals(t: string): string {
    if t == "" || t[0] == '=' then "" else [t[0]] + BeforeEquals(t[1..])
  }

  /** The text after the first `=`. */
  function AfterEquals(t: string): string {
    if t == "" then "" else if t[0] == '=' then t[1..] else AfterEquals(t[1..])
  }

  predicate IsNameStart(c: char) {
    c == '_' || 'A' <= c <= 'Z' || 'a' <= c <= 'z'
  }

  predicate IsNameChar(c: char) {
    IsNameStart(c) || '0' <= c <= '9'
  }

  predicate LooksLikeEnvAssign(t: string) {
    var name := BeforeEquals(t);
    '=' in t && name != "" && IsNameStart(name[0]) && forall i | 1 <= i < |name| :: IsNameChar(name[i])
  }

  predicate IsDangerousEnvAssign(t: string) {
    '=' in t && BeforeEquals(t) in DANGEROUS_ENV_ASSIGNS
  }

  predicate IsStrippable(t: string) {
    LooksLikeEnvAssign(t) && !IsDangerousEnvAssign(t)
  }

  function Stripped(tokens: seq<string>): seq<string> {
    if tokens != [] && IsStrippable(tokens[0]) then Stripped(tokens[1..]) else tokens
  }

  method StripLeadingAssigns(tokens: seq<string>) returns (rest: seq<string>)
    ensures rest == Stripped(tokens)
  {
    var i := 0;
    while i < |tokens| && LooksLikeEnvAssign(tokens[i])
      invariant i <= |tokens| && Stripped(tokens[i..]) == Stripped(tokens)
    {
      if IsDangerousEnvAssign(tokens[i]) {
        return tokens[i..];
      }
      i := i + 1;
    }
    return tokens[i..];
  }

  // Parsing

  /** What the first token contributes and how many tokens it takes: a flag takes its value after
      `=`, or the next token unless that is a flag; a bare `*` is a wildcard in rules only. */
  function FirstOperand(ts: seq<string>, inRule: bool): (r: (Args, nat))
    requires ts != []
    ensures 1 <= r.1 <= |ts|
  {
    var t := ts[0];
    if IsFlag(t) then
      if '=' in t then (Args([], map[BeforeEquals(t) := AfterEquals(t)], false), 1)
      else if |ts| > 1 && !IsFlag(ts[1]) then (Args([], map[t := ts[1]], false), 2)
      else (Args([], map[t := ""], false), 1)
    else if inRule && t == "*" then (Args([], map[], true), 1)
    else (Args([t], map[], false), 1)
  }

  function Operands(ts: seq<string>, inRule: bool): Args
    decreases |ts|
  {
    if ts == [] then NO_ARGS
    else var (first, n) := FirstOperand(ts, inRule); first.Then(Operands(ts[n..], inRule))
  }

  lemma ThenAssociates(a: Args, b: Args, c: Args)
    ensures a.Then(b.Then(c)) == a.Then(b).Then(c)
  {
    assert a.subCommands + (b.subCommands + c.subCommands) == a.subCommands + b.subCommands + c.subCommands;
    assert a.flags + (b.flags + c.flags) == a.flags + b.flags + c.flags;
  }

  /** One iteration of the parsing loops. */
  lemma OperandsStep(acc: Args, tokens: seq<string>, i: nat, inRule: bool)
    requires i < |tokens|
    ensures var (first, n) := FirstOperand(tokens[i..], inRule);
            acc.Then(Operands(tokens[i..], inRule)) == acc.Then(first).Then(Operands(tokens[i + n..], inRule))
  {
    var ts := tokens[i..];
    var (first, n) := FirstOperand(ts, inRule);
    assert ts[n..] == tokens[i + n..];
    ThenAssociates(acc, first, Operands(ts[n..], inRule));
  }

  function Parsed(tokens: seq<string>, inRule: bool): ParsedCommand {
    if tokens == [] then ParsedCommand("", NO_ARGS) else ParsedCommand(tokens[0], Operands(tokens[1..], inRule))
  }

  lemma NothingThen(a: Args)
    ensures NO_ARGS.Then(a) == a == a.Then(NO_ARGS)
  {
    assert [] + a.subCommands == a.subCommands == a.subCommands + [];
    assert map[] + a.flags == a.flags == a.flags + map[];
  }

  lemma AddFlag(a: Args, f: string, v: string)
    ensures a.(flags := a.flags[f := v]) == a.Then(Args([], map[f := v], false))
  {
    assert a.subCommands + [] == a.subCommands;
  }

  lemma AddSubCommand(a: Args, t: string)
    ensures a.(subCommands := a.subCommands + [t]) == a.Then(Args([t], map[], false))
  {
    assert a.flags + map[] == a.flags;
  }

  lemma AddWildcard(a: Args)
    ensures a.(wildcard := true) == a.Then(Args([], map[], true))
  {
    assert a.subCommands + [] == a.subCommands && a.flags + map[] == a.flags;
  }

  lemma NoOperands(tokens: seq<string>, inRule: bool)
    ensures Operands(tokens[|tokens|..], inRule) == NO_ARGS
  {
  }

  method ParseCommandRule(rule: string) returns (result: ParsedCommand)
    ensures result == Parsed(Tokens(rule), true)
  {
    hide Operands, Args.Then;
    var tokens := Tokenize(rule);
    if |tokens| == 0 {
      return ParsedCommand("", NO_ARGS);
    }
    var args := NO_ARGS;
    var i := 1;
    NothingThen(Operands(tokens[1..], true));
    while i < |tokens|
      invariant 1 <= i <= |tokens|
      invariant args.Then(Operands(tokens[i..], true)) == Operands(tokens[1..], true)
    {
      OperandsStep(args, tokens, i, true);
      var t := tokens[i];
      if IsFlag(t) {
        if '=' in t {
          AddFlag(args, BeforeEquals(t), AfterEquals(t));
          args := args.(flags := args.flags[BeforeEquals(t) := AfterEquals(t)]);
        } else if i + 1 < |tokens| && !IsFlag(tokens[i + 1]) {
          AddFlag(args, t, tokens[i + 1]);
          args := args.(flags := args.flags[t := tokens[i + 1]]);
          i := i + 1;
        } else {
          AddFlag(args, t, "");
          args := args.(flags := args.flags[t := ""]);
        }
      } else if t == "*" {
        AddWildcard(args);
        args := args.(wildcard := true);
      } else {
        AddSubCommand(args, t);
        args := args.(subCommands := args.subCommands + [t]);
      }
      i := i + 1;
    }
    NoOperands(tokens, true);
    NothingThen(args);
    return ParsedCommand(tokens[0], args);
  }

  method ParseActualCommand(command: string) returns (result: ParsedCommand)
    ensures result == Parsed(Stripped(Tokens(command)), false)
  {
    hide Operands, Args.Then;
    var all := Tokenize(command);
    var tokens := StripLeadingAssigns(all);
    if |tokens| == 0 {
      return ParsedCommand("", NO_ARGS);
    }
    var args := NO_ARGS;
    var i := 1;
    NothingThen(Operands(tokens[1..], false));
    while i < |tokens|
      invariant 1 <= i <= |tokens|
      invariant args.Then(Operands(tokens[i..], false)) == Operands(tokens[1..], false)
    {
      OperandsStep(args, tokens, i, false);
      var t := tokens[i];
      if IsFlag(t) {
        if '=' in t {
          AddFlag(args, BeforeEquals(t), AfterEquals(t));
          args := args.(flags := args.flags[BeforeEquals(t) := AfterEquals(t)]);
        } else if i + 1 < |tokens| && !IsFlag(tokens[i + 1]) {
          AddFlag(args, t, tokens[i + 1]);
          args := args.(flags := args.flags[t := tokens[i + 1]]);
          i := i + 1;
        } else {
          AddFlag(args, t, "");
          args := args.(flags := args.flags[t := ""]);
        }
      } else {
        AddSubCommand(args, t);
        args := args.(subCommands := args.subCommands + [t]);
      }
      i := i + 1;
    }
    NoOperands(tokens, false);
    NothingThen(args);
    return ParsedCommand(tokens[0], args);
  }

  // Matching

  predicate IsWildcardAll(rule: string) {
    TrimSpace(rule) == "*"
  }

  predicate MatchSubCommand(pattern: string, subs: seq<string>) {
    exists sub | sub in subs :: MatchGlob(pattern, sub)
  }

  predicate FlagValueMatches(ruleValue: string, actual: string) {
    ruleValue == "" || ruleValue == "*" || MatchGlob(ruleValue, actual)
  }

  predicate MatchArgs(rule: Args, cmd: Args) {
    && (forall sub | sub in rule.subCommands :: MatchSubCommand(sub, cmd.subCommands))
    && (forall f | f in rule.flags :: f in cmd.flags && FlagValueMatches(rule.flags[f], cmd.flags[f]))
    && (rule.wildcard
        || (|cmd.subCommands| <= |rule.subCommands| && (forall f | f in cmd.flags :: f in rule.flags)))
  }

  predicate MatchCommandRule(rule: string, command: string) {
    if IsWildcardAll(rule) then TrimSpace(command) != ""
    else
      var r := Parsed(Tokens(rule), true);
      var c := Parsed(Stripped(Tokens(command)), false);
      r.program != "" && c.program != "" && r.program == c.program && MatchArgs(r.args, c.args)
  }

  // What the parser does with a `*`

  /** Reading tokens as a rule or as a command gives the same flags; a rule only loses bare stars. */
  lemma {:induction false} RuleReading(ts: seq<string>)
    ensures Operands(ts, true).flags == Operands(ts, false).flags
    ensures forall s | s in Operands(ts, true).subCommands :: s in Operands(ts, false).subCommands && s != "*"
    ensures !Operands(ts, true).wildcard ==> Operands(ts, true).subCommands == Operands(ts, false).subCommands
    ensures !Operands(ts, false).wildcard
    decreases |ts|
  {
    if ts != [] {
      RuleReading(ts[FirstOperand(ts, true).1..]);
    }
  }

  /** The same operands, except that flags may have got the value `*`, and there may be a wildcard. */
  predicate StarExtends(a: Args, b: Args) {
    && a.subCommands == b.subCommands
    && a.flags.Keys == b.flags.Keys
    && (forall f | f in a.flags :: b.flags[f] == a.flags[f] || b.flags[f] == "*")
    && (a.wildcard ==> b.wildcard)
  }

  lemma ThenStarExtends(first: Args, a: Args, b: Args)
    requires StarExtends(a, b)
    ensures StarExtends(first.Then(a), first.Then(b))
  {
  }

  /** A trailing `*` becomes the wildcard, or the value of a final flag that had none. */
  lemma {:induction false} TrailingStar(ts: seq<string>)
    ensures StarExtends(Operands(ts, true), Operands(ts + ["*"], true))
    decreases |ts|
  {
    hide StarExtends, Args.Then;
    if ts == [] {
      assert ts + ["*"] == ["*"] && ["*"][1..] == [];
      StarAlone();
    } else {
      var (first, n) := FirstOperand(ts, true);
      if n == 1 && |ts| == 1 && IsFlag(ts[0]) && '=' !in ts[0] {
        assert ts[1..] == [] && (ts + ["*"])[2..] == [] && (ts + ["*"])[1] == "*";
        FlagGetsStar(ts[0]);
      } else {
        assert (ts + ["*"])[n..] == ts[n..] + ["*"];
        assert FirstOperand(ts + ["*"], true) == (first, n);
        TrailingStar(ts[n..]);
        ThenStarExtends(first, Operands(ts[n..], true), Operands(ts[n..] + ["*"], true));
      }
    }
  }

  lemma StarAlone()
    ensures StarExtends(NO_ARGS, Args([], map[], true).Then(NO_ARGS))
  {
  }

  lemma FlagGetsStar(flag: string)
    ensures StarExtends(Args([], map[flag := ""], false).Then(NO_ARGS), Args([], map[flag := "*"], false).Then(NO_ARGS))
  {
  }

  lemma StarExtendsMatches(a: Args, b: Args, cmd: Args)
    requires StarExtends(a, b) && MatchArgs(a, cmd)
    ensures MatchArgs(b, cmd)
  {
    hide MatchSubCommand, MatchGlob;
  }

  // Tokens of composed texts

  lemma {:induction false} ExpandAllSplit(a: seq<string>, b: seq<string>)
    ensures ExpandAll(a + b) == ExpandAll(a) + ExpandAll(b)
  {
    if a == [] {
      assert a + b == b;
    } else {
      assert (a + b)[0] == a[0] && (a + b)[1..] == a[1..] + b;
      ExpandAllSplit(a[1..], b);
    }
  }

  lemma TokensSplit(a: string, b: string)
    ensures Tokens(a + " " + b) == Tokens(a) + Tokens(b)
  {
    FieldsSplit(a, ' ', b);
    ExpandAllSplit(Fields(a), Fields(b));
  }

  lemma TokensOfWord(w: string)
    requires w != "" && !HasSpace(w) && !IsFlag(w)
    ensures Tokens(w) == [w]
  {
    FieldsOfWord(w);
    assert ExpandAll([w]) == [w] + ExpandAll([w][1..]);
  }

  lemma {:induction false} ShortFlagsStart(chars: string)
    requires chars != ""
    ensures |ShortFlags(chars)| > 0 && IsFlag(ShortFlags(chars)[0])
  {
  }

  /** Only a blank text has no tokens, and the first token is never empty. */
  lemma BlankHasNoTokens(s: string)
    ensures Tokens(s) == [] <==> TrimSpace(s) == ""
    ensures Tokens(s) != [] ==> Tokens(s)[0] != ""
  {
    BlankHasNoFields(s);
    FieldsAreWords("", s);
    var fs := Fields(s);
    if fs != [] {
      assert fs[0] in fs;
      if IsFlag(fs[0]) && |fs[0]| > 1 {
        ShortFlagsStart(fs[0][1..]);
      }
    }
  }

  // Rule algebra

  lemma AppendedStarWidens(rule: string, command: string)
    requires !IsWildcardAll(rule) && MatchCommandRule(rule, command)
    ensures MatchCommandRule(rule + " *", command)
  {
    hide Tokens, Operands, MatchArgs, StarExtends, TrimSpace, Stripped;
    var wider := rule + " *";
    assert wider == rule + " " + "*";
    assert TrimSpace(command) != "" by { MatchedIsNotBlank(rule, command); }
    if !IsWildcardAll(wider) {
      TokensSplit(rule, "*");
      TokensOfWord("*");
      var ts := Tokens(rule);
      assert Tokens(wider)[1..] == ts[1..] + ["*"];
      TrailingStar(ts[1..]);
      StarExtendsMatches(Operands(ts[1..], true), Operands(ts[1..] + ["*"], true),
                         Parsed(Stripped(Tokens(command)), false).args);
    }
  }

  lemma MatchedIsNotBlank(rule: string, command: string)
    requires MatchCommandRule(rule, command)
    ensures TrimSpace(command) != ""
  {
    BlankHasNoTokens(command);
  }

  /** Appending ` *` keeps every command a rule accepted, unless the rule is the lone `*`. */
  lemma AppendedStarWidensExactly(rule: string)
    ensures (forall command | MatchCommandRule(rule, command) :: MatchCommandRule(rule + " *", command))
       <==> !IsWildcardAll(rule)
  {
    if !IsWildcardAll(rule) {
      forall command | MatchCommandRule(rule, command) ensures MatchCommandRule(rule + " *", command) {
        AppendedStarWidens(rule, command);
      }
    } else {
      LoneStarNarrows(rule);
    }
  }

  lemma LoneStarNarrows(rule: string)
    requires IsWildcardAll(rule)
    ensures MatchCommandRule(rule, "ls") && !MatchCommandRule(rule + " *", "ls")
  {
    hide MatchArgs, Operands;
    var wider := rule + " *";
    assert TrimSpace("ls") == "ls" && Tokens("ls") == ["ls"] && Stripped(["ls"]) == ["ls"] by {
      TokensOfWord("ls");
      BlankHasNoTokens("ls");
    }
    TwoStars(rule, wider);
  }

  lemma TwoStars(rule: string, wider: string)
    requires IsWildcardAll(rule) && wider == rule + " *"
    ensures Tokens(wider) == ["*", "*"] && !IsWildcardAll(wider)
  {
    assert wider == rule + " " + "*";
    TokensOfWord("*");
    FieldsTrim(rule);
    TokensSplit(rule, "*");
    FieldsTrim(wider);
  }

  /** A harmless assignment in front of a command changes no match result. */
  lemma HarmlessAssignIsTransparent(assign: string, command: string, rule: string)
    requires !HasSpace(assign) && IsStrippable(assign)
    requires TrimSpace(command) != ""
    ensures MatchCommandRule(rule, assign + " " + command) == MatchCommandRule(rule, command)
  {
    TokensOfWord(assign);
    TokensSplit(assign, command);
    BlankHasNoTokens(assign + " " + command);
    assert (Tokens(assign) + Tokens(command))[1..] == Tokens(command);
  }

  /** A listed assignment stays in front as the program: only `*` or a rule naming it can match. */
  lemma DangerousAssignIsTheProgram(assign: string, command: string, rule: string)
    requires !HasSpace(assign) && LooksLikeEnvAssign(assign) && IsDangerousEnvAssign(assign)
    ensures MatchCommandRule(rule, assign + " " + command)
       <==> || IsWildcardAll(rule)
            || (&& Tokens(rule) != [] && Tokens(rule)[0] == assign
                && MatchArgs(Operands(Tokens(rule)[1..], true), Operands(Tokens(command), false)))
  {
    TokensOfWord(assign);
    TokensSplit(assign, command);
    BlankHasNoTokens(assign + " " + command);
    BlankHasNoTokens(rule);
    assert (Tokens(assign) + Tokens(command))[1..] == Tokens(command);
  }

  // A command text used as a rule for itself

  /** The text reads as a rule that accepts its own operands and flag values. */
  predicate AcceptsOwnArgs(text: string)
    requires Tokens(text) != []
  {
    var rule, cmd := Operands(Tokens(text)[1..], true), Operands(Tokens(text)[1..], false);
    && (forall sub | sub in rule.subCommands :: MatchSubCommand(sub, cmd.subCommands))
    && (forall f | f in rule.flags :: FlagValueMatches(rule.flags[f], rule.flags[f]))
  }

  /** Exactly when a command matches the rule with the same text. */
  lemma SelfMatchExactly(text: string)
    ensures MatchCommandRule(text, text)
       <==> && Tokens(text) != []
            && (IsWildcardAll(text) || (!IsStrippable(Tokens(text)[0]) && AcceptsOwnArgs(text)))
  {
    BlankHasNoTokens(text);
    var ts := Tokens(text);
    if ts != [] {
      RuleReading(ts[1..]);
      if IsStrippable(ts[0]) && !IsWildcardAll(text) {
        StrippedHead(ts);
      }
    }
  }

  lemma {:induction false} StrippedHead(tokens: seq<string>)
    ensures Stripped(tokens) != [] ==> !IsStrippable(Stripped(tokens)[0])
  {
    if tokens != [] && IsStrippable(tokens[0]) {
      StrippedHead(tokens[1..]);
    }
  }

  /** No character of the text starts a class or an escape in a glob. */
  predicate Plain(text: string) {
    '[' !in text && '\\' !in text
  }

  lemma {:induction false} PlainFields(word: string, s: string)
    requires Plain(word) && Plain(s)
    ensures forall f | f in FieldsFrom(word, s) :: Plain(f)
    decreases |s|
  {
    if s != "" {
      assert s[0] in s && forall c | c in s[1..] :: c in s;
      PlainFields(if IsSpace(s[0]) then "" else word + [s[0]], s[1..]);
    }
  }

  lemma {:induction false} PlainShortFlags(chars: string)
    requires Plain(chars)
    ensures forall t | t in ShortFlags(chars) :: Plain(t)
  {
    if chars != "" {
      assert chars[0] in chars && forall c | c in chars[1..] :: c in chars;
      PlainShortFlags(chars[1..]);
    }
  }

  lemma {:induction false} PlainTokens(fields: seq<string>)
    requires forall f | f in fields :: Plain(f)
    ensures forall t | t in ExpandAll(fields) :: Plain(t)
  {
    if fields != [] {
      PlainTokens(fields[1..]);
      var f := fields[0];
      if f != "" {
        assert f in fields && forall c | c in f[1..] :: c in f;
        PlainShortFlags(f[1..]);
      }
    }
  }

  lemma {:induction false} PlainAfterEquals(t: string)
    requires Plain(t)
    ensures Plain(AfterEquals(t))
  {
    if t != "" {
      assert forall c | c in t[1..] :: c in t;
      PlainAfterEquals(t[1..]);
    }
  }

  lemma {:induction false} PlainOperands(ts: seq<string>)
    requires forall t | t in ts :: Plain(t)
    ensures forall s | s in Operands(ts, true).subCommands :: Plain(s)
    ensures forall f | f in Operands(ts, true).flags :: Plain(Operands(ts, true).flags[f])
    decreases |ts|
  {
    if ts != [] {
      PlainAfterEquals(ts[0]);
      PlainOperands(ts[FirstOperand(ts, true).1..]);
    }
  }

  /** A plain command that does not begin with a strippable assignment is its own rule. */
  lemma PlainCommandMatchesItself(text: string)
    requires TrimSpace(text) != "" && Plain(text)
    requires Tokens(text) != [] ==> !IsStrippable(Tokens(text)[0])
    ensures MatchCommandRule(text, text)
  {
    BlankHasNoTokens(text);
    SelfMatchExactly(text);
    PlainFields("", text);
    PlainTokens(Fields(text));
    var ts := Tokens(text)[1..];
    assert forall t | t in ts :: t in Tokens(text);
    PlainOperands(ts);
    RuleReading(ts);
    var rule, cmd := Operands(ts, true), Operands(ts, false);
    forall sub | sub in rule.subCommands ensures MatchSubCommand(sub, cmd.subCommands) { SelfMatch(sub); }
    forall f | f in rule.flags ensures FlagValueMatches(rule.flags[f], rule.flags[f]) { SelfMatch(rule.flags[f]); }
  }

  // Rules without flags

  predicate HasNoFlag(ts: seq<string>) {
    forall t | t in ts :: !IsFlag(t)
  }

  lemma {:induction false} FlaglessOperands(ts: seq<string>, inRule: bool)
    requires HasNoFlag(ts)
    ensures var args := Operands(ts, inRule);
            && args.flags == map[]
            && (args.wildcard <==> inRule && "*" in ts)
            && (forall s :: s in args.subCommands <==> s in ts && !(inRule && s == "*"))
            && |args.subCommands| == |ts| - (if inRule then multiset(ts)["*"] else 0)
    decreases |ts|
  {
    if ts != [] {
      assert ts[0] in ts && ts == [ts[0]] + ts[1..];
      FlaglessOperands(ts[1..], inRule);
    }
  }

  /** Words against words: the same program, each word of the rule found by some word of the command, and, unless the rule
      has a star, no more words in the command than in the rule. */
  lemma FlaglessMatchExactly(rule: string, command: string)
    requires var r, c := Tokens(rule), Stripped(Tokens(command));
             !IsWildcardAll(rule) && r != [] && c != [] && HasNoFlag(r[1..]) && HasNoFlag(c[1..])
    ensures var r, c := Tokens(rule), Stripped(Tokens(command));
            MatchCommandRule(rule, command)
            <==> && r[0] == c[0] && c[0] != ""
                 && (forall w | w in r[1..] && w != "*" :: exists s | s in c[1..] :: MatchGlob(w, s))
                 && ("*" in r[1..] || |c| <= |r|)
  {
    hide Operands, MatchGlob, Tokens, Stripped;
    var r, c := Tokens(rule), Stripped(Tokens(command));
    FlaglessOperands(r[1..], true);
    FlaglessOperands(c[1..], false);
    var mine, theirs := Operands(r[1..], true), Operands(c[1..], false);
    assert "*" !in r[1..] ==> multiset(r[1..])["*"] == 0;
    forall w ensures MatchSubCommand(w, theirs.subCommands) <==> exists s | s in c[1..] :: MatchGlob(w, s) {}
  }

  // Flags with a value

  lemma {:induction false} FirstEquals(flag: string, value: string)
    requires '=' !in flag
    ensures BeforeEquals(flag + "=" + value) == flag && AfterEquals(flag + "=" + value) == value
  {
    var t := flag + "=" + value;
    if flag == "" {
      assert t[0] == '=' && t[1..] == value;
    } else {
      assert forall c | c in flag[1..] :: c in flag;
      FirstEquals(flag[1..], value);
      assert t[1..] == flag[1..] + "=" + value && t[0] == flag[0] && flag[0] in flag;
    }
  }

  /** A flag of one short name or a long name, as it is written. */
  predicate IsFlagWord(flag: string) {
    IsFlag(flag) && '=' !in flag && !HasSpace(flag) && ExpandShortFlag(flag) == [flag]
  }

  lemma {:induction false} StrippedIsFront(ts: seq<string>, rest: seq<string>)
    requires Stripped(ts) != []
    ensures Stripped(ts + rest) == Stripped(ts) + rest
  {
    assert (ts + rest)[0] == ts[0] && (ts + rest)[1..] == ts[1..] + rest;
    if IsStrippable(ts[0]) {
      StrippedIsFront(ts[1..], rest);
    }
  }

  lemma {:induction false} OperandsAfterWords(front: seq<string>, a: seq<string>, b: seq<string>, inRule: bool)
    requires a != [] && b != [] && IsFlag(a[0]) && IsFlag(b[0]) && Operands(a, inRule) == Operands(b, inRule)
    ensures Operands(front + a, inRule) == Operands(front + b, inRule)
    decreases |front|
  {
    if front == [] {
      assert front + a == a && front + b == b;
    } else {
      var n := FirstOperand(front, inRule).1;
      assert FirstOperand(front + a, inRule) == FirstOperand(front, inRule) == FirstOperand(front + b, inRule);
      assert (front + a)[n..] == front[n..] + a && (front + b)[n..] == front[n..] + b;
      OperandsAfterWords(front[n..], a, b, inRule);
    }
  }

  /** `--flag=value` and `--flag value` are the same to every rule, wherever they stand behind the program. */
  lemma AttachedIsDetached(rule: string, command: string, flag: string, value: string)
    requires IsFlagWord(flag) && value != "" && !HasSpace(value) && !IsFlag(value)
    requires Stripped(Tokens(command)) != []
    ensures MatchCommandRule(rule, command + " " + (flag + "=" + value))
         == MatchCommandRule(rule, command + " " + (flag + " " + value))
  {
    hide Operands, MatchArgs, Stripped, Tokens, ExpandShortFlag, IsFlag, HasSpace, IsWildcardAll, TrimSpace;
    var one, two := flag + "=" + value, flag + " " + value;
    TokensOfFlagValue(flag, value);
    TokensSplit(command, one);
    TokensSplit(command, two);
    FirstEquals(flag, value);
    var ts := Tokens(command);
    StrippedIsFront(ts, [one]);
    StrippedIsFront(ts, [flag, value]);
    var front := Stripped(ts);
    SameFlag(flag, value);
    OperandsAfterWords(front[1..], [one], [flag, value], false);
    assert (front + [one])[1..] == front[1..] + [one] && (front + [flag, value])[1..] == front[1..] + [flag, value];
    BlankHasNoTokens(command + " " + one);
    BlankHasNoTokens(command + " " + two);
    StrippedNothing();
  }

  lemma StrippedNothing()
    ensures Stripped([]) == []
  {
  }

  lemma SameFlag(flag: string, value: string)
    requires IsFlagWord(flag) && !IsFlag(value)
    ensures IsFlag(flag + "=" + value) && Operands([flag + "=" + value], false) == Operands([flag, value], false)
  {
    FirstEquals(flag, value);
    var one := flag + "=" + value;
    assert one[0] == flag[0] && one[|flag|] == '=';
    var none: seq<string> := [];
    assert [one][1..] == none && [flag, value][2..] == none;
  }

  lemma TokensOfFlagValue(flag: string, value: string)
    requires IsFlagWord(flag) && value != "" && !HasSpace(value) && !IsFlag(value)
    ensures Tokens(flag + "=" + value) == [flag + "=" + value] && Tokens(flag + " " + value) == [flag, value]
  {
    var one := flag + "=" + value;
    assert one[0] == flag[0] && one[|flag|] == '=';
    FieldsOfWord(one);
    FieldsOfWord(flag);
    assert ExpandAll([one]) == ExpandShortFlag(one) + ExpandAll([one][1..]);
    assert ExpandAll([flag]) == ExpandShortFlag(flag) + ExpandAll([flag][1..]);
    TokensSplit(flag, value);
    TokensOfWord(value);
  }

  /** A flag of a rule asks for the flag, with a value that is `*` or matches. */
  lemma FlagValueMatchExactly(program: string, flag: string, pattern: string, value: string)
    requires program != "" && !HasSpace(program) && !IsFlag(program) && !IsStrippable(program)
    requires IsFlagWord(flag)
    requires pattern != "" && !HasSpace(pattern) && !IsFlag(pattern) && value != "" && !HasSpace(value) && !IsFlag(value)
    ensures MatchCommandRule(program + " " + (flag + " " + pattern), program + " " + (flag + " " + value))
       <==> pattern == "*" || MatchGlob(pattern, value)
    ensures !MatchCommandRule(program + " " + (flag + " " + pattern), program)
  {
    hide MatchGlob, Tokens, IsWildcardAll, Operands, IsFlagWord, IsStrippable;
    TokensWithFlag(program, flag, pattern);
    TokensWithFlag(program, flag, value);
    TokensOfWord(program);
    OneFlagOperands(flag, pattern, true);
    OneFlagOperands(flag, value, false);
    NoOperands([program], false);
    var rule := program + " " + (flag + " " + pattern);
    var asked := Args([], map[flag := pattern], false);
    assert Parsed(Tokens(rule), true) == ParsedCommand(program, asked);
    assert Parsed(Stripped(Tokens(program + " " + (flag + " " + value))), false)
        == ParsedCommand(program, Args([], map[flag := value], false));
    assert Parsed(Stripped(Tokens(program)), false) == ParsedCommand(program, NO_ARGS);
    var given := Args([], map[flag := value], false);
    assert flag in asked.flags && asked.flags[flag] == pattern && given.flags[flag] == value;
    assert asked.flags.Keys == given.flags.Keys == {flag};
    assert MatchArgs(asked, given) <==> FlagValueMatches(pattern, value);
    assert !MatchArgs(asked, NO_ARGS);
  }

  lemma TokensWithFlag(program: string, flag: string, value: string)
    requires program != "" && !HasSpace(program) && !IsFlag(program)
    requires IsFlagWord(flag) && value != "" && !HasSpace(value) && !IsFlag(value)
    ensures var text := program + " " + (flag + " " + value);
            && Tokens(text) != [] && Tokens(text)[0] == program && Tokens(text)[1..] == [flag, value]
            && !IsWildcardAll(text)
  {
    hide Tokens, IsWildcardAll, IsFlagWord;
    TokensOfFlagValue(flag, value);
    TokensOfWord(program);
    TokensSplit(program, flag + " " + value);
    ManyTokensAreNoStar(program + " " + (flag + " " + value));
  }

  lemma OneFlagOperands(flag: string, value: string, inRule: bool)
    requires IsFlagWord(flag) && !IsFlag(value)
    ensures Operands([flag, value], inRule) == Args([], map[flag := value], false)
  {
    var none: seq<string> := [];
    assert [flag, value][2..] == none && Operands(none, inRule) == NO_ARGS;
    NothingThen(Args([], map[flag := value], false));
  }

  lemma ManyTokensAreNoStar(text: string)
    requires |Tokens(text)| > 1
    ensures !IsWildcardAll(text)
  {
    if IsWildcardAll(text) {
      FieldsTrim(text);
      TokensOfWord("*");
    }
  }

  // Combined short flags

  /** The flags one by one. */
  function Separate(flags: string): string
    requires flags != ""
  {
    if |flags| == 1 then "-" + flags else "-" + flags[..1] + " " + Separate(flags[1..])
  }

  predicate AreShortFlags(flags: string) {
    forall c | c in flags :: !IsWide(c) && !IsSpace(c) && c != '=' && c != '-'
  }

  lemma {:induction false} SeparateTokens(flags: string)
    requires flags != "" && AreShortFlags(flags)
    ensures Tokens(Separate(flags)) == ShortFlags(flags)
  {
    var first := "-" + flags[..1];
    assert flags[0] in flags && first == "-" + [flags[0]] && first[1..] == flags[..1] && flags[..1][1..] == "";
    FieldsOfWord(first);
    assert ByteLen(flags[..1]) == Utf8Len(flags[0]) + ByteLen("");
    assert !("--" <= first) && ExpandShortFlag(first) == [first];
    assert ExpandAll([first]) == [first] + ExpandAll([first][1..]);
    var none: seq<string> := [];
    assert seq(Utf8Len(flags[0]) - 1, _ => "") == none;
    if |flags| == 1 {
      assert flags[1..] == "" && flags == flags[..1];
    } else {
      assert forall c | c in flags[1..] :: c in flags;
      SeparateTokens(flags[1..]);
      TokensSplit(first, Separate(flags[1..]));
    }
  }

  lemma {:induction false} ByteLenAtLeast(s: string)
    ensures ByteLen(s) >= |s|
  {
    if s != "" {
      ByteLenAtLeast(s[1..]);
    }
  }

  /** `-abc` and `-a -b -c` are the same, in rules and in commands. */
  lemma ClusterIsSeparate(flags: string)
    requires flags != "" && AreShortFlags(flags)
    ensures Tokens("-" + flags) == Tokens(Separate(flags))
  {
    SeparateTokens(flags);
    if |flags| > 1 {
      var token := "-" + flags;
      assert flags[0] in flags && token[1..] == flags && token[1] == flags[0];
      ByteLenAtLeast(flags);
      assert '=' !in token;
      assert !HasSpace(token);
      FieldsOfWord(token);
      assert ExpandAll([token]) == ExpandShortFlag(token) + ExpandAll([token][1..]);
    }
  }
}
