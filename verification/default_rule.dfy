/** The rule that is offered for a command: its first word, with anything after it. */
module DefaultRule {
  import opened Text
  import opened Glob
  import opened CommandRule

  function DefaultBashPattern(cmd: string): string {
    if Fields(cmd) == [] then TrimSpace(cmd) else Fields(cmd)[0] + " *"
  }

  /** The tokens of the first word: several for combined short flags, one otherwise. */
  function Head(cmd: string): seq<string> {
    if Fields(cmd) == [] then [] else ExpandShortFlag(Fields(cmd)[0])
  }

  function Tail(ts: seq<string>): seq<string> {
    if ts == [] then [] else ts[1..]
  }

  /** Reading all tokens gives the operands and the flags that reading only the own ones gives. */
  predicate AddsNothing(own: seq<string>, all: seq<string>) {
    && Operands(all, false).subCommands == Operands(own, false).subCommands
    && Operands(all, false).flags.Keys == Operands(own, false).flags.Keys
  }

  /** When the default rule accepts its command. A first word of one token is the program, so it must not be an assignment
      that is stripped. Combined short flags take the star as the value of the last one: then nothing may follow but
      values and repeated flags. If the last flag is a character of several bytes, the empty tokens it leaves take the
      place of the value, and the star stands for anything. */
  predicate AcceptsOwnCommand(cmd: string) {
    var head := Head(cmd);
    if |head| <= 1 then head != [] && !IsStrippable(head[0])
    else !IsFlag(head[|head| - 1]) || AddsNothing(Tail(head), Tail(Tokens(cmd)))
  }

  // Tokens

  lemma TokensOfCommand(cmd: string)
    requires Fields(cmd) != []
    ensures Tokens(cmd) == Head(cmd) + ExpandAll(Fields(cmd)[1..])
    ensures Fields(cmd)[0] != "" && !HasSpace(Fields(cmd)[0]) && Head(cmd) != []
  {
    FieldsAreWords("", cmd);
    var f := Fields(cmd)[0];
    assert f in Fields(cmd);
    if IsFlag(f) && |f| > 1 {
      ShortFlagsStart(f[1..]);
    }
  }

  lemma TokensOfDefault(f: string)
    requires f != "" && !HasSpace(f)
    ensures Tokens(f + " *") == ExpandShortFlag(f) + ["*"] && !IsWildcardAll(f + " *")
  {
    var rule := f + " *";
    assert rule == f + " " + "*";
    FieldsOfWord(f);
    assert ExpandAll([f]) == ExpandShortFlag(f) + ExpandAll([f][1..]) == ExpandShortFlag(f);
    TokensSplit(f, "*");
    TokensOfWord("*");
    assert |Fields(rule)| == 2 by {
      FieldsOfWord("*");
      FieldsSplit(f, ' ', "*");
    }
    assert |Fields(TrimSpace(rule))| == 2 by { FieldsTrim(rule); }
    assert |Fields("*")| == 1 by { FieldsOfWord("*"); }
  }

  /** More than one byte of short flags gives more than one token. */
  lemma {:induction false} SeveralFlags(chars: string)
    requires ByteLen(chars) > 1
    ensures |ShortFlags(chars)| > 1
  {
    if |chars| > 1 {
      assert |ShortFlags(chars[1..])| > 0 by { ShortFlagsStart(chars[1..]); }
    } else {
      assert chars[1..] == "";
      assert ByteLen(chars) == Utf8Len(chars[0]) + 0;
    }
  }

  lemma OneToken(f: string)
    requires f != "" && |ExpandShortFlag(f)| == 1
    ensures ExpandShortFlag(f) == [f]
  {
    if ExpandShortFlag(f) != [f] {
      SeveralFlags(f[1..]);
    }
  }

  /** Flags without values, and the empty tokens of characters of several bytes. */
  predicate IsCluster(ts: seq<string>) {
    forall t | t in ts :: t == "" || (IsFlag(t) && '=' !in t)
  }

  lemma {:induction false} ShortFlagsAreCluster(chars: string)
    requires '=' !in chars
    ensures IsCluster(ShortFlags(chars))
  {
    if chars != "" {
      assert chars[0] in chars && forall c | c in chars[1..] :: c in chars;
      ShortFlagsAreCluster(chars[1..]);
    }
  }

  lemma HeadIsCluster(cmd: string)
    requires |Head(cmd)| > 1
    ensures IsCluster(Head(cmd)) && IsFlag(Head(cmd)[0])
  {
    var f := Fields(cmd)[0];
    assert forall c | c in f[1..] :: c in f;
    ShortFlagsAreCluster(f[1..]);
    ShortFlagsStart(f[1..]);
  }

  // Reading a cluster

  /** A flag is never the value of the flag before it, so reading can be divided in front of it. */
  lemma {:induction false} DivideBeforeFlag(ts: seq<string>, flag: string, rest: seq<string>, inRule: bool)
    requires IsFlag(flag)
    ensures Operands(ts + ([flag] + rest), inRule) == Operands(ts, inRule).Then(Operands([flag] + rest, inRule))
    decreases |ts|
  {
    hide Args.Then;
    var more := [flag] + rest;
    if ts == [] {
      assert ts + more == more;
      NothingThen(Operands(more, inRule));
    } else {
      var (first, n) := FirstOperand(ts, inRule);
      assert FirstOperand(ts + more, inRule) == (first, n);
      assert (ts + more)[n..] == ts[n..] + more;
      DivideBeforeFlag(ts[n..], flag, rest, inRule);
      ThenAssociates(first, Operands(ts[n..], inRule), Operands(more, inRule));
    }
  }

  /** After a token that is no flag nothing is pending. */
  lemma {:induction false} DivideAfterWord(ts: seq<string>, more: seq<string>, inRule: bool)
    requires ts == [] || !IsFlag(ts[|ts| - 1])
    ensures Operands(ts + more, inRule) == Operands(ts, inRule).Then(Operands(more, inRule))
    decreases |ts|
  {
    hide Args.Then;
    if ts == [] {
      assert ts + more == more;
      NothingThen(Operands(more, inRule));
    } else {
      var (first, n) := FirstOperand(ts, inRule);
      assert FirstOperand(ts + more, inRule) == (first, n);
      assert (ts + more)[n..] == ts[n..] + more;
      DivideAfterWord(ts[n..], more, inRule);
      ThenAssociates(first, Operands(ts[n..], inRule), Operands(more, inRule));
    }
  }

  /** A cluster has only empty operands and flags without values, as a rule as well as in a command. */
  predicate IsBare(a: Args) {
    (forall s | s in a.subCommands :: s == "") && (forall f | f in a.flags :: a.flags[f] == "") && !a.wildcard
  }

  lemma {:induction false} ClusterIsBare(ts: seq<string>)
    requires IsCluster(ts)
    ensures IsBare(Operands(ts, true)) && Operands(ts, true) == Operands(ts, false)
    decreases |ts|
  {
    if ts != [] {
      assert ts[0] in ts && (|ts| > 1 ==> ts[1] in ts);
      ClusterIsBare(ts[FirstOperand(ts, true).1..]);
    }
  }

  lemma EmptyAcceptsEmpty()
    ensures MatchGlob("", "")
  {
    SelfMatch("");
  }

  /** With a wildcard the rule accepts whatever follows the cluster. */
  lemma WildcardAfterCluster(a: Args, b: Args)
    requires IsBare(a)
    ensures MatchArgs(a.Then(Args([], map[], true)), a.Then(b))
  {
    EmptyAcceptsEmpty();
    var rule, cmd := a.Then(Args([], map[], true)), a.Then(b);
    forall s | s in rule.subCommands ensures MatchSubCommand(s, cmd.subCommands) { assert s in cmd.subCommands; }
  }

  /** With a value for the last flag it accepts what adds no operand and no flag. */
  lemma ValueAfterCluster(a: Args, flag: string, b: Args)
    requires IsBare(a) && flag in b.flags
    ensures MatchArgs(a.Then(Args([], map[flag := "*"], false)), a.Then(b))
       <==> b.subCommands == [] && b.flags.Keys <= a.flags.Keys + {flag}
  {
    EmptyAcceptsEmpty();
    var rule, cmd := a.Then(Args([], map[flag := "*"], false)), a.Then(b);
    forall s | s in rule.subCommands ensures MatchSubCommand(s, cmd.subCommands) { assert s in cmd.subCommands; }
    assert |cmd.subCommands| <= |rule.subCommands| <==> b.subCommands == [];
    assert rule.flags.Keys == a.flags.Keys + {flag} && cmd.flags.Keys == a.flags.Keys + b.flags.Keys;
    assert (forall f | f in cmd.flags :: f in rule.flags) <==> b.flags.Keys <= a.flags.Keys + {flag} by {
      if forall f | f in cmd.flags :: f in rule.flags {
        forall f | f in b.flags.Keys ensures f in a.flags.Keys + {flag} {
          assert f in cmd.flags.Keys && f in rule.flags.Keys;
        }
      }
      if b.flags.Keys <= a.flags.Keys + {flag} {
        forall f | f in cmd.flags ensures f in rule.flags { assert f in cmd.flags.Keys; }
      }
    }
  }

  lemma FlagAlone(flag: string, rest: seq<string>)
    requires IsFlag(flag) && '=' !in flag
    ensures Operands([flag, "*"], true) == Args([], map[flag := "*"], false)
    ensures Operands([flag], false) == Args([], map[flag := ""], false)
    ensures flag in Operands([flag] + rest, false).flags
  {
    assert [flag, "*"][2..] == [] && [flag][1..] == [];
    NothingThen(Args([], map[flag := "*"], false));
    NothingThen(Args([], map[flag := ""], false));
  }

  lemma SameReading(a: Args, flag: string, b: Args)
    requires flag in b.flags
    ensures var own, all := a.Then(Args([], map[flag := ""], false)), a.Then(b);
            all.subCommands == own.subCommands && all.flags.Keys == own.flags.Keys
            <==> b.subCommands == [] && b.flags.Keys <= a.flags.Keys + {flag}
  {
    var own, all := a.Then(Args([], map[flag := ""], false)), a.Then(b);
    assert own.flags.Keys == a.flags.Keys + {flag} && all.flags.Keys == a.flags.Keys + b.flags.Keys;
    assert own.subCommands == a.subCommands;
    if all.subCommands == own.subCommands {
      assert |b.subCommands| == 0;
    }
  }

  lemma TailMatchesExactly(own: seq<string>, rest: seq<string>)
    requires own != [] && IsCluster(own)
    ensures MatchArgs(Operands(own + ["*"], true), Operands(own + rest, false))
       <==> !IsFlag(own[|own| - 1]) || AddsNothing(own, own + rest)
  {
    hide Operands, MatchArgs, Args.Then, IsBare;
    var n := |own| - 1;
    if IsFlag(own[n]) {
      var flag, init := own[n], own[..n];
      assert flag in own && IsCluster(init) by { assert forall t | t in init :: t in own; }
      ClusterIsBare(init);
      FlagAlone(flag, rest);
      assert own + ["*"] == init + ([flag] + ["*"]) && [flag] + ["*"] == [flag, "*"];
      assert own + rest == init + ([flag] + rest);
      assert own == init + ([flag] + []) && [flag] + [] == [flag];
      DivideBeforeFlag(init, flag, ["*"], true);
      DivideBeforeFlag(init, flag, rest, false);
      DivideBeforeFlag(init, flag, [], false);
      var a, b := Operands(init, false), Operands([flag] + rest, false);
      ValueAfterCluster(a, flag, b);
      SameReading(a, flag, b);
    } else {
      ClusterIsBare(own);
      DivideAfterWord(own, ["*"], true);
      DivideAfterWord(own, rest, false);
      StarIsWildcard();
      WildcardAfterCluster(Operands(own, false), Operands(rest, false));
    }
  }

  lemma StarIsWildcard()
    ensures Operands(["*"], true) == Args([], map[], true)
  {
    assert ["*"][1..] == [];
    NothingThen(Args([], map[], true));
  }

  lemma NotStripped(tokens: seq<string>)
    requires tokens != [] && IsFlag(tokens[0])
    ensures Stripped(tokens) == tokens
  {
    var t := tokens[0];
    assert t[0] != '=' ==> BeforeEquals(t) == [t[0]] + BeforeEquals(t[1..]);
  }

  // The default rule

  lemma ClusterRuleExactly(cmd: string)
    requires |Head(cmd)| > 1
    ensures MatchCommandRule(DefaultBashPattern(cmd), cmd) <==> AcceptsOwnCommand(cmd)
  {
    hide Tokens, Operands, MatchArgs, IsWildcardAll, Stripped, AddsNothing, IsCluster, ExpandShortFlag;
    var f, head := Fields(cmd)[0], Head(cmd);
    var rest := ExpandAll(Fields(cmd)[1..]);
    TokensOfCommand(cmd);
    TokensOfDefault(f);
    HeadIsCluster(cmd);
    var own := head[1..];
    assert IsCluster(own) by { PartOfCluster(head); }
    NotStripped(Tokens(cmd));
    assert (head + ["*"])[1..] == own + ["*"] && (head + rest)[1..] == own + rest;
    TailMatchesExactly(own, rest);
  }

  lemma PartOfCluster(ts: seq<string>)
    requires IsCluster(ts) && ts != []
    ensures IsCluster(ts[1..])
  {
    assert forall t | t in ts[1..] :: t in ts;
  }

  lemma WordRuleExactly(cmd: string)
    requires |Head(cmd)| == 1
    ensures MatchCommandRule(DefaultBashPattern(cmd), cmd) <==> !IsStrippable(Fields(cmd)[0])
  {
    hide IsWildcardAll, IsStrippable;
    var f, rest := Fields(cmd)[0], ExpandAll(Fields(cmd)[1..]);
    TokensOfCommand(cmd);
    OneToken(f);
    TokensOfDefault(f);
    var tokens := Tokens(cmd);
    assert tokens[0] == f && [f, "*"][1..] == ["*"];
    StarIsWildcard();
    StrippedHead(tokens);
    if !IsStrippable(f) {
      assert Stripped(tokens) == tokens;
    }
  }

  /** The default rule of a command accepts the command exactly when AcceptsOwnCommand says so. */
  lemma DefaultRuleExactly(cmd: string)
    requires Fields(cmd) != []
    ensures MatchCommandRule(DefaultBashPattern(cmd), cmd) <==> AcceptsOwnCommand(cmd)
  {
    hide MatchCommandRule, IsStrippable, AddsNothing;
    TokensOfCommand(cmd);
    if |Head(cmd)| > 1 {
      ClusterRuleExactly(cmd);
    } else {
      WordRuleExactly(cmd);
      OneToken(Fields(cmd)[0]);
    }
  }
}
