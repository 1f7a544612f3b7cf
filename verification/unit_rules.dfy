/** What rules can say about the units of a command: the assignments in front of a command take part in the match. */
module UnitRules {
  import opened Text
  import opened CommandRule
  import opened Shell

  /** Assignments that rules do not see, each printed as one field. */
  predicate AreStrippable(assigns: seq<Node>) {
    forall a | a in assigns :: !HasSpace(Printed(a)) && IsStrippable(Printed(a))
  }

  lemma {:induction false} StrippedFront(assigns: seq<Node>, rest: seq<string>)
    requires AreStrippable(assigns)
    ensures Stripped(ExpandAll(PrintedFields(assigns) + rest)) == Stripped(ExpandAll(rest))
  {
    hide IsStrippable, Stripped, ExpandAll, HasSpace;
    if assigns == [] {
      assert PrintedFields(assigns) + rest == rest;
    } else {
      var text := Printed(assigns[0]);
      assert assigns[0] in assigns && forall a | a in assigns[1..] :: a in assigns;
      StrippedFront(assigns[1..], rest);
      StrippableIsOneWord(text);
      assert PrintedFields(assigns) + rest == [text] + (PrintedFields(assigns[1..]) + rest);
      StrippedOne(text, PrintedFields(assigns[1..]) + rest);
    }
  }

  lemma StrippableIsOneWord(text: string)
    requires !HasSpace(text) && IsStrippable(text)
    ensures Fields(text) == [text]
  {
    StrippableIsNoFlag(text);
    FieldsOfWord(text);
  }

  lemma StrippedOne(text: string, rest: seq<string>)
    requires IsStrippable(text)
    ensures Stripped(ExpandAll([text] + rest)) == Stripped(ExpandAll(rest))
  {
    StrippableIsNoFlag(text);
    hide IsStrippable, ExpandShortFlag;
    ExpandAllSplit([text], rest);
    assert ExpandAll([text]) == [text] + ExpandAll([text][1..]);
    assert ExpandAll([text] + rest)[1..] == ExpandAll(rest);
  }

  lemma StrippableIsNoFlag(text: string)
    requires IsStrippable(text)
    ensures text != "" && !IsFlag(text) && ExpandShortFlag(text) == [text]
  {
  }

  lemma {:induction false} NameBeforeEquals(name: string, rest: string)
    requires '=' !in name
    ensures BeforeEquals(name + "=" + rest) == name && '=' in name + "=" + rest
  {
    if name == "" {
      assert (name + "=" + rest)[0] == '=';
    } else {
      assert forall c | c in name[1..] :: c in name;
      NameBeforeEquals(name[1..], rest);
      assert (name + "=" + rest)[1..] == name[1..] + "=" + rest && (name + "=" + rest)[0] == name[0];
    }
  }

  predicate IsName(name: string) {
    name != "" && IsNameStart(name[0]) && forall i | 0 <= i < |name| :: IsNameChar(name[i])
  }

  lemma NameIsOneWord(name: string)
    requires IsName(name)
    ensures '=' !in name && !HasSpace(name + "=")
  {
    assert forall c | c in name :: IsNameChar(c);
  }

  /** The first field of an assignment begins with its name. */
  lemma {:induction false} FirstFieldFrom(word: string, s: string)
    requires word != ""
    ensures FieldsFrom(word, s) != [] && word <= FieldsFrom(word, s)[0]
    decreases |s|
  {
    if s != "" && !IsSpace(s[0]) {
      FirstFieldFrom(word + [s[0]], s[1..]);
    }
  }

  lemma {:induction false} FieldsAfterWord(word: string, w: string, s: string)
    requires !HasSpace(w)
    ensures FieldsFrom(word, w + s) == FieldsFrom(word + w, s)
    decreases |w|
  {
    if w == "" {
      assert w + s == s && word + w == word;
    } else {
      assert w[0] == w[0..][0] && !IsSpace(w[0]);
      assert forall i | 0 <= i < |w[1..]| :: w[1..][i] == w[i + 1];
      FieldsAfterWord(word + [w[0]], w[1..], s);
      assert (w + s)[1..] == w[1..] + s && word + [w[0]] + w[1..] == word + w;
    }
  }

  lemma FirstFieldOfAssign(a: Node)
    requires a.Assign? && IsName(a.name)
    ensures Fields(Printed(a)) != [] && a.name + "=" <= Fields(Printed(a))[0]
  {
    var value := if a.value.Some? then Printed(a.value.value) else "";
    NameIsOneWord(a.name);
    assert Printed(a) == a.name + "=" + value && "" + (a.name + "=") == a.name + "=";
    FieldsAfterWord("", a.name + "=", value);
    FirstFieldFrom(a.name + "=", value);
  }

  /** The first token that is left of a call with a listed assignment, after harmless ones, begins with its name. */
  lemma ListedAssignmentStays(call: Node, own: seq<string>, j: nat)
    requires IsCall(call) && NamesCall(call, own) && own != [] && j < |call.assigns|
    requires AreStrippable(call.assigns[..j])
    requires IsName(call.assigns[j].name) && call.assigns[j].name in DANGEROUS_ENV_ASSIGNS
    ensures Fields(Printed(call.assigns[j])) != [] && call.assigns[j].name + "=" <= Fields(Printed(call.assigns[j]))[0]
    ensures Stripped(Tokens(own[0])) != [] && Stripped(Tokens(own[0]))[0] == Fields(Printed(call.assigns[j]))[0]
  {
    hide AreStrippable, IsStrippable, TrimSpace, IsName, Fields, ExpandShortFlag;
    var front, a, back := call.assigns[..j], call.assigns[j], call.assigns[j + 1..];
    assert call.assigns[j] in call.assigns;
    FirstFieldOfAssign(a);
    var first := Fields(Printed(a))[0];
    assert call.assigns == front + ([a] + back);
    PrintedSplit(front, [a] + back);
    var more := Fields(Printed(a))[1..] + PrintedFields(back) + PrintedFields(call.args);
    assert ([a] + back)[1..] == back && Fields(Printed(a)) == [first] + Fields(Printed(a))[1..];
    assert Fields(own[0]) == PrintedFields(front) + ([first] + more);
    StrippedFront(front, [first] + more);
    ListedIsKept(a.name, first);
    ExpandAllSplit([first], more);
    assert ExpandAll([first]) == [first] + ExpandAll([first][1..]);
    assert ExpandAll([first] + more)[0] == first;
  }

  /** A call is matched under a listed assignment only by `*`, or by a rule whose program is that assignment: strippable
      assignments may stand in front of it, but it is never dropped itself. */
  lemma ListedAssignmentIsTheProgram(call: Node, own: seq<string>, j: nat, rule: string)
    requires IsCall(call) && NamesCall(call, own) && own != [] && j < |call.assigns|
    requires AreStrippable(call.assigns[..j])
    requires IsName(call.assigns[j].name) && call.assigns[j].name in DANGEROUS_ENV_ASSIGNS
    requires MatchCommandRule(rule, own[0]) && !IsWildcardAll(rule)
    ensures Tokens(rule) != [] && Fields(Printed(call.assigns[j])) != []
    ensures Tokens(rule)[0] == Fields(Printed(call.assigns[j]))[0] && call.assigns[j].name + "=" <= Tokens(rule)[0]
  {
    hide MatchArgs, Operands, Tokens, Stripped, Fields, NamesCall, IsCall, AreStrippable, IsName;
    ListedAssignmentStays(call, own, j);
    assert Parsed(Stripped(Tokens(own[0])), false).program == Stripped(Tokens(own[0]))[0];
  }

  lemma {:induction false} PrintedSplit(a: seq<Node>, b: seq<Node>)
    ensures PrintedFields(a + b) == PrintedFields(a) + PrintedFields(b)
  {
    if a == [] {
      assert a + b == b;
    } else {
      assert (a + b)[1..] == a[1..] + b;
      PrintedSplit(a[1..], b);
    }
  }

  lemma ListedIsKept(name: string, first: string)
    requires IsName(name) && name in DANGEROUS_ENV_ASSIGNS && name + "=" <= first
    ensures !IsStrippable(first) && ExpandShortFlag(first) == [first]
  {
    var rest := first[|name| + 1..];
    assert first == name + "=" + rest;
    NameIsOneWord(name);
    NameBeforeEquals(name, rest);
    assert first[0] == name[0];
  }

  /** A name of letters, digits and underscores that does not begin with a digit. */
  predicate IsVariable(name: string) {
    && name != "" && !('0' <= name[0] <= '9')
    && forall c | c in name :: 'A' <= c <= 'Z' || 'a' <= c <= 'z' || '0' <= c <= '9' || c == '_'
  }

  /** Which words in front of a command a rule for the command does not see: assignments to variables, but for those that
      decide what is run or loaded. */
  lemma HiddenAssignmentsExactly(name: string)
    requires '=' !in name && !HasSpace(name)
    ensures MatchCommandRule("ls", name + "=x ls")
       <==> && IsVariable(name)
            && name !in {
                 "PATH", "IFS", "ENV", "BASH_ENV", "SHELLOPTS", "BASHOPTS", "BASH_FUNC", "PROMPT_COMMAND", "PS4",
                 "LD_PRELOAD", "LD_LIBRARY_PATH", "LD_AUDIT", "LD_DEBUG",
                 "DYLD_INSERT_LIBRARIES", "DYLD_LIBRARY_PATH", "DYLD_FALLBACK_LIBRARY_PATH",
                 "GIT_CONFIG_GLOBAL", "GIT_CONFIG_SYSTEM", "NIX_PATH", "PYTHONPATH", "PERL5LIB", "RUBYLIB", "NODE_OPTIONS"}
  {
    hide TrimSpace, MatchCommandRule, Tokens, MatchArgs, Operands;
    var assign := name + "=x";
    NameBeforeEquals(name, "x");
    assert !HasSpace(assign) && name + "=x ls" == assign + " " + "ls" && assign == name + "=" + "x";
    ListIsItsOwnRule();
    VariablesAreNames(name);
    if IsVariable(name) && name !in DANGEROUS_ENV_ASSIGNS {
      HarmlessAssignIsTransparent(assign, "ls", "ls");
    } else {
      KeptWordIsTheProgram(assign);
    }
  }

  lemma VariablesAreNames(name: string)
    requires '=' !in name
    ensures IsStrippable(name + "=x") <==> IsVariable(name) && name !in DANGEROUS_ENV_ASSIGNS
  {
    var assign := name + "=x";
    assert assign == name + "=" + "x";
    NameBeforeEquals(name, "x");
    if LooksLikeEnvAssign(assign) {
      forall c | c in name ensures IsNameChar(c) {
        var i :| 0 <= i < |name| && name[i] == c;
        if i == 0 { assert IsNameStart(name[0]); }
      }
    }
    if IsVariable(name) {
      assert name[0] in name;
      assert forall i | 1 <= i < |name| :: name[i] in name;
    }
  }

  lemma KeptWordIsTheProgram(assign: string)
    requires !HasSpace(assign) && '=' in assign && !IsStrippable(assign)
    ensures !MatchCommandRule("ls", assign + " " + "ls")
  {
    hide IsStrippable, TrimSpace, MatchArgs, Operands, HasSpace;
    TokensSplit(assign, "ls");
    FieldsOfWord(assign);
    assert ExpandShortFlag(assign) == [assign];
    assert ExpandAll([assign]) == [assign] + ExpandAll([assign][1..]);
    ListIsItsOwnRule();
    assert Tokens(assign + " " + "ls")[0] == assign;
    assert '=' !in "ls";
  }

  lemma ListIsItsOwnRule()
    ensures TrimSpace("ls") == "ls" && !IsWildcardAll("ls") && Tokens("ls") == ["ls"] && MatchCommandRule("ls", "ls")
  {
    assert TrimSpace("ls") == "ls";
    TokensOfWord("ls");
    PlainCommandMatchesItself("ls");
  }

  /** The call that assignments are kept for: listing a directory, with foreign code loaded. */
  lemma PreloadIsNotListing()
    ensures var call := CallExpr([Assign("LD_PRELOAD", Some(Word([], "/tmp/x.so")))], [Word([], "ls")]);
            UnitsOf([Stmt([], Some(call), false)]) == ["LD_PRELOAD=/tmp/x.so ls"]
    ensures !MatchCommandRule("ls *", "LD_PRELOAD=/tmp/x.so ls")
  {
    hide Units, UnitsOf, MatchCommandRule, CallText;
    var call := CallExpr([Assign("LD_PRELOAD", Some(Word([], "/tmp/x.so")))], [Word([], "ls")]);
    var stmt := Stmt([], Some(call), false);
    UnitsOfNone();
    PreloadUnits(call);
    UnitsOfOne(stmt);
    UnitsOfOne(call);
    UnitsUnfold(stmt);
    assert Before(stmt) == [call];
    PreloadIsNotMatched();
  }

  lemma PreloadIsNotMatched()
    ensures !MatchCommandRule("ls *", "LD_PRELOAD=/tmp/x.so ls")
  {
    hide Tokens, IsWildcardAll, MatchArgs, Operands, MatchCommandRule, LooksLikeEnvAssign, IsDangerousEnvAssign;
    var assign := "LD_PRELOAD=/tmp/x.so";
    PreloadIsListed(assign);
    assert assign + " " + "ls" == "LD_PRELOAD=/tmp/x.so ls";
    ListPattern();
    DangerousAssignIsTheProgram(assign, "ls", "ls *");
  }

  lemma ListPattern()
    ensures !IsWildcardAll("ls *") && Tokens("ls *") != [] && Tokens("ls *")[0] == "ls"
  {
    assert "ls *" == "ls" + " " + "*";
    TokensSplit("ls", "*");
    TokensOfWord("ls");
    TokensOfWord("*");
    assert TrimSpace("ls *") == "ls *";
  }

  lemma PreloadIsListed(assign: string)
    requires assign == "LD_PRELOAD=/tmp/x.so"
    ensures !HasSpace(assign) && LooksLikeEnvAssign(assign) && IsDangerousEnvAssign(assign)
  {
    assert assign == "LD_PRELOAD" + "=" + "/tmp/x.so";
    PreloadIsName();
    NameLooksLikeAssign("LD_PRELOAD", "/tmp/x.so");
    NoSpaceInPreload();
  }

  lemma PreloadIsName()
    ensures IsName("LD_PRELOAD")
  {
  }

  lemma NoSpaceInPreload()
    ensures !HasSpace("LD_PRELOAD=/tmp/x.so")
  {
  }

  lemma NameLooksLikeAssign(name: string, value: string)
    requires IsName(name)
    ensures var assign := name + "=" + value;
            LooksLikeEnvAssign(assign) && (IsDangerousEnvAssign(assign) <==> name in DANGEROUS_ENV_ASSIGNS)
  {
    NameIsOneWord(name);
    NameBeforeEquals(name, value);
  }

  lemma PreloadUnits(call: Node)
    requires call == CallExpr([Assign("LD_PRELOAD", Some(Word([], "/tmp/x.so")))], [Word([], "ls")])
    ensures Units(call) == ["LD_PRELOAD=/tmp/x.so ls"]
  {
    hide Units, UnitsOf, CallText;
    UnitsOfNone();
    UnitsUnfold(call);
    PlainWordHasNoUnits(Word([], "/tmp/x.so"));
    PlainWordHasNoUnits(Word([], "ls"));
    UnitsOfOne(call.assigns[0]);
    UnitsOfOne(call.args[0]);
    UnitsOfOne(Word([], "/tmp/x.so"));
    UnitsUnfold(call.assigns[0]);
    assert call.assigns == [call.assigns[0]] && call.args == [call.args[0]];
    PreloadText(call);
  }

  lemma PlainWordHasNoUnits(w: Node)
    requires w.Word? && w.parts == []
    ensures Units(w) == []
  {
    UnitsUnfold(w);
    UnitsOfNone();
  }

  lemma PreloadText(call: Node)
    requires call == CallExpr([Assign("LD_PRELOAD", Some(Word([], "/tmp/x.so")))], [Word([], "ls")])
    ensures CallText(call.assigns, call.args) == "LD_PRELOAD=/tmp/x.so ls"
  {
    assert "LD_PRELOAD" + "=" + "/tmp/x.so" == "LD_PRELOAD=/tmp/x.so" == AssignText(call.assigns[0]);
    assert seq(1, i requires 0 <= i < 1 => AssignText(call.assigns[i])) == ["LD_PRELOAD=/tmp/x.so"];
    assert seq(1, i requires 0 <= i < 1 => WordText(call.args[i])) == ["ls"];
    assert TrimSpace("ls") == "ls" && TrimSpace("LD_PRELOAD=/tmp/x.so ls") == "LD_PRELOAD=/tmp/x.so ls";
    assert "LD_PRELOAD=/tmp/x.so" + " " + "ls" == "LD_PRELOAD=/tmp/x.so ls";
  }
}
