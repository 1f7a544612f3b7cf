/** The entities of the permission policies and what a set of rules decides. */
module PolicyModel {
  import opened Text
  import opened CommandRule
  import Shell
  import Glob

  datatype Decision = Allow | Deny | NeedConfirm

  /** The kinds of policy an asset or a group carries. */
  datatype Kind = Command | Query | Redis | K8s

  /** Command, Redis and Kubernetes policies list rules; SQL policies list statement types, and flags besides. */
  datatype Lists = Lists(allow: seq<string>, deny: seq<string>, flags: seq<string>) {
    function Plus(other: Lists): Lists {
      Lists(allow + other.allow, deny + other.deny, flags + other.flags)
    }
  }

  const NO_LISTS := Lists([], [], [])

  /** A stored policy with the ids of the permission groups it refers to. */
  datatype Policy = Policy(lists: Lists, groups: seq<string>)

  /** The policies of a holder; None where the stored text cannot be read. */
  datatype Policies = Policies(command: Option<Policy>, query: Option<Policy>, redis: Option<Policy>, k8s: Option<Policy>) {
    function Of(k: Kind): Option<Policy> {
      match k case Command => command case Query => query case Redis => redis case K8s => k8s
    }
  }

  datatype Asset = Asset(id: int, groupID: int, policies: Policies)

  datatype Group = Group(id: int, parentID: int, name: string, policies: Policies)

  datatype StatementInfo = StatementInfo(kind: string, raw: string, dangerous: bool, reason: string)

  /** What the policy engine reads: the stores, the permission groups and the two parsers. */
  datatype Env = Env(
    assets: map<int, Asset>,
    groups: map<int, Group>,
    resolve: (Kind, seq<string>) -> Lists,
    parseShell: string -> Option<seq<Shell.Node>>,
    parseSql: string -> Option<seq<StatementInfo>>)

  type MatchFunc = (string, string) -> bool

  // Holders and their policies

  const MAX_DEPTH: nat := 5

  /** The group, its parent and so on, at most five levels and only as far as groups are found. */
  function Chain(env: Env, id: int, depth: nat): seq<Group>
    decreases depth
  {
    if depth == 0 || id <= 0 || id !in env.groups then []
    else [env.groups[id]] + Chain(env, env.groups[id].parentID, depth - 1)
  }

  function Lookup(env: Env, assetID: int): Option<Asset> {
    if assetID in env.assets then Some(env.assets[assetID]) else None
  }

  function GroupsOf(env: Env, asset: Option<Asset>): seq<Group> {
    if asset.Some? then Chain(env, asset.value.groupID, MAX_DEPTH) else []
  }

  function ToList(p: Option<Policy>): seq<Policy> {
    if p.Some? then [p.value] else []
  }

  function GroupPolicies(groups: seq<Group>, k: Kind): seq<Policy> {
    if groups == [] then [] else ToList(groups[0].policies.Of(k)) + GroupPolicies(groups[1..], k)
  }

  /** Permission groups a policy refers to; Kubernetes policies refer to command groups. */
  function Referred(env: Env, k: Kind, p: Policy): Lists {
    if p.groups == [] then NO_LISTS else env.resolve(if k == K8s then Command else k, p.groups)
  }

  function Expanded(env: Env, k: Kind, p: Policy): Lists {
    p.lists.Plus(Referred(env, k, p))
  }

  function Default(k: Kind): Policy {
    match k
    case Command => Policy(NO_LISTS, ["builtin:linux-readonly", "builtin:dangerous-deny"])
    case Query => Policy(NO_LISTS, ["builtin:sql-readonly", "builtin:sql-dangerous-deny"])
    case Redis => Policy(NO_LISTS, ["builtin:redis-readonly", "builtin:redis-dangerous-deny"])
    case K8s => Policy(NO_LISTS, ["builtin:k8s-readonly", "builtin:k8s-dangerous-deny"])
  }

  // appendUnique

  function Unique(base: seq<string>, items: seq<string>): seq<string>
    decreases |items|
  {
    if items == [] then base
    else Unique(if items[0] in base then base else base + [items[0]], items[1..])
  }

  method AppendUnique(base: seq<string>, items: seq<string>) returns (out: seq<string>)
    ensures out == Unique(base, items)
  {
    out := base;
    var seen := set s | s in base;
    for i := 0 to |items|
      invariant Unique(out, items[i..]) == Unique(base, items)
      invariant forall s :: s in seen <==> s in out
    {
      assert items[i..][1..] == items[i + 1..];
      if items[i] !in seen {
        out := out + [items[i]];
        seen := seen + {items[i]};
      }
    }
  }

  /** Exactly the elements of both, the base first, and no new duplicates. */
  lemma {:induction false} UniqueIsUnion(base: seq<string>, items: seq<string>)
    ensures forall s :: s in Unique(base, items) <==> s in base || s in items
    ensures base <= Unique(base, items)
    ensures (forall i, j | 0 <= i < j < |base| :: base[i] != base[j])
        ==> forall i, j | 0 <= i < j < |Unique(base, items)| :: Unique(base, items)[i] != Unique(base, items)[j]
    decreases |items|
  {
    if items != [] {
      UniqueIsUnion(if items[0] in base then base else base + [items[0]], items[1..]);
      assert items == [items[0]] + items[1..];
    }
  }

  function Effective(env: Env, k: Kind, custom: Lists): Lists {
    var defaults := Expanded(env, k, Default(k));
    Lists(Unique([], if custom.allow != [] then custom.allow else defaults.allow),
          Unique(Unique([], custom.deny), defaults.deny),
          Unique(Unique([], custom.flags), defaults.flags))
  }

  // Verdicts

  predicate AnyMatch(rules: seq<string>, unit: string, m: MatchFunc) {
    exists r | r in rules :: m(r, unit)
  }

  predicate Denied(rules: seq<string>, units: seq<string>, m: MatchFunc) {
    exists u | u in units :: AnyMatch(rules, u, m)
  }

  predicate Covered(rules: seq<string>, units: seq<string>, m: MatchFunc) {
    forall u | u in units :: AnyMatch(rules, u, m)
  }

  /** The general policies of groups: any denied unit denies, allowing takes a rule for every unit. */
  function GenericVerdict(rules: Lists, units: seq<string>, m: MatchFunc): Decision {
    if Denied(rules.deny, units, m) then Deny
    else if units != [] && rules.allow != [] && Covered(rules.allow, units, m) then Allow
    else NeedConfirm
  }

  /** Redis and Kubernetes policies: without an allow list everything not denied is allowed. */
  function ListVerdict(p: Lists, units: seq<string>, m: MatchFunc): Decision {
    if Denied(p.deny, units, m) then Deny
    else if p.allow == [] || Covered(p.allow, units, m) then Allow
    else NeedConfirm
  }

  function ToUpper(s: string): string {
    seq(|s|, i requires 0 <= i < |s| => if 'a' <= s[i] <= 'z' then (s[i] as int - 32) as char else s[i])
  }

  predicate EqualFold(a: string, b: string) {
    ToUpper(a) == ToUpper(b)
  }

  predicate PolicyValueMatches(rule: string, value: string) {
    IsWildcardAll(rule) || EqualFold(TrimSpace(rule), TrimSpace(value))
  }

  predicate TypeListed(rules: seq<string>, s: StatementInfo) {
    exists r | r in rules :: PolicyValueMatches(r, s.kind)
  }

  predicate StatementDenied(p: Lists, s: StatementInfo) {
    TypeListed(p.deny, s) || (s.dangerous && s.reason in p.flags)
  }

  predicate StatementAllowed(p: Lists, s: StatementInfo) {
    p.allow == [] || TypeListed(p.allow, s)
  }

  /** Statements are judged in order; the first that is denied or not allowed decides. */
  function QueryVerdict(p: Lists, stmts: seq<StatementInfo>): Decision {
    if stmts == [] then Allow
    else if StatementDenied(p, stmts[0]) then Deny
    else if !StatementAllowed(p, stmts[0]) then NeedConfirm
    else QueryVerdict(p, stmts[1..])
  }

  predicate Clear(p: Lists, s: StatementInfo) {
    !StatementDenied(p, s) && StatementAllowed(p, s)
  }

  /** The exact result: a denied statement denies only when every earlier statement is clear. */
  lemma {:induction false} QueryVerdictExactly(p: Lists, stmts: seq<StatementInfo>)
    ensures QueryVerdict(p, stmts) == Allow <==> forall i | 0 <= i < |stmts| :: Clear(p, stmts[i])
    ensures QueryVerdict(p, stmts) == Deny
       <==> exists i | 0 <= i < |stmts| :: StatementDenied(p, stmts[i]) && forall j | 0 <= j < i :: Clear(p, stmts[j])
  {
    hide TypeListed;
    if stmts != [] {
      var rest := stmts[1..];
      QueryVerdictExactly(p, rest);
      assert forall i | 0 <= i < |rest| :: rest[i] == stmts[i + 1];
      if Clear(p, stmts[0]) {
        if QueryVerdict(p, rest) == Deny {
          var i :| 0 <= i < |rest| && StatementDenied(p, rest[i]) && forall j | 0 <= j < i :: Clear(p, rest[j]);
          assert StatementDenied(p, stmts[i + 1]);
          assert forall j | 0 <= j < i + 1 :: j == 0 || stmts[j] == rest[j - 1];
        }
        if i :| 0 <= i < |stmts| && StatementDenied(p, stmts[i]) && forall j | 0 <= j < i :: Clear(p, stmts[j]) {
          assert i > 0 && StatementDenied(p, rest[i - 1]);
          assert forall j | 0 <= j < i - 1 :: rest[j] == stmts[j + 1];
        }
      }
    }
  }

  /** A denied statement behind one that needs confirmation is not reported as denied. */
  lemma ConfirmationHidesLaterDenial()
    ensures var insert, drop := StatementInfo("INSERT", "", false, ""), StatementInfo("DROP TABLE", "", false, "");
            var p := Lists(["SELECT"], ["DROP TABLE"], []);
            StatementDenied(p, drop) && QueryVerdict(p, [insert, drop]) == NeedConfirm
  {
    var insert, drop := StatementInfo("INSERT", "", false, ""), StatementInfo("DROP TABLE", "", false, "");
    var p := Lists(["SELECT"], ["DROP TABLE"], []);
    assert PolicyValueMatches("DROP TABLE", drop.kind);
    assert TrimSpace("SELECT") == "SELECT" && TrimSpace("INSERT") == "INSERT" && TrimSpace("DROP TABLE") == "DROP TABLE";
    assert ToUpper("SELECT")[0] == 'S' && ToUpper("INSERT")[0] == 'I' && ToUpper("DROP TABLE")[0] == 'D';
    assert !StatementDenied(p, insert) && !StatementAllowed(p, insert);
  }

  /** The same character, or the same letter in the other case. */
  predicate IsSameLetter(a: char, b: char) {
    || a == b
    || ('a' <= a <= 'z' && b as int == a as int - 'a' as int + 'A' as int)
    || ('a' <= b <= 'z' && a as int == b as int - 'a' as int + 'A' as int)
  }

  /** A listed type is the lone star, or it names the type: blanks around it and case do not matter. */
  lemma PolicyValueExactly(rule: string, value: string)
    ensures PolicyValueMatches(rule, value)
       <==> || Fields(rule) == ["*"]
            || (&& |TrimSpace(rule)| == |TrimSpace(value)|
                && forall i | 0 <= i < |TrimSpace(rule)| :: IsSameLetter(TrimSpace(rule)[i], TrimSpace(value)[i]))
  {
    LoneStarExactly(rule);
    SameLetters(TrimSpace(rule), TrimSpace(value));
  }

  lemma SameLetters(a: string, b: string)
    ensures EqualFold(a, b) <==> |a| == |b| && forall i | 0 <= i < |a| :: IsSameLetter(a[i], b[i])
  {
    if EqualFold(a, b) {
      assert |ToUpper(a)| == |ToUpper(b)|;
      forall i | 0 <= i < |a| ensures IsSameLetter(a[i], b[i]) { assert ToUpper(a)[i] == ToUpper(b)[i]; }
    }
  }

  // Redis commands

  const REDIS_MULTI_WORD_CMDS: set<string> := {
    "CONFIG", "ACL", "CLUSTER", "CLIENT", "DEBUG", "MEMORY", "MODULE", "SCRIPT", "SLOWLOG", "OBJECT", "XGROUP", "XINFO" }

  /** ExtractRedisCommand: the command with its sub-command, and the words that follow. */
  function RedisCommand(cmd: string): (string, seq<string>) {
    var parts := Fields(TrimSpace(cmd));
    if parts == [] then ("", [])
    else
      var name := ToUpper(parts[0]);
      if |parts| > 1 && name in REDIS_MULTI_WORD_CMDS then (name + " " + ToUpper(parts[1]), parts[2..])
      else (name, parts[1..])
  }

  predicate MatchRedisRule(rule: string, cmd: string) {
    var (cmdName, cmdArgs) := RedisCommand(cmd);
    if IsWildcardAll(rule) then cmdName != ""
    else
      var ruleParts, cmdParts := Fields(TrimSpace(rule)), Fields(TrimSpace(cmd));
      if ruleParts == [] || cmdParts == [] then false
      else if && ToUpper(ruleParts[0]) in REDIS_MULTI_WORD_CMDS && |ruleParts| == 2 && IsWildcardAll(ruleParts[1])
              && |cmdParts| >= 2 && EqualFold(ruleParts[0], cmdParts[0]) then true
      else
        var (ruleName, ruleArgs) := RedisCommand(rule);
        && ruleName == cmdName
        && (ruleArgs == [] || ruleArgs == ["*"] || (cmdArgs != [] && GlobOrError(ruleArgs[0], cmdArgs[0])))
  }

  /** path.Match where a malformed pattern matches nothing. */
  predicate GlobOrError(pattern: string, value: string) {
    match Glob.Parse(pattern) case None => false case Some(ts) => Glob.MatchTerms(ts, value)
  }

  /** How many words name the command. */
  function HeadLength(words: seq<string>): nat {
    if |words| > 1 && ToUpper(words[0]) in REDIS_MULTI_WORD_CMDS then 2 else 1
  }

  /** The words of a rule against those of a command: the same name, whatever the case, then nothing, a lone star, or a
      pattern for the first argument; `CONFIG *` stands for every sub-command. */
  predicate RedisWordsMatch(r: seq<string>, c: seq<string>) {
    var n := HeadLength(r);
    && r != [] && c != []
    && (|| r == ["*"]
       || (|r| == 2 && n == 2 && r[1] == "*" && |c| >= 2 && EqualFold(r[0], c[0]))
       || (&& n == HeadLength(c) && (forall i | 0 <= i < n :: EqualFold(r[i], c[i]))
           && (|r| == n || r[n..] == ["*"]
               || (|c| > n && Glob.Parse(r[n]).Some? && Glob.MatchTerms(Glob.Parse(r[n]).value, c[n])))))
  }

  predicate IsWord(w: string) {
    w != "" && !HasSpace(w)
  }

  lemma WordsOf(s: string)
    ensures forall w | w in Fields(s) :: IsWord(w)
  {
    FieldsAreWords("", s);
  }

  lemma UpperKeepsSpaces(w: string)
    requires !HasSpace(w)
    ensures ' ' !in ToUpper(w)
  {
  }

  lemma {:induction false} OneSpaceSplits(a: string, b: string, c: string, d: string)
    requires ' ' !in a && ' ' !in c && a + " " + b == c + " " + d
    ensures a == c && b == d
  {
    var s, t := a + " " + b, c + " " + d;
    assert s[|a|] == ' ' && t[|c|] == ' ';
    assert forall i | 0 <= i < |a| :: s[i] == a[i];
    assert forall i | 0 <= i < |c| :: t[i] == c[i];
    assert |a| == |c|;
    assert a == s[..|a|] && c == t[..|c|] && b == s[|a| + 1..] && d == t[|c| + 1..];
  }

  /** A rule is the lone star exactly if that is its only word. */
  lemma LoneStarExactly(rule: string)
    ensures IsWildcardAll(rule) <==> Fields(rule) == ["*"]
  {
    FieldsTrim(rule);
    var t := TrimSpace(rule);
    if t == "*" {
      FieldsOfWord("*");
    }
    if Fields(rule) == ["*"] {
      BlankHasNoFields(rule);
      TrimLeftEdge(rule);
      TrimRightEdge(TrimLeft(rule));
      if i :| 0 <= i < |t| && IsSpace(t[i]) {
        assert 0 < i < |t| - 1;
        var front, back := t[..i], t[i + 1..];
        assert t == front + [t[i]] + back;
        FieldsSplit(front, t[i], back);
        StartsWithField(front);
        EndsWithField(back);
        assert false;
      } else {
        FieldsOfWord(t);
      }
    }
  }

  lemma StartsWithField(s: string)
    requires s != "" && !IsSpace(s[0])
    ensures Fields(s) != []
  {
    assert "" + [s[0]] == [s[0]];
    StartedFieldStays([s[0]], s[1..]);
  }

  lemma EndsWithField(s: string)
    requires s != "" && !IsSpace(s[|s| - 1])
    ensures Fields(s) != []
  {
    BlankHasNoFields(s);
    HasNoBlankEnd(s);
  }

  lemma {:induction false} HasNoBlankEnd(s: string)
    requires s != "" && !IsSpace(s[|s| - 1])
    ensures TrimLeft(s) != "" && TrimSpace(s) != ""
  {
    if IsSpace(s[0]) {
      HasNoBlankEnd(s[1..]);
    }
  }

  /** A rule matches a command exactly if its words match: case, white space and the way the name is put together do not
      matter. */
  lemma RedisRuleExactly(rule: string, cmd: string)
    ensures MatchRedisRule(rule, cmd) <==> RedisWordsMatch(Fields(rule), Fields(cmd))
  {
    hide TrimSpace, Fields, REDIS_MULTI_WORD_CMDS;
    FieldsTrim(rule);
    FieldsTrim(cmd);
    LoneStarExactly(rule);
    var r, c := Fields(rule), Fields(cmd);
    WordsOf(rule);
    WordsOf(cmd);
    if r != [] && c != [] {
      RedisNamesMatch(r, c);
      if |r| == 2 {
        LoneStarExactly(r[1]);
        assert r[1] in r && IsWord(r[1]);
        FieldsOfWord(r[1]);
      }
    }
  }

  function RedisName(words: seq<string>): string
    requires words != []
  {
    if HeadLength(words) == 2 then ToUpper(words[0]) + " " + ToUpper(words[1]) else ToUpper(words[0])
  }

  lemma RedisNamesMatch(r: seq<string>, c: seq<string>)
    requires r != [] && c != [] && forall w | w in r || w in c :: IsWord(w)
    ensures RedisName(r) == RedisName(c)
       <==> HeadLength(r) == HeadLength(c) && forall i | 0 <= i < HeadLength(r) :: EqualFold(r[i], c[i])
    ensures RedisName(c) != ""
  {
    assert r[0] in r && c[0] in c;
    UpperKeepsSpaces(r[0]);
    UpperKeepsSpaces(c[0]);
    if HeadLength(r) == 2 && HeadLength(c) == 2 && RedisName(r) == RedisName(c) {
      OneSpaceSplits(ToUpper(r[0]), ToUpper(r[1]), ToUpper(c[0]), ToUpper(c[1]));
    }
    if HeadLength(r) == 2 {
      assert RedisName(r)[|r[0]|] == ' ';
    }
    if HeadLength(c) == 2 {
      assert RedisName(c)[|c[0]|] == ' ';
    }
  }

  // What a command asks for

  /** The units to be judged, or the decision when there are none. */
  datatype Work = Refused(decision: Decision) | Work(units: seq<string>, stmts: seq<StatementInfo>)

  function RawTexts(stmts: seq<StatementInfo>): seq<string> {
    if stmts == [] then []
    else
      var t := TrimSpace(stmts[0].raw);
      (if t == "" then [] else [t]) + RawTexts(stmts[1..])
  }

  function ShellUnits(env: Env, command: string): seq<string> {
    match env.parseShell(command) case None => [] case Some(stmts) => Shell.UnitsOf(stmts)
  }

  function WorkOf(env: Env, k: Kind, command: string): Work {
    match k
    case Query => (
      match env.parseSql(command)
      case None => Refused(Deny)
      case Some(stmts) =>
        var texts := RawTexts(stmts);
        if stmts == [] then Refused(Deny) else Work(if texts == [] then [command] else texts, stmts))
    case Redis => Work([command], [])
    case _ =>
      var units := ShellUnits(env, command);
      if units == [] then Refused(NeedConfirm) else Work(units, [])
  }

  lemma WorkHasUnits(env: Env, k: Kind, command: string)
    ensures WorkOf(env, k, command).Work? ==> WorkOf(env, k, command).units != []
  {
  }

  function MatcherOf(k: Kind): MatchFunc {
    if k == Redis then (r, c) => MatchRedisRule(r, c) else (r, c) => MatchCommandRule(r, c)
  }

  function TypeVerdict(k: Kind, p: Lists, w: Work): Decision
    requires w.Work?
  {
    if k == Query then QueryVerdict(p, w.stmts) else ListVerdict(p, w.units, MatcherOf(k))
  }

  // Only which rules there are matters

  ghost predicate SameRules(a: Lists, b: Lists) {
    && (forall r :: r in a.allow <==> r in b.allow)
    && (forall r :: r in a.deny <==> r in b.deny)
    && (forall r :: r in a.flags <==> r in b.flags)
  }

  lemma SameEmptiness(a: seq<string>, b: seq<string>)
    requires forall r :: r in a <==> r in b
    ensures a == [] <==> b == []
  {
    if a != [] { assert a[0] in b; }
    if b != [] { assert b[0] in a; }
  }

  lemma SameGenericVerdict(a: Lists, b: Lists, units: seq<string>, m: MatchFunc)
    requires SameRules(a, b)
    ensures GenericVerdict(a, units, m) == GenericVerdict(b, units, m)
  {
    SameEmptiness(a.allow, b.allow);
    assert forall u :: AnyMatch(a.deny, u, m) == AnyMatch(b.deny, u, m);
    assert forall u :: AnyMatch(a.allow, u, m) == AnyMatch(b.allow, u, m);
  }

  lemma {:induction false} SameQueryVerdict(a: Lists, b: Lists, stmts: seq<StatementInfo>)
    requires SameRules(a, b)
    ensures QueryVerdict(a, stmts) == QueryVerdict(b, stmts)
  {
    if stmts != [] {
      SameEmptiness(a.allow, b.allow);
      assert TypeListed(a.deny, stmts[0]) == TypeListed(b.deny, stmts[0]);
      assert TypeListed(a.allow, stmts[0]) == TypeListed(b.allow, stmts[0]);
      SameQueryVerdict(a, b, stmts[1..]);
    }
  }

  lemma SameTypeVerdict(k: Kind, a: Lists, b: Lists, w: Work)
    requires SameRules(a, b) && w.Work?
    ensures TypeVerdict(k, a, w) == TypeVerdict(k, b, w)
  {
    SameEmptiness(a.allow, b.allow);
    SameQueryVerdict(a, b, w.stmts);
    var m := MatcherOf(k);
    assert forall u :: AnyMatch(a.deny, u, m) == AnyMatch(b.deny, u, m);
    assert forall u :: AnyMatch(a.allow, u, m) == AnyMatch(b.allow, u, m);
  }

  lemma SameEffective(env: Env, k: Kind, a: Lists, b: Lists)
    requires SameRules(a, b)
    ensures SameRules(Effective(env, k, a), Effective(env, k, b))
  {
    SameEmptiness(a.allow, b.allow);
    var d := Expanded(env, k, Default(k));
    UniqueIsUnion([], a.allow);
    UniqueIsUnion([], b.allow);
    UniqueIsUnion([], a.deny);
    UniqueIsUnion([], b.deny);
    UniqueIsUnion(Unique([], a.deny), d.deny);
    UniqueIsUnion(Unique([], b.deny), d.deny);
    UniqueIsUnion([], a.flags);
    UniqueIsUnion([], b.flags);
    UniqueIsUnion(Unique([], a.flags), d.flags);
    UniqueIsUnion(Unique([], b.flags), d.flags);
  }
}
