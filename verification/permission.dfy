/** The runtime path: CheckPermission with the policies of the stored asset and its groups, and the session's grants. */
module Permission {
  import opened Text
  import opened CommandRule
  import opened PolicyModel
  import Shell

  datatype GrantItem = GrantItem(assetID: int, groupID: int, command: string)

  datatype CheckSource = NoSource | PolicyAllow | PolicyDeny | GrantAllow

  // Grants

  predicate GrantItemMatchesTarget(item: GrantItem, assetID: int, groupIDs: set<int>) {
    if item.assetID != 0 then item.assetID == assetID
    else item.groupID == 0 || item.groupID in groupIDs
  }

  function GroupIDs(groups: seq<Group>): set<int> {
    set g | g in groups :: g.id
  }

  /** The commands of the grants that apply to the asset. */
  function Granted(items: seq<GrantItem>, assetID: int, groups: seq<Group>): seq<string> {
    if items == [] then []
    else (if GrantItemMatchesTarget(items[0], assetID, GroupIDs(groups)) then [items[0].command] else [])
         + Granted(items[1..], assetID, groups)
  }

  predicate GrantsCover(items: seq<GrantItem>, assetID: int, groups: seq<Group>, units: seq<string>) {
    units != [] && Covered(Granted(items, assetID, groups), units, MatchCommandRule)
  }

  lemma {:induction false} GrantedMember(items: seq<GrantItem>, assetID: int, groups: seq<Group>, c: string)
    ensures c in Granted(items, assetID, groups)
       <==> exists it | it in items :: GrantItemMatchesTarget(it, assetID, GroupIDs(groups)) && it.command == c
  {
    if items != [] {
      GrantedMember(items[1..], assetID, groups, c);
      assert items == [items[0]] + items[1..];
    }
  }

  lemma EmptyRuleMatchesNothing(command: string)
    ensures !MatchCommandRule("", command)
  {
  }

  /** Returns the first pattern that matched when every unit is matched by an applicable item, otherwise nothing. */
  method MatchGrantPatterns(items: seq<GrantItem>, assetID: int, groups: seq<Group>, units: seq<string>)
      returns (firstPattern: string)
    ensures firstPattern != "" <==> GrantsCover(items, assetID, groups, units)
    ensures firstPattern != ""
          ==> firstPattern in Granted(items, assetID, groups) && MatchCommandRule(firstPattern, units[0])
  {
    hide MatchCommandRule;
    if |items| == 0 {
      assert units != [] ==> units[0] in units;
      return "";
    }
    var groupIDs := set g | g in groups :: g.id;
    firstPattern := "";
    for i := 0 to |units|
      invariant Covered(Granted(items, assetID, groups), units[..i], MatchCommandRule)
      invariant firstPattern == "" <==> i == 0
      invariant i > 0 ==> firstPattern in Granted(items, assetID, groups) && MatchCommandRule(firstPattern, units[0])
    {
      var cmd := units[i];
      EmptyRuleMatchesNothing(cmd);
      var matched := false;
      for j := 0 to |items|
        invariant !matched
        invariant forall k | 0 <= k < j ::
                    !(GrantItemMatchesTarget(items[k], assetID, groupIDs) && MatchCommandRule(items[k].command, cmd))
        invariant firstPattern == "" <==> i == 0
        invariant i > 0 ==> firstPattern in Granted(items, assetID, groups) && MatchCommandRule(firstPattern, units[0])
      {
        var item := items[j];
        if !GrantItemMatchesTarget(item, assetID, groupIDs) {
          continue;
        }
        if MatchCommandRule(item.command, cmd) {
          GrantedMember(items, assetID, groups, item.command);
          matched := true;
          if firstPattern == "" {
            firstPattern := item.command;
          }
          break;
        }
      }
      if !matched {
        assert !AnyMatch(Granted(items, assetID, groups), cmd, MatchCommandRule) by {
          forall c | c in Granted(items, assetID, groups) ensures !MatchCommandRule(c, cmd) {
            GrantedMember(items, assetID, groups, c);
          }
        }
        assert cmd in units;
        return "";
      }
      assert units[..i + 1] == units[..i] + [cmd];
    }
    assert units[..|units|] == units;
  }

  // Rules of the general command policies

  /** collectPolicies, collectDenyRules and collectAllowRules: each policy's own rules, then those it refers to. */
  function CommandRules(env: Env, policies: seq<Policy>): Lists {
    if policies == [] then NO_LISTS else Expanded(env, Command, policies[0]).Plus(CommandRules(env, policies[1..]))
  }

  function CommandPoliciesOf(asset: Option<Asset>, groups: seq<Group>): seq<Policy> {
    (if asset.Some? then ToList(asset.value.policies.command) else []) + GroupPolicies(groups, Command)
  }

  /** The rules of a chain of groups: for each group what it refers to, then its own. */
  function GroupRules(env: Env, groups: seq<Group>): Lists {
    if groups == [] then NO_LISTS
    else
      var p := groups[0].policies.command;
      (if p.None? then NO_LISTS else Referred(env, Command, p.value).Plus(p.value.lists)).Plus(GroupRules(env, groups[1..]))
  }

  method ResolveGroupChain(env: Env, groupID: int) returns (chain: seq<Group>)
    ensures chain == Chain(env, groupID, MAX_DEPTH)
  {
    chain := [];
    var currentID, i := groupID, 0;
    while i < 5 && currentID > 0
      invariant i <= 5 && chain + Chain(env, currentID, 5 - i) == Chain(env, groupID, MAX_DEPTH)
    {
      if currentID !in env.groups {
        break;
      }
      var g := env.groups[currentID];
      chain := chain + [g];
      currentID := g.parentID;
      i := i + 1;
    }
  }

  lemma PlusAssociates(a: Lists, b: Lists, c: Lists)
    ensures a.Plus(b).Plus(c) == a.Plus(b.Plus(c))
  {
    assert a.allow + b.allow + c.allow == a.allow + (b.allow + c.allow);
    assert a.deny + b.deny + c.deny == a.deny + (b.deny + c.deny);
    assert a.flags + b.flags + c.flags == a.flags + (b.flags + c.flags);
  }

  lemma PlusNothing(a: Lists)
    ensures a.Plus(NO_LISTS) == a && NO_LISTS.Plus(a) == a
  {
  }

  lemma CollectStep(env: Env, acc: Lists, policies: seq<Policy>)
    requires policies != []
    ensures acc.Plus(CommandRules(env, policies))
         == acc.Plus(policies[0].lists).Plus(Referred(env, Command, policies[0])).Plus(CommandRules(env, policies[1..]))
    ensures policies[0].groups == []
          ==> acc.Plus(policies[0].lists).Plus(Referred(env, Command, policies[0])) == acc.Plus(policies[0].lists)
  {
    hide Lists.Plus;
    var own, referred := policies[0].lists, Referred(env, Command, policies[0]);
    PlusAssociates(acc, own.Plus(referred), CommandRules(env, policies[1..]));
    PlusAssociates(acc, own, referred);
    PlusNothing(acc.Plus(own));
  }

  method CollectRules(env: Env, asset: Option<Asset>, groups: seq<Group>) returns (rules: Lists)
    ensures rules == CommandRules(env, CommandPoliciesOf(asset, groups))
  {
    hide Lists.Plus, CommandPoliciesOf;
    var policies := CommandPoliciesOf(asset, groups);
    rules := NO_LISTS;
    PlusNothing(CommandRules(env, policies));
    for i := 0 to |policies|
      invariant rules.Plus(CommandRules(env, policies[i..])) == CommandRules(env, policies)
    {
      var p := policies[i];
      CollectStep(env, rules, policies[i..]);
      assert policies[i..][1..] == policies[i + 1..];
      rules := rules.Plus(p.lists);
      if |p.groups| > 0 {
        rules := rules.Plus(env.resolve(Command, p.groups));
      }
    }
    PlusNothing(rules);
  }

  method AllSubCommandsAllowed(units: seq<string>, rules: seq<string>) returns (ok: bool, matchedRules: set<string>)
    ensures ok == (rules != [] && Covered(rules, units, MatchCommandRule))
    ensures ok ==> forall r | r in matchedRules :: r in rules && exists u | u in units :: MatchCommandRule(r, u)
    ensures ok ==> forall u | u in units :: exists r | r in matchedRules :: MatchCommandRule(r, u)
  {
    hide MatchCommandRule;
    matchedRules := {};
    if |rules| == 0 {
      return false, {};
    }
    for i := 0 to |units|
      invariant forall u | u in units[..i] :: exists r | r in matchedRules :: MatchCommandRule(r, u)
      invariant forall r | r in matchedRules :: r in rules && exists u | u in units :: MatchCommandRule(r, u)
    {
      var j := 0;
      while j < |rules| && !MatchCommandRule(rules[j], units[i])
        invariant 0 <= j <= |rules| && forall k | 0 <= k < j :: !MatchCommandRule(rules[k], units[i])
      {
        j := j + 1;
      }
      if j == |rules| {
        assert units[i] in units && !AnyMatch(rules, units[i], MatchCommandRule);
        return false, {};
      }
      matchedRules := matchedRules + {rules[j]};
      assert units[..i + 1] == units[..i] + [units[i]];
    }
    assert units[..|units|] == units;
    forall u | u in units ensures AnyMatch(rules, u, MatchCommandRule) {
      var r :| r in matchedRules && MatchCommandRule(r, u);
    }
    ok := true;
  }

  /** Whether any rule matches any unit. */
  method AnyDenied(rules: seq<string>, units: seq<string>, m: MatchFunc) returns (found: bool)
    ensures found == Denied(rules, units, m)
  {
    for i := 0 to |units|
      invariant !Denied(rules, units[..i], m)
    {
      for j := 0 to |rules|
        invariant forall k | 0 <= k < j :: !m(rules[k], units[i])
      {
        if m(rules[j], units[i]) {
          assert units[i] in units && AnyMatch(rules, units[i], m);
          return true;
        }
      }
      assert units[..i + 1] == units[..i] + [units[i]];
    }
    assert units[..|units|] == units;
    found := false;
  }

  // SSH and serial assets

  /** What the rules and grants decide about the units of a command. */
  function CommandVerdict(rules: Lists, units: seq<string>, granted: bool): (Decision, CheckSource) {
    if Denied(rules.deny, units, MatchCommandRule) then (Deny, PolicyDeny)
    else if rules.allow != [] && Covered(rules.allow, units, MatchCommandRule) then (Allow, PolicyAllow)
    else if granted then (Allow, GrantAllow)
    else (NeedConfirm, NoSource)
  }

  function CommandDecision(env: Env, assetID: int, items: seq<GrantItem>, command: string): (Decision, CheckSource) {
    var asset := Lookup(env, assetID);
    var groups := GroupsOf(env, asset);
    var units := ShellUnits(env, command);
    if units == [] then (NeedConfirm, NoSource)
    else CommandVerdict(CommandRules(env, CommandPoliciesOf(asset, groups)), units, GrantsCover(items, assetID,
          groups, units))
  }

  method CheckCommandPolicyPermission(env: Env, assetID: int, items: seq<GrantItem>, command: string)
      returns (decision: Decision, source: CheckSource)
    ensures (decision, source) == CommandDecision(env, assetID, items, command)
  {
    hide MatchCommandRule;
    var parsed := env.parseShell(command);
    if parsed == None {
      return NeedConfirm, NoSource;
    }
    var units := Shell.ExtractSubCommands(parsed.value);
    if |units| == 0 {
      return NeedConfirm, NoSource;
    }
    var asset := if assetID in env.assets then Some(env.assets[assetID]) else None;
    var groups: seq<Group> := [];
    if asset.Some? && asset.value.groupID > 0 {
      groups := ResolveGroupChain(env, asset.value.groupID);
    }
    var rules := CollectRules(env, asset, groups);
    var denied := AnyDenied(rules.deny, units, MatchCommandRule);
    if denied {
      return Deny, PolicyDeny;
    }
    if |rules.allow| > 0 {
      var ok, _ := AllSubCommandsAllowed(units, rules.allow);
      if ok {
        return Allow, PolicyAllow;
      }
    }
    var grantPattern := MatchGrantPatterns(items, assetID, groups, units);
    if grantPattern != "" {
      return Allow, GrantAllow;
    }
    return NeedConfirm, NoSource;
  }

  /** The decision on a command with units, case by case. */
  lemma CommandDecisionExactly(env: Env, assetID: int, items: seq<GrantItem>, command: string)
    requires ShellUnits(env, command) != []
    ensures var asset := Lookup(env, assetID);
            var groups := GroupsOf(env, asset);
            var units, d := ShellUnits(env, command), CommandDecision(env, assetID, items, command).0;
            var policies := CommandPoliciesOf(asset, groups);
            var denied := exists p, r, u | p in policies && r in Expanded(env, Command, p).deny
                  && u in units :: MatchCommandRule(r, u);
            var covered := forall u | u in units :: exists p, r | p in policies
                  && r in Expanded(env, Command, p).allow :: MatchCommandRule(r, u);
            && (d == Deny <==> denied)
            && (d == Allow <==> !denied && (covered || GrantsCover(items, assetID, groups, units)))
  {
    hide MatchCommandRule;
    var policies := CommandPoliciesOf(Lookup(env, assetID), GroupsOf(env, Lookup(env, assetID)));
    var rules := CommandRules(env, policies);
    forall r ensures r in rules.deny
          <==> exists p | p in policies :: r in Expanded(env, Command, p).deny { RuleOrigin(env, policies, r); }
    forall r ensures r in rules.allow
          <==> exists p | p in policies :: r in Expanded(env, Command, p).allow { RuleOrigin(env, policies, r); }
    var units := ShellUnits(env, command);
    assert units[0] in units;
  }

  lemma {:induction false} RuleOrigin(env: Env, policies: seq<Policy>, r: string)
    ensures r in CommandRules(env, policies).deny <==> exists p | p in policies :: r in Expanded(env, Command, p).deny
    ensures r in CommandRules(env, policies).allow <==> exists p | p in policies :: r in Expanded(env, Command, p).allow
  {
    if policies != [] {
      RuleOrigin(env, policies[1..], r);
      assert policies == [policies[0]] + policies[1..];
    }
  }

  /** More deny rules can only turn a result into Deny; more allow rules or grants never lose an Allow. */
  lemma CommandVerdictMonotone(a: Lists, b: Lists, units: seq<string>, granted: bool, moreGranted: bool)
    requires forall r | r in a.deny :: r in b.deny
    requires forall r | r in a.allow :: r in b.allow
    requires granted ==> moreGranted
    ensures CommandVerdict(a, units, granted).0 == Deny ==> CommandVerdict(b, units, moreGranted).0 == Deny
    ensures CommandVerdict(a, units, granted).0 == Allow ==> CommandVerdict(b, units, moreGranted).0 in {Allow, Deny}
    ensures CommandVerdict(a, units, granted).0 == Allow && (forall r | r in b.deny :: r in a.deny)
        ==> CommandVerdict(b, units, moreGranted).0 == Allow
    ensures CommandVerdict(Lists(a.allow, b.deny, []), units, granted).0 in {CommandVerdict(a, units, granted).0, Deny}
  {
    hide MatchCommandRule;
    forall u | AnyMatch(a.allow, u, MatchCommandRule) ensures AnyMatch(b.allow, u, MatchCommandRule) {}
    forall u | AnyMatch(a.deny, u, MatchCommandRule) ensures AnyMatch(b.deny, u, MatchCommandRule) {}
    forall u | (forall r | r in b.deny :: r in a.deny)
          && AnyMatch(b.deny, u, MatchCommandRule) ensures AnyMatch(a.deny, u, MatchCommandRule) {}
    if a.allow != [] { assert a.allow[0] in b.allow; }
  }

  /** Adding grants, or reaching more of them, never takes coverage away. */
  lemma MoreGrantsCoverMore(items: seq<GrantItem>, more: seq<GrantItem>, assetID: int, groups: seq<Group>,
        units: seq<string>)
    requires forall it | it in items :: it in more
    requires GrantsCover(items, assetID, groups, units)
    ensures GrantsCover(more, assetID, groups, units)
  {
    hide MatchCommandRule;
    forall u | u in units ensures AnyMatch(Granted(more, assetID, groups), u, MatchCommandRule) {
      var c :| c in Granted(items, assetID, groups) && MatchCommandRule(c, u);
      GrantedMember(items, assetID, groups, c);
      GrantedMember(more, assetID, groups, c);
    }
  }

  // Database, Redis and Kubernetes assets

  function TypedPolicies(k: Kind, asset: Option<Asset>, groups: seq<Group>): seq<Policy> {
    (if asset.Some? then ToList(asset.value.policies.Of(k)) else []) + GroupPolicies(groups, k)
  }

  /** collectQueryPolicies and its siblings: the first allow list that is not empty, every deny rule. */
  function Merged(env: Env, k: Kind, policies: seq<Policy>, acc: Lists): Lists
    decreases |policies|
  {
    if policies == [] then acc
    else
      var e := Expanded(env, k, policies[0]);
      Merged(env, k, policies[1..],
             Lists(if acc.allow == [] then e.allow else acc.allow, Unique(acc.deny, e.deny), Unique(acc.flags, e.flags)))
  }

  function TypedDecision(env: Env, k: Kind, assetID: int, items: seq<GrantItem>, command: string): Decision
    requires k != Command
  {
    match WorkOf(env, k, command)
    case Refused(d) => d
    case Work(units, stmts) =>
      var asset := Lookup(env, assetID);
      var groups := GroupsOf(env, asset);
      var general := GenericVerdict(GroupRules(env, groups), units, MatcherOf(k));
      var typed := TypeVerdict(k, Effective(env, k, Merged(env, k, TypedPolicies(k, asset, groups), NO_LISTS)),
            Work(units, stmts));
      if general == Deny then Deny
      else if typed == NeedConfirm && general == Allow then Allow
      else if typed != NeedConfirm then typed
      else if asset.Some? && GrantsCover(items, assetID, groups, units) then Allow
      else NeedConfirm
  }

  function RuntimeDecision(env: Env, k: Kind, assetID: int, items: seq<GrantItem>, command: string): Decision {
    if k == Command then CommandDecision(env, assetID, items, command).0
    else TypedDecision(env, k, assetID, items, command)
  }

  method CollectTypedPolicies(env: Env, k: Kind, asset: Option<Asset>, groups: seq<Group>) returns (merged: Lists)
    ensures merged == Merged(env, k, TypedPolicies(k, asset, groups), NO_LISTS)
  {
    hide Unique, TypedPolicies;
    var policies := TypedPolicies(k, asset, groups);
    merged := NO_LISTS;
    for i := 0 to |policies|
      invariant Merged(env, k, policies[i..], merged) == Merged(env, k, policies, NO_LISTS)
    {
      assert policies[i..][1..] == policies[i + 1..];
      var p := policies[i];
      var lists := p.lists;
      if |p.groups| > 0 {
        lists := lists.Plus(env.resolve(if k == K8s then Command else k, p.groups));
      } else {
        PlusNothing(lists);
      }
      var deny := AppendUnique(merged.deny, lists.deny);
      var flags := AppendUnique(merged.flags, lists.flags);
      merged := Lists(if |merged.allow| == 0 && |lists.allow| > 0 then lists.allow else merged.allow, deny, flags);
    }
  }

  method EffectivePolicy(env: Env, k: Kind, custom: Lists) returns (out: Lists)
    ensures out == Effective(env, k, custom)
  {
    var defaults := Expanded(env, k, Default(k));
    var allow := AppendUnique([], if |custom.allow| > 0 then custom.allow else defaults.allow);
    var deny := AppendUnique([], custom.deny);
    deny := AppendUnique(deny, defaults.deny);
    var flags := AppendUnique([], custom.flags);
    flags := AppendUnique(flags, defaults.flags);
    out := Lists(allow, deny, flags);
  }

  /** Whether every unit is matched by some rule. */
  method AllCovered(rules: seq<string>, units: seq<string>, m: MatchFunc) returns (ok: bool)
    ensures ok == Covered(rules, units, m)
  {
    for i := 0 to |units|
      invariant Covered(rules, units[..i], m)
    {
      var j := 0;
      while j < |rules| && !m(rules[j], units[i])
        invariant 0 <= j <= |rules| && forall k | 0 <= k < j :: !m(rules[k], units[i])
      {
        j := j + 1;
      }
      if j == |rules| {
        assert units[i] in units && !AnyMatch(rules, units[i], m);
        return false;
      }
      assert AnyMatch(rules, units[i], m);
      assert units[..i + 1] == units[..i] + [units[i]];
    }
    assert units[..|units|] == units;
    ok := true;
  }

  lemma {:induction false} GroupRulesSplit(env: Env, a: seq<Group>, b: seq<Group>)
    ensures GroupRules(env, a + b) == GroupRules(env, a).Plus(GroupRules(env, b))
  {
    hide Lists.Plus;
    if a == [] {
      assert a + b == b;
      PlusNothing(GroupRules(env, b));
    } else {
      assert (a + b)[1..] == a[1..] + b;
      GroupRulesSplit(env, a[1..], b);
      var p := a[0].policies.command;
      var first := if p.None? then NO_LISTS else Referred(env, Command, p.value).Plus(p.value.lists);
      PlusAssociates(first, GroupRules(env, a[1..]), GroupRules(env, b));
    }
  }

  /** One round of the loops that gather the general rules of a chain. */
  lemma GroupRulesStep(env: Env, groups: seq<Group>, i: nat)
    requires i < |groups|
    ensures var p := groups[i].policies.command;
            GroupRules(env, groups[..i + 1])
            == if p.None? then GroupRules(env, groups[..i])
               else GroupRules(env, groups[..i]).Plus(Referred(env, Command, p.value)).Plus(p.value.lists)
  {
    hide Lists.Plus;
    var p := groups[i].policies.command;
    assert groups[..i + 1] == groups[..i] + [groups[i]];
    GroupRulesSplit(env, groups[..i], [groups[i]]);
    assert [groups[i]][1..] == [];
    var before := GroupRules(env, groups[..i]);
    PlusNothing(before);
    PlusNothing(NO_LISTS);
    if p.Some? {
      PlusNothing(Referred(env, Command, p.value).Plus(p.value.lists));
      PlusAssociates(before, Referred(env, Command, p.value), p.value.lists);
    }
  }

  method CheckGroupGenericPolicy(env: Env, assetID: int, units: seq<string>, m: MatchFunc) returns (decision: Decision)
    ensures decision == GenericVerdict(GroupRules(env, GroupsOf(env, Lookup(env, assetID))), units, m)
  {
    hide Lists.Plus;
    if |units| == 0 || assetID !in env.assets || env.assets[assetID].groupID == 0 {
      return NeedConfirm;
    }
    var groups := ResolveGroupChain(env, env.assets[assetID].groupID);
    var rules := NO_LISTS;
    for i := 0 to |groups|
      invariant rules == GroupRules(env, groups[..i])
    {
      GroupRulesStep(env, groups, i);
      var p := groups[i].policies.command;
      if p.None? {
        continue;
      }
      PlusNothing(rules);
      if |p.value.groups| > 0 {
        rules := rules.Plus(env.resolve(Command, p.value.groups));
      }
      rules := rules.Plus(p.value.lists);
    }
    assert groups[..|groups|] == groups;
    var denied := AnyDenied(rules.deny, units, m);
    if denied {
      return Deny;
    }
    if |rules.allow| == 0 {
      return NeedConfirm;
    }
    var covered := AllCovered(rules.allow, units, m);
    decision := if covered then Allow else NeedConfirm;
  }

  method CheckQueryPolicyRules(p: Lists, stmts: seq<StatementInfo>) returns (decision: Decision)
    ensures decision == QueryVerdict(p, stmts)
  {
    hide PolicyValueMatches;
    for i := 0 to |stmts|
      invariant QueryVerdict(p, stmts) == QueryVerdict(p, stmts[i..])
    {
      assert stmts[i..][1..] == stmts[i + 1..];
      for j := 0 to |p.deny|
        invariant forall k | 0 <= k < j :: !PolicyValueMatches(p.deny[k], stmts[i].kind)
      {
        if PolicyValueMatches(p.deny[j], stmts[i].kind) {
          return Deny;
        }
      }
      if stmts[i].dangerous && stmts[i].reason in p.flags {
        return Deny;
      }
      if |p.allow| > 0 {
        var j := 0;
        while j < |p.allow| && !PolicyValueMatches(p.allow[j], stmts[i].kind)
          invariant 0 <= j <= |p.allow| && forall k | 0 <= k < j :: !PolicyValueMatches(p.allow[k], stmts[i].kind)
        {
          j := j + 1;
        }
        if j == |p.allow| {
          return NeedConfirm;
        }
      }
    }
    decision := Allow;
  }

  method CheckListRules(p: Lists, units: seq<string>, m: MatchFunc) returns (decision: Decision)
    ensures decision == ListVerdict(p, units, m)
  {
    var denied := AnyDenied(p.deny, units, m);
    if denied {
      return Deny;
    }
    if |p.allow| > 0 {
      var covered := AllCovered(p.allow, units, m);
      return if covered then Allow else NeedConfirm;
    }
    decision := Allow;
  }

  method RawStatementTexts(stmts: seq<StatementInfo>) returns (out: seq<string>)
    ensures out == RawTexts(stmts)
  {
    hide TrimSpace;
    out := [];
    for i := 0 to |stmts|
      invariant out + RawTexts(stmts[i..]) == RawTexts(stmts)
    {
      var rest := stmts[i..];
      assert rest[0] == stmts[i] && rest[1..] == stmts[i + 1..];
      var t := TrimSpace(stmts[i].raw);
      assert RawTexts(rest) == (if t == "" then [] else [t]) + RawTexts(stmts[i + 1..]);
      if t != "" {
        out := out + [t];
      }
    }
  }

  /** Parses the command into what is to be judged. */
  method Prepare(env: Env, k: Kind, command: string) returns (w: Work)
    ensures w == WorkOf(env, k, command)
  {
    match k
    case Query =>
      var stmts := env.parseSql(command);
      if stmts == None || stmts.value == [] {
        return Refused(Deny);
      }
      var texts := RawStatementTexts(stmts.value);
      if |texts| == 0 {
        texts := [command];
      }
      w := Work(texts, stmts.value);
    case Redis =>
      w := Work([command], []);
    case _ =>
      var parsed := env.parseShell(command);
      if parsed == None {
        return Refused(NeedConfirm);
      }
      var units := Shell.ExtractSubCommands(parsed.value);
      w := if |units| == 0 then Refused(NeedConfirm) else Work(units, []);
  }

  method CheckTypedPermission(env: Env, k: Kind, assetID: int, items: seq<GrantItem>, command: string)
      returns (decision: Decision)
    requires k != Command
    ensures decision == TypedDecision(env, k, assetID, items, command)
  {
    hide Effective, Merged, TypedPolicies, GenericVerdict, QueryVerdict, ListVerdict, GroupRules, WorkOf, GrantsCover;
    var w := Prepare(env, k, command);
    if w.Refused? {
      return w.decision;
    }
    var general := CheckGroupGenericPolicy(env, assetID, w.units, MatcherOf(k));
    if general == Deny {
      return Deny;
    }
    var asset := if assetID in env.assets then Some(env.assets[assetID]) else None;
    var groups: seq<Group> := [];
    if asset.Some? && asset.value.groupID > 0 {
      groups := ResolveGroupChain(env, asset.value.groupID);
    }
    var merged := CollectTypedPolicies(env, k, asset, groups);
    var effective := EffectivePolicy(env, k, merged);
    var typed: Decision;
    if k == Query {
      typed := CheckQueryPolicyRules(effective, w.stmts);
    } else {
      typed := CheckListRules(effective, w.units, MatcherOf(k));
    }
    if typed == NeedConfirm && general == Allow {
      return Allow;
    }
    if typed != NeedConfirm {
      return typed;
    }
    if asset.Some? {
      var pattern := MatchGrantPatterns(items, assetID, groups, w.units);
      if pattern != "" {
        return Allow;
      }
    }
    decision := NeedConfirm;
  }

  method CheckPermission(env: Env, k: Kind, assetID: int, items: seq<GrantItem>, command: string)
      returns (decision: Decision)
    ensures decision == RuntimeDecision(env, k, assetID, items, command)
  {
    if k == Command {
      var d, _ := CheckCommandPolicyPermission(env, assetID, items, command);
      return d;
    }
    decision := CheckTypedPermission(env, k, assetID, items, command);
  }
}
