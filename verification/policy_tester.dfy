/** The preview path: TestPolicy with the policy being edited and the groups above it. */
module PolicyTester {
  import opened Text
  import opened CommandRule
  import opened PolicyModel
  import Permission
  import Shell

  /** What is tested: the edited policy, and the asset or the group it belongs to. */
  datatype Input = Input(kind: Kind, assetID: int, groupID: int, current: Option<Policy>)

  datatype TaggedRule = TaggedRule(rule: string, source: string)

  // Groups above the edited policy

  function StartGroup(env: Env, assetID: int, groupID: int): int {
    if assetID > 0 then (if assetID in env.assets then env.assets[assetID].groupID else 0)
    else if groupID > 0 then (if groupID in env.groups then env.groups[groupID].parentID else 0)
    else 0
  }

  method ResolveGroupChainForTest(env: Env, assetID: int, groupID: int) returns (chain: seq<Group>)
    ensures chain == Chain(env, StartGroup(env, assetID, groupID), MAX_DEPTH)
  {
    var startGroupID := 0;
    if assetID > 0 {
      if assetID in env.assets {
        startGroupID := env.assets[assetID].groupID;
      }
    } else if groupID > 0 {
      if groupID in env.groups {
        startGroupID := env.groups[groupID].parentID;
      }
    }
    if startGroupID == 0 {
      return [];
    }
    chain := [];
    var currentID, i := startGroupID, 0;
    while i < 5 && currentID > 0
      invariant i <= 5 && chain + Chain(env, currentID, 5 - i) == Chain(env, startGroupID, MAX_DEPTH)
    {
      if currentID !in env.groups {
        break;
      }
      var g := env.groups[currentID];
      chain := chain + [g];
      currentID := g.parentID;
      i := i + 1;
    }
  }

  // Tagged rules

  /** Every rule keeps the name of the group it comes from. */
  function Tag(rules: seq<string>, source: string): seq<TaggedRule> {
    seq(|rules|, i requires 0 <= i < |rules| => TaggedRule(rules[i], source))
  }

  function Untag(rules: seq<TaggedRule>): seq<string> {
    seq(|rules|, i requires 0 <= i < |rules| => rules[i].rule)
  }

  lemma UntagPlus(rules: seq<TaggedRule>, more: seq<string>, source: string)
    ensures Untag(rules + Tag(more, source)) == Untag(rules) + more
  {
  }

  /** Appends the rules one at a time. */
  method AppendTagged(rules: seq<TaggedRule>, more: seq<string>, source: string) returns (out: seq<TaggedRule>)
    ensures out == rules + Tag(more, source)
  {
    out := rules;
    for i := 0 to |more|
      invariant out == rules + Tag(more, source)[..i]
    {
      out := out + [TaggedRule(more[i], source)];
    }
  }

  method CollectGroupGenericRules(env: Env, groups: seq<Group>) returns (deny: seq<TaggedRule>, allow: seq<TaggedRule>)
    ensures Untag(deny) == Permission.GroupRules(env, groups).deny
    ensures Untag(allow) == Permission.GroupRules(env, groups).allow
    ensures forall t | t in deny + allow :: exists g | g in groups :: g.name == t.source
  {
    hide Tag, Untag;
    deny, allow := [], [];
    UntagNothing();
    for i := 0 to |groups|
      invariant Untag(deny) == Permission.GroupRules(env, groups[..i]).deny
      invariant Untag(allow) == Permission.GroupRules(env, groups[..i]).allow
      invariant forall t | t in deny + allow :: exists g | g in groups :: g.name == t.source
    {
      Permission.GroupRulesStep(env, groups, i);
      var g := groups[i];
      assert g in groups;
      if g.policies.command == None {
        continue;
      }
      var p := g.policies.command.value;
      if |p.groups| > 0 {
        var referred := env.resolve(Command, p.groups);
        deny, allow := AddTagged(deny, allow, referred, g.name);
      }
      deny, allow := AddTagged(deny, allow, p.lists, g.name);
    }
    assert groups[..|groups|] == groups;
  }

  lemma UntagNothing()
    ensures Untag([]) == []
  {
  }

  method AddTagged(deny: seq<TaggedRule>, allow: seq<TaggedRule>, lists: Lists, source: string)
      returns (deny': seq<TaggedRule>, allow': seq<TaggedRule>)
    ensures Untag(deny') == Untag(deny) + lists.deny && Untag(allow') == Untag(allow) + lists.allow
    ensures forall t | t in deny' + allow' :: t in deny + allow || t.source == source
  {
    allow' := AppendTagged(allow, lists.allow, source);
    deny' := AppendTagged(deny, lists.deny, source);
    UntagPlus(allow, lists.allow, source);
    UntagPlus(deny, lists.deny, source);
  }

  predicate IsFirstHit(rules: seq<TaggedRule>, command: string, m: MatchFunc, hit: TaggedRule) {
    exists i | 0 <= i < |rules| :: rules[i] == hit && m(hit.rule, command) && forall k | 0 <= k < i :: !m(rules[k].rule, command)
  }

  /** checkGenericDeny and checkGenericAllow: the first rule that matches. */
  method FirstMatch(rules: seq<TaggedRule>, command: string, m: MatchFunc) returns (hit: Option<TaggedRule>)
    ensures hit.Some? <==> AnyMatch(Untag(rules), command, m)
    ensures hit.Some? ==> hit.value in rules && m(hit.value.rule, command) && IsFirstHit(rules, command, m, hit.value)
  {
    for i := 0 to |rules|
      invariant forall k | 0 <= k < i :: !m(rules[k].rule, command)
    {
      if m(rules[i].rule, command) {
        assert Untag(rules)[i] == rules[i].rule;
        return Some(rules[i]);
      }
    }
    hit := None;
  }

  ghost predicate HasUnnamedHit(rules: seq<TaggedRule>, unit: string, m: MatchFunc) {
    exists hit :: IsFirstHit(rules, unit, m, hit) && hit.source == ""
  }

  /** The hit of unit `i` is the first one that carries the name of its group; without any it is the last one. */
  ghost predicate IsReported(rules: seq<TaggedRule>, units: seq<string>, m: MatchFunc, hit: TaggedRule, i: nat)
    requires i < |units|
  {
    && IsFirstHit(rules, units[i], m, hit) && (hit.source != "" || i == |units| - 1)
    && forall k | 0 <= k < i :: HasUnnamedHit(rules, units[k], m)
  }

  /** groupAllowAllStmts and groupGenericAllowAllSubCmds: a hit, when every unit has one. An empty source does not count as
      set, so the hit of a group without a name is replaced by that of the next unit. */
  method GroupAllowAll(rules: seq<TaggedRule>, units: seq<string>, m: MatchFunc) returns (first: Option<TaggedRule>)
    requires units != []
    ensures first.Some? <==> rules != [] && Covered(Untag(rules), units, m)
    ensures first.Some? ==> exists i | 0 <= i < |units| :: IsReported(rules, units, m, first.value, i)
  {
    first := None;
    if |rules| == 0 {
      return;
    }
    for i := 0 to |units|
      invariant first.Some? <==> i > 0
      invariant first.Some? ==> exists k | 0 <= k < i :: IsReported(rules, units[..i], m, first.value, k)
      invariant Covered(Untag(rules), units[..i], m)
    {
      var hit := FirstMatch(rules, units[i], m);
      if hit.None? {
        assert units[i] in units;
        return None;
      }
      ghost var before := first;
      if first.None? || first.value.source == "" {
        first := hit;
      }
      assert units[..i + 1] == units[..i] + [units[i]];
      ReportedStep(rules, units[..i], units[i], m, before, hit.value);
    }
    assert units[..|units|] == units;
  }

  lemma ReportedStep(
    rules: seq<TaggedRule>, units: seq<string>, unit: string, m: MatchFunc, first: Option<TaggedRule>, hit: TaggedRule)
    requires IsFirstHit(rules, unit, m, hit) && (first.Some? <==> units != [])
    requires first.Some? ==> exists k | 0 <= k < |units| :: IsReported(rules, units, m, first.value, k)
    ensures var next := if first.None? || first.value.source == "" then hit else first.value;
            exists k | 0 <= k <= |units| :: IsReported(rules, units + [unit], m, next, k)
  {
    var more := units + [unit];
    if first.None? {
      assert IsReported(rules, more, m, hit, 0);
    } else {
      var k :| 0 <= k < |units| && IsReported(rules, units, m, first.value, k);
      forall x | 0 <= x < k ensures HasUnnamedHit(rules, more[x], m) { assert HasUnnamedHit(rules, units[x], m); }
      if first.value.source == "" {
        assert HasUnnamedHit(rules, units[k], m) && more[k] == units[k];
        assert IsReported(rules, more, m, hit, |units|);
      } else {
        assert IsReported(rules, more, m, first.value, k);
      }
    }
  }

  method AnyTaggedDenied(rules: seq<TaggedRule>, units: seq<string>, m: MatchFunc) returns (hit: Option<TaggedRule>)
    ensures hit.Some? <==> Denied(Untag(rules), units, m)
  {
    for i := 0 to |units|
      invariant !Denied(Untag(rules), units[..i], m)
    {
      hit := FirstMatch(rules, units[i], m);
      if hit.Some? {
        assert units[i] in units;
        return;
      }
      assert units[..i + 1] == units[..i] + [units[i]];
    }
    assert units[..|units|] == units;
    hit := None;
  }

  // SSH

  /** The rules of the edited policy, what it refers to first, then those of the groups. */
  function PreviewRules(env: Env, current: Option<Policy>, groups: seq<Group>): Lists {
    (if current.None? then NO_LISTS else Referred(env, Command, current.value).Plus(current.value.lists))
    .Plus(Permission.GroupRules(env, groups))
  }

  function PreviewCommand(env: Env, current: Option<Policy>, groups: seq<Group>, command: string): Decision {
    var units := ShellUnits(env, command);
    if units == [] then NeedConfirm else GenericVerdict(PreviewRules(env, current, groups), units, MatchCommandRule)
  }

  /** The source of a rule is a group above, or empty for the edited policy. */
  predicate HasSource(rules: seq<TaggedRule>, groups: seq<Group>) {
    forall t | t in rules :: t.source == "" || exists g | g in groups :: g.name == t.source
  }

  method CollectPreviewRules(env: Env, current: Option<Policy>, groups: seq<Group>)
      returns (deny: seq<TaggedRule>, allow: seq<TaggedRule>)
    ensures Untag(deny) == PreviewRules(env, current, groups).deny
    ensures Untag(allow) == PreviewRules(env, current, groups).allow
    ensures HasSource(allow, groups)
  {
    hide Tag, Untag;
    deny, allow := [], [];
    UntagNothing();
    if current.Some? {
      if |current.value.groups| > 0 {
        var referred := env.resolve(Command, current.value.groups);
        deny, allow := AddTagged(deny, allow, referred, "");
      }
      deny, allow := AddTagged(deny, allow, current.value.lists, "");
    }
    var groupDeny, groupAllow := CollectGroupGenericRules(env, groups);
    UntagSplit(deny, groupDeny);
    UntagSplit(allow, groupAllow);
    deny, allow := deny + groupDeny, allow + groupAllow;
  }

  method TestSSHPolicy(env: Env, current: Option<Policy>, groups: seq<Group>, command: string)
      returns (decision: Decision, source: string)
    ensures decision == PreviewCommand(env, current, groups, command)
    ensures decision == Allow && source != "" ==> exists g | g in groups :: g.name == source
  {
    hide MatchCommandRule, Tag, Untag, PreviewRules;
    source := "";
    var parsed := env.parseShell(command);
    if parsed == None {
      return NeedConfirm, "";
    }
    var units := Shell.ExtractSubCommands(parsed.value);
    if |units| == 0 {
      return NeedConfirm, "";
    }
    var denyRules, allowRules := CollectPreviewRules(env, current, groups);
    var allowFlat := FlatRules(allowRules);

    var denied := AnyTaggedDenied(denyRules, units, MatchCommandRule);
    if denied.Some? {
      return Deny, denied.value.source;
    }
    var ok, _ := Permission.AllSubCommandsAllowed(units, allowFlat);
    if |allowFlat| > 0 && ok {
      for i := 0 to |units|
        invariant source == ""
      {
        var hit := FirstMatch(allowRules, units[i], MatchCommandRule);
        if hit.Some? {
          source := hit.value.source;
        }
        if source != "" {
          break;
        }
      }
      return Allow, source;
    }
    decision := NeedConfirm;
  }

  lemma UntagSplit(a: seq<TaggedRule>, b: seq<TaggedRule>)
    ensures Untag(a + b) == Untag(a) + Untag(b)
  {
  }

  method FlatRules(rules: seq<TaggedRule>) returns (flat: seq<string>)
    ensures flat == Untag(rules)
  {
    flat := [];
    for i := 0 to |rules|
      invariant flat == Untag(rules)[..i]
    {
      flat := flat + [rules[i].rule];
    }
  }

  // Database, Redis and Kubernetes

  /** mergeQueryPoliciesForTest and its siblings. */
  function MergedForTest(env: Env, k: Kind, policies: seq<Policy>, acc: Lists): Lists
    decreases |policies|
  {
    if policies == [] then acc
    else
      var e := Expanded(env, k, policies[0]);
      MergedForTest(env, k, policies[1..],
                    Lists(if acc.allow == [] then Unique([], e.allow) else acc.allow, Unique(acc.deny, e.deny),
                          Unique(acc.flags, e.flags)))
  }

  function PreviewTyped(env: Env, k: Kind, current: Option<Policy>, groups: seq<Group>, command: string): Decision
    requires k != Command
  {
    match WorkOf(env, k, command)
    case Refused(d) => d
    case Work(units, stmts) =>
      var rules := Permission.GroupRules(env, groups);
      var policies := ToList(current) + GroupPolicies(groups, k);
      var typed := TypeVerdict(k, Effective(env, k, MergedForTest(env, k, policies, NO_LISTS)), Work(units, stmts));
      if Denied(rules.deny, units, MatcherOf(k)) then Deny
      else if typed == NeedConfirm && rules.allow != [] && Covered(rules.allow, units, MatcherOf(k)) then Allow
      else typed
  }

  function PreviewDecision(env: Env, input: Input, command: string): Decision {
    var groups := Chain(env, StartGroup(env, input.assetID, input.groupID), MAX_DEPTH);
    if input.kind == Command then PreviewCommand(env, input.current, groups, command)
    else PreviewTyped(env, input.kind, input.current, groups, command)
  }

  method MergePoliciesForTest(env: Env, k: Kind, current: Option<Policy>, groups: seq<Group>) returns (merged: Lists)
    ensures merged == MergedForTest(env, k, ToList(current) + GroupPolicies(groups, k), NO_LISTS)
  {
    hide Unique, GroupPolicies;
    var policies := ToList(current) + GroupPolicies(groups, k);
    merged := NO_LISTS;
    for i := 0 to |policies|
      invariant MergedForTest(env, k, policies[i..], merged) == MergedForTest(env, k, policies, NO_LISTS)
    {
      assert policies[i..][1..] == policies[i + 1..];
      var expanded := Expanded(env, k, policies[i]);
      var allow := merged.allow;
      if |merged.allow| == 0 && |expanded.allow| > 0 {
        allow := AppendUnique(merged.allow, expanded.allow);
      }
      UniqueNothing(merged.allow);
      var deny := AppendUnique(merged.deny, expanded.deny);
      var flags := AppendUnique(merged.flags, expanded.flags);
      merged := Lists(allow, deny, flags);
    }
  }

  lemma UniqueNothing(base: seq<string>)
    ensures Unique(base, []) == base
  {
  }

  method TestTypedPolicy(env: Env, k: Kind, current: Option<Policy>, groups: seq<Group>, command: string)
      returns (decision: Decision, source: string)
    requires k != Command
    ensures decision == PreviewTyped(env, k, current, groups, command)
  {
    hide Effective, MergedForTest, QueryVerdict, ListVerdict, WorkOf, Tag, Untag;
    hide Permission.GroupRules;
    source := "";
    var w := Permission.Prepare(env, k, command);
    if w.Refused? {
      return w.decision, "";
    }
    WorkHasUnits(env, k, command);
    var groupDeny, groupAllow := CollectGroupGenericRules(env, groups);
    var denied := AnyTaggedDenied(groupDeny, w.units, MatcherOf(k));
    if denied.Some? {
      return Deny, denied.value.source;
    }
    var merged := MergePoliciesForTest(env, k, current, groups);
    var effective := Permission.EffectivePolicy(env, k, merged);
    if k == Query {
      decision := Permission.CheckQueryPolicyRules(effective, w.stmts);
    } else {
      decision := Permission.CheckListRules(effective, w.units, MatcherOf(k));
    }
    if decision == NeedConfirm {
      UntagLength(groupAllow);
      var out := GroupAllowAll(groupAllow, w.units, MatcherOf(k));
      if out.Some? {
        return Allow, out.value.source;
      }
    }
  }

  lemma UntagLength(rules: seq<TaggedRule>)
    ensures |Untag(rules)| == |rules|
  {
  }

  method TestPolicy(env: Env, input: Input, command: string) returns (decision: Decision, source: string)
    ensures decision == PreviewDecision(env, input, command)
  {
    var groups := ResolveGroupChainForTest(env, input.assetID, input.groupID);
    if input.kind == Command {
      decision, source := TestSSHPolicy(env, input.current, groups, command);
    } else {
      decision, source := TestTypedPolicy(env, input.kind, input.current, groups, command);
    }
  }
}
