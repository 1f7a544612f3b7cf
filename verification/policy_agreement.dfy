/** The preview of a policy decides what enforcing it decides. */
module PolicyAgreement {
  import opened Text
  import opened CommandRule
  import opened PolicyModel
  import opened Permission
  import opened PolicyTester

  function StoredPolicy(env: Env, k: Kind, assetID: int): Option<Policy> {
    if assetID in env.assets then env.assets[assetID].policies.Of(k) else None
  }

  /** The session's grants reach every unit of the command. */
  predicate GrantsApply(env: Env, k: Kind, assetID: int, items: seq<GrantItem>, command: string) {
    var w := WorkOf(env, k, command);
    && w.Work?
    && (k == Command || assetID in env.assets)
    && GrantsCover(items, assetID, GroupsOf(env, Lookup(env, assetID)), w.units)
  }

  lemma {:induction false} MergesAgree(env: Env, k: Kind, policies: seq<Policy>, a: Lists, b: Lists)
    requires SameRules(a, b)
    ensures SameRules(Merged(env, k, policies, a), MergedForTest(env, k, policies, b))
    decreases |policies|
  {
    if policies != [] {
      var e := Expanded(env, k, policies[0]);
      SameEmptiness(a.allow, b.allow);
      UniqueIsUnion([], e.allow);
      UniqueIsUnion(a.deny, e.deny);
      UniqueIsUnion(b.deny, e.deny);
      UniqueIsUnion(a.flags, e.flags);
      UniqueIsUnion(b.flags, e.flags);
      MergesAgree(env, k, policies[1..],
                  Lists(if a.allow == [] then e.allow else a.allow, Unique(a.deny, e.deny), Unique(a.flags, e.flags)),
                  Lists(if b.allow == [] then Unique([], e.allow) else b.allow, Unique(b.deny, e.deny),
                        Unique(b.flags, e.flags)));
    }
  }

  lemma SamePlus(a: Lists, b: Lists, c: Lists, d: Lists)
    requires SameRules(a, b) && SameRules(c, d)
    ensures SameRules(a.Plus(c), b.Plus(d))
  {
  }

  lemma PlusCommutes(a: Lists, b: Lists)
    ensures SameRules(a.Plus(b), b.Plus(a))
  {
  }

  /** The runtime lists a group's own rules first, the general rules of a chain list what it refers to first. */
  lemma {:induction false} GroupRulesAgree(env: Env, groups: seq<Group>)
    ensures SameRules(CommandRules(env, GroupPolicies(groups, Command)), GroupRules(env, groups))
  {
    if groups != [] {
      GroupRulesAgree(env, groups[1..]);
      var p := groups[0].policies.command;
      var rest := GroupPolicies(groups[1..], Command);
      if p.Some? {
        assert ([p.value] + rest)[1..] == rest;
        PlusCommutes(p.value.lists, Referred(env, Command, p.value));
        SamePlus(Expanded(env, Command, p.value), Referred(env, Command, p.value).Plus(p.value.lists),
                 CommandRules(env, rest), GroupRules(env, groups[1..]));
      } else {
        assert [] + rest == rest;
      }
    }
  }

  lemma CommandRulesAgree(env: Env, asset: Option<Asset>, groups: seq<Group>)
    ensures SameRules(CommandRules(env, CommandPoliciesOf(asset, groups)),
                      PreviewRules(env, if asset.Some? then asset.value.policies.command else None, groups))
  {
    GroupRulesAgree(env, groups);
    var rest := GroupPolicies(groups, Command);
    if asset.Some? && asset.value.policies.command.Some? {
      var p := asset.value.policies.command.value;
      assert ([p] + rest)[1..] == rest;
      PlusCommutes(p.lists, Referred(env, Command, p));
      SamePlus(Expanded(env, Command, p), Referred(env, Command, p).Plus(p.lists), CommandRules(env, rest),
            GroupRules(env, groups));
    } else {
      assert [] + rest == rest;
    }
  }

  lemma ChainsAgree(env: Env, assetID: int, groupID: int)
    requires assetID > 0
    ensures Chain(env, StartGroup(env, assetID, groupID), MAX_DEPTH) == GroupsOf(env, Lookup(env, assetID))
  {
  }

  lemma CommandPreviewAgrees(env: Env, assetID: int, items: seq<GrantItem>, command: string)
    ensures var asset := Lookup(env, assetID);
            var preview := PreviewCommand(env, StoredPolicy(env, Command, assetID), GroupsOf(env, asset), command);
            CommandDecision(env, assetID, items, command).0
            == if preview == NeedConfirm && GrantsApply(env, Command, assetID, items, command) then Allow else preview
  {
    hide MatchCommandRule, CommandRules, PreviewRules, GroupPolicies;
    var asset := Lookup(env, assetID);
    var groups := GroupsOf(env, asset);
    CommandRulesAgree(env, asset, groups);
    SameGenericVerdict(CommandRules(env, CommandPoliciesOf(asset, groups)),
                       PreviewRules(env, StoredPolicy(env, Command, assetID), groups), ShellUnits(env, command),
                             MatchCommandRule);
  }

  lemma TypedPreviewAgrees(env: Env, k: Kind, assetID: int, items: seq<GrantItem>, command: string)
    requires k != Command
    ensures var asset := Lookup(env, assetID);
            var preview := PreviewTyped(env, k, StoredPolicy(env, k, assetID), GroupsOf(env, asset), command);
            TypedDecision(env, k, assetID, items, command)
            == if preview == NeedConfirm && GrantsApply(env, k, assetID, items, command) then Allow else preview
  {
    hide MatchCommandRule, Merged, MergedForTest, Effective, GroupRules, GroupPolicies, QueryVerdict, ListVerdict, WorkOf;
    var w := WorkOf(env, k, command);
    if w.Work? {
      WorkHasUnits(env, k, command);
      var asset := Lookup(env, assetID);
      var groups := GroupsOf(env, asset);
      var policies := TypedPolicies(k, asset, groups);
      MergesAgree(env, k, policies, NO_LISTS, NO_LISTS);
      SameEffective(env, k, Merged(env, k, policies, NO_LISTS), MergedForTest(env, k, policies, NO_LISTS));
      SameTypeVerdict(k, Effective(env, k, Merged(env, k, policies, NO_LISTS)),
                      Effective(env, k, MergedForTest(env, k, policies, NO_LISTS)), w);
    }
  }

  /** For every asset, chain of groups and command: the preview of the stored policy is the enforced decision, except
      that the session's grants turn a needed confirmation into an approval, exactly when they reach every unit. */
  lemma PreviewEqualsEnforcement(env: Env, k: Kind, assetID: int, groupID: int, items: seq<GrantItem>, command: string)
    requires assetID > 0
    ensures var preview := PreviewDecision(env, Input(k, assetID, groupID, StoredPolicy(env, k, assetID)), command);
            RuntimeDecision(env, k, assetID, items, command)
            == if preview == NeedConfirm && GrantsApply(env, k, assetID, items, command) then Allow else preview
  {
    hide GrantsApply, TypedDecision, PreviewTyped, CommandDecision, PreviewCommand, GroupsOf;
    ChainsAgree(env, assetID, groupID);
    if k == Command {
      CommandPreviewAgrees(env, assetID, items, command);
    } else {
      TypedPreviewAgrees(env, k, assetID, items, command);
    }
  }

  /** Editing a group previews what an asset with that policy would get beside it: below the group's parent, not below the
      group itself. */
  lemma GroupPreviewEqualsEnforcement(env: Env, k: Kind, assetID: int, groupID: int, items: seq<GrantItem>, command: string)
    requires assetID > 0 && assetID in env.assets && groupID > 0 && groupID in env.groups
    requires env.assets[assetID].groupID == env.groups[groupID].parentID
    requires env.assets[assetID].policies.Of(k) == env.groups[groupID].policies.Of(k)
    ensures var preview := PreviewDecision(env, Input(k, 0, groupID, env.groups[groupID].policies.Of(k)), command);
            RuntimeDecision(env, k, assetID, items, command)
            == if preview == NeedConfirm && GrantsApply(env, k, assetID, items, command) then Allow else preview
  {
    hide GrantsApply, RuntimeDecision, PreviewTyped, PreviewCommand;
    PreviewEqualsEnforcement(env, k, assetID, groupID, items, command);
  }
}
