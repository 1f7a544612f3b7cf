/** What a permission check answers, said over the stored policies alone: which rule of which holder decides, and in which
    order. Nothing here mentions how rules are collected, merged and filled up with the built-in ones. */
module PolicyLaw {
  import opened Text
  import opened CommandRule
  import opened PolicyModel
  import opened Permission
  import Shell

  // The rules of a policy

  /** Its own rules, and those of the permission groups it refers to, which are looked up among those of one kind. */
  predicate Denies(env: Env, among: Kind, p: Policy, r: string) {
    r in p.lists.deny || (p.groups != [] && r in env.resolve(among, p.groups).deny)
  }

  predicate Allows(env: Env, among: Kind, p: Policy, r: string) {
    r in p.lists.allow || (p.groups != [] && r in env.resolve(among, p.groups).allow)
  }

  predicate DeniesFlag(env: Env, among: Kind, p: Policy, r: string) {
    r in p.lists.flags || (p.groups != [] && r in env.resolve(among, p.groups).flags)
  }

  /** A kind of asset: which policy of a holder speaks about it, where that policy's permission groups are looked up, the
      built-in groups, and how its rules are matched. */
  datatype Scheme = Scheme(stored: Policies -> Option<Policy>, among: Kind, builtIn: seq<string>, m: MatchFunc)

  function BuiltIn(x: Scheme): Policy {
    Policy(NO_LISTS, x.builtIn)
  }

  /** The holders of policies, the nearest first: the asset, then its groups. */
  function Holders(asset: Option<Asset>, groups: seq<Group>): seq<Policies> {
    (if asset.Some? then [asset.value.policies] else []) + seq(|groups|, i requires 0 <= i < |groups| => groups[i].policies)
  }

  // What they say

  ghost predicate HasDeny(env: Env, x: Scheme, h: Policies, r: string) {
    x.stored(h).Some? && Denies(env, x.among, x.stored(h).value, r)
  }

  ghost predicate HasAllow(env: Env, x: Scheme, h: Policies, r: string) {
    x.stored(h).Some? && Allows(env, x.among, x.stored(h).value, r)
  }

  ghost predicate HasFlag(env: Env, x: Scheme, h: Policies, r: string) {
    x.stored(h).Some? && DeniesFlag(env, x.among, x.stored(h).value, r)
  }

  /** Deny rules add up: those of every holder and the built-in ones. */
  ghost predicate IsDenyRule(env: Env, x: Scheme, holders: seq<Policies>, r: string) {
    (exists h | h in holders :: HasDeny(env, x, h, r)) || Denies(env, x.among, BuiltIn(x), r)
  }

  ghost predicate IsDenyFlag(env: Env, x: Scheme, holders: seq<Policies>, r: string) {
    (exists h | h in holders :: HasFlag(env, x, h, r)) || DeniesFlag(env, x.among, BuiltIn(x), r)
  }

  ghost predicate HasNoAllow(env: Env, x: Scheme, h: Policies) {
    forall r :: !HasAllow(env, x, h, r)
  }

  /** Allow rules replace each other: those of the nearest holder that has any count, and the built-in ones if none has. */
  ghost predicate IsAllowRule(env: Env, x: Scheme, holders: seq<Policies>, r: string) {
    || (exists i | 0 <= i < |holders| ::
          HasAllow(env, x, holders[i], r) && forall j | 0 <= j < i :: HasNoAllow(env, x, holders[j]))
    || ((forall h | h in holders :: HasNoAllow(env, x, h)) && Allows(env, x.among, BuiltIn(x), r))
  }

  ghost predicate HasNoAllowRule(env: Env, x: Scheme, holders: seq<Policies>) {
    forall r :: !IsAllowRule(env, x, holders, r)
  }

  ghost predicate IsDenied(env: Env, x: Scheme, holders: seq<Policies>, unit: string) {
    exists r :: IsDenyRule(env, x, holders, r) && x.m(r, unit)
  }

  ghost predicate IsAllowed(env: Env, x: Scheme, holders: seq<Policies>, unit: string) {
    HasNoAllowRule(env, x, holders) || exists r :: IsAllowRule(env, x, holders, r) && x.m(r, unit)
  }

  // The general rules of groups

  ghost predicate GroupDenies(env: Env, groups: seq<Group>, m: MatchFunc, unit: string) {
    exists g, r | g in groups && g.policies.command.Some? ::
      Denies(env, Command, g.policies.command.value, r) && m(r, unit)
  }

  ghost predicate GroupAllows(env: Env, groups: seq<Group>, m: MatchFunc, unit: string) {
    exists g, r | g in groups && g.policies.command.Some? ::
      Allows(env, Command, g.policies.command.value, r) && m(r, unit)
  }

  // Grants

  /** A grant is for one asset, or for a group, or for everything. */
  predicate IsFor(item: GrantItem, assetID: int, groups: seq<Group>) {
    || (item.assetID != 0 && item.assetID == assetID)
    || (item.assetID == 0 && item.groupID != 0 && exists g | g in groups :: g.id == item.groupID)
    || (item.assetID == 0 && item.groupID == 0)
  }

  ghost predicate IsGranted(items: seq<GrantItem>, assetID: int, groups: seq<Group>, unit: string) {
    exists it | it in items :: IsFor(it, assetID, groups) && MatchCommandRule(it.command, unit)
  }

  /** Each layer has to cover every unit by itself. */
  ghost predicate AnotherLayerAllows(env: Env, x: Scheme, assetID: int, items: seq<GrantItem>, units: set<string>) {
    var groups := GroupsOf(env, Lookup(env, assetID));
    || (forall u | u in units :: GroupAllows(env, groups, x.m, u))
    || (assetID in env.assets && forall u | u in units :: IsGranted(items, assetID, groups, u))
  }

  /** The answer for units that are judged all alike. */
  ghost predicate DecidesUnits(env: Env, x: Scheme, assetID: int, items: seq<GrantItem>, units: set<string>, d: Decision) {
    var groups := GroupsOf(env, Lookup(env, assetID));
    var holders := Holders(Lookup(env, assetID), groups);
    && (d == Deny <==> exists u | u in units :: GroupDenies(env, groups, x.m, u) || IsDenied(env, x, holders, u))
    && (d == Allow <==> && d != Deny
                        && ((forall u | u in units :: IsAllowed(env, x, holders, u))
                            || AnotherLayerAllows(env, x, assetID, items, units)))
  }

  // SQL statements

  ghost predicate TypeDenied(env: Env, x: Scheme, holders: seq<Policies>, s: StatementInfo) {
    || (exists r :: IsDenyRule(env, x, holders, r) && PolicyValueMatches(r, s.kind))
    || (s.dangerous && IsDenyFlag(env, x, holders, s.reason))
  }

  ghost predicate TypeAllowed(env: Env, x: Scheme, holders: seq<Policies>, s: StatementInfo) {
    HasNoAllowRule(env, x, holders) || exists r :: IsAllowRule(env, x, holders, r) && PolicyValueMatches(r, s.kind)
  }

  ghost predicate TypePasses(env: Env, x: Scheme, holders: seq<Policies>, s: StatementInfo) {
    !TypeDenied(env, x, holders, s) && TypeAllowed(env, x, holders, s)
  }

  /** The texts of the statements, or the whole command if none has a text. */
  function SqlUnits(stmts: seq<StatementInfo>, command: string): set<string> {
    if forall s | s in stmts :: TrimSpace(s.raw) == "" then {command}
    else set s | s in stmts && TrimSpace(s.raw) != "" :: TrimSpace(s.raw)
  }

  /** The answer for statements, which are judged by their type and in order: a denied one counts only if all before it
      pass. */
  ghost predicate DecidesStatements(
    env: Env, x: Scheme, assetID: int, items: seq<GrantItem>, stmts: seq<StatementInfo>, units: set<string>, d: Decision)
  {
    var groups := GroupsOf(env, Lookup(env, assetID));
    var holders := Holders(Lookup(env, assetID), groups);
    && (d == Deny <==>
          || (exists u | u in units :: GroupDenies(env, groups, x.m, u))
          || (exists i | 0 <= i < |stmts| ::
                TypeDenied(env, x, holders, stmts[i]) && forall j | 0 <= j < i :: TypePasses(env, x, holders, stmts[j])))
    && (d == Allow <==> && d != Deny
                        && ((forall s | s in stmts :: TypePasses(env, x, holders, s))
                            || AnotherLayerAllows(env, x, assetID, items, units)))
  }

  // How the rules are gathered

  /** The scheme of a kind, as the check dispatches on it. */
  ghost predicate IsSchemeOf(x: Scheme, k: Kind) {
    && (forall ps :: x.stored(ps) == ps.Of(k))
    && x.among == (if k == K8s then Command else k)
    && Default(k) == BuiltIn(x)
    && forall r, u :: x.m(r, u) == MatcherOf(k)(r, u)
  }

  lemma ExpandedRules(env: Env, k: Kind, p: Policy, r: string)
    ensures var among := if k == K8s then Command else k;
            && (r in Expanded(env, k, p).deny <==> Denies(env, among, p, r))
            && (r in Expanded(env, k, p).allow <==> Allows(env, among, p, r))
            && (r in Expanded(env, k, p).flags <==> DeniesFlag(env, among, p, r))
  {
  }

  /** The policies that are there, in the order of their holders. */
  function Present(x: Scheme, holders: seq<Policies>): seq<Policy> {
    if holders == [] then [] else ToList(x.stored(holders[0])) + Present(x, holders[1..])
  }

  lemma {:induction false} GroupsArePresent(x: Scheme, k: Kind, groups: seq<Group>)
    requires forall ps :: x.stored(ps) == ps.Of(k)
    ensures GroupPolicies(groups, k) == Present(x, Holders(None, groups))
  {
    if groups != [] {
      GroupsArePresent(x, k, groups[1..]);
      assert Holders(None, groups)[1..] == Holders(None, groups[1..]);
    }
  }

  lemma TypedArePresent(x: Scheme, k: Kind, asset: Option<Asset>, groups: seq<Group>)
    requires forall ps :: x.stored(ps) == ps.Of(k)
    ensures TypedPolicies(k, asset, groups) == Present(x, Holders(asset, groups))
  {
    GroupsArePresent(x, k, groups);
    if asset.Some? {
      assert Holders(asset, groups)[1..] == Holders(None, groups);
    } else {
      assert Holders(asset, groups) == Holders(None, groups);
    }
  }

  lemma {:induction false} MergedDeny(env: Env, k: Kind, x: Scheme, holders: seq<Policies>, acc: Lists, r: string)
    requires x.among == if k == K8s then Command else k
    ensures var merged := Merged(env, k, Present(x, holders), acc);
            && (r in merged.deny <==> r in acc.deny || exists h | h in holders :: HasDeny(env, x, h, r))
            && (r in merged.flags <==> r in acc.flags || exists h | h in holders :: HasFlag(env, x, h, r))
    decreases |holders|
  {
    hide Expanded;
    if holders != [] {
      var h, rest := holders[0], holders[1..];
      assert (exists g | g in holders :: HasDeny(env, x, g, r))
          <==> HasDeny(env, x, h, r) || exists g | g in rest :: HasDeny(env, x, g, r) by { assert holders == [h] + rest; }
      assert (exists g | g in holders :: HasFlag(env, x, g, r))
          <==> HasFlag(env, x, h, r) || exists g | g in rest :: HasFlag(env, x, g, r) by { assert holders == [h] + rest; }
      if x.stored(h).Some? {
        var p := x.stored(h).value;
        var e := Expanded(env, k, p);
        ExpandedRules(env, k, p, r);
        assert HasDeny(env, x, h, r) <==> r in e.deny;
        assert HasFlag(env, x, h, r) <==> r in e.flags;
        UniqueIsUnion(acc.deny, e.deny);
        UniqueIsUnion(acc.flags, e.flags);
        assert Present(x, holders)[0] == p && Present(x, holders)[1..] == Present(x, rest);
        MergedDeny(env, k, x, rest, Lists(if acc.allow == [] then e.allow else acc.allow, Unique(acc.deny, e.deny),
                                          Unique(acc.flags, e.flags)), r);
      } else {
        assert Present(x, holders) == Present(x, rest);
        MergedDeny(env, k, x, rest, acc, r);
      }
    }
  }

  lemma {:induction false} MergedKeepsAllow(env: Env, k: Kind, policies: seq<Policy>, acc: Lists)
    requires acc.allow != []
    ensures Merged(env, k, policies, acc).allow == acc.allow
    decreases |policies|
  {
    hide Expanded;
    if policies != [] {
      var e := Expanded(env, k, policies[0]);
      MergedKeepsAllow(env, k, policies[1..], Lists(acc.allow, Unique(acc.deny, e.deny), Unique(acc.flags, e.flags)));
    }
  }

  /** The rules of the nearest holder that has any. */
  ghost predicate IsNearest(env: Env, x: Scheme, holders: seq<Policies>, r: string) {
    exists i | 0 <= i < |holders| ::
      HasAllow(env, x, holders[i], r) && forall j | 0 <= j < i :: HasNoAllow(env, x, holders[j])
  }

  lemma NearestStep(env: Env, x: Scheme, holders: seq<Policies>, r: string)
    requires holders != []
    ensures IsNearest(env, x, holders, r)
       <==> HasAllow(env, x, holders[0], r) || (HasNoAllow(env, x, holders[0]) && IsNearest(env, x, holders[1..], r))
  {
    hide HasAllow, HasNoAllow;
    var rest := holders[1..];
    if IsNearest(env, x, holders, r) {
      var i :| 0 <= i < |holders| && HasAllow(env, x, holders[i], r)
               && forall j | 0 <= j < i :: HasNoAllow(env, x, holders[j]);
      if i > 0 {
        assert rest[i - 1] == holders[i] && forall j | 0 <= j < i - 1 :: rest[j] == holders[j + 1];
        assert HasNoAllow(env, x, holders[0]);
      }
    }
    if HasNoAllow(env, x, holders[0]) && IsNearest(env, x, rest, r) {
      var i :| 0 <= i < |rest| && HasAllow(env, x, rest[i], r) && forall j | 0 <= j < i :: HasNoAllow(env, x, rest[j]);
      assert forall j | 0 < j < i + 1 :: holders[j] == rest[j - 1];
      assert HasAllow(env, x, holders[i + 1], r);
    }
  }

  lemma {:induction false} MergedAllow(env: Env, k: Kind, x: Scheme, holders: seq<Policies>, acc: Lists, r: string)
    requires x.among == if k == K8s then Command else k
    requires acc.allow == []
    ensures r in Merged(env, k, Present(x, holders), acc).allow <==> IsNearest(env, x, holders, r)
    decreases |holders|
  {
    hide Expanded, Unique;
    if holders != [] {
      var h, rest := holders[0], holders[1..];
      NearestStep(env, x, holders, r);
      if x.stored(h).Some? {
        var p := x.stored(h).value;
        var e := Expanded(env, k, p);
        forall q ensures q in e.allow <==> HasAllow(env, x, h, q) { ExpandedRules(env, k, p, q); }
        assert Present(x, holders)[0] == p && Present(x, holders)[1..] == Present(x, rest);
        var next := Lists(e.allow, Unique(acc.deny, e.deny), Unique(acc.flags, e.flags));
        if e.allow == [] {
          MergedAllow(env, k, x, rest, next, r);
        } else {
          assert HasAllow(env, x, h, e.allow[0]);
          MergedKeepsAllow(env, k, Present(x, rest), next);
        }
      } else {
        assert Present(x, holders) == Present(x, rest);
        MergedAllow(env, k, x, rest, acc, r);
      }
    }
  }

  lemma NothingNearest(env: Env, x: Scheme, holders: seq<Policies>)
    ensures (forall r :: !IsNearest(env, x, holders, r)) <==> forall h | h in holders :: HasNoAllow(env, x, h)
  {
    if h :| h in holders && !HasNoAllow(env, x, h) {
      FirstWithAllow(env, x, holders, h);
    }
    if r :| IsNearest(env, x, holders, r) {
      var i :| 0 <= i < |holders| && HasAllow(env, x, holders[i], r);
      assert !HasNoAllow(env, x, holders[i]);
    }
  }

  lemma {:induction false} FirstWithAllow(env: Env, x: Scheme, holders: seq<Policies>, h: Policies)
    requires h in holders && !HasNoAllow(env, x, h)
    ensures exists r :: IsNearest(env, x, holders, r)
  {
    if HasNoAllow(env, x, holders[0]) {
      FirstWithAllow(env, x, holders[1..], h);
      var r :| IsNearest(env, x, holders[1..], r);
      NearestStep(env, x, holders, r);
    } else {
      var r :| HasAllow(env, x, holders[0], r);
      NearestStep(env, x, holders, r);
    }
  }

  /** What the policies come to for a scheme. */
  function Gathered(env: Env, k: Kind, assetID: int): Lists {
    var asset := Lookup(env, assetID);
    Effective(env, k, Merged(env, k, TypedPolicies(k, asset, GroupsOf(env, asset)), NO_LISTS))
  }

  lemma GatheredRules(env: Env, k: Kind, x: Scheme, assetID: int, r: string)
    requires IsSchemeOf(x, k)
    ensures var asset := Lookup(env, assetID);
            var holders, g := Holders(asset, GroupsOf(env, asset)), Gathered(env, k, assetID);
            && (r in g.deny <==> IsDenyRule(env, x, holders, r))
            && (r in g.flags <==> IsDenyFlag(env, x, holders, r))
            && (r in g.allow <==> IsAllowRule(env, x, holders, r))
  {
    hide Expanded, Merged, HasNoAllow, HasAllow, HasDeny, HasFlag, Denies, Allows, DeniesFlag, Present, Holders;
    var asset := Lookup(env, assetID);
    var groups := GroupsOf(env, asset);
    var holders := Holders(asset, groups);
    TypedArePresent(x, k, asset, groups);
    var merged := Merged(env, k, Present(x, holders), NO_LISTS);
    MergedDeny(env, k, x, holders, NO_LISTS, r);
    forall q ensures q in merged.allow <==> IsNearest(env, x, holders, q) { MergedAllow(env, k, x, holders, NO_LISTS, q); }
    NothingNearest(env, x, holders);
    assert merged.allow == [] <==> forall q :: !IsNearest(env, x, holders, q) by {
      if merged.allow != [] { assert merged.allow[0] in merged.allow; }
    }
    ExpandedRules(env, k, Default(k), r);
    EffectiveRules(env, k, merged, r);
  }

  lemma EffectiveRules(env: Env, k: Kind, custom: Lists, r: string)
    ensures var e, builtIn := Effective(env, k, custom), Expanded(env, k, Default(k));
            && (r in e.deny <==> r in custom.deny || r in builtIn.deny)
            && (r in e.flags <==> r in custom.flags || r in builtIn.flags)
            && (r in e.allow <==> if custom.allow != [] then r in custom.allow else r in builtIn.allow)
  {
    hide Expanded;
    var d := Expanded(env, k, Default(k));
    UniqueIsUnion([], if custom.allow != [] then custom.allow else d.allow);
    UniqueIsUnion([], custom.deny);
    UniqueIsUnion(Unique([], custom.deny), d.deny);
    UniqueIsUnion([], custom.flags);
    UniqueIsUnion(Unique([], custom.flags), d.flags);
  }

  // The general rules and the grants

  lemma {:induction false} GroupRulesOrigin(env: Env, groups: seq<Group>, r: string)
    ensures r in GroupRules(env, groups).deny
       <==> exists g | g in groups && g.policies.command.Some? :: Denies(env, Command, g.policies.command.value, r)
    ensures r in GroupRules(env, groups).allow
       <==> exists g | g in groups && g.policies.command.Some? :: Allows(env, Command, g.policies.command.value, r)
  {
    if groups != [] {
      GroupRulesOrigin(env, groups[1..], r);
      assert groups == [groups[0]] + groups[1..];
    }
  }

  lemma GeneralVerdictMeans(env: Env, groups: seq<Group>, units: seq<string>, m: MatchFunc)
    requires units != []
    ensures var v := GenericVerdict(GroupRules(env, groups), units, m);
            && (v == Deny <==> exists u | u in units :: GroupDenies(env, groups, m, u))
            && (v == Allow <==> v != Deny && forall u | u in units :: GroupAllows(env, groups, m, u))
  {
    hide Denies, Allows;
    var rules := GroupRules(env, groups);
    forall u ensures AnyMatch(rules.deny, u, m) <==> GroupDenies(env, groups, m, u) {
      if r :| r in rules.deny && m(r, u) { GroupRulesOrigin(env, groups, r); }
      if GroupDenies(env, groups, m, u) {
        var g, r :| g in groups && g.policies.command.Some?
                    && Denies(env, Command, g.policies.command.value, r) && m(r, u);
        GroupRulesOrigin(env, groups, r);
      }
    }
    forall u ensures AnyMatch(rules.allow, u, m) <==> GroupAllows(env, groups, m, u) {
      if r :| r in rules.allow && m(r, u) { GroupRulesOrigin(env, groups, r); }
      if GroupAllows(env, groups, m, u) {
        var g, r :| g in groups && g.policies.command.Some?
                    && Allows(env, Command, g.policies.command.value, r) && m(r, u);
        GroupRulesOrigin(env, groups, r);
      }
    }
    assert units[0] in units;
  }

  lemma GrantsCoverMeans(items: seq<GrantItem>, assetID: int, groups: seq<Group>, units: seq<string>)
    requires units != []
    ensures GrantsCover(items, assetID, groups, units) <==> forall u | u in units :: IsGranted(items, assetID, groups, u)
  {
    hide MatchCommandRule;
    forall u ensures AnyMatch(Granted(items, assetID, groups), u, MatchCommandRule)
                <==> IsGranted(items, assetID, groups, u) {
      if c :| c in Granted(items, assetID, groups) && MatchCommandRule(c, u) {
        GrantedMember(items, assetID, groups, c);
      }
      if it :| it in items && IsFor(it, assetID, groups) && MatchCommandRule(it.command, u) {
        GrantedMember(items, assetID, groups, it.command);
      }
    }
  }

  // The decisions

  lemma SameMatching(env: Env, groups: seq<Group>, m: MatchFunc, n: MatchFunc, u: string)
    requires forall r :: m(r, u) == n(r, u)
    ensures GroupDenies(env, groups, m, u) == GroupDenies(env, groups, n, u)
    ensures GroupAllows(env, groups, m, u) == GroupAllows(env, groups, n, u)
  {
    hide Denies, Allows;
  }

  lemma GeneralLayer(env: Env, k: Kind, x: Scheme, groups: seq<Group>, units: seq<string>)
    requires IsSchemeOf(x, k) && units != []
    ensures var v := GenericVerdict(GroupRules(env, groups), units, MatcherOf(k));
            && (v == Deny <==> exists u | u in units :: GroupDenies(env, groups, x.m, u))
            && (v == Allow <==> v != Deny && forall u | u in units :: GroupAllows(env, groups, x.m, u))
  {
    hide GroupDenies, GroupAllows, GenericVerdict, GroupRules;
    GeneralVerdictMeans(env, groups, units, MatcherOf(k));
    forall u ensures GroupDenies(env, groups, x.m, u) == GroupDenies(env, groups, MatcherOf(k), u)
                  && GroupAllows(env, groups, x.m, u) == GroupAllows(env, groups, MatcherOf(k), u) {
      SameMatching(env, groups, x.m, MatcherOf(k), u);
    }
  }

  lemma ListLayer(env: Env, k: Kind, x: Scheme, assetID: int, units: seq<string>)
    requires IsSchemeOf(x, k)
    ensures var v := ListVerdict(Gathered(env, k, assetID), units, MatcherOf(k));
            var holders := Holders(Lookup(env, assetID), GroupsOf(env, Lookup(env, assetID)));
            && (v == Deny <==> exists u | u in units :: IsDenied(env, x, holders, u))
            && (v == Allow <==> v != Deny && forall u | u in units :: IsAllowed(env, x, holders, u))
  {
    hide IsDenyRule, IsAllowRule, Gathered, Holders, MatcherOf, IsDenyFlag;
    var g, holders := Gathered(env, k, assetID), Holders(Lookup(env, assetID), GroupsOf(env, Lookup(env, assetID)));
    forall r ensures (r in g.deny <==> IsDenyRule(env, x, holders, r)) && (r in g.allow <==> IsAllowRule(env, x, holders, r)) {
      GatheredRules(env, k, x, assetID, r);
    }
    forall u ensures AnyMatch(g.deny, u, MatcherOf(k)) <==> IsDenied(env, x, holders, u) {}
    assert g.allow == [] <==> HasNoAllowRule(env, x, holders) by {
      if g.allow != [] { assert g.allow[0] in g.allow; }
    }
    forall u ensures g.allow == [] || AnyMatch(g.allow, u, MatcherOf(k)) <==> IsAllowed(env, x, holders, u) {}
    if units == [] {
      assert Covered(g.allow, units, MatcherOf(k));
    }
  }

  lemma UnitsAreDecided(env: Env, k: Kind, x: Scheme, assetID: int, items: seq<GrantItem>, command: string)
    requires k in {Redis, K8s} && IsSchemeOf(x, k) && WorkOf(env, k, command).Work?
    ensures var units := set u | u in WorkOf(env, k, command).units;
            DecidesUnits(env, x, assetID, items, units, TypedDecision(env, k, assetID, items, command))
  {
    hide GroupDenies, GroupAllows, IsDenied, IsAllowed, IsGranted, GenericVerdict, ListVerdict, GrantsCover, Effective, Merged;
    hide GroupRules, MatcherOf, Holders, TypedPolicies;
    var w := WorkOf(env, k, command);
    var groups := GroupsOf(env, Lookup(env, assetID));
    WorkHasUnits(env, k, command);
    GeneralLayer(env, k, x, groups, w.units);
    ListLayer(env, k, x, assetID, w.units);
    GrantsCoverMeans(items, assetID, groups, w.units);
  }

  lemma StatementsAreDecided(env: Env, x: Scheme, assetID: int, items: seq<GrantItem>, command: string)
    requires IsSchemeOf(x, Query) && WorkOf(env, Query, command).Work?
    ensures var w := WorkOf(env, Query, command);
            DecidesStatements(env, x, assetID, items, w.stmts, (set u | u in w.units),
                              TypedDecision(env, Query, assetID, items, command))
  {
    hide GroupDenies, GroupAllows, IsGranted, GenericVerdict, QueryVerdict, GrantsCover, Effective, Merged;
    hide GroupRules, MatcherOf, Holders, TypedPolicies, TypePasses, TypeDenied;
    var w := WorkOf(env, Query, command);
    var groups := GroupsOf(env, Lookup(env, assetID));
    WorkHasUnits(env, Query, command);
    GeneralLayer(env, Query, x, groups, w.units);
    StatementLayer(env, x, assetID, w.stmts);
    GrantsCoverMeans(items, assetID, groups, w.units);
  }

  lemma StatementLayer(env: Env, x: Scheme, assetID: int, stmts: seq<StatementInfo>)
    requires IsSchemeOf(x, Query)
    ensures var v := QueryVerdict(Gathered(env, Query, assetID), stmts);
            var holders := Holders(Lookup(env, assetID), GroupsOf(env, Lookup(env, assetID)));
            && (v == Deny <==>
                  exists i | 0 <= i < |stmts| ::
                    TypeDenied(env, x, holders, stmts[i]) && forall j | 0 <= j < i :: TypePasses(env, x, holders, stmts[j]))
            && (v == Allow <==> forall s | s in stmts :: TypePasses(env, x, holders, s))
  {
    hide Gathered, Holders, QueryVerdict, TypeDenied, TypePasses, StatementDenied, Clear, IsSchemeOf;
    var g, holders := Gathered(env, Query, assetID), Holders(Lookup(env, assetID), GroupsOf(env, Lookup(env, assetID)));
    QueryVerdictExactly(g, stmts);
    forall s ensures (StatementDenied(g, s) <==> TypeDenied(env, x, holders, s))
                  && (Clear(g, s) <==> TypePasses(env, x, holders, s)) {
      StatementClear(env, x, assetID, s);
    }
    AllInOrder(g, stmts);
  }

  lemma AllInOrder(g: Lists, stmts: seq<StatementInfo>)
    ensures (forall i | 0 <= i < |stmts| :: Clear(g, stmts[i])) <==> forall s | s in stmts :: Clear(g, s)
  {
    hide Clear;
  }

  lemma StatementClear(env: Env, x: Scheme, assetID: int, s: StatementInfo)
    requires IsSchemeOf(x, Query)
    ensures var g := Gathered(env, Query, assetID);
            var holders := Holders(Lookup(env, assetID), GroupsOf(env, Lookup(env, assetID)));
            && (StatementDenied(g, s) <==> TypeDenied(env, x, holders, s))
            && (Clear(g, s) <==> TypePasses(env, x, holders, s))
  {
    hide Gathered, Holders, TypeDenied, TypeAllowed, StatementDenied, StatementAllowed;
    StatementMeans(env, x, assetID, s);
  }

  lemma StatementMeans(env: Env, x: Scheme, assetID: int, s: StatementInfo)
    requires IsSchemeOf(x, Query)
    ensures var g := Gathered(env, Query, assetID);
            var holders := Holders(Lookup(env, assetID), GroupsOf(env, Lookup(env, assetID)));
            && (StatementDenied(g, s) <==> TypeDenied(env, x, holders, s))
            && (StatementAllowed(g, s) <==> TypeAllowed(env, x, holders, s))
  {
    hide Gathered, Holders, IsDenyRule, IsAllowRule, IsDenyFlag, PolicyValueMatches;
    var g, holders := Gathered(env, Query, assetID), Holders(Lookup(env, assetID), GroupsOf(env, Lookup(env, assetID)));
    forall r ensures (r in g.deny <==> IsDenyRule(env, x, holders, r)) && (r in g.allow <==> IsAllowRule(env, x, holders, r))
                  && (r in g.flags <==> IsDenyFlag(env, x, holders, r)) {
      GatheredRules(env, Query, x, assetID, r);
    }
    if g.allow != [] { assert g.allow[0] in g.allow; }
  }

  // Kind by kind

  const REDIS := Scheme((ps: Policies) => ps.redis, Redis, ["builtin:redis-readonly", "builtin:redis-dangerous-deny"],
                        (r, c) => MatchRedisRule(r, c))

  const K8S := Scheme((ps: Policies) => ps.k8s, Command, ["builtin:k8s-readonly", "builtin:k8s-dangerous-deny"],
                      (r, c) => MatchCommandRule(r, c))

  const QUERY := Scheme((ps: Policies) => ps.query, Query, ["builtin:sql-readonly", "builtin:sql-dangerous-deny"],
                        (r, c) => MatchCommandRule(r, c))

  /** A Redis command is one unit. */
  lemma RedisDecisionExactly(env: Env, assetID: int, items: seq<GrantItem>, command: string)
    ensures DecidesUnits(env, REDIS, assetID, items, {command}, RuntimeDecision(env, Redis, assetID, items, command))
  {
    hide DecidesUnits, TypedDecision, MatchRedisRule;
    UnitsAreDecided(env, Redis, REDIS, assetID, items, command);
    assert (set u | u in WorkOf(env, Redis, command).units) == {command};
  }

  /** A Kubernetes command is judged by the units of its parsed statements, and without any the user is asked. */
  lemma K8sDecisionExactly(env: Env, assetID: int, items: seq<GrantItem>, command: string)
    ensures var parsed, d := env.parseShell(command), RuntimeDecision(env, K8s, assetID, items, command);
            if parsed == None || Shell.UnitsOf(parsed.value) == [] then d == NeedConfirm
            else DecidesUnits(env, K8S, assetID, items, (set u | u in Shell.UnitsOf(parsed.value)), d)
  {
    hide DecidesUnits, MatchCommandRule;
    if WorkOf(env, K8s, command).Work? {
      hide TypedDecision;
      UnitsAreDecided(env, K8s, K8S, assetID, items, command);
    }
  }

  lemma {:induction false} RawTextsAre(stmts: seq<StatementInfo>)
    ensures forall u :: u in RawTexts(stmts) <==> exists s | s in stmts :: TrimSpace(s.raw) != "" && u == TrimSpace(s.raw)
  {
    hide TrimSpace;
    if stmts != [] {
      RawTextsAre(stmts[1..]);
      assert stmts == [stmts[0]] + stmts[1..];
    }
  }

  /** SQL that cannot be parsed, or has no statement, is denied; otherwise types are judged one by one, and the general
      rules and grants see the texts of the statements. */
  lemma QueryDecisionExactly(env: Env, assetID: int, items: seq<GrantItem>, command: string)
    ensures var parsed, d := env.parseSql(command), RuntimeDecision(env, Query, assetID, items, command);
            if parsed == None || parsed.value == [] then d == Deny
            else DecidesStatements(env, QUERY, assetID, items, parsed.value, SqlUnits(parsed.value, command), d)
  {
    hide DecidesStatements, MatchCommandRule, TrimSpace;
    if WorkOf(env, Query, command).Work? {
      hide TypedDecision;
      StatementsAreDecided(env, QUERY, assetID, items, command);
      var w, stmts := WorkOf(env, Query, command), env.parseSql(command).value;
      RawTextsAre(stmts);
      assert RawTexts(stmts) == [] <==> forall s | s in stmts :: TrimSpace(s.raw) == "" by {
        if RawTexts(stmts) != [] { assert RawTexts(stmts)[0] in RawTexts(stmts); }
        if s :| s in stmts && TrimSpace(s.raw) != "" { assert TrimSpace(s.raw) in RawTexts(stmts); }
      }
      assert (set u | u in w.units) == SqlUnits(stmts, command);
    }
  }

  // Terminals

  const COMMAND := Scheme((ps: Policies) => ps.command, Command, [], (r, c) => MatchCommandRule(r, c))

  ghost predicate HolderDenies(env: Env, holders: seq<Policies>, unit: string) {
    exists h, r | h in holders && HasDeny(env, COMMAND, h, r) :: MatchCommandRule(r, unit)
  }

  ghost predicate HolderAllows(env: Env, holders: seq<Policies>, unit: string) {
    exists h, r | h in holders && HasAllow(env, COMMAND, h, r) :: MatchCommandRule(r, unit)
  }

  /** Commands on a terminal are judged without built-in rules, and the allow rules of all holders add up as well. The
      source of the answer says which layer gave it. */
  lemma CommandDecisionByPolicies(env: Env, assetID: int, items: seq<GrantItem>, command: string)
    ensures var parsed, (d, source) := env.parseShell(command), CommandDecision(env, assetID, items, command);
            var groups := GroupsOf(env, Lookup(env, assetID));
            var holders := Holders(Lookup(env, assetID), groups);
            && d == RuntimeDecision(env, Command, assetID, items, command)
            && if parsed == None || Shell.UnitsOf(parsed.value) == [] then d == NeedConfirm && source == NoSource
               else
                 var units := Shell.UnitsOf(parsed.value);
                 && (d == Deny <==> source == PolicyDeny)
                 && (d == Deny <==> exists u | u in units :: HolderDenies(env, holders, u))
                 && (source == PolicyAllow <==> d != Deny && forall u | u in units :: HolderAllows(env, holders, u))
                 && (source == GrantAllow <==>
                       && d != Deny && source != PolicyAllow
                       && forall u | u in units :: IsGranted(items, assetID, groups, u))
                 && (d == Allow <==> source in {PolicyAllow, GrantAllow})
  {
    hide MatchCommandRule, GrantsCover, IsGranted, HolderDenies, HolderAllows, CommandRules, Holders;
    var units := ShellUnits(env, command);
    if units != [] {
      var asset := Lookup(env, assetID);
      var groups := GroupsOf(env, asset);
      var rules := CommandRules(env, CommandPoliciesOf(asset, groups));
      forall u ensures (AnyMatch(rules.deny, u, MatchCommandRule) <==> HolderDenies(env, Holders(asset, groups), u))
                    && (AnyMatch(rules.allow, u, MatchCommandRule) <==> HolderAllows(env, Holders(asset, groups), u)) {
        HoldersMatch(env, asset, groups, u);
      }
      GrantsCoverMeans(items, assetID, groups, units);
      assert units[0] in units;
      assert Covered(rules.allow, units, MatchCommandRule) ==> rules.allow != [];
    }
  }

  lemma HoldersMatch(env: Env, asset: Option<Asset>, groups: seq<Group>, u: string)
    ensures var rules, holders := CommandRules(env, CommandPoliciesOf(asset, groups)), Holders(asset, groups);
            && (AnyMatch(rules.deny, u, MatchCommandRule) <==> HolderDenies(env, holders, u))
            && (AnyMatch(rules.allow, u, MatchCommandRule) <==> HolderAllows(env, holders, u))
  {
    hide MatchCommandRule, HasDeny, HasAllow, CommandRules, Holders, CommandPoliciesOf;
    var rules, holders := CommandRules(env, CommandPoliciesOf(asset, groups)), Holders(asset, groups);
    forall r ensures (r in rules.deny <==> exists h | h in holders :: HasDeny(env, COMMAND, h, r))
                  && (r in rules.allow <==> exists h | h in holders :: HasAllow(env, COMMAND, h, r)) {
      CommandRuleOrigin(env, asset, groups, r);
    }
  }

  lemma {:induction false} PresentMember(x: Scheme, holders: seq<Policies>, p: Policy)
    ensures p in Present(x, holders) <==> exists h | h in holders :: x.stored(h) == Some(p)
  {
    if holders != [] {
      PresentMember(x, holders[1..], p);
      assert holders == [holders[0]] + holders[1..];
    }
  }

  lemma CommandRuleOrigin(env: Env, asset: Option<Asset>, groups: seq<Group>, r: string)
    ensures var rules, holders := CommandRules(env, CommandPoliciesOf(asset, groups)), Holders(asset, groups);
            && (r in rules.deny <==> exists h | h in holders :: HasDeny(env, COMMAND, h, r))
            && (r in rules.allow <==> exists h | h in holders :: HasAllow(env, COMMAND, h, r))
  {
    hide Expanded, Holders, Denies, Allows;
    var policies, holders := CommandPoliciesOf(asset, groups), Holders(asset, groups);
    TypedArePresent(COMMAND, Command, asset, groups);
    RuleOrigin(env, policies, r);
    forall p ensures p in policies <==> exists h | h in holders :: COMMAND.stored(h) == Some(p) {
      PresentMember(COMMAND, holders, p);
    }
    forall p ensures (r in Expanded(env, Command, p).deny <==> Denies(env, Command, p, r))
                  && (r in Expanded(env, Command, p).allow <==> Allows(env, Command, p, r)) {
      ExpandedRules(env, Command, p, r);
    }
    forall h | h in holders && HasDeny(env, COMMAND, h, r) ensures COMMAND.stored(h).value in policies {}
    forall h | h in holders && HasAllow(env, COMMAND, h, r) ensures COMMAND.stored(h).value in policies {}
  }

  // Groups

  /** The id of the i-th group upwards. */
  function AncestorID(env: Env, id: int, i: nat): int {
    if i == 0 then id
    else
      var below := AncestorID(env, id, i - 1);
      if below in env.groups then env.groups[below].parentID else 0
  }

  predicate IsFound(env: Env, id: int) {
    id > 0 && id in env.groups
  }

  /** A chain is the group with its ancestors, the nearest first. It stops after `depth` groups, cycles or not, and before
      the first that is not found. */
  lemma {:induction false} ChainIsTheAncestors(env: Env, id: int, depth: nat)
    ensures var c := Chain(env, id, depth);
            && |c| <= depth
            && (forall i | 0 <= i < |c| :: IsFound(env, AncestorID(env, id, i)) && c[i] == env.groups[AncestorID(env, id, i)])
            && (|c| < depth ==> !IsFound(env, AncestorID(env, id, |c|)))
    decreases depth
  {
    if depth > 0 && IsFound(env, id) {
      var parent := env.groups[id].parentID;
      var c, up := Chain(env, id, depth), Chain(env, parent, depth - 1);
      ChainIsTheAncestors(env, parent, depth - 1);
      forall i | 0 <= i <= |up| ensures AncestorID(env, id, i + 1) == AncestorID(env, parent, i) {
        AncestorStep(env, id, i);
      }
      assert c == [env.groups[id]] + up;
      forall i | 0 < i < |c| ensures AncestorID(env, id, i) == AncestorID(env, parent, i - 1) {
        AncestorStep(env, id, i - 1);
      }
    }
  }

  lemma {:induction false} AncestorStep(env: Env, id: int, i: nat)
    requires id in env.groups
    ensures AncestorID(env, id, i + 1) == AncestorID(env, env.groups[id].parentID, i)
  {
    if i > 0 {
      AncestorStep(env, id, i - 1);
    }
  }

  // A consequence

  /** The built-in deny rules hold whatever the asset's own policy allows. */
  lemma BuiltInDenyHolds(env: Env, assetID: int, items: seq<GrantItem>, s: StatementInfo, command: string)
    requires env.parseSql(command) == Some([s])
    requires s.kind in env.resolve(Query, ["builtin:sql-readonly", "builtin:sql-dangerous-deny"]).deny
    ensures RuntimeDecision(env, Query, assetID, items, command) == Deny
  {
    hide RuntimeDecision, IsDenied, GroupDenies, AnotherLayerAllows, TypePasses;
    QueryDecisionExactly(env, assetID, items, command);
    var holders := Holders(Lookup(env, assetID), GroupsOf(env, Lookup(env, assetID)));
    assert IsDenyRule(env, QUERY, holders, s.kind) && PolicyValueMatches(s.kind, s.kind);
    assert TypeDenied(env, QUERY, holders, [s][0]);
  }
}
