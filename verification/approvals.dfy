/** Asking the user: what an approval stores, and what it means for the next check of the same command. */
module Approvals {
  import opened Text
  import opened CommandRule
  import opened PolicyModel
  import opened Permission
  import Shell

  datatype AssetType = SSH | Serial | Database | RedisAsset | K8sAsset {
    function Kind(): Kind {
      match this
      case SSH => Command case Serial => Command case Database => Query case RedisAsset => Redis case K8sAsset => K8s
    }
  }

  datatype Status = Pending | Approved | Rejected

  datatype StoredItem = StoredItem(session: string, item: GrantItem)

  /** The grant tables. */
  datatype Store = Store(sessions: map<string, Status>, items: seq<StoredItem>)

  // Reading and writing grants

  function ItemsOf(items: seq<StoredItem>, session: string): seq<GrantItem> {
    if items == [] then []
    else (if items[0].session == session then [items[0].item] else []) + ItemsOf(items[1..], session)
  }

  /** ListApprovedItems: the items of a session whose status is approved. */
  function ListApproved(s: Store, session: string): seq<GrantItem> {
    if session in s.sessions && s.sessions[session] == Approved then ItemsOf(s.items, session) else []
  }

  function ItemFor(session: string, assetID: int, pattern: string): StoredItem {
    StoredItem(session, GrantItem(assetID, 0, pattern))
  }

  /** Creates the session, approved, if there is none, and adds the pattern. */
  function SavedOne(s: Store, session: string, assetID: int, pattern: string): Store {
    if session == "" || pattern == "" then s
    else Store(if session in s.sessions then s.sessions else s.sessions[session := Approved],
               s.items + [ItemFor(session, assetID, pattern)])
  }

  function Saved(s: Store, session: string, assetID: int, patterns: seq<string>): Store
    decreases |patterns|
  {
    if patterns == [] then s else Saved(SavedOne(s, session, assetID, patterns[0]), session, assetID, patterns[1..])
  }

  class GrantRepo {
    var sessions: map<string, Status>
    var items: seq<StoredItem>

    function View(): Store
      reads this
    {
      Store(sessions, items)
    }

    method SaveGrantPattern(session: string, assetID: int, command: string)
      modifies this
      ensures View() == SavedOne(old(View()), session, assetID, command)
    {
      if session == "" || command == "" {
        return;
      }
      if session !in sessions {
        sessions := sessions[session := Approved];
      }
      items := items + [ItemFor(session, assetID, command)];
    }
  }

  lemma {:induction false} SavedAppend(s: Store, session: string, assetID: int, patterns: seq<string>, p: string)
    ensures Saved(s, session, assetID, patterns + [p]) == SavedOne(Saved(s, session, assetID, patterns), session, assetID, p)
    decreases |patterns|
  {
    hide SavedOne;
    if patterns == [] {
      assert patterns + [p] == [p] && [p][1..] == [];
    } else {
      assert (patterns + [p])[0] == patterns[0] && (patterns + [p])[1..] == patterns[1..] + [p];
      SavedAppend(SavedOne(s, session, assetID, patterns[0]), session, assetID, patterns[1..], p);
    }
  }

  // Patterns of an approval

  predicate IsShellLike(t: AssetType) {
    t == SSH || t == K8sAsset
  }

  function FirstLine(s: string): (line: string)
    ensures line <= s
  {
    if s == "" || s[0] == '\n' then "" else [s[0]] + FirstLine(s[1..])
  }

  function Lines(s: string): seq<string>
    decreases |s|
  {
    var line := FirstLine(s);
    if line == s then [s] else [line] + Lines(s[|line| + 1..])
  }

  function LinePatterns(env: Env, line: string): seq<string> {
    var t := TrimSpace(line);
    if t == "" then [] else if ShellUnits(env, t) == [] then [t] else ShellUnits(env, t)
  }

  function LinesPatterns(env: Env, lines: seq<string>): seq<string> {
    if lines == [] then [] else LinePatterns(env, lines[0]) + LinesPatterns(env, lines[1..])
  }

  /** Shell commands are stored unit by unit, line by line; everything else as it is. */
  function Normalized(env: Env, t: AssetType, command: string): seq<string> {
    var cmd := TrimSpace(command);
    if cmd == "" then [] else if !IsShellLike(t) then [cmd] else LinesPatterns(env, Lines(cmd))
  }

  function AllNormalized(env: Env, t: AssetType, commands: seq<string>): seq<string> {
    if commands == [] then [] else Normalized(env, t, commands[0]) + AllNormalized(env, t, commands[1..])
  }

  /** What an approval for the session stores: the edited commands, or else the command itself. */
  function Patterns(env: Env, t: AssetType, command: string, edited: seq<string>): seq<string> {
    var fromEdits := AllNormalized(env, t, edited);
    var patterns := if fromEdits == [] then Normalized(env, t, command) else fromEdits;
    if patterns == [] then [command] else patterns
  }

  method NormalizeGrantPatterns(env: Env, t: AssetType, command: string) returns (patterns: seq<string>)
    ensures patterns == Normalized(env, t, command)
  {
    hide TrimSpace, ShellUnits, Lines;
    var cmd := TrimSpace(command);
    if cmd == "" {
      return [];
    }
    if !IsShellLike(t) {
      return [cmd];
    }
    patterns := NormalizeLines(env, Lines(cmd));
  }

  lemma LinesStep(env: Env, lines: seq<string>, i: nat)
    requires i < |lines|
    ensures LinesPatterns(env, lines[i..]) == LinePatterns(env, lines[i]) + LinesPatterns(env, lines[i + 1..])
  {
    assert lines[i..][0] == lines[i] && lines[i..][1..] == lines[i + 1..];
  }

  method NormalizeLine(env: Env, text: string) returns (patterns: seq<string>)
    ensures patterns == LinePatterns(env, text)
  {
    hide TrimSpace, ShellUnits;
    var line := TrimSpace(text);
    patterns := [];
    if line != "" {
      var units := ShellUnits(env, line);
      patterns := if |units| == 0 then [line] else units;
    }
  }

  method NormalizeLines(env: Env, lines: seq<string>) returns (patterns: seq<string>)
    ensures patterns == LinesPatterns(env, lines)
  {
    hide LinePatterns;
    patterns := [];
    for i := 0 to |lines|
      invariant patterns + LinesPatterns(env, lines[i..]) == LinesPatterns(env, lines)
    {
      LinesStep(env, lines, i);
      var more := NormalizeLine(env, lines[i]);
      patterns := patterns + more;
    }
  }

  // What an approval stores

  /** The text between two line breaks, or before the first, or after the last. */
  ghost predicate IsLineAt(s: string, line: string, i: nat) {
    var j := i + |line|;
    && j <= |s| && s[i..j] == line && '\n' !in line
    && (i > 0 ==> s[i - 1] == '\n') && (j < |s| ==> s[j] == '\n')
  }

  ghost predicate IsLine(s: string, line: string) {
    exists i | 0 <= i <= |s| :: IsLineAt(s, line, i)
  }

  /** A line that is not blank is stored as the units of the command it holds, or as it is if it holds none. */
  ghost predicate IsFromLine(env: Env, line: string, pattern: string) {
    var parsed := env.parseShell(TrimSpace(line));
    && TrimSpace(line) != ""
    && if parsed.Some? && Shell.UnitsOf(parsed.value) != [] then pattern in Shell.UnitsOf(parsed.value)
       else pattern == TrimSpace(line)
  }

  /** What one text is stored as: line by line where commands are shell commands, and otherwise as it is. */
  ghost predicate IsFrom(env: Env, t: AssetType, text: string, pattern: string) {
    && TrimSpace(text) != ""
    && if t in {SSH, K8sAsset} then exists line :: IsLine(TrimSpace(text), line) && IsFromLine(env, line, pattern)
       else pattern == TrimSpace(text)
  }

  /** The edits count as soon as one of them is not blank; otherwise the command does. */
  ghost predicate IsToStore(env: Env, t: AssetType, command: string, edited: seq<string>, pattern: string) {
    if exists e | e in edited :: TrimSpace(e) != "" then exists e | e in edited :: IsFrom(env, t, e, pattern)
    else if TrimSpace(command) != "" then IsFrom(env, t, command, pattern)
    else pattern == command
  }

  lemma {:induction false} FirstLineEnds(s: string)
    ensures var line := FirstLine(s);
            '\n' !in line && (line != s ==> |line| < |s| && s[|line|] == '\n')
  {
    if s != "" && s[0] != '\n' {
      FirstLineEnds(s[1..]);
      assert FirstLine(s)[1..] == FirstLine(s[1..]);
    }
  }

  lemma {:induction false} LinesExactly(s: string, line: string)
    ensures line in Lines(s) <==> IsLine(s, line)
    decreases |s|
  {
    var first := FirstLine(s);
    FirstLineEnds(s);
    if first == s {
      assert line == s ==> IsLineAt(s, line, 0);
    } else {
      LinesExactly(s[|first| + 1..], line);
      LineStep(s, line);
    }
  }

  lemma LineStep(s: string, line: string)
    requires FirstLine(s) != s
    ensures var first := FirstLine(s);
            |first| < |s| && (IsLine(s, line) <==> line == first || IsLine(s[|first| + 1..], line))
  {
    hide IsLineAt;
    var first := FirstLine(s);
    FirstLineEnds(s);
    var n := |first| + 1;
    var rest := s[n..];
    forall i | 0 <= i <= |rest| ensures IsLineAt(rest, line, i) <==> IsLineAt(s, line, i + n) { LaterLine(s, n, line, i); }
    FirstIsLine(s);
    if i :| 0 <= i <= |s| && IsLineAt(s, line, i) {
      if i == 0 {
        FirstBreak(s, line);
      } else {
        NoBreakBefore(s, line, i);
        assert IsLineAt(rest, line, i - n);
      }
    }
    if i :| 0 <= i <= |rest| && IsLineAt(rest, line, i) {
      assert IsLineAt(s, line, i + n);
    }
  }

  lemma LaterLine(s: string, n: nat, line: string, i: nat)
    requires 0 < n <= |s| && s[n - 1] == '\n' && i <= |s[n..]|
    ensures IsLineAt(s[n..], line, i) <==> IsLineAt(s, line, i + n)
  {
    if i + |line| <= |s[n..]| {
      assert s[n..][i..i + |line|] == s[i + n..i + n + |line|];
    }
  }

  lemma FirstIsLine(s: string)
    ensures IsLineAt(s, FirstLine(s), 0)
  {
    FirstLineEnds(s);
  }

  lemma NoBreakBefore(s: string, line: string, i: nat)
    requires 0 < i <= |s| && IsLineAt(s, line, i)
    ensures i > |FirstLine(s)|
  {
    FirstLineEnds(s);
    assert forall q | 0 <= q < |FirstLine(s)| :: s[q] == FirstLine(s)[q];
  }

  lemma FirstBreak(s: string, line: string)
    requires IsLineAt(s, line, 0) && FirstLine(s) != s
    ensures line == FirstLine(s)
  {
    var first := FirstLine(s);
    FirstLineEnds(s);
    assert forall q | 0 <= q < |first| :: s[q] == first[q];
    assert forall q | 0 <= q < |line| :: s[q] == line[q];
  }

  lemma {:induction false} LinesPatternsMember(env: Env, lines: seq<string>, p: string)
    ensures p in LinesPatterns(env, lines) <==> exists l | l in lines :: IsFromLine(env, l, p)
  {
    hide TrimSpace;
    if lines != [] {
      LinesPatternsMember(env, lines[1..], p);
      assert lines == [lines[0]] + lines[1..];
      assert p in LinePatterns(env, lines[0]) <==> IsFromLine(env, lines[0], p);
    }
  }

  lemma NormalizedExactly(env: Env, t: AssetType, text: string, p: string)
    ensures p in Normalized(env, t, text) <==> IsFrom(env, t, text, p)
  {
    hide TrimSpace, Lines, LinePatterns, IsFromLine;
    var lines := Lines(TrimSpace(text));
    LinesPatternsMember(env, lines, p);
    forall l ensures l in lines <==> IsLine(TrimSpace(text), l) { LinesExactly(TrimSpace(text), l); }
    hide IsLine;
  }

  /** Only a blank text is stored as nothing. */
  lemma BlankIsNotNormalized(env: Env, t: AssetType, text: string)
    ensures Normalized(env, t, text) == [] <==> TrimSpace(text) == ""
  {
    var cmd := TrimSpace(text);
    if cmd != "" && IsShellLike(t) {
      TrimLeftEdge(text);
      TrimRightEdge(TrimLeft(text));
      assert !IsSpace(cmd[0]);
      var line := FirstLine(cmd);
      assert "" + [cmd[0]] == [cmd[0]];
      StartedFieldStays([line[0]], line[1..]);
      BlankHasNoFields(line);
      assert Lines(cmd)[0] == line && LinePatterns(env, line) != [];
    }
  }

  lemma {:induction false} AllNormalizedExactly(env: Env, t: AssetType, edited: seq<string>, p: string)
    ensures p in AllNormalized(env, t, edited) <==> exists e | e in edited :: IsFrom(env, t, e, p)
    ensures AllNormalized(env, t, edited) == [] <==> forall e | e in edited :: TrimSpace(e) == ""
  {
    hide TrimSpace, Normalized, IsFrom;
    if edited != [] {
      AllNormalizedExactly(env, t, edited[1..], p);
      NormalizedExactly(env, t, edited[0], p);
      BlankIsNotNormalized(env, t, edited[0]);
      assert edited == [edited[0]] + edited[1..];
    }
  }

  lemma PatternsExactly(env: Env, t: AssetType, command: string, edited: seq<string>, p: string)
    ensures p in Patterns(env, t, command, edited) <==> IsToStore(env, t, command, edited, p)
  {
    hide TrimSpace, Normalized, IsFrom, AllNormalized;
    AllNormalizedExactly(env, t, edited, p);
    NormalizedExactly(env, t, command, p);
    BlankIsNotNormalized(env, t, command);
  }

  predicate HasText(patterns: seq<string>) {
    exists p | p in patterns :: p != ""
  }

  lemma TextStep(patterns: seq<string>)
    requires patterns != []
    ensures HasText(patterns) <==> patterns[0] != "" || HasText(patterns[1..])
  {
    assert patterns == [patterns[0]] + patterns[1..];
    assert patterns[0] in patterns;
    if HasText(patterns[1..]) {
      var p :| p in patterns[1..] && p != "";
      assert p in patterns;
    }
  }

  /** The items of the table after saving, and its sessions. */
  lemma {:induction false} SavedExactly(s: Store, session: string, assetID: int, patterns: seq<string>)
    ensures var after := Saved(s, session, assetID, patterns);
            && s.items <= after.items
            && (forall it :: it in after.items
                  <==> it in s.items || (session != "" && exists p | p in patterns && p != "" :: it == ItemFor(session, assetID, p)))
            && after.sessions == (if session != "" && session !in s.sessions && HasText(patterns)
                                  then s.sessions[session := Approved] else s.sessions)
    decreases |patterns|
  {
    if patterns != [] {
      var next := SavedOne(s, session, assetID, patterns[0]);
      SavedExactly(next, session, assetID, patterns[1..]);
      TextStep(patterns);
      assert patterns == [patterns[0]] + patterns[1..];
      assert session != "" && session !in next.sessions ==> patterns[0] == "";
    }
  }

  // Confirmation

  datatype Response = DenyIt | AllowOnce | AllowAll(edited: seq<string>)

  method GatherPatterns(env: Env, t: AssetType, command: string, edited: seq<string>) returns (patterns: seq<string>)
    ensures patterns == Patterns(env, t, command, edited)
  {
    hide Normalized;
    patterns := [];
    for i := 0 to |edited|
      invariant patterns + AllNormalized(env, t, edited[i..]) == AllNormalized(env, t, edited)
    {
      var rest := edited[i..];
      assert rest[0] == edited[i] && rest[1..] == edited[i + 1..];
      assert AllNormalized(env, t, rest) == Normalized(env, t, edited[i]) + AllNormalized(env, t, edited[i + 1..]);
      var more := NormalizeGrantPatterns(env, t, edited[i]);
      patterns := patterns + more;
    }
    if |patterns| == 0 {
      patterns := NormalizeGrantPatterns(env, t, command);
    }
    if |patterns| == 0 {
      patterns := [command];
    }
  }

  lemma ApprovalStores(s: Store, env: Env, session: string, assetID: int, t: AssetType, command: string,
                       edited: seq<string>)
    ensures var after := Saved(s, session, assetID, Patterns(env, t, command, edited));
            && s.items <= after.items
            && (forall it :: it in after.items
                  <==> || it in s.items
                       || (&& session != "" && it == StoredItem(session, GrantItem(assetID, 0, it.item.command))
                           && it.item.command != "" && IsToStore(env, t, command, edited, it.item.command)))
            && (forall x | x != session :: x in after.sessions <==> x in s.sessions)
            && (forall x | x in s.sessions :: x in after.sessions && after.sessions[x] == s.sessions[x])
            && (session in after.sessions && session !in s.sessions ==> after.sessions[session] == Approved)
  {
    hide Patterns, IsToStore, Saved;
    var patterns := Patterns(env, t, command, edited);
    SavedExactly(s, session, assetID, patterns);
    forall p ensures p in patterns <==> IsToStore(env, t, command, edited, p) {
      PatternsExactly(env, t, command, edited, p);
    }
  }

  /** handleConfirm with a confirmation callback that answers `response`; None when there is no callback. */
  method HandleConfirm(repo: GrantRepo, env: Env, session: string, assetID: int, t: AssetType, command: string,
                       response: Option<Response>) returns (decision: Decision)
    modifies repo
    ensures decision == if response.Some? && response.value != DenyIt then Allow else Deny
    ensures repo.View() == if response.Some? && response.value.AllowAll?
                           then Saved(old(repo.View()), session, assetID, Patterns(env, t, command, response.value.edited))
                           else old(repo.View())
    ensures response.Some? && response.value.AllowAll? ==>
              && old(repo.items) <= repo.items
              && (forall it :: it in repo.items
                    <==> || it in old(repo.items)
                         || (&& session != "" && it == StoredItem(session, GrantItem(assetID, 0, it.item.command))
                             && it.item.command != "" && IsToStore(env, t, command, response.value.edited, it.item.command)))
              && (forall x | x != session :: x in repo.sessions <==> x in old(repo.sessions))
              && (forall x | x in old(repo.sessions) :: x in repo.sessions && repo.sessions[x] == old(repo.sessions[x]))
              && (session in repo.sessions && session !in old(repo.sessions) ==> repo.sessions[session] == Approved)
  {
    hide SavedOne, Patterns;
    if response.None? || response.value == DenyIt {
      return Deny;
    }
    if response.value.AllowAll? {
      var patterns := GatherPatterns(env, t, command, response.value.edited);
      for i := 0 to |patterns|
        invariant repo.View() == Saved(old(repo.View()), session, assetID, patterns[..i])
      {
        SavedAppend(old(repo.View()), session, assetID, patterns[..i], patterns[i]);
        assert patterns[..i + 1] == patterns[..i] + [patterns[i]];
        repo.SaveGrantPattern(session, assetID, patterns[i]);
      }
      assert patterns[..|patterns|] == patterns;
      ApprovalStores(old(repo.View()), env, session, assetID, t, command, response.value.edited);
    }
    decision := Allow;
  }

  // The next check

  /** New items are listed only if the session is new or was approved. */
  predicate SessionUsable(s: Store, session: string) {
    session != "" && (session in s.sessions ==> s.sessions[session] == Approved)
  }

  lemma FirstItem(items: seq<StoredItem>, session: string)
    requires items != []
    ensures ItemsOf(items, session) == ItemsOf([items[0]], session) + ItemsOf(items[1..], session)
  {
    assert [items[0]][1..] == [];
  }

  lemma {:induction false} ItemsOfSplit(a: seq<StoredItem>, b: seq<StoredItem>, session: string)
    ensures ItemsOf(a + b, session) == ItemsOf(a, session) + ItemsOf(b, session)
  {
    if a == [] {
      assert ItemsOf([], session) == [];
      assert a + b == b;
    } else {
      assert (a + b)[0] == a[0] && (a + b)[1..] == a[1..] + b;
      ItemsOfSplit(a[1..], b, session);
      var first, rest, more := ItemsOf([a[0]], session), ItemsOf(a[1..], session), ItemsOf(b, session);
      FirstItem(a, session);
      FirstItem(a + b, session);
      assert first + rest + more == first + (rest + more);
    }
  }

  /** No item belongs to a session that does not exist. */
  predicate Consistent(s: Store) {
    forall it | it in s.items :: it.session in s.sessions
  }

  lemma {:induction false} NoItemsOfUnknown(items: seq<StoredItem>, session: string)
    requires forall it | it in items :: it.session != session
    ensures ItemsOf(items, session) == []
  {
    if items != [] {
      assert items[0] in items;
      NoItemsOfUnknown(items[1..], session);
    }
  }

  lemma {:induction false} GrantedSplit(a: seq<GrantItem>, b: seq<GrantItem>, assetID: int, groups: seq<Group>)
    ensures Granted(a + b, assetID, groups) == Granted(a, assetID, groups) + Granted(b, assetID, groups)
  {
    if a == [] {
      assert a + b == b;
    } else {
      assert (a + b)[0] == a[0] && (a + b)[1..] == a[1..] + b;
      GrantedSplit(a[1..], b, assetID, groups);
    }
  }

  /** After saving, the patterns are granted besides what was granted before, unless the session is unusable. */
  lemma {:induction false} SavedIsGranted(s: Store, session: string, assetID: int, patterns: seq<string>,
        groups: seq<Group>, c: string)
    requires Consistent(s) && c != ""
    ensures var before, after := Granted(ListApproved(s, session), assetID, groups),
                                 Granted(ListApproved(Saved(s, session, assetID, patterns), session), assetID, groups);
            c in after <==> c in before || (SessionUsable(s, session) && c in patterns)
    decreases |patterns|
  {
    if patterns != [] {
      var p := patterns[0];
      assert patterns == [p] + patterns[1..];
      if session == "" || p == "" {
        SavedIsGranted(s, session, assetID, patterns[1..], groups, c);
      } else {
        var item, s' := ItemFor(session, assetID, p), SavedOne(s, session, assetID, p);
        SavedIsGranted(s', session, assetID, patterns[1..], groups, c);
        if session !in s.sessions {
          NoItemsOfUnknown(s.items, session);
        }
        ItemsOfSplit(s.items, [item], session);
        assert [item][1..] == [];
        assert ItemsOf([item], session) == [item.item];
        GrantedSplit(ItemsOf(s.items, session), [item.item], assetID, groups);
        assert [item.item][1..] == [] && Granted([item.item], assetID, groups) == [p];
      }
    }
  }

  lemma DecisionDependsOnCover(env: Env, k: Kind, assetID: int, a: seq<GrantItem>, b: seq<GrantItem>, command: string)
    requires RuntimeDecision(env, k, assetID, a, command) == NeedConfirm
    ensures var w := WorkOf(env, k, command);
            RuntimeDecision(env, k, assetID, b, command)
            == if && w.Work? && (k == Command || assetID in env.assets)
                  && GrantsCover(b, assetID, GroupsOf(env, Lookup(env, assetID)), w.units) then Allow else NeedConfirm
  {
    hide MatchCommandRule, GrantsCover, CommandRules, GroupPolicies, GroupRules, Effective, Merged, QueryVerdict,
          ListVerdict;
  }

  /** After "allow for this session", the same command on the same asset passes exactly when the session can be used
      and the stored patterns, with the earlier grants, match every unit; otherwise the user is asked again. */
  lemma ApproveThenRepeat(env: Env, s: Store, session: string, assetID: int, t: AssetType, command: string,
                          edited: seq<string>)
    requires Consistent(s)
    requires RuntimeDecision(env, t.Kind(), assetID, ListApproved(s, session), command) == NeedConfirm
    ensures var after := ListApproved(Saved(s, session, assetID, Patterns(env, t, command, edited)), session);
            var w, groups := WorkOf(env, t.Kind(), command), GroupsOf(env, Lookup(env, assetID));
            RuntimeDecision(env, t.Kind(), assetID, after, command)
            == if && SessionUsable(s, session) && w.Work? && (t.Kind() == Command || assetID in env.assets)
                  && Covered(Patterns(env, t, command, edited)
                        + Granted(ListApproved(s, session), assetID, groups), w.units, MatchCommandRule)
               then Allow else NeedConfirm
  {
    hide MatchCommandRule, RuntimeDecision, Saved, Patterns, WorkOf;
    var k, groups := t.Kind(), GroupsOf(env, Lookup(env, assetID));
    var before := ListApproved(s, session);
    var patterns := Patterns(env, t, command, edited);
    var after := ListApproved(Saved(s, session, assetID, patterns), session);
    DecisionDependsOnCover(env, k, assetID, before, before, command);
    DecisionDependsOnCover(env, k, assetID, before, after, command);
    var w := WorkOf(env, k, command);
    if w.Work? {
      WorkHasUnits(env, k, command);
      forall u ensures AnyMatch(Granted(after, assetID, groups), u, MatchCommandRule)
                  <==> || AnyMatch(Granted(before, assetID, groups), u, MatchCommandRule)
                       || (SessionUsable(s, session) && AnyMatch(patterns, u, MatchCommandRule)) {
        forall c ensures MatchCommandRule(c, u) && c in Granted(after, assetID, groups)
                    <==> MatchCommandRule(c, u)
                          && (c in Granted(before, assetID, groups) || (SessionUsable(s, session) && c in patterns)) {
          EmptyRuleMatchesNothing(u);
          if c != "" { SavedIsGranted(s, session, assetID, patterns, groups, c); }
        }
      }
      forall u ensures AnyMatch(patterns + Granted(before, assetID, groups), u, MatchCommandRule)
                  <==> AnyMatch(patterns, u, MatchCommandRule) || AnyMatch(Granted(before, assetID, groups), u,
                        MatchCommandRule) {}
    }
  }

  /** The same, said of the answer itself: after "allow for this session", with or without edits, the command passes
      exactly when the session can be used and each of its units is matched by something that the answer stored or that
      was granted before. */
  lemma RepeatPassesExactly(env: Env, s: Store, session: string, assetID: int, t: AssetType, command: string,
                            edited: seq<string>)
    requires Consistent(s)
    requires RuntimeDecision(env, t.Kind(), assetID, ListApproved(s, session), command) == NeedConfirm
    ensures var after := ListApproved(Saved(s, session, assetID, Patterns(env, t, command, edited)), session);
            var w, groups := WorkOf(env, t.Kind(), command), GroupsOf(env, Lookup(env, assetID));
            var d := RuntimeDecision(env, t.Kind(), assetID, after, command);
            && (d == NeedConfirm || d == Allow)
            && (d == Allow <==>
                  && SessionUsable(s, session) && w.Work? && (t.Kind() == Command || assetID in env.assets)
                  && forall u | u in w.units ::
                       exists c :: MatchCommandRule(c, u)
                         && (IsToStore(env, t, command, edited, c) || c in Granted(ListApproved(s, session), assetID, groups)))
  {
    hide MatchCommandRule, RuntimeDecision, Saved, Patterns, WorkOf, IsToStore, SessionUsable, ListApproved, Granted;
    ApproveThenRepeat(env, s, session, assetID, t, command, edited);
    var patterns := Patterns(env, t, command, edited);
    var before := Granted(ListApproved(s, session), assetID, GroupsOf(env, Lookup(env, assetID)));
    forall c ensures c in patterns + before <==> IsToStore(env, t, command, edited, c) || c in before {
      PatternsExactly(env, t, command, edited, c);
    }
    forall u ensures AnyMatch(patterns + before, u, MatchCommandRule)
                <==> exists c :: MatchCommandRule(c, u) && (IsToStore(env, t, command, edited, c) || c in before) {}
  }

  /** An approval for one asset changes nothing for another one. */
  lemma {:induction false} ApprovalStaysWithItsAsset(s: Store, session: string, assetID: int, patterns: seq<string>,
        other: int, groups: seq<Group>, c: string)
    requires Consistent(s) && assetID != 0 && other != assetID
    ensures c in Granted(ListApproved(Saved(s, session, assetID, patterns), session), other, groups)
       <==> c in Granted(ListApproved(s, session), other, groups)
    decreases |patterns|
  {
    if patterns != [] {
      var p := patterns[0];
      ApprovalStaysWithItsAsset(SavedOne(s, session, assetID, p), session, assetID, patterns[1..], other, groups, c);
      if session != "" && p != "" {
        var item := ItemFor(session, assetID, p);
        if session !in s.sessions {
          NoItemsOfUnknown(s.items, session);
        }
        ItemsOfSplit(s.items, [item], session);
        assert [item][1..] == [];
        assert ItemsOf([item], session) == [item.item];
        GrantedSplit(ItemsOf(s.items, session), [item.item], other, groups);
        assert [item.item][1..] == [] && Granted([item.item], other, groups) == [];
      }
    }
  }

  lemma {:induction false} SavingKeepsConsistency(s: Store, session: string, assetID: int, patterns: seq<string>)
    requires Consistent(s)
    ensures Consistent(Saved(s, session, assetID, patterns))
    decreases |patterns|
  {
    if patterns != [] {
      SavingKeepsConsistency(SavedOne(s, session, assetID, patterns[0]), session, assetID, patterns[1..]);
    }
  }

  datatype Approval = Approval(session: string, assetID: int, patterns: seq<string>)

  /** The grant tables after some approvals, in any sessions and for any assets. */
  function AfterApprovals(approvals: seq<Approval>): Store {
    if approvals == [] then Store(map[], [])
    else
      var last := approvals[|approvals| - 1];
      Saved(AfterApprovals(approvals[..|approvals| - 1]), last.session, last.assetID, last.patterns)
  }

  /** Whatever approvals came before, the results on the next one apply. */
  lemma {:induction false} ApprovalsAreConsistent(approvals: seq<Approval>)
    ensures Consistent(AfterApprovals(approvals))
  {
    if approvals != [] {
      var last := approvals[|approvals| - 1];
      ApprovalsAreConsistent(approvals[..|approvals| - 1]);
      SavingKeepsConsistency(AfterApprovals(approvals[..|approvals| - 1]), last.session, last.assetID, last.patterns);
    }
  }

  lemma {:induction false} OneLine(s: string)
    requires '\n' !in s
    ensures FirstLine(s) == s
  {
    if s != "" {
      assert forall c | c in s[1..] :: c in s;
      OneLine(s[1..]);
    }
  }

  /** A one-line shell command on a terminal or cluster asset is stored as its units. */
  lemma ShellPatterns(env: Env, t: AssetType, command: string)
    requires IsShellLike(t) && TrimSpace(command) != "" && '\n' !in TrimSpace(command)
    requires ShellUnits(env, TrimSpace(command)) != []
    ensures Patterns(env, t, command, []) == ShellUnits(env, TrimSpace(command))
  {
    hide ShellUnits, TrimSpace;
    var cmd := TrimSpace(command);
    TrimIdempotent(command);
    OneLine(cmd);
    assert Lines(cmd) == [cmd] && [cmd][1..] == [];
    assert LinesPatterns(env, [cmd]) == LinePatterns(env, cmd) + LinesPatterns(env, [cmd][1..]);
  }

  /** After an unedited "allow for this session" of a one-line shell command whose units are plain and do not begin with
      a strippable assignment, repeating it is allowed if and only if the session was new or approved. */
  lemma ShellApprovalHolds(env: Env, s: Store, session: string, assetID: int, t: AssetType, command: string)
    requires Consistent(s) && IsShellLike(t) && (t == K8sAsset ==> assetID in env.assets)
    requires RuntimeDecision(env, if t == SSH then Command else K8s, assetID, ListApproved(s, session), command) == NeedConfirm
    requires TrimSpace(command) != "" && '\n' !in TrimSpace(command)
    requires ShellUnits(env, TrimSpace(command)) == ShellUnits(env, command) != []
    requires forall u | u in ShellUnits(env, command) :: Plain(u) && (Tokens(u) != [] ==> !IsStrippable(Tokens(u)[0]))
    ensures var after := ListApproved(Saved(s, session, assetID, Patterns(env, t, command, [])), session);
            RuntimeDecision(env, if t == SSH then Command else K8s, assetID, after, command) == Allow
            <==> SessionUsable(s, session)
  {
    hide MatchCommandRule, RuntimeDecision, Saved, Patterns, TrimSpace, Tokens;
    hide Shell.UnitsOf;
    ShellPatterns(env, t, command);
    ApproveThenRepeat(env, s, session, assetID, t, command, []);
    var units := ShellUnits(env, command);
    var before := Granted(ListApproved(s, session), assetID, GroupsOf(env, Lookup(env, assetID)));
    forall u | u in units ensures AnyMatch(units + before, u, MatchCommandRule) {
      ShellUnitsAreNotBlank(env, command, u);
      PlainCommandMatchesItself(u);
      assert u in units + before;
    }
  }

  /** The same for a database or Redis: the whole text is stored, and a plain one that is not made of several statements
      passes again if and only if the session was new or approved. */
  lemma WholeTextApprovalHolds(env: Env, s: Store, session: string, assetID: int, t: AssetType, command: string)
    requires Consistent(s) && t in {Database, RedisAsset} && assetID in env.assets
    requires var k := if t == Database then Query else Redis;
             && RuntimeDecision(env, k, assetID, ListApproved(s, session), command) == NeedConfirm
             && (WorkOf(env, k, command).Work? ==>
                   forall u | u in WorkOf(env, k, command).units :: TrimSpace(u) == TrimSpace(command))
    requires TrimSpace(command) != "" && Plain(TrimSpace(command))
    requires Tokens(command) != [] ==> !IsStrippable(Tokens(command)[0])
    ensures var after := ListApproved(Saved(s, session, assetID, Patterns(env, t, command, [])), session);
            RuntimeDecision(env, if t == Database then Query else Redis, assetID, after, command) == Allow
            <==> SessionUsable(s, session)
  {
    hide MatchCommandRule, RuntimeDecision, Saved, Patterns, TrimSpace, Tokens, WorkOf;
    var k, cmd := if t == Database then Query else Redis, TrimSpace(command);
    assert t.Kind() == k;
    ApproveThenRepeat(env, s, session, assetID, t, command, []);
    WholePatterns(env, t, command);
    NeedsWork(env, k, assetID, ListApproved(s, session), command);
    var before := Granted(ListApproved(s, session), assetID, GroupsOf(env, Lookup(env, assetID)));
    assert cmd in [cmd] + before;
    forall u | u in WorkOf(env, k, command).units ensures AnyMatch([cmd] + before, u, MatchCommandRule) {
      SameTextMatches(cmd, command, u);
    }
  }

  lemma NeedsWork(env: Env, k: Kind, assetID: int, items: seq<GrantItem>, command: string)
    requires k in {Query, Redis} && RuntimeDecision(env, k, assetID, items, command) == NeedConfirm
    ensures WorkOf(env, k, command).Work?
  {
    hide GenericVerdict, TypeVerdict, GrantsCover, Effective, Merged;
  }

  lemma WholePatterns(env: Env, t: AssetType, command: string)
    requires !IsShellLike(t) && TrimSpace(command) != ""
    ensures Patterns(env, t, command, []) == [TrimSpace(command)]
  {
  }

  lemma SameTextMatches(cmd: string, command: string, u: string)
    requires cmd == TrimSpace(command) == TrimSpace(u) && cmd != "" && Plain(cmd)
    requires Tokens(command) != [] ==> !IsStrippable(Tokens(command)[0])
    ensures MatchCommandRule(cmd, u)
  {
    hide MatchArgs, Operands, IsStrippable;
    FieldsTrim(command);
    FieldsTrim(u);
    TrimIdempotent(command);
    assert Tokens(cmd) == Tokens(command) == Tokens(u);
    hide Tokens, TrimSpace;
    PlainCommandMatchesItself(cmd);
  }

  lemma ShellUnitsAreNotBlank(env: Env, command: string, u: string)
    requires u in ShellUnits(env, command)
    ensures TrimSpace(u) != ""
  {
    hide TrimSpace;
    var stmts := env.parseShell(command).value;
    Shell.UnitsOfMember(stmts, u);
    var k :| k in stmts && u in Shell.Units(k);
    Shell.UnitsAreNotBlank(k, u);
  }

  /** A unit that begins with a strippable assignment is asked about again: as a rule it names the assignment. */
  lemma AssignmentIsAskedAgain(env: Env, session: string, assetID: int, t: AssetType, command: string, u: string)
    requires IsShellLike(t) && session != ""
    requires RuntimeDecision(env, t.Kind(), assetID, [], command) == NeedConfirm
    requires TrimSpace(command) != "" && '\n' !in TrimSpace(command)
    requires ShellUnits(env, TrimSpace(command)) == ShellUnits(env, command) == [u]
    requires !IsWildcardAll(u) && Tokens(u) != [] && IsStrippable(Tokens(u)[0])
    ensures var after := ListApproved(Saved(Store(map[], []), session, assetID, Patterns(env, t, command, [])), session);
            RuntimeDecision(env, t.Kind(), assetID, after, command) == NeedConfirm
  {
    hide MatchCommandRule, RuntimeDecision, Saved, Patterns, TrimSpace, Tokens;
    hide ShellUnits, IsWildcardAll, IsStrippable, AcceptsOwnArgs, ListApproved, Granted;
    var s := Store(map[], []);
    NothingGranted(session, assetID, GroupsOf(env, Lookup(env, assetID)));
    ShellPatterns(env, t, command);
    ApproveThenRepeat(env, s, session, assetID, t, command, []);
    SelfMatchExactly(u);
    assert u in [u] && !AnyMatch([u] + [], u, MatchCommandRule);
  }

  lemma NothingGranted(session: string, assetID: int, groups: seq<Group>)
    ensures ListApproved(Store(map[], []), session) == []
    ensures Granted(ListApproved(Store(map[], []), session), assetID, groups) == []
  {
  }

  /** On a serial asset the whole text is stored, so a compound command is asked about again. */
  lemma SerialCompoundIsAskedAgain(env: Env, session: string, assetID: int)
    requires session != ""
    requires RuntimeDecision(env, Command, assetID, [], "ls && pwd") == NeedConfirm
    requires ShellUnits(env, "ls && pwd") == ["ls", "pwd"]
    ensures var patterns := Patterns(env, Serial, "ls && pwd", []);
            var after := ListApproved(Saved(Store(map[], []), session, assetID, patterns), session);
            RuntimeDecision(env, Command, assetID, after, "ls && pwd") == NeedConfirm
  {
    hide MatchCommandRule, RuntimeDecision, Saved, Patterns;
    var s, command := Store(map[], []), "ls && pwd";
    SerialPatterns(env);
    ApproveThenRepeat(env, s, session, assetID, Serial, command, []);
    assert Granted(ListApproved(s, session), assetID, GroupsOf(env, Lookup(env, assetID))) == [];
    CompoundIsNoRuleForItsPart();
    assert ["ls", "pwd"][1] in ["ls", "pwd"] && !AnyMatch([command] + [], "pwd", MatchCommandRule);
  }

  lemma SerialPatterns(env: Env)
    ensures Patterns(env, Serial, "ls && pwd", []) == ["ls && pwd"]
  {
    hide ShellUnits;
    assert TrimSpace("ls && pwd") == "ls && pwd";
  }

  lemma CompoundIsNoRuleForItsPart()
    ensures !MatchCommandRule("ls && pwd", "pwd")
  {
    hide Tokens, Operands;
    assert "ls && pwd" == "ls" + " " + "&& pwd";
    TokensSplit("ls", "&& pwd");
    TokensOfWord("ls");
    TokensOfWord("pwd");
    assert TrimSpace("ls && pwd") == "ls && pwd";
  }
}
