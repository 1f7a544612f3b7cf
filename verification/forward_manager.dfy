/** Port forwarding: rules that run, and one counted SSH connection for each asset they use. */
module ForwardManager {
  import opened Text

  type Conn = nat

  datatype Forward = Forward(config: int, asset: int, error: string)

  datatype Client = Client(conn: Conn, refs: int)

  /** A rule of the configuration and what starting it returns: None, or the text of the error. */
  datatype Rule = Rule(id: int, failure: Option<string>)

  /** The manager's two maps; for which asset each connection was dialed; and the Close and cancel calls made, a cancel
      call being named by its rule. */
  datatype State = State(
    running: map<int, Forward>, clients: map<int, Client>,
    dialed: map<Conn, int>, closed: multiset<Conn>, cancelled: multiset<int>)

  const EMPTY := State(map[], map[], map[], multiset{}, multiset{})

  // What the operations do

  function RulesOf(s: State, config: int): set<int> {
    set r | r in s.running && s.running[r].config == config
  }

  /** The rules among `rules` that run on an asset. */
  function RulesOn(s: State, rules: set<int>, asset: int): set<int> {
    set r | r in rules && r in s.running && s.running[r].asset == asset
  }

  function Count(s: State, asset: int): nat {
    |RulesOn(s, s.running.Keys, asset)|
  }

  /** The assets whose connections are given up when `rules` stop. */
  function Released(s: State, rules: set<int>): set<int> {
    set a | a in s.clients && RulesOn(s, rules, a) != {} && s.clients[a].refs - |RulesOn(s, rules, a)| <= 0
  }

  function ConnsOf(s: State, assets: set<int>): set<Conn> {
    set a | a in assets && a in s.clients :: s.clients[a].conn
  }

  function Stopped(s: State, rules: set<int>): State {
    var gone := Released(s, rules);
    s.(running := s.running - rules,
       clients := map a | a in s.clients
             && a !in gone :: Client(s.clients[a].conn, s.clients[a].refs - |RulesOn(s, rules, a)|),
       closed := s.closed + multiset(ConnsOf(s, gone)),
       cancelled := s.cancelled + multiset(rules * s.running.Keys))
  }

  function WithClient(s: State, asset: int, conn: Conn): State {
    if asset in s.clients then s
    else s.(clients := s.clients[asset := Client(conn, 0)], dialed := s.dialed[conn := asset])
  }

  function ErrorText(rule: Rule): string {
    match rule.failure
    case Some(text) => text
    case None => ""
  }

  /** One rule is started: it is entered as running, failed or not, and the connection is counted once more. */
  function RuleStarted(s: State, config: int, asset: int, rule: Rule): State
    requires asset in s.clients
  {
    s.(running := s.running[rule.id := Forward(config, asset, ErrorText(rule))],
       clients := s.clients[asset := s.clients[asset].(refs := s.clients[asset].refs + 1)],
       cancelled := if rule.failure.Some? then s.cancelled + multiset{rule.id} else s.cancelled)
  }

  function RulesStarted(s: State, config: int, asset: int, rules: seq<Rule>): State
    requires asset in s.clients
    decreases |rules|
  {
    if rules == [] then s else RulesStarted(RuleStarted(s, config, asset, rules[0]), config, asset, rules[1..])
  }

  datatype Outcome = Started | NoConfig | Unreadable | NoRules | DialFailed

  /** What the repository returns for a configuration and its rules, and the dialer for its asset. */
  datatype Environment = Environment(asset: Option<int>, rules: Option<seq<Rule>>, dial: Option<Conn>)

  datatype Operation = Start(config: int, env: Environment) | Stop(config: int) | StopEverything

  function Restarted(s: State, config: int, asset: int, rules: seq<Rule>, dial: Option<Conn>): State {
    var t := Stopped(s, RulesOf(s, config));
    if asset in t.clients then RulesStarted(t, config, asset, rules)
    else if dial.Some? then RulesStarted(WithClient(t, asset, dial.value), config, asset, rules)
    else t
  }

  function AllStopped(s: State): State {
    s.(running := map[], clients := map[], closed := s.closed + multiset(ConnsOf(s, s.clients.Keys)),
       cancelled := s.cancelled + multiset(s.running.Keys))
  }

  predicate Goes(env: Environment) {
    env.asset.Some? && env.rules.Some? && env.rules.value != []
  }

  function After(s: State, op: Operation): State {
    match op
    case Start(config, env) =>
      if Goes(env) then Restarted(s, config, env.asset.value, env.rules.value, env.dial) else s
    case Stop(config) => Stopped(s, RulesOf(s, config))
    case StopEverything => AllStopped(s)
  }

  /** A dialed connection is new. */
  predicate Fresh(s: State, op: Operation) {
    op.Start? && op.env.dial.Some? ==> op.env.dial.value !in s.dialed
  }

  ghost predicate IsRun(states: seq<State>, ops: seq<Operation>) {
    && |states| == |ops| + 1 && states[0] == EMPTY
    && forall i | 0 <= i < |ops| :: Fresh(states[i], ops[i]) && states[i + 1] == After(states[i], ops[i])
  }

  // Connections

  predicate IsCurrent(s: State, c: Conn) {
    c in s.dialed && s.dialed[c] in s.clients && s.clients[s.dialed[c]].conn == c
  }

  /** A connection is in use for the asset it was dialed for, or it has been closed once. */
  predicate ConnOk(s: State, c: Conn) {
    s.closed[c] == if c in s.dialed && !IsCurrent(s, c) then 1 else 0
  }

  predicate OwnerOk(s: State, a: int) {
    a in s.clients ==> s.clients[a].conn in s.dialed && s.dialed[s.clients[a].conn] == a
  }

  ghost predicate Valid(s: State) {
    (forall a :: OwnerOk(s, a)) && forall c :: ConnOk(s, c)
  }

  lemma ConnsOfIs(s: State, assets: set<int>, c: Conn)
    requires forall a :: OwnerOk(s, a)
    ensures c in ConnsOf(s, assets) <==> IsCurrent(s, c) && s.dialed[c] in assets
  {
    if c in ConnsOf(s, assets) {
      var a :| a in assets && a in s.clients && s.clients[a].conn == c;
      assert OwnerOk(s, a);
    }
    if IsCurrent(s, c) && s.dialed[c] in assets {
      var a := s.dialed[c];
      assert a in assets && a in s.clients && s.clients[a].conn == c;
    }
  }

  lemma StoppedIsValid(s: State, rules: set<int>)
    requires Valid(s)
    ensures Valid(Stopped(s, rules))
  {
    var t := Stopped(s, rules);
    forall a ensures OwnerOk(t, a) { assert OwnerOk(s, a); }
    forall c ensures ConnOk(t, c) {
      hide ConnsOf, RulesOn;
      assert ConnOk(s, c);
      ConnsOfIs(s, Released(s, rules), c);
    }
  }

  lemma AllStoppedIsValid(s: State)
    requires Valid(s)
    ensures Valid(AllStopped(s))
  {
    forall c ensures ConnOk(AllStopped(s), c) {
      hide ConnsOf;
      assert ConnOk(s, c);
      ConnsOfIs(s, s.clients.Keys, c);
    }
  }

  lemma WithClientIsValid(s: State, asset: int, conn: Conn)
    requires Valid(s) && conn !in s.dialed
    ensures Valid(WithClient(s, asset, conn))
  {
    var t := WithClient(s, asset, conn);
    forall a ensures OwnerOk(t, a) { assert OwnerOk(s, a); }
    forall c ensures ConnOk(t, c) { assert ConnOk(s, c); }
  }

  lemma {:induction false} RulesStartedIsValid(s: State, config: int, asset: int, rules: seq<Rule>)
    requires Valid(s) && asset in s.clients
    ensures Valid(RulesStarted(s, config, asset, rules))
    decreases |rules|
  {
    if rules != [] {
      var t := RuleStarted(s, config, asset, rules[0]);
      forall a ensures OwnerOk(t, a) { assert OwnerOk(s, a); }
      forall c ensures ConnOk(t, c) { assert ConnOk(s, c); }
      RulesStartedIsValid(t, config, asset, rules[1..]);
    }
  }

  lemma OperationIsValid(s: State, op: Operation)
    requires Valid(s) && Fresh(s, op)
    ensures Valid(After(s, op))
  {
    hide Valid, Stopped, AllStopped, RulesStarted, RulesOf;
    match op
    case Start(config, env) =>
      if Goes(env) {
        var t := Stopped(s, RulesOf(s, config));
        StoppedIsValid(s, RulesOf(s, config));
        var asset, rules := env.asset.value, env.rules.value;
        if asset in t.clients {
          RulesStartedIsValid(t, config, asset, rules);
        } else if env.dial.Some? {
          SameDialed(s, RulesOf(s, config));
          WithClientIsValid(t, asset, env.dial.value);
          RulesStartedIsValid(WithClient(t, asset, env.dial.value), config, asset, rules);
        }
      }
    case Stop(config) => StoppedIsValid(s, RulesOf(s, config));
    case StopEverything => AllStoppedIsValid(s);
  }

  lemma SameDialed(s: State, rules: set<int>)
    ensures Stopped(s, rules).dialed == s.dialed
  {
  }

  lemma {:induction false} RunIsValid(states: seq<State>, ops: seq<Operation>, i: nat)
    requires IsRun(states, ops) && i < |states|
    ensures Valid(states[i])
  {
    hide After, Fresh;
    if i > 0 {
      hide Valid;
      RunIsValid(states, ops, i - 1);
      OperationIsValid(states[i - 1], ops[i - 1]);
    }
  }

  /** Over every run of operations, with whatever rules: each connection ever dialed is the one in use for its asset,
      or it has been closed exactly once. */
  lemma ConnectionsAreClosedOnce(states: seq<State>, ops: seq<Operation>, i: nat, c: Conn)
    requires IsRun(states, ops) && i < |states|
    ensures states[i].closed[c] == if c in states[i].dialed && !IsCurrent(states[i], c) then 1 else 0
  {
    RunIsValid(states, ops, i);
    assert ConnOk(states[i], c);
  }

  // Reference counts

  /** There is a connection for exactly the assets with running rules, counted once for each of them. */
  predicate RefsOk(s: State, a: int) {
    if a in s.clients then s.clients[a].refs == Count(s, a) && Count(s, a) > 0 else Count(s, a) == 0
  }

  ghost predicate Counted(s: State) {
    forall a :: RefsOk(s, a)
  }

  lemma CountStopped(s: State, rules: set<int>, a: int)
    ensures Count(Stopped(s, rules), a) == Count(s, a) - |RulesOn(s, rules, a)|
    ensures RulesOn(s, rules, a) == {} <==> |RulesOn(s, rules, a)| == 0
  {
    var t := Stopped(s, rules);
    var all, stopped := RulesOn(s, s.running.Keys, a), RulesOn(s, rules, a);
    assert RulesOn(t, t.running.Keys, a) == all - stopped;
    assert stopped <= all;
  }

  /** Stopping rules keeps the counts exact; a connection is given up exactly when its last rule stops. */
  lemma StoppedIsCounted(s: State, rules: set<int>)
    requires Counted(s)
    ensures Counted(Stopped(s, rules))
    ensures forall a :: a in Released(s, rules) <==> Count(s, a) > 0 && Count(Stopped(s, rules), a) == 0
  {
    var t := Stopped(s, rules);
    forall a ensures RefsOk(t, a) && (a in Released(s, rules) <==> Count(s, a) > 0 && Count(t, a) == 0) {
      assert RefsOk(s, a);
      CountStopped(s, rules, a);
    }
  }

  function Ids(rules: seq<Rule>): set<int> {
    set i | 0 <= i < |rules| :: rules[i].id
  }

  predicate Distinct(rules: seq<Rule>) {
    forall i, j | 0 <= i < j < |rules| :: rules[i].id != rules[j].id
  }

  lemma {:induction false} StartedState(s: State, config: int, asset: int, rules: seq<Rule>)
    requires asset in s.clients
    ensures var t := RulesStarted(s, config, asset, rules);
            && t.running.Keys == s.running.Keys + Ids(rules)
            && (forall r | r in t.running :: if r in Ids(rules) then t.running[r].config == config
                  && t.running[r].asset == asset
                                             else t.running[r] == s.running[r])
            && t.clients == s.clients[asset := s.clients[asset].(refs := s.clients[asset].refs + |rules|)]
    decreases |rules|
  {
    if rules != [] {
      var u := RuleStarted(s, config, asset, rules[0]);
      StartedState(u, config, asset, rules[1..]);
      IdsStep(rules);
    }
  }

  lemma IdsStep(rules: seq<Rule>)
    requires rules != []
    ensures Ids(rules) == {rules[0].id} + Ids(rules[1..])
  {
    forall r | r in Ids(rules) ensures r == rules[0].id || r in Ids(rules[1..]) {
      var i :| 0 <= i < |rules| && rules[i].id == r;
      if i > 0 {
        assert rules[1..][i - 1] == rules[i];
      }
    }
    forall r | r in Ids(rules[1..]) ensures r in Ids(rules) {
      var i :| 0 <= i < |rules[1..]| && rules[1..][i].id == r;
      assert rules[i + 1].id == r;
    }
    assert rules[0].id in Ids(rules);
  }

  lemma {:induction false} IdCount(rules: seq<Rule>)
    ensures |Ids(rules)| <= |rules|
    ensures |Ids(rules)| == |rules| <==> Distinct(rules)
  {
    if rules != [] {
      var rest := rules[1..];
      IdCount(rest);
      IdsStep(rules);
      if rules[0].id in Ids(rest) {
        assert Ids(rules) == Ids(rest);
        var i :| 0 <= i < |rest| && rest[i].id == rules[0].id;
        assert rules[i + 1].id == rules[0].id;
      } else {
        forall i | 0 < i < |rules| ensures rules[i].id != rules[0].id { assert rest[i - 1] == rules[i]; }
        forall i, j | 0 < i < j < |rules| ensures Distinct(rest) ==> rules[i].id != rules[j].id {
          assert rest[i - 1] == rules[i] && rest[j - 1] == rules[j];
        }
      }
    }
  }

  /** Counts that may be zero, as right after a dial. */
  predicate NearlyOk(s: State, a: int) {
    if a in s.clients then s.clients[a].refs == Count(s, a) else Count(s, a) == 0
  }

  predicate NoClash(s: State, rules: seq<Rule>) {
    Distinct(rules) && Ids(rules) !! s.running.Keys
  }

  lemma RulesOnStarted(s: State, config: int, asset: int, rules: seq<Rule>, a: int)
    requires asset in s.clients
    ensures var t := RulesStarted(s, config, asset, rules);
            var before := RulesOn(s, s.running.Keys, a);
            RulesOn(t, t.running.Keys, a) == if a == asset then before + Ids(rules) else before - Ids(rules)
  {
    hide RulesStarted, Ids;
    StartedState(s, config, asset, rules);
    var t := RulesStarted(s, config, asset, rules);
    var before := RulesOn(s, s.running.Keys, a);
    var expected := if a == asset then before + Ids(rules) else before - Ids(rules);
    forall r ensures r in RulesOn(t, t.running.Keys, a) <==> r in expected {
      assert r in t.running <==> r in s.running || r in Ids(rules);
    }
  }

  lemma CountStarted(s: State, config: int, asset: int, rules: seq<Rule>, a: int)
    requires asset in s.clients
    ensures var t := RulesStarted(s, config, asset, rules);
            var before := RulesOn(s, s.running.Keys, a);
            Count(t, a) == if a == asset then |before| + |Ids(rules) - before| else |before - Ids(rules)|
  {
    hide RulesStarted, Ids, RulesOn;
    RulesOnStarted(s, config, asset, rules, a);
    var before := RulesOn(s, s.running.Keys, a);
    assert before + Ids(rules) == before + (Ids(rules) - before);
  }

  lemma CountedIfNoClash(s: State, config: int, asset: int, rules: seq<Rule>)
    requires asset in s.clients && rules != [] && NoClash(s, rules)
    requires NearlyOk(s, asset) && forall a | a != asset :: RefsOk(s, a)
    ensures Counted(RulesStarted(s, config, asset, rules))
  {
    hide RulesStarted, NoClash;
    forall a ensures RefsOk(RulesStarted(s, config, asset, rules), a) {
      CountedOn(s, config, asset, rules, a);
    }
  }

  lemma CountedOn(s: State, config: int, asset: int, rules: seq<Rule>, a: int)
    requires asset in s.clients && rules != [] && NoClash(s, rules)
    requires if a == asset then NearlyOk(s, a) else RefsOk(s, a)
    ensures RefsOk(RulesStarted(s, config, asset, rules), a)
  {
    hide RulesStarted, Ids, Distinct, Count, RulesOn;
    var t := RulesStarted(s, config, asset, rules);
    var before := RulesOn(s, s.running.Keys, a);
    assert Count(s, a) == |before| && before <= s.running.Keys by { CountIs(s, a); }
    CountStarted(s, config, asset, rules, a);
    if a == asset {
      assert Ids(rules) - before == Ids(rules);
      assert |Ids(rules)| == |rules| by { IdCount(rules); }
      assert t.clients[a].refs == s.clients[a].refs + |rules| by { StartedState(s, config, asset, rules); }
    } else {
      assert before - Ids(rules) == before;
      assert a in t.clients <==> a in s.clients by { StartedState(s, config, asset, rules); }
      assert a in s.clients ==> t.clients[a] == s.clients[a] by { StartedState(s, config, asset, rules); }
    }
  }

  lemma CountIs(s: State, a: int)
    ensures Count(s, a) == |RulesOn(s, s.running.Keys, a)| && RulesOn(s, s.running.Keys, a) <= s.running.Keys
  {
  }

  lemma NoClashIfCounted(s: State, config: int, asset: int, rules: seq<Rule>)
    requires asset in s.clients
    requires NearlyOk(s, asset) && forall a | a != asset :: RefsOk(s, a)
    requires Counted(RulesStarted(s, config, asset, rules))
    ensures NoClash(s, rules)
  {
    hide RulesStarted, Ids, Distinct;
    StartedState(s, config, asset, rules);
    IdCount(rules);
    var t := RulesStarted(s, config, asset, rules);
    var mine := RulesOn(s, s.running.Keys, asset);
    assert RefsOk(t, asset);
    CountStarted(s, config, asset, rules, asset);
    Difference(Ids(rules), mine);
    forall r | r in Ids(rules) ensures r !in s.running {
      if r in s.running {
        var a := s.running[r].asset;
        var before := RulesOn(s, s.running.Keys, a);
        assert r in before;
        if a != asset {
          assert RefsOk(s, a) && RefsOk(t, a);
          CountStarted(s, config, asset, rules, a);
          Difference(before, Ids(rules));
        }
      }
    }
  }

  lemma Difference(a: set<int>, b: set<int>)
    ensures |a - b| <= |a|
    ensures |a - b| == |a| ==> a !! b
  {
    assert a == (a - b) + (a * b);
  }

  /** Starting a configuration keeps the counts exact if and only if its rule ids are distinct and none of them is
      running under another configuration. */
  lemma StartKeepsCountsExactly(s: State, config: int, env: Environment)
    requires Counted(s) && Goes(env)
    requires env.dial.Some? || env.asset.value in Stopped(s, RulesOf(s, config)).clients
    ensures var others := set r | r in s.running && s.running[r].config != config;
            Counted(After(s, Start(config, env)))
            <==> Distinct(env.rules.value) && Ids(env.rules.value) !! others
  {
    hide Stopped, RulesStarted, Counted, Ids, Distinct, Count;
    var t := Stopped(s, RulesOf(s, config));
    StoppedIsCounted(s, RulesOf(s, config));
    var asset, rules := env.asset.value, env.rules.value;
    var u := if asset in t.clients then t else WithClient(t, asset, env.dial.value);
    OthersRun(s, config);
    Prepared(t, asset, if env.dial.Some? then env.dial.value else 0, u);
    if NoClash(u, rules) {
      CountedIfNoClash(u, config, asset, rules);
    }
    if Counted(RulesStarted(u, config, asset, rules)) {
      NoClashIfCounted(u, config, asset, rules);
    }
  }

  lemma OthersRun(s: State, config: int)
    ensures Stopped(s, RulesOf(s, config)).running.Keys == set r | r in s.running && s.running[r].config != config
  {
  }

  lemma Prepared(t: State, asset: int, conn: Conn, u: State)
    requires Counted(t) && u == WithClient(t, asset, conn)
    ensures asset in u.clients && u.running == t.running
    ensures NearlyOk(u, asset) && forall a | a != asset :: RefsOk(u, a)
  {
    assert RefsOk(t, asset);
    forall a | a != asset ensures RefsOk(u, a) {
      assert RefsOk(t, a);
      assert RulesOn(u, u.running.Keys, a) == RulesOn(t, t.running.Keys, a);
    }
    assert RulesOn(u, u.running.Keys, asset) == RulesOn(t, t.running.Keys, asset);
  }

  /** How often starting the rules fails for a rule of this id. */
  function Failures(rules: seq<Rule>, id: int): nat {
    if rules == [] then 0
    else (if rules[0].id == id && rules[0].failure.Some? then 1 else 0) + Failures(rules[1..], id)
  }

  lemma {:induction false} StartedForwards(s: State, config: int, asset: int, rules: seq<Rule>, i: nat)
    requires asset in s.clients && i < |rules| && forall j | i < j < |rules| :: rules[j].id != rules[i].id
    ensures var t := RulesStarted(s, config, asset, rules);
            && rules[i].id in t.running
            && t.running[rules[i].id] == Forward(config, asset, if rules[i].failure.Some? then rules[i].failure.value else "")
    decreases |rules|
  {
    var u := RuleStarted(s, config, asset, rules[0]);
    if i > 0 {
      assert rules[1..][i - 1] == rules[i] && forall j | i < j < |rules| :: rules[1..][j - 1] == rules[j];
      StartedForwards(u, config, asset, rules[1..], i - 1);
    } else {
      StartedState(u, config, asset, rules[1..]);
      assert forall j | 0 <= j < |rules[1..]| :: rules[1..][j] == rules[j + 1];
    }
  }

  lemma {:induction false} StartedCancels(s: State, config: int, asset: int, rules: seq<Rule>, id: int)
    requires asset in s.clients
    ensures RulesStarted(s, config, asset, rules).cancelled[id] == s.cancelled[id] + Failures(rules, id)
    decreases |rules|
  {
    if rules != [] {
      StartedCancels(RuleStarted(s, config, asset, rules[0]), config, asset, rules[1..], id);
    }
  }

  /** What a start leaves running: the rules of other configurations as they were, and, if there is a connection, those
      given to it, each with the text of its error. The configuration's earlier rules are cancelled, and so is each rule
      that fails. */
  lemma StartIsExact(s: State, config: int, env: Environment)
    requires env.asset.Some? && env.rules.Some? && env.rules.value != []
    ensures var t, rules, asset := After(s, Start(config, env)), env.rules.value, env.asset.value;
            var connects := env.dial.Some? || asset in Stopped(s, RulesOf(s, config)).clients;
            && (forall r :: r in t.running
                  <==> (connects && r in Ids(rules)) || (r in s.running && s.running[r].config != config))
            && (forall r | r in t.running && !(connects && r in Ids(rules)) :: t.running[r] == s.running[r])
            && (forall i | connects && 0 <= i < |rules| && (forall j | i < j < |rules| :: rules[j].id != rules[i].id) ::
                  t.running[rules[i].id]
                  == Forward(config, asset, if rules[i].failure.Some? then rules[i].failure.value else ""))
            && (forall r :: t.cancelled[r] == s.cancelled[r]
                  + (if r in s.running && s.running[r].config == config then 1 else 0)
                  + (if connects then Failures(rules, r) else 0))
  {
    hide Stopped, RulesStarted, Ids;
    var t, rules, asset := After(s, Start(config, env)), env.rules.value, env.asset.value;
    var stopped := Stopped(s, RulesOf(s, config));
    StopsOwn(s, config);
    if env.dial.Some? || asset in stopped.clients {
      var u := if asset in stopped.clients then stopped else WithClient(stopped, asset, env.dial.value);
      assert u.running == stopped.running && u.cancelled == stopped.cancelled && asset in u.clients;
      assert t == RulesStarted(u, config, asset, rules);
      hide After;
      RulesStartedExactly(u, config, asset, rules);
    }
  }

  lemma RulesStartedExactly(s: State, config: int, asset: int, rules: seq<Rule>)
    requires asset in s.clients
    ensures var t := RulesStarted(s, config, asset, rules);
            && (forall r :: r in t.running <==> r in Ids(rules) || r in s.running)
            && (forall r | r in t.running && r !in Ids(rules) :: t.running[r] == s.running[r])
            && (forall i | 0 <= i < |rules| && (forall j | i < j < |rules| :: rules[j].id != rules[i].id) ::
                  t.running[rules[i].id]
                  == Forward(config, asset, if rules[i].failure.Some? then rules[i].failure.value else ""))
            && (forall r :: t.cancelled[r] == s.cancelled[r] + Failures(rules, r))
  {
    hide RulesStarted;
    var t := RulesStarted(s, config, asset, rules);
    StartedState(s, config, asset, rules);
    forall i | 0 <= i < |rules| && (forall j | i < j < |rules| :: rules[j].id != rules[i].id)
      ensures rules[i].id in t.running
      ensures t.running[rules[i].id] == Forward(config, asset, if rules[i].failure.Some? then rules[i].failure.value else "")
    {
      StartedForwards(s, config, asset, rules, i);
    }
    forall r ensures t.cancelled[r] == s.cancelled[r] + Failures(rules, r) { StartedCancels(s, config, asset, rules, r); }
  }

  lemma StopsOwn(s: State, config: int)
    ensures var t := Stopped(s, RulesOf(s, config));
            && (forall r :: r in t.running <==> r in s.running && s.running[r].config != config)
            && (forall r | r in t.running :: t.running[r] == s.running[r])
            && forall r :: t.cancelled[r] == s.cancelled[r] + if r in s.running && s.running[r].config == config then 1 else 0
  {
  }

  /** The rules given to a start are distinct and do not run under another configuration. */
  predicate IsClean(s: State, op: Operation) {
    op.Start? && Goes(op.env) ==>
      Distinct(op.env.rules.value) && Ids(op.env.rules.value) !! (set r | r in s.running && s.running[r].config != op.config)
  }

  lemma AllStoppedIsCounted(s: State)
    ensures Counted(AllStopped(s))
  {
    forall a ensures RefsOk(AllStopped(s), a) {
      assert RulesOn(AllStopped(s), {}, a) == {};
    }
  }

  lemma OperationIsCounted(s: State, op: Operation)
    requires Counted(s) && IsClean(s, op)
    ensures Counted(After(s, op))
  {
    hide Counted, Stopped, AllStopped, RulesStarted, RulesOf, Ids, Distinct;
    match op
    case Start(config, env) =>
      if Goes(env) {
        StoppedIsCounted(s, RulesOf(s, config));
        if env.dial.Some? || env.asset.value in Stopped(s, RulesOf(s, config)).clients {
          StartKeepsCountsExactly(s, config, env);
        }
      }
    case Stop(config) => StoppedIsCounted(s, RulesOf(s, config));
    case StopEverything => AllStoppedIsCounted(s);
  }

  /** Over every run in which each start is clean: an asset has a connection exactly when rules run on it, and the
      connection's count is the number of those rules. */
  lemma {:induction false} RunIsCounted(states: seq<State>, ops: seq<Operation>, i: nat)
    requires IsRun(states, ops) && i < |states|
    requires forall k | 0 <= k < i :: IsClean(states[k], ops[k])
    ensures Counted(states[i])
  {
    hide Counted, After, Fresh, IsClean;
    if i == 0 {
      assert Counted(EMPTY) by { EmptyIsCounted(); }
    } else {
      RunIsCounted(states, ops, i - 1);
      OperationIsCounted(states[i - 1], ops[i - 1]);
    }
  }

  lemma EmptyIsCounted()
    ensures Counted(EMPTY)
  {
    forall a ensures RefsOk(EMPTY, a) {
      assert RulesOn(EMPTY, {}, a) == {};
    }
  }

  /** In such a run, stopping a configuration stops exactly its rules, and closes exactly the connections that no
      remaining rule uses. */
  lemma StopIsExact(states: seq<State>, ops: seq<Operation>, i: nat, config: int)
    requires IsRun(states, ops) && i < |ops| && ops[i] == Stop(config)
    requires forall k | 0 <= k < i :: IsClean(states[k], ops[k])
    ensures var s, t := states[i], states[i + 1];
            && (forall r :: r in t.running <==> r in s.running && s.running[r].config != config)
            && (forall r | r in t.running :: t.running[r] == s.running[r])
            && (forall c | IsCurrent(s, c) ::
                  t.closed[c] == s.closed[c] + if Count(t, s.dialed[c]) == 0 then 1 else 0)
  {
    hide Counted, Count;
    var s := states[i];
    RunIsCounted(states, ops, i);
    RunIsValid(states, ops, i);
    StoppedIsCounted(s, RulesOf(s, config));
    forall c | IsCurrent(s, c)
      ensures Stopped(s, RulesOf(s, config)).closed[c]
           == s.closed[c] + if Count(Stopped(s, RulesOf(s, config)), s.dialed[c]) == 0 then 1 else 0
    {
      hide RulesOf, Released, ConnsOf;
      assert RefsOk(s, s.dialed[c]) by { AreOk(s, s.dialed[c]); }
      ConnsOfIs(s, Released(s, RulesOf(s, config)), c);
    }
  }

  lemma AreOk(s: State, a: int)
    requires Counted(s)
    ensures RefsOk(s, a)
  {
  }

  // The manager

  lemma OneRuleOn(s: State, r: int, a: int)
    requires r in s.running
    ensures RulesOn(s, {r}, a) == if s.running[r].asset == a then {r} else {}
  {
  }

  lemma OneReleased(s: State, r: int)
    requires r in s.running
    ensures var a := s.running[r].asset;
            Released(s, {r}) == if a in s.clients && s.clients[a].refs - 1 <= 0 then {a} else {}
  {
    hide RulesOn;
    forall a ensures RulesOn(s, {r}, a) == if s.running[r].asset == a then {r} else {} { OneRuleOn(s, r, a); }
  }

  lemma OneConn(s: State, a: int)
    requires a in s.clients
    ensures ConnsOf(s, {a}) == {s.clients[a].conn}
  {
  }

  lemma ClientsWithoutOne(s: State, r: int)
    requires r in s.running
    ensures var a := s.running[r].asset;
            Stopped(s, {r}).clients ==
              if a !in s.clients then s.clients
              else if s.clients[a].refs - 1 <= 0 then s.clients - {a}
              else s.clients[a := s.clients[a].(refs := s.clients[a].refs - 1)]
  {
    hide RulesOn, Released, ConnsOf;
    OneReleased(s, r);
    forall a ensures RulesOn(s, {r}, a) == if s.running[r].asset == a then {r} else {} { OneRuleOn(s, r, a); }
  }

  lemma StoppedOne(s: State, r: int)
    requires r in s.running
    ensures var a := s.running[r].asset;
            var t := s.(running := s.running - {r}, cancelled := s.cancelled + multiset{r});
            Stopped(s, {r}) ==
              if a !in s.clients then t
              else if s.clients[a].refs - 1 <= 0 then
                t.(clients := s.clients - {a}, closed := s.closed + multiset{s.clients[a].conn})
              else t.(clients := s.clients[a := s.clients[a].(refs := s.clients[a].refs - 1)])
  {
    hide RulesOn, Released, ConnsOf;
    var a := s.running[r].asset;
    ClientsWithoutOne(s, r);
    OneReleased(s, r);
    NoConns(s);
    if a in s.clients {
      OneConn(s, a);
    }
    assert {r} * s.running.Keys == {r} && s.closed + multiset({}) == s.closed;
  }

  lemma NoRulesOn(s: State, a: int)
    ensures RulesOn(s, {}, a) == {}
  {
  }

  lemma StoppedNone(s: State)
    ensures Stopped(s, {}) == s
  {
    hide RulesOn, ConnsOf;
    forall a ensures RulesOn(s, {}, a) == {} { NoRulesOn(s, a); }
    assert Released(s, {}) == {};
    assert ConnsOf(s, {}) == {} by { NoConns(s); }
    assert s.running - {} == s.running && {} * s.running.Keys == {};
    assert Stopped(s, {}).clients == s.clients;
  }

  lemma NoConns(s: State)
    ensures ConnsOf(s, {}) == {}
  {
  }

  lemma RulesOnOneMore(s: State, done: set<int>, r: int, a: int)
    requires r in s.running && r !in done
    ensures |RulesOn(s, done + {r}, a)| == |RulesOn(s, done, a)| + if s.running[r].asset == a then 1 else 0
    ensures RulesOn(Stopped(s, done), {r}, a) == if s.running[r].asset == a then {r} else {}
    ensures RulesOn(s, done + {r}, a) == {} <==> RulesOn(s, done, a) == {} && s.running[r].asset != a
    ensures RulesOn(s, done, a) == {} <==> |RulesOn(s, done, a)| == 0
  {
    assert RulesOn(s, done + {r}, a) == RulesOn(s, done, a) + if s.running[r].asset == a then {r} else {};
  }

  lemma ReleasedOneMore(s: State, done: set<int>, r: int)
    requires r in s.running && r !in done
    ensures Released(s, done + {r}) == Released(s, done) + Released(Stopped(s, done), {r})
    ensures Released(s, done) !! Released(Stopped(s, done), {r})
  {
    hide Released, Stopped;
    var all, before, last := Released(s, done + {r}), Released(s, done), Released(Stopped(s, done), {r});
    forall a ensures (a in all <==> a in before || a in last) && !(a in before && a in last) {
      AssetOneMore(s, done, r, a);
    }
  }

  lemma AssetOneMore(s: State, done: set<int>, r: int, a: int)
    requires r in s.running && r !in done
    ensures a in Released(s, done + {r}) <==> a in Released(s, done) || a in Released(Stopped(s, done), {r})
    ensures !(a in Released(s, done) && a in Released(Stopped(s, done), {r}))
  {
    hide RulesOn;
    RulesOnOneMore(s, done, r, a);
  }

  lemma ConnsOfOneMore(s: State, done: set<int>, r: int)
    requires r in s.running && r !in done && forall a :: OwnerOk(s, a)
    ensures multiset(ConnsOf(s, Released(s, done + {r})))
         == multiset(ConnsOf(s, Released(s, done))) + multiset(ConnsOf(Stopped(s, done), Released(Stopped(s, done), {r})))
  {
    hide RulesOn;
    ReleasedOneMore(s, done, r);
    var t := Stopped(s, done);
    var x, y := Released(s, done), Released(t, {r});
    forall c ensures c in ConnsOf(s, x + y) <==> c in ConnsOf(s, x) || c in ConnsOf(t, y)
      ensures !(c in ConnsOf(s, x) && c in ConnsOf(t, y))
    {
      hide ConnsOf, Released;
      forall a ensures OwnerOk(t, a) { assert OwnerOk(s, a); }
      ConnsOfIs(s, x + y, c);
      ConnsOfIs(s, x, c);
      ConnsOfIs(t, y, c);
    }
    assert ConnsOf(s, x + y) == ConnsOf(s, x) + ConnsOf(t, y);
  }

  lemma ClientsOneMore(s: State, done: set<int>, r: int)
    requires r in s.running && r !in done
    ensures Stopped(Stopped(s, done), {r}).clients == Stopped(s, done + {r}).clients
  {
    hide RulesOn, Released, ConnsOf;
    ReleasedOneMore(s, done, r);
    var t := Stopped(s, done);
    forall a ensures |RulesOn(s, done + {r}, a)| == |RulesOn(s, done, a)| + |RulesOn(t, {r}, a)| {
      RulesOnOneMore(s, done, r, a);
    }
  }

  /** One rule after the other is the same as all at once. */
  lemma StopOneMore(s: State, done: set<int>, r: int)
    requires r in s.running && r !in done && forall a :: OwnerOk(s, a)
    ensures Stopped(Stopped(s, done), {r}) == Stopped(s, done + {r})
  {
    hide RulesOn, Released, ConnsOf, OwnerOk;
    ClientsOneMore(s, done, r);
    ConnsOfOneMore(s, done, r);
    var t := Stopped(s, done);
    assert t.running - {r} == s.running - (done + {r});
    assert (done + {r}) * s.running.Keys == done * s.running.Keys + {r} * t.running.Keys;
    assert done * s.running.Keys !! {r} * t.running.Keys;
  }

  datatype Status = IsStopped | IsError | IsRunning | IsPartial

  function FailedOf(s: State, config: int): set<int> {
    set r | r in s.running && s.running[r].config == config && s.running[r].error != ""
  }

  class Manager {
    var running: map<int, Forward>
    var clients: map<int, Client>
    var closed: multiset<Conn>
    var cancelled: multiset<int>
    ghost var dialed: map<Conn, int>

    ghost function Abs(): State
      reads this
    {
      State(running, clients, dialed, closed, cancelled)
    }

    constructor ()
      ensures Abs() == EMPTY
    {
      running, clients, closed, cancelled, dialed := map[], map[], multiset{}, multiset{}, map[];
    }

    method ReleaseClientLocked(asset: int)
      modifies this`clients, this`closed
      ensures clients ==
        if asset !in old(clients) then old(clients)
        else if old(clients)[asset].refs - 1 <= 0 then old(clients) - {asset}
        else old(clients)[asset := old(clients)[asset].(refs := old(clients)[asset].refs - 1)]
      ensures closed == if asset in old(clients) && asset !in clients then old(closed) + multiset{old(clients)[asset].conn}
                        else old(closed)
    {
      if asset !in clients {
        return;
      }
      var c := clients[asset].(refs := clients[asset].refs - 1);
      clients := clients[asset := c];
      if c.refs <= 0 {
        closed := closed + multiset{c.conn};
        clients := clients - {asset};
      }
    }

    method StopRule(rule: int)
      requires rule in running && forall a :: OwnerOk(Abs(), a)
      modifies this`running, this`clients, this`closed, this`cancelled
      ensures Abs() == Stopped(old(Abs()), {rule})
    {
      StoppedOne(Abs(), rule);
      cancelled := cancelled + multiset{rule};
      ReleaseClientLocked(running[rule].asset);
      running := running - {rule};
    }

    method StopConfigLocked(config: int)
      requires Valid(Abs())
      modifies this`running, this`clients, this`closed, this`cancelled
      ensures Abs() == Stopped(old(Abs()), RulesOf(old(Abs()), config))
    {
      hide Valid, Stopped, ConnOk, OwnerOk;
      ghost var s := Abs();
      StoppedNone(s);
      ghost var done: set<int> := {};
      var todo := running.Keys;
      while todo != {}
        invariant todo <= s.running.Keys && done !! todo
        invariant done <= RulesOf(s, config) <= done + todo
        invariant Abs() == Stopped(s, done)
      {
        HasMember(todo);
        var r :| r in todo;
        todo := todo - {r};
        StillRunning(s, done, r);
        Owners(s);
        if running[r].config == config {
          StoppedIsValid(s, done);
          Owners(Stopped(s, done));
          StopOneMore(s, done, r);
          StopRule(r);
          done := done + {r};
        }
      }
      assert done == RulesOf(s, config);
    }

    method StopConfig(config: int)
      requires Valid(Abs())
      modifies this`running, this`clients, this`closed, this`cancelled
      ensures Abs() == After(old(Abs()), Stop(config))
    {
      StopConfigLocked(config);
    }

    method GetOrDialLocked(asset: int, dial: Option<Conn>) returns (ok: bool)
      modifies this`clients, this`dialed
      ensures ok == (asset in old(clients) || dial.Some?)
      ensures Abs() == if asset !in old(clients) && dial.Some? then WithClient(old(Abs()), asset, dial.value) else old(Abs())
    {
      if asset in clients {
        return true;
      }
      if dial == None {
        return false;
      }
      clients, dialed := clients[asset := Client(dial.value, 0)], dialed[dial.value := asset];
      ok := true;
    }

    method StartRule(config: int, asset: int, rule: Rule)
      requires asset in clients
      modifies this`running, this`clients, this`cancelled
      ensures Abs() == RuleStarted(old(Abs()), config, asset, rule) && asset in clients
    {
      if rule.failure.Some? {
        cancelled := cancelled + multiset{rule.id};
      }
      running := running[rule.id := Forward(config, asset, ErrorText(rule))];
      clients := clients[asset := clients[asset].(refs := clients[asset].refs + 1)];
    }

    method StartRules(config: int, asset: int, rules: seq<Rule>)
      requires asset in clients
      modifies this`running, this`clients, this`cancelled
      ensures Abs() == RulesStarted(old(Abs()), config, asset, rules)
    {
      hide RulesStarted, RuleStarted;
      ghost var s := Abs();
      assert rules[0..] == rules;
      for i := 0 to |rules|
        invariant asset in clients
        invariant RulesStarted(Abs(), config, asset, rules[i..]) == RulesStarted(s, config, asset, rules)
      {
        StartStep(Abs(), config, asset, rules, i);
        StartRule(config, asset, rules[i]);
      }
      NothingToStart(Abs(), config, asset, rules[|rules|..]);
    }

    /** A start stops the rules of the configuration that run, even when the dial then fails. */
    method StartConfig(config: int, env: Environment) returns (outcome: Outcome)
      requires Valid(Abs()) && Fresh(Abs(), Start(config, env))
      modifies this
      ensures Abs() == After(old(Abs()), Start(config, env))
      ensures outcome == NoConfig <==> env.asset == None
      ensures outcome == Unreadable <==> env.asset.Some? && env.rules == None
      ensures outcome == NoRules <==> env.asset.Some? && env.rules == Some([])
      ensures outcome == Started ==> RulesOf(Abs(), config) == Ids(env.rules.value) && env.asset.value in clients
    {
      hide Valid, Stopped, RulesStarted, RulesOf;
      if env.asset == None {
        return NoConfig;
      }
      if env.rules == None {
        return Unreadable;
      }
      if |env.rules.value| == 0 {
        return NoRules;
      }
      var asset, rules := env.asset.value, env.rules.value;
      StopConfigLocked(config);
      var ok := GetOrDialLocked(asset, env.dial);
      if !ok {
        return DialFailed;
      }
      StartedRules(old(Abs()), Abs(), config, asset, rules);
      StartRules(config, asset, rules);
      outcome := Started;
    }

    method StopAll()
      requires Valid(Abs())
      modifies this
      ensures Abs() == After(old(Abs()), StopEverything)
    {
      hide Valid, ConnsOf;
      Owners(Abs());
      CancelAll();
      SameConnections(old(Abs()), Abs());
      CloseAll();
    }

    method CancelAll()
      modifies this`running, this`cancelled
      ensures running == map[] && cancelled == old(cancelled) + multiset(old(running).Keys)
    {
      var todo := running.Keys;
      ghost var done: set<int> := {};
      while todo != {}
        invariant running.Keys == todo && done !! todo && done + todo == old(running).Keys
        invariant cancelled == old(cancelled) + multiset(done)
      {
        HasMember(todo);
        var r :| r in todo;
        todo := todo - {r};
        assert multiset(done + {r}) == multiset(done) + multiset{r};
        cancelled := cancelled + multiset{r};
        running := running - {r};
        done := done + {r};
      }
      assert done == old(running).Keys;
    }

    method CloseAll()
      requires forall a :: OwnerOk(Abs(), a)
      modifies this`clients, this`closed
      ensures clients == map[] && closed == old(closed) + multiset(ConnsOf(old(Abs()), old(clients).Keys))
    {
      hide OwnerOk, ConnsOf;
      ghost var s := Abs();
      NoConns(s);
      var todo := clients.Keys;
      assert s.clients.Keys - todo == {} && closed + multiset({}) == closed;
      while todo != {}
        invariant clients.Keys == todo <= s.clients.Keys && forall a | a in todo :: clients[a] == s.clients[a]
        invariant closed == s.closed + multiset(ConnsOf(s, s.clients.Keys - todo))
      {
        HasMember(todo);
        var a :| a in todo;
        CloseOneMore(s, s.clients.Keys - todo, a);
        assert s.clients.Keys - todo + {a} == s.clients.Keys - (todo - {a});
        todo := todo - {a};
        closed := closed + multiset{clients[a].conn};
        clients := clients - {a};
      }
      assert s.clients.Keys - todo == s.clients.Keys;
    }

    method CountRules(config: int) returns (up: nat, errored: nat, total: nat)
      ensures total == |RulesOf(Abs(), config)| && errored == |FailedOf(Abs(), config)| && up == total - errored
    {
      hide RulesOf, FailedOf, Among;
      up, errored, total := 0, 0, 0;
      var todo := running.Keys;
      ghost var seen: set<int> := {};
      ghost var mine, failed := RulesOf(Abs(), config), FailedOf(Abs(), config);
      NoneSeen(mine);
      NoneSeen(failed);
      while todo != {}
        invariant seen !! todo && seen + todo == running.Keys
        invariant total == Among(mine, seen) && errored == Among(failed, seen) && up == total - errored
      {
        HasMember(todo);
        var r :| r in todo;
        Membership(Abs(), config, r);
        OneMoreSeen(mine, seen, r);
        OneMoreSeen(failed, seen, r);
        todo, seen := todo - {r}, seen + {r};
        if running[r].config == config {
          total := total + 1;
          if running[r].error != "" {
            errored := errored + 1;
          } else {
            up := up + 1;
          }
        }
      }
      Membership(Abs(), config, 0);
      AllSeen(mine, seen);
      AllSeen(failed, seen);
    }

    method GetConfigStatus(config: int) returns (status: Status)
      ensures var rules, failed := RulesOf(Abs(), config), FailedOf(Abs(), config);
              && (status == IsStopped <==> rules == {})
              && (status == IsError <==> rules != {} && failed == rules)
              && (status == IsRunning <==> rules != {} && failed == {})
    {
      hide RulesOf, FailedOf;
      var up, errored, total := CountRules(config);
      Membership(Abs(), config, 0);
      AllOrSome(RulesOf(Abs(), config), FailedOf(Abs(), config));
      if total == 0 {
        return IsStopped;
      }
      if errored == total {
        return IsError;
      }
      if up == total {
        return IsRunning;
      }
      status := IsPartial;
    }
  }

  function Among(x: set<int>, seen: set<int>): nat {
    |x * seen|
  }

  lemma NoneSeen(x: set<int>)
    ensures Among(x, {}) == 0
  {
    assert x * {} == {};
  }

  lemma AllSeen(x: set<int>, seen: set<int>)
    requires x <= seen
    ensures Among(x, seen) == |x|
  {
    assert x * seen == x;
  }

  lemma Membership(s: State, config: int, r: int)
    ensures r in RulesOf(s, config) <==> r in s.running && s.running[r].config == config
    ensures r in FailedOf(s, config) <==> r in s.running && s.running[r].config == config && s.running[r].error != ""
    ensures FailedOf(s, config) <= RulesOf(s, config) <= s.running.Keys
  {
  }

  lemma OneMoreSeen(x: set<int>, seen: set<int>, r: int)
    requires r !in seen
    ensures Among(x, seen + {r}) == Among(x, seen) + if r in x then 1 else 0
  {
    assert x * (seen + {r}) == x * seen + if r in x then {r} else {};
  }

  lemma SameConnections(s: State, t: State)
    requires s.clients == t.clients && s.dialed == t.dialed && forall a :: OwnerOk(s, a)
    ensures forall a :: OwnerOk(t, a)
    ensures ConnsOf(t, t.clients.Keys) == ConnsOf(s, s.clients.Keys)
  {
    forall a ensures OwnerOk(t, a) { assert OwnerOk(s, a); }
  }

  lemma StartStep(s: State, config: int, asset: int, rules: seq<Rule>, i: nat)
    requires asset in s.clients && i < |rules|
    ensures RulesStarted(s, config, asset, rules[i..])
         == RulesStarted(RuleStarted(s, config, asset, rules[i]), config, asset, rules[i + 1..])
  {
    assert rules[i..][0] == rules[i] && rules[i..][1..] == rules[i + 1..];
  }

  lemma NothingToStart(s: State, config: int, asset: int, rules: seq<Rule>)
    requires asset in s.clients && rules == []
    ensures RulesStarted(s, config, asset, rules) == s
  {
  }

  lemma AllOrSome(all: set<int>, some: set<int>)
    requires some <= all
    ensures |some| <= |all| && (|some| == |all| <==> some == all)
  {
    assert all == some + (all - some);
  }

  lemma CloseOneMore(s: State, done: set<int>, a: int)
    requires a in s.clients && a !in done && forall b :: OwnerOk(s, b)
    ensures multiset(ConnsOf(s, done + {a})) == multiset(ConnsOf(s, done)) + multiset{s.clients[a].conn}
  {
    assert OwnerOk(s, a);
    ConnsOfIs(s, done, s.clients[a].conn);
    assert ConnsOf(s, done + {a}) == ConnsOf(s, done) + {s.clients[a].conn};
  }

  lemma Owners(s: State)
    requires Valid(s)
    ensures forall a :: OwnerOk(s, a)
  {
  }

  lemma StillRunning(s: State, done: set<int>, r: int)
    requires r in s.running && r !in done
    ensures r in Stopped(s, done).running && Stopped(s, done).running[r] == s.running[r]
  {
  }

  lemma StartedRules(s: State, t: State, config: int, asset: int, rules: seq<Rule>)
    requires asset in t.clients && t.running == Stopped(s, RulesOf(s, config)).running
    ensures RulesOf(RulesStarted(t, config, asset, rules), config) == Ids(rules)
    ensures asset in RulesStarted(t, config, asset, rules).clients
  {
    hide RulesStarted, Ids;
    StartedState(t, config, asset, rules);
    var u := RulesStarted(t, config, asset, rules);
    forall r ensures r in RulesOf(u, config) <==> r in Ids(rules) {
      assert r in u.running <==> r in t.running || r in Ids(rules);
    }
  }
}
