/** Running a batch of commands: each is decided on, the open ones are put to the user together, and those that are
    allowed are dispatched in parallel, at most ten at a time, to handlers that check once more. */
module Batch {
  import opened Text
  import opened PolicyModel

  datatype CommandType = Exec | Sql | RedisCmd | OtherType

  /** A command of the batch: its type, its asset if it was found, and what the policy says of it at first. */
  datatype Item = Item(kind: CommandType, asset: Option<int>, command: string, policy: Decision)

  datatype Reply = Reject | Accept

  /** The policy checker of the call: none, one that cannot ask, or one that can ask the user. */
  datatype Checker = NoChecker | Silent | Asking

  // Decisions

  /** A command without an asset is denied; without a policy checker everything else is allowed. */
  function FirstDecision(item: Item, checker: Checker): Decision {
    if item.asset == None then Deny else if checker != NoChecker then item.policy else Allow
  }

  /** The user's one answer settles every open command; without a way to ask they stay open. */
  function FinalDecision(item: Item, checker: Checker, answer: Reply): Decision {
    var d := FirstDecision(item, checker);
    if d == NeedConfirm && checker == Asking then (if answer == Reject then Deny else Allow) else d
  }

  /** Whether a command of the batch may run: its asset was found, and either nobody checks, or the policy allows it, or it
      is open and the user accepts the batch. */
  predicate MayRun(item: Item, checker: Checker, answer: Reply) {
    && item.asset.Some?
    && (checker.NoChecker? || item.policy.Allow? || (item.policy.NeedConfirm? && checker.Asking? && answer.Accept?))
  }

  function Decisions(items: seq<Item>, checker: Checker, answer: Reply): (r: seq<Decision>)
    ensures |r| == |items|
  {
    seq(|items|, i requires 0 <= i < |items| => FinalDecision(items[i], checker, answer))
  }

  /** The batch dialog is shown at most once: `asked` says whether, and `answer` is what the user says to it. */
  method Decide(items: seq<Item>, checker: Checker, answer: Reply) returns (resolved: array<Decision>, asked: bool)
    ensures fresh(resolved) && resolved[..] == Decisions(items, checker, answer)
    ensures forall i | 0 <= i < |items| :: resolved[i] == Allow <==> MayRun(items[i], checker, answer)
    ensures asked <==> checker == Asking && exists i | i in items :: FirstDecision(i, checker) == NeedConfirm
  {
    resolved := new Decision[|items|];
    for i := 0 to |items|
      invariant forall k | 0 <= k < i :: resolved[k] == FirstDecision(items[k], checker)
    {
      resolved[i] := FirstDecision(items[i], checker);
    }
    asked := false;
    if checker == Asking {
      var open := OpenItems(items, checker, resolved);
      if |open| > 0 {
        asked := true;
        assert open[0] in open;
        assert items[open[0]] in items;
        SettleOpen(items, resolved, open, answer);
      }
      forall i | 0 <= i < |items| ensures resolved[i] == FinalDecision(items[i], checker, answer) {}
    }
  }

  method OpenItems(items: seq<Item>, checker: Checker, resolved: array<Decision>) returns (open: seq<nat>)
    requires resolved.Length == |items| && forall k | 0 <= k < |items| :: resolved[k] == FirstDecision(items[k], checker)
    ensures forall k :: k in open <==> 0 <= k < |items| && FirstDecision(items[k], checker) == NeedConfirm
  {
    open := [];
    for i := 0 to |items|
      invariant forall k :: k in open <==> 0 <= k < i && FirstDecision(items[k], checker) == NeedConfirm
    {
      if resolved[i] == NeedConfirm {
        open := open + [i];
      }
    }
  }

  method SettleOpen(items: seq<Item>, resolved: array<Decision>, open: seq<nat>, answer: Reply)
    requires resolved.Length == |items| && forall k | 0 <= k < |items| :: resolved[k] == FirstDecision(items[k], Asking)
    requires forall k :: k in open <==> 0 <= k < |items| && FirstDecision(items[k], Asking) == NeedConfirm
    modifies resolved
    ensures forall k | 0 <= k < |items| :: resolved[k] == FinalDecision(items[k], Asking, answer)
  {
    for j := 0 to |open|
      invariant forall k | 0 <= k < |items| ::
                  resolved[k] == if k in open[..j] then FinalDecision(items[k], Asking, answer) else FirstDecision(items[k], Asking)
    {
      assert open[j] in open && open[..j + 1] == open[..j] + [open[j]];
      resolved[open[j]] := if answer == Reject then Deny else Allow;
    }
    assert open[..|open|] == open;
  }

  /** The indices of the commands whose decision is to run, or not to run, in order. */
  function Chosen(decisions: seq<Decision>, run: bool): seq<nat> {
    if decisions == [] then []
    else
      var n := |decisions| - 1;
      Chosen(decisions[..n], run) + if (decisions[n] == Allow) == run then [n] else []
  }

  method Partition(decisions: seq<Decision>) returns (approved: seq<nat>, denied: seq<nat>)
    ensures approved == Chosen(decisions, true) && denied == Chosen(decisions, false)
  {
    approved, denied := [], [];
    for i := 0 to |decisions|
      invariant approved == Chosen(decisions[..i], true) && denied == Chosen(decisions[..i], false)
    {
      assert decisions[..i + 1][..i] == decisions[..i];
      if decisions[i] == Allow {
        approved := approved + [i];
      } else {
        denied := denied + [i];
      }
    }
    assert decisions[..|decisions|] == decisions;
  }

  lemma {:induction false} ChosenExactly(decisions: seq<Decision>, run: bool)
    ensures forall i :: i in Chosen(decisions, run) <==> 0 <= i < |decisions| && (decisions[i] == Allow) == run
    ensures forall i, j | 0 <= i < j < |Chosen(decisions, run)| :: Chosen(decisions, run)[i] < Chosen(decisions, run)[j]
  {
    if decisions != [] {
      var n := |decisions| - 1;
      ChosenExactly(decisions[..n], run);
      forall i | 0 <= i < |Chosen(decisions[..n], run)| ensures Chosen(decisions[..n], run)[i] < n {
        assert Chosen(decisions[..n], run)[i] in Chosen(decisions[..n], run);
      }
    }
  }

  // One command

  /** What becomes of a command of the batch. One that the handler's own check refuses comes back as a success with the
      refusal as its output; one for which there is no suitable asset or connection comes back as an error. */
  datatype Outcome =
    Denied | UnknownType | MissingParameter | NotAllowed | WrongAsset | NoConnection | Unsupported | HandedOver

  datatype AssetType = Ssh | Database | RedisServer | OtherAsset

  /** What the handler meets at the time it runs: what the policy says by then and what the user would say to a question
      about this command alone; the type of the asset, if it is still there; whether its configuration can be read; whether
      the call has a cached connection to it; and whether dialing one succeeds. */
  datatype Moment = Moment(
    policy: Decision, answer: Reply, found: Option<AssetType>, configured: bool, cached: bool, dials: bool)

  function Needed(kind: CommandType): AssetType {
    match kind case Exec => Ssh case Sql => Database case RedisCmd => RedisServer case OtherType => OtherAsset
  }

  predicate IsComplete(item: Item) {
    item.kind != OtherType && item.asset.Some? && item.asset.value != 0 && item.command != ""
  }

  predicate PassesCheck(checker: Checker, now: Moment) {
    checker == NoChecker || now.policy == Allow || (now.policy == NeedConfirm && checker == Asking && now.answer == Accept)
  }

  /** The user is asked about this command alone. */
  predicate AsksAgain(item: Item, checker: Checker, now: Moment) {
    IsComplete(item) && checker == Asking && now.policy == NeedConfirm
  }

  predicate IsSuitable(kind: CommandType, now: Moment) {
    now.found == Some(Needed(kind)) && now.configured
  }

  /** A cached shell connection is used without a look at the asset. */
  predicate Connects(kind: CommandType, now: Moment) {
    if kind == Exec then now.cached || (IsSuitable(kind, now) && now.dials)
    else IsSuitable(kind, now) && (now.cached || now.dials)
  }

  /** Redis connections are shared, so the database cannot be switched on one of them. */
  predicate IsSupported(item: Item) {
    item.kind == RedisCmd ==> Fields(item.command) != [] && !EqualFold(Fields(item.command)[0], "SELECT")
  }

  /** executeBatchItem and the handler it calls, up to the point where a connection is given the command. */
  method ExecuteBatchItem(item: Item, checker: Checker, now: Moment) returns (outcome: Outcome, asked: bool)
    ensures asked <==> AsksAgain(item, checker, now)
    ensures outcome == Execution(item, checker, now)
  {
    asked := false;
    if item.kind == OtherType {
      return UnknownType, false;
    }
    if item.asset == None || item.asset == Some(0) || item.command == "" {
      return MissingParameter, false;
    }
    if checker != NoChecker {
      var decision := now.policy;
      if decision == NeedConfirm {
        if checker == Silent {
          decision := Deny;
        } else {
          asked := true;
          decision := if now.answer == Reject then Deny else Allow;
        }
      }
      if decision != Allow {
        return NotAllowed, asked;
      }
    }
    var dialed := item.kind == Exec && now.cached;
    if !dialed {
      if now.found != Some(Needed(item.kind)) {
        return WrongAsset, asked;
      }
      if !now.configured || (!now.cached && !now.dials) {
        return NoConnection, asked;
      }
    }
    if item.kind == RedisCmd {
      var parts := Fields(item.command);
      if parts == [] || EqualFold(parts[0], "SELECT") {
        return Unsupported, asked;
      }
    }
    outcome := HandedOver;
  }

  function Execution(item: Item, checker: Checker, now: Moment): Outcome {
    if item.kind == OtherType then UnknownType
    else if !IsComplete(item) then MissingParameter
    else if !PassesCheck(checker, now) then NotAllowed
    else if !Connects(item.kind, now) then (if now.found == Some(Needed(item.kind)) then NoConnection else WrongAsset)
    else if !IsSupported(item) then Unsupported
    else HandedOver
  }

  // Running in parallel

  const MAX_CONCURRENCY := 10

  datatype Phase = Waiting | Executing | Appended | Done

  /** The batch, with the decision on each of its commands. */
  datatype Batch = Batch(items: seq<Item>, checker: Checker, answer: Reply) {
    function Decided(): (r: seq<Decision>)
      ensures |r| == |items|
    {
      Decisions(items, checker, answer)
    }
  }

  /** The goroutines of the approved commands: before the semaphore, executing, with their result appended, and with
      the semaphore released; which of them hold the semaphore; the results so far, by command, and what they say; and,
      with repetition, the commands dispatched and those the user was asked about alone. */
  datatype State = State(
    phases: map<nat, Phase>, slots: set<nat>, results: seq<nat>, outcomes: map<nat, Outcome>, dispatched: multiset<nat>,
    asked: multiset<nat>)

  datatype Action = Acquire(i: nat) | Append(i: nat, now: Moment) | ReleaseSlot(i: nat)

  function Init(b: Batch): State {
    State(map i | i in Chosen(b.Decided(), true) :: Waiting, {}, Chosen(b.Decided(), false),
          map i | i in Chosen(b.Decided(), false) :: Denied, multiset{}, multiset{})
  }

  predicate InPhase(s: State, i: nat, phase: Phase) {
    i in s.phases && s.phases[i] == phase
  }

  predicate Enabled(b: Batch, s: State, a: Action) {
    match a
    case Acquire(i) => InPhase(s, i, Waiting) && |s.slots| < MAX_CONCURRENCY
    case Append(i, _) => InPhase(s, i, Executing) && i < |b.items|
    case ReleaseSlot(i) => InPhase(s, i, Appended)
  }

  function After(b: Batch, s: State, a: Action): State
    requires Enabled(b, s, a)
  {
    match a
    case Acquire(i) =>
      s.(phases := s.phases[i := Executing], slots := s.slots + {i}, dispatched := s.dispatched + multiset{i})
    case Append(i, now) =>
      s.(phases := s.phases[i := Appended], results := s.results + [i],
         outcomes := s.outcomes[i := Execution(b.items[i], b.checker, now)],
         asked := s.asked + if AsksAgain(b.items[i], b.checker, now) then multiset{i} else multiset{})
    case ReleaseSlot(i) => s.(phases := s.phases[i := Done], slots := s.slots - {i})
  }

  ghost predicate IsRun(b: Batch, states: seq<State>, actions: seq<Action>) {
    && |states| == |actions| + 1 && states[0] == Init(b)
    && forall k | 0 <= k < |actions| :: Enabled(b, states[k], actions[k]) && states[k + 1] == After(b, states[k], actions[k])
  }

  predicate HasResult(s: State, decisions: seq<Decision>, i: nat) {
    i < |decisions| && (decisions[i] != Allow || InPhase(s, i, Appended) || InPhase(s, i, Done))
  }

  predicate CommandOk(s: State, decisions: seq<Decision>, i: nat) {
    && (i in s.phases <==> i < |decisions| && decisions[i] == Allow)
    && (i in s.slots <==> InPhase(s, i, Executing) || InPhase(s, i, Appended))
    && s.dispatched[i] == (if i in s.phases && s.phases[i] != Waiting then 1 else 0)
    && multiset(s.results)[i] == (if HasResult(s, decisions, i) then 1 else 0)
    && (i in s.outcomes <==> HasResult(s, decisions, i))
    && (i in s.asked ==> InPhase(s, i, Appended) || InPhase(s, i, Done))
    && (i < |decisions| && decisions[i] != Allow ==> i in s.outcomes && s.outcomes[i] == Denied)
  }

  ghost predicate Inv(b: Batch, s: State) {
    && (forall i :: CommandOk(s, b.Decided(), i))
    && |s.slots| <= MAX_CONCURRENCY && Chosen(b.Decided(), false) <= s.results
  }

  lemma {:induction false} Occurrences(s: seq<nat>, i: nat)
    requires forall j, k | 0 <= j < k < |s| :: s[j] < s[k]
    ensures multiset(s)[i] == if i in s then 1 else 0
  {
    if s != [] {
      var n := |s| - 1;
      assert s == s[..n] + [s[n]];
      assert forall j | 0 <= j < n :: s[..n][j] == s[j];
      Occurrences(s[..n], i);
    }
  }

  lemma InitHasInv(b: Batch)
    ensures Inv(b, Init(b))
  {
    ChosenExactly(b.Decided(), true);
    ChosenExactly(b.Decided(), false);
    forall i ensures CommandOk(Init(b), b.Decided(), i) {
      Occurrences(Chosen(b.Decided(), false), i);
    }
  }

  lemma StepKeepsInv(b: Batch, s: State, a: Action)
    requires Inv(b, s) && Enabled(b, s, a)
    ensures Inv(b, After(b, s, a))
  {
    hide CommandOk, Batch.Decided;
    forall i ensures CommandOk(After(b, s, a), b.Decided(), i) { StepKeepsCommand(b, s, a, b.Decided(), i); }
    assert CommandOk(s, b.Decided(), a.i);
    StepKeepsSlots(b, s, a, b.Decided());
  }

  lemma StepKeepsCommand(b: Batch, s: State, a: Action, decisions: seq<Decision>, i: nat)
    requires CommandOk(s, decisions, i) && CommandOk(s, decisions, a.i) && Enabled(b, s, a)
    ensures CommandOk(After(b, s, a), decisions, i)
  {
    hide Execution, AsksAgain;
  }

  lemma StepKeepsSlots(b: Batch, s: State, a: Action, decisions: seq<Decision>)
    requires CommandOk(s, decisions, a.i) && Enabled(b, s, a) && |s.slots| <= MAX_CONCURRENCY
    ensures |After(b, s, a).slots| <= MAX_CONCURRENCY && s.results <= After(b, s, a).results
  {
  }

  lemma {:induction false} RunKeepsInv(b: Batch, states: seq<State>, actions: seq<Action>, k: nat)
    requires IsRun(b, states, actions) && k < |states|
    ensures Inv(b, states[k])
  {
    hide Enabled, After, Inv, Init;
    if k == 0 {
      InitHasInv(b);
    } else {
      RunKeepsInv(b, states, actions, k - 1);
      StepKeepsInv(b, states[k - 1], actions[k - 1]);
    }
  }

  function InExecution(s: State): set<nat> {
    set x | x in s.phases && s.phases[x] == Executing
  }

  lemma SmallerSet(a: set<nat>, b: set<nat>)
    requires a <= b
    ensures |a| <= |b|
  {
    assert b == a + (b - a);
  }

  /** At any moment of any schedule: at most ten commands are being executed, only commands that were decided to run are
      dispatched, and none is dispatched twice. */
  lemma ExecutionIsBounded(b: Batch, states: seq<State>, actions: seq<Action>, k: nat, i: nat)
    requires IsRun(b, states, actions) && k < |states|
    ensures |InExecution(states[k])| <= 10
    ensures states[k].dispatched[i] <= 1
    ensures i in states[k].dispatched ==> i < |b.items| && MayRun(b.items[i], b.checker, b.answer)
  {
    var s := states[k];
    RunKeepsInv(b, states, actions, k);
    assert CommandOk(s, b.Decided(), i);
    forall x | x in InExecution(s) ensures x in s.slots { assert CommandOk(s, b.Decided(), x); }
    SmallerSet(InExecution(s), s.slots);
  }

  /** A run in which every goroutine has finished. */
  ghost predicate IsFinished(b: Batch, states: seq<State>, actions: seq<Action>) {
    IsRun(b, states, actions) && forall x | x in states[|actions|].phases :: states[|actions|].phases[x] == Done
  }

  /** When every goroutine has finished: exactly the commands decided to run have been dispatched, and there is exactly one
      result for each command of the batch, those not dispatched first and in order. */
  lemma OneResultEach(b: Batch, states: seq<State>, actions: seq<Action>, i: nat)
    requires IsFinished(b, states, actions)
    ensures var s := states[|actions|];
            && s.dispatched[i] == (if i < |b.items| && MayRun(b.items[i], b.checker, b.answer) then 1 else 0)
            && multiset(s.results)[i] == (if i < |b.items| then 1 else 0)
            && (i in s.outcomes <==> i < |b.items|)
            && Chosen(b.Decided(), false) <= s.results
  {
    RunKeepsInv(b, states, actions, |actions|);
    assert CommandOk(states[|actions|], b.Decided(), i);
    DecidedExactly(b, i);
    hide Batch.Decided, IsRun, MayRun;
  }

  lemma DecidedExactly(b: Batch, i: nat)
    ensures i < |b.items| ==> (b.Decided()[i] == Allow <==> MayRun(b.items[i], b.checker, b.answer))
  {
  }

  /** What the batch and the user decide is what is done: in a finished run, a command is dispatched exactly if it may run,
      and the others, those of a refused batch among them, have the outcome Denied. */
  lemma DispatchedExactly(b: Batch, states: seq<State>, actions: seq<Action>, i: nat)
    requires IsFinished(b, states, actions) && i < |b.items|
    ensures var s := states[|actions|];
            && s.dispatched[i] == (if MayRun(b.items[i], b.checker, b.answer) then 1 else 0)
            && i in s.outcomes && (s.outcomes[i] == Denied <==> !MayRun(b.items[i], b.checker, b.answer))
  {
    OneResultEach(b, states, actions, i);
    RunKeepsInv(b, states, actions, |actions|);
    assert CommandOk(states[|actions|], b.Decided(), i);
    if b.Decided()[i] == Allow {
      OutcomeOrigin(b, states, actions, |actions|, i);
    }
  }

  /** After the user has refused the batch no open command is dispatched, and one that the policy denies never is. */
  lemma RefusedIsNotDispatched(b: Batch, states: seq<State>, actions: seq<Action>, k: nat, i: nat)
    requires IsRun(b, states, actions) && k < |states| && i < |b.items| && b.checker != NoChecker
    requires b.items[i].policy == Deny || (b.items[i].policy == NeedConfirm && (b.checker == Silent || b.answer == Reject))
    ensures states[k].dispatched[i] == 0
  {
    ExecutionIsBounded(b, states, actions, k, i);
  }

  /** Command `i` was executed in step `j`, and this is what came of it. */
  predicate ExecutedAt(b: Batch, actions: seq<Action>, s: State, j: nat, i: nat)
    requires j < |actions| && i < |b.items|
  {
    && actions[j].Append? && actions[j].i == i
    && i in s.outcomes && s.outcomes[i] == Execution(b.items[i], b.checker, actions[j].now)
    && s.asked[i] == (if AsksAgain(b.items[i], b.checker, actions[j].now) then 1 else 0)
  }

  lemma ExecutedNow(b: Batch, states: seq<State>, actions: seq<Action>, k: nat, i: nat)
    requires IsRun(b, states, actions) && k < |actions| && i < |b.items| && CommandOk(states[k], b.Decided(), i)
    requires actions[k].Append? && actions[k].i == i
    ensures ExecutedAt(b, actions, states[k + 1], k, i)
  {
    hide Execution, AsksAgain, Batch.Decided;
    assert Enabled(b, states[k], actions[k]) && states[k + 1] == After(b, states[k], actions[k]);
  }

  lemma ExecutedBefore(b: Batch, states: seq<State>, actions: seq<Action>, k: nat, i: nat)
    requires IsRun(b, states, actions) && k < |actions| && !(actions[k].Append? && actions[k].i == i)
    ensures i in states[k + 1].outcomes <==> i in states[k].outcomes
    ensures i in states[k].outcomes ==> states[k + 1].outcomes[i] == states[k].outcomes[i]
    ensures states[k + 1].asked[i] == states[k].asked[i]
  {
    hide Execution, AsksAgain;
    assert Enabled(b, states[k], actions[k]) && states[k + 1] == After(b, states[k], actions[k]);
  }

  lemma SameExecution(b: Batch, states: seq<State>, actions: seq<Action>, k: nat, j: nat, i: nat)
    requires IsRun(b, states, actions) && k < |actions| && !(actions[k].Append? && actions[k].i == i)
    requires j < |actions| && i < |b.items| && ExecutedAt(b, actions, states[k], j, i)
    ensures ExecutedAt(b, actions, states[k + 1], j, i)
  {
    hide Execution, AsksAgain, IsRun;
    ExecutedBefore(b, states, actions, k, i);
  }

  lemma {:induction false} OutcomeOrigin(b: Batch, states: seq<State>, actions: seq<Action>, k: nat, i: nat)
    requires IsRun(b, states, actions) && k < |states| && i < |b.items| && b.Decided()[i] == Allow
    requires i in states[k].outcomes
    ensures exists j | 0 <= j < k :: ExecutedAt(b, actions, states[k], j, i)
    decreases k
  {
    hide Execution, AsksAgain;
    if k == 0 {
      ChosenExactly(b.Decided(), false);
      assert false;
    } else {
      RunKeepsInv(b, states, actions, k - 1);
      assert CommandOk(states[k - 1], b.Decided(), i);
      hide CommandOk, Inv, Enabled, After, Batch.Decided, ExecutedAt;
      if actions[k - 1].Append? && actions[k - 1].i == i {
        ExecutedNow(b, states, actions, k - 1, i);
      } else {
        ExecutedBefore(b, states, actions, k - 1, i);
        OutcomeOrigin(b, states, actions, k - 1, i);
        var j :| 0 <= j < k - 1 && ExecutedAt(b, actions, states[k - 1], j, i);
        SameExecution(b, states, actions, k - 1, j, i);
      }
    }
  }

  predicate Runs(a: Action, i: nat) {
    a.Append? && a.i == i
  }

  /** The one step of a finished run in which the command was executed. */
  lemma TheExecution(b: Batch, states: seq<State>, actions: seq<Action>, i: nat) returns (j: nat)
    requires IsFinished(b, states, actions) && i < |b.items| && b.Decided()[i] == Allow
    ensures j < |actions| && ExecutedAt(b, actions, states[|actions|], j, i)
    ensures forall m | 0 <= m < |actions| && Runs(actions[m], i) :: m == j
  {
    OneResultEach(b, states, actions, i);
    OutcomeOrigin(b, states, actions, |actions|, i);
    j :| 0 <= j < |actions| && ExecutedAt(b, actions, states[|actions|], j, i);
    forall m | 0 <= m < |actions| && Runs(actions[m], i) ensures m == j {
      ExecutedOnce(b, states, actions, j, m, i);
    }
  }

  /** The handler of a command lets it through at the time it runs, and has a connection for it. */
  predicate GetsThrough(item: Item, checker: Checker, now: Moment) {
    && (checker == NoChecker || now.policy == Allow
        || (now.policy == NeedConfirm && checker == Asking && now.answer == Accept))
    && (match item.kind
        case Exec => now.cached || (now.found == Some(Ssh) && now.configured && now.dials)
        case Sql => now.found == Some(Database) && now.configured && (now.cached || now.dials)
        case RedisCmd => now.found == Some(RedisServer) && now.configured && (now.cached || now.dials)
        case OtherType => false)
  }

  /** There is something to send; on a shared Redis connection no database can be selected. */
  predicate IsSendable(item: Item) {
    && item.asset.Some? && item.asset != Some(0) && item.command != ""
    && (item.kind == RedisCmd ==> Fields(item.command) != [] && ToUpper(Fields(item.command)[0]) != "SELECT")
  }

  /** What really runs. A command is given to a connection exactly when the batch decided to run it, its type is known and
      its asset and text are there, the text is one that the handler sends, and at the time it runs the handler's own check
      lets it pass (no checker, allowed by then, or accepted by the user once more) and it has a connection: a cached one
      or a new one, to an asset that is of the right type by then; a cached shell connection needs no look at the asset. */
  lemma HandedOverExactly(b: Batch, states: seq<State>, actions: seq<Action>, i: nat)
    requires IsFinished(b, states, actions) && i < |b.items|
    ensures i in states[|actions|].outcomes
    ensures states[|actions|].outcomes[i] == HandedOver
       <==> && MayRun(b.items[i], b.checker, b.answer) && IsSendable(b.items[i])
            && exists j | 0 <= j < |actions| && Runs(actions[j], i) :: GetsThrough(b.items[i], b.checker, actions[j].now)
  {
    OneResultEach(b, states, actions, i);
    RunKeepsInv(b, states, actions, |actions|);
    assert CommandOk(states[|actions|], b.Decided(), i);
    if b.Decided()[i] == Allow {
      var j := TheExecution(b, states, actions, i);
      HandedOverMeans(b.items[i], b.checker, actions[j].now);
    }
  }

  lemma HandedOverMeans(item: Item, checker: Checker, now: Moment)
    ensures Execution(item, checker, now) == HandedOver <==> IsSendable(item) && GetsThrough(item, checker, now)
  {
    assert ToUpper("SELECT") == "SELECT";
  }

  /** How often the user is asked about one command alone: once, if it is dispatched and the policy leaves it open when it
      runs, and otherwise never. */
  lemma AskedAgainExactly(b: Batch, states: seq<State>, actions: seq<Action>, i: nat)
    requires IsFinished(b, states, actions) && i < |b.items|
    ensures var again := && MayRun(b.items[i], b.checker, b.answer) && IsComplete(b.items[i]) && b.checker == Asking
                         && exists j | 0 <= j < |actions| && Runs(actions[j], i) :: actions[j].now.policy == NeedConfirm;
            states[|actions|].asked[i] == if again then 1 else 0
  {
    RunKeepsInv(b, states, actions, |actions|);
    assert CommandOk(states[|actions|], b.Decided(), i);
    if b.Decided()[i] == Allow {
      var j := TheExecution(b, states, actions, i);
    }
  }

  /** So accepting the batch does not settle its open commands: while the policy says the same, the user is asked about
      each of them again, and it runs only if the second answer accepts it too. */
  lemma AcceptedIsAskedAgain(b: Batch, states: seq<State>, actions: seq<Action>, i: nat)
    requires IsFinished(b, states, actions) && i < |b.items| && IsComplete(b.items[i])
    requires b.checker == Asking && b.answer == Accept && b.items[i].policy == NeedConfirm
    requires forall j | 0 <= j < |actions| && Runs(actions[j], i) :: actions[j].now.policy == NeedConfirm
    ensures states[|actions|].dispatched[i] == 1 && states[|actions|].asked[i] == 1 && i in states[|actions|].outcomes
    ensures states[|actions|].outcomes[i] == NotAllowed
       <==> exists j | 0 <= j < |actions| && Runs(actions[j], i) :: actions[j].now.answer == Reject
  {
    AskedAgainExactly(b, states, actions, i);
    DispatchedExactly(b, states, actions, i);
    var j := TheExecution(b, states, actions, i);
    assert Runs(actions[j], i);
  }

  /** After its result has been appended a command is not executed again. */
  lemma {:induction false} StaysFinished(b: Batch, states: seq<State>, actions: seq<Action>, j: nat, k: nat, i: nat)
    requires IsRun(b, states, actions) && j <= k < |states|
    requires InPhase(states[j], i, Appended) || InPhase(states[j], i, Done)
    ensures InPhase(states[k], i, Appended) || InPhase(states[k], i, Done)
    decreases k - j
  {
    hide InPhase, Enabled, After, Init;
    if j < k {
      StaysFinished(b, states, actions, j, k - 1, i);
      StepStaysFinished(b, states[k - 1], actions[k - 1], i);
    }
  }

  lemma StepStaysFinished(b: Batch, s: State, a: Action, i: nat)
    requires Enabled(b, s, a) && (InPhase(s, i, Appended) || InPhase(s, i, Done))
    ensures InPhase(After(b, s, a), i, Appended) || InPhase(After(b, s, a), i, Done)
  {
    hide Execution, AsksAgain;
  }

  lemma ExecutedOnce(b: Batch, states: seq<State>, actions: seq<Action>, j: nat, m: nat, i: nat)
    requires IsRun(b, states, actions) && j < |actions| && m < |actions|
    requires actions[j].Append? && actions[j].i == i && actions[m].Append? && actions[m].i == i
    ensures j == m
  {
    var first, last := if j < m then j else m, if j < m then m else j;
    assert Enabled(b, states[first], actions[first]) && states[first + 1] == After(b, states[first], actions[first]);
    assert Enabled(b, states[last], actions[last]);
    if first < last {
      StaysFinished(b, states, actions, first + 1, last, i);
    }
  }

  lemma SomeHolder(slots: set<nat>) returns (x: nat)
    requires slots != {}
    ensures x in slots
  {
    HasMember(slots);
    x :| x in slots;
  }

  /** Until all have finished, some goroutine can go on. */
  lemma NeverStuck(b: Batch, states: seq<State>, actions: seq<Action>, k: nat, i: nat) returns (a: Action)
    requires IsRun(b, states, actions) && k < |states|
    requires i in states[k].phases && states[k].phases[i] != Done
    ensures Enabled(b, states[k], a)
  {
    var s := states[k];
    RunKeepsInv(b, states, actions, k);
    var x := i;
    if s.phases[i] == Waiting && s.slots != {} {
      x := SomeHolder(s.slots);
    }
    assert CommandOk(s, b.Decided(), x);
    a := if s.phases[x] == Waiting then Acquire(x)
         else if s.phases[x] == Executing then Append(x, Moment(Allow, Accept, None, false, false, false))
         else ReleaseSlot(x);
  }
}
