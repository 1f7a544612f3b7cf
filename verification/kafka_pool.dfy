/** The cache of Kafka clients: reference counts, eviction and deferred closing. */
module KafkaPool {
  import opened Text

  type Client = nat

  datatype Key = Key(asset: int, fingerprint: string)

  /** An entry is made for one client and keeps it, so entries are named by their clients. */
  datatype Entry = Entry(key: Key, lastUsed: int, refs: int, closing: bool)

  datatype Config = Config(ttl: int, max: nat)

  /** The manager's fields `clients` and the entries reachable from it or from releasers; and around them: the clients
      dialed so far, those dialed but not yet offered to the manager, the borrows not yet released (with repetition),
      the Close calls that will be made after the mutex is released, and the Close calls made. */
  datatype State = State(
    clients: map<Key, Client>, entries: map<Client, Entry>,
    dialed: set<Client>, inHand: set<Client>, borrowed: multiset<Client>, due: multiset<Client>, closed: multiset<Client>)

  const EMPTY := State(map[], map[], {}, {}, multiset{}, multiset{}, multiset{})

  // Steps

  function Gone(s: State, victims: set<Key>): set<Client> {
    set k | k in victims && k in s.clients :: s.clients[k]
  }

  function Idle(s: State, clients: set<Client>): set<Client> {
    set c | c in clients && c in s.entries && s.entries[c].refs == 0
  }

  /** Entries are taken out of the map and marked; those that nobody uses are closed, at once or after unlocking. */
  function Retire(s: State, victims: set<Key>, atOnce: bool): State {
    var gone := Gone(s, victims);
    var idle := multiset(Idle(s, gone));
    s.(clients := s.clients - victims,
       entries := map c | c in s.entries :: if c in gone then s.entries[c].(closing := true) else s.entries[c],
       closed := if atOnce then s.closed + idle else s.closed,
       due := if atOnce then s.due else s.due + idle)
  }

  function Lend(s: State, key: Key, now: int): State {
    if key in s.clients && s.clients[key] in s.entries then
      var c := s.clients[key];
      var e := s.entries[c];
      s.(entries := s.entries[c := e.(lastUsed := now, refs := e.refs + 1)], borrowed := s.borrowed + multiset{c})
    else s
  }

  function Insert(s: State, key: Key, now: int, c: Client): State {
    s.(clients := s.clients[key := c], entries := s.entries[c := Entry(key, now, 1, false)],
       inHand := s.inHand - {c}, borrowed := s.borrowed + multiset{c})
  }

  predicate IsStale(e: Entry, key: Key, now: int, ttl: int) {
    now - e.lastUsed > ttl || (e.key.asset == key.asset && e.key.fingerprint != key.fingerprint)
  }

  function Stale(s: State, key: Key, now: int, ttl: int): set<Key> {
    set k | k in s.clients && s.clients[k] in s.entries && IsStale(s.entries[s.clients[k]], key, now, ttl)
  }

  function LastUsed(s: State, k: Key): int {
    if k in s.clients && s.clients[k] in s.entries then s.entries[s.clients[k]].lastUsed else 0
  }

  /** None of the keys was used later than a key that stays. */
  predicate AreOldest(s: State, victims: set<Key>) {
    forall v, k | v in victims && k in s.clients.Keys - victims :: LastUsed(s, v) <= LastUsed(s, k)
  }

  /** As many keys as the map has too many, and the oldest ones. */
  predicate AreOverflow(s: State, victims: set<Key>, max: nat) {
    && victims <= s.clients.Keys
    && |victims| == (if |s.clients| > max then |s.clients| - max else 0)
    && AreOldest(s, victims)
  }

  function KeysOf(s: State, asset: int): set<Key> {
    set k | k in s.clients && k.asset == asset
  }

  datatype Action =
    | LookUp(key: Key, now: int)              // Acquire, first critical section
    | Dial(c: Client)
    | Offer(key: Key, now: int, c: Client)    // Acquire, second critical section
    | Release(c: Client)
    | CloseAsset(asset: int)
    | Close
    | CloseDue(c: Client)                     // a Close call made without the mutex

  ghost predicate Step(cfg: Config, s: State, a: Action, t: State) {
    match a
    case LookUp(key, now) => t == Lend(Retire(s, Stale(s, key, now, cfg.ttl), true), key, now)
    case Dial(c) => c !in s.dialed && t == s.(dialed := s.dialed + {c}, inHand := s.inHand + {c})
    case Offer(key, now, c) =>
      && c in s.inHand
      && if key in s.clients then t == Lend(s, key, now).(inHand := s.inHand - {c}, due := s.due + multiset{c})
         else
           var u := Insert(s, key, now, c);
           exists victims :: AreOverflow(u, victims, cfg.max) && t == Retire(u, victims, true)
    case Release(c) => c in s.borrowed && c in s.entries && t == Released(s, c)
    case CloseAsset(asset) => t == Retire(s, KeysOf(s, asset), false)
    case Close => t == Retire(s, s.clients.Keys, false)
    case CloseDue(c) => c in s.due && t == s.(due := s.due - multiset{c}, closed := s.closed + multiset{c})
  }

  function Released(s: State, c: Client): State
    requires c in s.entries
  {
    var e := s.entries[c].(refs := s.entries[c].refs - 1);
    s.(entries := s.entries[c := e], borrowed := s.borrowed - multiset{c},
       due := if e.closing && e.refs == 0 then s.due + multiset{c} else s.due)
  }

  ghost predicate IsRun(cfg: Config, states: seq<State>, actions: seq<Action>) {
    && |states| == |actions| + 1 && states[0] == EMPTY
    && forall i | 0 <= i < |actions| :: Step(cfg, states[i], actions[i], states[i + 1])
  }

  // Invariant

  predicate MappedOk(s: State, k: Key) {
    k in s.clients ==> s.clients[k] in s.entries && s.entries[s.clients[k]].key == k && !s.entries[s.clients[k]].closing
  }

  /** The close calls made or due for a client: one after the last release of a retired entry, one for a client that
      lost the race to be stored, none otherwise. */
  predicate ClientOk(s: State, c: Client) {
    if c in s.entries then
      var e := s.entries[c];
      && c in s.dialed && c !in s.inHand
      && e.refs == s.borrowed[c]
      && s.due[c] + s.closed[c] == (if e.closing && e.refs == 0 then 1 else 0)
      && (!e.closing ==> e.key in s.clients && s.clients[e.key] == c)
    else
      && s.borrowed[c] == 0
      && s.due[c] + s.closed[c] == (if c in s.dialed && c !in s.inHand then 1 else 0)
      && (c in s.inHand ==> c in s.dialed)
  }

  ghost predicate Inv(s: State) {
    && (forall k :: MappedOk(s, k))
    && forall c :: ClientOk(s, c)
  }

  lemma EmptyHasInv()
    ensures Inv(EMPTY)
  {
  }

  lemma RetireKeepsClient(s: State, victims: set<Key>, atOnce: bool, c: Client)
    requires Inv(s)
    ensures ClientOk(Retire(s, victims, atOnce), c)
  {
    assert ClientOk(s, c);
    if c in s.entries {
      assert MappedOk(s, s.entries[c].key);
      if c in Gone(s, victims) {
        var k :| k in victims && k in s.clients && s.clients[k] == c;
        assert MappedOk(s, k);
      }
    }
  }

  lemma RetireKeepsInv(s: State, victims: set<Key>, atOnce: bool)
    requires Inv(s)
    ensures Inv(Retire(s, victims, atOnce))
  {
    var t := Retire(s, victims, atOnce);
    forall k ensures MappedOk(t, k) {
      assert MappedOk(s, k);
      if k in t.clients {
        forall v | v in victims && v in s.clients ensures s.clients[v] != s.clients[k] {
          assert MappedOk(s, v);
        }
      }
    }
    forall c ensures ClientOk(t, c) {
      RetireKeepsClient(s, victims, atOnce, c);
    }
  }

  lemma LendKeepsInv(s: State, key: Key, now: int)
    requires Inv(s)
    ensures Inv(Lend(s, key, now))
  {
    var t := Lend(s, key, now);
    assert MappedOk(s, key);
    forall k ensures MappedOk(t, k) { assert MappedOk(s, k); }
    forall c ensures ClientOk(t, c) { assert ClientOk(s, c); }
  }

  lemma InsertKeepsInv(s: State, key: Key, now: int, c: Client)
    requires Inv(s) && key !in s.clients && c in s.inHand
    ensures Inv(Insert(s, key, now, c))
  {
    var t := Insert(s, key, now, c);
    assert ClientOk(s, c);
    forall k ensures MappedOk(t, k) { assert MappedOk(s, k); }
    forall d ensures ClientOk(t, d) { assert ClientOk(s, d); }
  }

  lemma ReleaseKeepsInv(s: State, c: Client)
    requires Inv(s) && c in s.borrowed && c in s.entries
    ensures Inv(Released(s, c))
  {
    var t := Released(s, c);
    forall k ensures MappedOk(t, k) { assert MappedOk(s, k); }
    forall d ensures ClientOk(t, d) { assert ClientOk(s, d); }
  }

  lemma BookkeepingKeepsInv(cfg: Config, s: State, a: Action, t: State)
    requires Inv(s) && Step(cfg, s, a, t) && (a.Dial? || a.CloseDue?)
    ensures Inv(t)
  {
    forall k ensures MappedOk(t, k) { assert MappedOk(s, k); }
    forall d ensures ClientOk(t, d) { assert ClientOk(s, d); }
  }

  lemma DropKeepsInv(s: State, c: Client)
    requires Inv(s) && c in s.inHand
    ensures Inv(s.(inHand := s.inHand - {c}, due := s.due + multiset{c}))
  {
    var t := s.(inHand := s.inHand - {c}, due := s.due + multiset{c});
    forall k ensures MappedOk(t, k) { assert MappedOk(s, k); }
    forall d ensures ClientOk(t, d) { assert ClientOk(s, d); }
  }

  /** Every critical section, dial and close keeps the invariant. */
  lemma StepKeepsInv(cfg: Config, s: State, a: Action, t: State)
    requires Inv(s) && Step(cfg, s, a, t)
    ensures Inv(t)
  {
    hide Inv;
    match a
    case LookUp(key, now) =>
      RetireKeepsInv(s, Stale(s, key, now, cfg.ttl), true);
      LendKeepsInv(Retire(s, Stale(s, key, now, cfg.ttl), true), key, now);
    case Offer(key, now, c) =>
      if key in s.clients {
        LendKeepsInv(s, key, now);
        DropKeepsInv(Lend(s, key, now), c);
      } else {
        InsertKeepsInv(s, key, now, c);
        var u := Insert(s, key, now, c);
        var victims :| AreOverflow(u, victims, cfg.max) && t == Retire(u, victims, true);
        RetireKeepsInv(u, victims, true);
      }
    case Release(c) => ReleaseKeepsInv(s, c);
    case CloseAsset(asset) => RetireKeepsInv(s, KeysOf(s, asset), false);
    case Close => RetireKeepsInv(s, s.clients.Keys, false);
    case _ => BookkeepingKeepsInv(cfg, s, a, t);
  }

  lemma {:induction false} RunKeepsInv(cfg: Config, states: seq<State>, actions: seq<Action>, i: nat)
    requires IsRun(cfg, states, actions) && i < |states|
    ensures Inv(states[i])
  {
    hide Inv, Step;
    if i == 0 {
      EmptyHasInv();
    } else {
      RunKeepsInv(cfg, states, actions, i - 1);
      StepKeepsInv(cfg, states[i - 1], actions[i - 1], states[i]);
    }
  }

  // Main results

  /** Over every run: a client is closed at most once, never while it is borrowed, and never while it can still be
      handed out; an entry is in the map exactly when it is not closing; a client has been closed or is about to be
      exactly when its entry is closing and has no borrowers. */
  lemma ClosedOnceAndNeverInUse(cfg: Config, states: seq<State>, actions: seq<Action>, i: nat, c: Client)
    requires IsRun(cfg, states, actions) && i < |states|
    ensures var s := states[i];
            && s.due[c] + s.closed[c] <= 1
            && (c in s.borrowed ==> c !in s.closed && c !in s.due)
            && (c in s.clients.Values ==> c !in s.closed && c !in s.due)
            && (c in s.entries ==>
                  var e := s.entries[c];
                  && (c in s.clients.Values <==> !e.closing)
                  && e.refs == s.borrowed[c]
                  && (c in s.due || c in s.closed <==> e.closing && e.refs == 0))
  {
    var s := states[i];
    RunKeepsInv(cfg, states, actions, i);
    assert ClientOk(s, c);
    if c in s.clients.Values {
      var k :| k in s.clients && s.clients[k] == c;
      assert MappedOk(s, k);
    }
  }

  /** Nothing leaks: when the map is empty, all borrowers have released, no dial is under way and the pending closes
      have been made, every client that was ever dialed has been closed exactly once. */
  lemma NothingLeaks(cfg: Config, states: seq<State>, actions: seq<Action>, i: nat, c: Client)
    requires IsRun(cfg, states, actions) && i < |states|
    requires var s := states[i]; s.clients == map[] && s.borrowed == multiset{} && s.inHand == {} && s.due == multiset{}
    ensures states[i].closed[c] == if c in states[i].dialed then 1 else 0
  {
    RunKeepsInv(cfg, states, actions, i);
    assert ClientOk(states[i], c);
  }

  /** The time at which a client was last handed out: when the number of its borrowers last grew. */
  function TimeOfUse(states: seq<State>, actions: seq<Action>, i: nat, c: Client): int
    requires |states| == |actions| + 1 && i < |states|
  {
    if i == 0 then 0
    else if states[i].borrowed[c] > states[i - 1].borrowed[c] then TimeOf(actions[i - 1])
    else TimeOfUse(states, actions, i - 1, c)
  }

  function TimeOf(a: Action): int {
    match a case LookUp(_, now) => now case Offer(_, now, _) => now case _ => 0
  }

  ghost predicate UseIsRecorded(s: State, a: Action, t: State, c: Client) {
    c in t.entries ==>
      if t.borrowed[c] > s.borrowed[c] then t.entries[c].lastUsed == TimeOf(a)
      else c in s.entries && t.entries[c].lastUsed == s.entries[c].lastUsed
  }

  lemma LendRecordsUse(s: State, key: Key, now: int, c: Client)
    requires c in s.entries
    ensures var t := Lend(s, key, now);
            && c in t.entries
            && t.entries[c].lastUsed == (if t.borrowed[c] > s.borrowed[c] then now else s.entries[c].lastUsed)
  {
  }

  lemma LookUpRecordsUse(cfg: Config, s: State, key: Key, now: int, t: State, c: Client)
    requires Step(cfg, s, LookUp(key, now), t)
    ensures UseIsRecorded(s, LookUp(key, now), t, c)
  {
    var u := Retire(s, Stale(s, key, now, cfg.ttl), true);
    assert c in u.entries <==> c in s.entries;
    assert c in u.entries ==> u.entries[c].lastUsed == s.entries[c].lastUsed;
    hide Retire, Stale;
    if c in u.entries {
      LendRecordsUse(u, key, now, c);
    }
  }

  lemma OfferRecordsUse(cfg: Config, s: State, key: Key, now: int, d: Client, t: State, c: Client)
    requires Inv(s) && Step(cfg, s, Offer(key, now, d), t)
    ensures UseIsRecorded(s, Offer(key, now, d), t, c)
  {
    hide AreOverflow;
    assert ClientOk(s, d) && ClientOk(s, c) && MappedOk(s, key);
  }

  lemma StepRecordsUse(cfg: Config, s: State, a: Action, t: State, c: Client)
    requires Inv(s) && Step(cfg, s, a, t)
    ensures UseIsRecorded(s, a, t, c)
  {
    hide AreOverflow;
    match a
    case LookUp(key, now) =>
      LookUpRecordsUse(cfg, s, key, now, t, c);
    case Offer(key, now, d) => OfferRecordsUse(cfg, s, key, now, d, t, c);
    case _ =>
  }

  lemma {:induction false} UseIsKnown(cfg: Config, states: seq<State>, actions: seq<Action>, i: nat, c: Client)
    requires IsRun(cfg, states, actions) && i < |states| && c in states[i].entries
    ensures states[i].entries[c].lastUsed == TimeOfUse(states, actions, i, c)
  {
    hide Step, Inv;
    if i > 0 {
      RunKeepsInv(cfg, states, actions, i - 1);
      StepRecordsUse(cfg, states[i - 1], actions[i - 1], states[i], c);
      if states[i].borrowed[c] <= states[i - 1].borrowed[c] {
        UseIsKnown(cfg, states, actions, i - 1, c);
      }
    }
  }

  /** What a look-up retires, over every run: the clients that have not been handed out for longer than the idle limit, and
      those of the asset with another configuration; nothing else. */
  lemma LookUpRetiresExactly(cfg: Config, states: seq<State>, actions: seq<Action>, i: nat, k: Key)
    requires IsRun(cfg, states, actions) && i < |actions| && actions[i].LookUp? && k in states[i].clients
    ensures var key, now := actions[i].key, actions[i].now;
            k !in states[i + 1].clients
            <==> || now - TimeOfUse(states, actions, i, states[i].clients[k]) > cfg.ttl
                 || (k.asset == key.asset && k.fingerprint != key.fingerprint)
  {
    RunKeepsInv(cfg, states, actions, i);
    assert MappedOk(states[i], k);
    UseIsKnown(cfg, states, actions, i, states[i].clients[k]);
    assert Step(cfg, states[i], actions[i], states[i + 1]);
  }

  /** A client that has to make room was not handed out later than any that stays. */
  lemma OfferEvictsOldest(cfg: Config, states: seq<State>, actions: seq<Action>, i: nat, v: Key, k: Key)
    requires IsRun(cfg, states, actions) && i < |actions| && actions[i].Offer? && actions[i].key !in states[i].clients
    requires v in states[i].clients && v !in states[i + 1].clients && k in states[i + 1].clients
    ensures TimeOfUse(states, actions, i + 1, states[i].clients[v])
         <= TimeOfUse(states, actions, i + 1, states[i + 1].clients[k])
  {
    hide Inv;
    var s, t := states[i], states[i + 1];
    RunKeepsInv(cfg, states, actions, i);
    RunKeepsInv(cfg, states, actions, i + 1);
    InvHolds(s, v, actions[i].c);
    InvHolds(t, k, 0);
    assert Step(cfg, s, actions[i], t);
    OldestGo(cfg, s, actions[i], t, v, k);
    UseIsKnown(cfg, states, actions, i + 1, s.clients[v]);
    UseIsKnown(cfg, states, actions, i + 1, t.clients[k]);
  }

  lemma InvHolds(s: State, k: Key, c: Client)
    requires Inv(s)
    ensures MappedOk(s, k) && ClientOk(s, c)
  {
  }

  lemma OldestGo(cfg: Config, s: State, a: Action, t: State, v: Key, k: Key)
    requires a.Offer? && Step(cfg, s, a, t) && a.key !in s.clients && v in s.clients && v !in t.clients && k in t.clients
    requires MappedOk(s, v) && ClientOk(s, a.c) && MappedOk(t, k)
    ensures s.clients[v] in t.entries && t.clients[k] in t.entries
    ensures t.entries[s.clients[v]].lastUsed <= t.entries[t.clients[k]].lastUsed
  {
    var u := Insert(s, a.key, a.now, a.c);
    var victims :| AreOverflow(u, victims, cfg.max) && t == Retire(u, victims, true);
    assert v in victims && k in u.clients.Keys - victims;
    assert LastUsed(u, v) <= LastUsed(u, k);
  }

  /** Closing an asset takes out its clients, whatever their configuration, and no others. */
  lemma CloseAssetExactly(cfg: Config, states: seq<State>, actions: seq<Action>, i: nat, k: Key)
    requires IsRun(cfg, states, actions) && i < |actions| && actions[i].CloseAsset?
    ensures k in states[i + 1].clients <==> k in states[i].clients && k.asset != actions[i].asset
  {
    assert Step(cfg, states[i], actions[i], states[i + 1]);
  }

  /** A retired client is never handed out again. */
  lemma RetiredIsNotLent(cfg: Config, states: seq<State>, actions: seq<Action>, i: nat, c: Client)
    requires IsRun(cfg, states, actions) && i < |actions|
    requires c in states[i].entries && states[i].entries[c].closing
    ensures c in states[i + 1].entries && states[i + 1].entries[c].closing
    ensures states[i + 1].borrowed[c] <= states[i].borrowed[c]
  {
    RunKeepsInv(cfg, states, actions, i);
    RetiredStays(cfg, states[i], actions[i], states[i + 1], c);
  }

  lemma LendOther(s: State, key: Key, now: int, c: Client)
    requires MappedOk(s, key) && c in s.entries && s.entries[c].closing
    ensures var t := Lend(s, key, now); c in t.entries && t.entries[c].closing && t.borrowed[c] == s.borrowed[c]
  {
  }

  lemma OfferOther(cfg: Config, s: State, key: Key, now: int, d: Client, t: State, c: Client)
    requires Inv(s) && Step(cfg, s, Offer(key, now, d), t) && c in s.entries && s.entries[c].closing
    ensures c in t.entries && t.entries[c].closing && t.borrowed[c] == s.borrowed[c]
  {
    hide AreOverflow;
    assert MappedOk(s, key) && ClientOk(s, d);
    if key in s.clients {
      LendOther(s, key, now, c);
    }
  }

  lemma RetiredStays(cfg: Config, s: State, a: Action, t: State, c: Client)
    requires Inv(s) && Step(cfg, s, a, t) && c in s.entries && s.entries[c].closing
    ensures c in t.entries && t.entries[c].closing && t.borrowed[c] <= s.borrowed[c]
  {
    hide AreOverflow, Lend, Idle, ClientOk;
    match a
    case LookUp(key, now) =>
      var u := Retire(s, Stale(s, key, now, cfg.ttl), true);
      RetireKeepsInv(s, Stale(s, key, now, cfg.ttl), true);
      assert MappedOk(u, key);
      LendOther(u, key, now, c);
    case Offer(key, now, d) =>
      OfferOther(cfg, s, key, now, d, t, c);
    case _ =>
  }

  /** Between steps the map never exceeds its limit. */
  lemma {:induction false} MapStaysBounded(cfg: Config, states: seq<State>, actions: seq<Action>, i: nat)
    requires IsRun(cfg, states, actions) && i < |states|
    ensures |states[i].clients| <= cfg.max
  {
    hide Step;
    if i > 0 {
      MapStaysBounded(cfg, states, actions, i - 1);
      assert Step(cfg, states[i - 1], actions[i - 1], states[i]);
      StepStaysBounded(cfg, states[i - 1], actions[i - 1], states[i]);
    }
  }

  lemma RetireSize(s: State, victims: set<Key>, atOnce: bool)
    ensures |Retire(s, victims, atOnce).clients| <= |s.clients|
    ensures victims <= s.clients.Keys ==> |Retire(s, victims, atOnce).clients| == |s.clients| - |victims|
  {
    var t := Retire(s, victims, atOnce);
    assert t.clients.Keys == s.clients.Keys - victims;
    assert |t.clients| == |t.clients.Keys| && |s.clients| == |s.clients.Keys|;
    assert s.clients.Keys == (s.clients.Keys - victims) + (s.clients.Keys * victims);
    if victims <= s.clients.Keys {
      assert s.clients.Keys * victims == victims;
    }
  }

  lemma StepStaysBounded(cfg: Config, s: State, a: Action, t: State)
    requires Step(cfg, s, a, t) && |s.clients| <= cfg.max
    ensures |t.clients| <= cfg.max
  {
    hide Retire, AreOverflow;
    match a
    case LookUp(key, now) => RetireSize(s, Stale(s, key, now, cfg.ttl), true);
    case Offer(key, now, c) =>
      if key !in s.clients {
        var u := Insert(s, key, now, c);
        var victims :| AreOverflow(u, victims, cfg.max) && t == Retire(u, victims, true);
        RetireSize(u, victims, true);
        OverflowSize(u, victims, cfg.max);
      }
    case CloseAsset(asset) => RetireSize(s, KeysOf(s, asset), false);
    case Close => RetireSize(s, s.clients.Keys, false);
    case _ =>
  }

  lemma OverflowSize(s: State, victims: set<Key>, max: nat)
    requires AreOverflow(s, victims, max)
    ensures victims <= s.clients.Keys && |s.clients| - |victims| <= max
  {
  }

  // The manager

  lemma StillMapped(s: State, done: set<Key>, k: Key, atOnce: bool)
    requires Inv(s) && k in s.clients && k !in done
    ensures var c, t := s.clients[k], Retire(s, done, atOnce);
            && k in t.clients && t.clients[k] == c && c in s.entries && c in t.entries && t.entries[c] == s.entries[c]
            && c !in Gone(s, done)
  {
    assert MappedOk(s, k);
    forall v | v in done && v in s.clients ensures s.clients[v] != s.clients[k] {
      assert MappedOk(s, v);
    }
  }

  lemma IdleOneMore(s: State, done: set<Key>, k: Key, atOnce: bool)
    requires Inv(s) && k in s.clients && k !in done
    ensures var c, t := s.clients[k], Retire(s, done, atOnce);
            && Gone(s, done + {k}) == Gone(s, done) + {c} && Gone(t, {k}) == {c}
            && multiset(Idle(s, Gone(s, done + {k}))) == multiset(Idle(s, Gone(s, done))) + multiset(Idle(t, {c}))
  {
    StillMapped(s, done, k, atOnce);
    var c, t := s.clients[k], Retire(s, done, atOnce);
    assert Gone(s, done + {k}) == Gone(s, done) + {c};
    assert Gone(t, {k}) == {c};
    assert Idle(s, Gone(s, done) + {c}) == Idle(s, Gone(s, done)) + Idle(t, {c});
    assert Idle(s, Gone(s, done)) !! Idle(t, {c});
  }

  /** One entry after the other is the same as all at once. */
  lemma RetireOneMore(s: State, done: set<Key>, k: Key, atOnce: bool)
    requires Inv(s) && k in s.clients && k !in done
    ensures Retire(Retire(s, done, atOnce), {k}, atOnce) == Retire(s, done + {k}, atOnce)
  {
    hide Inv, Gone, Idle, MappedOk, ClientOk;
    IdleOneMore(s, done, k, atOnce);
    var t, all := Retire(s, done, atOnce), Retire(s, done + {k}, atOnce);
    assert t.clients - {k} == all.clients;
    assert Retire(t, {k}, atOnce).entries == all.entries;
  }

  lemma RetireNone(s: State, atOnce: bool)
    ensures Retire(s, {}, atOnce) == s
  {
    assert s.clients - {} == s.clients;
    assert Retire(s, {}, atOnce).entries == s.entries;
  }

  lemma RetireOne(s: State, k: Key, atOnce: bool)
    requires k in s.clients && s.clients[k] in s.entries
    ensures var c := s.clients[k];
            var idle := if s.entries[c].refs == 0 then multiset{c} else multiset{};
            Retire(s, {k}, atOnce) == s.(clients := s.clients - {k},
                                         entries := s.entries[c := s.entries[c].(closing := true)],
                                         closed := if atOnce then s.closed + idle else s.closed,
                                         due := if atOnce then s.due else s.due + idle)
  {
    hide Gone, Idle;
    OneGone(s, k);
    var c := s.clients[k];
    assert multiset(if s.entries[c].refs == 0 then {c} else {}) == if s.entries[c].refs
          == 0 then multiset{c} else multiset{};
  }

  lemma OneGone(s: State, k: Key)
    requires k in s.clients && s.clients[k] in s.entries
    ensures var c := s.clients[k];
            Gone(s, {k}) == {c} && Idle(s, {c}) == if s.entries[c].refs == 0 then {c} else {}
  {
  }

  predicate PartOfOverflow(s: State, victims: set<Key>, max: nat) {
    && victims <= s.clients.Keys
    && (|victims| > 0 ==> |s.clients| - |victims| >= max)
    && AreOldest(s, victims)
  }

  lemma NoneOverflows(s: State, max: nat)
    ensures PartOfOverflow(s, {}, max)
  {
  }

  lemma OldestOneMore(s: State, victims: set<Key>, k: Key)
    requires AreOldest(s, victims) && k in s.clients.Keys - victims
    requires forall j | j in s.clients.Keys - victims :: LastUsed(s, k) <= LastUsed(s, j)
    ensures AreOldest(s, victims + {k})
  {
    hide LastUsed;
  }

  /** The key used longest ago of those left is the next victim. */
  lemma OverflowOneMore(s: State, victims: set<Key>, k: Key, max: nat)
    requires PartOfOverflow(s, victims, max)
    requires var t := Retire(s, victims, true);
             |t.clients| > max && k in t.clients && forall j | j in t.clients.Keys :: LastUsed(t, k) <= LastUsed(t, j)
    ensures k in s.clients && k !in victims && PartOfOverflow(s, victims + {k}, max)
    ensures |Retire(s, victims + {k}, true).clients| < |Retire(s, victims, true).clients|
  {
    hide LastUsed, Retire, AreOldest;
    Survivors(s, victims);
    RetireSize(s, victims, true);
    OldestOneMore(s, victims, k);
    RetireSize(s, victims + {k}, true);
  }

  lemma OverflowComplete(s: State, victims: set<Key>, max: nat)
    requires PartOfOverflow(s, victims, max) && |Retire(s, victims, true).clients| <= max
    ensures AreOverflow(s, victims, max)
  {
    hide LastUsed, Retire;
    RetireSize(s, victims, true);
    if |victims| == 0 {
      assert victims == {};
    }
  }

  class KafkaClientManager {
    const config: Config
    var clients: map<Key, Client>
    var entries: map<Client, Entry>
    var closed: multiset<Client>
    ghost var dialed: set<Client>
    ghost var inHand: set<Client>
    ghost var borrowed: multiset<Client>
    ghost var due: multiset<Client>

    ghost function Abs(): State
      reads this
    {
      State(clients, entries, dialed, inHand, borrowed, due, closed)
    }

    constructor (config: Config)
      ensures Abs() == EMPTY && this.config == config
    {
      this.config := config;
      clients, entries, closed := map[], map[], multiset{};
      dialed, inHand, borrowed, due := {}, {}, multiset{}, multiset{};
    }

    /** What every loop does with an entry that has to go. */
    method Mark(key: Key) returns (idle: bool)
      requires key in clients && clients[key] in entries
      modifies this`clients, this`entries
      ensures clients == old(clients) - {key}
      ensures idle == (old(entries)[old(clients)[key]].refs == 0)
      ensures entries == old(entries)[old(clients)[key] := old(entries)[old(clients)[key]].(closing := true)]
    {
      var c := clients[key];
      entries := entries[c := entries[c].(closing := true)];
      clients := clients - {key};
      idle := entries[c].refs == 0;
    }

    method CloseNow(key: Key)
      requires key in clients && clients[key] in entries
      modifies this`clients, this`entries, this`closed
      ensures Abs() == Retire(old(Abs()), {key}, true)
    {
      RetireOne(Abs(), key, true);
      var c := clients[key];
      var idle := Mark(key);
      if idle {
        closed := closed + multiset{c};
      }
    }

    method CloseStaleLocked(key: Key, now: int)
      requires Inv(Abs())
      modifies this`clients, this`entries, this`closed
      ensures Abs() == Retire(old(Abs()), Stale(old(Abs()), key, now, config.ttl), true)
    {
      hide Inv, MappedOk, ClientOk, Retire;
      ghost var s := Abs();
      ghost var stale := Stale(s, key, now, config.ttl);
      var todo := clients.Keys;
      ghost var done: set<Key> := {};
      RetireNone(s, true);
      while todo != {}
        invariant todo <= s.clients.Keys && done !! todo
        invariant done <= stale <= done + todo
        invariant Abs() == Retire(s, done, true)
      {
        var k :| k in todo;
        todo := todo - {k};
        StillMapped(s, done, k, true);
        RetireOneMore(s, done, k, true);
        var entry := entries[clients[k]];
        assert entry == s.entries[s.clients[k]];
        if IsStale(entry, key, now, config.ttl) {
          CloseNow(k);
          done := done + {k};
        }
      }
      assert done == stale;
    }

    /** The key used longest ago. */
    method Oldest() returns (oldest: Key)
      requires Inv(Abs()) && clients != map[]
      ensures oldest in clients && forall k | k in clients.Keys :: LastUsed(Abs(), oldest) <= LastUsed(Abs(), k)
    {
      var todo := clients.Keys;
      var found: Option<Key> := None;
      while todo != {}
        invariant todo <= clients.Keys
        invariant found == None ==> todo == clients.Keys
        invariant found.Some? ==> found.value in clients
        invariant found.Some? ==> forall k | k in clients.Keys - todo :: LastUsed(Abs(), found.value) <= LastUsed(Abs(), k)
      {
        var k :| k in todo;
        assert MappedOk(Abs(), k);
        assert found.Some? ==> MappedOk(Abs(), found.value);
        if found == None || entries[clients[k]].lastUsed < entries[clients[found.value]].lastUsed {
          found := Some(k);
        }
        todo := todo - {k};
      }
      assert clients.Keys != {} by {
        var k :| k in clients;
      }
      oldest := found.value;
    }

    method EvictOverflowLocked() returns (ghost victims: set<Key>)
      requires Inv(Abs())
      modifies this`clients, this`entries, this`closed
      ensures AreOverflow(old(Abs()), victims, config.max)
      ensures Abs() == Retire(old(Abs()), victims, true)
    {
      hide Inv, MappedOk, ClientOk, Retire, LastUsed, Gone, Idle, PartOfOverflow, AreOverflow;
      ghost var s := Abs();
      victims := {};
      RetireNone(s, true);
      NoneOverflows(s, config.max);
      while |clients| > config.max
        invariant PartOfOverflow(s, victims, config.max)
        invariant Abs() == Retire(s, victims, true)
        decreases |clients|
      {
        RetireKeepsInv(s, victims, true);
        var k := Oldest();
        OverflowOneMore(s, victims, k, config.max);
        StillMapped(s, victims, k, true);
        RetireOneMore(s, victims, k, true);
        CloseNow(k);
        victims := victims + {k};
      }
      OverflowComplete(s, victims, config.max);
    }

    /** Acquire, first critical section: a cached client, lent to the caller. */
    method TakeCached(key: Key, now: int) returns (r: Option<Client>)
      requires Inv(Abs())
      modifies this
      ensures Step(config, old(Abs()), LookUp(key, now), Abs())
      ensures r == if key in clients then Some(clients[key]) else None
      ensures r.Some? ==> borrowed[r.value] == old(borrowed[r.value]) + 1
    {
      hide Inv, MappedOk, Retire;
      RetireKeepsInv(Abs(), Stale(Abs(), key, now, config.ttl), true);
      CloseStaleLocked(key, now);
      KeyIsMapped(Abs(), key);
      if key in clients {
        var c := clients[key];
        LendIt(key, now);
        return Some(c);
      }
      r := None;
    }

    method LendIt(key: Key, now: int)
      requires key in clients && clients[key] in entries
      modifies this`entries, this`borrowed
      ensures Abs() == Lend(old(Abs()), key, now)
    {
      var c := clients[key];
      entries := entries[c := entries[c].(lastUsed := now, refs := entries[c].refs + 1)];
      borrowed := borrowed + multiset{c};
    }

    /** Acquire, second critical section, with a client that was dialed without the mutex. The client lent is either
        that one or the one stored meanwhile; in that case the dialed one has to be closed. */
    method Store(key: Key, now: int, client: Client) returns (lent: Client)
      requires Inv(Abs()) && client in inHand
      modifies this
      ensures Step(config, old(Abs()), Offer(key, now, client), Abs())
      ensures lent == if key in old(clients) then old(clients)[key] else client
      ensures borrowed[lent] == old(borrowed[lent]) + 1
    {
      hide Inv, MappedOk, Retire, AreOverflow;
      KeyIsMapped(Abs(), key);
      if key in clients {
        LendIt(key, now);
        inHand, due := inHand - {client}, due + multiset{client};
        return clients[key];
      }
      InsertKeepsInv(Abs(), key, now, client);
      clients, entries := clients[key := client], entries[client := Entry(key, now, 1, false)];
      inHand, borrowed := inHand - {client}, borrowed + multiset{client};
      ghost var u := Abs();
      ghost var victims := EvictOverflowLocked();
      RetireKeepsBorrows(u, victims, true);
      lent := client;
    }

    /** A releaser; the caller closes the client if the result says so. */
    method GiveBack(client: Client) returns (shouldClose: bool)
      requires Inv(Abs()) && client in borrowed
      modifies this`entries, this`borrowed, this`due
      ensures Step(config, old(Abs()), Release(client), Abs())
      ensures due == if shouldClose then old(due) + multiset{client} else old(due)
    {
      assert ClientOk(Abs(), client);
      var e := entries[client].(refs := entries[client].refs - 1);
      entries := entries[client := e];
      borrowed := borrowed - multiset{client};
      shouldClose := e.closing && e.refs == 0;
      if shouldClose {
        due := due + multiset{client};
      }
    }

    method CloseLater(key: Key) returns (idle: bool)
      requires key in clients && clients[key] in entries
      modifies this`clients, this`entries, this`due
      ensures Abs() == Retire(old(Abs()), {key}, false)
      ensures due == old(due) + if idle then multiset{old(clients)[key]} else multiset{}
    {
      RetireOne(Abs(), key, false);
      var c := clients[key];
      idle := Mark(key);
      due := due + if idle then multiset{c} else multiset{};
    }

    method RemoveAsset(asset: int) returns (toClose: seq<Client>)
      requires Inv(Abs())
      modifies this`clients, this`entries, this`due
      ensures Step(config, old(Abs()), CloseAsset(asset), Abs())
      ensures due == old(due) + multiset(toClose)
    {
      hide Inv, MappedOk, ClientOk, Retire;
      ghost var s := Abs();
      var todo := clients.Keys;
      ghost var done: set<Key> := {};
      toClose := [];
      RetireNone(s, false);
      while todo != {}
        invariant todo <= s.clients.Keys && done !! todo
        invariant done <= KeysOf(s, asset) <= done + todo
        invariant Abs() == Retire(s, done, false)
        invariant due == s.due + multiset(toClose)
      {
        var k :| k in todo;
        todo := todo - {k};
        StillMapped(s, done, k, false);
        RetireOneMore(s, done, k, false);
        if k.asset == asset {
          var c := clients[k];
          var idle := CloseLater(k);
          if idle {
            toClose := toClose + [c];
          }
          done := done + {k};
        }
      }
      assert done == KeysOf(s, asset);
    }

    method RemoveAll() returns (toClose: seq<Client>)
      requires Inv(Abs())
      modifies this`clients, this`entries, this`due
      ensures Step(config, old(Abs()), Close, Abs())
      ensures due == old(due) + multiset(toClose)
      ensures clients == map[]
    {
      hide Inv, MappedOk, ClientOk, Retire;
      ghost var s := Abs();
      var todo := clients.Keys;
      ghost var done: set<Key> := {};
      toClose := [];
      RetireNone(s, false);
      while todo != {}
        invariant todo <= s.clients.Keys && done !! todo && done + todo == s.clients.Keys
        invariant Abs() == Retire(s, done, false)
        invariant due == s.due + multiset(toClose)
      {
        var k :| k in todo;
        todo := todo - {k};
        StillMapped(s, done, k, false);
        RetireOneMore(s, done, k, false);
        var c := clients[k];
        var idle := CloseLater(k);
        if idle {
          toClose := toClose + [c];
        }
        done := done + {k};
      }
      assert done == s.clients.Keys;
      RetireAll(s);
    }

    /** The loop after the mutex has been released. */
    method CloseClients(toClose: seq<Client>)
      requires multiset(toClose) <= due
      modifies this`closed, this`due
      ensures closed == old(closed) + multiset(toClose) && due == old(due) - multiset(toClose)
    {
      for i := 0 to |toClose|
        invariant closed == old(closed) + multiset(toClose[..i]) && due == old(due) - multiset(toClose[..i])
      {
        assert toClose[..i + 1] == toClose[..i] + [toClose[i]];
        closed, due := closed + multiset{toClose[i]}, due - multiset{toClose[i]};
      }
      assert toClose[..|toClose|] == toClose;
    }
  }

  lemma KeyIsMapped(s: State, k: Key)
    requires Inv(s)
    ensures k in s.clients ==> s.clients[k] in s.entries
  {
    assert MappedOk(s, k);
  }

  lemma Survivors(s: State, victims: set<Key>)
    ensures var t := Retire(s, victims, true);
            t.clients.Keys == s.clients.Keys - victims && forall k | k in t.clients.Keys :: LastUsed(t, k) == LastUsed(s, k)
  {
  }

  lemma RetireKeepsBorrows(s: State, victims: set<Key>, atOnce: bool)
    ensures Retire(s, victims, atOnce).borrowed == s.borrowed
  {
  }

  lemma RetireAll(s: State)
    ensures Retire(s, s.clients.Keys, false).clients == map[]
  {
    assert s.clients - s.clients.Keys == map[];
  }
}
