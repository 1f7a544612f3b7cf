/** Connection caches that dial once for concurrent callers: ConnCache of one AI conversation, and the query panel's
    panelConnCache with eviction. Both follow one protocol. */
module ConnCaches {
  import opened Text

  datatype Id = Asset(id: int) | Panel(key: string)

  type Conn = nat

  /** What is closed for a connection: its client and the tunnel under it. */
  datatype Handle = ClientOf(conn: Conn) | TunnelOf(conn: Conn)

  /** Where the one call for an id is that singleflight lets through; callers that come later wait for its result. */
  datatype Phase = Entered | Dialing | Dialed(conn: Conn) | Done(result: Option<Conn>)

  datatype Origin = Origin(id: Id, tunnel: bool)

  /** The two maps of the cache; the calls singleflight has under way; and around them: every connection dialed so far
      and for what, the connections that were taken out without closing, and the Close calls still to be made and made. */
  datatype State = State(
    clients: map<Id, Conn>, closers: map<Id, Option<Conn>>, flights: map<Id, Phase>,
    dialed: map<Conn, Origin>, forgotten: set<Conn>, due: multiset<Handle>, closed: multiset<Handle>)

  const EMPTY := State(map[], map[], map[], map[], {}, multiset{}, multiset{})

  // Steps

  datatype Action =
    | Enter(id: Id)                            // a caller that missed becomes the one that goes on
    | Recheck(id: Id)
    | DialFails(id: Id)
    | DialOk(id: Id, conn: Conn, tunnel: bool)
    | Store(id: Id)
    | Leave(id: Id)                            // singleflight hands out the result and forgets the call
    | Take(ids: set<Id>)                       // Remove, Close, Drop, evictOnce: one critical section
    | Forget(id: Id)
    | CloseOne(h: Handle)                      // without the mutex

  predicate InPhase(s: State, id: Id, phase: Phase) {
    id in s.flights && s.flights[id] == phase
  }

  predicate Enabled(s: State, a: Action) {
    match a
    case Enter(id) => id !in s.flights
    case Recheck(id) => InPhase(s, id, Entered)
    case DialFails(id) => InPhase(s, id, Dialing)
    case DialOk(id, c, _) => InPhase(s, id, Dialing) && c !in s.dialed
    case Store(id) => id in s.flights && s.flights[id].Dialed?
    case Leave(id) => id in s.flights && s.flights[id].Done?
    case Take(_) => true
    case Forget(_) => true
    case CloseOne(h) => h in s.due
  }

  function Clients(s: State, ids: set<Id>): set<Handle> {
    set id | id in ids && id in s.clients :: ClientOf(s.clients[id])
  }

  function Tunnels(s: State, ids: set<Id>): set<Handle> {
    set id | id in ids && id in s.closers && s.closers[id].Some? :: TunnelOf(s.closers[id].value)
  }

  function Taken(s: State, ids: set<Id>): State {
    s.(clients := s.clients - ids, closers := s.closers - ids,
       due := s.due + multiset(Clients(s, ids)) + multiset(Tunnels(s, ids)))
  }

  function Stored(s: State, id: Id, c: Conn): State {
    var tunnel := if c in s.dialed && s.dialed[c].tunnel then Some(c) else None;
    s.(clients := s.clients[id := c], closers := s.closers[id := tunnel], flights := s.flights[id := Done(Some(c))])
  }

  function Forgotten(s: State, id: Id): State {
    s.(clients := s.clients - {id}, closers := s.closers - {id},
       forgotten := if id in s.clients then s.forgotten + {s.clients[id]} else s.forgotten)
  }

  function After(s: State, a: Action): State
    requires Enabled(s, a)
  {
    match a
    case Enter(id) => s.(flights := s.flights[id := Entered])
    case Recheck(id) =>
      s.(flights := s.flights[id := if id in s.clients then Done(Some(s.clients[id])) else Dialing])
    case DialFails(id) => s.(flights := s.flights[id := Done(None)])
    case DialOk(id, c, tunnel) => s.(flights := s.flights[id := Dialed(c)], dialed := s.dialed[c := Origin(id, tunnel)])
    case Store(id) => Stored(s, id, s.flights[id].conn)
    case Leave(id) => s.(flights := s.flights - {id})
    case Take(ids) => Taken(s, ids)
    case Forget(id) => Forgotten(s, id)
    case CloseOne(h) => s.(due := s.due - multiset{h}, closed := s.closed + multiset{h})
  }

  ghost predicate IsRun(states: seq<State>, actions: seq<Action>) {
    && |states| == |actions| + 1 && states[0] == EMPTY
    && forall i | 0 <= i < |actions| :: Enabled(states[i], actions[i]) && states[i + 1] == After(states[i], actions[i])
  }

  // Invariant

  /** The key sets agree, each connection is cached under the id it was dialed for together with its tunnel, and while
      a call for an id dials or holds a new connection, nothing is cached under that id. */
  predicate IdOk(s: State, id: Id) {
    && (id in s.clients <==> id in s.closers)
    && (id in s.clients ==>
          var c := s.clients[id];
          c in s.dialed && s.dialed[c].id == id && s.closers[id] == if s.dialed[c].tunnel then Some(c) else None)
    && (id in s.flights ==>
          match s.flights[id]
          case Dialing => id !in s.clients
          case Dialed(c) => id !in s.clients && c in s.dialed && s.dialed[c].id == id
          case _ => true)
  }

  predicate IsHeld(s: State, c: Conn) {
    c in s.dialed && InPhase(s, s.dialed[c].id, Dialed(c))
  }

  predicate IsCached(s: State, c: Conn) {
    c in s.dialed && s.dialed[c].id in s.clients && s.clients[s.dialed[c].id] == c
  }

  function Closes(s: State, h: Handle): nat {
    s.due[h] + s.closed[h]
  }

  /** A dialed connection is held by the call that dialed it, or cached, or forgotten, or its client and its tunnel
      have been or will be closed once. */
  predicate ConnOk(s: State, c: Conn) {
    if c !in s.dialed then
      c !in s.forgotten && Closes(s, ClientOf(c)) == 0 && Closes(s, TunnelOf(c)) == 0
    else if IsHeld(s, c) || IsCached(s, c) || c in s.forgotten then
      && Closes(s, ClientOf(c)) == 0 && Closes(s, TunnelOf(c)) == 0
      && !(IsHeld(s, c) && IsCached(s, c)) && !(IsHeld(s, c) && c in s.forgotten) && !(IsCached(s, c) && c in s.forgotten)
    else
      Closes(s, ClientOf(c)) == 1 && Closes(s, TunnelOf(c)) == if s.dialed[c].tunnel then 1 else 0
  }

  ghost predicate Inv(s: State) {
    && (forall id :: IdOk(s, id))
    && forall c :: ConnOk(s, c)
  }

  lemma EmptyHasInv()
    ensures Inv(EMPTY)
  {
  }

  lemma FlightKeepsInv(s: State, a: Action)
    requires Inv(s) && Enabled(s, a) && (a.Enter? || a.Recheck? || a.DialFails? || a.Leave?)
    ensures Inv(After(s, a))
  {
    var t := After(s, a);
    forall id ensures IdOk(t, id) { assert IdOk(s, id); }
    forall c ensures ConnOk(t, c) { assert ConnOk(s, c); }
  }

  lemma DialKeepsInv(s: State, id: Id, conn: Conn, tunnel: bool)
    requires Inv(s) && Enabled(s, DialOk(id, conn, tunnel))
    ensures Inv(After(s, DialOk(id, conn, tunnel)))
  {
    var t := After(s, DialOk(id, conn, tunnel));
    assert IdOk(s, id);
    forall i ensures IdOk(t, i) { assert IdOk(s, i); }
    forall c ensures ConnOk(t, c) { assert ConnOk(s, c); }
  }

  lemma StoreKeepsInv(s: State, id: Id)
    requires Inv(s) && Enabled(s, Store(id))
    ensures Inv(After(s, Store(id)))
  {
    var t := After(s, Store(id));
    assert IdOk(s, id);
    forall i ensures IdOk(t, i) { assert IdOk(s, i); }
    forall c ensures ConnOk(t, c) { assert ConnOk(s, c); }
  }

  lemma TakenHandles(s: State, ids: set<Id>, c: Conn)
    requires Inv(s)
    ensures ClientOf(c) in Clients(s, ids) <==> IsCached(s, c) && s.dialed[c].id in ids
    ensures TunnelOf(c) in Tunnels(s, ids) <==> IsCached(s, c) && s.dialed[c].id in ids && s.dialed[c].tunnel
  {
    if c in s.dialed {
      assert IdOk(s, s.dialed[c].id);
    }
    if ClientOf(c) in Clients(s, ids) {
      var id :| id in ids && id in s.clients && ClientOf(s.clients[id]) == ClientOf(c);
      assert IdOk(s, id);
    }
    if TunnelOf(c) in Tunnels(s, ids) {
      var id :| id in ids && id in s.closers && s.closers[id].Some? && TunnelOf(s.closers[id].value) == TunnelOf(c);
      assert IdOk(s, id);
    }
  }

  lemma OnlyClients(s: State, ids: set<Id>)
    ensures forall h | h in Clients(s, ids) :: h.ClientOf?
    ensures forall h | h in Tunnels(s, ids) :: h.TunnelOf?
  {
  }

  lemma TakeKeepsInv(s: State, ids: set<Id>)
    requires Inv(s)
    ensures Inv(Taken(s, ids))
  {
    var t := Taken(s, ids);
    forall id ensures IdOk(t, id) { assert IdOk(s, id); }
    OnlyClients(s, ids);
    forall c ensures ConnOk(t, c) {
      hide Clients, Tunnels;
      assert ConnOk(s, c);
      TakenHandles(s, ids, c);
    }
  }

  lemma ForgetKeepsInv(s: State, id: Id)
    requires Inv(s)
    ensures Inv(Forgotten(s, id))
  {
    var t := Forgotten(s, id);
    assert IdOk(s, id);
    forall i ensures IdOk(t, i) { assert IdOk(s, i); }
    forall c ensures ConnOk(t, c) { assert ConnOk(s, c); }
  }

  lemma CloseKeepsInv(s: State, h: Handle)
    requires Inv(s) && h in s.due
    ensures Inv(After(s, CloseOne(h)))
  {
    var t := After(s, CloseOne(h));
    forall i ensures IdOk(t, i) { assert IdOk(s, i); }
    forall c ensures ConnOk(t, c) { assert ConnOk(s, c); }
  }

  /** Every step keeps the invariant. */
  lemma StepKeepsInv(s: State, a: Action)
    requires Inv(s) && Enabled(s, a)
    ensures Inv(After(s, a))
  {
    hide Inv;
    match a
    case DialOk(id, c, tunnel) => DialKeepsInv(s, id, c, tunnel);
    case Store(id) => StoreKeepsInv(s, id);
    case Take(ids) => TakeKeepsInv(s, ids);
    case Forget(id) => ForgetKeepsInv(s, id);
    case CloseOne(h) => CloseKeepsInv(s, h);
    case _ => FlightKeepsInv(s, a);
  }

  lemma {:induction false} RunKeepsInv(states: seq<State>, actions: seq<Action>, i: nat)
    requires IsRun(states, actions) && i < |states|
    ensures Inv(states[i])
  {
    hide Inv, After, Enabled;
    if i == 0 {
      EmptyHasInv();
    } else {
      RunKeepsInv(states, actions, i - 1);
      StepKeepsInv(states[i - 1], actions[i - 1]);
    }
  }

  // Main results

  /** Over every run: the two maps have the same keys, and every connection dialed is in exactly one place: with the
      call that dialed it, in the cache, forgotten, or closed (or about to be) exactly once, together with its tunnel. */
  lemma EveryConnectionHasOnePlace(states: seq<State>, actions: seq<Action>, i: nat, c: Conn)
    requires IsRun(states, actions) && i < |states| && c in states[i].dialed
    ensures var s := states[i];
            var released := Closes(s, ClientOf(c)) == 1 && Closes(s, TunnelOf(c)) == if s.dialed[c].tunnel then 1 else 0;
            && s.clients.Keys == s.closers.Keys
            && (IsHeld(s, c) || IsCached(s, c) || c in s.forgotten || released)
            && (released ==> !IsHeld(s, c) && !IsCached(s, c) && c !in s.forgotten)
            && !(IsHeld(s, c) && IsCached(s, c)) && !(IsHeld(s, c) && c in s.forgotten)
            && !(IsCached(s, c) && c in s.forgotten)
            && (forall id | id in s.clients && s.clients[id] == c :: id == s.dialed[c].id)
  {
    RunKeepsInv(states, actions, i);
    var s := states[i];
    assert ConnOk(s, c);
    forall id ensures id in s.clients.Keys <==> id in s.closers.Keys { assert IdOk(s, id); }
    forall id | id in s.clients && s.clients[id] == c ensures id == s.dialed[c].id { assert IdOk(s, id); }
  }

  /** A store never replaces a cached connection. */
  lemma StoreNeverOverwrites(states: seq<State>, actions: seq<Action>, i: nat, id: Id)
    requires IsRun(states, actions) && i < |actions| && actions[i] == Store(id)
    ensures id !in states[i].clients && id !in states[i].closers
  {
    RunKeepsInv(states, actions, i);
    assert IdOk(states[i], id) && Enabled(states[i], actions[i]);
  }

  predicate TakesOut(a: Action, id: Id) {
    (a.Take? && id in a.ids) || a == Forget(id)
  }

  predicate IsPresent(s: State, id: Id) {
    id in s.clients || (id in s.flights && s.flights[id].Dialed?)
  }

  lemma PresentStays(s: State, a: Action, id: Id)
    requires Enabled(s, a) && IsPresent(s, id) && !TakesOut(a, id) && IdOk(s, id)
    ensures IsPresent(After(s, a), id)
  {
  }

  lemma {:induction false} PresentUntilTaken(states: seq<State>, actions: seq<Action>, i: nat, j: nat, id: Id)
    requires IsRun(states, actions) && i <= j <= |actions| && IsPresent(states[i], id)
    requires forall k | i <= k < j :: !TakesOut(actions[k], id)
    ensures IsPresent(states[j], id)
    decreases j - i
  {
    hide After, Enabled, IsPresent, TakesOut;
    if i < j {
      RunKeepsInv(states, actions, i);
      assert IdOk(states[i], id);
      PresentStays(states[i], actions[i], id);
      PresentUntilTaken(states, actions, i + 1, j, id);
    }
  }

  /** However the callers are interleaved: between two successful dials for one id, the id was removed, forgotten,
      evicted or everything was closed. */
  lemma OneDialBetweenRemovals(states: seq<State>, actions: seq<Action>, i: nat, j: nat, id: Id, c: Conn, b: bool,
        d: Conn, e: bool)
    requires IsRun(states, actions) && i < j < |actions|
    requires actions[i] == DialOk(id, c, b) && actions[j] == DialOk(id, d, e)
    ensures exists k | i < k < j :: TakesOut(actions[k], id)
  {
    RunKeepsInv(states, actions, j);
    assert IdOk(states[j], id) && Enabled(states[j], actions[j]) && !IsPresent(states[j], id);
    assert Enabled(states[i], actions[i]) && states[i + 1] == After(states[i], actions[i]);
    assert IsPresent(states[i + 1], id);
    if forall k | i < k < j :: !TakesOut(actions[k], id) {
      PresentUntilTaken(states, actions, i + 1, j, id);
      assert false;
    }
  }

  /** What a call hands to its callers was cached at some moment since the call was decided, that is, between the
      entry of the caller that made the call and the return of those that waited for it. */
  lemma {:induction false} ResultWasCached(states: seq<State>, actions: seq<Action>, j: nat, id: Id, c: Conn)
    requires IsRun(states, actions) && j < |states| && InPhase(states[j], id, Done(Some(c)))
    ensures exists i | 0 <= i <= j :: WasCachedAt(states, actions, i, j, id, c)
    decreases j
  {
    if j > 0 {
      assert Enabled(states[j - 1], actions[j - 1]) && states[j] == After(states[j - 1], actions[j - 1]);
      if InPhase(states[j - 1], id, Done(Some(c))) {
        assert actions[j - 1] != Enter(id) && actions[j - 1] != Leave(id);
        ResultWasCached(states, actions, j - 1, id, c);
        var i :| 0 <= i <= j - 1 && WasCachedAt(states, actions, i, j - 1, id, c);
        assert WasCachedAt(states, actions, i, j, id, c);
      } else {
        assert WasCachedAt(states, actions, j, j, id, c);
      }
    }
  }

  predicate WasCachedAt(states: seq<State>, actions: seq<Action>, i: nat, j: nat, id: Id, c: Conn)
    requires i <= j <= |actions| < |states|
  {
    && id in states[i].clients && states[i].clients[id] == c
    && forall k | i <= k < j :: actions[k] != Enter(id) && actions[k] != Leave(id)
  }

  // ConnCache

  function Loose(client: Option<Conn>, tunnel: Option<Conn>): multiset<Handle> {
    (if client.Some? then multiset{ClientOf(client.value)} else multiset{})
    + (if tunnel.Some? then multiset{TunnelOf(tunnel.value)} else multiset{})
  }

  lemma TakenOne(s: State, id: Id)
    ensures multiset(Clients(s, {id})) + multiset(Tunnels(s, {id}))
         == Loose(if id in s.clients then Some(s.clients[id]) else None, if id in s.closers then s.closers[id] else None)
  {
    assert Clients(s, {id}) == if id in s.clients then {ClientOf(s.clients[id])} else {};
    assert Tunnels(s, {id}) == if id in s.closers && s.closers[id].Some? then {TunnelOf(s.closers[id].value)} else {};
  }

  class ConnCache {
    var clients: map<Id, Conn>
    var closers: map<Id, Option<Conn>>
    var closed: multiset<Handle>
    ghost var flights: map<Id, Phase>
    ghost var dialed: map<Conn, Origin>
    ghost var forgotten: set<Conn>
    ghost var due: multiset<Handle>

    ghost function Abs(): State
      reads this
    {
      State(clients, closers, flights, dialed, forgotten, due, closed)
    }

    constructor ()
      ensures Abs() == EMPTY
    {
      clients, closers, closed := map[], map[], multiset{};
      flights, dialed, forgotten, due := map[], map[], {}, multiset{};
    }

    /** The check inside the singleflight call. */
    method CheckAgain(id: Id) returns (r: Option<Conn>)
      requires Enabled(Abs(), Recheck(id))
      modifies this`flights
      ensures Abs() == After(old(Abs()), Recheck(id))
      ensures r == if id in clients then Some(clients[id]) else None
    {
      if id in clients {
        flights := flights[id := Done(Some(clients[id]))];
        return Some(clients[id]);
      }
      flights := flights[id := Dialing];
      r := None;
    }

    method Keep(id: Id, client: Conn, closer: Option<Conn>)
      requires InPhase(Abs(), id, Dialed(client)) && client in dialed
      requires closer == if dialed[client].tunnel then Some(client) else None
      modifies this`clients, this`closers, this`flights
      ensures Abs() == After(old(Abs()), Store(id))
    {
      clients := clients[id := client];
      closers := closers[id := closer];
      flights := flights[id := Done(Some(client))];
    }

    /** The critical section of Remove; what it returns has to be closed. */
    method RemoveOne(id: Id) returns (client: Option<Conn>, closer: Option<Conn>)
      modifies this`clients, this`closers, this`due
      ensures Abs() == After(old(Abs()), Take({id}))
      ensures due == old(due) + Loose(client, closer)
    {
      TakenOne(Abs(), id);
      client := if id in clients then Some(clients[id]) else None;
      closer := if id in closers then closers[id] else None;
      clients, closers := clients - {id}, closers - {id};
      due := due + Loose(client, closer);
      assert old(due) + multiset(Clients(old(Abs()), {id})) + multiset(Tunnels(old(Abs()), {id}))
          == old(due) + (multiset(Clients(old(Abs()), {id})) + multiset(Tunnels(old(Abs()), {id})));
    }

    method ForgetOne(id: Id)
      modifies this`clients, this`closers, this`forgotten
      ensures Abs() == After(old(Abs()), Forget(id))
    {
      forgotten := if id in clients then forgotten + {clients[id]} else forgotten;
      clients, closers := clients - {id}, closers - {id};
    }

    /** The critical section of Close. */
    method DetachAll() returns (oldClients: map<Id, Conn>, oldClosers: map<Id, Option<Conn>>)
      requires Inv(Abs())
      modifies this`clients, this`closers, this`due
      ensures Abs() == After(old(Abs()), Take(old(clients).Keys))
      ensures clients == map[] && closers == map[]
      ensures oldClients == old(clients) && oldClosers == old(closers)
    {
      forall id ensures id in clients.Keys <==> id in closers.Keys { assert IdOk(Abs(), id); }
      oldClients, oldClosers := clients, closers;
      clients, closers := map[], map[];
      due := due + multiset(Clients(old(Abs()), oldClients.Keys)) + multiset(Tunnels(old(Abs()), oldClients.Keys));
      assert oldClients - oldClients.Keys == map[] && oldClosers - oldClients.Keys == map[];
    }

    /** The first loop of Close after the mutex has been released: each connection is closed once. */
    method CloseClients(s: State)
      requires Inv(s)
      modifies this`closed
      ensures closed == old(closed) + multiset(Clients(s, s.clients.Keys))
    {
      hide Inv, ClosedWith;
      NoHandles(s, closed);
      var todo := s.clients.Keys;
      ghost var done: set<Id> := {};
      while todo != {}
        invariant done + todo == s.clients.Keys && done !! todo
        invariant closed == ClosedWith(old(closed), Clients(s, done))
      {
        var id :| id in todo;
        OneMoreClient(s, old(closed), done, id);
        closed := closed + multiset{ClientOf(s.clients[id])};
        todo, done := todo - {id}, done + {id};
      }
      assert done == s.clients.Keys;
      AllClosed(old(closed), Clients(s, done));
    }

    /** The second loop, over the tunnels. */
    method CloseTunnels(s: State)
      requires Inv(s)
      modifies this`closed
      ensures closed == old(closed) + multiset(Tunnels(s, s.closers.Keys))
    {
      hide Inv, ClosedWith;
      NoHandles(s, closed);
      var todo := s.closers.Keys;
      ghost var done: set<Id> := {};
      while todo != {}
        invariant done + todo == s.closers.Keys && done !! todo
        invariant closed == ClosedWith(old(closed), Tunnels(s, done))
      {
        var id :| id in todo;
        OneMoreTunnel(s, old(closed), done, id);
        if s.closers[id].Some? {
          closed := closed + multiset{TunnelOf(s.closers[id].value)};
        }
        todo, done := todo - {id}, done + {id};
      }
      assert done == s.closers.Keys;
      AllClosed(old(closed), Tunnels(s, done));
    }
  }

  function ClosedWith(before: multiset<Handle>, hs: set<Handle>): multiset<Handle> {
    before + multiset(hs)
  }

  lemma AllClosed(before: multiset<Handle>, hs: set<Handle>)
    ensures ClosedWith(before, hs) == before + multiset(hs)
  {
  }

  lemma NoHandles(s: State, before: multiset<Handle>)
    ensures ClosedWith(before, Clients(s, {})) == before && ClosedWith(before, Tunnels(s, {})) == before
  {
    assert Clients(s, {}) == {} && Tunnels(s, {}) == {};
  }

  /** Connections of different ids are different, so that closing one after the other closes each once. */
  lemma OneMoreClient(s: State, before: multiset<Handle>, done: set<Id>, id: Id)
    requires Inv(s) && id in s.clients && id !in done
    ensures ClosedWith(before, Clients(s, done + {id}))
         == ClosedWith(before, Clients(s, done)) + multiset{ClientOf(s.clients[id])}
  {
    assert IdOk(s, id);
    TakenHandles(s, done, s.clients[id]);
    assert Clients(s, done + {id}) == Clients(s, done) + {ClientOf(s.clients[id])};
  }

  lemma OneMoreTunnel(s: State, before: multiset<Handle>, done: set<Id>, id: Id)
    requires Inv(s) && id in s.closers && id !in done
    ensures ClosedWith(before, Tunnels(s, done + {id}))
         == if s.closers[id].Some? then ClosedWith(before, Tunnels(s, done)) + multiset{TunnelOf(s.closers[id].value)}
            else ClosedWith(before, Tunnels(s, done))
  {
    assert IdOk(s, id);
    if s.closers[id].Some? {
      TakenHandles(s, done, s.closers[id].value);
      assert Tunnels(s, done + {id}) == Tunnels(s, done) + {TunnelOf(s.closers[id].value)};
    } else {
      assert Tunnels(s, done + {id}) == Tunnels(s, done);
    }
  }

  // The query panel's cache

  datatype Entry = Entry(client: Conn, tunnel: Option<Conn>, lastUsed: int)

  function ClientMap(entries: map<Id, Entry>): map<Id, Conn> {
    map id | id in entries :: entries[id].client
  }

  function CloserMap(entries: map<Id, Entry>): map<Id, Option<Conn>> {
    map id | id in entries :: entries[id].tunnel
  }

  function StaleKeys(entries: map<Id, Entry>, threshold: int): set<Id> {
    set id | id in entries && entries[id].lastUsed < threshold
  }

  lemma TakenEntries(entries: map<Id, Entry>, ids: set<Id>)
    ensures ClientMap(entries - ids) == ClientMap(entries) - ids && CloserMap(entries - ids) == CloserMap(entries) - ids
  {
  }

  class PanelConnCache {
    const idleTTL: int
    var entries: map<Id, Entry>
    ghost var flights: map<Id, Phase>
    ghost var dialed: map<Conn, Origin>
    ghost var due: multiset<Handle>
    ghost var closed: multiset<Handle>

    ghost function Abs(): State
      reads this
    {
      State(ClientMap(entries), CloserMap(entries), flights, dialed, {}, due, closed)
    }

    constructor (idleTTL: int)
      ensures Abs() == EMPTY && this.idleTTL == idleTTL
    {
      this.idleTTL := idleTTL;
      entries, flights, dialed, due, closed := map[], map[], map[], multiset{}, multiset{};
      new;
      assert Abs().clients == map[] && Abs().closers == map[];
    }

    /** The check inside the singleflight call; a hit counts as a use. */
    method CheckAgain(id: Id, now: int) returns (r: Option<Conn>)
      requires Enabled(Abs(), Recheck(id))
      modifies this`flights, this`entries
      ensures Abs() == After(old(Abs()), Recheck(id))
      ensures r == if id in entries then Some(entries[id].client) else None
      ensures entries == if id in old(entries) then old(entries)[id := old(entries)[id].(lastUsed := now)] else old(entries)
    {
      if id in entries {
        entries := entries[id := entries[id].(lastUsed := now)];
        flights := flights[id := Done(Some(entries[id].client))];
        assert Abs().clients == old(Abs()).clients && Abs().closers == old(Abs()).closers;
        return Some(entries[id].client);
      }
      flights := flights[id := Dialing];
      r := None;
    }

    method Keep(id: Id, client: Conn, closer: Option<Conn>, now: int)
      requires InPhase(Abs(), id, Dialed(client)) && client in dialed
      requires closer == if dialed[client].tunnel then Some(client) else None
      modifies this`entries, this`flights
      ensures Abs() == After(old(Abs()), Store(id))
      ensures entries == old(entries)[id := Entry(client, closer, now)]
    {
      entries := entries[id := Entry(client, closer, now)];
      flights := flights[id := Done(Some(client))];
      assert Abs().clients == old(Abs()).clients[id := client] && Abs().closers == old(Abs()).closers[id := closer];
    }

    /** The critical section of evictOnce: exactly the entries last used before now - idleTTL are dropped. */
    method EvictOnce(now: int) returns (stale: map<Id, Entry>)
      modifies this`entries, this`due
      ensures stale.Keys == StaleKeys(old(entries), now - idleTTL)
      ensures forall id | id in stale :: stale[id] == old(entries)[id]
      ensures entries == old(entries) - stale.Keys
      ensures Abs() == After(old(Abs()), Take(stale.Keys))
    {
      stale := Sweep(now - idleTTL);
      TakenEntries(old(entries), stale.Keys);
      due := due + multiset(Clients(old(Abs()), stale.Keys)) + multiset(Tunnels(old(Abs()), stale.Keys));
    }

    method Sweep(threshold: int) returns (stale: map<Id, Entry>)
      modifies this`entries
      ensures stale.Keys == StaleKeys(old(entries), threshold)
      ensures forall id | id in stale :: stale[id] == old(entries)[id]
      ensures entries == old(entries) - stale.Keys
    {
      var todo := entries.Keys;
      stale := map[];
      while todo != {}
        invariant todo <= entries.Keys
        invariant stale.Keys == StaleKeys(old(entries), threshold) - todo
        invariant forall id | id in stale :: stale[id] == old(entries)[id]
        invariant entries == old(entries) - stale.Keys
      {
        var id :| id in todo;
        todo := todo - {id};
        if entries[id].lastUsed < threshold {
          stale := stale[id := entries[id]];
          entries := entries - {id};
        }
      }
    }

    /** The critical section of Drop. */
    method TakeOne(id: Id) returns (e: Option<Entry>)
      modifies this`entries, this`due
      ensures entries == old(entries) - {id} && e == if id in old(entries) then Some(old(entries)[id]) else None
      ensures Abs() == After(old(Abs()), Take({id}))
      ensures due == old(due) + match e case Some(x) => Loose(Some(x.client), x.tunnel) case None => multiset{}
    {
      ghost var s := Abs();
      TakenOne(s, id);
      e := if id in entries then Some(entries[id]) else None;
      entries := entries - {id};
      due := due + match e case Some(x) => Loose(Some(x.client), x.tunnel) case None => multiset{};
      assert old(due) + multiset(Clients(s, {id})) + multiset(Tunnels(s, {id}))
          == old(due) + (multiset(Clients(s, {id})) + multiset(Tunnels(s, {id})));
      assert Abs().clients == s.clients - {id} && Abs().closers == s.closers - {id};
    }
  }
}
