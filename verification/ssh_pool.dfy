/** The pool of SSH connections. Its operations work in several steps and may overlap: a connection can be removed
    between any two steps of a Get. */
module SshPool {
  import opened Text

  type Conn = nat

  type Task = nat

  /** What a caller does after Remove has finished. */
  datatype Next = ThenDial | ThenRetry | ThenReturn

  /** Where a call of Get or Remove stands. */
  datatype Pc =
    | Start(asset: int)
    | Checking(asset: int, conn: Conn)                      // isAlive on the entry that was looked up
    | Rechecking(asset: int, conn: Conn)                    // isAlive on the entry found when storing
    | Alive(asset: int, conn: Conn)                         // before acquire
    | Removing(asset: int, next: Next)                      // before Remove's critical section
    | Closing(asset: int, conn: Conn, next: Next)           // after it, with an entry to close
    | Dialing(asset: int)
    | Storing(asset: int, conn: Conn)                       // dialed, before the critical section of Get
    | Duplicate(asset: int, conn: Conn, existing: Conn)     // after it, with a connection nobody needs
    | Returned(asset: int, conn: Conn)
    | Finished

  /** The connection a call still has to store or close. */
  function Owned(pc: Pc): Option<Conn> {
    match pc
    case Closing(_, c, _) => Some(c)
    case Storing(_, c) => Some(c)
    case Duplicate(_, c, _) => Some(c)
    case _ => None
  }

  /** The pool's map; the entries' closed flags and reference counts; the calls; for which asset each connection was
      dialed; the Close calls on clients; and the borrows handed out and not yet released. */
  datatype State = State(
    entries: map<int, Conn>, flagged: set<Conn>, refs: map<Conn, int>, calls: map<Task, Pc>,
    dialed: map<Conn, int>, closed: multiset<Conn>, held: multiset<Conn>)

  const EMPTY := State(map[], {}, map[], map[], map[], multiset{}, multiset{})

  // Steps

  datatype Action =
    | CallGet(t: Task, asset: int)
    | CallRemove(t: Task, asset: int)
    | Look(t: Task)
    | SeesAlive(t: Task)
    | SeesDead(t: Task)
    | Acquire(t: Task)
    | TakeOut(t: Task)
    | CloseEntry(t: Task)
    | DialOk(t: Task, conn: Conn)
    | DialFails(t: Task)
    | Store(t: Task)
    | CloseDuplicate(t: Task)
    | Release(conn: Conn)           // by a caller that got this connection
    | CleanupIdle(assets: set<int>)
    | ClosePool

  predicate At(s: State, t: Task) {
    t in s.calls
  }

  predicate Enabled(s: State, a: Action) {
    match a
    case CallGet(t, _) => t !in s.calls
    case CallRemove(t, _) => t !in s.calls
    case Look(t) => At(s, t) && s.calls[t].Start?
    case SeesAlive(t) => At(s, t) && (s.calls[t].Checking? || s.calls[t].Rechecking?) && s.calls[t].conn !in s.flagged
    case SeesDead(t) => At(s, t) && (s.calls[t].Checking? || s.calls[t].Rechecking?)
    case Acquire(t) => At(s, t) && s.calls[t].Alive?
    case TakeOut(t) => At(s, t) && s.calls[t].Removing?
    case CloseEntry(t) => At(s, t) && s.calls[t].Closing?
    case DialOk(t, c) => At(s, t) && s.calls[t].Dialing? && c !in s.dialed
    case DialFails(t) => At(s, t) && s.calls[t].Dialing?
    case Store(t) => At(s, t) && s.calls[t].Storing?
    case CloseDuplicate(t) => At(s, t) && s.calls[t].Duplicate?
    case Release(c) => c in s.held && c in s.dialed
    case CleanupIdle(assets) => forall a | a in assets :: a in s.entries && RefsOf(s, s.entries[a]) <= 0
    case ClosePool => true
  }

  function RefsOf(s: State, c: Conn): int {
    if c in s.refs then s.refs[c] else 0
  }

  function Goto(s: State, t: Task, pc: Pc): State {
    s.(calls := s.calls[t := pc])
  }

  function Continue(asset: int, next: Next): Pc {
    match next
    case ThenDial => Dialing(asset)
    case ThenRetry => Start(asset)
    case ThenReturn => Finished
  }

  /** poolEntry.close: the flag keeps a client from being closed twice. */
  function EntryClosed(s: State, c: Conn): State {
    if c in s.flagged then s else s.(flagged := s.flagged + {c}, closed := s.closed + multiset{c})
  }

  function Lent(s: State, c: Conn): State {
    s.(refs := s.refs[c := RefsOf(s, c) + 1], held := s.held + multiset{c})
  }

  function ConnsOf(s: State, assets: set<int>): set<Conn> {
    set a | a in assets && a in s.entries :: s.entries[a]
  }

  /** Entries are deleted from the map and closed within one critical section. */
  function Swept(s: State, assets: set<int>): State {
    var gone := ConnsOf(s, assets) - s.flagged;
    s.(entries := s.entries - assets, flagged := s.flagged + gone, closed := s.closed + multiset(gone))
  }

  function AfterStore(s: State, t: Task, asset: int, c: Conn): State {
    if asset in s.entries then Goto(s, t, Duplicate(asset, c, s.entries[asset]))
    else Goto(s.(entries := s.entries[asset := c], refs := s.refs[c := 1], held := s.held
          + multiset{c}), t, Returned(asset, c))
  }

  function After(s: State, a: Action): State
    requires Enabled(s, a)
  {
    match a
    case CallGet(t, asset) => Goto(s, t, Start(asset))
    case CallRemove(t, asset) => Goto(s, t, Removing(asset, ThenReturn))
    case Look(t) =>
      var asset := s.calls[t].asset;
      Goto(s, t, if asset in s.entries then Checking(asset, s.entries[asset]) else Dialing(asset))
    case SeesAlive(t) => Goto(s, t, Alive(s.calls[t].asset, s.calls[t].conn))
    case SeesDead(t) => Goto(s, t, Removing(s.calls[t].asset, if s.calls[t].Checking? then ThenDial else ThenRetry))
    case Acquire(t) => Goto(Lent(s, s.calls[t].conn), t, Returned(s.calls[t].asset, s.calls[t].conn))
    case TakeOut(t) =>
      var asset, next := s.calls[t].asset, s.calls[t].next;
      if asset in s.entries then Goto(s.(entries := s.entries - {asset}), t, Closing(asset, s.entries[asset], next))
      else Goto(s, t, Continue(asset, next))
    case CloseEntry(t) => Goto(EntryClosed(s, s.calls[t].conn), t, Continue(s.calls[t].asset, s.calls[t].next))
    case DialOk(t, c) => Goto(s.(dialed := s.dialed[c := s.calls[t].asset]), t, Storing(s.calls[t].asset, c))
    case DialFails(t) => Goto(s, t, Finished)
    case Store(t) => AfterStore(s, t, s.calls[t].asset, s.calls[t].conn)
    case CloseDuplicate(t) =>
      Goto(s.(closed := s.closed + multiset{s.calls[t].conn}), t, Rechecking(s.calls[t].asset, s.calls[t].existing))
    case Release(c) =>
      var t := s.(held := s.held - multiset{c});
      if s.dialed[c] in s.entries then t.(refs := t.refs[s.entries[s.dialed[c]] := RefsOf(s, s.entries[s.dialed[c]]) - 1])
      else t
    case CleanupIdle(assets) => Swept(s, assets)
    case ClosePool => Swept(s, s.entries.Keys)
  }

  ghost predicate IsRun(states: seq<State>, actions: seq<Action>) {
    && |states| == |actions| + 1 && states[0] == EMPTY
    && forall i | 0 <= i < |actions| :: Enabled(states[i], actions[i]) && states[i + 1] == After(states[i], actions[i])
  }

  // Ownership

  predicate IsMapped(s: State, c: Conn) {
    c in s.dialed && s.dialed[c] in s.entries && s.entries[s.dialed[c]] == c
  }

  predicate IsOwnedBy(s: State, c: Conn, t: Task) {
    t in s.calls && Owned(s.calls[t]) == Some(c)
  }

  ghost predicate IsOwned(s: State, c: Conn) {
    exists t :: IsOwnedBy(s, c, t)
  }

  predicate EntryOk(s: State, asset: int) {
    asset in s.entries ==> s.entries[asset] in s.dialed && s.dialed[s.entries[asset]] == asset
  }

  /** A call works on connections of its asset. */
  predicate CallOk(s: State, t: Task) {
    t in s.calls ==>
      match s.calls[t]
      case Start(_) => true
      case Removing(_, _) => true
      case Dialing(_) => true
      case Finished => true
      case Duplicate(asset, c, existing) =>
        c in s.dialed && s.dialed[c] == asset && existing in s.dialed && s.dialed[existing] == asset
      case pc => pc.conn in s.dialed && s.dialed[pc.conn] == pc.asset
  }

  /** What a call owns is owned by no other call and is not in the map. */
  ghost predicate OwnerOk(s: State, t: Task) {
    forall c | IsOwnedBy(s, c, t) :: !IsMapped(s, c) && forall u | IsOwnedBy(s, c, u) :: u == t
  }

  ghost predicate ConnOk(s: State, c: Conn) {
    && s.closed[c] == (if c in s.dialed && !IsMapped(s, c) && !IsOwned(s, c) then 1 else 0)
    && (c in s.flagged ==> c in s.dialed && !IsMapped(s, c) && !IsOwned(s, c))
  }

  ghost predicate Inv(s: State) {
    && (forall a :: EntryOk(s, a)) && (forall t :: CallOk(s, t))
    && (forall t :: OwnerOk(s, t)) && (forall c :: ConnOk(s, c))
  }

  function OwnedAt(s: State, t: Task): Option<Conn> {
    if t in s.calls then Owned(s.calls[t]) else None
  }

  /** Ownership after one call has gone on. */
  lemma OwnedAfter(s: State, u: State, t: Task, pc: Pc, c: Conn)
    requires u.calls == s.calls[t := pc] && forall x :: OwnerOk(s, x)
    ensures forall x :: IsOwnedBy(u, c, x) <==> if x == t then Owned(pc) == Some(c) else IsOwnedBy(s, c, x)
    ensures IsOwned(u, c) <==> Owned(pc) == Some(c) || (IsOwned(s, c) && OwnedAt(s, t) != Some(c))
  {
    assert IsOwnedBy(u, c, t) <==> Owned(pc) == Some(c);
    assert IsOwnedBy(s, c, t) <==> OwnedAt(s, t) == Some(c);
    if IsOwned(s, c) && OwnedAt(s, t) != Some(c) {
      var x :| IsOwnedBy(s, c, x);
      assert IsOwnedBy(u, c, x);
    }
    if IsOwned(u, c) && Owned(pc) != Some(c) {
      var x :| IsOwnedBy(u, c, x);
      assert IsOwnedBy(s, c, x);
      assert OwnerOk(s, x);
    }
  }

  /** Steps that leave the map, the closed flags and what the call owns alone. */
  lemma SameOwnership(s: State, t: Task, pc: Pc, u: State)
    requires Inv(s) && u == s.(calls := s.calls[t := pc], refs := u.refs, held := u.held)
    requires Owned(pc) == OwnedAt(s, t) && CallOk(u, t)
    ensures Inv(u)
  {
    forall a ensures EntryOk(u, a) { assert EntryOk(s, a); }
    forall x ensures CallOk(u, x) { assert CallOk(s, x); }
    forall c, x ensures IsOwnedBy(u, c, x) <==> IsOwnedBy(s, c, x) {}
    forall x ensures OwnerOk(u, x) {
      assert OwnerOk(s, x);
      forall c ensures IsMapped(u, c) <==> IsMapped(s, c) {}
    }
    forall c ensures ConnOk(u, c) {
      hide CallOk, EntryOk;
      assert ConnOk(s, c);
      OwnedAfter(s, u, t, pc, c);
      assert IsMapped(u, c) <==> IsMapped(s, c);
    }
  }

  /** The entry that Remove takes out of the map becomes its caller's. */
  lemma TakeOutKeepsInv(s: State, t: Task, asset: int, next: Next)
    requires Inv(s) && t in s.calls && s.calls[t] == Removing(asset, next) && asset in s.entries
    ensures Inv(Goto(s.(entries := s.entries - {asset}), t, Closing(asset, s.entries[asset], next)))
  {
    var d := s.entries[asset];
    var pc := Closing(asset, d, next);
    var u := Goto(s.(entries := s.entries - {asset}), t, pc);
    assert EntryOk(s, asset);
    forall a ensures EntryOk(u, a) { assert EntryOk(s, a); }
    forall x ensures CallOk(u, x) { assert CallOk(s, x); }
    forall c ensures IsMapped(u, c) <==> IsMapped(s, c) && c != d {}
    assert IsMapped(s, d) && ConnOk(s, d);
    MappedIsNotOwned(s, d);
    OwnedMoves(s, t, pc, u, d);
    forall c ensures ConnOk(u, c) {
      hide CallOk, EntryOk;
      assert ConnOk(s, c);
      OwnedAfter(s, u, t, pc, c);
    }
  }

  lemma MappedIsNotOwned(s: State, d: Conn)
    requires Inv(s) && IsMapped(s, d)
    ensures !IsOwned(s, d)
  {
    forall x ensures !IsOwnedBy(s, d, x) { assert OwnerOk(s, x); }
  }

  /** A call that owned nothing gets a connection that is not in the map any more and that nobody owned. */
  lemma OwnedMoves(s: State, t: Task, pc: Pc, u: State, d: Conn)
    requires forall x :: OwnerOk(s, x)
    requires u.calls == s.calls[t := pc] && Owned(pc) == Some(d) && OwnedAt(s, t) == None && !IsOwned(s, d)
    requires forall c | IsMapped(u, c) :: IsMapped(s, c) && c != d
    ensures forall x :: OwnerOk(u, x)
  {
    forall x, c | IsOwnedBy(u, c, x) ensures !IsMapped(u, c) && forall y | IsOwnedBy(u, c, y) :: y == x {
      OwnedAfter(s, u, t, pc, c);
      if x != t {
        assert OwnerOk(s, x);
        assert IsOwned(s, c);
      }
    }
  }

  lemma DialKeepsInv(s: State, t: Task, asset: int, d: Conn)
    requires Inv(s) && t in s.calls && s.calls[t] == Dialing(asset) && d !in s.dialed
    ensures Inv(Goto(s.(dialed := s.dialed[d := asset]), t, Storing(asset, d)))
  {
    var pc := Storing(asset, d);
    var u := Goto(s.(dialed := s.dialed[d := asset]), t, pc);
    forall a ensures EntryOk(u, a) { assert EntryOk(s, a); }
    forall x ensures CallOk(u, x) { assert CallOk(s, x); }
    forall c ensures IsMapped(u, c) ==> IsMapped(s, c) && c != d {
      if IsMapped(u, c) { assert EntryOk(s, u.dialed[c]); }
    }
    NewIsNotOwned(s, d);
    OwnedMoves(s, t, pc, u, d);
    forall c ensures ConnOk(u, c) {
      assert ConnOk(s, c);
      OwnedAfter(s, u, t, pc, c);
      assert c != d ==> (IsMapped(u, c) <==> IsMapped(s, c));
    }
  }

  lemma NewIsNotOwned(s: State, d: Conn)
    requires Inv(s) && d !in s.dialed
    ensures !IsOwned(s, d)
  {
    forall x ensures !IsOwnedBy(s, d, x) { assert CallOk(s, x); }
  }

  /** A call closes what it owns, or stores it in the map. */
  lemma OwnedEnds(s: State, t: Task, pc: Pc, u: State, d: Conn)
    requires forall x :: OwnerOk(s, x)
    requires u.calls == s.calls[t := pc] && Owned(pc) == None && OwnedAt(s, t) == Some(d)
    requires forall c | IsMapped(u, c) :: IsMapped(s, c) || c == d
    ensures forall x :: OwnerOk(u, x)
  {
    forall x, c | IsOwnedBy(u, c, x) ensures !IsMapped(u, c) && forall y | IsOwnedBy(u, c, y) :: y == x {
      OwnedAfter(s, u, t, pc, c);
      assert OwnerOk(s, x);
      assert IsOwnedBy(s, d, t);
    }
  }

  /** The flag of an entry that is being closed is never set already. */
  lemma ClosingIsNotFlagged(s: State, t: Task, d: Conn)
    requires Inv(s) && IsOwnedBy(s, d, t)
    ensures d !in s.flagged && s.closed[d] == 0 && d in s.dialed && !IsMapped(s, d)
  {
    assert ConnOk(s, d) && CallOk(s, t) && OwnerOk(s, t);
    assert IsOwned(s, d);
  }

  lemma CloseKeepsInv(s: State, t: Task, pc: Pc, d: Conn, flagged: set<Conn>)
    requires Inv(s) && IsOwnedBy(s, d, t) && Owned(pc) == None
    requires flagged == s.flagged || flagged == s.flagged + {d}
    requires CallOk(Goto(s, t, pc), t)
    ensures Inv(Goto(s.(flagged := flagged, closed := s.closed + multiset{d}), t, pc))
  {
    var u := Goto(s.(flagged := flagged, closed := s.closed + multiset{d}), t, pc);
    forall a ensures EntryOk(u, a) { assert EntryOk(s, a); }
    assert CallOk(u, t);
    forall x ensures CallOk(u, x) { assert CallOk(s, x); }
    forall c ensures IsMapped(u, c) <==> IsMapped(s, c) {}
    ClosingIsNotFlagged(s, t, d);
    OwnedEnds(s, t, pc, u, d);
    forall c ensures ConnOk(u, c) {
      hide CallOk, EntryOk, IsMapped;
      assert ConnOk(s, c);
      OwnedAfter(s, u, t, pc, c);
      assert IsOwnedBy(s, d, t);
    }
  }

  lemma StoreKeepsInv(s: State, t: Task, asset: int, d: Conn)
    requires Inv(s) && t in s.calls && s.calls[t] == Storing(asset, d) && asset !in s.entries
    ensures Inv(AfterStore(s, t, asset, d))
  {
    var u := AfterStore(s, t, asset, d);
    var pc := Returned(asset, d);
    assert IsOwnedBy(s, d, t);
    ClosingIsNotFlagged(s, t, d);
    assert CallOk(s, t);
    forall a ensures EntryOk(u, a) { assert EntryOk(s, a); }
    forall x ensures CallOk(u, x) { assert CallOk(s, x); }
    forall c ensures IsMapped(u, c) <==> IsMapped(s, c) || c == d {}
    OwnedEnds(s, t, pc, u, d);
    forall c ensures ConnOk(u, c) {
      hide CallOk, EntryOk;
      assert ConnOk(s, c);
      OwnedAfter(s, u, t, pc, c);
    }
  }

  lemma SweptConns(s: State, assets: set<int>, c: Conn)
    requires Inv(s)
    ensures c in ConnsOf(s, assets) <==> IsMapped(s, c) && s.dialed[c] in assets
  {
    if c in ConnsOf(s, assets) {
      var a :| a in assets && a in s.entries && s.entries[a] == c;
      assert EntryOk(s, a);
    }
    if IsMapped(s, c) && s.dialed[c] in assets {
      var a := s.dialed[c];
      assert a in assets && a in s.entries && s.entries[a] == c;
    }
  }

  lemma SweepKeepsInv(s: State, assets: set<int>)
    requires Inv(s)
    ensures Inv(Swept(s, assets))
  {
    var u := Swept(s, assets);
    forall a ensures EntryOk(u, a) { assert EntryOk(s, a); }
    forall x ensures CallOk(u, x) { assert CallOk(s, x); }
    forall c ensures IsMapped(u, c) <==> IsMapped(s, c) && s.dialed[c] !in assets {}
    forall c, x ensures IsOwnedBy(u, c, x) <==> IsOwnedBy(s, c, x) {}
    forall x ensures OwnerOk(u, x) { assert OwnerOk(s, x); }
    forall c ensures ConnOk(u, c) {
      hide CallOk, EntryOk, ConnsOf;
      assert ConnOk(s, c);
      SweptConns(s, assets, c);
      assert IsOwned(u, c) <==> IsOwned(s, c) by { SameCalls(s, u, c); }
      assert IsMapped(s, c) ==> !IsOwned(s, c) by { if IsMapped(s, c) { MappedIsNotOwned(s, c); } }
    }
  }

  lemma SameCalls(s: State, u: State, c: Conn)
    requires u.calls == s.calls
    ensures IsOwned(u, c) <==> IsOwned(s, c)
  {
    forall x ensures IsOwnedBy(u, c, x) <==> IsOwnedBy(s, c, x) {}
  }

  lemma CountsDoNotMatter(s: State, u: State)
    requires Inv(s) && u == s.(refs := u.refs, held := u.held)
    ensures Inv(u)
  {
    forall a ensures EntryOk(u, a) { assert EntryOk(s, a); }
    forall x ensures CallOk(u, x) { assert CallOk(s, x); }
    forall c, x ensures IsOwnedBy(u, c, x) <==> IsOwnedBy(s, c, x) {}
    forall x ensures OwnerOk(u, x) {
      assert OwnerOk(s, x);
      forall c ensures IsMapped(u, c) <==> IsMapped(s, c) {}
    }
    forall c ensures ConnOk(u, c) {
      assert ConnOk(s, c);
      SameCalls(s, u, c);
      assert IsMapped(u, c) <==> IsMapped(s, c);
    }
  }

  lemma QuietStepKeepsInv(s: State, a: Action)
    requires Inv(s) && Enabled(s, a)
    requires a.CallGet? || a.CallRemove? || a.SeesAlive? || a.SeesDead? || a.Acquire? || a.DialFails?
    ensures Inv(After(s, a))
  {
    assert CallOk(s, a.t);
    var u := After(s, a);
    SameOwnership(s, a.t, u.calls[a.t], u);
  }

  lemma LookKeepsInv(s: State, t: Task)
    requires Inv(s) && Enabled(s, Look(t))
    ensures Inv(After(s, Look(t)))
  {
    assert EntryOk(s, s.calls[t].asset);
    var u := After(s, Look(t));
    SameOwnership(s, t, u.calls[t], u);
  }

  lemma DuplicateKeepsInv(s: State, t: Task)
    requires Inv(s) && Enabled(s, Store(t)) && s.calls[t].asset in s.entries
    ensures Inv(After(s, Store(t)))
  {
    assert EntryOk(s, s.calls[t].asset) && CallOk(s, t);
    var u := After(s, Store(t));
    SameOwnership(s, t, u.calls[t], u);
  }

  lemma CloseEntryKeepsInv(s: State, t: Task)
    requires Inv(s) && Enabled(s, CloseEntry(t))
    ensures Inv(After(s, CloseEntry(t)))
  {
    hide Inv;
    var pc := s.calls[t];
    assert IsOwnedBy(s, pc.conn, t);
    ClosingIsNotFlagged(s, t, pc.conn);
    CloseKeepsInv(s, t, Continue(pc.asset, pc.next), pc.conn, s.flagged + {pc.conn});
  }

  lemma CloseDuplicateKeepsInv(s: State, t: Task)
    requires Inv(s) && Enabled(s, CloseDuplicate(t))
    ensures Inv(After(s, CloseDuplicate(t)))
  {
    var pc := s.calls[t];
    assert IsOwnedBy(s, pc.conn, t) && CallOk(s, t);
    CloseKeepsInv(s, t, Rechecking(pc.asset, pc.existing), pc.conn, s.flagged);
  }

  lemma TakeOutStepKeepsInv(s: State, t: Task)
    requires Inv(s) && Enabled(s, TakeOut(t))
    ensures Inv(After(s, TakeOut(t)))
  {
    var pc := s.calls[t];
    if pc.asset in s.entries {
      TakeOutKeepsInv(s, t, pc.asset, pc.next);
    } else {
      SameOwnership(s, t, Continue(pc.asset, pc.next), After(s, TakeOut(t)));
    }
  }

  /** Every step keeps the invariant. */
  lemma StepKeepsInv(s: State, a: Action)
    requires Inv(s) && Enabled(s, a)
    ensures Inv(After(s, a))
  {
    hide Inv;
    match a
    case Look(t) => LookKeepsInv(s, t);
    case TakeOut(t) => TakeOutStepKeepsInv(s, t);
    case CloseEntry(t) => CloseEntryKeepsInv(s, t);
    case DialOk(t, c) => DialKeepsInv(s, t, s.calls[t].asset, c);
    case Store(t) =>
      if s.calls[t].asset in s.entries {
        DuplicateKeepsInv(s, t);
      } else {
        StoreKeepsInv(s, t, s.calls[t].asset, s.calls[t].conn);
      }
    case CloseDuplicate(t) => CloseDuplicateKeepsInv(s, t);
    case Release(c) => CountsDoNotMatter(s, After(s, a));
    case CleanupIdle(assets) => SweepKeepsInv(s, assets);
    case ClosePool => SweepKeepsInv(s, s.entries.Keys);
    case _ => QuietStepKeepsInv(s, a);
  }

  lemma EmptyHasInv()
    ensures Inv(EMPTY)
  {
    forall c ensures ConnOk(EMPTY, c) {
      forall t ensures !IsOwnedBy(EMPTY, c, t) {}
    }
  }

  lemma {:induction false} RunKeepsInv(states: seq<State>, actions: seq<Action>, i: nat)
    requires IsRun(states, actions) && i < |states|
    ensures Inv(states[i])
  {
    hide Inv, After, Enabled;
    if i == 0 {
      EmptyHasInv();
    } else {
      RunKeepsInv(states, actions, i - 1);
      StepKeepsInv(states[i - 1], actions[i - 1]);
    }
  }

  /** Over every interleaving: each connection ever dialed is in the map under the asset it was dialed for, or with
      exactly one call that will store or close it, or it has been closed, exactly once. */
  lemma EveryConnectionHasOneOwner(states: seq<State>, actions: seq<Action>, i: nat, c: Conn)
    requires IsRun(states, actions) && i < |states|
    ensures var s := states[i];
            && s.closed[c] == (if c in s.dialed && !IsMapped(s, c) && !IsOwned(s, c) then 1 else 0)
            && (IsMapped(s, c) ==> !IsOwned(s, c))
            && (forall t, u | IsOwnedBy(s, c, t) && IsOwnedBy(s, c, u) :: t == u)
            && (forall a | a in s.entries && s.entries[a] == c :: IsMapped(s, c) && a == s.dialed[c])
  {
    RunKeepsInv(states, actions, i);
    var s := states[i];
    assert ConnOk(s, c);
    if IsMapped(s, c) {
      MappedIsNotOwned(s, c);
    }
    forall t, u | IsOwnedBy(s, c, t) && IsOwnedBy(s, c, u) ensures t == u { assert OwnerOk(s, t); }
    forall a | a in s.entries && s.entries[a] == c ensures IsMapped(s, c) && a == s.dialed[c] { assert EntryOk(s, a); }
  }

  /** Every client is closed at most once even without the flag: no step finds it set on an entry it closes. */
  lemma FlagIsNeverNeeded(states: seq<State>, actions: seq<Action>, i: nat)
    requires IsRun(states, actions) && i < |actions|
    ensures actions[i].CloseEntry? ==> states[i].calls[actions[i].t].conn !in states[i].flagged
    ensures actions[i].CleanupIdle? ==> ConnsOf(states[i], actions[i].assets) !! states[i].flagged
    ensures actions[i].ClosePool? ==> ConnsOf(states[i], states[i].entries.Keys) !! states[i].flagged
  {
    RunKeepsInv(states, actions, i);
    var s, a := states[i], actions[i];
    if a.CloseEntry? {
      assert IsOwnedBy(s, s.calls[a.t].conn, a.t);
      ClosingIsNotFlagged(s, a.t, s.calls[a.t].conn);
    }
    forall c ensures !(c in s.flagged && IsMapped(s, c)) { assert ConnOk(s, c); }
    if a.CleanupIdle? {
      forall c ensures !(c in ConnsOf(s, a.assets) && c in s.flagged) { SweptConns(s, a.assets, c); }
    }
    if a.ClosePool? {
      forall c ensures !(c in ConnsOf(s, s.entries.Keys) && c in s.flagged) { SweptConns(s, s.entries.Keys, c); }
    }
  }

  /** What Get returns was dialed for the asset that was asked for. */
  lemma GetReturnsTheAsset(states: seq<State>, actions: seq<Action>, i: nat, t: Task)
    requires IsRun(states, actions) && i < |states| && t in states[i].calls && states[i].calls[t].Returned?
    ensures var s := states[i];
            s.calls[t].conn in s.dialed && s.dialed[s.calls[t].conn] == s.calls[t].asset
  {
    RunKeepsInv(states, actions, i);
    assert CallOk(states[i], t);
  }

  // Reference counts

  /** The count of a mapped entry is the number of its borrows. */
  predicate CountOk(s: State, c: Conn) {
    IsMapped(s, c) ==> RefsOf(s, c) == s.held[c]
  }

  /** Release looks its entry up by asset. The counts stay exact if and only if the connection that is given back is
      still in the pool, or nothing else has taken its place. */
  lemma ReleaseIsExact(s: State, c: Conn)
    requires Enabled(s, Release(c)) && (forall a :: EntryOk(s, a)) && forall d :: CountOk(s, d)
    ensures (forall d :: CountOk(After(s, Release(c)), d)) <==> IsMapped(s, c) || s.dialed[c] !in s.entries
  {
    var u := After(s, Release(c));
    if IsMapped(s, c) || s.dialed[c] !in s.entries {
      forall d ensures CountOk(u, d) { assert CountOk(s, d); }
    } else {
      var e := s.entries[s.dialed[c]];
      assert EntryOk(s, s.dialed[c]) && CountOk(s, e);
      assert !CountOk(u, e);
    }
  }

  /** The entry a call has looked up and not acquired yet. */
  function Awaited(pc: Pc): Option<Conn> {
    match pc
    case Checking(_, c) => Some(c)
    case Rechecking(_, c) => Some(c)
    case Alive(_, c) => Some(c)
    case Duplicate(_, _, existing) => Some(existing)
    case _ => None
  }

  predicate AwaitedOk(s: State, t: Task) {
    t in s.calls && Awaited(s.calls[t]).Some? ==> IsMapped(s, Awaited(s.calls[t]).value)
  }

  /** Nobody holds the connection, and no call has looked it up to acquire it. */
  ghost predicate IsUnused(s: State, c: Conn) {
    s.held[c] == 0 && forall t | t in s.calls :: Awaited(s.calls[t]) != Some(c)
  }

  /** The step takes no entry out of the pool that is in use. */
  ghost predicate TakesOnlyUnused(s: State, a: Action) {
    match a
    case TakeOut(t) =>
      t in s.calls && s.calls[t].Removing? && s.calls[t].asset in s.entries ==> IsUnused(s, s.entries[s.calls[t].asset])
    case CleanupIdle(assets) => forall x | x in assets && x in s.entries :: IsUnused(s, s.entries[x])
    case ClosePool => forall x | x in s.entries :: IsUnused(s, s.entries[x])
    case _ => true
  }

  ghost predicate Exact(s: State) {
    && (forall c :: CountOk(s, c) && (s.held[c] > 0 ==> IsMapped(s, c)))
    && forall t :: AwaitedOk(s, t)
  }

  /** Entries that are not in use can be swept, and no others. */
  lemma SweepExactly(s: State, assets: set<int>)
    requires Inv(s) && Exact(s)
    ensures Exact(Swept(s, assets)) <==> forall x | x in assets && x in s.entries :: IsUnused(s, s.entries[x])
  {
    var u := Swept(s, assets);
    forall c ensures IsMapped(u, c) <==> IsMapped(s, c) && s.dialed[c] !in assets {}
    if forall x | x in assets && x in s.entries :: IsUnused(s, s.entries[x]) {
      forall c ensures CountOk(u, c) && (u.held[c] > 0 ==> IsMapped(u, c)) { assert CountOk(s, c); }
      forall t ensures AwaitedOk(u, t) { assert AwaitedOk(s, t); }
    }
    if Exact(u) {
      forall x | x in assets && x in s.entries ensures IsUnused(s, s.entries[x]) {
        var e := s.entries[x];
        assert EntryOk(s, x) && CountOk(u, e) && !IsMapped(u, e);
        forall t | t in s.calls ensures Awaited(s.calls[t]) != Some(e) { assert AwaitedOk(u, t); }
      }
    }
  }

  /** The same for the entry that Remove takes out. */
  lemma TakeOutExactly(s: State, t: Task)
    requires Inv(s) && Exact(s) && Enabled(s, TakeOut(t)) && s.calls[t].asset in s.entries
    ensures Exact(After(s, TakeOut(t))) <==> IsUnused(s, s.entries[s.calls[t].asset])
  {
    var u, e := After(s, TakeOut(t)), s.entries[s.calls[t].asset];
    assert EntryOk(s, s.calls[t].asset);
    forall c ensures IsMapped(u, c) <==> IsMapped(s, c) && c != e {}
    if IsUnused(s, e) {
      forall c ensures CountOk(u, c) && (u.held[c] > 0 ==> IsMapped(u, c)) { assert CountOk(s, c); }
      forall x ensures AwaitedOk(u, x) { assert AwaitedOk(s, x); }
    }
    if Exact(u) {
      assert CountOk(u, e);
      forall x | x in s.calls ensures Awaited(s.calls[x]) != Some(e) { assert AwaitedOk(u, x); }
    }
  }

  lemma StoreKeepsExact(s: State, t: Task)
    requires Inv(s) && Exact(s) && Enabled(s, Store(t))
    ensures Exact(After(s, Store(t)))
  {
    var u, d, asset := After(s, Store(t)), s.calls[t].conn, s.calls[t].asset;
    assert EntryOk(s, asset) && CallOk(s, t) && IsOwnedBy(s, d, t);
    ClosingIsNotFlagged(s, t, d);
    assert CountOk(s, d) && !IsMapped(s, d);
    assert s.held[d] == 0;
    forall c ensures IsMapped(u, c) <==> IsMapped(s, c) || (c == d && asset !in s.entries) {}
    forall c ensures CountOk(u, c) && (u.held[c] > 0 ==> IsMapped(u, c)) { assert CountOk(s, c); }
    forall x ensures AwaitedOk(u, x) { assert AwaitedOk(s, x); }
  }

  lemma CallKeepsExact(s: State, t: Task, u: State)
    requires Exact(s) && t in u.calls && AwaitedOk(u, t)
    requires u == s.(calls := s.calls[t := u.calls[t]], closed := u.closed, flagged := u.flagged)
    ensures Exact(u)
  {
    forall c ensures IsMapped(u, c) <==> IsMapped(s, c) {}
    forall c ensures CountOk(u, c) && (u.held[c] > 0 ==> IsMapped(u, c)) { assert CountOk(s, c); }
    forall x ensures AwaitedOk(u, x) { assert AwaitedOk(s, x); }
  }

  lemma OtherStepKeepsExact(s: State, a: Action)
    requires Inv(s) && Exact(s) && Enabled(s, a)
    requires !a.Store? && !a.CleanupIdle? && !a.ClosePool? && !a.DialOk? && !a.Release? && !a.Acquire?
    requires a.TakeOut? ==> s.calls[a.t].asset !in s.entries
    ensures Exact(After(s, a))
  {
    assert AwaitedOk(s, a.t);
    if a.Look? {
      assert EntryOk(s, s.calls[a.t].asset);
    }
    hide Exact, Inv;
    CallKeepsExact(s, a.t, After(s, a));
  }

  lemma AcquireKeepsExact(s: State, t: Task)
    requires Exact(s) && Enabled(s, Acquire(t))
    ensures Exact(After(s, Acquire(t)))
  {
    var d := s.calls[t].conn;
    var u := Lent(s, d);
    assert AwaitedOk(s, t);
    forall c ensures IsMapped(u, c) <==> IsMapped(s, c) {}
    forall c ensures CountOk(u, c) && (u.held[c] > 0 ==> IsMapped(u, c)) { assert CountOk(s, c); }
    forall x ensures AwaitedOk(u, x) { assert AwaitedOk(s, x); }
    CallKeepsExact(u, t, After(s, Acquire(t)));
  }

  lemma DialKeepsExact(s: State, t: Task, d: Conn)
    requires Inv(s) && Exact(s) && Enabled(s, DialOk(t, d))
    ensures Exact(After(s, DialOk(t, d)))
  {
    var u := s.(dialed := s.dialed[d := s.calls[t].asset]);
    assert CountOk(s, d) && !IsMapped(s, d);
    forall c ensures IsMapped(u, c) <==> IsMapped(s, c) {
      if IsMapped(u, c) { assert EntryOk(s, u.dialed[c]); }
    }
    forall c ensures CountOk(u, c) && (u.held[c] > 0 ==> IsMapped(u, c)) { assert CountOk(s, c); }
    forall x ensures AwaitedOk(u, x) { assert AwaitedOk(s, x); }
    CallKeepsExact(u, t, After(s, DialOk(t, d)));
  }

  lemma ReleaseKeepsExact(s: State, d: Conn)
    requires Exact(s) && Enabled(s, Release(d))
    ensures Exact(After(s, Release(d)))
  {
    var u := After(s, Release(d));
    assert CountOk(s, d) && IsMapped(s, d);
    forall c ensures IsMapped(u, c) <==> IsMapped(s, c) {}
    forall c ensures CountOk(u, c) && (u.held[c] > 0 ==> IsMapped(u, c)) { assert CountOk(s, c); }
    forall x ensures AwaitedOk(u, x) { assert AwaitedOk(s, x); }
  }

  /** A step keeps the counts exact, and what is in use in the pool, if and only if it takes out nothing in use. */
  lemma StepExactly(s: State, a: Action)
    requires Inv(s) && Exact(s) && Enabled(s, a)
    ensures Exact(After(s, a)) <==> TakesOnlyUnused(s, a)
  {
    hide Exact, Inv, IsUnused;
    match a
    case Store(t) => StoreKeepsExact(s, t);
    case CleanupIdle(assets) => SweepExactly(s, assets);
    case ClosePool => SweepExactly(s, s.entries.Keys);
    case DialOk(t, c) => DialKeepsExact(s, t, c);
    case Release(c) => ReleaseKeepsExact(s, c);
    case Acquire(t) => AcquireKeepsExact(s, t);
    case TakeOut(t) =>
      if s.calls[t].asset in s.entries {
        TakeOutExactly(s, t);
      } else {
        OtherStepKeepsExact(s, a);
      }
    case _ => OtherStepKeepsExact(s, a);
  }

  lemma SweptNothing(s: State)
    ensures Swept(s, {}) == s
  {
    assert ConnsOf(s, {}) == {} && s.entries - {} == s.entries;
  }

  lemma {:induction false} RunKeepsExact(states: seq<State>, actions: seq<Action>, i: nat)
    requires IsRun(states, actions) && i < |states|
    requires forall k | 0 <= k < i :: TakesOnlyUnused(states[k], actions[k])
    ensures Exact(states[i])
  {
    hide Exact, Inv, After, Enabled, TakesOnlyUnused;
    if i == 0 {
      assert Exact(EMPTY) by { EmptyIsExact(); }
    } else {
      RunKeepsExact(states, actions, i - 1);
      RunKeepsInv(states, actions, i - 1);
      StepExactly(states[i - 1], actions[i - 1]);
    }
  }

  /** The counts are exact all along a run if and only if none of its steps takes out an entry that is in use. */
  lemma RunIsExactExactly(states: seq<State>, actions: seq<Action>)
    requires IsRun(states, actions)
    ensures (forall i | 0 <= i < |states| :: Exact(states[i]))
       <==> forall k | 0 <= k < |actions| :: TakesOnlyUnused(states[k], actions[k])
  {
    hide Exact, Inv, After, Enabled, TakesOnlyUnused;
    if forall i | 0 <= i < |states| :: Exact(states[i]) {
      forall k | 0 <= k < |actions| ensures TakesOnlyUnused(states[k], actions[k]) {
        RunKeepsInv(states, actions, k);
        assert Exact(states[k]) && Exact(states[k + 1]);
        StepExactly(states[k], actions[k]);
      }
    }
    if forall k | 0 <= k < |actions| :: TakesOnlyUnused(states[k], actions[k]) {
      forall i | 0 <= i < |states| ensures Exact(states[i]) { RunKeepsExact(states, actions, i); }
    }
  }

  lemma EmptyIsExact()
    ensures Exact(EMPTY)
  {
  }

  /** As long as no step takes out an entry in use, a borrowed connection is open and in the pool. */
  lemma BorrowedStaysOpen(states: seq<State>, actions: seq<Action>, i: nat, c: Conn)
    requires IsRun(states, actions) && i < |states| && c in states[i].held
    requires forall k | 0 <= k < i :: TakesOnlyUnused(states[k], actions[k])
    ensures IsMapped(states[i], c) && RefsOf(states[i], c) == states[i].held[c] && states[i].closed[c] == 0
  {
    RunKeepsExact(states, actions, i);
    RunKeepsInv(states, actions, i);
    assert CountOk(states[i], c) && ConnOk(states[i], c);
  }

  function Last(states: seq<State>): State {
    if states == [] then EMPTY else states[|states| - 1]
  }

  lemma OneMore(states: seq<State>, actions: seq<Action>, a: Action) returns (more: seq<State>, done: seq<Action>)
    requires IsRun(states, actions) && Enabled(Last(states), a)
    ensures IsRun(more, done) && Last(more) == After(Last(states), a)
  {
    more, done := states + [After(Last(states), a)], actions + [a];
    forall i | 0 <= i < |done| ensures Enabled(more[i], done[i]) && more[i + 1] == After(more[i], done[i]) {
      hide Enabled, After;
      if i < |actions| {
        assert more[i] == states[i] && more[i + 1] == states[i + 1] && done[i] == actions[i];
      }
    }
  }

  lemma GotoTwice(s: State, t: Task, a: Pc, b: Pc)
    ensures Goto(Goto(s, t, a), t, b) == Goto(s, t, b)
  {
    assert s.calls[t := a][t := b] == s.calls[t := b];
  }

  lemma Looks(s: State, t: Task, asset: int)
    requires t !in s.calls && asset !in s.entries
    ensures Enabled(s, CallGet(t, asset)) && Enabled(After(s, CallGet(t, asset)), Look(t))
    ensures After(After(s, CallGet(t, asset)), Look(t)) == Goto(s, t, Dialing(asset))
  {
    GotoTwice(s, t, Start(asset), Dialing(asset));
  }

  lemma DialsAndStores(s: State, t: Task, asset: int, c: Conn)
    requires asset !in s.entries && c !in s.dialed
    ensures var u := Goto(s, t, Dialing(asset));
            && Enabled(u, DialOk(t, c)) && Enabled(After(u, DialOk(t, c)), Store(t))
            && After(After(u, DialOk(t, c)), Store(t)) == Fetched(s, t, asset, c)
  {
    hide Goto;
    var v := s.(dialed := s.dialed[c := asset]);
    assert After(Goto(s, t, Dialing(asset)), DialOk(t, c)) == Goto(v, t, Storing(asset, c)) by { Dials(s, t, asset, c); }
    Stores(v, t, asset, c);
  }

  lemma Dials(s: State, t: Task, asset: int, c: Conn)
    requires c !in s.dialed
    ensures Enabled(Goto(s, t, Dialing(asset)), DialOk(t, c))
    ensures After(Goto(s, t, Dialing(asset)), DialOk(t, c)) == Goto(s.(dialed := s.dialed[c := asset]), t, Storing(asset, c))
  {
    GotoTwice(s.(dialed := s.dialed[c := asset]), t, Dialing(asset), Storing(asset, c));
  }

  lemma Stores(s: State, t: Task, asset: int, c: Conn)
    requires asset !in s.entries && c in s.dialed && s.dialed[c] == asset
    ensures var u := Goto(s, t, Storing(asset, c)); Enabled(u, Store(t)) && After(u, Store(t)) == Fetched(s, t, asset, c)
  {
    assert s.dialed[c := asset] == s.dialed;
    assert s.calls[t := Storing(asset, c)][t := Returned(asset, c)] == s.calls[t := Returned(asset, c)];
  }

  function Fetched(s: State, t: Task, asset: int, c: Conn): State {
    s.(entries := s.entries[asset := c], refs := s.refs[c := 1], held := s.held + multiset{c},
       calls := s.calls[t := Returned(asset, c)], dialed := s.dialed[c := asset])
  }

  /** A Get that dials and stores without interference. */
  lemma GetAlone(states: seq<State>, actions: seq<Action>, t: Task, asset: int, c: Conn)
    returns (more: seq<State>, done: seq<Action>)
    requires IsRun(states, actions)
    requires t !in Last(states).calls && asset !in Last(states).entries && c !in Last(states).dialed
    ensures IsRun(more, done) && Last(more) == Fetched(Last(states), t, asset, c)
  {
    hide IsRun, Enabled, After, Goto, Fetched, Last;
    var s := Last(states);
    Looks(s, t, asset);
    more, done := OneMore(states, actions, CallGet(t, asset));
    more, done := OneMore(more, done, Look(t));
    DialsAndStores(s, t, asset, c);
    more, done := OneMore(more, done, DialOk(t, c));
    more, done := OneMore(more, done, Store(t));
  }

  lemma RemoveAlone(states: seq<State>, actions: seq<Action>, t: Task, asset: int)
    returns (more: seq<State>, done: seq<Action>)
    requires IsRun(states, actions)
    requires t !in Last(states).calls && asset in Last(states).entries
          && Last(states).entries[asset] !in Last(states).flagged
    ensures IsRun(more, done)
    ensures var s := Last(states);
            Last(more) == s.(entries := s.entries - {asset}, flagged := s.flagged + {s.entries[asset]},
                             closed := s.closed + multiset{s.entries[asset]}, calls := s.calls[t := Finished])
  {
    hide IsRun;
    var s := Last(states);
    more, done := OneMore(states, actions, CallRemove(t, asset));
    more, done := OneMore(more, done, TakeOut(t));
    assert Last(more) == Goto(s.(entries := s.entries - {asset}), t, Closing(asset, s.entries[asset], ThenReturn));
    more, done := OneMore(more, done, CloseEntry(t));
  }

  lemma ReleasedThenSwept(s: State)
    requires s.entries == map[7 := 1] && s.held == multiset{0, 1} && 0 in s.dialed && s.dialed[0] == 7
    requires RefsOf(s, 1) == 1 && s.closed[1] == 0 && 1 !in s.flagged
    ensures Enabled(s, Release(0)) && Enabled(After(s, Release(0)), CleanupIdle({7}))
    ensures var u := After(After(s, Release(0)), CleanupIdle({7})); u.held[1] == 1 && u.closed[1] == 1
  {
    var u := After(s, Release(0));
    assert RefsOf(u, 1) == 0;
    assert ConnsOf(u, {7}) == {1};
  }

  /** Without that condition a connection can be closed by the idle sweep while it is borrowed: its count was lowered
      by the release of a connection that had been removed before. */
  lemma SweepCanCloseBorrowed() returns (states: seq<State>, actions: seq<Action>)
    ensures IsRun(states, actions) && Last(states).held[1] == 1 && Last(states).closed[1] == 1
  {
    hide IsRun, Enabled, After;
    states, actions := [EMPTY], [];
    assert IsRun(states, actions) by { EmptyRun(); }
    states, actions := GetAlone(states, actions, 0, 7, 0);
    states, actions := RemoveAlone(states, actions, 1, 7);
    states, actions := GetAlone(states, actions, 2, 7, 1);
    var s := Last(states);
    assert s.entries == map[7 := 1] && s.held == multiset{0, 1};
    ReleasedThenSwept(s);
    states, actions := OneMore(states, actions, Release(0));
    states, actions := OneMore(states, actions, CleanupIdle({7}));
  }

  lemma EmptyRun()
    ensures IsRun([EMPTY], [])
  {
  }

  // The pool

  lemma OneConn(s: State, a: int)
    requires a in s.entries
    ensures ConnsOf(s, {a}) == {s.entries[a]}
  {
  }

  lemma SweptOne(s: State, a: int)
    requires a in s.entries
    ensures Swept(s, {a}) == EntryClosed(s.(entries := s.entries - {a}), s.entries[a])
  {
    hide ConnsOf;
    OneConn(s, a);
    var c := s.entries[a];
    if c in s.flagged {
      assert {c} - s.flagged == {} && s.flagged + {} == s.flagged && s.closed + multiset({}) == s.closed;
    } else {
      assert {c} - s.flagged == {c};
    }
  }

  lemma GoneOneMore(s: State, assets: set<int>, a: int)
    requires a in s.entries && a !in assets && Inv(s)
    ensures ConnsOf(s, assets + {a}) == ConnsOf(s, assets) + {s.entries[a]}
    ensures s.entries[a] !in ConnsOf(s, assets) && s.entries[a] !in s.flagged
  {
    var d := s.entries[a];
    SweptConns(s, assets, d);
    assert EntryOk(s, a);
    assert IsMapped(s, d) && ConnOk(s, d);
  }

  /** One entry after the other is the same as all at once. */
  lemma SweptOneMore(s: State, assets: set<int>, a: int)
    requires a in s.entries && a !in assets && Inv(s)
    ensures Swept(Swept(s, assets), {a}) == Swept(s, assets + {a})
    ensures a in Swept(s, assets).entries
  {
    hide ConnsOf, Inv;
    var u := Swept(s, assets);
    GoneOneMore(s, assets, a);
    SweptOne(u, a);
    var d, gone := s.entries[a], ConnsOf(s, assets) - s.flagged;
    assert ConnsOf(s, assets + {a}) - s.flagged == gone + {d};
    assert multiset(gone + {d}) == multiset(gone) + multiset{d};
    assert s.entries - assets - {a} == s.entries - (assets + {a});
    assert s.flagged + gone + {d} == s.flagged + (gone + {d});
  }

  class Pool {
    const idleTime: int
    var entries: map<int, Conn>
    var refs: map<Conn, int>
    var lastUsed: map<Conn, int>
    var flagged: set<Conn>
    var closed: multiset<Conn>
    ghost var calls: map<Task, Pc>
    ghost var dialed: map<Conn, int>
    ghost var held: multiset<Conn>

    ghost function Abs(): State
      reads this
    {
      State(entries, flagged, refs, calls, dialed, closed, held)
    }

    constructor (idleTime: int)
      ensures Abs() == EMPTY
    {
      this.idleTime := idleTime;
      entries, refs, lastUsed, flagged, closed := map[], map[], map[], {}, multiset{};
      calls, dialed, held := map[], map[], multiset{};
    }

    method CloseConn(c: Conn)
      modifies this`flagged, this`closed
      ensures Abs() == EntryClosed(old(Abs()), c)
    {
      if c in flagged {
        return;
      }
      flagged := flagged + {c};
      closed := closed + multiset{c};
    }

    /** The critical section at the end of Get; the result is an entry that was stored meanwhile. */
    method StoreEntry(t: Task, asset: int, c: Conn, now: int) returns (existing: Option<Conn>)
      requires t in calls && calls[t] == Storing(asset, c)
      modifies this`entries, this`refs, this`lastUsed, this`calls, this`held
      ensures Abs() == After(old(Abs()), Store(t))
      ensures existing == if asset in old(entries) then Some(old(entries)[asset]) else None
    {
      hide Swept, Lent, EntryClosed;
      if asset in entries {
        calls := calls[t := Duplicate(asset, c, entries[asset])];
        return Some(entries[asset]);
      }
      entries, refs, lastUsed := entries[asset := c], refs[c := 1], lastUsed[c := now];
      calls, held := calls[t := Returned(asset, c)], held + multiset{c};
      existing := None;
    }

    /** The critical section of Remove; the result has to be closed. */
    method RemoveEntry(t: Task, asset: int) returns (removed: Option<Conn>)
      requires t in calls && calls[t].Removing? && calls[t].asset == asset
      modifies this`entries, this`calls
      ensures Abs() == After(old(Abs()), TakeOut(t))
      ensures removed == if asset in old(entries) then Some(old(entries)[asset]) else None
    {
      if asset in entries {
        removed := Some(entries[asset]);
        calls := calls[t := Closing(asset, entries[asset], calls[t].next)];
        entries := entries - {asset};
      } else {
        removed := None;
        calls := calls[t := Continue(asset, calls[t].next)];
      }
    }

    predicate IsIdle(asset: int, now: int)
      reads this
    {
      && asset in entries
      && RefsOf(State(entries, flagged, refs, map[], map[], closed, multiset{}), entries[asset]) <= 0
      && now - (if entries[asset] in lastUsed then lastUsed[entries[asset]] else 0) > idleTime
    }

    method FindIdle(now: int) returns (idle: seq<int>)
      ensures forall a :: a in idle <==> IsIdle(a, now)
      ensures forall i, j | 0 <= i < j < |idle| :: idle[i] != idle[j]
    {
      idle := [];
      var todo := entries.Keys;
      while todo != {}
        invariant todo <= entries.Keys
        invariant forall a :: a in idle <==> IsIdle(a, now) && a !in todo
        invariant forall i, j | 0 <= i < j < |idle| :: idle[i] != idle[j]
      {
        HasMember(todo);
        var a :| a in todo;
        todo := todo - {a};
        if IsIdle(a, now) {
          idle := idle + [a];
        }
      }
    }

    method Sweep(assets: seq<int>)
      requires Inv(Abs())
      requires forall i, j | 0 <= i < j < |assets| :: assets[i] != assets[j]
      requires forall a | a in assets :: a in entries
      modifies this`entries, this`flagged, this`closed
      ensures Abs() == Swept(old(Abs()), set a | a in assets)
    {
      hide Swept, Inv, EntryClosed;
      ghost var s := Abs();
      ghost var done: set<int> := {};
      SweptNothing(s);
      for i := 0 to |assets|
        invariant done == set k | 0 <= k < i :: assets[k]
        invariant Abs() == Swept(s, done)
      {
        var a := assets[i];
        assert a in assets;
        SweptOneMore(s, done, a);
        SweptOne(Abs(), a);
        var c := entries[a];
        entries := entries - {a};
        CloseConn(c);
        done := done + {a};
      }
      assert done == set a | a in assets;
    }

    /** cleanupIdle: exactly the entries without borrows that were not used for too long are removed and closed. */
    method CleanupIdleEntries(now: int) returns (ghost idle: set<int>)
      requires Inv(Abs())
      modifies this`entries, this`flagged, this`closed
      ensures forall a :: a in idle
                     <==> && a in old(entries) && (old(entries)[a] in refs ==> refs[old(entries)[a]] <= 0)
                          && now - (if old(entries)[a] in lastUsed then lastUsed[old(entries)[a]] else 0) > idleTime
      ensures Enabled(old(Abs()), CleanupIdle(idle)) && Abs() == After(old(Abs()), CleanupIdle(idle))
    {
      hide Inv, Swept;
      var assets := FindIdle(now);
      idle := set a | a in assets;
      forall a | a in idle ensures RefsOf(Abs(), entries[a]) <= 0 { assert IsIdle(a, now); }
      Sweep(assets);
    }

    /** The critical section of Close. */
    method CloseAll()
      requires Inv(Abs())
      modifies this`entries, this`flagged, this`closed
      ensures Abs() == After(old(Abs()), ClosePool) && entries == map[]
    {
      hide Inv, Swept, EntryClosed;
      ghost var s := Abs();
      ghost var done: set<int> := {};
      SweptNothing(s);
      var todo := entries.Keys;
      while todo != {}
        invariant done + todo == s.entries.Keys && done !! todo && entries.Keys == todo
        invariant Abs() == Swept(s, done)
      {
        HasMember(todo);
        var a :| a in todo;
        SweptOneMore(s, done, a);
        SweptOne(Abs(), a);
        var c := entries[a];
        entries := entries - {a};
        CloseConn(c);
        todo, done := todo - {a}, done + {a};
      }
      assert done == s.entries.Keys;
    }
  }
}
