/** Remote execution over one connection: two pumps and the main goroutine share the writing end under a mutex,
    and the client takes the stream apart again. Every write to the connection is a step of its own. */
module ExecStream {
  import opened Frames

  datatype Stream = Out | Err

  /** A pump holds at most one chunk; `last` says that the read that returned it also returned the end of the stream. */
  datatype Phase =
    | Reading
    | Waiting(chunk: seq<Byte>, last: bool)
    | Locked(chunk: seq<Byte>, last: bool)
    | HeaderSent(chunk: seq<Byte>, last: bool)
    | PayloadSent(last: bool)
    | Done

  datatype Pump = Pump(unread: seq<Byte>, phase: Phase)

  /** How the remote command ended: with an exit code, or with an error of the session. */
  datatype Exit = Exited(code: int) | Broken(message: seq<Byte>)

  datatype Main =
    | Running
    | Finished(exit: Exit)
    | MainLocked(exit: Exit)
    | MainHeaderSent(exit: Exit)
    | MainSent(exit: Exit)
    | Ended(exit: Exit)

  datatype Owner = Free | HeldBy(stream: Stream) | HeldByMain

  /** `conn` is all that has been written to the connection; `data` and `tail` record the frames completed
      by the pumps and by the main goroutine. */
  datatype State = State(out: Pump, err: Pump, main: Main, lock: Owner, conn: seq<Byte>, data: seq<Frame>,
        tail: seq<Frame>) {
    function Of(p: Stream): Pump { if p == Out then out else err }
    function With(p: Stream, q: Pump): State { if p == Out then this.(out := q) else this.(err := q) }
  }

  function Init(remoteOut: seq<Byte>, remoteErr: seq<Byte>): State {
    State(Pump(remoteOut, Reading), Pump(remoteErr, Reading), Running, Free, [], [], [])
  }

  function FrameOf(p: Stream, chunk: seq<Byte>): Frame {
    Frame(if p == Out then STDOUT else STDERR, chunk)
  }

  /** The closing frame; an error message that is too long for a frame is not sent at all. */
  function Closing(exit: Exit): (fs: seq<Frame>)
    ensures forall f | f in fs :: Sendable(f)
  {
    match exit
    case Exited(code) => [Frame(EXIT_CODE, ExitPayload(code))]
    case Broken(message) => if |message| <= MAX_FRAME_PAYLOAD then [Frame(ERROR, message)] else []
  }

  // Steps

  datatype Action =
    | Read(p: Stream, n: nat, last: bool)
    | Finish(p: Stream)
    | Lock(p: Stream)
    | SendHeader(p: Stream)
    | SendPayload(p: Stream)
    | Unlock(p: Stream)
    | SessionEnds(exit: Exit)
    | MainLock
    | MainSendHeader
    | MainSendPayload
    | MainUnlock

  predicate Enabled(s: State, a: Action) {
    match a
    case Read(p, n, last) =>
      s.Of(p).phase == Reading && 1 <= n <= |s.Of(p).unread| && n <= BUFFER_SIZE && (last ==> n == |s.Of(p).unread|)
    case Finish(p) => s.Of(p).phase == Reading && s.Of(p).unread == []
    case Lock(p) => s.Of(p).phase.Waiting? && s.lock == Free
    case SendHeader(p) => s.Of(p).phase.Locked? && Sendable(FrameOf(p, s.Of(p).phase.chunk))
    case SendPayload(p) => s.Of(p).phase.HeaderSent?
    case Unlock(p) => s.Of(p).phase.PayloadSent?
    case SessionEnds(_) => s.main == Running
    case MainLock => s.main.Finished? && s.out.phase == Done && s.err.phase == Done && s.lock == Free
    case MainSendHeader => s.main.MainLocked?
    case MainSendPayload => s.main.MainHeaderSent?
    case MainUnlock => s.main.MainSent?
  }

  function After(s: State, a: Action): State
    requires Enabled(s, a)
  {
    match a
    case Read(p, n, last) => s.With(p, Pump(s.Of(p).unread[n..], Waiting(s.Of(p).unread[..n], last)))
    case Finish(p) => s.With(p, s.Of(p).(phase := Done))
    case Lock(p) =>
      var w := s.Of(p).phase;
      s.With(p, s.Of(p).(phase := Locked(w.chunk, w.last))).(lock := HeldBy(p))
    case SendHeader(p) =>
      var w := s.Of(p).phase;
      s.With(p, s.Of(p).(phase := HeaderSent(w.chunk, w.last))).(conn := s.conn + Header(FrameOf(p, w.chunk)))
    case SendPayload(p) =>
      var w := s.Of(p).phase;
      s.With(p, s.Of(p).(phase := PayloadSent(w.last))).(conn := s.conn + w.chunk, data := s.data + [FrameOf(p, w.chunk)])
    case Unlock(p) =>
      s.With(p, s.Of(p).(phase := if s.Of(p).phase.last then Done else Reading)).(lock := Free)
    case SessionEnds(exit) => s.(main := Finished(exit))
    case MainLock => s.(main := MainLocked(s.main.exit), lock := HeldByMain)
    case MainSendHeader =>
      var fs := Closing(s.main.exit);
      s.(main := MainHeaderSent(s.main.exit), conn := s.conn + if fs == [] then [] else Header(fs[0]))
    case MainSendPayload =>
      var fs := Closing(s.main.exit);
      s.(main := MainSent(s.main.exit), conn := s.conn + (if fs == [] then [] else fs[0].payload), tail := fs)
    case MainUnlock => s.(main := Ended(s.main.exit), lock := Free)
  }

  /** The states of a run, in any interleaving. */
  predicate Reaches(s: State, actions: seq<Action>, t: State)
    decreases |actions|
  {
    if actions == [] then s == t else Enabled(s, actions[0]) && Reaches(After(s, actions[0]), actions[1..], t)
  }

  // Invariant

  function Payloads(fs: seq<Frame>, p: Stream): seq<Byte> {
    if fs == [] then []
    else Payloads(fs[..|fs| - 1], p) + (if fs[|fs| - 1].kind == FrameOf(p, []).kind then fs[|fs| - 1].payload else [])
  }

  predicate Holding(phase: Phase) {
    phase.Locked? || phase.HeaderSent? || phase.PayloadSent?
  }

  function Pending(phase: Phase): seq<Byte> {
    if phase.Waiting? || phase.Locked? || phase.HeaderSent? then phase.chunk else []
  }

  predicate PumpOk(s: State, p: Stream, remote: seq<Byte>) {
    var q := s.Of(p);
    && (s.lock == HeldBy(p) <==> Holding(q.phase))
    && Payloads(s.data, p) + Pending(q.phase) + q.unread == remote
    && |Pending(q.phase)| <= BUFFER_SIZE
    && (q.phase.Waiting? || q.phase.Locked? || q.phase.HeaderSent? ==> q.phase.chunk != [])
    && (q.phase.Waiting? || q.phase.Locked? || q.phase.HeaderSent? || q.phase.PayloadSent? ==>
          q.phase.last ==> q.unread == [])
    && (q.phase == Done ==> q.unread == [])
  }

  /** The header of the frame that is being written. */
  function Partial(s: State): seq<Byte> {
    if s.out.phase.HeaderSent? && Sendable(FrameOf(Out, s.out.phase.chunk)) then Header(FrameOf(Out, s.out.phase.chunk))
    else if s.err.phase.HeaderSent? && Sendable(FrameOf(Err, s.err.phase.chunk)) then Header(FrameOf(Err, s.err.phase.chunk))
    else if s.main.MainHeaderSent? && Closing(s.main.exit) != [] then Header(Closing(s.main.exit)[0])
    else []
  }

  predicate DataFrames(fs: seq<Frame>) {
    forall f | f in fs :: (f.kind == STDOUT || f.kind == STDERR) && Sendable(f)
  }

  predicate Inv(s: State, remoteOut: seq<Byte>, remoteErr: seq<Byte>) {
    && PumpOk(s, Out, remoteOut)
    && PumpOk(s, Err, remoteErr)
    && DataFrames(s.data)
    && s.tail == (if s.main.MainSent? || s.main.Ended? then Closing(s.main.exit) else [])
    && s.conn == EncodeAll(s.data + s.tail) + Partial(s)
    && (s.lock == HeldByMain <==> s.main.MainLocked? || s.main.MainHeaderSent? || s.main.MainSent?)
    && (!s.main.Running? && !s.main.Finished? ==> s.out.phase == Done && s.err.phase == Done)
  }

  lemma PayloadsAppend(fs: seq<Frame>, f: Frame, p: Stream)
    ensures Payloads(fs + [f], p) == Payloads(fs, p) + (if f.kind == FrameOf(p, []).kind then f.payload else [])
  {
    assert (fs + [f])[..|fs|] == fs;
  }

  lemma EncodeOne(f: Frame)
    requires Sendable(f)
    ensures EncodeAll([f]) == Header(f) + f.payload
  {
    assert [f][1..] == [];
  }

  lemma ReadKeepsInv(s: State, a: Action, remoteOut: seq<Byte>, remoteErr: seq<Byte>)
    requires Inv(s, remoteOut, remoteErr) && Enabled(s, a) && (a.Read? || a.Finish?)
    ensures Inv(After(s, a), remoteOut, remoteErr)
  {
    hide EncodeAll, Payloads, Header;
    if a.Read? {
      var u := s.Of(a.p).unread;
      assert Payloads(s.data, a.p) + [] + u == Payloads(s.data, a.p) + u[..a.n] + u[a.n..];
    }
  }

  lemma LockKeepsInv(s: State, a: Action, remoteOut: seq<Byte>, remoteErr: seq<Byte>)
    requires Inv(s, remoteOut, remoteErr) && Enabled(s, a) && (a.Lock? || a.SendHeader? || a.Unlock?)
    ensures Inv(After(s, a), remoteOut, remoteErr)
  {
    if a.Lock? {
      TakeLockKeepsInv(s, a.p, remoteOut, remoteErr);
    } else if a.Unlock? {
      UnlockKeepsInv(s, a.p, remoteOut, remoteErr);
    } else {
      HeaderKeepsInv(s, a.p, remoteOut, remoteErr);
    }
  }

  lemma TakeLockKeepsInv(s: State, p: Stream, remoteOut: seq<Byte>, remoteErr: seq<Byte>)
    requires Inv(s, remoteOut, remoteErr) && Enabled(s, Lock(p))
    ensures Inv(After(s, Lock(p)), remoteOut, remoteErr)
  {
    hide EncodeAll, Payloads, Header;
  }

  lemma UnlockKeepsInv(s: State, p: Stream, remoteOut: seq<Byte>, remoteErr: seq<Byte>)
    requires Inv(s, remoteOut, remoteErr) && Enabled(s, Unlock(p))
    ensures Inv(After(s, Unlock(p)), remoteOut, remoteErr)
  {
    hide EncodeAll, Payloads, Header;
  }

  lemma HeaderKeepsInv(s: State, p: Stream, remoteOut: seq<Byte>, remoteErr: seq<Byte>)
    requires Inv(s, remoteOut, remoteErr) && Enabled(s, SendHeader(p))
    ensures Inv(After(s, SendHeader(p)), remoteOut, remoteErr)
  {
    hide EncodeAll, Payloads, Header;
  }

  lemma SendKeepsInv(s: State, p: Stream, remoteOut: seq<Byte>, remoteErr: seq<Byte>)
    requires Inv(s, remoteOut, remoteErr) && Enabled(s, SendPayload(p))
    ensures Inv(After(s, SendPayload(p)), remoteOut, remoteErr)
  {
    hide EncodeAll, Payloads, Header;
    var t := After(s, SendPayload(p));
    var f := FrameOf(p, s.Of(p).phase.chunk);
    PayloadsAppend(s.data, f, Out);
    PayloadsAppend(s.data, f, Err);
    assert forall g | g in s.data + [f] :: Sendable(g);
    EncodeAllSplit(s.data, [f]);
    EncodeOne(f);
    assert s.data + s.tail == s.data && t.data + t.tail == s.data + [f];
  }

  lemma MainKeepsInv(s: State, a: Action, remoteOut: seq<Byte>, remoteErr: seq<Byte>)
    requires Inv(s, remoteOut, remoteErr) && Enabled(s, a)
    requires a.SessionEnds? || a.MainLock? || a.MainSendHeader? || a.MainSendPayload? || a.MainUnlock?
    ensures Inv(After(s, a), remoteOut, remoteErr)
  {
    hide EncodeAll, Payloads, Header;
    if a.MainSendPayload? {
      var fs := Closing(s.main.exit);
      EncodeAllSplit(s.data, fs);
      assert s.data + [] == s.data;
      if fs == [] {
        assert s.data + fs == s.data;
      } else {
        EncodeOne(fs[0]);
        assert fs == [fs[0]];
      }
    }
  }

  /** Every step of every goroutine keeps the invariant. */
  lemma StepKeepsInv(s: State, a: Action, remoteOut: seq<Byte>, remoteErr: seq<Byte>)
    requires Inv(s, remoteOut, remoteErr) && Enabled(s, a)
    ensures Inv(After(s, a), remoteOut, remoteErr)
  {
    hide Inv, After, Enabled;
    match a
    case SendPayload(p) => SendKeepsInv(s, p, remoteOut, remoteErr);
    case Read(_, _, _) => ReadKeepsInv(s, a, remoteOut, remoteErr);
    case Finish(_) => ReadKeepsInv(s, a, remoteOut, remoteErr);
    case Lock(_) => LockKeepsInv(s, a, remoteOut, remoteErr);
    case SendHeader(_) => LockKeepsInv(s, a, remoteOut, remoteErr);
    case Unlock(_) => LockKeepsInv(s, a, remoteOut, remoteErr);
    case _ => MainKeepsInv(s, a, remoteOut, remoteErr);
  }

  lemma {:induction false} RunKeepsInv(s: State, actions: seq<Action>, t: State, remoteOut: seq<Byte>, remoteErr: seq<Byte>)
    requires Inv(s, remoteOut, remoteErr) && Reaches(s, actions, t)
    ensures Inv(t, remoteOut, remoteErr)
    decreases |actions|
  {
    hide Inv;
    if actions != [] {
      StepKeepsInv(s, actions[0], remoteOut, remoteErr);
      RunKeepsInv(After(s, actions[0]), actions[1..], t, remoteOut, remoteErr);
    }
  }

  lemma InitHasInv(remoteOut: seq<Byte>, remoteErr: seq<Byte>)
    ensures Inv(Init(remoteOut, remoteErr), remoteOut, remoteErr)
  {
    assert [] + [] + remoteOut == remoteOut && [] + [] + remoteErr == remoteErr;
  }

  /** Until everything has been sent and the mutex is free, some goroutine can go on. */
  lemma NeverStuck(s: State, remoteOut: seq<Byte>, remoteErr: seq<Byte>) returns (a: Action)
    requires Inv(s, remoteOut, remoteErr) && !s.main.Ended?
    ensures Enabled(s, a)
  {
    hide EncodeAll, Payloads, Header;
    var p := if s.lock == HeldBy(Err) || (s.lock == Free && s.out.phase == Done) then Err else Out;
    match s.lock
    case HeldBy(_) =>
      a := if s.Of(p).phase.Locked? then SendHeader(p) else if s.Of(p).phase.HeaderSent? then SendPayload(p) else Unlock(p);
    case HeldByMain =>
      a := if s.main.MainLocked? then MainSendHeader else if s.main.MainHeaderSent? then MainSendPayload else MainUnlock;
    case Free =>
      if s.main == Running {
        a := SessionEnds(Exited(0));
      } else if s.Of(p).phase == Done {
        a := MainLock;
      } else if s.Of(p).phase.Waiting? {
        a := Lock(p);
      } else if s.Of(p).unread == [] {
        a := Finish(p);
      } else {
        a := Read(p, 1, false);
      }
  }

  // The client

  datatype Failure = NoFailure | BadStream | RemoteError(message: seq<Byte>)

  /** What reading returns: the exit code and the error, and what has been written to the two sinks. */
  datatype Received = Received(out: seq<Byte>, err: seq<Byte>, code: int, failure: Failure)

  /** What the client makes of the bytes up to the end of the connection, having received `out` and `err` before.
      Frames of other types are skipped. A stream that ends between two frames counts as success. */
  function Receive(s: seq<Byte>, out: seq<Byte>, err: seq<Byte>): Received
    decreases |s|
  {
    var (r, rest) := Decode(s);
    match r
    case Eof => Received(out, err, 0, NoFailure)
    case Got(f) =>
      if f.kind == STDOUT then Receive(rest, out + f.payload, err)
      else if f.kind == STDERR then Receive(rest, out, err + f.payload)
      else if f.kind == EXIT_CODE then
        (match ParseExitCode(f.payload)
         case Code(c) => Received(out, err, c, NoFailure)
         case Invalid => Received(out, err, -1, BadStream))
      else if f.kind == ERROR then Received(out, err, -1, RemoteError(f.payload))
      else Receive(rest, out, err)
    case _ => Received(out, err, -1, BadStream)
  }

  method ReadOutputFrames(reader: Reader) returns (result: Received)
    modifies reader
    ensures result == Receive(old(reader.rest), [], [])
  {
    var out: seq<Byte>, err: seq<Byte> := [], [];
    while true
      invariant Receive(reader.rest, out, err) == Receive(old(reader.rest), [], [])
      decreases |reader.rest|
    {
      var r := reader.ReadFrame();
      match r
      case Eof =>
        return Received(out, err, 0, NoFailure);
      case Got(f) =>
        if f.kind == STDOUT {
          out := out + f.payload;
        } else if f.kind == STDERR {
          err := err + f.payload;
        } else if f.kind == EXIT_CODE {
          var code := ParseExitCode(f.payload);
          if code == Invalid {
            return Received(out, err, -1, BadStream);
          }
          return Received(out, err, code.code, NoFailure);
        } else if f.kind == ERROR {
          return Received(out, err, -1, RemoteError(f.payload));
        }
      case _ =>
        return Received(out, err, -1, BadStream);
    }
  }

  // What the client receives

  lemma {:induction false} PayloadsSplit(a: seq<Frame>, b: seq<Frame>, p: Stream)
    ensures Payloads(a + b, p) == Payloads(a, p) + Payloads(b, p)
    decreases |b|
  {
    if b == [] {
      assert a + b == a;
    } else {
      var n := |b| - 1;
      assert (a + b)[..|a + b| - 1] == a + b[..n];
      PayloadsSplit(a, b[..n], p);
    }
  }

  lemma FirstPayload(fs: seq<Frame>, p: Stream)
    requires fs != []
    ensures Payloads(fs, p) == (if fs[0].kind == FrameOf(p, []).kind then fs[0].payload else []) + Payloads(fs[1..], p)
  {
    assert fs == [fs[0]] + fs[1..];
    PayloadsSplit([fs[0]], fs[1..], p);
    assert [fs[0]][..0] == [];
  }

  lemma {:induction false} ReceiveData(fs: seq<Frame>, rest: seq<Byte>, out: seq<Byte>, err: seq<Byte>)
    requires DataFrames(fs)
    ensures Receive(EncodeAll(fs) + rest, out, err) == Receive(rest, out + Payloads(fs, Out), err + Payloads(fs, Err))
    decreases |fs|
  {
    hide Payloads, Decode, Encode;
    if fs == [] {
      assert [] + rest == rest;
      assert Payloads([], Out) == [] && Payloads([], Err) == [] by { NoPayloads(); }
      assert out + [] == out && err + [] == err;
    } else {
      var f, more := fs[0], fs[1..];
      FirstPayload(fs, Out);
      FirstPayload(fs, Err);
      assert EncodeAll(fs) + rest == Encode(f) + (EncodeAll(more) + rest);
      DecodeEncode(f, EncodeAll(more) + rest);
      if f.kind == STDOUT {
        ReceiveData(more, rest, out + f.payload, err);
        assert out + f.payload + Payloads(more, Out) == out + (f.payload + Payloads(more, Out));
        assert [] + Payloads(more, Err) == Payloads(more, Err);
      } else {
        ReceiveData(more, rest, out, err + f.payload);
        assert err + f.payload + Payloads(more, Err) == err + (f.payload + Payloads(more, Err));
        assert [] + Payloads(more, Out) == Payloads(more, Out);
      }
    }
  }

  lemma NoPayloads()
    ensures Payloads([], Out) == [] && Payloads([], Err) == []
  {
  }

  /** What a complete stream should be read as; for an error text too long for a frame there is no closing frame. */
  function ResultOf(exit: Exit, out: seq<Byte>, err: seq<Byte>): Received {
    match exit
    case Exited(code) => Received(out, err, Int32(code), NoFailure)
    case Broken(message) =>
      if |message| <= MAX_FRAME_PAYLOAD then Received(out, err, -1, RemoteError(message))
      else Received(out, err, 0, NoFailure)
  }

  lemma ReceiveClosing(exit: Exit, out: seq<Byte>, err: seq<Byte>)
    ensures Receive(EncodeAll(Closing(exit)), out, err) == ResultOf(exit, out, err)
  {
    hide Decode, Encode;
    var fs := Closing(exit);
    if fs == [] {
      assert Decode([]) == (Eof, []) by { NothingIsEof(); }
    } else {
      assert fs == [fs[0]] && fs[1..] == [];
      assert EncodeAll(fs) == Encode(fs[0]) + [];
      DecodeEncode(fs[0], []);
      if exit.Exited? {
        ExitCodeRoundTrip(exit.code);
      }
    }
  }

  lemma NothingIsEof()
    ensures Decode([]) == (Eof, [])
  {
  }

  /** When the server is done, in whatever way the pumps' reads and writes were cut and interleaved, the client has
      exactly the remote output and error bytes, in order, and the result of the command. */
  lemma ClientReceivesEverything(remoteOut: seq<Byte>, remoteErr: seq<Byte>, actions: seq<Action>, s: State)
    requires Reaches(Init(remoteOut, remoteErr), actions, s) && s.main.Ended?
    ensures Receive(s.conn, [], []) == ResultOf(s.main.exit, remoteOut, remoteErr)
  {
    hide Receive, EncodeAll, Payloads, Header;
    InitHasInv(remoteOut, remoteErr);
    RunKeepsInv(Init(remoteOut, remoteErr), actions, s, remoteOut, remoteErr);
    EncodeAllSplit(s.data, s.tail);
    assert s.conn == EncodeAll(s.data) + EncodeAll(s.tail);
    ReceiveData(s.data, EncodeAll(s.tail), [], []);
    assert Payloads(s.data, Out) + [] + [] == Payloads(s.data, Out) && Payloads(s.data, Err) + [] + [] == Payloads(s.data, Err);
    assert [] + remoteOut == remoteOut && [] + remoteErr == remoteErr;
    ReceiveClosing(s.main.exit, remoteOut, remoteErr);
  }

  // Streams that end early

  /** The bytes are those of the first frames, with nothing of the next one. */
  ghost predicate IsBoundary(fs: seq<Frame>, t: seq<Byte>)
    requires DataFrames(fs)
  {
    exists n | 0 <= n <= |fs| :: t == EncodeAll(fs[..n])
  }

  lemma BoundaryStep(fs: seq<Frame>, t: seq<Byte>)
    requires DataFrames(fs) && fs != [] && t != []
    ensures var e := Encode(fs[0]); IsBoundary(fs, t) <==> e <= t && IsBoundary(fs[1..], t[|e|..])
  {
    hide Encode;
    var e, more := Encode(fs[0]), fs[1..];
    forall n | 0 < n <= |fs| ensures EncodeAll(fs[..n]) == e + EncodeAll(more[..n - 1]) {
      assert fs[..n][0] == fs[0] && fs[..n][1..] == more[..n - 1];
    }
    assert EncodeAll(fs[..0]) == [];
    if IsBoundary(fs, t) {
      var n :| 0 <= n <= |fs| && t == EncodeAll(fs[..n]);
      assert t[|e|..] == EncodeAll(more[..n - 1]);
    }
    if e <= t && IsBoundary(more, t[|e|..]) {
      var n :| 0 <= n <= |more| && t[|e|..] == EncodeAll(more[..n]);
      assert t == EncodeAll(fs[..n + 1]);
    }
  }

  lemma NothingIsBoundary(fs: seq<Frame>)
    requires DataFrames(fs)
    ensures IsBoundary(fs, [])
  {
    assert EncodeAll(fs[..0]) == [];
  }

  /** Cutting written data frames: at a boundary the client reports success with code 0, anywhere else a bad stream. */
  lemma {:induction false} ReceiveCut(fs: seq<Frame>, t: seq<Byte>, out: seq<Byte>, err: seq<Byte>)
    requires DataFrames(fs) && t <= EncodeAll(fs)
    ensures var r := Receive(t, out, err);
            && r.out <= out + Payloads(fs, Out) && r.err <= err + Payloads(fs, Err)
            && (if IsBoundary(fs, t) then r.code == 0 && r.failure == NoFailure else r.code == -1 && r.failure == BadStream)
    decreases |fs|
  {
    hide Payloads, Decode, Encode, IsBoundary;
    NothingIsEof();
    NothingIsBoundary(fs);
    if t != [] {
      var f, more := fs[0], fs[1..];
      BoundaryStep(fs, t);
      FirstPayload(fs, Out);
      FirstPayload(fs, Err);
      var e := Encode(f);
      if |t| < |e| {
        assert t < e;
        CutFrameIsNotRead(f, t);
      } else {
        assert t == e + t[|e|..] && t[|e|..] <= EncodeAll(more);
        DecodeEncode(f, t[|e|..]);
        if f.kind == STDOUT {
          ReceiveCut(more, t[|e|..], out + f.payload, err);
          assert out + f.payload + Payloads(more, Out) == out + (f.payload + Payloads(more, Out));
          assert [] + Payloads(more, Err) == Payloads(more, Err);
        } else {
          ReceiveCut(more, t[|e|..], out, err + f.payload);
          assert err + f.payload + Payloads(more, Err) == err + (f.payload + Payloads(more, Err));
          assert [] + Payloads(more, Out) == Payloads(more, Out);
        }
      }
    }
  }

  /** The frame a pump has begun to write. */
  function Begun(s: State): (fs: seq<Frame>)
    ensures DataFrames(fs)
  {
    if s.out.phase.HeaderSent? && Sendable(FrameOf(Out, s.out.phase.chunk)) then [FrameOf(Out, s.out.phase.chunk)]
    else if s.err.phase.HeaderSent? && Sendable(FrameOf(Err, s.err.phase.chunk)) then [FrameOf(Err, s.err.phase.chunk)]
    else []
  }

  lemma BegunIsRemote(s: State, remoteOut: seq<Byte>, remoteErr: seq<Byte>)
    requires Inv(s, remoteOut, remoteErr)
    ensures Payloads(s.data + Begun(s), Out) <= remoteOut && Payloads(s.data + Begun(s), Err) <= remoteErr
  {
    hide EncodeAll, Payloads, Header;
    assert s.data + [] == s.data;
    if Begun(s) != [] {
      PayloadsAppend(s.data, Begun(s)[0], Out);
      PayloadsAppend(s.data, Begun(s)[0], Err);
    }
  }

  predicate MainWrites(s: State) {
    s.main.MainHeaderSent? || s.main.MainSent? || s.main.Ended?
  }

  /** Less than the begun frame has been written: its payload, which is not empty, is missing. */
  lemma WrittenIsWithin(s: State, remoteOut: seq<Byte>, remoteErr: seq<Byte>)
    requires Inv(s, remoteOut, remoteErr) && !MainWrites(s)
    ensures s.conn <= EncodeAll(s.data + Begun(s))
    ensures Begun(s) != [] ==> |s.conn| < |EncodeAll(s.data + Begun(s))|
  {
    hide EncodeAll, Payloads, Header;
    assert s.data + [] == s.data;
    EncodeAllSplit(s.data, Begun(s));
    if Begun(s) != [] {
      EncodeOne(Begun(s)[0]);
    }
  }

  lemma MainWritten(s: State, remoteOut: seq<Byte>, remoteErr: seq<Byte>)
    requires Inv(s, remoteOut, remoteErr) && MainWrites(s)
    ensures s.conn <= EncodeAll(s.data) + EncodeAll(Closing(s.main.exit))
    ensures Payloads(s.data, Out) == remoteOut && Payloads(s.data, Err) == remoteErr
  {
    hide EncodeAll, Payloads, Header;
    assert s.data + [] == s.data;
    EncodeAllSplit(s.data, s.tail);
    assert Payloads(s.data, Out) + [] + [] == Payloads(s.data, Out) && Payloads(s.data, Err) + [] + [] == Payloads(s.data, Err);
    var fs := Closing(s.main.exit);
    if fs != [] {
      EncodeOne(fs[0]);
      assert fs == [fs[0]];
    }
  }

  /** The bytes end with the whole closing frame. */
  predicate ClosingArrived(s: State, t: seq<Byte>)
    requires DataFrames(s.data)
  {
    MainWrites(s) && Closing(s.main.exit) != [] && t == EncodeAll(s.data) + EncodeAll(Closing(s.main.exit))
  }

  /** A frame that has only been begun is not part of any boundary. */
  lemma BoundaryOfBegun(fs: seq<Frame>, begun: seq<Frame>, t: seq<Byte>)
    requires DataFrames(fs) && DataFrames(begun) && DataFrames(fs + begun) && |begun| <= 1
    requires begun != [] ==> |t| < |EncodeAll(fs + begun)|
    ensures IsBoundary(fs + begun, t) <==> IsBoundary(fs, t)
  {
    hide EncodeAll;
    forall n | 0 <= n <= |fs| ensures (fs + begun)[..n] == fs[..n] {}
    assert (fs + begun)[..|fs + begun|] == fs + begun;
    if IsBoundary(fs + begun, t) {
      var n :| 0 <= n <= |fs + begun| && t == EncodeAll((fs + begun)[..n]);
      assert n <= |fs| && t == EncodeAll(fs[..n]);
    }
    if IsBoundary(fs, t) {
      var n :| 0 <= n <= |fs| && t == EncodeAll(fs[..n]);
      assert t == EncodeAll((fs + begun)[..n]);
    }
  }

  lemma BoundaryIsWithin(fs: seq<Frame>, t: seq<Byte>)
    requires DataFrames(fs)
    ensures IsBoundary(fs, t) ==> |t| <= |EncodeAll(fs)|
    ensures IsBoundary(fs, EncodeAll(fs))
  {
    hide EncodeAll;
    assert fs[..|fs|] == fs;
    if IsBoundary(fs, t) {
      var n :| 0 <= n <= |fs| && t == EncodeAll(fs[..n]);
      assert fs == fs[..n] + fs[n..];
      EncodeAllSplit(fs[..n], fs[n..]);
    }
  }

  lemma ReceiveCutWithClosing(fs: seq<Frame>, exit: Exit, t: seq<Byte>)
    requires DataFrames(fs) && t <= EncodeAll(fs) + EncodeAll(Closing(exit))
    ensures var r := Receive(t, [], []);
            && r.out <= Payloads(fs, Out) && r.err <= Payloads(fs, Err)
            && if Closing(exit) != [] && t == EncodeAll(fs) + EncodeAll(Closing(exit)) then
                 r == ResultOf(exit, Payloads(fs, Out), Payloads(fs, Err)) && !IsBoundary(fs, t)
               else if IsBoundary(fs, t) then r.code == 0 && r.failure == NoFailure
               else r.code == -1 && r.failure == BadStream
  {
    hide Receive, EncodeAll, Payloads, IsBoundary;
    var e, closing := EncodeAll(fs), EncodeAll(Closing(exit));
    assert [] + Payloads(fs, Out) == Payloads(fs, Out) && [] + Payloads(fs, Err) == Payloads(fs, Err);
    BoundaryIsWithin(fs, t);
    ClosingLength(exit);
    if |t| <= |e| {
      assert t <= e;
      ReceiveCut(fs, t, [], []);
    } else {
      assert t == e + t[|e|..] && t[|e|..] <= closing;
      ReceiveData(fs, t[|e|..], [], []);
      CutClosing(exit, t[|e|..], Payloads(fs, Out), Payloads(fs, Err));
    }
  }

  lemma ClosingLength(exit: Exit)
    ensures |EncodeAll(Closing(exit))| > 0 <==> Closing(exit) != []
  {
  }

  lemma CutClosing(exit: Exit, t: seq<Byte>, out: seq<Byte>, err: seq<Byte>)
    requires t <= EncodeAll(Closing(exit)) && t != []
    ensures Receive(t, out, err) == if t == EncodeAll(Closing(exit)) then ResultOf(exit, out, err) else Received(out, err, -1, BadStream)
  {
    hide Decode, Encode;
    if t == EncodeAll(Closing(exit)) {
      ReceiveClosing(exit, out, err);
    } else {
      var f := Closing(exit)[0];
      assert Closing(exit) == [f] && Closing(exit)[1..] == [];
      assert EncodeAll(Closing(exit)) == Encode(f) + [];
      CutFrameIsNotRead(f, t);
    }
  }

  lemma ReachedIsDataFrames(remoteOut: seq<Byte>, remoteErr: seq<Byte>, actions: seq<Action>, s: State)
    requires Reaches(Init(remoteOut, remoteErr), actions, s)
    ensures DataFrames(s.data) && Inv(s, remoteOut, remoteErr)
  {
    InitHasInv(remoteOut, remoteErr);
    RunKeepsInv(Init(remoteOut, remoteErr), actions, s, remoteOut, remoteErr);
  }

  /** At any moment of any run, whatever part `t` of the written bytes has arrived before the connection ends. With the
      closing frame the client returns the result of the command and has both streams. Without it, it returns code 0 and
      no error if and only if the bytes end exactly between two frames, and a bad stream otherwise; it then holds a
      prefix of each stream. */
  lemma ClientResultExactly(remoteOut: seq<Byte>, remoteErr: seq<Byte>, actions: seq<Action>, s: State, t: seq<Byte>)
    requires Reaches(Init(remoteOut, remoteErr), actions, s) && t <= s.conn
    ensures DataFrames(s.data)
    ensures var r := Receive(t, [], []);
            && r.out <= remoteOut && r.err <= remoteErr
            && (ClosingArrived(s, t) ==> r == ResultOf(s.main.exit, remoteOut, remoteErr))
            && (IsBoundary(s.data, t) <==> !ClosingArrived(s, t) && r.code == 0 && r.failure == NoFailure)
            && (!IsBoundary(s.data, t) && !ClosingArrived(s, t) ==> r.code == -1 && r.failure == BadStream)
  {
    hide Receive, EncodeAll, Payloads, Header, IsBoundary, Inv;
    ReachedIsDataFrames(remoteOut, remoteErr, actions, s);
    if MainWrites(s) {
      MainWritten(s, remoteOut, remoteErr);
      ReceiveCutWithClosing(s.data, s.main.exit, t);
    } else {
      var fs := s.data + Begun(s);
      WrittenIsWithin(s, remoteOut, remoteErr);
      BegunIsRemote(s, remoteOut, remoteErr);
      ReceiveCut(fs, t, [], []);
      BoundaryOfBegun(s.data, Begun(s), t);
      assert [] + Payloads(fs, Out) == Payloads(fs, Out) && [] + Payloads(fs, Err) == Payloads(fs, Err);
    }
  }

  /** What a caller can rely on: a code other than 0, or a remote error, comes only with both streams complete. */
  lemma ClientIsNeverAhead(remoteOut: seq<Byte>, remoteErr: seq<Byte>, actions: seq<Action>, s: State, t: seq<Byte>)
    requires Reaches(Init(remoteOut, remoteErr), actions, s) && t <= s.conn
    ensures var r := Receive(t, [], []);
            && r.out <= remoteOut && r.err <= remoteErr
            && (r.failure.RemoteError? || (r.failure == NoFailure && r.code != 0) ==> r.out == remoteOut && r.err == remoteErr)
  {
    hide Receive, EncodeAll, Inv, IsBoundary;
    ClientResultExactly(remoteOut, remoteErr, actions, s, t);
  }

  /** Code 0 without an error does not mean that. Whatever the command prints and however it ends, there is a run in
      which it has ended and the connection is lost before anything arrives; the client then reports a success without
      output. */
  lemma LostConnectionLooksLikeSuccess(remoteOut: seq<Byte>, remoteErr: seq<Byte>, exit: Exit)
    returns (actions: seq<Action>, s: State)
    ensures Reaches(Init(remoteOut, remoteErr), actions, s) && s.main == Finished(exit)
    ensures Receive([], [], []) == Received([], [], 0, NoFailure)
  {
    actions := [SessionEnds(exit)];
    s := After(Init(remoteOut, remoteErr), actions[0]);
    assert Reaches(s, [], s);
  }

  /** Of the sessions that ended in an error, the client learns of exactly those whose error text fits a frame; it takes
      the others for a success. */
  lemma ErrorIsReportedExactly(remoteOut: seq<Byte>, remoteErr: seq<Byte>, actions: seq<Action>, s: State)
    requires Reaches(Init(remoteOut, remoteErr), actions, s) && s.main.Ended? && s.main.exit.Broken?
    ensures var r, message := Receive(s.conn, [], []), s.main.exit.message;
            && (r.failure == RemoteError(message) <==> |message| <= MAX_FRAME_PAYLOAD)
            && (r.failure == NoFailure && r.code == 0 <==> |message| > MAX_FRAME_PAYLOAD)
  {
    ClientReceivesEverything(remoteOut, remoteErr, actions, s);
  }
}
