/** The binary frames of the SSH proxy: four bytes of length, one of type, and the payload. */
module Frames {

  type Byte = b: int | 0 <= b < 256

  datatype Frame = Frame(kind: Byte, payload: seq<Byte>)

  const STDOUT: Byte := 0x01
  const STDERR: Byte := 0x02
  const STDIN: Byte := 0x03
  const EXIT_CODE: Byte := 0x04
  const RESIZE: Byte := 0x05
  const ERROR: Byte := 0x06
  const FILE_DATA: Byte := 0x07
  const FILE_EOF: Byte := 0x08
  const FILE_ERR: Byte := 0x09
  const OK: Byte := 0x0A

  const MAX_FRAME_PAYLOAD := 64 * 1024
  const BUFFER_SIZE := 32 * 1024
  const TWO_TO_32 := 0x1_0000_0000

  // Big-endian numbers

  function PutUint32(n: int): (b: seq<Byte>)
    requires 0 <= n < TWO_TO_32
    ensures |b| == 4
  {
    [n / 0x100_0000, n / 0x1_0000 % 256, n / 0x100 % 256, n % 256]
  }

  function Uint32(b: seq<Byte>): (n: int)
    requires |b| == 4
    ensures 0 <= n < TWO_TO_32
  {
    0x100_0000 * (b[0] as int) + 0x1_0000 * (b[1] as int) + 0x100 * (b[2] as int) + b[3] as int
  }

  function PutUint16(n: int): (b: seq<Byte>)
    requires 0 <= n < 0x1_0000
    ensures |b| == 2
  {
    [n / 256, n % 256]
  }

  function Uint16(b: seq<Byte>): (n: int)
    requires |b| == 2
    ensures 0 <= n < 0x1_0000
  {
    256 * (b[0] as int) + b[1] as int
  }

  lemma Uint32RoundTrip(n: int)
    requires 0 <= n < TWO_TO_32
    ensures Uint32(PutUint32(n)) == n
  {
    assert n == 0x100 * (n / 0x100) + n % 0x100;
    assert n / 0x100 == 0x100 * (n / 0x1_0000) + n / 0x100 % 0x100;
    assert n / 0x1_0000 == 0x100 * (n / 0x100_0000) + n / 0x1_0000 % 0x100;
  }

  lemma PutUint32RoundTrip(b: seq<Byte>)
    requires |b| == 4
    ensures PutUint32(Uint32(b)) == b
  {
    var n := Uint32(b);
    assert n / 0x100 == 0x1_0000 * (b[0] as int) + 0x100 * (b[1] as int) + b[2] as int;
    assert n / 0x1_0000 == 0x100 * (b[0] as int) + b[1] as int;
    assert n / 0x100_0000 == b[0] as int;
  }

  // Encoding and decoding

  predicate Sendable(f: Frame) {
    |f.payload| <= MAX_FRAME_PAYLOAD
  }

  function Header(f: Frame): (h: seq<Byte>)
    requires Sendable(f)
    ensures |h| == 5
  {
    PutUint32(1 + |f.payload|) + [f.kind]
  }

  function Encode(f: Frame): seq<Byte>
    requires Sendable(f)
  {
    Header(f) + f.payload
  }

  datatype ReadResult = Got(frame: Frame) | Eof | Truncated | BadLength | TooLarge

  /** What ReadFrame makes of a stream that ends after `s`, and what it leaves unread. */
  function Decode(s: seq<Byte>): (r: (ReadResult, seq<Byte>))
    ensures r.0.Got? ==> |r.1| < |s|
  {
    if s == [] then (Eof, [])
    else if |s| < 5 then (Truncated, [])
    else
      var length := Uint32(s[..4]);
      if length < 1 then (BadLength, s[5..])
      else if length - 1 > MAX_FRAME_PAYLOAD then (TooLarge, s[5..])
      else if |s| - 5 < length - 1 then (Truncated, [])
      else (Got(Frame(s[4], s[5..5 + (length - 1)])), s[5 + (length - 1)..])
  }

  /** The written side of a connection. */
  class Writer {
    var sent: seq<Byte>

    constructor ()
      ensures sent == []
    {
      sent := [];
    }

    method Write(bytes: seq<Byte>)
      modifies this
      ensures sent == old(sent) + bytes
    {
      sent := sent + bytes;
    }

    /** Refuses payloads that are too large and writes nothing then. */
    method WriteFrame(kind: Byte, payload: seq<Byte>) returns (ok: bool)
      modifies this
      ensures ok == Sendable(Frame(kind, payload))
      ensures sent == old(sent) + if ok then Encode(Frame(kind, payload)) else []
    {
      if |payload| > MAX_FRAME_PAYLOAD {
        return false;
      }
      var length := 1 + |payload|;
      var header := new Byte[5];
      header[0], header[1] := length / 0x100_0000, length / 0x1_0000 % 256;
      header[2], header[3] := length / 0x100 % 256, length % 256;
      header[4] := kind;
      assert header[..] == Header(Frame(kind, payload));
      Write(header[..]);
      if |payload| > 0 {
        Write(payload);
      }
      ok := true;
    }
  }

  /** The read side of a connection: the bytes that still arrive before it is closed. */
  class Reader {
    var rest: seq<Byte>

    constructor (bytes: seq<Byte>)
      ensures rest == bytes
    {
      rest := bytes;
    }

    /** io.ReadFull into a buffer of `n` bytes; a stream that ends early is used up. */
    method ReadFull(n: nat) returns (buf: array<Byte>, ok: bool)
      modifies this
      ensures fresh(buf) && buf.Length == n
      ensures ok == (|old(rest)| >= n)
      ensures ok ==> buf[..] == old(rest)[..n] && rest == old(rest)[n..]
      ensures !ok ==> rest == []
    {
      buf := new Byte[n];
      ok := |rest| >= n;
      if !ok {
        rest := [];
        return;
      }
      for i := 0 to n
        invariant rest == old(rest) && buf[..i] == rest[..i]
      {
        buf[i] := rest[i];
      }
      rest := rest[n..];
    }

    method ReadFrame() returns (r: ReadResult)
      modifies this
      ensures (r, rest) == Decode(old(rest))
    {
      if rest == [] {
        return Eof;
      }
      ghost var start := rest;
      var header, gotHeader := ReadFull(5);
      if !gotHeader {
        return Truncated;
      }
      assert header[..] == start[..5];
      assert header[..4] == start[..5][..4] == start[..4] && header[4] == start[..5][4] == start[4];
      var length := Uint32(header[..4]);
      if length < 1 {
        return BadLength;
      }
      var payloadLen := length - 1;
      if payloadLen > MAX_FRAME_PAYLOAD {
        return TooLarge;
      }
      var payload: seq<Byte> := [];
      if payloadLen > 0 {
        var buf, gotPayload := ReadFull(payloadLen);
        if !gotPayload {
          return Truncated;
        }
        payload := buf[..];
        assert start[5..][..payloadLen] == start[5..5 + payloadLen] && start[5..][payloadLen..] == start[5 + payloadLen..];
      } else {
        assert start[5..5 + payloadLen] == [] && start[5 + payloadLen..] == start[5..];
      }
      assert payload == start[5..5 + payloadLen] && rest == start[5 + payloadLen..];
      r := Got(Frame(header[4], payload));
    }
  }

  // A canonical prefix code

  lemma DecodeEncode(f: Frame, rest: seq<Byte>)
    requires Sendable(f)
    ensures Decode(Encode(f) + rest) == (Got(f), rest)
  {
    var s := Encode(f) + rest;
    Uint32RoundTrip(1 + |f.payload|);
    assert s[..4] == PutUint32(1 + |f.payload|) && s[4] == f.kind;
    assert s[5..5 + |f.payload|] == f.payload && s[5 + |f.payload|..] == rest;
  }

  /** Whatever was read as a frame is exactly what writing that frame produces. */
  lemma DecodeIsCanonical(s: seq<Byte>)
    requires Decode(s).0.Got?
    ensures Sendable(Decode(s).0.frame) && s == Encode(Decode(s).0.frame) + Decode(s).1
  {
    var f := Decode(s).0.frame;
    PutUint32RoundTrip(s[..4]);
    assert s == s[..4] + [s[4]] + s[5..5 + |f.payload|] + s[5 + |f.payload|..];
  }

  /** A cut-off frame is never read as a frame. */
  lemma CutFrameIsNotRead(f: Frame, s: seq<Byte>)
    requires Sendable(f) && s < Encode(f)
    ensures Decode(s) == (if s == [] then Eof else Truncated, [])
  {
    if |s| >= 5 {
      Uint32RoundTrip(1 + |f.payload|);
      assert s[..4] == Encode(f)[..4] == PutUint32(1 + |f.payload|);
    }
  }

  function EncodeAll(fs: seq<Frame>): seq<Byte>
    requires forall f | f in fs :: Sendable(f)
  {
    if fs == [] then [] else Encode(fs[0]) + EncodeAll(fs[1..])
  }

  /** All frames of a stream, and how it ends. */
  function DecodeAll(s: seq<Byte>): (seq<Frame>, ReadResult)
    decreases |s|
  {
    var (r, rest) := Decode(s);
    if r.Got? then var (fs, end) := DecodeAll(rest); ([r.frame] + fs, end) else ([], r)
  }

  lemma {:induction false} EncodeAllSplit(a: seq<Frame>, b: seq<Frame>)
    requires forall f | f in a + b :: Sendable(f)
    ensures forall f | f in a || f in b :: f in a + b
    ensures EncodeAll(a + b) == EncodeAll(a) + EncodeAll(b)
  {
    if a == [] {
      assert a + b == b;
    } else {
      assert (a + b)[0] == a[0] && (a + b)[1..] == a[1..] + b;
      EncodeAllSplit(a[1..], b);
    }
  }

  /** Reading a concatenation of written frames gives back exactly those frames. */
  lemma {:induction false} DecodeAllEncodeAll(fs: seq<Frame>)
    requires forall f | f in fs :: Sendable(f)
    ensures DecodeAll(EncodeAll(fs)) == (fs, Eof)
  {
    if fs != [] {
      DecodeEncode(fs[0], EncodeAll(fs[1..]));
      DecodeAllEncodeAll(fs[1..]);
      assert fs == [fs[0]] + fs[1..];
    }
  }

  /** A stream that is read to a clean end is the concatenation of the frames it was read as. */
  lemma {:induction false} EncodeAllDecodeAll(s: seq<Byte>)
    requires DecodeAll(s).1 == Eof
    ensures (forall f | f in DecodeAll(s).0 :: Sendable(f)) && EncodeAll(DecodeAll(s).0) == s
    decreases |s|
  {
    var (r, rest) := Decode(s);
    if r.Got? {
      DecodeIsCanonical(s);
      EncodeAllDecodeAll(rest);
      var fs := DecodeAll(rest).0;
      assert ([r.frame] + fs)[1..] == fs;
    }
  }

  // Exit codes and window sizes

  /** Go's conversion of an int to uint32 and back through int32. */
  function Int32(code: int): (r: int)
    ensures -0x8000_0000 <= r < 0x8000_0000
    ensures (r - code) % TWO_TO_32 == 0
  {
    var u := code % TWO_TO_32;
    if u < 0x8000_0000 then u else u - TWO_TO_32
  }

  function ExitPayload(code: int): (b: seq<Byte>)
    ensures |b| == 4
  {
    PutUint32(code % TWO_TO_32)
  }

  datatype ExitResult = Code(code: int) | Invalid

  function ParseExitCode(payload: seq<Byte>): ExitResult {
    if |payload| != 4 then Invalid else Code(Int32(Uint32(payload)))
  }

  /** An exit code arrives modulo 2^32, unchanged if it is an int32. */
  lemma ExitCodeRoundTrip(code: int)
    ensures ParseExitCode(ExitPayload(code)) == Code(Int32(code))
    ensures -0x8000_0000 <= code < 0x8000_0000 ==> ParseExitCode(ExitPayload(code)) == Code(code)
  {
    Uint32RoundTrip(code % TWO_TO_32);
  }

  function ResizePayload(cols: int, rows: int): seq<Byte>
    requires 0 <= cols < 0x1_0000 && 0 <= rows < 0x1_0000
  {
    PutUint16(cols) + PutUint16(rows)
  }

  datatype ResizeResult = Size(cols: int, rows: int) | InvalidSize

  function ParseResize(payload: seq<Byte>): ResizeResult {
    if |payload| != 4 then InvalidSize else Size(Uint16(payload[..2]), Uint16(payload[2..]))
  }

  /** Sizes and four-byte payloads correspond one to one. */
  lemma ResizeRoundTrip(cols: int, rows: int, payload: seq<Byte>)
    requires 0 <= cols < 0x1_0000 && 0 <= rows < 0x1_0000
    ensures ParseResize(ResizePayload(cols, rows)) == Size(cols, rows)
    ensures |payload| == 4 ==> ResizePayload(ParseResize(payload).cols, ParseResize(payload).rows) == payload
  {
    var p := ResizePayload(cols, rows);
    assert p[..2] == PutUint16(cols) && p[2..] == PutUint16(rows);
  }
}
