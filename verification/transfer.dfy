/** Uploads and downloads through the proxy: chunk loops on one side, frame loops on the other. */
module Transfer {
  import opened Frames

  datatype ReadError = More | AtEof | Failed

  /** One result of reading a file into the 32 KiB buffer; bytes may come together with the end. */
  datatype ReadStep = ReadStep(chunk: seq<Byte>, error: ReadError)

  predicate FitsBuffer(steps: seq<ReadStep>) {
    forall r | r in steps :: |r.chunk| <= BUFFER_SIZE
  }

  /** The reads after the first, unless the first one ends the loop. */
  function Later(steps: seq<ReadStep>): (later: seq<ReadStep>)
    requires steps != []
    ensures |later| < |steps| && forall r | r in later :: r in steps
  {
    if steps[0].error == More then steps[1..] else []
  }

  /** The bytes of the file up to its end or the first failure; after the last step the file is at its end. */
  function Content(steps: seq<ReadStep>): seq<Byte>
    decreases |steps|
  {
    if steps == [] then [] else steps[0].chunk + Content(Later(steps))
  }

  predicate EndsWell(steps: seq<ReadStep>) {
    steps == [] || (match steps[0].error case More => EndsWell(steps[1..]) case AtEof => true case Failed => false)
  }

  // Frames that are sent

  function DataFrame(chunk: seq<Byte>): seq<Frame> {
    if chunk == [] then [] else [Frame(FILE_DATA, chunk)]
  }

  /** One frame for every read that returned bytes. */
  function DataFrames(steps: seq<ReadStep>): (fs: seq<Frame>)
    requires FitsBuffer(steps)
    ensures forall f | f in fs :: Sendable(f) && f.kind == FILE_DATA
    decreases |steps|
  {
    if steps == [] then [] else DataFrame(steps[0].chunk) + DataFrames(Later(steps))
  }

  /** How a transfer is closed: at the end of the file, or (on downloads) with the error text, if that fits. */
  function ClosingFrames(ok: bool, text: seq<Byte>): (fs: seq<Frame>)
    ensures forall f | f in fs :: Sendable(f)
  {
    if ok then [Frame(FILE_EOF, [])] else if |text| <= MAX_FRAME_PAYLOAD then [Frame(FILE_ERR, text)] else []
  }

  function UploadBytes(steps: seq<ReadStep>): seq<Byte>
    requires FitsBuffer(steps)
  {
    EncodeAll(DataFrames(steps)) + (if EndsWell(steps) then EncodeAll([Frame(FILE_EOF, [])]) else [])
  }

  function DownloadBytes(steps: seq<ReadStep>, text: seq<Byte>): seq<Byte>
    requires FitsBuffer(steps)
  {
    EncodeAll(DataFrames(steps)) + EncodeAll(ClosingFrames(EndsWell(steps), text))
  }

  function ChunkBytes(chunk: seq<Byte>): seq<Byte>
    requires |chunk| <= BUFFER_SIZE
  {
    if chunk == [] then [] else Encode(Frame(FILE_DATA, chunk))
  }

  lemma EncodeStep(steps: seq<ReadStep>)
    requires FitsBuffer(steps) && steps != []
    ensures EncodeAll(DataFrames(steps))
         == ChunkBytes(steps[0].chunk) + EncodeAll(DataFrames(Later(steps)))
  {
    var first, rest := DataFrame(steps[0].chunk), DataFrames(Later(steps));
    EncodeAllSplit(first, rest);
    if first != [] {
      assert first[1..] == [];
      assert EncodeAll(first) == Encode(first[0]) + [];
    }
  }

  method SendChunk(chunk: seq<Byte>, conn: Writer)
    requires |chunk| <= BUFFER_SIZE
    modifies conn
    ensures conn.sent == old(conn.sent) + ChunkBytes(chunk)
  {
    hide Encode;
    if |chunk| > 0 {
      var sent := conn.WriteFrame(FILE_DATA, chunk);
    }
  }

  /** The chunk loop: sends what is read until the end or an error. */
  method SendChunks(steps: seq<ReadStep>, conn: Writer) returns (ok: bool)
    requires FitsBuffer(steps)
    modifies conn
    ensures ok == EndsWell(steps)
    ensures conn.sent == old(conn.sent) + EncodeAll(DataFrames(steps))
  {
    hide ChunkBytes, EncodeAll, DataFrames;
    NoFrames();
    var i := 0;
    while i < |steps|
      invariant i <= |steps|
      invariant EndsWell(steps) == EndsWell(steps[i..])
      invariant conn.sent + EncodeAll(DataFrames(steps[i..])) == old(conn.sent) + EncodeAll(DataFrames(steps))
    {
      var rest := steps[i..];
      EncodeStep(rest);
      Associate(conn.sent, ChunkBytes(rest[0].chunk), EncodeAll(DataFrames(Later(rest))));
      assert rest[0] == steps[i] && rest[1..] == steps[i + 1..];
      SendChunk(steps[i].chunk, conn);
      if steps[i].error == AtEof {
        return true;
      }
      if steps[i].error == Failed {
        return false;
      }
      i := i + 1;
    }
    assert steps[i..] == [];
    ok := true;
  }

  lemma NoFrames()
    ensures EncodeAll([]) == [] && DataFrames([]) == []
  {
  }

  /** Upload on the client, up to the end marker; false when the local file cannot be read. */
  method SendFile(steps: seq<ReadStep>, conn: Writer) returns (ok: bool)
    requires FitsBuffer(steps)
    modifies conn
    ensures ok == EndsWell(steps)
    ensures conn.sent == old(conn.sent) + UploadBytes(steps)
  {
    hide Encode, EncodeAll, DataFrames, EndsWell;
    ok := SendChunks(steps, conn);
    if ok {
      var sent := conn.WriteFrame(FILE_EOF, []);
      EncodeOne(Frame(FILE_EOF, []));
    }
  }

  /** handleDownload on the server, after the handshake. */
  method HandleDownload(steps: seq<ReadStep>, text: seq<Byte>, conn: Writer)
    requires FitsBuffer(steps)
    modifies conn
    ensures conn.sent == old(conn.sent) + DownloadBytes(steps, text)
  {
    hide Encode, EncodeAll, DataFrames, EndsWell;
    var ok := SendChunks(steps, conn);
    NoFrames();
    Associate(old(conn.sent), EncodeAll(DataFrames(steps)), EncodeAll(ClosingFrames(ok, text)));
    var f := if ok then Frame(FILE_EOF, []) else Frame(FILE_ERR, text);
    var sent := conn.WriteFrame(f.kind, f.payload);
    if sent {
      EncodeOne(f);
    }
  }

  lemma EncodeOne(f: Frame)
    requires Sendable(f)
    ensures EncodeAll([f]) == Encode(f)
  {
    assert [f][1..] == [];
    assert EncodeAll([f]) == Encode(f) + [];
  }

  // Frames that are received

  /** The server's loop over an upload: the file it leaves behind and whether it answers OK. The file takes at most
      `quota` bytes; a write beyond that fails. */
  function StoreUpload(s: seq<Byte>, file: seq<Byte>, quota: nat): (seq<Byte>, bool)
    decreases |s|
  {
    var (r, rest) := Decode(s);
    match r
    case Got(f) =>
      if f.kind == FILE_DATA then
        if |file| + |f.payload| <= quota then StoreUpload(rest, file + f.payload, quota) else (file, false)
      else (file, f.kind == FILE_EOF)
    case _ => (file, false)
  }

  class RemoteFile {
    var content: seq<Byte>
    const quota: nat

    constructor (quota: nat)
      ensures content == [] && this.quota == quota
    {
      content := [];
      this.quota := quota;
    }

    method Write(bytes: seq<Byte>) returns (ok: bool)
      modifies this
      ensures ok == (|old(content)| + |bytes| <= quota)
      ensures content == old(content) + if ok then bytes else []
    {
      ok := |content| + |bytes| <= quota;
      if ok {
        content := content + bytes;
      }
    }
  }

  method HandleUpload(reader: Reader, file: RemoteFile, text: seq<Byte>, conn: Writer)
    requires file.content == []
    modifies reader, file, conn
    ensures var (stored, ok) := StoreUpload(old(reader.rest), [], file.quota);
            && file.content == stored
            && conn.sent == old(conn.sent) + EncodeAll(Reply(ok, text))
  {
    hide Encode;
    var answer := Frame(FILE_ERR, text);
    while true
      invariant StoreUpload(reader.rest, file.content, file.quota) == StoreUpload(old(reader.rest), [], file.quota)
      invariant conn.sent == old(conn.sent) && answer == Frame(FILE_ERR, text)
      decreases |reader.rest|
    {
      var r := reader.ReadFrame();
      if !r.Got? {
        break;
      }
      if r.frame.kind == FILE_DATA {
        var written := file.Write(r.frame.payload);
        if !written {
          break;
        }
      } else {
        if r.frame.kind == FILE_EOF {
          answer := Frame(OK, []);
        }
        break;
      }
    }
    var sent := conn.WriteFrame(answer.kind, answer.payload);
    if sent {
      EncodeOne(answer);
    }
  }

  function Reply(ok: bool, text: seq<Byte>): (fs: seq<Frame>)
    ensures forall f | f in fs :: Sendable(f)
  {
    if ok then [Frame(OK, [])] else if |text| <= MAX_FRAME_PAYLOAD then [Frame(FILE_ERR, text)] else []
  }

  /** The client's last step of an upload: success means that the answer is OK. */
  method AwaitReply(reader: Reader) returns (ok: bool)
    modifies reader
    ensures ok == Accepted(old(reader.rest))
  {
    var r := reader.ReadFrame();
    ok := r.Got? && r.frame.kind == OK;
  }

  predicate Accepted(s: seq<Byte>) {
    Decode(s).0.Got? && Decode(s).0.frame.kind == OK
  }

  /** The client's loop over a download: the local file and whether the download succeeded. */
  function StoreDownload(s: seq<Byte>, file: seq<Byte>): (seq<Byte>, bool)
    decreases |s|
  {
    var (r, rest) := Decode(s);
    match r
    case Got(f) => if f.kind == FILE_DATA then StoreDownload(rest, file + f.payload) else (file, f.kind == FILE_EOF)
    case _ => (file, false)
  }

  method ReceiveFile(reader: Reader) returns (file: seq<Byte>, ok: bool)
    modifies reader
    ensures (file, ok) == StoreDownload(old(reader.rest), [])
  {
    file := [];
    while true
      invariant StoreDownload(reader.rest, file) == StoreDownload(old(reader.rest), [])
      decreases |reader.rest|
    {
      var r := reader.ReadFrame();
      if !r.Got? {
        return file, false;
      }
      if r.frame.kind == FILE_DATA {
        file := file + r.frame.payload;
      } else {
        return file, r.frame.kind == FILE_EOF;
      }
    }
  }

  // End to end

  lemma StoreFrame(chunk: seq<Byte>, tail: seq<Byte>, file: seq<Byte>)
    requires |chunk| <= BUFFER_SIZE
    ensures StoreDownload(Encode(Frame(FILE_DATA, chunk)) + tail, file) == StoreDownload(tail, file + chunk)
  {
    hide Decode, Encode;
    DecodeEncode(Frame(FILE_DATA, chunk), tail);
  }

  lemma StoreStep(steps: seq<ReadStep>, rest: seq<Byte>, file: seq<Byte>)
    requires FitsBuffer(steps) && steps != []
    ensures StoreDownload(EncodeAll(DataFrames(steps)) + rest, file)
         == StoreDownload(EncodeAll(DataFrames(Later(steps))) + rest, file + steps[0].chunk)
  {
    hide StoreDownload, Encode, EncodeAll, DataFrames;
    EncodeStep(steps);
    var chunk, data := steps[0].chunk, EncodeAll(DataFrames(Later(steps)));
    if chunk == [] {
      assert file + chunk == file && [] + data == data;
    } else {
      StoreFrame(chunk, data + rest, file);
      Associate(Encode(Frame(FILE_DATA, chunk)), data, rest);
    }
  }

  lemma Associate(a: seq<Byte>, b: seq<Byte>, c: seq<Byte>)
    ensures a + b + c == a + (b + c)
  {
  }

  lemma {:induction false} StoreDataFrames(steps: seq<ReadStep>, rest: seq<Byte>, file: seq<Byte>)
    requires FitsBuffer(steps)
    ensures StoreDownload(EncodeAll(DataFrames(steps)) + rest, file) == StoreDownload(rest, file + Content(steps))
    decreases |steps|
  {
    hide StoreDownload, Encode, EncodeAll;
    if steps == [] {
      NoFrames();
      assert [] + rest == rest && file + [] == file;
    } else {
      StoreStep(steps, rest, file);
      StoreDataFrames(Later(steps), rest, file + steps[0].chunk);
      Associate(file, steps[0].chunk, Content(Later(steps)));
    }
  }

  /** A download leaves exactly the bytes that could be read, and succeeds exactly when the remote file
      was read to its end. */
  lemma DownloadDelivers(steps: seq<ReadStep>, text: seq<Byte>)
    requires FitsBuffer(steps)
    ensures StoreDownload(DownloadBytes(steps, text), []) == (Content(steps), EndsWell(steps))
  {
    hide Decode, Encode, EncodeAll, EndsWell, Content;
    var fs := ClosingFrames(EndsWell(steps), text);
    StoreDataFrames(steps, EncodeAll(fs), []);
    assert [] + Content(steps) == Content(steps);
    NoFrames();
    if fs == [] {
      NothingToDecode();
    } else {
      EncodeOne(fs[0]);
      assert fs == [fs[0]] && Encode(fs[0]) + [] == Encode(fs[0]);
      DecodeEncode(fs[0], []);
    }
  }

  lemma NothingToDecode()
    ensures Decode([]) == (Eof, [])
  {
  }

  lemma {:induction false} CutDataFrames(steps: seq<ReadStep>, t: seq<Byte>, file: seq<Byte>)
    requires FitsBuffer(steps) && t <= EncodeAll(DataFrames(steps))
    ensures StoreDownload(t, file).0 <= file + Content(steps) && !StoreDownload(t, file).1
    decreases |steps|
  {
    hide Decode, Encode, EncodeAll;
    NoFrames();
    NothingToDecode();
    if steps != [] {
      EncodeStep(steps);
      var chunk := steps[0].chunk;
      var more := Later(steps);
      Associate(file, chunk, Content(more));
      if chunk == [] {
        assert file + chunk == file;
        CutDataFrames(more, t, file);
      } else {
        var e := Encode(Frame(FILE_DATA, chunk));
        if |t| < |e| {
          assert t < e;
          CutFrameIsNotRead(Frame(FILE_DATA, chunk), t);
        } else {
          assert t == e + t[|e|..] && t[|e|..] <= EncodeAll(DataFrames(more));
          DecodeEncode(Frame(FILE_DATA, chunk), t[|e|..]);
          CutDataFrames(more, t[|e|..], file + chunk);
        }
      }
    }
  }

  /** A download that is cut off anywhere is noticed, and has written a prefix of the file. */
  lemma CutDownloadIsNoticed(steps: seq<ReadStep>, text: seq<Byte>, t: seq<Byte>)
    requires FitsBuffer(steps) && t < DownloadBytes(steps, text)
    ensures StoreDownload(t, []).0 <= Content(steps) && !StoreDownload(t, []).1
  {
    hide Decode, Encode, EncodeAll, EndsWell, Content;
    var e := EncodeAll(DataFrames(steps));
    assert [] + Content(steps) == Content(steps);
    if |t| <= |e| {
      assert t <= e;
      CutDataFrames(steps, t, []);
    } else {
      var fs := ClosingFrames(EndsWell(steps), text);
      NoFrames();
      EncodeOne(fs[0]);
      assert fs == [fs[0]];
      assert t == e + t[|e|..] && t[|e|..] < Encode(fs[0]);
      StoreDataFrames(steps, t[|e|..], []);
      CutFrameIsNotRead(fs[0], t[|e|..]);
    }
  }

  /** The upload loop is the download loop until the quota is exceeded. */
  lemma {:induction false} UploadAsDownload(s: seq<Byte>, file: seq<Byte>, quota: nat)
    requires |file| <= quota
    ensures var (all, ended), (stored, ok) := StoreDownload(s, file), StoreUpload(s, file, quota);
            && file <= all && stored <= all && |stored| <= quota
            && (|all| <= quota ==> stored == all && ok == ended)
            && (|all| > quota ==> !ok)
    decreases |s|
  {
    hide Decode;
    var (r, rest) := Decode(s);
    if r.Got? && r.frame.kind == FILE_DATA {
      if |file| + |r.frame.payload| <= quota {
        UploadAsDownload(rest, file + r.frame.payload, quota);
      } else {
        DownloadOnlyGrows(rest, file + r.frame.payload);
      }
    }
  }

  lemma {:induction false} DownloadOnlyGrows(s: seq<Byte>, file: seq<Byte>)
    ensures file <= StoreDownload(s, file).0
    decreases |s|
  {
    hide Decode;
    var (r, rest) := Decode(s);
    if r.Got? && r.frame.kind == FILE_DATA {
      DownloadOnlyGrows(rest, file + r.frame.payload);
    }
  }

  /** An upload succeeds exactly when the local file was read to its end and the remote file could take it; then the
      remote file equals the local one. Otherwise the remote file holds a prefix and the client is told. */
  lemma UploadDelivers(steps: seq<ReadStep>, quota: nat, text: seq<Byte>)
    requires FitsBuffer(steps)
    ensures var (stored, ok) := StoreUpload(UploadBytes(steps), [], quota);
            var success := EndsWell(steps) && Accepted(EncodeAll(Reply(ok, text)));
            && stored <= Content(steps)
            && (success <==> EndsWell(steps) && |Content(steps)| <= quota)
            && (success ==> stored == Content(steps))
  {
    hide Decode, Encode, EncodeAll, EndsWell, Content;
    var closing := if EndsWell(steps) then EncodeAll([Frame(FILE_EOF, [])]) else [];
    StoreDataFrames(steps, closing, []);
    assert [] + Content(steps) == Content(steps);
    NothingToDecode();
    if EndsWell(steps) {
      EncodeOne(Frame(FILE_EOF, []));
      assert closing == Encode(Frame(FILE_EOF, [])) + [];
      DecodeEncode(Frame(FILE_EOF, []), []);
    }
    UploadAsDownload(UploadBytes(steps), [], quota);
    AnswerIsHonest(StoreUpload(UploadBytes(steps), [], quota).1, text);
  }

  lemma AnswerIsHonest(ok: bool, text: seq<Byte>)
    ensures Accepted(EncodeAll(Reply(ok, text))) == ok
  {
    hide Decode, Encode, EncodeAll;
    var fs := Reply(ok, text);
    NoFrames();
    NothingToDecode();
    if fs != [] {
      EncodeOne(fs[0]);
      assert fs == [fs[0]] && Encode(fs[0]) + [] == Encode(fs[0]);
      DecodeEncode(fs[0], []);
    }
  }

  /** An upload that is cut off anywhere is not answered with OK. */
  lemma CutUploadIsNoticed(steps: seq<ReadStep>, quota: nat, t: seq<Byte>)
    requires FitsBuffer(steps) && t < UploadBytes(steps)
    ensures StoreUpload(t, [], quota).0 <= Content(steps) && !StoreUpload(t, [], quota).1
  {
    hide Decode, Encode, EncodeAll, EndsWell, Content, StoreUpload, StoreDownload;
    UploadAsDownload(t, [], quota);
    if EndsWell(steps) {
      assert UploadBytes(steps) == DownloadBytes(steps, []);
      CutDownloadIsNoticed(steps, [], t);
    } else {
      CutDataFrames(steps, t, []);
      assert [] + Content(steps) == Content(steps);
    }
  }
}
