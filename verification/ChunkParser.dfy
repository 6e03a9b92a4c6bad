/** The chunk parser as the code has it: a map of mutable stream records fed from a connection. */
module ChunkParsers {
  import opened Bits
  import opened Bytes
  import opened Chunks

  /** The unread bytes of a connection. */
  class Conn {
    var data: seq<Byte>

    constructor (data: seq<Byte>)
      ensures this.data == data
    {
      this.data := data;
    }

    /** `io.ReadFull`: all `n` bytes, or an error that eats what was there. */
    method ReadFull(n: nat) returns (bytes: seq<Byte>, err: Option<IoError>)
      modifies this
      ensures n <= |old(data)| ==> err == None && bytes == old(data)[..n] && data == old(data)[n..]
      ensures n > |old(data)| ==> err == Some(Short(old(data))) && data == []
    {
      if n <= |data| {
        bytes, err := data[..n], None;
        data := data[n..];
      } else {
        bytes, err := [], Some(Short(data));
        data := [];
      }
    }
  }

  class StreamRecord {
    var kind: Byte
    var messageLength: nat
    var timestamp: nat
    var timestampDelta: nat
    var hasExtendedTS: bool
    var streamID: nat
    var buffer: seq<Byte>
    var bytesRead: nat

    constructor ()
      ensures View() == FRESH
    {
      kind, messageLength, timestamp, timestampDelta := 0, 0, 0, 0;
      hasExtendedTS, streamID, buffer, bytesRead := false, 0, [], 0;
    }

    ghost function View(): ChunkStream
      reads this
    {
      ChunkStream(kind, messageLength, timestamp, timestampDelta, hasExtendedTS, streamID, buffer, bytesRead)
    }
  }

  /** An imperative header read did what the function on values says. */
  ghost predicate Did(h: Header, cs: ChunkStream, rest: seq<Byte>, err: Option<IoError>) {
    match h
    case Header(v, after) => err == None && cs == v && rest == after
    case NoHeader(v, e) => err == Some(e) && cs == v
  }

  /** The extended field that follows a time field of all ones. */
  method ReadExtended(r: Conn, mark: nat) returns (value: nat, err: Option<IoError>)
    modifies r
    ensures match ReadExtension(mark, old(r.data))
      case TimeField(v, rest) => err == None && value == v && r.data == rest
      case NoTime(e) => err == Some(e)
  {
    value, err := mark, None;
    if mark == EXT_MARK {
      var ext;
      ext, err := r.ReadFull(4);
      if err == None {
        value := FromBE32(ext);
      }
    }
  }

  /** A header read in two pieces, three bytes and then `n`, is cut out of the input where it stands. */
  lemma HeaderPieces(input: seq<Byte>, n: nat)
    requires n >= 4 && |input| >= 3 + n
    ensures input[3..][..n] == input[3..3 + n] && input[3..][n..] == input[3 + n..]
    ensures input[3..3 + n][..3] == input[3..6] && input[3..3 + n][3] == input[6]
  {
  }

  lemma StreamIdPiece(input: seq<Byte>)
    requires |input| >= 11
    ensures input[3..11][4..8] == input[7..11]
  {
  }

  method ReadFormat0(r: Conn, cs: StreamRecord) returns (err: Option<IoError>)
    modifies r, cs
    ensures Did(ReadFmt0(old(cs.View()), old(r.data)), cs.View(), r.data, err)
  {
    hide FromBE24, FromLE32, ReadExtension;
    ghost var input := r.data;
    var ts, header;
    ts, err := r.ReadFull(3);
    if err != None { return; }
    header, err := r.ReadFull(8);
    if err != None { return; }
    HeaderPieces(input, 8);
    StreamIdPiece(input);
    var timestamp := FromBE24(ts);
    cs.hasExtendedTS := timestamp == EXT_MARK;
    timestamp, err := ReadExtended(r, timestamp);
    if err != None { return; }
    cs.timestamp := timestamp;
    cs.messageLength, cs.kind, cs.streamID := FromBE24(header[..3]), header[3], FromLE32(header[4..8]);
    cs.bytesRead, cs.buffer := 0, [];
  }

  method ReadFormat1(r: Conn, cs: StreamRecord) returns (err: Option<IoError>)
    modifies r, cs
    ensures Did(ReadFmt1(old(cs.View()), old(r.data)), cs.View(), r.data, err)
  {
    hide FromBE24, ReadExtension;
    ghost var input := r.data;
    var d, header;
    d, err := r.ReadFull(3);
    if err != None { return; }
    header, err := r.ReadFull(4);
    if err != None { return; }
    HeaderPieces(input, 4);
    var delta := FromBE24(d);
    cs.hasExtendedTS := delta == EXT_MARK;
    delta, err := ReadExtended(r, delta);
    if err != None { return; }
    cs.timestampDelta := delta;
    cs.timestamp := (cs.timestamp + cs.timestampDelta) % TWO32;
    cs.messageLength, cs.kind := FromBE24(header[..3]), header[3];
    cs.bytesRead, cs.buffer := 0, [];
  }

  method ReadFormat2(r: Conn, cs: StreamRecord) returns (err: Option<IoError>)
    modifies r, cs
    ensures Did(ReadFmt2(old(cs.View()), old(r.data)), cs.View(), r.data, err)
  {
    hide FromBE24, ReadExtension;
    var d;
    d, err := r.ReadFull(3);
    if err != None { return; }
    var delta := FromBE24(d);
    cs.hasExtendedTS := delta == EXT_MARK;
    delta, err := ReadExtended(r, delta);
    if err != None { return; }
    cs.timestampDelta := delta;
    cs.timestamp := (cs.timestamp + cs.timestampDelta) % TWO32;
  }

  method ReadFormat3(r: Conn, cs: StreamRecord) returns (err: Option<IoError>)
    modifies r, cs
    ensures Did(ReadFmt3(old(cs.View()), old(r.data)), cs.View(), r.data, err)
  {
    err := None;
    if cs.hasExtendedTS {
      var ext;
      ext, err := r.ReadFull(4);
      if err != None { return; }
      if cs.bytesRead == 0 {
        cs.timestamp := FromBE32(ext);
      }
      return;
    }
    if cs.bytesRead == 0 {
      cs.timestamp := (cs.timestamp + cs.timestampDelta) % TWO32;
    }
  }

  method ReadMessageHeader(r: Conn, cs: StreamRecord, fmt: nat) returns (err: Option<IoError>)
    requires fmt < 4
    modifies r, cs
    ensures Did(ReadHeader(old(cs.View()), fmt, old(r.data)), cs.View(), r.data, err)
  {
    match fmt {
      case 0 => err := ReadFormat0(r, cs);
      case 1 => err := ReadFormat1(r, cs);
      case 2 => err := ReadFormat2(r, cs);
      case 3 => err := ReadFormat3(r, cs);
    }
  }

  /** The one, two or three bytes in front of every chunk. */
  method ReadBasicHeader(r: Conn) returns (fmt: nat, csID: nat, err: Option<IoError>)
    modifies r
    ensures match ReadBasic(old(r.data))
      case Basic(f, id, rest) => err == None && fmt == f && csID == id && r.data == rest
      case NoBasic(e) => err == Some(e)
  {
    ghost var input := r.data;
    fmt, csID := 0, 0;
    var head, ext;
    head, err := r.ReadFull(1);
    if err != None { return; }
    var b: int := head[0];
    fmt, csID := b / 64, b % 64;
    if csID == 0 {
      ext, err := r.ReadFull(1);
      if err != None { return; }
      var e: int := ext[0];
      csID := e + 64;
    } else if csID == 1 {
      ext, err := r.ReadFull(2);
      if err != None { return; }
      assert ext == input[1..3];
      csID := FromBE16(ext) + 64;
    }
  }

  /** Everything after the basic header. */
  ghost function ReadRest(p: Parser, id: nat, fmt: nat, input: seq<Byte>): (r: ReadResult)
    ensures r.Chunk? ==> r.csID == id
  {
    match ReadHeader(StreamOf(p, id), fmt, input)
    case NoHeader(cs, e) => Fail(p.(streams := p.streams[id := cs]), e)
    case Header(cs, rest) => ReadPayload(p, id, cs, rest)
  }

  /** An imperative chunk read did what the function on values says. */
  ghost predicate Parsed(r: ReadResult, q: Parser, rest: seq<Byte>, err: Option<IoError>) {
    match r
    case Chunk(_, p, after) => err == None && q == p && rest == after
    case Fail(p, e) => err == Some(e) && q == p
  }

  class ChunkParser {
    var chunkStreams: map<nat, StreamRecord>
    var chunkSize: nat

    /** Every chunk stream ID has a record of its own. */
    ghost predicate Valid()
      reads this
    {
      forall i, j :: i in chunkStreams && j in chunkStreams && i != j ==> chunkStreams[i] != chunkStreams[j]
    }

    ghost function View(): Parser
      reads this, chunkStreams.Values
    {
      Parser(map id | id in chunkStreams :: chunkStreams[id].View(), chunkSize)
    }

    constructor ()
      ensures Valid() && View() == Parser(map[], DEFAULT_CHUNK_SIZE)
    {
      chunkStreams, chunkSize := map[], DEFAULT_CHUNK_SIZE;
    }

    method SetChunkSize(size: nat)
      modifies this`chunkSize
      ensures View() == old(View()).(chunkSize := size)
    {
      chunkSize := size;
    }

    method GetOrCreate(csID: nat) returns (cs: StreamRecord)
      requires Valid()
      modifies this`chunkStreams
      ensures Valid() && csID in chunkStreams && chunkStreams[csID] == cs
      ensures cs.View() == StreamOf(old(View()), csID) && chunkSize == old(View()).chunkSize
      ensures old(View()).streams.Keys + {csID} == chunkStreams.Keys
      ensures forall id :: id in chunkStreams && id != csID ==> chunkStreams[id].View() == old(View()).streams[id]
      ensures chunkStreams.Keys == old(chunkStreams.Keys) + {csID}
      ensures forall id :: id in chunkStreams && id != csID ==> chunkStreams[id] == old(chunkStreams[id])
      ensures fresh(chunkStreams.Values - old(chunkStreams.Values))
    {
      if csID in chunkStreams {
        cs := chunkStreams[csID];
      } else {
        cs := new StreamRecord();
        chunkStreams := chunkStreams[csID := cs];
      }
    }

    /** One chunk off the connection, or the error and the state it leaves behind. */
    method ReadChunk(r: Conn) returns (csID: nat, err: Option<IoError>)
      requires Valid()
      modifies this`chunkStreams, chunkStreams.Values, r
      ensures Valid() && fresh(chunkStreams.Values - old(chunkStreams.Values))
      ensures var res := Chunks.ReadChunk(old(View()), old(r.data));
        Parsed(res, View(), r.data, err) && (res.Chunk? ==> csID == res.csID)
    {
      hide ReadHeader, ReadBasic, ReadPayload;
      var fmt;
      fmt, csID, err := ReadBasicHeader(r);
      if err != None {
        return 0, err;
      }
      err := ReadOn(r, csID, fmt);
    }

    method ReadOn(r: Conn, csID: nat, fmt: nat) returns (err: Option<IoError>)
      requires Valid() && fmt < 4
      modifies this`chunkStreams, chunkStreams.Values, r
      ensures Valid() && fresh(chunkStreams.Values - old(chunkStreams.Values))
      ensures Parsed(ReadRest(old(View()), csID, fmt, old(r.data)), View(), r.data, err)
    {
      hide ReadRest, Parsed, View, StreamRecord.View, StreamOf;
      ghost var p := View();
      var cs := GetOrCreate(csID);
      err := ReadRecord(r, csID, cs, fmt, p);
    }

    /** The map already has the record `cs` of this chunk stream; the rest is as in `p`. */
    method ReadRecord(r: Conn, csID: nat, cs: StreamRecord, fmt: nat, ghost p: Parser) returns (err: Option<IoError>)
      requires Valid() && fmt < 4 && p.chunkSize == chunkSize
      requires csID in chunkStreams && chunkStreams[csID] == cs && p.streams.Keys + {csID} == chunkStreams.Keys
      requires cs.View() == StreamOf(p, csID)
      requires forall id :: id in chunkStreams && id != csID ==> chunkStreams[id].View() == p.streams[id]
      modifies r, cs
      ensures Parsed(ReadRest(p, csID, fmt, old(r.data)), View(), r.data, err)
    {
      hide ReadRest, Parsed;
      err := ReadInto(r, cs, fmt, p, csID);
      OneRecordChanged(p, csID, cs);
    }

    /** Only the record of `csID` differs from the state `before`. */
    lemma OneRecordChanged(before: Parser, csID: nat, cs: StreamRecord)
      requires csID in chunkStreams && chunkStreams[csID] == cs && before.streams.Keys + {csID} == chunkStreams.Keys
      requires before.chunkSize == chunkSize
      requires forall id :: id in chunkStreams && id != csID ==> chunkStreams[id].View() == before.streams[id]
      ensures View() == before.(streams := before.streams[csID := cs.View()])
    {
    }

    /** Header, then payload, into the record of this chunk stream. */
    method ReadInto(r: Conn, cs: StreamRecord, fmt: nat, ghost p: Parser, ghost id: nat) returns (err: Option<IoError>)
      requires fmt < 4 && p.chunkSize == chunkSize && cs.View() == StreamOf(p, id)
      modifies r, cs
      ensures Parsed(ReadRest(p, id, fmt, old(r.data)), p.(streams := p.streams[id := cs.View()]), r.data, err)
    {
      hide ReadHeader, PayloadSize;
      err := ReadMessageHeader(r, cs, fmt);
      if err != None { return; }
      err := ReadBody(r, cs);
    }

    /** The payload of this chunk, appended to the reassembly buffer. */
    method ReadBody(r: Conn, cs: StreamRecord) returns (err: Option<IoError>)
      modifies r, cs
      ensures var n := PayloadSize(old(cs.View()), chunkSize);
        if |old(r.data)| < n then err == Some(Short(old(r.data))) && cs.View() == old(cs.View())
        else
          && err == None && r.data == old(r.data)[n..]
          && cs.View() == old(cs.View()).(buffer := old(cs.buffer) + old(r.data)[..n],
                bytesRead := (old(cs.bytesRead) + n) % TWO32)
    {
      var payloadSize := chunkSize;
      if (cs.bytesRead + payloadSize) % TWO32 > cs.messageLength {
        payloadSize := (cs.messageLength - cs.bytesRead) % TWO32;
      }
      var payload;
      payload, err := r.ReadFull(payloadSize);
      if err != None { return; }
      cs.buffer := cs.buffer + payload;
      cs.bytesRead := (cs.bytesRead + payloadSize) % TWO32;
    }

    method GetBytesRead(csID: nat) returns (n: nat)
      ensures n == StreamOf(View(), csID).bytesRead
    {
      if csID !in chunkStreams {
        return 0;
      }
      return chunkStreams[csID].bytesRead;
    }

    method GetCompleteMessage(csID: nat) returns (m: Option<Message>)
      requires Valid()
      modifies chunkStreams.Values
      ensures (View(), m) == TakeMessage(old(View()), csID)
    {
      ghost var p := View();
      if csID !in chunkStreams {
        return None;
      }
      var cs := chunkStreams[csID];
      if cs.bytesRead < cs.messageLength {
        return None;
      }
      m := Some(Message(cs.kind, cs.timestamp, cs.streamID, cs.buffer));
      cs.buffer, cs.bytesRead := [], 0;
      assert View() == p.(streams := p.streams[csID := cs.View()]);
    }
  }
}
