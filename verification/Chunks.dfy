/**
 RTMP chunk parsing as a function of the parser state and the bytes on the wire
 (Adobe RTMP 1.0, section 5.3). Errors keep exactly the fields the code had already changed.
 */
module Chunks {
  import opened Bits
  import opened Bytes

  const MAX_CHUNK_SIZE := TWO24 - 1
  const DEFAULT_CHUNK_SIZE := 128
  const EXT_MARK := 0xFF_FFFF
  const TYPE_SET_CHUNK_SIZE := 1

  datatype IoError = EOF | UnexpectedEOF

  /** What a full read reports when `input` is all that is left and too little. */
  function Short(input: seq<Byte>): IoError {
    if input == [] then EOF else UnexpectedEOF
  }

  datatype Message = Message(kind: Byte, timestamp: nat, streamID: nat, body: seq<Byte>)

  /** Reassembly state of one chunk stream. */
  datatype ChunkStream = ChunkStream(
    kind: Byte, messageLength: nat, timestamp: nat, timestampDelta: nat, hasExtendedTS: bool,
    streamID: nat, buffer: seq<Byte>, bytesRead: nat)

  const FRESH := ChunkStream(0, 0, 0, 0, false, 0, [], 0)

  datatype Parser = Parser(streams: map<nat, ChunkStream>, chunkSize: nat)

  function StreamOf(p: Parser, id: nat): ChunkStream {
    if id in p.streams then p.streams[id] else FRESH
  }

  // ----- headers -------------------------------------------------------------------------------

  datatype Basic = Basic(fmt: nat, csID: nat, rest: seq<Byte>) | NoBasic(error: IoError)

  function ReadBasic(input: seq<Byte>): (r: Basic)
    ensures r.Basic? ==> r.fmt < 4 && |r.rest| < |input|
  {
    if input == [] then NoBasic(EOF)
    else
      var b: int := input[0];
      var fmt, low := b / 64, b % 64;
      if low == 0 then
        if |input| < 2 then NoBasic(EOF) else var e: int := input[1]; Basic(fmt, e + 64, input[2..])
      else if low == 1 then
        if |input| < 3 then NoBasic(Short(input[1..])) else Basic(fmt, FromBE16(input[1..3]) + 64, input[3..])
      else Basic(fmt, low, input[1..])
  }

  /** A parsed message header, or the stream as the failed attempt left it. */
  datatype Header = Header(cs: ChunkStream, rest: seq<Byte>) | NoHeader(cs: ChunkStream, error: IoError)

  /** A 24-bit time field with its extension: the value, and what follows. */
  datatype TimeField = TimeField(value: nat, rest: seq<Byte>) | NoTime(error: IoError)

  function ReadExtension(mark: nat, after: seq<Byte>): (r: TimeField)
    ensures r.TimeField? ==> |r.rest| <= |after|
    ensures mark < TWO32 && r.TimeField? ==> r.value < TWO32
    ensures r.NoTime? ==> mark == EXT_MARK
  {
    if mark != EXT_MARK then TimeField(mark, after)
    else if |after| < 4 then NoTime(Short(after))
    else TimeField(FromBE32(after[..4]), after[4..])
  }

  function ReadFmt0(cs: ChunkStream, input: seq<Byte>): Header {
    if |input| < 3 then NoHeader(cs, Short(input))
    else if |input| < 11 then NoHeader(cs, Short(input[3..]))
    else
      var mark := FromBE24(input[..3]);
      match ReadExtension(mark, input[11..])
      case NoTime(e) => NoHeader(cs.(hasExtendedTS := true), e)
      case TimeField(ts, rest) =>
        Header(ChunkStream(input[6], FromBE24(input[3..6]), ts, cs.timestampDelta, mark == EXT_MARK,
                           FromLE32(input[7..11]), [], 0), rest)
  }

  function ReadFmt1(cs: ChunkStream, input: seq<Byte>): Header {
    if |input| < 3 then NoHeader(cs, Short(input))
    else if |input| < 7 then NoHeader(cs, Short(input[3..]))
    else
      var mark := FromBE24(input[..3]);
      match ReadExtension(mark, input[7..])
      case NoTime(e) => NoHeader(cs.(hasExtendedTS := true), e)
      case TimeField(delta, rest) =>
        Header(ChunkStream(input[6], FromBE24(input[3..6]), (cs.timestamp + delta) % TWO32, delta,
                           mark == EXT_MARK, cs.streamID, [], 0), rest)
  }

  function ReadFmt2(cs: ChunkStream, input: seq<Byte>): Header {
    if |input| < 3 then NoHeader(cs, Short(input))
    else
      var mark := FromBE24(input[..3]);
      match ReadExtension(mark, input[3..])
      case NoTime(e) => NoHeader(cs.(hasExtendedTS := true), e)
      case TimeField(delta, rest) =>
        Header(cs.(timestamp := (cs.timestamp + delta) % TWO32, timestampDelta := delta,
                   hasExtendedTS := mark == EXT_MARK), rest)
  }

  function ReadFmt3(cs: ChunkStream, input: seq<Byte>): Header {
    if cs.hasExtendedTS then
      if |input| < 4 then NoHeader(cs, Short(input))
      else Header(if cs.bytesRead == 0 then cs.(timestamp := FromBE32(input[..4])) else cs, input[4..])
    else Header(if cs.bytesRead == 0 then cs.(timestamp := (cs.timestamp + cs.timestampDelta) % TWO32) else cs, input)
  }

  function ReadHeader(cs: ChunkStream, fmt: nat, input: seq<Byte>): (r: Header)
    ensures r.Header? ==> |r.rest| <= |input|
  {
    match fmt
    case 0 => ReadFmt0(cs, input)
    case 1 => ReadFmt1(cs, input)
    case 2 => ReadFmt2(cs, input)
    case 3 => ReadFmt3(cs, input)
    case _ => Header(cs, input)
  }

  // ----- chunks and messages -----------------------------------------------------------------------

  /** uint32 arithmetic, as written in the code. */
  function PayloadSize(cs: ChunkStream, chunkSize: nat): nat {
    if (cs.bytesRead + chunkSize) % TWO32 > cs.messageLength then (cs.messageLength - cs.bytesRead) % TWO32
    else chunkSize
  }

  datatype ReadResult = Chunk(csID: nat, parser: Parser, rest: seq<Byte>) | Fail(parser: Parser, error: IoError)

  function ReadPayload(p: Parser, id: nat, cs: ChunkStream, input: seq<Byte>): (r: ReadResult)
    ensures r.Chunk? ==> |r.rest| <= |input| && r.csID == id && id in r.parser.streams
  {
    var n := PayloadSize(cs, p.chunkSize);
    if |input| < n then Fail(p.(streams := p.streams[id := cs]), Short(input))
    else
      var cs' := cs.(buffer := cs.buffer + input[..n], bytesRead := (cs.bytesRead + n) % TWO32);
      Chunk(id, p.(streams := p.streams[id := cs']), input[n..])
  }

  function ReadChunk(p: Parser, input: seq<Byte>): (r: ReadResult)
    ensures r.Chunk? ==> |r.rest| < |input| && r.csID in r.parser.streams
  {
    match ReadBasic(input)
    case NoBasic(e) => Fail(p, e)
    case Basic(fmt, id, rest) =>
      match ReadHeader(StreamOf(p, id), fmt, rest)
      case NoHeader(cs, e) => Fail(p.(streams := p.streams[id := cs]), e)
      case Header(cs, rest') => ReadPayload(p, id, cs, rest')
  }

  function TakeMessage(p: Parser, id: nat): (Parser, Option<Message>) {
    var cs := StreamOf(p, id);
    if id !in p.streams || cs.bytesRead < cs.messageLength then (p, None)
    else (p.(streams := p.streams[id := cs.(buffer := [], bytesRead := 0)]),
          Some(Message(cs.kind, cs.timestamp, cs.streamID, cs.buffer)))
  }

  // ----- the reassembly invariant --------------------------------------------------------------------

  ghost predicate StreamInv(cs: ChunkStream) {
    && |cs.buffer| == cs.bytesRead <= cs.messageLength < TWO24
    && cs.timestamp < TWO32 && cs.timestampDelta < TWO32 && cs.streamID < TWO32
  }

  ghost predicate ParserInv(p: Parser) {
    && p.chunkSize <= MAX_CHUNK_SIZE
    && forall id :: id in p.streams ==> StreamInv(p.streams[id])
  }

  /** Within the invariant the uint32 comparison is the comparison of the true values. */
  lemma PayloadFits(cs: ChunkStream, chunkSize: nat)
    requires StreamInv(cs) && chunkSize <= MAX_CHUNK_SIZE
    ensures cs.bytesRead + chunkSize < TWO32
    ensures PayloadSize(cs, chunkSize) ==
      if cs.bytesRead + chunkSize > cs.messageLength then cs.messageLength - cs.bytesRead else chunkSize
  {
  }

  lemma HeaderKeepsInv(cs: ChunkStream, fmt: nat, input: seq<Byte>)
    requires StreamInv(cs)
    ensures StreamInv(ReadHeader(cs, fmt, input).cs)
  {
  }

  lemma ReadChunkKeepsInv(p: Parser, input: seq<Byte>)
    requires ParserInv(p)
    ensures ParserInv(ReadChunk(p, input).parser)
  {
    var b := ReadBasic(input);
    if b.Basic? {
      var cs := StreamOf(p, b.csID);
      HeaderKeepsInv(cs, b.fmt, b.rest);
      var h := ReadHeader(cs, b.fmt, b.rest);
      if h.Header? {
        PayloadKeepsInv(p, b.csID, h.cs, h.rest);
      }
    }
  }

  lemma PayloadKeepsInv(p: Parser, id: nat, cs: ChunkStream, input: seq<Byte>)
    requires ParserInv(p) && StreamInv(cs)
    ensures ParserInv(ReadPayload(p, id, cs, input).parser)
  {
    PayloadFits(cs, p.chunkSize);
  }

  /** A delivered body has exactly the announced length, and the stream is ready for the next. */
  lemma TakeKeepsInv(p: Parser, id: nat)
    requires ParserInv(p)
    ensures var (q, m) := TakeMessage(p, id);
      && ParserInv(q)
      && (m.Some? ==> |m.value.body| == StreamOf(p, id).messageLength && StreamOf(q, id).bytesRead == 0)
  {
  }

  datatype Op = Feed(input: seq<Byte>) | Take(id: nat) | Resize(size: nat)

  function ApplyOp(p: Parser, op: Op): Parser {
    match op
    case Feed(input) => ReadChunk(p, input).parser
    case Take(id) => TakeMessage(p, id).0
    case Resize(n) => p.(chunkSize := n)
  }

  function RunOps(p: Parser, ops: seq<Op>): Parser
    decreases |ops|
  {
    if ops == [] then p else RunOps(ApplyOp(p, ops[0]), ops[1..])
  }

  /** Over every byte input, failed reads included, and every size the protocol admits. */
  lemma {:induction false} ReassemblyInvariant(p: Parser, ops: seq<Op>)
    requires ParserInv(p)
    requires forall i :: 0 <= i < |ops| && ops[i].Resize? ==> ops[i].size <= MAX_CHUNK_SIZE
    ensures ParserInv(RunOps(p, ops))
    decreases |ops|
  {
    if ops != [] {
      match ops[0] {
        case Feed(input) => ReadChunkKeepsInv(p, input);
        case Take(id) => TakeKeepsInv(p, id);
        case Resize(_) =>
      }
      ReassemblyInvariant(ApplyOp(p, ops[0]), ops[1..]);
    }
  }

  // ----- the read loop -------------------------------------------------------------------------------

  /** Big-endian size in the first four bytes, refused above the maximum. */
  function ParseSetChunkSize(body: seq<Byte>): Option<nat> {
    if |body| < 4 then None
    else
      var size := FromBE32(body[..4]);
      if size > MAX_CHUNK_SIZE then None else Some(size)
  }

  function CreateSetChunkSize(size: nat): seq<Byte> {
    BE32(size)
  }

  /** The chunk size in force after message `m`. */
  function NextSize(size: nat, m: Message): nat {
    if m.kind == TYPE_SET_CHUNK_SIZE && ParseSetChunkSize(m.body).Some? then ParseSetChunkSize(m.body).value
    else size
  }

  /** What a connection sees: messages with their chunk stream, and the byte count after each chunk. */
  datatype Trace = Trace(delivered: seq<(nat, Message)>, counts: seq<nat>, parser: Parser, error: IoError)

  /** The message loop until the input ends; `inband` says whether Set Chunk Size is obeyed. */
  function Drain(p: Parser, input: seq<Byte>, inband: bool): Trace
    decreases |input|
  {
    match ReadChunk(p, input)
    case Fail(q, e) => Trace([], [], q, e)
    case Chunk(id, q, rest) =>
      var (q', m) := TakeMessage(q, id);
      var next := if m.Some? && inband then q'.(chunkSize := NextSize(q'.chunkSize, m.value)) else q';
      var t := Drain(next, rest, inband);
      Trace((if m.Some? then [(id, m.value)] else []) + t.delivered, [q.streams[id].bytesRead] + t.counts,
            t.parser, t.error)
  }
}
