/**
 What a conformant sender puts on one chunk stream, chunk by chunk, in all four header formats and
 with extended timestamps repeated on format-3 chunks, and the proof that the parser gets back
 exactly the messages sent. The server's own writer is the case in which every message starts with
 a format-0 header; it agrees with a conformant sender where it has no extended field to repeat.
 */
module ChunkFlow {
  import opened Bits
  import opened Bytes
  import opened Chunks

  /** How a message announces itself: RTMP chunk formats 0, 1, 2 and 3. */
  datatype Lead =
    | Full(timestamp: nat, kind: Byte, streamID: nat)
    | NewLength(delta: nat, kind: Byte)
    | NewDelta(delta: nat)
    | Repeat(again: nat)  // the extended field repeated, if there is one

  datatype Unit = Unit(lead: Lead, body: seq<Byte>)

  /** The header fields a chunk stream remembers from one message to the next. */
  datatype Memory = Memory(kind: Byte, length: nat, timestamp: nat, delta: nat, ext: bool, streamID: nat)

  const BLANK := Memory(0, 0, 0, 0, false, 0)

  function MemoryOf(cs: ChunkStream): Memory {
    Memory(cs.kind, cs.messageLength, cs.timestamp, cs.timestampDelta, cs.hasExtendedTS, cs.streamID)
  }

  /** What the parser makes of a new message: the delta counts once, the rest is inherited, and a
      repeated extended field is taken as an absolute timestamp. */
  function Announce(mem: Memory, u: Unit): Memory {
    match u.lead
    case Full(ts, kind, sid) => Memory(kind, |u.body|, ts, mem.delta, ts >= EXT_MARK, sid)
    case NewLength(d, kind) => Memory(kind, |u.body|, (mem.timestamp + d) % TWO32, d, d >= EXT_MARK, mem.streamID)
    case NewDelta(d) => mem.(timestamp := (mem.timestamp + d) % TWO32, delta := d, ext := d >= EXT_MARK)
    case Repeat(again) => mem.(timestamp := if mem.ext then again else (mem.timestamp + mem.delta) % TWO32)
  }

  function MessageOf(mem: Memory, u: Unit): Message {
    Message(mem.kind, mem.timestamp, mem.streamID, u.body)
  }

  ghost predicate Sendable(mem: Memory, u: Unit) {
    && 1 <= |u.body| < TWO24
    && (match u.lead
        case Full(ts, _, sid) => ts < TWO32 && sid < TWO32
        case NewLength(d, _) => d < TWO32
        case NewDelta(d) => d < TWO32 && mem.length == |u.body|
        case Repeat(again) => mem.length == |u.body| && again < TWO32)
  }

  // ----- bytes -------------------------------------------------------------------------------------

  function BasicHeader(fmt: nat, csID: nat): seq<Byte>
    requires fmt < 4
  {
    if csID < 64 then [fmt * 64 + csID]
    else if csID < 320 then [fmt * 64, (csID - 64) % 0x100]
    else [fmt * 64 + 1] + BE16(csID - 64)
  }

  predicate ValidID(id: nat) {
    2 <= id <= 65599
  }

  lemma BasicRoundTrip(fmt: nat, id: nat, rest: seq<Byte>)
    requires fmt < 4 && ValidID(id)
    ensures ReadBasic(BasicHeader(fmt, id) + rest) == Basic(fmt, id, rest)
  {
    var h := BasicHeader(fmt, id);
    var input := h + rest;
    assert input[|h|..] == rest;
    if id >= 320 {
      RoundTripBE16(id - 64);
      assert input[1..3] == BE16(id - 64);
    }
  }

  function Clip(t: nat): nat {
    if t >= EXT_MARK then EXT_MARK else t
  }

  function Extension(t: nat): seq<Byte> {
    if t >= EXT_MARK then BE32(t) else []
  }

  function Fmt(lead: Lead): nat {
    match lead
    case Full(_, _, _) => 0
    case NewLength(_, _) => 1
    case NewDelta(_) => 2
    case Repeat(_) => 3
  }

  function LeadBytes(u: Unit): seq<Byte> {
    match u.lead
    case Full(ts, kind, sid) => BE24(Clip(ts)) + BE24(|u.body|) + [kind] + LE32(sid) + Extension(ts)
    case NewLength(d, kind) => BE24(Clip(d)) + BE24(|u.body|) + [kind] + Extension(d)
    case NewDelta(d) => BE24(Clip(d)) + Extension(d)
    case Repeat(_) => []
  }

  /** The value an extended field of this message carries. */
  function FieldValue(lead: Lead): nat {
    match lead
    case Full(ts, _, _) => ts
    case NewLength(d, _) => d
    case NewDelta(d) => d
    case Repeat(again) => again
  }

  /** A format-3 header: only the extended field, and only where one was announced. */
  function RepeatHeader(id: nat, mem: Memory, lead: Lead): seq<Byte> {
    if mem.ext then BasicHeader(3, id) + BE32(FieldValue(lead)) else BasicHeader(3, id)
  }

  lemma ExtensionRoundTrip(t: nat, rest: seq<Byte>)
    requires t < TWO32
    ensures FromBE24(BE24(Clip(t))) == Clip(t)
    ensures ReadExtension(Clip(t), Extension(t) + rest) == TimeField(t, rest)
    ensures Clip(t) == EXT_MARK <==> t >= EXT_MARK
  {
    RoundTripBE24(Clip(t));
    if t >= EXT_MARK {
      RoundTripBE32(t);
      var after := BE32(t) + rest;
      assert after[..4] == BE32(t) && after[4..] == rest;
    } else {
      assert Extension(t) + rest == rest;
    }
  }

  ghost predicate Idle(cs: ChunkStream) {
    cs.bytesRead == 0 && cs.buffer == []
  }

  /** The fields of an eleven-byte header, cut out again. */
  lemma FieldsOf(a: seq<Byte>, b: seq<Byte>, kind: Byte, l: seq<Byte>, after: seq<Byte>)
    requires |a| == |b| == 3 && |l| == 4
    ensures var input := a + b + [kind] + l + after;
      && |input| >= 11 && input[..3] == a && input[3..6] == b && input[6] == kind
      && input[7..11] == l && input[11..] == after
  {
  }

  lemma FullRoundTrip(cs: ChunkStream, u: Unit, rest: seq<Byte>)
    requires u.lead.Full? && u.lead.timestamp < TWO32 && u.lead.streamID < TWO32 && |u.body| < TWO24
    ensures var h := ReadFmt0(cs, LeadBytes(u) + rest);
      h.Header? && h.rest == rest && MemoryOf(h.cs) == Announce(MemoryOf(cs), u) && Idle(h.cs)
  {
    hide BE24, LE32, FromBE24, FromLE32, ReadExtension, Extension, Clip;
    var Full(ts, kind, sid) := u.lead;
    var a, b, e, l := BE24(Clip(ts)), BE24(|u.body|), Extension(ts), LE32(sid);
    var input := LeadBytes(u) + rest;
    assert input == a + b + [kind] + l + (e + rest);
    FieldsOf(a, b, kind, l, e + rest);
    ExtensionRoundTrip(ts, rest);
    RoundTripBE24(|u.body|);
    RoundTripLE32(sid);
  }

  lemma NewLengthRoundTrip(cs: ChunkStream, u: Unit, rest: seq<Byte>)
    requires u.lead.NewLength? && u.lead.delta < TWO32 && |u.body| < TWO24
    ensures var h := ReadFmt1(cs, LeadBytes(u) + rest);
      h.Header? && h.rest == rest && MemoryOf(h.cs) == Announce(MemoryOf(cs), u) && Idle(h.cs)
  {
    hide BE24, FromBE24, ReadExtension, Extension, Clip;
    var NewLength(d, kind) := u.lead;
    var a, b, e := BE24(Clip(d)), BE24(|u.body|), Extension(d);
    var input := LeadBytes(u) + rest;
    assert input == a + (b + ([kind] + (e + rest)));
    assert input[..3] == a && input[3..6] == b && input[6] == kind && input[7..] == e + rest;
    ExtensionRoundTrip(d, rest);
    RoundTripBE24(|u.body|);
  }

  lemma NewDeltaRoundTrip(cs: ChunkStream, u: Unit, rest: seq<Byte>)
    requires u.lead.NewDelta? && u.lead.delta < TWO32 && Idle(cs)
    ensures var h := ReadFmt2(cs, LeadBytes(u) + rest);
      h.Header? && h.rest == rest && MemoryOf(h.cs) == Announce(MemoryOf(cs), u) && Idle(h.cs)
  {
    var d := u.lead.delta;
    var a, e := BE24(Clip(d)), Extension(d);
    var input := LeadBytes(u) + rest;
    assert input == a + (e + rest);
    assert input[..3] == a && input[3..] == e + rest;
    ExtensionRoundTrip(d, rest);
  }

  /** The header of a new message in format 0, 1 or 2, read by a stream between messages. */
  lemma LeadRoundTrip(cs: ChunkStream, u: Unit, rest: seq<Byte>)
    requires Idle(cs) && Sendable(MemoryOf(cs), u) && !u.lead.Repeat?
    ensures var h := ReadHeader(cs, Fmt(u.lead), LeadBytes(u) + rest);
      h.Header? && h.rest == rest && MemoryOf(h.cs) == Announce(MemoryOf(cs), u) && Idle(h.cs)
  {
    hide ReadFmt0, ReadFmt1, ReadFmt2, ReadFmt3, LeadBytes;
    match u.lead {
      case Full(_, _, _) => FullRoundTrip(cs, u, rest);
      case NewLength(_, _) => NewLengthRoundTrip(cs, u, rest);
      case NewDelta(_) => NewDeltaRoundTrip(cs, u, rest);
    }
  }

  /** A format-3 header, with or without the extended field: a new message between messages, and
      no change at all inside one. */
  lemma RepeatRoundTrip(cs: ChunkStream, id: nat, lead: Lead, rest: seq<Byte>)
    requires ValidID(id) && FieldValue(lead) < TWO32
    ensures var input := RepeatHeader(id, MemoryOf(cs), lead) + rest;
      && ReadBasic(input).Basic? && ReadBasic(input).fmt == 3 && ReadBasic(input).csID == id
      && ReadFmt3(cs, ReadBasic(input).rest) == Header(
           if cs.bytesRead > 0 then cs
           else if cs.hasExtendedTS then cs.(timestamp := FieldValue(lead))
           else cs.(timestamp := (cs.timestamp + cs.timestampDelta) % TWO32), rest)
  {
    hide ReadBasic, BasicHeader, BE32;
    if cs.hasExtendedTS {
      var field := BE32(FieldValue(lead));
      assert RepeatHeader(id, MemoryOf(cs), lead) + rest == BasicHeader(3, id) + (field + rest);
      BasicRoundTrip(3, id, field + rest);
      RoundTripBE32(FieldValue(lead));
      assert (field + rest)[..4] == field && (field + rest)[4..] == rest;
    } else {
      BasicRoundTrip(3, id, rest);
    }
  }

  // ----- flows ---------------------------------------------------------------------------------------

  /** A sender on one chunk stream: `sent` bytes of the first message are out, `mem` announces it. */
  datatype Flow = Flow(mem: Memory, sent: nat, units: seq<Unit>)

  ghost predicate SendableAll(mem: Memory, units: seq<Unit>)
    decreases |units|
  {
    units == [] || (Sendable(mem, units[0]) && SendableAll(Announce(mem, units[0]), units[1..]))
  }

  ghost predicate FlowOk(f: Flow) {
    if f.sent == 0 then SendableAll(f.mem, f.units)
    else
      && f.units != [] && f.sent < |f.units[0].body| == f.mem.length < TWO24 && FieldValue(f.units[0].lead) < TWO32
      && SendableAll(f.mem, f.units[1..])
  }

  function Min(a: nat, b: nat): nat {
    if a < b then a else b
  }

  /** The next chunk of a flow and the flow after it. */
  function NextChunk(id: nat, f: Flow, c: nat): seq<Byte>
    requires f.units != [] && f.sent <= |f.units[0].body|
  {
    var u := f.units[0];
    (if f.sent == 0 && !u.lead.Repeat? then BasicHeader(Fmt(u.lead), id) + LeadBytes(u)
     else RepeatHeader(id, f.mem, u.lead))
    + u.body[f.sent..Min(f.sent + c, |u.body|)]
  }

  function MemoryAt(f: Flow): Memory
    requires f.units != []
  {
    if f.sent == 0 then Announce(f.mem, f.units[0]) else f.mem
  }

  predicate Completes(f: Flow, c: nat)
    requires f.units != []
  {
    f.sent + c >= |f.units[0].body|
  }

  function Advance(f: Flow, c: nat): Flow
    requires f.units != []
  {
    if Completes(f, c) then Flow(MemoryAt(f), 0, f.units[1..]) else Flow(MemoryAt(f), f.sent + c, f.units)
  }

  ghost predicate Matches(f: Flow, cs: ChunkStream) {
    && MemoryOf(cs) == f.mem && cs.bytesRead == f.sent
    && (if f.sent == 0 then cs.buffer == []
        else f.units != [] && f.sent <= |f.units[0].body| && cs.buffer == f.units[0].body[..f.sent])
  }

  /** The stream record right after the payload of the next chunk has been appended. */
  ghost predicate Appended(f: Flow, c: nat, cs: ChunkStream)
    requires f.units != []
  {
    var end := Min(f.sent + c, |f.units[0].body|);
    && MemoryOf(cs) == MemoryAt(f) && cs.bytesRead == end && cs.buffer == f.units[0].body[..end]
  }

  lemma PayloadAppended(p: Parser, id: nat, f: Flow, cs: ChunkStream, rest: seq<Byte>)
    requires f.units != [] && f.sent < |f.units[0].body| == cs.messageLength < TWO24 && 1 <= p.chunkSize < TWO24
    requires MemoryOf(cs) == MemoryAt(f) && cs.bytesRead == f.sent && cs.buffer == f.units[0].body[..f.sent]
    ensures var c := p.chunkSize;
      var payload := f.units[0].body[f.sent..Min(f.sent + c, |f.units[0].body|)];
      var r := ReadPayload(p, id, cs, payload + rest);
      && r.Chunk? && r.rest == rest && r.parser == p.(streams := p.streams[id := r.parser.streams[id]])
      && Appended(f, c, r.parser.streams[id])
  {
    hide PayloadSize;
    var c, body := p.chunkSize, f.units[0].body;
    var end := Min(f.sent + c, |body|);
    var payload := body[f.sent..end];
    PayloadSizeOf(cs, c);
    CutAt(payload, rest);
    assert body[..f.sent] + payload == body[..end];
  }

  lemma PayloadSizeOf(cs: ChunkStream, c: nat)
    requires cs.bytesRead <= cs.messageLength < TWO24 && c < TWO24
    ensures PayloadSize(cs, c) == Min(cs.bytesRead + c, cs.messageLength) - cs.bytesRead
  {
  }

  lemma CutAt(a: seq<Byte>, b: seq<Byte>)
    ensures (a + b)[..|a|] == a && (a + b)[|a|..] == b
  {
  }

  /** The parser reads the next chunk of a flow it is in step with, whatever follows on the wire. */
  lemma ReadsNextChunk(p: Parser, id: nat, f: Flow, rest: seq<Byte>)
    requires ValidID(id) && 1 <= p.chunkSize < TWO24 && f.units != []
    requires FlowOk(f) && Matches(f, StreamOf(p, id))
    ensures ReadsOn(p, id, f, rest)
  {
    if f.sent == 0 && !f.units[0].lead.Repeat? {
      ReadsFirstChunk(p, id, f, rest);
    } else {
      ReadsRepeat(p, id, f, rest);
    }
  }

  /** What reading that chunk does. */
  ghost predicate ReadsOn(p: Parser, id: nat, f: Flow, rest: seq<Byte>)
    requires f.units != [] && f.sent <= |f.units[0].body|
  {
    var r := ReadChunk(p, NextChunk(id, f, p.chunkSize) + rest);
    && r.Chunk? && r.csID == id && r.rest == rest
    && r.parser == p.(streams := p.streams[id := r.parser.streams[id]])
    && Appended(f, p.chunkSize, r.parser.streams[id])
  }

  lemma ReadsRepeat(p: Parser, id: nat, f: Flow, rest: seq<Byte>)
    requires ValidID(id) && 1 <= p.chunkSize < TWO24 && f.units != [] && (f.sent > 0 || f.units[0].lead.Repeat?)
    requires FlowOk(f) && Matches(f, StreamOf(p, id))
    ensures ReadsOn(p, id, f, rest)
  {
    hide ReadFmt3, ReadBasic, RepeatHeader, ReadPayload;
    var u, cs := f.units[0], StreamOf(p, id);
    var payload := u.body[f.sent..Min(f.sent + p.chunkSize, |u.body|)];
    var head := RepeatHeader(id, f.mem, u.lead);
    assert NextChunk(id, f, p.chunkSize) + rest == head + (payload + rest);
    RepeatRoundTrip(cs, id, u.lead, payload + rest);
    var h := ReadFmt3(cs, ReadBasic(head + (payload + rest)).rest);
    assert u.body[..0] == [];
    PayloadAppended(p, id, f, h.cs, rest);
  }

  lemma ReadsFirstChunk(p: Parser, id: nat, f: Flow, rest: seq<Byte>)
    requires ValidID(id) && 1 <= p.chunkSize < TWO24 && f.units != [] && f.sent == 0 && !f.units[0].lead.Repeat?
    requires FlowOk(f) && Matches(f, StreamOf(p, id))
    ensures ReadsOn(p, id, f, rest)
  {
    hide ReadFmt0, ReadFmt1, ReadFmt2, ReadFmt3, ReadBasic, BasicHeader, LeadBytes, ReadPayload;
    var u, cs := f.units[0], StreamOf(p, id);
    var payload := u.body[0..Min(p.chunkSize, |u.body|)];
    var after := LeadBytes(u) + (payload + rest);
    assert NextChunk(id, f, p.chunkSize) + rest == BasicHeader(Fmt(u.lead), id) + after;
    BasicRoundTrip(Fmt(u.lead), id, after);
    LeadRoundTrip(cs, u, payload + rest);
    var h := ReadHeader(cs, Fmt(u.lead), after);
    assert u.body[..0] == [];
    PayloadAppended(p, id, f, h.cs, rest);
  }

  /** Taking the message after that chunk: complete exactly when the sender thinks so. */
  lemma TakesWhenComplete(p: Parser, id: nat, f: Flow, c: nat)
    requires f.units != [] && FlowOk(f) && c >= 1 && id in p.streams && Appended(f, c, p.streams[id])
    ensures var (q, m) := TakeMessage(p, id);
      && m == (if Completes(f, c) then Some(MessageOf(MemoryAt(f), f.units[0])) else None)
      && q == p.(streams := p.streams[id := StreamOf(q, id)]) && Matches(Advance(f, c), StreamOf(q, id))
  {
    if Completes(f, c) {
      assert f.units[0].body[..|f.units[0].body|] == f.units[0].body;
    } else {
      assert p.streams[id := p.streams[id]] == p.streams;
    }
  }

  lemma AdvanceOk(f: Flow, c: nat)
    requires f.units != [] && FlowOk(f) && c >= 1
    ensures FlowOk(Advance(f, c))
  {
  }
}
