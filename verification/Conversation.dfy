/** The server's chunk writer, and what reading its output back gives: interleaved writers are
    separated, and a writer that changes its chunk size on the way is followed. */
module Conversation {
  import opened Bits
  import opened Bytes
  import opened Chunks
  import opened ChunkFlow
  import opened Demux

  // ----- the writer ------------------------------------------------------------------------------

  function UnitOf(m: Message): Unit {
    Unit(Full(m.timestamp, m.kind, m.streamID), m.body)
  }

  /** The chunk of `m` that starts at byte `off` of its body. */
  function ChunkAt(id: nat, m: Message, off: nat, c: nat): seq<Byte>
    requires off < |m.body|
  {
    NextChunk(id, Flow(BLANK, off, [UnitOf(m)]), c)
  }

  /** The chunks of `m` from byte `off` on, and their bytes end to end. */
  function ChunkList(id: nat, m: Message, off: nat, c: nat): seq<seq<Byte>>
    requires c >= 1
    decreases |m.body| - off
  {
    if off >= |m.body| then [] else [ChunkAt(id, m, off, c)] + ChunkList(id, m, off + c, c)
  }

  function WriteFrom(id: nat, m: Message, off: nat, c: nat): seq<Byte>
    requires c >= 1
    decreases |m.body| - off
  {
    if off >= |m.body| then [] else ChunkAt(id, m, off, c) + WriteFrom(id, m, off + c, c)
  }

  function Written(id: nat, m: Message, c: nat): seq<Byte>
    requires c >= 1
  {
    WriteFrom(id, m, 0, c)
  }

  /** The loop over the body: a format-0 chunk, then format-3 continuations. */
  method WriteChunk(id: nat, m: Message, chunkSize: nat) returns (out: seq<Byte>)
    requires chunkSize >= 1 && |m.body| + chunkSize < TWO32
    ensures out == Written(id, m, chunkSize)
  {
    var offset := 0;
    out := [];
    while offset < |m.body|
      invariant offset <= |m.body|
      invariant out + WriteFrom(id, m, offset, chunkSize) == Written(id, m, chunkSize)
    {
      WroteChunk(out, id, m, offset, chunkSize);
      var chunk, next := OneChunk(id, m, offset, chunkSize);
      out := out + chunk;
      offset := next;
    }
    assert out + [] == out;
  }

  /** One turn of the writer's offset, and `k` turns, in uint32 arithmetic. */
  function NextOffset(off: nat, len: nat, chunkSize: nat): nat {
    if off >= len then off
    else (off + if (off + chunkSize) % TWO32 > len then len - off else chunkSize) % TWO32
  }

  function OffsetAfter(k: nat, len: nat, chunkSize: nat): nat {
    if k == 0 then 0 else NextOffset(OffsetAfter(k - 1, len, chunkSize), len, chunkSize)
  }

  lemma OffsetStep(off: nat, len: nat, chunkSize: nat)
    requires off <= len && len + chunkSize < TWO32
    ensures NextOffset(off, len, chunkSize) == Min(off + chunkSize, len)
  {
  }

  lemma {:induction false} OffsetGrows(k: nat, len: nat, chunkSize: nat)
    requires len + chunkSize < TWO32
    ensures OffsetAfter(k, len, chunkSize) == Min(k * chunkSize, len)
  {
    hide NextOffset;
    if k > 0 {
      OffsetGrows(k - 1, len, chunkSize);
      OffsetStep(OffsetAfter(k - 1, len, chunkSize), len, chunkSize);
      OneMore(k, chunkSize);
    }
  }

  lemma OneMore(k: nat, c: nat)
    requires k > 0
    ensures k * c == (k - 1) * c + c && (k - 1) * c >= 0
  {
  }

  lemma Reaches(len: nat, chunkSize: nat)
    requires chunkSize >= 1
    ensures len * chunkSize >= len
  {
  }

  /** Short of overflow, the writer's loop ends iff the chunk size is positive or the body is empty. */
  lemma WriterEndsIff(len: nat, chunkSize: nat)
    requires len + chunkSize < TWO32
    ensures (exists k :: OffsetAfter(k, len, chunkSize) >= len) <==> chunkSize >= 1 || len == 0
  {
    if chunkSize >= 1 {
      OffsetGrows(len, len, chunkSize);
      Reaches(len, chunkSize);
      assert OffsetAfter(len, len, chunkSize) >= len;
    } else if len == 0 {
      assert OffsetAfter(0, len, chunkSize) >= len;
    } else {
      forall k ensures OffsetAfter(k, len, chunkSize) < len { OffsetGrows(k, len, 0); }
    }
  }

  /** One turn of that loop. */
  method OneChunk(id: nat, m: Message, offset: nat, chunkSize: nat) returns (chunk: seq<Byte>, next: nat)
    requires chunkSize >= 1 && offset < |m.body| && |m.body| + chunkSize < TWO32
    ensures chunk == ChunkAt(id, m, offset, chunkSize) && next == Min(offset + chunkSize, |m.body|)
  {
    chunk := ChunkHeader(id, m, offset);
    var chunkLen := chunkSize;
    if (offset + chunkLen) % TWO32 > |m.body| {
      chunkLen := |m.body| - offset;
    }
    next := offset + chunkLen;
    chunk := chunk + m.body[offset..next];
  }

  /** Basic header, and on the first chunk the eleven-byte header with its extension. */
  method ChunkHeader(id: nat, m: Message, offset: nat) returns (header: seq<Byte>)
    ensures header == if offset == 0 then BasicHeader(0, id) + LeadBytes(UnitOf(m)) else BasicHeader(3, id)
  {
    var fmt := if offset == 0 then 0 else 3;
    header := BasicHeader(fmt, id);
    if fmt == 0 {
      var ts := m.timestamp;
      if ts >= EXT_MARK {
        ts := EXT_MARK;
      }
      var fields := BE24(ts) + BE24(|m.body|) + [m.kind] + LE32(m.streamID);
      if m.timestamp >= EXT_MARK {
        fields := fields + BE32(m.timestamp);
      }
      assert fields == LeadBytes(UnitOf(m));
      header := header + fields;
    }
  }

  lemma WroteChunk(out: seq<Byte>, id: nat, m: Message, at: nat, c: nat)
    requires at < |m.body| && c >= 1
    ensures out + ChunkAt(id, m, at, c) + WriteFrom(id, m, Min(at + c, |m.body|), c) == out + WriteFrom(id, m, at, c)
  {
    var rest := WriteFrom(id, m, at + c, c);
    assert rest == WriteFrom(id, m, Min(at + c, |m.body|), c);
    assert out + ChunkAt(id, m, at, c) + rest == out + (ChunkAt(id, m, at, c) + rest);
  }

  function Join(chunks: seq<seq<Byte>>): seq<Byte>
    decreases |chunks|
  {
    if chunks == [] then [] else chunks[0] + Join(chunks[1..])
  }

  lemma {:induction false} WrittenIsChunks(id: nat, m: Message, off: nat, c: nat)
    requires c >= 1
    ensures Join(ChunkList(id, m, off, c)) == WriteFrom(id, m, off, c)
    decreases |m.body| - off
  {
    if off < |m.body| {
      WrittenIsChunks(id, m, off + c, c);
      var l := ChunkList(id, m, off, c);
      assert l[1..] == ChunkList(id, m, off + c, c);
    }
  }

  // ----- interleaved writers ------------------------------------------------------------------------

  /** A message this writer can send so that the parser gets it back, at chunk size `c`. */
  predicate Writable(m: Message, c: nat) {
    && 1 <= |m.body| < TWO24 && m.timestamp < TWO32 && m.streamID < TWO32
    && (m.timestamp < EXT_MARK || |m.body| <= c)
  }

  /** The chunks of a list of messages on one chunk stream, as successive `WriteChunk` calls emit them. */
  function ChunksOf(id: nat, ms: seq<Message>, c: nat): seq<seq<Byte>>
    requires c >= 1
    decreases |ms|
  {
    if ms == [] then [] else ChunkList(id, ms[0], 0, c) + ChunksOf(id, ms[1..], c)
  }

  function Units(ms: seq<Message>): seq<Unit> {
    seq(|ms|, i requires 0 <= i < |ms| => UnitOf(ms[i]))
  }

  lemma {:induction false} UnitsSendable(mem: Memory, ms: seq<Message>, c: nat)
    requires forall i :: 0 <= i < |ms| ==> Writable(ms[i], c)
    ensures SendableAll(mem, Units(ms)) && Expected(mem, Units(ms)) == ms
    decreases |ms|
  {
    if ms != [] {
      assert Units(ms)[1..] == Units(ms[1..]);
      UnitsSendable(Announce(mem, UnitOf(ms[0])), ms[1..], c);
      assert [ms[0]] + ms[1..] == ms;
    }
  }

  /** A flow that starts at byte `off` of `m` sends exactly the chunks the writer emits from there. */
  lemma {:induction false} RemainingIsChunkList(id: nat, mem: Memory, m: Message, off: nat, us: seq<Unit>, c: nat)
    requires c >= 1 && off < |m.body| && (m.timestamp < EXT_MARK || |m.body| <= c) && (off > 0 ==> !mem.ext)
    ensures var last := if off == 0 then Announce(mem, UnitOf(m)) else mem;
      Remaining(id, Flow(mem, off, [UnitOf(m)] + us), c)
          == ChunkList(id, m, off, c) + Remaining(id, Flow(last, 0, us), c)
    decreases |m.body| - off
  {
    hide NextChunk, ChunkAt, Announce;
    var f := Flow(mem, off, [UnitOf(m)] + us);
    var last := if off == 0 then Announce(mem, UnitOf(m)) else mem;
    var first, tail := ChunkAt(id, m, off, c), Remaining(id, Flow(last, 0, us), c);
    FlowSendsChunk(id, mem, m, off, us, c);
    if Completes(f, c) {
      assert f.units[1..] == us;
      assert ChunkList(id, m, off, c) == [first];
    } else {
      RemainingIsChunkList(id, last, m, off + c, us, c);
      var more := ChunkList(id, m, off + c, c);
      assert [first] + (more + tail) == ([first] + more) + tail;
    }
  }

  /** The next chunk of such a flow is the writer's, and only a short body is left extended. */
  lemma FlowSendsChunk(id: nat, mem: Memory, m: Message, off: nat, us: seq<Unit>, c: nat)
    requires c >= 1 && off < |m.body| && (m.timestamp < EXT_MARK || |m.body| <= c) && (off > 0 ==> !mem.ext)
    ensures NextChunk(id, Flow(mem, off, [UnitOf(m)] + us), c) == ChunkAt(id, m, off, c)
    ensures off == 0 && c < |m.body| ==> !Announce(mem, UnitOf(m)).ext
  {
  }

  lemma {:induction false} RemainingIsChunks(id: nat, mem: Memory, ms: seq<Message>, c: nat)
    requires c >= 1 && forall i :: 0 <= i < |ms| ==> Writable(ms[i], c)
    ensures Remaining(id, Flow(mem, 0, Units(ms)), c) == ChunksOf(id, ms, c)
    decreases |ms|
  {
    if ms != [] {
      var mem' := Announce(mem, UnitOf(ms[0]));
      assert Units(ms) == [UnitOf(ms[0])] + Units(ms[1..]);
      RemainingIsChunkList(id, mem, ms[0], 0, Units(ms[1..]), c);
      RemainingIsChunks(id, mem', ms[1..], c);
    }
  }

  /** For every chunk-level interleaving of writers on distinct chunk streams, each stream yields
      exactly its messages: type, timestamp, stream, body, in order. */
  lemma Demultiplex(c: nat, sent: map<nat, seq<Message>>, il: seq<(nat, seq<Byte>)>, id: nat)
    requires 1 <= c < TWO24 && id in sent
    requires forall j :: j in sent ==> ValidID(j) && forall i :: 0 <= i < |sent[j]| ==> Writable(sent[j][i], c)
    requires forall i :: 0 <= i < |il| ==> il[i].0 in sent
    requires forall j :: j in sent ==> Project(il, j) == ChunksOf(j, sent[j], c)
    ensures var t := Drain(Parser(map[], c), Wire(il), false);
      t.error == EOF && Project(t.delivered, id) == sent[id]
  {
    hide Drain, Wire, Remaining, ChunksOf, FlowOk, Matches, ExpectedOf, Project, Units, StreamOf;
    var flows := map j | j in sent :: Flow(BLANK, 0, Units(sent[j]));
    forall j | j in flows
      ensures ValidID(j) && FlowOk(flows[j]) && Matches(flows[j], StreamOf(Parser(map[], c), j))
      ensures Project(il, j) == Remaining(j, flows[j], c) && ExpectedOf(flows[j]) == sent[j]
    {
      WriterIsFlow(j, sent[j], c);
    }
    DemuxFlows(Parser(map[], c), flows, il, id);
  }

  /** A writer on a chunk stream of its own is a flow from the start. */
  lemma WriterIsFlow(id: nat, ms: seq<Message>, c: nat)
    requires c >= 1 && forall i :: 0 <= i < |ms| ==> Writable(ms[i], c)
    ensures var f := Flow(BLANK, 0, Units(ms));
      && FlowOk(f) && Matches(f, StreamOf(Parser(map[], c), id))
      && Remaining(id, f, c) == ChunksOf(id, ms, c) && ExpectedOf(f) == ms
  {
    hide Remaining, ChunksOf, Units, Writable;
    UnitsSendable(BLANK, ms, c);
    RemainingIsChunks(id, BLANK, ms, c);
  }

  // ----- one writer, changing its chunk size on the way ---------------------------------------------------

  /** The running totals of a message body as chunks arrive: min(c, L), min(2c, L), ... */
  function Totals(off: nat, len: nat, c: nat): seq<nat>
    requires c >= 1
    decreases len - off
  {
    if off >= len then [] else [Min(off + c, len)] + Totals(off + c, len, c)
  }

  /** The session writes each message at the size in force, and switches after Set Chunk Size. */
  function WrittenAll(ms: seq<(nat, Message)>, c: nat): seq<Byte>
    requires c >= 1 && SizesPositive(ms, c)
    decreases |ms|
  {
    if ms == [] then []
    else Written(ms[0].0, ms[0].1, c) + WrittenAll(ms[1..], NextSize(c, ms[0].1))
  }

  predicate SizesPositive(ms: seq<(nat, Message)>, c: nat)
    decreases |ms|
  {
    ms == [] || (NextSize(c, ms[0].1) >= 1 && SizesPositive(ms[1..], NextSize(c, ms[0].1)))
  }

  predicate AllWritable(ms: seq<(nat, Message)>, c: nat)
    decreases |ms|
  {
    ms == [] || (ValidID(ms[0].0) && Writable(ms[0].1, c) && AllWritable(ms[1..], NextSize(c, ms[0].1)))
  }

  ghost predicate Quiet(p: Parser) {
    && 1 <= p.chunkSize < TWO24
    && forall id :: id in p.streams ==> Idle(p.streams[id])
  }

  lemma NextSizeBound(c: nat, m: Message)
    requires c < TWO24
    ensures NextSize(c, m) < TWO24
  {
  }

  /** What one turn of the read loop contributes to the trace. */
  ghost predicate StepDrains(p: Parser, id: nat, f: Flow, tail: seq<Byte>, inband: bool, next: Parser)
    requires f.units != [] && f.sent < |f.units[0].body|
  {
    var c, m := p.chunkSize, MessageOf(MemoryAt(f), f.units[0]);
    var t, t' := Drain(p, NextChunk(id, f, c) + tail, inband), Drain(next, tail, inband);
    && next.streams == p.streams[id := StreamOf(next, id)] && Matches(Advance(f, c), StreamOf(next, id))
    && next.chunkSize == (if Completes(f, c) && inband then NextSize(c, m) else c)
    && t == Trace((if Completes(f, c) then [(id, m)] else []) + t'.delivered,
                  [Min(f.sent + c, |f.units[0].body|)] + t'.counts, t'.parser, t'.error)
  }

  lemma DrainStep(p: Parser, id: nat, f: Flow, tail: seq<Byte>, inband: bool) returns (next: Parser)
    requires ValidID(id) && 1 <= p.chunkSize < TWO24 && f.units != [] && f.sent < |f.units[0].body|
    requires FlowOk(f) && Matches(f, StreamOf(p, id))
    ensures StepDrains(p, id, f, tail, inband, next)
  {
    OneTurn(p, id, f, tail);
    var r := ReadChunk(p, NextChunk(id, f, p.chunkSize) + tail);
    var (q, m) := TakeMessage(r.parser, id);
    next := if m.Some? && inband then q.(chunkSize := NextSize(q.chunkSize, m.value)) else q;
  }

  /** From byte `off` of `m` on: it is delivered once, its totals are counted, then `next` reads on. */
  ghost predicate Delivers(p: Parser, id: nat, m: Message, off: nat, tail: seq<Byte>, inband: bool, next: Parser)
    requires p.chunkSize >= 1
  {
    var c := p.chunkSize;
    var t, t' := Drain(p, WriteFrom(id, m, off, c) + tail, inband), Drain(next, tail, inband);
    && next.streams == p.streams[id := StreamOf(next, id)] && Idle(StreamOf(next, id))
    && next.chunkSize == (if inband then NextSize(c, m) else c)
    && t == Trace([(id, m)] + t'.delivered, Totals(off, |m.body|, c) + t'.counts, t'.parser, t'.error)
  }

  /** The parser is in step with a writer that has sent `off` bytes of `m`. */
  ghost predicate Reading(p: Parser, id: nat, mem: Memory, m: Message, off: nat) {
    && ValidID(id) && 1 <= p.chunkSize < TWO24 && off < |m.body| && Writable(m, p.chunkSize)
    && FlowOk(Flow(mem, off, [UnitOf(m)])) && Matches(Flow(mem, off, [UnitOf(m)]), StreamOf(p, id))
    && (off > 0 ==> MessageOf(mem, UnitOf(m)) == m && !mem.ext)
  }

  lemma DrainLast(p: Parser, id: nat, mem: Memory, m: Message, off: nat, tail: seq<Byte>, inband: bool)
    returns (next: Parser)
    requires Reading(p, id, mem, m, off) && off + p.chunkSize >= |m.body|
    ensures Delivers(p, id, m, off, tail, inband, next)
  {
    var c, f := p.chunkSize, Flow(mem, off, [UnitOf(m)]);
    NextIsChunkAt(id, mem, m, off, tail, c);
    hide ReadChunk, TakeMessage, NextChunk, NextSize, FlowOk, Writable;
    assert WriteFrom(id, m, off + c, c) + tail == tail;
    next := DrainStep(p, id, f, tail, inband);
    assert Totals(off, |m.body|, c) == [|m.body|];
  }

  /** One continuation-bound chunk read: `q` is in step `chunkSize` bytes further on. */
  ghost predicate TurnsInto(p: Parser, id: nat, m: Message, off: nat, tail: seq<Byte>, inband: bool, q: Parser)
    requires p.chunkSize >= 1
  {
    var c := p.chunkSize;
    var t, t' := Drain(p, WriteFrom(id, m, off, c) + tail, inband),
        Drain(q, WriteFrom(id, m, off + c, c) + tail, inband);
    && q.chunkSize == c && q.streams == p.streams[id := StreamOf(q, id)]
    && t == Trace(t'.delivered, [off + c] + t'.counts, t'.parser, t'.error)
  }

  lemma DrainOn(p: Parser, id: nat, mem: Memory, m: Message, off: nat, tail: seq<Byte>, inband: bool)
    returns (q: Parser)
    requires Reading(p, id, mem, m, off) && off + p.chunkSize < |m.body|
    ensures TurnsInto(p, id, m, off, tail, inband, q)
    ensures Matches(Advance(Flow(mem, off, [UnitOf(m)]), p.chunkSize), StreamOf(q, id))
  {
    hide Drain, WriteFrom, NextChunk, StepDrains;
    var c := p.chunkSize;
    q := DrainStep(p, id, Flow(mem, off, [UnitOf(m)]), WriteFrom(id, m, off + c, c) + tail, inband);
    StepTurns(p, id, mem, m, off, tail, inband, q);
  }

  lemma StepTurns(p: Parser, id: nat, mem: Memory, m: Message, off: nat, tail: seq<Byte>, inband: bool, q: Parser)
    requires p.chunkSize >= 1 && off + p.chunkSize < |m.body| && (off > 0 ==> !mem.ext)
    requires StepDrains(p, id, Flow(mem, off, [UnitOf(m)]),
        WriteFrom(id, m, off + p.chunkSize, p.chunkSize) + tail, inband, q)
    ensures TurnsInto(p, id, m, off, tail, inband, q)
    ensures Matches(Advance(Flow(mem, off, [UnitOf(m)]), p.chunkSize), StreamOf(q, id))
  {
    hide Drain, WriteFrom, NextChunk, NextSize, Matches;
    NextIsChunkAt(id, mem, m, off, tail, p.chunkSize);
    var t' := Drain(q, WriteFrom(id, m, off + p.chunkSize, p.chunkSize) + tail, inband);
    assert [] + t'.delivered == t'.delivered;
  }

  lemma StillReading(p: Parser, id: nat, mem: Memory, m: Message, off: nat, q: Parser)
    requires Reading(p, id, mem, m, off) && off + p.chunkSize < |m.body| && q.chunkSize == p.chunkSize
    requires Matches(Advance(Flow(mem, off, [UnitOf(m)]), p.chunkSize), StreamOf(q, id))
    ensures Reading(q, id, MemoryAt(Flow(mem, off, [UnitOf(m)])), m, off + p.chunkSize)
  {
    AdvanceOk(Flow(mem, off, [UnitOf(m)]), p.chunkSize);
  }

  lemma DeliversEarlier(p: Parser, q: Parser, id: nat, m: Message, off: nat, tail: seq<Byte>,
                          inband: bool, next: Parser)
    requires 1 <= p.chunkSize == q.chunkSize && off + p.chunkSize < |m.body|
    requires TurnsInto(p, id, m, off, tail, inband, q)
    requires Delivers(q, id, m, off + p.chunkSize, tail, inband, next)
    ensures Delivers(p, id, m, off, tail, inband, next)
  {
    hide Drain, NextSize, WriteFrom;
    MoreTotals(Drain(next, tail, inband), off, |m.body|, p.chunkSize);
  }

  /** Reading one written message. */
  lemma {:induction false} DrainMessage(p: Parser, id: nat, mem: Memory, m: Message, off: nat,
                                        tail: seq<Byte>, inband: bool) returns (next: Parser)
    requires Reading(p, id, mem, m, off)
    ensures Delivers(p, id, m, off, tail, inband, next)
    decreases |m.body| - off
  {
    hide Drain, WriteFrom, Matches, FlowOk;
    if off + p.chunkSize >= |m.body| {
      next := DrainLast(p, id, mem, m, off, tail, inband);
    } else {
      var q := DrainOn(p, id, mem, m, off, tail, inband);
      StillReading(p, id, mem, m, off, q);
      next := DrainMessage(q, id, MemoryAt(Flow(mem, off, [UnitOf(m)])), m, off + p.chunkSize, tail, inband);
      DeliversEarlier(p, q, id, m, off, tail, inband, next);
    }
  }

  lemma NextIsChunkAt(id: nat, mem: Memory, m: Message, off: nat, tail: seq<Byte>, c: nat)
    requires off < |m.body| && c >= 1 && (off > 0 ==> !mem.ext)
    ensures WriteFrom(id, m, off, c) + tail
      == NextChunk(id, Flow(mem, off, [UnitOf(m)]), c) + (WriteFrom(id, m, off + c, c) + tail)
  {
    hide NextChunk, ChunkAt;
    var first, more := ChunkAt(id, m, off, c), WriteFrom(id, m, off + c, c);
    AloneSendsChunk(id, mem, m, off, c);
    assert first + more + tail == first + (more + tail);
  }

  lemma AloneSendsChunk(id: nat, mem: Memory, m: Message, off: nat, c: nat)
    requires off < |m.body| && (off > 0 ==> !mem.ext)
    ensures NextChunk(id, Flow(mem, off, [UnitOf(m)]), c) == ChunkAt(id, m, off, c)
  {
  }

  lemma MoreTotals(t: Trace, off: nat, len: nat, c: nat)
    requires c >= 1 && off + c < len
    ensures [off + c] + (Totals(off + c, len, c) + t.counts) == Totals(off, len, c) + t.counts
  {
  }

  /** The first of these messages comes off the wire; what is left is read by `next`. */
  ghost predicate FirstDrained(p: Parser, ms: seq<(nat, Message)>, next: Parser)
    requires ms != [] && p.chunkSize >= 1 && SizesPositive(ms, p.chunkSize)
  {
    && Quiet(next) && AllWritable(ms[1..], next.chunkSize) && SizesPositive(ms[1..], next.chunkSize)
    && var t := Drain(p, WrittenAll(ms, p.chunkSize), true);
       var t' := Drain(next, WrittenAll(ms[1..], next.chunkSize), true);
       t.delivered == [ms[0]] + t'.delivered && t.error == t'.error
  }

  lemma DrainFirst(p: Parser, ms: seq<(nat, Message)>) returns (next: Parser)
    requires Quiet(p) && AllWritable(ms, p.chunkSize) && SizesPositive(ms, p.chunkSize) && ms != []
    ensures FirstDrained(p, ms, next)
  {
    hide Drain, WriteFrom, NextSize, Reading, Writable, Totals;
    var c, id, m := p.chunkSize, ms[0].0, ms[0].1;
    var rest := WrittenAll(ms[1..], NextSize(c, m));
    StartsReading(p, id, m);
    NextSizeBound(c, m);
    next := DrainMessage(p, id, MemoryOf(StreamOf(p, id)), m, 0, rest, true);
  }

  lemma NothingToDrain(p: Parser)
    ensures Drain(p, [], true).error == EOF && Drain(p, [], true).delivered == []
  {
  }

  /** A writer that switches size right after each Set Chunk Size is read back message for message. */
  lemma {:induction false} FollowsSizeChanges(p: Parser, ms: seq<(nat, Message)>)
    requires Quiet(p) && AllWritable(ms, p.chunkSize) && SizesPositive(ms, p.chunkSize)
    ensures var t := Drain(p, WrittenAll(ms, p.chunkSize), true);
      t.error == EOF && t.delivered == ms
    decreases |ms|
  {
    hide Drain, Written, NextSize, Writable, Quiet, AllWritable;
    QuietSize(p);
    if ms == [] {
      NothingToDrain(p);
    } else {
      var next := DrainFirst(p, ms);
      QuietSize(next);
      FollowsSizeChanges(next, ms[1..]);
      assert [ms[0]] + ms[1..] == ms;
    }
  }

  lemma QuietSize(p: Parser)
    requires Quiet(p)
    ensures 1 <= p.chunkSize < TWO24
  {
  }

  lemma StartsReading(p: Parser, id: nat, m: Message)
    requires Quiet(p) && ValidID(id) && Writable(m, p.chunkSize)
    ensures Reading(p, id, MemoryOf(StreamOf(p, id)), m, 0)
  {
    var mem := MemoryOf(StreamOf(p, id));
    assert SendableAll(Announce(mem, UnitOf(m)), [UnitOf(m)][1..]);
  }

  /** The sizes themselves travel: what is created is what is parsed, up to the maximum and not above. */
  lemma SetChunkSizeRoundTrip(size: nat)
    requires size < TWO32
    ensures ParseSetChunkSize(CreateSetChunkSize(size)) == if size <= MAX_CHUNK_SIZE then Some(size) else None
  {
    RoundTripBE32(size);
    assert BE32(size)[..4] == BE32(size);
  }
}
