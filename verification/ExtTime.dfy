/**
 Extended timestamps. The writer leaves the four-byte field off continuation chunks and the
 parser expects it there, so a multi-chunk message with a large timestamp cannot come back.
 A byte count shows it never does, whatever its payload happens to look like.
 */
module ExtTime {
  import opened Bits
  import opened Bytes
  import opened Chunks
  import opened ChunkFlow
  import opened Conversation
  import opened Demux

  /** Bytes needed to carry `x` payload bytes in chunks of `c`, each behind an `h`-byte header. */
  function Weight(x: nat, c: nat, h: nat): nat
    requires c >= 1
  {
    if x == 0 then 0 else if x <= c then x + h else c + h + Weight(x - c, c, h)
  }

  lemma {:induction false} WeightMono(x: nat, y: nat, c: nat, h: nat)
    requires c >= 1 && x <= y
    ensures Weight(x, c, h) <= Weight(y, c, h)
    decreases y
  {
    if x > c { WeightMono(x - c, y - c, c, h); }
  }

  /** One more chunk costs at most its payload and one header. */
  lemma {:induction false} WeightStep(x: nat, n: nat, c: nat, h: nat)
    requires c >= 1 && n <= c
    ensures Weight(x + n, c, h) <= Weight(x, c, h) + n + h
    decreases x
  {
    if x > c { WeightStep(x - c, n, c, h); }
  }

  function HeaderLength(id: nat): nat {
    if id < 64 then 1 else if id < 320 then 2 else 3
  }

  lemma BasicCost(input: seq<Byte>)
    ensures ReadBasic(input).Basic? ==>
      |input| - |ReadBasic(input).rest| >= HeaderLength(ReadBasic(input).csID)
  {
  }

  /** What a message header costs, and what it leaves of the message in progress. */
  lemma HeaderCost(cs: ChunkStream, fmt: nat, input: seq<Byte>)
    requires fmt < 4 && ReadHeader(cs, fmt, input).Header?
    ensures var h := ReadHeader(cs, fmt, input); var used := |input| - |h.rest|;
      && (fmt <= 1 ==> used >= 7 && h.cs.bytesRead == 0)
      && (fmt >= 2 ==> h.cs.bytesRead == cs.bytesRead && (cs.hasExtendedTS ==> used >= 3))
  {
  }

  /** What is left of a body of `len` bytes after `b` of them. */
  function Left(b: nat, len: nat): nat {
    if b < len then len - b else 0
  }

  /** A lower bound on the bytes still needed before a chunk stream can deliver a body of `len`. */
  function Owed(cs: ChunkStream, len: nat, c: nat, h: nat): nat
    requires c >= 1
  {
    if cs.bytesRead == 0 then Weight(len, c, h)
    else Weight(Left(cs.bytesRead, len), c, h) + if cs.hasExtendedTS then 3 else 0
  }

  lemma OwedBound(cs: ChunkStream, len: nat, c: nat, h: nat)
    requires c >= 1
    ensures Owed(cs, len, c, h) <= Weight(len, c, h) + 3
    ensures !cs.hasExtendedTS ==> Owed(cs, len, c, h) <= Weight(len, c, h)
  {
    hide Weight;
    WeightMono(Left(cs.bytesRead, len), len, c, h);
  }

  /** `n` more payload bytes in one chunk. */
  lemma LeftStep(b: nat, n: nat, len: nat, c: nat, h: nat)
    requires c >= 1 && n <= c
    ensures Weight(Left(b, len), c, h) <= Weight(Left(b + n, len), c, h) + n + h
  {
    hide Weight;
    WeightStep(Left(b + n, len), n, c, h);
    WeightMono(Left(b, len), Left(b + n, len) + n, c, h);
  }

  /** The payload of a chunk that continues the message in progress. */
  lemma ContinueCost(cs: ChunkStream, n: nat, spent: nat, len: nat, c: nat, h: nat)
    requires c >= 1 && n <= c && (cs.hasExtendedTS ==> spent >= 3)
    ensures Owed(cs, len, c, h) <= h + spent + n + Weight(Left(cs.bytesRead + n, len), c, h)
  {
    hide Weight;
    LeftStep(cs.bytesRead, n, len, c, h);
  }

  /** The payload of a chunk that starts a new message. */
  lemma RestartCost(cs: ChunkStream, n: nat, spent: nat, len: nat, c: nat, h: nat)
    requires c >= 1 && n <= c && spent >= 7
    ensures Owed(cs, len, c, h) <= h + spent + n + Weight(Left(n, len), c, h)
  {
    hide Weight;
    OwedBound(cs, len, c, h);
    LeftStep(0, n, len, c, h);
  }

  /** One turn of the read loop pays for its progress, and a delivery of `len` bytes pays in full. */
  ghost predicate Pays(p: Parser, id: nat, len: nat, used: int, q: Parser, m: Option<Message>)
    requires p.chunkSize >= 1
  {
    var c, h := p.chunkSize, HeaderLength(id);
    && (m.Some? && |m.value.body| == len ==> Owed(StreamOf(p, id), len, c, h) <= used)
    && Owed(StreamOf(p, id), len, c, h) <= used + Owed(StreamOf(q, id), len, c, h)
  }

  /** The cost of a payload read into `cs`, whose header already cost `spent` past the basic header. */
  lemma PayloadPays(p: Parser, id: nat, cs: ChunkStream, input: seq<Byte>, spent: nat, restarted: bool, len: nat)
    requires ParserInv(p) && StreamInv(cs) && 1 <= p.chunkSize && len >= 1
    requires ReadPayload(p, id, cs, input).Chunk?
    requires restarted ==> cs.bytesRead == 0 && spent >= 7
    requires var before := StreamOf(p, id);
      !restarted ==> cs.bytesRead == before.bytesRead && (before.hasExtendedTS ==> spent >= 3)
    ensures var r := ReadPayload(p, id, cs, input);
      var (q, m) := TakeMessage(r.parser, id);
      Pays(p, id, len, HeaderLength(id) + spent + |input| - |r.rest|, q, m)
  {
    var c, h, before := p.chunkSize, HeaderLength(id), StreamOf(p, id);
    var n := PayloadSize(cs, c);
    assert Weight(0, c, h) == 0;
    PayloadOutcome(p, id, cs, input);
    hide Weight, ReadPayload, TakeMessage, PayloadSize;
    if restarted {
      RestartCost(before, n, spent, len, c, h);
    } else {
      ContinueCost(before, n, spent, len, c, h);
    }
    OwedBound(before, len, c, h);
  }

  /** A payload either completes its message, which is taken, or leaves the stream that much further. */
  lemma PayloadOutcome(p: Parser, id: nat, cs: ChunkStream, input: seq<Byte>)
    requires ParserInv(p) && StreamInv(cs) && ReadPayload(p, id, cs, input).Chunk?
    ensures var r := ReadPayload(p, id, cs, input);
      var (q, m) := TakeMessage(r.parser, id);
      var n := PayloadSize(cs, p.chunkSize);
      && n <= p.chunkSize && |input| - |r.rest| == n
      && (if cs.bytesRead + n >= cs.messageLength
          then m.Some? && |m.value.body| == cs.bytesRead + n && StreamOf(q, id).bytesRead == 0
          else m == None && StreamOf(q, id).bytesRead == cs.bytesRead + n)
  {
    PayloadFits(cs, p.chunkSize);
  }

  lemma TurnPays(p: Parser, input: seq<Byte>, id: nat, len: nat)
    requires ParserInv(p) && 1 <= p.chunkSize && len >= 1
    requires ReadChunk(p, input).Chunk?
    ensures var r := ReadChunk(p, input);
      var (q, m) := TakeMessage(r.parser, r.csID);
      Pays(p, id, len, |input| - |r.rest|, q, if r.csID == id then m else None)
  {
    hide Owed, PayloadSize;
    var b := ReadBasic(input);
    BasicCost(input);
    if b.csID == id {
      var before := StreamOf(p, id);
      HeaderKeepsInv(before, b.fmt, b.rest);
      HeaderCost(before, b.fmt, b.rest);
      hide ReadHeader, ReadBasic;
      var head := ReadHeader(before, b.fmt, b.rest);
      var spent := |input| - |head.rest| - HeaderLength(id);
      PayloadPays(p, id, head.cs, head.rest, spent, b.fmt <= 1, len);
    }
  }

  /** Too few bytes left: chunk stream `id` delivers no body of `len` bytes any more. */
  lemma {:induction false} Undeliverable(p: Parser, input: seq<Byte>, id: nat, len: nat)
    requires ParserInv(p) && 1 <= p.chunkSize && len >= 1
    requires |input| < Owed(StreamOf(p, id), len, p.chunkSize, HeaderLength(id))
    ensures Lacks(Drain(p, input, false).delivered, id, len)
    decreases |input|
  {
    hide Drain, ReadChunk, TakeMessage, Owed, ParserInv;
    var r := ReadChunk(p, input);
    if r.Chunk? {
      TurnPays(p, input, id, len);
      ReadChunkKeepsInv(p, input);
      TakeKeepsInv(r.parser, r.csID);
      var (q, m) := TakeMessage(r.parser, r.csID);
      ChunkSizeKept(p, input);
      Undeliverable(q, r.rest, id, len);
      DrainsOne(p, input);
      var first := if m.Some? then [(r.csID, m.value)] else [];
      assert Lacks(first, id, len);
      LacksBoth(first, Drain(q, r.rest, false).delivered, id, len);
    } else {
      FailsAtOnce(p, input);
    }
  }

  lemma FailsAtOnce(p: Parser, input: seq<Byte>)
    requires ReadChunk(p, input).Fail?
    ensures Drain(p, input, false).delivered == []
  {
  }

  lemma LacksBoth(a: seq<(nat, Message)>, b: seq<(nat, Message)>, id: nat, len: nat)
    requires Lacks(a, id, len) && Lacks(b, id, len)
    ensures Lacks(a + b, id, len)
  {
  }

  ghost predicate Lacks(ds: seq<(nat, Message)>, id: nat, len: nat) {
    forall i :: 0 <= i < |ds| && ds[i].0 == id ==> |ds[i].1.body| != len
  }

  lemma ChunkSizeKept(p: Parser, input: seq<Byte>)
    ensures ReadChunk(p, input).parser.chunkSize == p.chunkSize
    ensures forall id :: TakeMessage(ReadChunk(p, input).parser, id).0.chunkSize == p.chunkSize
  {
  }

  // ----- the writer's side -----------------------------------------------------------------------------

  lemma {:induction false} ContinuationsWeigh(id: nat, m: Message, off: nat, c: nat)
    requires c >= 1 && off > 0
    ensures |WriteFrom(id, m, off, c)| == Weight(Left(off, |m.body|), c, HeaderLength(id))
    decreases |m.body| - off
  {
    if off < |m.body| {
      ContinuationsWeigh(id, m, off + c, c);
    }
  }

  /** The first chunk is read as sent; the stream now expects extended fields. */
  lemma ReadsExtendedStart(id: nat, m: Message, c: nat, rest: seq<Byte>) returns (q: Parser)
    requires ValidID(id) && 1 <= c < |m.body| < TWO24 && EXT_MARK <= m.timestamp < TWO32 && m.streamID < TWO32
    ensures var p := Parser(map[], c);
      ParserInv(q) && q.chunkSize == c && StreamOf(q, id).bytesRead == c && StreamOf(q, id).hasExtendedTS
      && Drain(p, ChunkAt(id, m, 0, c) + rest, false).delivered == Drain(q, rest, false).delivered
  {
    var p, u := Parser(map[], c), UnitOf(m);
    var f := Flow(BLANK, 0, [u]);
    var payload := m.body[0..c];
    var after := LeadBytes(u) + (payload + rest);
    var input := ChunkAt(id, m, 0, c) + rest;
    assert input == BasicHeader(0, id) + after;
    BasicRoundTrip(0, id, after);
    FullRoundTrip(FRESH, u, payload + rest);
    var head := ReadFmt0(FRESH, after);
    PayloadAppended(p, id, f, head.cs, rest);
    ReadChunkKeepsInv(p, input);
    q := ReadChunk(p, input).parser;
    assert TakeMessage(q, id) == (q, None);
  }

  predicate Addressable(d: (nat, Message)) {
    ValidID(d.0) && |d.1.body| < TWO24 && d.1.timestamp < TWO32 && d.1.streamID < TWO32
  }

  /** Whatever the bytes, what is delivered has an identifier, a length and a timestamp the headers
      can say. */
  lemma {:induction false} OnlyAddressable(p: Parser, input: seq<Byte>, inband: bool)
    requires ParserInv(p)
    ensures forall d :: d in Drain(p, input, inband).delivered ==> Addressable(d)
    decreases |input|
  {
    hide NextSize;
    var r := ReadChunk(p, input);
    ReadChunkKeepsInv(p, input);
    if r.Chunk? {
      TakeKeepsInv(r.parser, r.csID);
      IdentifierInRange(p, input);
      var (q, m) := TakeMessage(r.parser, r.csID);
      TakenIsAddressable(r.parser, r.csID);
      if m.Some? && inband {
        NextSizeKeepsInv(q, m.value);
        OnlyAddressable(q.(chunkSize := NextSize(q.chunkSize, m.value)), r.rest, inband);
      } else {
        OnlyAddressable(q, r.rest, inband);
      }
    }
  }

  lemma TakenIsAddressable(p: Parser, id: nat)
    requires ParserInv(p) && ValidID(id)
    ensures var m := TakeMessage(p, id).1; m.Some? ==> Addressable((id, m.value))
  {
    TakeKeepsInv(p, id);
  }

  lemma NextSizeKeepsInv(p: Parser, m: Message)
    requires ParserInv(p)
    ensures ParserInv(p.(chunkSize := NextSize(p.chunkSize, m)))
  {
  }

  lemma IdentifierInRange(p: Parser, input: seq<Byte>)
    requires ReadChunk(p, input).Chunk?
    ensures ValidID(ReadChunk(p, input).csID)
  {
  }

  /** For every message, identifier and chunk size: it comes back from its own written chunks iff
      the identifier and the length can be said, there is a body, and either the timestamp needs no
      extension or the body fits one chunk. */
  lemma ReadsBackIff(id: nat, m: Message, c: nat)
    requires m.timestamp < TWO32 && m.streamID < TWO32 && 1 <= c < TWO24
    ensures Drain(Parser(map[], c), Written(id, m, c), false).delivered == [(id, m)]
      <==> ValidID(id) && 1 <= |m.body| < TWO24 && (m.timestamp < EXT_MARK || |m.body| <= c)
  {
    var p := Parser(map[], c);
    if !ValidID(id) || |m.body| >= TWO24 {
      OnlyAddressable(p, Written(id, m, c), false);
      assert (id, m) in [(id, m)];
    } else if |m.body| == 0 {
      assert Written(id, m, c) == [];
    } else if m.timestamp < EXT_MARK || |m.body| <= c {
      StartsReading(p, id, m);
      var next := DrainMessage(p, id, BLANK, m, 0, [], false);
      assert WriteFrom(id, m, 0, c) + [] == Written(id, m, c);
      assert Drain(next, [], false).delivered == [];
    } else {
      NeverDelivered(id, m, c);
    }
  }

  lemma NeverDelivered(id: nat, m: Message, c: nat)
    requires ValidID(id) && 1 <= c < |m.body| < TWO24 && EXT_MARK <= m.timestamp < TWO32 && m.streamID < TWO32
    ensures (id, m) !in Drain(Parser(map[], c), Written(id, m, c), false).delivered
  {
    var rest := WriteFrom(id, m, c, c);
    var q := ReadsExtendedStart(id, m, c, rest);
    ContinuationsWeigh(id, m, c, c);
    hide Drain, WriteFrom, ChunkAt;
    Undeliverable(q, rest, id, |m.body|);
    assert Written(id, m, c) == ChunkAt(id, m, 0, c) + rest by { WrittenSplits(id, m, c); }
  }

  lemma WrittenSplits(id: nat, m: Message, c: nat)
    requires 1 <= c < |m.body|
    ensures Written(id, m, c) == ChunkAt(id, m, 0, c) + WriteFrom(id, m, c, c)
  {
  }
}
