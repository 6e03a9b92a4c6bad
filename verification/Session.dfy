/**
 Acknowledgement accounting and the server's message loop: what is counted for each chunk,
 when an acknowledgement goes out, and that the counters never wrap whatever bytes arrive.
 */
module Sessions {
  import opened Bits
  import opened Bytes
  import opened Chunks
  import opened ChunkFlow
  import opened Conversation
  import opened ChunkParsers

  const ACK_RESET := 0xf000_0000
  const TYPE_ACK := 3
  const CONTROL_STREAM := 2

  /** The window we announced, the bytes counted, and the count last acknowledged. */
  datatype Ack = Ack(window: nat, total: nat, last: nat)

  datatype Recorded = Recorded(ack: Ack, sent: bool, failed: bool)

  /** One call of the counter, in uint32 arithmetic; `sendOk` is whether the connection took the message. */
  function Record(a: Ack, n: nat, sendOk: bool): Recorded {
    var sum := (a.total + n) % TWO32;
    var b := if sum >= ACK_RESET then a.(total := 0, last := 0) else a.(total := sum);
    if b.window > 0 && (b.total - b.last) % TWO32 >= b.window then
      if sendOk then Recorded(b.(last := b.total), true, false) else Recorded(b, false, true)
    else Recorded(b, false, false)
  }

  ghost predicate AckInv(a: Ack) {
    a.last <= a.total < ACK_RESET
  }

  /** What is unacknowledged once `n` more bytes are counted; a reset forgets it. */
  function Outstanding(a: Ack, n: nat): int {
    if a.total + n >= ACK_RESET then 0 else a.total + n - a.last
  }

  /** No wrap, and after an error-free call less than one window is outstanding. */
  lemma RecordKeepsInv(a: Ack, n: nat, sendOk: bool)
    requires AckInv(a) && n < TWO24
    ensures a.total + n < TWO32
    ensures var r := Record(a, n, sendOk);
      && AckInv(r.ack) && r.ack.window == a.window
      && (!r.failed && a.window > 0 ==> r.ack.total - r.ack.last < a.window)
      && (r.sent <==> a.window > 0 && sendOk && Outstanding(a, n) >= a.window)
  {
  }

  /** The loop counts a chunk only if it left bytes in the message. */
  function Count(a: Ack, n: nat, sendOk: bool): Ack {
    if n > 0 then Record(a, n, sendOk).ack else a
  }

  function CountAll(a: Ack, counts: seq<nat>, sends: nat -> bool): Ack
    decreases |counts|
  {
    if counts == [] then a
    else
      var before := counts[..|counts| - 1];
      Count(CountAll(a, before, sends), counts[|counts| - 1], sends(|before|))
  }

  /** The acknowledgement a call of the counter writes, in chunks of size `c`. */
  function AckBytes(r: Recorded, c: nat): seq<Byte>
    requires c >= 1
  {
    if r.sent then Written(CONTROL_STREAM, Message(TYPE_ACK, 0, 0, BE32(r.ack.total)), c) else []
  }

  function AckFor(a: Ack, n: nat, sendOk: bool, c: nat): seq<Byte>
    requires c >= 1
  {
    if n > 0 then AckBytes(Record(a, n, sendOk), c) else []
  }

  /** Every acknowledgement written over a run of counts. */
  function AcksFor(a: Ack, counts: seq<nat>, sends: nat -> bool, c: nat): seq<Byte>
    requires c >= 1
    decreases |counts|
  {
    if counts == [] then []
    else
      var before := counts[..|counts| - 1];
      AcksFor(a, before, sends, c) + AckFor(CountAll(a, before, sends), counts[|counts| - 1], sends(|before|), c)
  }

  lemma {:induction false} CountAllKeepsInv(a: Ack, counts: seq<nat>, sends: nat -> bool)
    requires AckInv(a) && forall i :: 0 <= i < |counts| ==> counts[i] < TWO24
    ensures AckInv(CountAll(a, counts, sends))
    decreases |counts|
  {
    if counts != [] {
      var before := counts[..|counts| - 1];
      CountAllKeepsInv(a, before, sends);
      RecordKeepsInv(CountAll(a, before, sends), counts[|counts| - 1], sends(|before|));
    }
  }

  lemma {:induction false} CountsBounded(p: Parser, input: seq<Byte>)
    requires ParserInv(p)
    ensures forall i :: 0 <= i < |Drain(p, input, true).counts| ==> Drain(p, input, true).counts[i] < TWO24
    decreases |input|
  {
    var r := ReadChunk(p, input);
    ReadChunkKeepsInv(p, input);
    if r.Chunk? {
      TakeKeepsInv(r.parser, r.csID);
      var (q, m) := TakeMessage(r.parser, r.csID);
      var next := if m.Some? then q.(chunkSize := NextSize(q.chunkSize, m.value)) else q;
      CountsBounded(next, r.rest);
    }
  }

  /** Whatever bytes a client sends, the counters stay in order and below the reset mark. */
  lemma AckSafe(p: Parser, input: seq<Byte>, a: Ack, sends: nat -> bool)
    requires ParserInv(p) && AckInv(a)
    ensures AckInv(CountAll(a, Drain(p, input, true).counts, sends))
  {
    CountsBounded(p, input);
    CountAllKeepsInv(a, Drain(p, input, true).counts, sends);
  }

  // ----- what one message adds --------------------------------------------------------------------

  function Sum(xs: seq<nat>): nat
    decreases |xs|
  {
    if xs == [] then 0 else xs[0] + Sum(xs[1..])
  }

  /** The i-th count of a message is the running total min(i * c, L), not the chunk's own bytes. */
  lemma {:induction false} TotalsAt(off: nat, len: nat, c: nat, i: nat)
    requires c >= 1 && i < |Totals(off, len, c)|
    ensures Totals(off, len, c)[i] == Min(off + (i + 1) * c, len)
    decreases len - off
  {
    if i > 0 {
      TotalsAt(off + c, len, c, i - 1);
      assert off + c + i * c == off + (i + 1) * c;
    }
  }

  lemma {:induction false} TotalsExceed(off: nat, len: nat, c: nat)
    requires c >= 1 && off < len
    ensures Sum(Totals(off, len, c)) >= len
    decreases len - off
  {
    var ts := Totals(off, len, c);
    assert ts[1..] == Totals(off + c, len, c);
    if off + c < len {
      TotalsExceed(off + c, len, c);
    }
  }

  lemma SumExactlyIff(len: nat, c: nat)
    requires c >= 1 && len >= 1
    ensures Sum(Totals(0, len, c)) == len <==> len <= c
  {
    var ts := Totals(0, len, c);
    assert ts[1..] == Totals(c, len, c);
    if c < len {
      TotalsExceed(c, len, c);
    } else {
      assert ts[1..] == [];
    }
  }

  lemma DivStep(n: nat, c: nat)
    requires c >= 1 && n >= c
    ensures n / c == 1 + (n - c) / c
  {
    var q, r := (n - c) / c, (n - c) % c;
    assert n - c == q * c + r;
    assert n == (q + 1) * c + r;
    DivModUnique(n, c, q + 1, r);
  }

  /** One count per chunk, and as many chunks as the body needs. */
  lemma {:induction false} CountsPerMessage(off: nat, len: nat, c: nat)
    requires c >= 1 && off < len
    ensures |Totals(off, len, c)| == (len - off + c - 1) / c
    decreases len - off
  {
    DivStep(len - off + c - 1, c);
    if off + c < len {
      CountsPerMessage(off + c, len, c);
    } else {
      assert Totals(off + c, len, c) == [];
      DivModUnique(len - off - 1, c, 0, len - off - 1);
    }
  }

  lemma {:induction false} SumSnoc(xs: seq<nat>)
    requires xs != []
    ensures Sum(xs) == Sum(xs[..|xs| - 1]) + xs[|xs| - 1]
    decreases |xs|
  {
    if |xs| == 1 {
      assert xs[1..] == [] && xs[..0] == [];
    } else {
      SumSnoc(xs[1..]);
      assert xs[1..][..|xs| - 2] == xs[..|xs| - 1][1..];
    }
  }

  lemma CountAdds(a: Ack, n: nat, sendOk: bool)
    requires AckInv(a) && a.total + n < ACK_RESET
    ensures AckInv(Count(a, n, sendOk)) && Count(a, n, sendOk).total == a.total + n
  {
  }

  /** Below the reset mark the counter holds the sum of what was counted, whatever was acknowledged
      and whichever sends failed. */
  lemma {:induction false} TotalIsSum(a: Ack, counts: seq<nat>, sends: nat -> bool)
    requires AckInv(a) && a.total + Sum(counts) < ACK_RESET
    ensures var b := CountAll(a, counts, sends); AckInv(b) && b.total == a.total + Sum(counts)
    decreases |counts|
  {
    hide Count, AckInv;
    if counts == [] {
      assert Sum(counts) == 0;
    } else {
      var before := counts[..|counts| - 1];
      SumSnoc(counts);
      TotalIsSum(a, before, sends);
      CountAdds(CountAll(a, before, sends), counts[|counts| - 1], sends(|before|));
    }
  }

  /** What a message of `L` bytes written in chunks of `c` adds to the counter: one running total
      for each of its chunks, so its own length iff it fits one chunk. */
  lemma CountedExactlyIff(p: Parser, id: nat, m: Message, a: Ack, sends: nat -> bool)
    requires Quiet(p) && ValidID(id) && Writable(m, p.chunkSize) && AckInv(a)
    requires a.total + Sum(Totals(0, |m.body|, p.chunkSize)) < ACK_RESET
    ensures var counts := Drain(p, Written(id, m, p.chunkSize), true).counts;
      var total := CountAll(a, counts, sends).total;
      && |counts| == (|m.body| + p.chunkSize - 1) / p.chunkSize
      && total == a.total + Sum(Totals(0, |m.body|, p.chunkSize))
      && (total == a.total + |m.body| <==> |m.body| <= p.chunkSize)
  {
    hide Drain, CountAll, Written, Sum, Totals, Writable, Quiet;
    var c := p.chunkSize;
    assert c >= 1 && |m.body| >= 1 by { OneChunkAtLeast(p, m); }
    CountsOfOne(p, id, m);
    TotalIsSum(a, Totals(0, |m.body|, c), sends);
    CountsPerMessage(0, |m.body|, c);
    SumExactlyIff(|m.body|, c);
  }

  lemma OneChunkAtLeast(p: Parser, m: Message)
    requires Quiet(p) && Writable(m, p.chunkSize)
    ensures p.chunkSize >= 1 && |m.body| >= 1
  {
  }

  lemma CountsOfOne(p: Parser, id: nat, m: Message)
    requires Quiet(p) && ValidID(id) && Writable(m, p.chunkSize)
    ensures Drain(p, Written(id, m, p.chunkSize), true).counts == Totals(0, |m.body|, p.chunkSize)
  {
    var next := CountedPerMessage(p, id, m, []);
    assert Written(id, m, p.chunkSize) + [] == Written(id, m, p.chunkSize);
    NothingLeft(next);
  }

  lemma NothingLeft(p: Parser)
    ensures Drain(p, [], true).counts == []
  {
  }

  /** The counts a written message causes are exactly its running totals, then those of the rest. */
  lemma CountedPerMessage(p: Parser, id: nat, m: Message, tail: seq<Byte>) returns (next: Parser)
    requires Quiet(p) && ValidID(id) && Writable(m, p.chunkSize)
    ensures Drain(p, Written(id, m, p.chunkSize) + tail, true).counts
      == Totals(0, |m.body|, p.chunkSize) + Drain(next, tail, true).counts
  {
    StartsReading(p, id, m);
    hide Drain, Reading;
    next := DrainMessage(p, id, MemoryOf(StreamOf(p, id)), m, 0, tail, true);
  }

  // ----- the session and its loop ---------------------------------------------------------------------

  class Session {
    const conn: Conn
    const parser: ChunkParser
    var written: seq<Byte>
    var writeChunkSize: nat
    var ackSize: nat
    var inAckSize: nat
    var inLastAck: nat

    ghost predicate Valid()
      reads this, parser
    {
      parser.Valid() && 1 <= writeChunkSize < TWO32 - 4
    }

    ghost function Acks(): Ack
      reads this
    {
      Ack(ackSize, inAckSize, inLastAck)
    }

    constructor (conn: Conn)
      ensures Valid() && this.conn == conn && fresh(parser) && parser.View() == Parser(map[], DEFAULT_CHUNK_SIZE)
      ensures written == [] && writeChunkSize == DEFAULT_CHUNK_SIZE && Acks() == Ack(0, 0, 0)
      ensures parser.chunkStreams == map[]
    {
      this.conn := conn;
      parser := new ChunkParser();
      written, writeChunkSize := [], DEFAULT_CHUNK_SIZE;
      ackSize, inAckSize, inLastAck := 0, 0, 0;
    }

    method WriteMessage(id: nat, m: Message)
      requires Valid() && |m.body| + writeChunkSize < TWO32
      modifies this`written
      ensures written == old(written) + Written(id, m, writeChunkSize)
    {
      var bytes := WriteChunk(id, m, writeChunkSize);
      written := written + bytes;
    }

    method SetWriteChunkSize(size: nat)
      requires Valid() && 1 <= size < TWO32 - 4
      modifies this`writeChunkSize
      ensures Valid() && writeChunkSize == size
    {
      writeChunkSize := size;
    }

    /** The window announced to the client, from which acknowledgements are due. */
    method SetAckSize(size: nat)
      modifies this`ackSize
      ensures Acks() == old(Acks()).(window := size)
    {
      ackSize := size;
    }

    /** Count bytes and acknowledge once a window is full; a refused send changes nothing more. */
    method RecordBytesReceived(n: nat, sendOk: bool) returns (sent: bool, failed: bool)
      requires Valid()
      modifies this`inAckSize, this`inLastAck, this`written
      ensures Valid() && Recorded(Acks(), sent, failed) == Record(old(Acks()), n, sendOk)
      ensures written == old(written) + AckBytes(Record(old(Acks()), n, sendOk), writeChunkSize)
    {
      sent, failed := false, false;
      inAckSize := (inAckSize + n) % TWO32;
      if inAckSize >= ACK_RESET {
        inAckSize, inLastAck := 0, 0;
      }
      if ackSize > 0 && (inAckSize - inLastAck) % TWO32 >= ackSize {
        if !sendOk {
          failed := true;
          return;
        }
        WriteMessage(CONTROL_STREAM, Message(TYPE_ACK, 0, 0, BE32(inAckSize)));
        inLastAck := inAckSize;
        sent := true;
      }
    }

    /** One turn of the connection loop: read a chunk, count it, take a finished message, obey it. */
    method Turn(sendOk: bool) returns (error: Option<IoError>, item: seq<(nat, Message)>, n: nat)
      requires Valid()
      modifies this`inAckSize, this`inLastAck, this`written, conn, parser, parser.chunkStreams.Values
      ensures Valid() && fresh(parser.chunkStreams.Values - old(parser.chunkStreams.Values))
      ensures error.None? ==> |conn.data| < |old(conn.data)| && Acks() == Count(old(Acks()), n, sendOk)
      ensures error.None? ==> written == old(written) + AckFor(old(Acks()), n, sendOk, writeChunkSize)
      ensures |item| <= 1
      ensures error.Some? ==> Acks() == old(Acks()) && written == old(written)
      ensures Turned(Drain(old(parser.View()), old(conn.data), true), parser.View(), conn.data, error, item, n)
    {
      hide Chunks.ReadChunk, TakeMessage, NextSize, Drain, Count, AckFor;
      item, n := [], 0;
      ghost var p, input := parser.View(), conn.data;
      DrainUnfolds(p, input);
      var csID;
      csID, error := parser.ReadChunk(conn);
      if error != None { return; }
      item, n := AfterChunk(csID, sendOk);
    }

    /** Count the chunk just read, then hand out and obey the message it may have finished. */
    method AfterChunk(csID: nat, sendOk: bool) returns (item: seq<(nat, Message)>, n: nat)
      requires Valid()
      modifies this`inAckSize, this`inLastAck, this`written, parser`chunkSize, parser.chunkStreams.Values
      ensures Valid() && Acks() == Count(old(Acks()), n, sendOk)
      ensures written == old(written) + AckFor(old(Acks()), n, sendOk, writeChunkSize)
      ensures var q := old(parser.View()); var m := TakeMessage(q, csID).1;
        && n == StreamOf(q, csID).bytesRead && parser.View() == AfterMessage(q, csID)
        && item == if m.Some? then [(csID, m.value)] else []
    {
      hide TakeMessage, NextSize, Record, AckBytes;
      ghost var q := parser.View();
      n := parser.GetBytesRead(csID);
      if n > 0 {
        var _, _ := RecordBytesReceived(n, sendOk);
      }
      assert parser.View() == q;
      var m := parser.GetCompleteMessage(csID);
      item := [];
      if m.Some? {
        item := [(csID, m.value)];
        Obey(m.value);
      }
    }

    /** Set Chunk Size changes the read size; a malformed or oversized one is ignored. */
    method Obey(m: Message)
      modifies parser`chunkSize
      ensures parser.View() == old(parser.View()).(chunkSize := NextSize(old(parser.chunkSize), m))
      ensures m.kind == 1 && |m.body| >= 4 && FromBE32(m.body[..4]) <= 0xFF_FFFF ==>
        parser.chunkSize == FromBE32(m.body[..4])
      ensures m.kind != 1 || |m.body| < 4 || FromBE32(m.body[..4]) > 0xFF_FFFF ==>
        parser.chunkSize == old(parser.chunkSize)
    {
      hide FromBE32;
      if m.kind == TYPE_SET_CHUNK_SIZE {
        var size := ParseSetChunkSize(m.body);
        if size.Some? {
          parser.SetChunkSize(size.value);
        }
      }
    }

    /** The connection loop until the input ends: what the trace function says, byte for byte. */
    method MessageLoop(sends: nat -> bool) returns (delivered: seq<(nat, Message)>, error: IoError)
      requires Valid()
      modifies this`inAckSize, this`inLastAck, this`written, conn, parser, parser.chunkStreams.Values
      ensures Valid()
      ensures var t := Drain(old(parser.View()), old(conn.data), true);
        && delivered == t.delivered && error == t.error && parser.View() == t.parser
        && Acks() == CountAll(old(Acks()), t.counts, sends)
        && written == old(written) + AcksFor(old(Acks()), t.counts, sends, writeChunkSize)
    {
      hide Drain, Count, CountAll, AckFor, AcksFor;
      NoneCounted(Acks(), sends, writeChunkSize);
      ghost var start := written;
      ghost var t, a := Drain(parser.View(), conn.data, true), Acks();
      ghost var counts: seq<nat> := [];
      delivered := [];
      var k := 0;
      while true
        invariant Valid() && k == |counts| && Acks() == CountAll(a, counts, sends)
        invariant written == start + AcksFor(a, counts, sends, writeChunkSize)
        invariant fresh(parser.chunkStreams.Values - old(parser.chunkStreams.Values))
        invariant Before(t, delivered, counts, Drain(parser.View(), conn.data, true))
        decreases |conn.data|
      {
        var err, item, n := Turn(sends(k));
        if err.Some? {
          error := err.value;
          assert delivered + [] == delivered && counts + [] == counts;
          break;
        }
        OneMoreCounted(a, counts, n, sends, writeChunkSize);
        k := k + 1;
        delivered := delivered + item;
        counts := counts + [n];
      }
    }
  }

  lemma NoneCounted(a: Ack, sends: nat -> bool, c: nat)
    requires c >= 1
    ensures CountAll(a, [], sends) == a && AcksFor(a, [], sends, c) == []
  {
  }

  lemma OneMoreCounted(a: Ack, counts: seq<nat>, n: nat, sends: nat -> bool, c: nat)
    requires c >= 1
    ensures var b := CountAll(a, counts, sends);
      && CountAll(a, counts + [n], sends) == Count(b, n, sends(|counts|))
      && AcksFor(a, counts + [n], sends, c) == AcksFor(a, counts, sends, c) + AckFor(b, n, sends(|counts|), c)
  {
    hide Count, AckFor;
    assert (counts + [n])[..|counts|] == counts;
  }

  /** `t` is `delivered` and `counts` followed by the trace `rest`. */
  ghost predicate Before(t: Trace, delivered: seq<(nat, Message)>, counts: seq<nat>, rest: Trace) {
    t == Trace(delivered + rest.delivered, counts + rest.counts, rest.parser, rest.error)
  }

  /** One turn either ends the trace or contributes its first item and count. */
  ghost predicate Turned(t: Trace, q: Parser, data: seq<Byte>, error: Option<IoError>,
                      item: seq<(nat, Message)>, n: nat) {
    if error.Some? then t == Trace([], [], q, error.value)
    else Before(t, item, [n], Drain(q, data, true))
  }

  /** The parser after taking, and obeying, whatever chunk stream `id` has finished. */
  ghost function AfterMessage(p: Parser, id: nat): Parser {
    var (q, m) := TakeMessage(p, id);
    if m.Some? then q.(chunkSize := NextSize(q.chunkSize, m.value)) else q
  }

  lemma DrainUnfolds(p: Parser, input: seq<Byte>)
    ensures var t := Drain(p, input, true);
      match ReadChunk(p, input)
      case Fail(q, e) => t == Trace([], [], q, e)
      case Chunk(id, q, rest) =>
        var m := TakeMessage(q, id).1;
        Before(t, if m.Some? then [(id, m.value)] else [], [StreamOf(q, id).bytesRead],
            Drain(AfterMessage(q, id), rest, true))
  {
    hide TakeMessage, NextSize;
  }
}
