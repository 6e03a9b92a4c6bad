/** Any chunk-level interleaving of senders on distinct chunk streams is taken apart into each
    sender's messages, in order. */
module Demux {
  import opened Bits
  import opened Bytes
  import opened Chunks
  import opened ChunkFlow

  // ----- interleavings --------------------------------------------------------------------------

  /** Everything a flow still has to send, chunk by chunk. */
  function Remaining(id: nat, f: Flow, c: nat): seq<seq<Byte>>
    requires c >= 1 && (f.sent > 0 ==> f.units != [] && f.sent < |f.units[0].body|)
    decreases |f.units|, if f.units == [] then 0 else |f.units[0].body| - f.sent
  {
    if f.units == [] then []
    else [NextChunk(id, f, c)] + Remaining(id, Advance(f, c), c)
  }

  /** The messages a flow still has to complete. */
  function Expected(mem: Memory, units: seq<Unit>): seq<Message>
    decreases |units|
  {
    if units == [] then []
    else [MessageOf(Announce(mem, units[0]), units[0])] + Expected(Announce(mem, units[0]), units[1..])
  }

  function ExpectedOf(f: Flow): seq<Message> {
    if f.sent == 0 || f.units == [] then Expected(f.mem, f.units)
    else [MessageOf(f.mem, f.units[0])] + Expected(f.mem, f.units[1..])
  }

  /** The items tagged `id`, in order. */
  function Project<T>(xs: seq<(nat, T)>, id: nat): seq<T>
    decreases |xs|
  {
    if xs == [] then []
    else (if xs[0].0 == id then [xs[0].1] else []) + Project(xs[1..], id)
  }

  /** The bytes of an interleaving as they appear on the wire. */
  function Wire(il: seq<(nat, seq<Byte>)>): seq<Byte>
    decreases |il|
  {
    if il == [] then [] else il[0].1 + Wire(il[1..])
  }

  lemma ExpectedAdvance(f: Flow, c: nat)
    requires f.units != [] && FlowOk(f) && c >= 1
    ensures ExpectedOf(f) ==
      (if Completes(f, c) then [MessageOf(MemoryAt(f), f.units[0])] else []) + ExpectedOf(Advance(f, c))
  {
  }

  /** The parser in step with every flow. */
  ghost predicate InStep(p: Parser, flows: map<nat, Flow>) {
    && 1 <= p.chunkSize < TWO24
    && forall id :: id in flows ==>
         ValidID(id) && FlowOk(flows[id]) && Matches(flows[id], StreamOf(p, id))
  }

  /** `il` is a chunk-level interleaving of what the flows still have to send. */
  ghost predicate Interleaves(il: seq<(nat, seq<Byte>)>, flows: map<nat, Flow>, c: nat) {
    && c >= 1
    && (forall i :: 0 <= i < |il| ==> il[i].0 in flows)
    && forall id :: id in flows ==> FlowOk(flows[id]) && Project(il, id) == Remaining(id, flows[id], c)
  }

  lemma PopChunk(il: seq<(nat, seq<Byte>)>, flows: map<nat, Flow>, c: nat)
    requires Interleaves(il, flows, c) && il != []
    ensures var id := il[0].0;
      && id in flows && flows[id].units != [] && il[0].1 == NextChunk(id, flows[id], c)
      && Interleaves(il[1..], flows[id := Advance(flows[id], c)], c)
  {
    var id := il[0].0;
    var f := flows[id];
    assert Project(il, id) == [il[0].1] + Project(il[1..], id);
    assert f.units != [];
    assert Remaining(id, f, c)[0] == NextChunk(id, f, c) && Remaining(id, f, c)[1..] == Remaining(id, Advance(f, c), c);
    assert Project(il, id)[1..] == Project(il[1..], id);
    AdvanceOk(f, c);
    var flows' := flows[id := Advance(f, c)];
    forall j | j in flows' ensures FlowOk(flows'[j]) && Project(il[1..], j) == Remaining(j, flows'[j], c) {
      if j != id { assert Project(il, j) == Project(il[1..], j); }
    }
  }

  /** One turn of the read loop on the next chunk of a flow. */
  lemma OneTurn(p: Parser, id: nat, f: Flow, rest: seq<Byte>)
    requires ValidID(id) && 1 <= p.chunkSize < TWO24 && f.units != []
    requires FlowOk(f) && Matches(f, StreamOf(p, id))
    ensures var c := p.chunkSize;
      var r := ReadChunk(p, NextChunk(id, f, c) + rest);
      && r.Chunk? && r.csID == id && r.rest == rest
      && r.parser.streams[id].bytesRead == Min(f.sent + c, |f.units[0].body|)
      && var (q, m) := TakeMessage(r.parser, id);
         && q == p.(streams := p.streams[id := StreamOf(q, id)]) && Matches(Advance(f, c), StreamOf(q, id))
         && m == (if Completes(f, c) then Some(MessageOf(MemoryAt(f), f.units[0])) else None)
  {
    var c := p.chunkSize;
    ReadsNextChunk(p, id, f, rest);
    var r := ReadChunk(p, NextChunk(id, f, c) + rest);
    TakesWhenComplete(r.parser, id, f, c);
    var (q, m) := TakeMessage(r.parser, id);
    assert q.streams == p.streams[id := StreamOf(q, id)];
  }

  lemma StepsOn(p: Parser, flows: map<nat, Flow>, id: nat, q: Parser)
    requires InStep(p, flows) && id in flows && flows[id].units != []
    requires q == p.(streams := p.streams[id := StreamOf(q, id)])
    requires Matches(Advance(flows[id], p.chunkSize), StreamOf(q, id))
    ensures InStep(q, flows[id := Advance(flows[id], p.chunkSize)])
  {
    AdvanceOk(flows[id], p.chunkSize);
    forall j | j in flows && j != id ensures Matches(flows[j], StreamOf(q, j)) {
      assert StreamOf(q, j) == StreamOf(p, j);
    }
  }

  /** What one chunk of an interleaving contributes to the trace. */
  ghost predicate StepTraced(p: Parser, il: seq<(nat, seq<Byte>)>, n: nat, q: Parser, m: Option<Message>)
    requires il != []
  {
    var t, t' := Drain(p, Wire(il), false), Drain(q, Wire(il[1..]), false);
    t == Trace((if m.Some? then [(il[0].0, m.value)] else []) + t'.delivered, [n] + t'.counts, t'.parser, t'.error)
  }

  lemma DemuxStep(p: Parser, flows: map<nat, Flow>, il: seq<(nat, seq<Byte>)>) returns (q: Parser, m: Option<Message>)
    requires InStep(p, flows) && Interleaves(il, flows, p.chunkSize) && il != []
    ensures var j, c := il[0].0, p.chunkSize;
      && j in flows && ValidID(j) && flows[j].units != [] && FlowOk(flows[j]) && q.chunkSize == c
      && InStep(q, flows[j := Advance(flows[j], c)]) && Interleaves(il[1..], flows[j := Advance(flows[j], c)], c)
      && m == (if Completes(flows[j], c) then Some(MessageOf(MemoryAt(flows[j]), flows[j].units[0])) else None)
      && StepTraced(p, il, Min(flows[j].sent + c, |flows[j].units[0].body|), q, m)
  {
    hide Drain, ReadChunk, TakeMessage, NextChunk, Advance, Matches, FlowOk, Interleaves, InStep, Completes, MemoryAt;
    var j, c := il[0].0, p.chunkSize;
    PopChunk(il, flows, c);
    StepReady(p, flows, j);
    OneTurn(p, j, flows[j], Wire(il[1..]));
    assert Wire(il) == NextChunk(j, flows[j], c) + Wire(il[1..]);
    var r := ReadChunk(p, Wire(il));
    q, m := TakeMessage(r.parser, j).0, TakeMessage(r.parser, j).1;
    StepsOn(p, flows, j, q);
    DrainsOne(p, Wire(il));
  }

  lemma StepReady(p: Parser, flows: map<nat, Flow>, id: nat)
    requires InStep(p, flows) && id in flows
    ensures 1 <= p.chunkSize < TWO24 && ValidID(id) && FlowOk(flows[id]) && Matches(flows[id], StreamOf(p, id))
  {
  }

  /** The trace of an input that starts with a whole chunk. */
  lemma DrainsOne(p: Parser, input: seq<Byte>)
    requires ReadChunk(p, input).Chunk?
    ensures var r := ReadChunk(p, input);
      var (q, m) := TakeMessage(r.parser, r.csID);
      var t, t' := Drain(p, input, false), Drain(q, r.rest, false);
      t == Trace((if m.Some? then [(r.csID, m.value)] else []) + t'.delivered,
                 [r.parser.streams[r.csID].bytesRead] + t'.counts, t'.parser, t'.error)
  {
    hide ReadChunk, TakeMessage;
  }

  /** Any interleaving is read back as each sender's messages, in each sender's order. */
  lemma {:induction false} DemuxFlows(p: Parser, flows: map<nat, Flow>, il: seq<(nat, seq<Byte>)>, id: nat)
    requires InStep(p, flows) && Interleaves(il, flows, p.chunkSize) && id in flows
    ensures var t := Drain(p, Wire(il), false);
      t.error == EOF && Project(t.delivered, id) == ExpectedOf(flows[id])
    decreases |il|
  {
    if il == [] {
      NothingToSend(p, flows, id);
    } else {
      hide Drain, Wire, Project, InStep, Interleaves, FlowOk, ExpectedOf, Advance, Completes, MemoryAt;
      var j, c := il[0].0, p.chunkSize;
      var q, m := DemuxStep(p, flows, il);
      DemuxFlows(q, flows[j := Advance(flows[j], c)], il[1..], id);
      StepSize(p, flows);
      ExpectedAdvance(flows[j], c);
      ProjectPrepend(m, j, Drain(q, Wire(il[1..]), false).delivered, id);
    }
  }

  /** Nothing arrives on a chunk stream that nobody sends on. */
  lemma {:induction false} OnlyFlows(p: Parser, flows: map<nat, Flow>, il: seq<(nat, seq<Byte>)>)
    requires InStep(p, flows) && Interleaves(il, flows, p.chunkSize)
    ensures forall d :: d in Drain(p, Wire(il), false).delivered ==> d.0 in flows
    decreases |il|
  {
    if il != [] {
      hide Drain, Wire, InStep, Interleaves, FlowOk, Advance, Completes, MemoryAt;
      var j := il[0].0;
      var q, m := DemuxStep(p, flows, il);
      OnlyFlows(q, flows[j := Advance(flows[j], p.chunkSize)], il[1..]);
    }
  }

  lemma NothingToSend(p: Parser, flows: map<nat, Flow>, id: nat)
    requires Interleaves([], flows, p.chunkSize) && id in flows
    ensures ExpectedOf(flows[id]) == [] && Project<seq<Byte>>([], id) == [] && Project<Message>([], id) == []
    ensures Drain(p, Wire([]), false).error == EOF && Drain(p, Wire([]), false).delivered == []
  {
    assert Remaining(id, flows[id], p.chunkSize) == [];
  }

  lemma StepSize(p: Parser, flows: map<nat, Flow>)
    requires InStep(p, flows)
    ensures p.chunkSize >= 1
  {
  }

  lemma ProjectPrepend(m: Option<Message>, j: nat, xs: seq<(nat, Message)>, id: nat)
    ensures Project((if m.Some? then [(j, m.value)] else []) + xs, id)
      == (if m.Some? && j == id then [m.value] else []) + Project(xs, id)
  {
    if m.Some? {
      assert ([(j, m.value)] + xs)[1..] == xs;
    } else {
      assert [] + xs == xs;
    }
  }
}
