/** Timestamp deltas: each message adds its delta exactly once, however many chunks carry it. */
module Deltas {
  import opened Bits
  import opened Bytes
  import opened Chunks
  import opened ChunkFlow
  import opened Demux

  /** The delta in force for a message that does not carry an absolute timestamp. */
  function DeltaOf(last: nat, u: Unit): nat {
    match u.lead
    case NewLength(d, _) => d
    case NewDelta(d) => d
    case _ => last
  }

  function SumDeltas(last: nat, units: seq<Unit>): nat
    decreases |units|
  {
    if units == [] then 0
    else DeltaOf(last, units[0]) + SumDeltas(DeltaOf(last, units[0]), units[1..])
  }

  /** The message type in force after these messages: the newest announced one. */
  function KindAfter(kind: Byte, units: seq<Unit>): Byte
    decreases |units|
  {
    if units == [] then kind
    else KindAfter(if units[0].lead.NewLength? then units[0].lead.kind else kind, units[1..])
  }

  /** No message repeats an extended field, which the parser would take as absolute. */
  predicate Relative(mem: Memory, units: seq<Unit>)
    decreases |units|
  {
    units == [] ||
    (!units[0].lead.Full? && (units[0].lead.Repeat? ==> !mem.ext) && Relative(Announce(mem, units[0]), units[1..]))
  }

  lemma ModAdd(a: nat, b: nat)
    ensures (a % TWO32 + b) % TWO32 == (a + b) % TWO32
  {
  }

  /** What a list of messages led by formats 1, 2 and 3 is expected to deliver, in closed form. */
  lemma {:induction false} ExpectedInClosedForm(mem: Memory, units: seq<Unit>, i: nat)
    requires i < |units| && Relative(mem, units)
    ensures |Expected(mem, units)| == |units|
    ensures var m := Expected(mem, units)[i];
      && m.timestamp == (mem.timestamp + SumDeltas(mem.delta, units[..i + 1])) % TWO32
      && m.streamID == mem.streamID && m.body == units[i].body
      && m.kind == KindAfter(mem.kind, units[..i + 1])
    decreases |units|
  {
    hide MessageOf, Announce;
    var mem' := Announce(mem, units[0]);
    var d := DeltaOf(mem.delta, units[0]);
    AnnounceRelative(mem, units);
    ExpectedLength(mem', units[1..]);
    assert units[..i + 1][1..] == units[1..][..i];
    if i == 0 {
      assert units[..1][1..] == [];
    } else {
      ExpectedInClosedForm(mem', units[1..], i - 1);
      ModAdd(mem.timestamp + d, SumDeltas(d, units[1..][..i]));
    }
  }

  /** One message led by a relative timestamp. */
  lemma AnnounceRelative(mem: Memory, units: seq<Unit>)
    requires units != [] && Relative(mem, units)
    ensures var mem', u := Announce(mem, units[0]), units[0];
      var d, m := DeltaOf(mem.delta, u), MessageOf(mem', u);
      && mem'.timestamp == (mem.timestamp + d) % TWO32 && mem'.delta == d && mem'.streamID == mem.streamID
      && mem'.kind == (if u.lead.NewLength? then u.lead.kind else mem.kind)
      && m == Message(mem'.kind, mem'.timestamp, mem'.streamID, u.body)
      && Relative(mem', units[1..])
  {
  }

  lemma {:induction false} ExpectedLength(mem: Memory, units: seq<Unit>)
    ensures |Expected(mem, units)| == |units|
    decreases |units|
  {
    if units != [] { ExpectedLength(Announce(mem, units[0]), units[1..]); }
  }

  /** In any interleaving, with bodies in any number of chunks, message `i` of a stream arrives with
      the previous timestamps plus every delta once, and with the type and stream it inherits. */
  lemma DeltaOncePerMessage(p: Parser, flows: map<nat, Flow>, il: seq<(nat, seq<Byte>)>, id: nat, i: nat)
    requires InStep(p, flows) && Interleaves(il, flows, p.chunkSize) && id in flows && flows[id].sent == 0
    requires i < |flows[id].units| && Relative(flows[id].mem, flows[id].units)
    ensures var got := Project(Drain(p, Wire(il), false).delivered, id);
      var mem, units := flows[id].mem, flows[id].units;
      && |got| == |units| && got[i].body == units[i].body && got[i].streamID == mem.streamID
      && got[i].timestamp == (mem.timestamp + SumDeltas(mem.delta, units[..i + 1])) % TWO32
      && got[i].kind == KindAfter(mem.kind, units[..i + 1])
  {
    hide Drain, Project, Interleaves, InStep, Expected, SumDeltas, KindAfter;
    DemuxFlows(p, flows, il, id);
    ExpectedInClosedForm(flows[id].mem, flows[id].units, i);
  }

  // ----- a repeated header after an absolute one ----------------------------------------------------

  /** What a chunk stream remembers after these messages. */
  function After(mem: Memory, units: seq<Unit>): Memory
    decreases |units|
  {
    if units == [] then mem else After(Announce(mem, units[0]), units[1..])
  }

  lemma {:induction false} ExpectedAt(mem: Memory, units: seq<Unit>, k: nat)
    requires k < |units|
    ensures |Expected(mem, units)| == |units|
    ensures Expected(mem, units)[k] == MessageOf(Announce(After(mem, units[..k]), units[k]), units[k])
    decreases k
  {
    ExpectedLength(mem, units);
    if k > 0 {
      ExpectedAt(Announce(mem, units[0]), units[1..], k - 1);
      assert units[..k][1..] == units[1..][..k - 1];
    }
  }

  lemma {:induction false} AfterNext(mem: Memory, units: seq<Unit>, k: nat)
    requires k < |units|
    ensures After(mem, units[..k + 1]) == Announce(After(mem, units[..k]), units[k])
    decreases k
  {
    assert units[..k + 1][1..] == units[1..][..k];
    if k > 0 {
      AfterNext(Announce(mem, units[0]), units[1..], k - 1);
      assert units[..k][1..] == units[1..][..k - 1];
    } else {
      assert units[..k + 1][1..] == [];
    }
  }

  /** Section 5.3.1.2.4 of RTMP 1.0: a type 3 that starts a message after a type 0 takes the
      timestamp of the type 0 as its delta. */
  function Prescribed(ts: nat): nat {
    (ts + ts) % TWO32
  }

  lemma SameSum(ts: nat, delta: nat)
    requires ts < TWO32 && delta < TWO32
    ensures (ts + delta) % TWO32 == Prescribed(ts) <==> delta == ts
  {
  }

  /** In any interleaving, after any earlier messages: a message led by format 3 right after one led
      by format 0 is delivered with the delta remembered from before, or, with an extended field,
      with that field as its timestamp. It is the prescribed timestamp iff that delta equals the
      format-0 timestamp, or the field says twice that timestamp. */
  lemma RepeatAfterFull(p: Parser, flows: map<nat, Flow>, il: seq<(nat, seq<Byte>)>, id: nat, k: nat)
    requires InStep(p, flows) && Interleaves(il, flows, p.chunkSize) && id in flows && flows[id].sent == 0
    requires k + 1 < |flows[id].units| && flows[id].units[k].lead.Full? && flows[id].units[k + 1].lead.Repeat?
    requires After(flows[id].mem, flows[id].units[..k]).delta < TWO32 && flows[id].units[k].lead.timestamp < TWO32
    ensures var got := Project(Drain(p, Wire(il), false).delivered, id);
      var units := flows[id].units;
      var delta, ts := After(flows[id].mem, units[..k]).delta, units[k].lead.timestamp;
      && |got| == |units| && got[k].timestamp == ts
      && got[k + 1].timestamp == (if ts < EXT_MARK then (ts + delta) % TWO32 else units[k + 1].lead.again)
      && (got[k + 1].timestamp == Prescribed(ts) <==>
            if ts < EXT_MARK then delta == ts else units[k + 1].lead.again == Prescribed(ts))
  {
    hide Drain, Project, Interleaves, InStep, Expected, After, Prescribed;
    DemuxFlows(p, flows, il, id);
    var mem, units := flows[id].mem, flows[id].units;
    ExpectedAt(mem, units, k);
    ExpectedAt(mem, units, k + 1);
    AfterNext(mem, units, k);
    SameSum(units[k].lead.timestamp, After(mem, units[..k]).delta);
  }

  /** A sender that repeats the extended field as section 5.3.1.3 has it is never given that timestamp. */
  lemma RepeatedFieldIsNotPrescribed(ts: nat)
    requires EXT_MARK <= ts < TWO32
    ensures ts != Prescribed(ts)
  {
  }

  /** A concrete run: one byte at time 1000, then the same again. Both arrive at 1000; 2000 is due. */
  lemma RepeatRun()
    ensures var first := BasicHeader(0, 3) + LeadBytes(Unit(Full(1000, 9, 1), [7])) + [7];
      var t := Drain(Parser(map[], 128), first + (BasicHeader(3, 3) + [7]), false);
      Project(t.delivered, 3) == [Message(9, 1000, 1, [7]), Message(9, 1000, 1, [7])] && Prescribed(1000) == 2000
  {
    var a, b := Unit(Full(1000, 9, 1), [7]), Unit(Repeat(0), [7]);
    var f := Flow(BLANK, 0, [a, b]);
    var c0, c1 := BasicHeader(0, 3) + LeadBytes(a) + [7], BasicHeader(3, 3) + [7];
    var il: seq<(nat, seq<Byte>)> := [(3, c0), (3, c1)];
    TwoChunks(f, a, b);
    TwoOnWire(c0, c1);
    TwoExpected(a, b);
    hide Drain, Wire, Project, Remaining, SendableAll, Expected;
    DemuxFlows(Parser(map[], 128), map[3 := f], il, 3);
  }

  lemma TwoChunks(f: Flow, a: Unit, b: Unit)
    requires f == Flow(BLANK, 0, [a, b]) && a == Unit(Full(1000, 9, 1), [7]) && b == Unit(Repeat(0), [7])
    ensures Remaining(3, f, 128) == [BasicHeader(0, 3) + LeadBytes(a) + [7], BasicHeader(3, 3) + [7]]
  {
    hide BasicHeader, LeadBytes;
    var g := Advance(f, 128);
    assert [a, b][1..] == [b] && [b][1..] == [];
    assert g == Flow(Announce(BLANK, a), 0, [b]);
    assert [7][0..1] == [7];
    assert Advance(g, 128).units == [];
    assert Remaining(3, g, 128) == [NextChunk(3, g, 128)];
  }

  lemma TwoExpected(a: Unit, b: Unit)
    requires a == Unit(Full(1000, 9, 1), [7]) && b == Unit(Repeat(0), [7])
    ensures SendableAll(BLANK, [a, b])
    ensures Expected(BLANK, [a, b]) == [Message(9, 1000, 1, [7]), Message(9, 1000, 1, [7])]
  {
    var mem := Announce(BLANK, a);
    var mem' := Announce(mem, b);
    assert [a, b][1..] == [b] && [b][1..] == [];
    assert Expected(mem', []) == [] && SendableAll(mem', []);
    assert Expected(mem, [b]) == [MessageOf(mem', b)] && SendableAll(mem, [b]);
  }

  lemma TwoOnWire(c0: seq<Byte>, c1: seq<Byte>)
    ensures Wire([(3, c0), (3, c1)]) == c0 + c1 && Project([(3, c0), (3, c1)], 3) == [c0, c1]
  {
    var both: seq<(nat, seq<Byte>)> := [(3, c0), (3, c1)];
    var one: seq<(nat, seq<Byte>)> := [(3, c1)];
    var none: seq<(nat, seq<Byte>)> := [];
    assert both[1..] == one && one[1..] == none;
    assert Wire(none) == [] && Project(none, 3) == [];
    assert Wire(one) == c1 && Project(one, 3) == [c1];
  }
}
