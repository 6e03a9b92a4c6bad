/** What the server's own loop makes of interleaved conformant senders that leave the chunk size
    alone: each sender's messages, in order, and what all of them add to the byte counter. */
module Interleaved {
  import opened Bits
  import opened Bytes
  import opened Chunks
  import opened ChunkFlow
  import opened Demux
  import opened Conversation
  import opened Sessions

  const IDENTIFIERS := 65600

  // ----- no size change, no difference ---------------------------------------------------------

  predicate KeepsSize(d: (nat, Message)) {
    d.1.kind != TYPE_SET_CHUNK_SIZE
  }

  /** Where no delivered message changes the chunk size, obeying such messages makes no difference. */
  lemma {:induction false} SameInBand(p: Parser, input: seq<Byte>)
    requires forall d :: d in Drain(p, input, false).delivered ==> KeepsSize(d)
    ensures Drain(p, input, true) == Drain(p, input, false)
    decreases |input|
  {
    hide ReadChunk, TakeMessage, ParseSetChunkSize;
    var r := ReadChunk(p, input);
    if r.Chunk? {
      var (q, m) := TakeMessage(r.parser, r.csID);
      var t := Drain(q, r.rest, false);
      var first := if m.Some? then [(r.csID, m.value)] else [];
      assert Drain(p, input, false).delivered == first + t.delivered;
      if m.Some? {
        assert (r.csID, m.value) in first;
        assert KeepsSize((r.csID, m.value));
        assert NextSize(q.chunkSize, m.value) == q.chunkSize;
        assert q.(chunkSize := q.chunkSize) == q;
      }
      SameInBand(q, r.rest);
    }
  }

  // ----- what a flow is counted at ---------------------------------------------------------------

  function UnitsSum(units: seq<Unit>, c: nat): nat
    requires c >= 1
    decreases |units|
  {
    if units == [] then 0 else Sum(Totals(0, |units[0].body|, c)) + UnitsSum(units[1..], c)
  }

  /** The running totals a flow has still to cause, added up. */
  function FlowSum(f: Flow, c: nat): nat
    requires c >= 1
  {
    if f.units == [] then 0 else Sum(Totals(f.sent, |f.units[0].body|, c)) + UnitsSum(f.units[1..], c)
  }

  lemma SumTotals(off: nat, len: nat, c: nat)
    requires c >= 1 && off < len
    ensures Sum(Totals(off, len, c)) == Min(off + c, len) + Sum(Totals(off + c, len, c))
  {
    assert Totals(off, len, c)[1..] == Totals(off + c, len, c);
  }

  lemma FlowSumAdvances(f: Flow, c: nat)
    requires f.units != [] && FlowOk(f) && c >= 1
    ensures FlowSum(f, c) == Min(f.sent + c, |f.units[0].body|) + FlowSum(Advance(f, c), c)
  {
    SumTotals(f.sent, |f.units[0].body|, c);
    if Completes(f, c) {
      assert Totals(f.sent + c, |f.units[0].body|, c) == [];
    }
  }

  ghost function FlowSums(flows: map<nat, Flow>, c: nat): map<nat, nat>
    requires c >= 1
  {
    map id | id in flows :: FlowSum(flows[id], c)
  }

  lemma {:induction false} SumOfZeros(counts: map<nat, nat>, n: nat)
    requires forall id :: id in counts ==> counts[id] == 0
    ensures SumBelow(counts, n) == 0
  {
    if n > 0 { SumOfZeros(counts, n - 1); }
  }

  /** In any interleaving the counts add up to those of every message of every flow. */
  lemma {:induction false} CountsAddUp(p: Parser, flows: map<nat, Flow>, il: seq<(nat, seq<Byte>)>)
    requires InStep(p, flows) && Interleaves(il, flows, p.chunkSize)
    ensures Sum(Drain(p, Wire(il), false).counts) == SumBelow(FlowSums(flows, p.chunkSize), IDENTIFIERS)
    decreases |il|
  {
    var c := p.chunkSize;
    if il == [] {
      NothingSent(flows, c);
      assert Sum(Drain(p, Wire(il), false).counts) == 0;
    } else {
      hide Drain, Wire, InStep, Interleaves, FlowOk, FlowSums, Advance, Sum;
      StepSize(p, flows);
      var j := il[0].0;
      var q, m := DemuxStep(p, flows, il);
      CountsAddUp(q, flows[j := Advance(flows[j], c)], il[1..]);
      SumFront(Drain(p, Wire(il), false).counts, Drain(q, Wire(il[1..]), false).counts);
      SumsAdvance(flows, j, c);
    }
  }

  lemma NothingSent(flows: map<nat, Flow>, c: nat)
    requires Interleaves([], flows, c)
    ensures SumBelow(FlowSums(flows, c), IDENTIFIERS) == 0
  {
    forall id | id in flows ensures FlowSum(flows[id], c) == 0 {
      assert Remaining(id, flows[id], c) == [];
    }
    SumOfZeros(FlowSums(flows, c), IDENTIFIERS);
  }

  lemma SumsAdvance(flows: map<nat, Flow>, j: nat, c: nat)
    requires j in flows && j < IDENTIFIERS && flows[j].units != [] && FlowOk(flows[j]) && c >= 1
    ensures SumBelow(FlowSums(flows, c), IDENTIFIERS)
      == Min(flows[j].sent + c, |flows[j].units[0].body|)
         + SumBelow(FlowSums(flows[j := Advance(flows[j], c)], c), IDENTIFIERS)
  {
    hide FlowSum, Advance;
    var f' := Advance(flows[j], c);
    FlowSumAdvances(flows[j], c);
    SumUpdated(FlowSums(flows, c), j, FlowSum(f', c), IDENTIFIERS);
    assert FlowSums(flows[j := f'], c) == FlowSums(flows, c)[j := FlowSum(f', c)];
  }

  lemma SumFront(xs: seq<nat>, rest: seq<nat>)
    requires xs != [] && xs == [xs[0]] + rest
    ensures Sum(xs) == xs[0] + Sum(rest)
  {
    assert xs[1..] == rest;
  }

  // ----- the server's loop on interleaved senders ----------------------------------------------------

  ghost predicate Sizeless(flows: map<nat, Flow>) {
    forall id, i :: id in flows && 0 <= i < |ExpectedOf(flows[id])| ==>
      ExpectedOf(flows[id])[i].kind != TYPE_SET_CHUNK_SIZE
  }

  lemma {:induction false} Projected<T>(xs: seq<(nat, T)>, i: nat)
    requires i < |xs|
    ensures xs[i].1 in Project(xs, xs[i].0)
    decreases i
  {
    if i > 0 { Projected(xs[1..], i - 1); }
  }

  /** Interleaved senders at any point of their flows, in all formats: each one's messages arrive in
      order, and below the reset mark the counter grows by the running totals of all of them. */
  lemma ServesInterleaved(p: Parser, flows: map<nat, Flow>, il: seq<(nat, seq<Byte>)>, a: Ack, sends: nat -> bool)
    requires InStep(p, flows) && Interleaves(il, flows, p.chunkSize) && Sizeless(flows) && flows.Keys != {}
    ensures var t := Drain(p, Wire(il), true);
      var sum := SumBelow(FlowSums(flows, p.chunkSize), IDENTIFIERS);
      && t.error == EOF && (forall id :: id in flows ==> Project(t.delivered, id) == ExpectedOf(flows[id]))
      && Sum(t.counts) == sum
      && (AckInv(a) && a.total + sum < ACK_RESET ==> CountAll(a, t.counts, sends).total == a.total + sum)
  {
    hide Drain, CountAll, Project, Wire, Interleaves, InStep, FlowSums, AckInv, ExpectedOf;
    var t := Drain(p, Wire(il), false);
    forall id | id in flows
      ensures t.error == EOF && Project(t.delivered, id) == ExpectedOf(flows[id])
    {
      DemuxFlows(p, flows, il, id);
    }
    var some :| some in flows;
    OnlyFlows(p, flows, il);
    forall d | d in t.delivered ensures KeepsSize(d) {
      var i :| 0 <= i < |t.delivered| && t.delivered[i] == d;
      Projected(t.delivered, i);
      assert d.1 in ExpectedOf(flows[d.0]);
    }
    SameInBand(p, Wire(il));
    CountsAddUp(p, flows, il);
    if AckInv(a) && a.total + Sum(t.counts) < ACK_RESET { TotalIsSum(a, t.counts, sends); }
  }
}
