/**
 The acknowledgements as the client reads them back: which calls of the counter send one, and that
 each carries the bytes counted by then (section 5.4.3 of RTMP 1.0, with the counter starting over
 at 0xf0000000).
 */
module Acks {
  import opened Bits
  import opened Bytes
  import opened Chunks
  import opened Conversation
  import opened Sessions

  /** The counter after these counts: it starts over at the reset mark, whatever is sent. */
  function Counted(start: nat, counts: seq<nat>): nat
    decreases |counts|
  {
    if counts == [] then start
    else
      var sum := Counted(start, counts[..|counts| - 1]) + counts[|counts| - 1];
      if sum >= 0xf000_0000 then 0 else sum
  }

  /** What the client has been told if the calls in `ks` were acknowledged, starting over with the counter. */
  function Told(start: nat, last: nat, counts: seq<nat>, ks: seq<nat>): nat
    decreases |counts|
  {
    if counts == [] then last
    else
      var k := |counts| - 1;
      if Counted(start, counts[..k]) + counts[k] >= 0xf000_0000 then 0
      else if k in ks then Counted(start, counts)
      else Told(start, last, counts[..k], ks)
  }

  predicate Rising(ks: seq<nat>, n: nat) {
    && (forall i :: 0 <= i < |ks| ==> ks[i] < n)
    && (forall i, j :: 0 <= i < j < |ks| ==> ks[i] < ks[j])
  }

  /** Call `k` counts something, a window's worth is then untold, and the send goes through. */
  predicate Due(a: Ack, counts: seq<nat>, sends: nat -> bool, ks: seq<nat>, k: nat)
    requires k < |counts|
  {
    && a.window > 0 && counts[k] > 0 && sends(k)
    && Counted(a.total, counts[..k + 1]) - Told(a.total, a.last, counts[..k], ks) >= a.window
  }

  /** The calls that send an acknowledgement. */
  ghost predicate AreTold(a: Ack, counts: seq<nat>, sends: nat -> bool, ks: seq<nat>) {
    Rising(ks, |counts|) && forall k: nat :: k < |counts| ==> (k in ks <==> Due(a, counts, sends, ks, k))
  }

  function AckMessage(total: nat): (nat, Message) {
    (2, Message(3, 0, 0, BE32(total)))
  }

  function AckList(start: nat, counts: seq<nat>, ks: seq<nat>): seq<(nat, Message)>
    requires Rising(ks, |counts|)
  {
    seq(|ks|, i requires 0 <= i < |ks| => AckMessage(Counted(start, counts[..ks[i] + 1])))
  }

  lemma {:induction false} NoSizeChange(ms: seq<(nat, Message)>, c: nat)
    requires c >= 1 && forall i :: 0 <= i < |ms| ==> ms[i].1.kind != 1
    ensures SizesPositive(ms, c)
    decreases |ms|
  {
    if ms != [] { NoSizeChange(ms[1..], c); }
  }

  lemma {:induction false} WrittenAllSnoc(ms: seq<(nat, Message)>, last: (nat, Message), c: nat)
    requires c >= 1 && last.1.kind != 1 && forall i :: 0 <= i < |ms| ==> ms[i].1.kind != 1
    ensures SizesPositive(ms, c) && SizesPositive(ms + [last], c)
    ensures WrittenAll(ms + [last], c) == WrittenAll(ms, c) + Written(last.0, last.1, c)
    decreases |ms|
  {
    hide Written;
    if ms == [] {
      assert (ms + [last])[1..] == [];
    } else {
      assert (ms + [last])[1..] == ms[1..] + [last];
      WrittenAllSnoc(ms[1..], last, c);
    }
  }

  // ----- the counter's own calls --------------------------------------------------------------------

  /** One counted chunk, in plain arithmetic. */
  lemma CallIs(b: Ack, n: nat, sendOk: bool, c: nat)
    requires AckInv(b) && n < TWO24 && c >= 1
    ensures var total := if b.total + n >= 0xf000_0000 then 0 else b.total + n;
      var told := b.window > 0 && n > 0 && sendOk && total - b.last >= b.window;
      && AckInv(Count(b, n, sendOk))
      && Count(b, n, sendOk)
         == Ack(b.window, total, if b.total + n >= 0xf000_0000 then 0 else if told then total else b.last)
      && AckFor(b, n, sendOk, c) == if told then Written(2, Message(3, 0, 0, BE32(total)), c) else []
  {
    hide Written, BE32;
  }

  ghost predicate CallsAre(a: Ack, counts: seq<nat>, sends: nat -> bool, c: nat, ks: seq<nat>)
    requires c >= 1
  {
    && AreTold(a, counts, sends, ks) && AckInv(CountAll(a, counts, sends))
    && CountAll(a, counts, sends) == Ack(a.window, Counted(a.total, counts), Told(a.total, a.last, counts, ks))
    && SizesPositive(AckList(a.total, counts, ks), c)
    && AcksFor(a, counts, sends, c) == WrittenAll(AckList(a.total, counts, ks), c)
  }

  lemma {:induction false} ToldBefore(start: nat, last: nat, counts: seq<nat>, ks: seq<nat>, k: nat)
    requires |counts| <= k
    ensures Told(start, last, counts, ks + [k]) == Told(start, last, counts, ks)
    decreases |counts|
  {
    if counts != [] { ToldBefore(start, last, counts[..|counts| - 1], ks, k); }
  }

  lemma DueStays(a: Ack, counts: seq<nat>, n: nat, sends: nat -> bool, ks: seq<nat>, k: nat)
    requires k < |counts|
    ensures Due(a, counts + [n], sends, ks, k) == Due(a, counts, sends, ks, k)
    ensures Due(a, counts, sends, ks + [|counts|], k) == Due(a, counts, sends, ks, k)
  {
    hide Counted, Told;
    assert (counts + [n])[..k + 1] == counts[..k + 1] && (counts + [n])[..k] == counts[..k];
    ToldBefore(a.total, a.last, counts[..k], ks, |counts|);
  }

  /** One more call keeps the calls told before it. */
  lemma StaysTold(a: Ack, counts: seq<nat>, n: nat, sends: nat -> bool, ks: seq<nat>, more: seq<nat>)
    requires AreTold(a, counts, sends, ks)
    requires more == if Due(a, counts + [n], sends, ks, |counts|) then ks + [|counts|] else ks
    ensures AreTold(a, counts + [n], sends, more)
    ensures Told(a.total, a.last, counts, more) == Told(a.total, a.last, counts, ks)
  {
    var all := counts + [n];
    ToldBefore(a.total, a.last, counts, ks, |counts|);
    assert all[..|counts|] == counts;
    assert Due(a, all, sends, more, |counts|) == Due(a, all, sends, ks, |counts|);
    hide Due, Counted, Told;
    forall k: nat | k < |all|
      ensures k in more <==> Due(a, all, sends, more, k)
    {
      if k < |counts| {
        DueStays(a, counts, n, sends, ks, k);
        DueStays(a, counts, n, sends, more, k);
      }
    }
  }

  lemma ListGrows(start: nat, counts: seq<nat>, n: nat, ks: seq<nat>)
    requires Rising(ks, |counts|)
    ensures Rising(ks, |counts| + 1) && AckList(start, counts + [n], ks) == AckList(start, counts, ks)
    ensures Rising(ks + [|counts|], |counts| + 1)
    ensures AckList(start, counts + [n], ks + [|counts|])
      == AckList(start, counts, ks) + [AckMessage(Counted(start, counts + [n]))]
  {
    hide Counted, AckMessage;
    var all := counts + [n];
    forall i | 0 <= i < |ks|
      ensures all[..ks[i] + 1] == counts[..ks[i] + 1]
    {
    }
    assert all[..|counts| + 1] == all;
  }

  lemma {:induction false} CallsThatTell(a: Ack, counts: seq<nat>, sends: nat -> bool, c: nat) returns (ks: seq<nat>)
    requires AckInv(a) && c >= 1 && forall i :: 0 <= i < |counts| ==> counts[i] < TWO24
    ensures CallsAre(a, counts, sends, c, ks)
    decreases |counts|
  {
    if counts == [] {
      ks := [];
    } else {
      var before, n := counts[..|counts| - 1], counts[|counts| - 1];
      ks := CallsThatTell(a, before, sends, c);
      assert counts == before + [n];
      ks := OneMoreCall(a, before, n, sends, c, ks);
    }
  }

  /** What one more call makes of the counter, and what it writes. */
  lemma CounterMoves(a: Ack, counts: seq<nat>, n: nat, sends: nat -> bool, c: nat, ks: seq<nat>, more: seq<nat>)
    requires c >= 1 && n < TWO24 && AckInv(CountAll(a, counts, sends))
    requires CountAll(a, counts, sends) == Ack(a.window, Counted(a.total, counts), Told(a.total, a.last, counts, ks))
    requires more == if Due(a, counts + [n], sends, ks, |counts|) then ks + [|counts|] else ks
    requires |counts| !in ks && Told(a.total, a.last, counts, more) == Told(a.total, a.last, counts, ks)
    ensures var all := counts + [n];
      var b, total := CountAll(a, all, sends), Counted(a.total, all);
      && AckInv(b) && b == Ack(a.window, total, Told(a.total, a.last, all, more))
      && AcksFor(a, all, sends, c) == AcksFor(a, counts, sends, c)
         + if Due(a, all, sends, ks, |counts|) then Written(2, Message(3, 0, 0, BE32(total)), c) else []
  {
    hide Written, Count, AckFor, Record, AckInv, AcksFor, CountAll, BE32;
    var all, k := counts + [n], |counts|;
    assert all[..k] == counts && all[..k + 1] == all;
    OneMoreCounted(a, counts, n, sends, c);
    CallIs(CountAll(a, counts, sends), n, sends(k), c);
  }

  /** The list and the bytes of one more call. */
  lemma OneMoreCall(a: Ack, counts: seq<nat>, n: nat, sends: nat -> bool, c: nat, ks: seq<nat>)
    returns (more: seq<nat>)
    requires c >= 1 && n < TWO24 && CallsAre(a, counts, sends, c, ks)
    ensures CallsAre(a, counts + [n], sends, c, more)
  {
    hide Written, AckInv, AreTold, WrittenAll, AcksFor, CountAll, SizesPositive, BE32, Due, Counted, Told;
    assert Rising(ks, |counts|) by { ToldIsRising(a, counts, sends, ks); }
    var due := Due(a, counts + [n], sends, ks, |counts|);
    more := if due then ks + [|counts|] else ks;
    StaysTold(a, counts, n, sends, ks, more);
    CounterMoves(a, counts, n, sends, c, ks, more);
    ListIsWritten(a.total, counts, n, ks, c, due);
  }

  lemma ToldIsRising(a: Ack, counts: seq<nat>, sends: nat -> bool, ks: seq<nat>)
    requires AreTold(a, counts, sends, ks)
    ensures Rising(ks, |counts|)
  {
  }

  lemma ListIsWritten(start: nat, counts: seq<nat>, n: nat, ks: seq<nat>, c: nat, due: bool)
    requires c >= 1 && Rising(ks, |counts|) && SizesPositive(AckList(start, counts, ks), c)
    ensures var all := counts + [n]; var more := if due then ks + [|counts|] else ks;
      && Rising(more, |all|) && SizesPositive(AckList(start, all, more), c)
      && WrittenAll(AckList(start, all, more), c) == WrittenAll(AckList(start, counts, ks), c)
         + if due then Written(2, Message(3, 0, 0, BE32(Counted(start, all))), c) else []
  {
    hide Written, WrittenAll, BE32, Counted;
    ListGrows(start, counts, n, ks);
    var soFar := AckList(start, counts, ks);
    NoSizeChange(soFar, c);
    WrittenAllSnoc(soFar, AckMessage(Counted(start, counts + [n])), c);
    assert WrittenAll(soFar, c) + [] == WrittenAll(soFar, c);
  }

  // ----- what the client reads ------------------------------------------------------------------------

  lemma {:induction false} AcksAreWritable(ms: seq<(nat, Message)>, c: nat)
    requires 1 <= c < TWO24
    requires forall i :: 0 <= i < |ms| ==>
      ms[i].0 == 2 && ms[i].1 == Message(3, 0, 0, ms[i].1.body) && |ms[i].1.body| == 4
    ensures AllWritable(ms, c)
    decreases |ms|
  {
    if ms != [] { AcksAreWritable(ms[1..], c); }
  }

  lemma {:induction false} CountedBound(start: nat, counts: seq<nat>)
    requires start < 0xf000_0000
    ensures Counted(start, counts) < 0xf000_0000
    decreases |counts|
  {
  }

  /** Below the reset mark it is the sum of what was counted. */
  lemma {:induction false} CountedIsSum(start: nat, counts: seq<nat>, k: nat)
    requires k <= |counts| && start + Sum(counts) < 0xf000_0000
    ensures Counted(start, counts[..k]) == start + Sum(counts[..k])
    decreases |counts|, k
  {
    if counts != [] {
      var front := counts[..|counts| - 1];
      SumSnoc(counts);
      if k < |counts| {
        assert front[..k] == counts[..k];
        CountedIsSum(start, front, k);
      } else {
        assert counts[..k] == counts && front[..k - 1] == front;
        CountedIsSum(start, front, k - 1);
      }
    }
  }

  /** A client that reads what the counter wrote finds, on chunk stream 2 and in order, one message of
      type 3 for each call with a window's worth untold, and in it the bytes counted by that call. */
  lemma AcksReadBack(a: Ack, counts: seq<nat>, sends: nat -> bool, c: nat) returns (ks: seq<nat>)
    requires a.last <= a.total < 0xf000_0000 && 1 <= c < 0x100_0000
    requires forall i :: 0 <= i < |counts| ==> counts[i] < 0x100_0000
    ensures AreTold(a, counts, sends, ks)
    ensures var t := Drain(Parser(map[], c), AcksFor(a, counts, sends, c), true);
      && t.error == EOF && |t.delivered| == |ks|
      && forall i :: 0 <= i < |ks| ==>
           var (id, m) := t.delivered[i];
           && id == 2 && m.kind == 3 && m.timestamp == 0 && m.streamID == 0 && |m.body| == 4
           && FromBE32(m.body) == Counted(a.total, counts[..ks[i] + 1])
           && (a.total + Sum(counts) < 0xf000_0000 ==> FromBE32(m.body) == a.total + Sum(counts[..ks[i] + 1]))
  {
    hide Drain, WrittenAll, AcksFor, CountAll, Counted, Told, Sum, BE32, FromBE32;
    ks := CallsThatTell(a, counts, sends, c);
    var ms := AckList(a.total, counts, ks);
    forall i | 0 <= i < |ms|
      ensures ms[i].0 == 2 && ms[i].1 == Message(3, 0, 0, ms[i].1.body)
      ensures |ms[i].1.body| == 4 && FromBE32(ms[i].1.body) == Counted(a.total, counts[..ks[i] + 1])
      ensures a.total + Sum(counts) < 0xf000_0000 ==>
        Counted(a.total, counts[..ks[i] + 1]) == a.total + Sum(counts[..ks[i] + 1])
    {
      if a.total + Sum(counts) < 0xf000_0000 { CountedIsSum(a.total, counts, ks[i] + 1); }
      CountedBound(a.total, counts[..ks[i] + 1]);
      RoundTripBE32(Counted(a.total, counts[..ks[i] + 1]));
    }
    AcksAreWritable(ms, c);
    FollowsSizeChanges(Parser(map[], c), ms);
  }
}
