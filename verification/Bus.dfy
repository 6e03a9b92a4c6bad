/**
 The stream bus with whole operations: a ring of pointers, an arena, subscribers that are
 cursors, and the stream that owns them. Each class is proved against the simple thing it
 stands for: an unbounded list of published messages read by independent cursors.
 */
module Bus {
  import opened Bits
  import opened Bytes
  import opened RingBuffers
  import opened Storage

  /** First position a log of `size` slots still holds after `n` publishes. */
  function Oldest(n: nat, size: nat): (o: nat)
    ensures o <= n <= o + size && (o == 0 || o + size == n)
  {
    if n > size then n - size else 0
  }

  datatype Reading<T> = Reading(next: nat, msg: Option<T>, skipped: nat, ok: bool)

  /** A cursor over the whole history that skips only what the ring no longer holds. */
  function ReadHistory<T>(history: seq<T>, size: nat, at: nat): Reading<T>
    requires size > 0
  {
    if at >= |history| then Reading(at, None, 0, false)
    else
      var o := Oldest(|history|, size);
      var from := if at < o then o else at;
      Reading(from + 1, Some(history[from]), from - at, true)
  }

  /** A cursor at most `size` behind reads on where it is; one further behind is moved to the message
      `size` before the end, and what it passes over is counted. */
  lemma ReadRule<T>(history: seq<T>, size: nat, at: nat)
    requires size > 0 && at < |history|
    ensures var r := ReadHistory(history, size, at); var to := |history| - size;
      && r.ok && (|history| - at <= size ==> r == Reading(at + 1, Some(history[at]), 0, true))
      && (|history| - at > size ==> r == Reading(to + 1, Some(history[to]), to - at, true))
  {
  }

  class SharedLog<T> {
    const size: nat
    const buf: array<Option<T>>
    var nextSeq: nat
    ghost var history: seq<T>

    ghost predicate Valid()
      reads this, buf
    {
      && IsPow2(size) && nextSeq == |history|
      && Window(buf[..], history, Oldest(nextSeq, size), size)
    }

    constructor (capacity: nat)
      ensures Valid() && fresh(buf) && history == [] && nextSeq == 0
      ensures size == Rounded(capacity)
    {
      var n := RoundUpPow2(capacity);
      size := n;
      buf := new Option<T>[n](_ => None);
      nextSeq := 0;
      history := [];
    }

    method Publish(msg: Option<T>) returns (seqNo: nat)
      requires Valid()
      modifies this`nextSeq, this`history, buf
      ensures Valid() && seqNo == nextSeq
      ensures history == if msg.None? then old(history) else old(history) + [msg.value]
    {
      if msg.None? {
        return nextSeq;
      }
      ghost var was, h := buf[..], history;
      nextSeq := nextSeq + 1;
      seqNo := nextSeq;
      var i := Index(seqNo - 1, size);
      buf[i] := msg;
      history := history + [msg.value];
      assert buf[..] == was[|h| % size := msg];
      assert Window(was, h, Oldest(nextSeq, size), size);
      WindowPush(was, h, Oldest(nextSeq, size), size, msg.value);
    }

    /** `at & mask` is the only slot looked at; it holds what the unbounded history holds. */
    method ReadAt(at: nat) returns (r: Reading<T>)
      requires Valid()
      ensures r == ReadHistory(history, size, at)
    {
      var pubSeq := nextSeq;
      if at >= pubSeq {
        return Reading(at, None, 0, false);
      }
      var gap := pubSeq - at;
      var from, skipped := at, 0;
      if gap > size {
        skipped := gap - size;
        from := pubSeq - size;
      }
      assert buf[..][from % size] == Some(history[from]);
      return Reading(from + 1, buf[Index(from, size)], skipped, true);
    }
  }

  class Arena {
    const slots: nat
    const slot: nat
    const base: array<Byte>
    var cursor: nat

    ghost predicate Valid()
      reads this
    {
      IsPow2(slots) && base.Length == slots * slot
    }

    constructor (slots: nat, slotSize: nat)
      ensures Valid() && fresh(base) && cursor == 0 && slots <= this.slots == Rounded(slots) && slot == slotSize
      ensures base[..] == seq(this.slots * slot, _ => 0)
    {
      var n := RoundUpPow2(slots);
      this.slots := n;
      slot := slotSize;
      assert n * slotSize >= 0;
      base := new Byte[n * slotSize](_ => 0);
      cursor := 0;
    }

    /** An empty view of the next slot, or an empty private buffer when `size` does not fit. */
    method Acquire(size: nat) returns (view: Slice)
      requires Valid()
      modifies this`cursor
      ensures Valid()
      ensures size > slot ==> view == Heap([]) && cursor == old(cursor)
      ensures size <= slot ==> view == View(Offset(old(cursor), slots, slot), 0) && cursor == old(cursor) + 1
    {
      if size > slot {
        return Heap([]);
      }
      var n := cursor;
      cursor := cursor + 1;
      view := View(Offset(n, slots, slot), 0);
    }

    /** `append` of a payload that fits its slot, byte by byte. */
    method Append(view: Slice, payload: seq<Byte>) returns (r: Slice)
      requires Valid() && (view.View? ==> view.len == 0 && view.off + |payload| <= base.Length)
      requires view == Heap([]) || view.View?
      modifies base
      ensures r == if view.View? then View(view.off, |payload|) else Heap(payload)
      ensures base[..] == if view.View? then Splice(old(base[..]), view.off, payload) else old(base[..])
    {
      if view.Heap? {
        return Heap(payload);
      }
      ghost var was := base[..];
      var off := view.off;
      for k := 0 to |payload|
        invariant forall j :: 0 <= j < k ==> base[off + j] == payload[j]
        invariant forall j :: 0 <= j < base.Length && !(off <= j < off + k) ==> base[j] == was[j]
      {
        base[off + k] := payload[k];
      }
      assert base[..] == was[..off] + payload + was[off + |payload|..];
      r := View(off, |payload|);
    }
  }

  /** What a read hands out: a slab pointer from the log or a cached clone. */
  datatype Ref = Slot(i: nat) | Clone(content: Content)

  class Subscriber {
    const id: nat
    const log: SharedLog<nat>
    var cursor: nat
    const pending: seq<Content>
    var pendIdx: nat
    var dropped: nat
    ghost const attach: nat          // log end when the subscriber came
    ghost var delivered: seq<nat>    // log positions handed out so far

    ghost predicate Valid()
      reads this
    {
      && pendIdx <= |pending| && attach <= cursor
      && (pendIdx < |pending| ==> delivered == [])
      && cursor - attach == |delivered| + dropped
      && (forall i :: 0 <= i < |delivered| ==> attach <= delivered[i] < cursor)
      && (forall i, j :: 0 <= i < j < |delivered| ==> delivered[i] < delivered[j])
    }

    constructor (id: nat, log: SharedLog<nat>, pending: seq<Content>)
      ensures Valid() && this.id == id && this.log == log && this.pending == pending
      ensures cursor == attach == log.nextSeq && pendIdx == 0 && dropped == 0 && delivered == []
    {
      this.id, this.log, this.pending := id, log, pending;
      cursor, attach := log.nextSeq, log.nextSeq;
      pendIdx, dropped, delivered := 0, 0, [];
    }

    method Read() returns (msg: Option<Ref>, ok: bool)
      requires Valid() && log.Valid()
      modifies this
      ensures Valid()
      ensures old(pendIdx) < |pending| ==>
        && ok && msg == Some(Clone(pending[old(pendIdx)])) && pendIdx == old(pendIdx) + 1
        && cursor == old(cursor) && dropped == old(dropped) && delivered == old(delivered)
      ensures old(pendIdx) == |pending| ==>
        var r := ReadHistory(log.history, log.size, old(cursor));
        && ok == r.ok && cursor == r.next && dropped == old(dropped) + r.skipped && pendIdx == old(pendIdx)
        && msg == (if ok then Some(Slot(r.msg.value)) else None)
        && delivered == old(delivered) + (if ok then [cursor - 1] else [])
    {
      if pendIdx < |pending| {
        msg, ok := Some(Clone(pending[pendIdx])), true;
        pendIdx := pendIdx + 1;
        return;
      }
      var r := log.ReadAt(cursor);
      if !r.ok {
        return None, false;
      }
      dropped := dropped + r.skipped;
      cursor := r.next;
      delivered := delivered + [cursor - 1];
      return Some(Slot(r.msg.value)), true;
    }
  }
}
