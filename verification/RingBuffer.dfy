/**
 The per-subscriber ring buffer: free-running uint32 positions over a power-of-two array.
 With whole operations it is a bounded queue that drops the oldest or the newest message.
 */
module RingBuffers {
  import opened Bits

  datatype Strategy = DropOldest | DropNewest

  /** uint32 subtraction. */
  function Sub32(a: nat, b: nat): (d: nat)
    ensures d < TWO32
  {
    (a - b) % TWO32
  }

  function Next32(a: nat): (n: nat)
    ensures n < TWO32
  {
    (a + 1) % TWO32
  }

  /** The distance between two wrapped counters is their true distance while it fits in a uint32. */
  lemma WrappedDistance(w: nat, r: nat)
    requires r <= w < r + TWO32
    ensures Sub32(w % TWO32, r % TWO32) == w - r
  {
  }

  lemma WrappedEqual(w: nat, r: nat)
    requires r <= w < r + TWO32
    ensures w % TWO32 == r % TWO32 <==> w == r
  {
  }

  /** A wrapped counter still names the same slot, because the ring size divides 2^32. */
  lemma WrappedIndex(pos: nat, size: nat)
    requires IsPow2(size) && size <= TWO31
    ensures Index(pos % TWO32, size) == pos % size
  {
    Two32IsPow2();
    Pow2Divides(size, TWO32);
    ModOfMod(pos, size, TWO32);
  }

  lemma NextWrapped(pos: nat)
    ensures Next32(pos % TWO32) == (pos + 1) % TWO32
  {
  }

  /** Messages `from..|acc|` sit in the slots their positions name. */
  ghost predicate Window<T>(buf: seq<Option<T>>, acc: seq<T>, from: nat, size: nat) {
    && 0 < size == |buf| && from <= |acc| <= from + size
    && forall k :: from <= k < |acc| ==> buf[k % size] == Some(acc[k])
  }

  lemma WindowPush<T>(buf: seq<Option<T>>, acc: seq<T>, from: nat, size: nat, m: T)
    requires Window(buf, acc, from, size) && |acc| < from + size
    ensures Window(buf[|acc| % size := Some(m)], acc + [m], from, size)
  {
    var buf', acc' := buf[|acc| % size := Some(m)], acc + [m];
    forall k | from <= k < |acc'| ensures buf'[k % size] == Some(acc'[k]) {
      if k < |acc| && k % size == |acc| % size {
        SameSlot(k, |acc|, size);
      }
    }
  }

  /** A bounded queue that, when full, drops its oldest message or refuses the newest. */
  function Push<T>(q: seq<T>, m: T, size: nat, strategy: Strategy): seq<T> {
    if |q| < size then q + [m]
    else if strategy == DropOldest && q != [] then q[1..] + [m]
    else q
  }

  function PushAll<T>(ms: seq<T>, size: nat, strategy: Strategy): seq<T> {
    if ms == [] then [] else Push(PushAll(ms[..|ms| - 1], size, strategy), ms[|ms| - 1], size, strategy)
  }

  lemma PushOne<T>(ms: seq<T>, m: T, size: nat)
    requires size > 0
    ensures var n := |ms| - size; var all := ms + [m];
      && Push(if n <= 0 then ms else ms[n..], m, size, DropOldest) == (if n + 1 <= 0 then all else all[n + 1..])
      && Push(if n <= 0 then ms else ms[..size], m, size, DropNewest) == (if n + 1 <= 0 then all else all[..size])
  {
  }

  /** Writing any number of messages with nobody reading leaves the last `size` of them, or the first. */
  lemma {:induction false} PushAllKeeps<T>(ms: seq<T>, size: nat)
    requires size > 0
    ensures PushAll(ms, size, DropOldest) == if |ms| <= size then ms else ms[|ms| - size..]
    ensures PushAll(ms, size, DropNewest) == if |ms| <= size then ms else ms[..size]
  {
    if ms != [] {
      var front, m := ms[..|ms| - 1], ms[|ms| - 1];
      assert ms == front + [m];
      hide Push;
      PushAllKeeps(front, size);
      PushOne(front, m, size);
    }
  }

  class RingBuffer<T> {
    const size: nat
    const strategy: Strategy
    const buffer: array<Option<T>>
    var writePos: nat
    var readPos: nat
    var dropped: nat

    ghost var accepted: seq<T>  // every message ever written, in order
    ghost var taken: nat        // how many were read
    ghost var evicted: nat      // how many were dropped as the oldest

    ghost predicate Valid()
      reads this, buffer
    {
      && IsPow2(size) && size <= TWO31
      && Window(buffer[..], accepted, taken + evicted, size)
      && writePos == |accepted| % TWO32 && readPos == (taken + evicted) % TWO32
      && (if strategy == DropOldest then dropped == evicted else evicted == 0)
    }

    /** The queue the buffer stands for. */
    ghost function Held(): seq<T>
      reads this
    {
      if taken + evicted <= |accepted| then accepted[taken + evicted..] else []
    }

    constructor (capacity: nat, strategy: Strategy)
      requires capacity <= TWO31  // the doubling loop never ends above that
      ensures Valid() && fresh(buffer) && Held() == [] && dropped == 0
      ensures this.strategy == strategy && size == Rounded(capacity)
    {
      var n := RoundUpPow2(capacity);
      Pow2Fits(n);
      size := n;
      this.strategy := strategy;
      buffer := new Option<T>[n](_ => None);
      writePos, readPos, dropped := 0, 0, 0;
      accepted, taken, evicted := [], 0, 0;
    }

    method Write(msg: Option<T>) returns (ok: bool)
      requires Valid()
      modifies this, buffer
      ensures Valid()
      ensures Held() == if msg.None? then old(Held()) else Push(old(Held()), msg.value, size, strategy)
      ensures ok == (msg.Some? && (|old(Held())| < size || strategy == DropOldest))
      ensures dropped == old(dropped) + if msg.Some? && |old(Held())| == size then 1 else 0
      ensures accepted == if ok then old(accepted) + [msg.value] else old(accepted)
      ensures taken == old(taken)
    {
      if msg.None? {
        return false;
      }
      assert Sub32(writePos, readPos) == |accepted| - (taken + evicted) by {
        WrappedDistance(|accepted|, taken + evicted);
      }
      if Sub32(writePos, readPos) >= size {
        dropped := dropped + 1;
        if strategy == DropOldest {
          assert Next32(readPos) == (taken + evicted + 1) % TWO32 by { NextWrapped(taken + evicted); }
          readPos := Next32(readPos);
          evicted := evicted + 1;
        } else {
          return false;
        }
      }
      Place(msg.value);
      return true;
    }

    /** The slot store and position store that end a successful `Write`. */
    method Place(m: T)
      requires Valid() && |Held()| < size
      modifies this`writePos, this`accepted, buffer
      ensures Valid() && accepted == old(accepted) + [m]
      ensures Held() == old(Held()) + [m]
    {
      hide Index, Next32, IsPow2;
      ghost var was, acc, from := buffer[..], accepted, taken + evicted;
      var i := Index(writePos, size);
      assert i == |acc| % size by { WrappedIndex(|acc|, size); }
      buffer[i] := Some(m);
      assert buffer[..] == was[i := Some(m)];
      assert Next32(writePos) == |acc + [m]| % TWO32 by { NextWrapped(|acc|); }
      writePos := Next32(writePos);
      accepted := accepted + [m];
      assert Window(buffer[..], accepted, from, size) by { WindowPush(was, acc, from, size, m); }
    }

    method Read() returns (msg: Option<T>, ok: bool)
      requires Valid()
      modifies this`readPos, this`taken
      ensures Valid()
      ensures ok == (old(Held()) != [])
      ensures msg == if ok then Some(old(Held())[0]) else None
      ensures Held() == if ok then old(Held())[1..] else []
      ensures taken == old(taken) + if ok then 1 else 0
    {
      ghost var from := taken + evicted;
      assert readPos == writePos <==> from == |accepted| by { WrappedEqual(|accepted|, from); }
      if readPos == writePos {
        return None, false;
      }
      var i := Index(readPos, size);
      assert i == from % size by { WrappedIndex(from, size); }
      assert buffer[..][i] == Some(accepted[from]);
      msg := buffer[i];
      assert Next32(readPos) == (from + 1) % TWO32 by { NextWrapped(from); }
      readPos := Next32(readPos);
      taken := taken + 1;
      ok := true;
    }

    method Available() returns (n: nat)
      requires Valid()
      ensures n + |Held()| == size
      ensures |accepted| == taken + |Held()| + evicted
    {
      WrappedDistance(|accepted|, taken + evicted);
      n := size - Sub32(writePos, readPos);
    }
  }
}
