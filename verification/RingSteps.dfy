/**
 The ring buffer under one writer and one reader whose atomic loads and stores interleave
 freely. Refusing the newest message keeps it a FIFO; dropping the oldest does not, because
 writer and reader then both advance the read position.
 */
module RingSteps {
  import opened Bits
  import opened RingBuffers

  datatype Writer<M> =
    | WIdle
    | WLoaded(msg: M, w: nat)   // writePos loaded
    | WEvict(msg: M, w: nat)    // full, about to advance readPos
    | WStore(msg: M, w: nat)    // about to store the slot
    | WPublish(msg: M, w: nat)  // slot stored, writePos not yet

  /** `at` is the unwrapped value of the loaded read position. */
  datatype Reader<M> =
    | RIdle
    | RLoaded(r: nat, at: nat)        // readPos loaded
    | RHave(r: nat, at: nat)          // writePos loaded and different
    | RGot(at: nat, msg: Option<M>)   // slot loaded, readPos not yet advanced

  datatype Taken<M> = Taken(at: nat, msg: Option<M>)

  datatype Ring<M> = Ring(
    size: nat, strategy: Strategy, buffer: seq<Option<M>>, writePos: nat, readPos: nat, dropped: nat,
    writer: Writer<M>, reader: Reader<M>,
    accepted: seq<M>,      // messages whose writePos store has happened
    readTotal: nat,        // readPos without the wrap
    evicted: set<nat>,     // positions the writer advanced readPos past
    taken: seq<Taken<M>>)  // what completed reads returned

  datatype Step<M> =
    | WLoad(msg: M) | WCheck | WSkip | WSlot | WAdvance
    | RLoad | RCheck | RSlot | RAdvance

  function Init<M>(size: nat, strategy: Strategy): Ring<M> {
    Ring(size, strategy, seq(size, _ => None), 0, 0, 0, WIdle, RIdle, [], 0, {}, [])
  }

  ghost predicate Shaped<M>(s: Ring<M>) {
    IsPow2(s.size) && s.size <= TWO31 && |s.buffer| == s.size
  }

  function ApplyWriter<M>(s: Ring<M>, step: Step<M>): Ring<M>
    requires Shaped(s)
  {
    match (step, s.writer)
    case (WLoad(m), WIdle) => s.(writer := WLoaded(m, s.writePos))
    case (WCheck, WLoaded(m, w)) =>
      if Sub32(w, s.readPos) < s.size then s.(writer := WStore(m, w))
      else if s.strategy == DropOldest then s.(dropped := s.dropped + 1, writer := WEvict(m, w))
      else s.(dropped := s.dropped + 1, writer := WIdle)
    case (WSkip, WEvict(m, w)) =>
      s.(readPos := Next32(s.readPos), readTotal := s.readTotal + 1,
         evicted := s.evicted + {s.readTotal}, writer := WStore(m, w))
    case (WSlot, WStore(m, w)) =>
      s.(buffer := s.buffer[Index(w, s.size) := Some(m)], writer := WPublish(m, w))
    case (WAdvance, WPublish(m, w)) =>
      s.(writePos := Next32(w), accepted := s.accepted + [m], writer := WIdle)
    case _ => s
  }

  function ApplyReader<M>(s: Ring<M>, step: Step<M>): Ring<M>
    requires Shaped(s)
  {
    match (step, s.reader)
    case (RLoad, RIdle) => s.(reader := RLoaded(s.readPos, s.readTotal))
    case (RCheck, RLoaded(r, at)) => s.(reader := if r == s.writePos then RIdle else RHave(r, at))
    case (RSlot, RHave(r, at)) => s.(reader := RGot(at, s.buffer[Index(r, s.size)]))
    case (RAdvance, RGot(at, m)) =>
      s.(readPos := Next32(s.readPos), readTotal := s.readTotal + 1, reader := RIdle,
         taken := s.taken + [Taken(at, m)])
    case _ => s
  }

  predicate ByWriter<M>(step: Step<M>) {
    step.WLoad? || step.WCheck? || step.WSkip? || step.WSlot? || step.WAdvance?
  }

  function Apply<M>(s: Ring<M>, step: Step<M>): (t: Ring<M>)
    requires Shaped(s)
    ensures Shaped(t)
  {
    if ByWriter(step) then ApplyWriter(s, step) else ApplyReader(s, step)
  }

  function Run<M>(s: Ring<M>, schedule: seq<Step<M>>): (t: Ring<M>)
    requires Shaped(s)
    ensures Shaped(t)
    decreases |schedule|
  {
    if schedule == [] then s else Run(Apply(s, schedule[0]), schedule[1..])
  }

  // ----- refusing the newest is a FIFO ---------------------------------------------------

  ghost predicate WriterInv<M>(s: Ring<M>) {
    var n := |s.accepted|;
    match s.writer
    case WIdle => true
    case WLoaded(m, w) => w == n % TWO32
    case WEvict(_, _) => false
    case WStore(m, w) => w == n % TWO32 && n < s.readTotal + s.size
    case WPublish(m, w) =>
      && w == n % TWO32 && n < s.readTotal + s.size
      && 0 < s.size == |s.buffer| && s.buffer[n % s.size] == Some(m)
  }

  ghost predicate ReaderInv<M>(s: Ring<M>) {
    match s.reader
    case RIdle => true
    case RLoaded(r, at) => r == s.readPos && at == s.readTotal
    case RHave(r, at) => r == s.readPos && at == s.readTotal < |s.accepted|
    case RGot(at, m) => at == s.readTotal < |s.accepted| && m == Some(s.accepted[at])
  }

  ghost predicate TakenInOrder<M>(s: Ring<M>) {
    && |s.taken| == s.readTotal <= |s.accepted| && s.evicted == {}
    && forall i :: 0 <= i < |s.taken| ==> s.taken[i] == Taken(i, Some(s.accepted[i]))
  }

  ghost predicate Inv<M>(s: Ring<M>) {
    && Shaped(s) && s.strategy == DropNewest
    && s.writePos == |s.accepted| % TWO32 && s.readPos == s.readTotal % TWO32
    && Window(s.buffer, s.accepted, s.readTotal, s.size)
    && TakenInOrder(s)
    && WriterInv(s) && ReaderInv(s)
  }

  /** The bounded queue a state stands for. */
  ghost function Queue<M>(s: Ring<M>): seq<M> {
    if s.readTotal <= |s.accepted| then s.accepted[s.readTotal..] else []
  }

  /** What one step may do to the queue, and when it may report full or empty. */
  ghost predicate FifoStep<M>(s: Ring<M>, step: Step<M>, t: Ring<M>) {
    && |Queue(t)| <= s.size
    && (t.dropped != s.dropped ==> step.WCheck? && |Queue(s)| == s.size && Queue(t) == Queue(s))
    && (step.RCheck? && s.reader.RLoaded? && t.reader.RIdle? ==> Queue(s) == [])
    && (if step.WAdvance? && s.writer.WPublish? then
          |Queue(s)| < s.size && Queue(t) == Queue(s) + [s.writer.msg] && t.taken == s.taken
        else if step.RAdvance? && s.reader.RGot? then
          Queue(s) != [] && Queue(t) == Queue(s)[1..] && t.taken == s.taken + [Taken(s.readTotal, Some(Queue(s)[0]))]
        else
          Queue(t) == Queue(s) && t.taken == s.taken)
  }

  /** Where a step leaves the writer: a write goes on iff the queue is not full as it checks, and is
      refused and counted iff it is. */
  ghost predicate WriterMoves<M>(s: Ring<M>, step: Step<M>, t: Ring<M>) {
    match (step, s.writer)
    case (WLoad(m), WIdle) => t.writer.WLoaded? && t.writer.msg == m && t.dropped == s.dropped
    case (WCheck, WLoaded(m, _)) =>
      if |Queue(s)| == s.size then t.writer.WIdle? && t.dropped == s.dropped + 1
      else t.writer.WStore? && t.writer.msg == m && t.dropped == s.dropped
    case (WSlot, WStore(m, _)) => t.writer.WPublish? && t.writer.msg == m && t.dropped == s.dropped
    case (WAdvance, WPublish(_, _)) => t.writer.WIdle? && t.dropped == s.dropped
    case _ => t.writer == s.writer && t.dropped == s.dropped
  }

  /** Where a step leaves the reader: a read goes on iff the queue is not empty as it checks. */
  ghost predicate ReaderMoves<M>(s: Ring<M>, step: Step<M>, t: Ring<M>) {
    match (step, s.reader)
    case (RLoad, RIdle) => t.reader.RLoaded?
    case (RCheck, RLoaded(_, _)) => if Queue(s) == [] then t.reader.RIdle? else t.reader.RHave?
    case (RSlot, RHave(_, _)) => t.reader.RGot? && Queue(s) != [] && t.reader.msg == Some(Queue(s)[0])
    case (RAdvance, RGot(_, _)) => t.reader.RIdle?
    case _ => t.reader == s.reader
  }

  lemma WriterGoesOn<M>(s: Ring<M>, step: Step<M>)
    requires Inv(s)
    ensures WriterMoves(s, step, Apply(s, step))
  {
    WrappedDistance(|s.accepted|, s.readTotal);
  }

  lemma ReaderGoesOn<M>(s: Ring<M>, step: Step<M>)
    requires Inv(s)
    ensures ReaderMoves(s, step, Apply(s, step))
  {
    WrappedEqual(|s.accepted|, s.readTotal);
    if s.reader.RHave? { WrappedIndex(s.readTotal, s.size); }
  }

  lemma CheckRefines<M>(s: Ring<M>)
    requires Inv(s) && s.writer.WLoaded?
    ensures Inv(Apply(s, WCheck)) && FifoStep(s, WCheck, Apply(s, WCheck))
  {
    assert Sub32(s.writer.w, s.readPos) == |s.accepted| - s.readTotal by {
      WrappedDistance(|s.accepted|, s.readTotal);
    }
  }

  lemma SlotRefines<M>(s: Ring<M>)
    requires Inv(s) && s.writer.WStore?
    ensures Inv(Apply(s, WSlot)) && FifoStep(s, WSlot, Apply(s, WSlot))
  {
    var n, t := |s.accepted|, Apply(s, Step<M>.WSlot);
    assert t.buffer == s.buffer[n % s.size := Some(s.writer.msg)] by { WrappedIndex(n, s.size); }
    SlotFree(s.buffer, s.accepted, s.readTotal, s.size, s.writer.msg);
  }

  lemma AdvanceRefines<M>(s: Ring<M>)
    requires Inv(s) && s.writer.WPublish?
    ensures Inv(Apply(s, WAdvance)) && FifoStep(s, WAdvance, Apply(s, WAdvance))
  {
    var n, t := |s.accepted|, Apply(s, Step<M>.WAdvance);
    assert t.writePos == |t.accepted| % TWO32 by { NextWrapped(n); }
    assert Window(t.buffer, t.accepted, t.readTotal, t.size) by {
      assert s.buffer == s.buffer[n % s.size := Some(s.writer.msg)];
      WindowPush(s.buffer, s.accepted, s.readTotal, s.size, s.writer.msg);
    }
    assert Queue(t) == Queue(s) + [s.writer.msg];
  }

  lemma WriterStepRefines<M>(s: Ring<M>, step: Step<M>)
    requires Inv(s) && ByWriter(step)
    ensures Inv(Apply(s, step)) && FifoStep(s, step, Apply(s, step))
  {
    match (step, s.writer) {
      case (WCheck, WLoaded(m, w)) => CheckRefines(s);
      case (WSlot, WStore(m, w)) => SlotRefines(s);
      case (WAdvance, WPublish(m, w)) => AdvanceRefines(s);
      case _ =>
    }
  }

  /** Storing the next slot leaves every held message in place. */
  lemma SlotFree<M>(buf: seq<Option<M>>, acc: seq<M>, from: nat, size: nat, m: M)
    requires Window(buf, acc, from, size) && |acc| < from + size
    ensures Window(buf[|acc| % size := Some(m)], acc, from, size)
  {
    WindowPush(buf, acc, from, size, m);
    forall k | from <= k < |acc| ensures buf[|acc| % size := Some(m)][k % size] == Some(acc[k]) {
      assert (acc + [m])[k] == acc[k];
    }
  }

  lemma ReadAdvances<M>(s: Ring<M>)
    requires Inv(s) && s.reader.RGot?
    ensures Inv(Apply(s, RAdvance)) && FifoStep(s, RAdvance, Apply(s, RAdvance))
  {
    var t := Apply(s, Step<M>.RAdvance);
    assert t.readPos == t.readTotal % TWO32 by { NextWrapped(s.readTotal); }
    assert Window(t.buffer, t.accepted, t.readTotal, t.size);
    assert Queue(t) == Queue(s)[1..];
  }

  lemma ReaderStepRefines<M>(s: Ring<M>, step: Step<M>)
    requires Inv(s) && !ByWriter(step)
    ensures Inv(Apply(s, step)) && FifoStep(s, step, Apply(s, step))
  {
    match (step, s.reader) {
      case (RCheck, RLoaded(r, at)) =>
        WrappedEqual(|s.accepted|, s.readTotal);
      case (RSlot, RHave(r, at)) =>
        assert Index(r, s.size) == at % s.size by { WrappedIndex(at, s.size); }
      case (RAdvance, RGot(at, m)) =>
        ReadAdvances(s);
      case _ =>
    }
  }

  lemma {:induction false} RunKeepsInv<M>(s: Ring<M>, schedule: seq<Step<M>>)
    requires Inv(s)
    ensures Inv(Run(s, schedule))
    decreases |schedule|
  {
    if schedule != [] {
      StepRefinesFifo(s, schedule[0]);
      RunKeepsInv(Apply(s, schedule[0]), schedule[1..]);
    }
  }

  /** Every atomic step of a reachable state is a queue step or invisible, and a write is refused iff
      the queue is full as it checks. */
  lemma StepRefinesFifo<M>(s: Ring<M>, step: Step<M>)
    requires Inv(s)
    ensures Inv(Apply(s, step)) && FifoStep(s, step, Apply(s, step))
    ensures WriterMoves(s, step, Apply(s, step)) && ReaderMoves(s, step, Apply(s, step))
  {
    WriterGoesOn(s, step);
    ReaderGoesOn(s, step);
    if ByWriter(step) { WriterStepRefines(s, step); } else { ReaderStepRefines(s, step); }
  }

  /** Over every schedule: reads return the accepted writes in order, none lost, repeated or torn. */
  lemma DropNewestIsFifo<M>(size: nat, schedule: seq<Step<M>>)
    requires IsPow2(size) && size <= TWO31
    ensures var s := Run(Init<M>(size, DropNewest), schedule);
      && |s.taken| <= |s.accepted| <= |s.taken| + size
      && forall i :: 0 <= i < |s.taken| ==> s.taken[i] == Taken(i, Some(s.accepted[i]))
  {
    RunKeepsInv(Init<M>(size, DropNewest), schedule);
    RunKeepsSize(Init<M>(size, DropNewest), schedule);
  }

  lemma {:induction false} RunKeepsSize<M>(s: Ring<M>, schedule: seq<Step<M>>)
    requires Shaped(s)
    ensures Run(s, schedule).size == s.size && Run(s, schedule).strategy == s.strategy
    decreases |schedule|
  {
    if schedule != [] { RunKeepsSize(Apply(s, schedule[0]), schedule[1..]); }
  }

  // ----- undisturbed, either strategy is the bounded queue ----------------------------------

  /** Nobody mid-operation, and every held message in its slot. */
  ghost predicate Settled<M>(s: Ring<M>) {
    && Shaped(s) && s.writer == WIdle && s.reader == RIdle
    && s.writePos == |s.accepted| % TWO32 && s.readPos == s.readTotal % TWO32
    && Window(s.buffer, s.accepted, s.readTotal, s.size)
  }

  /** The part of a write that makes room: past the check, and past the eviction if there is one. */
  lemma MakesRoom<M>(s: Ring<M>, m: M)
    requires Settled(s)
    ensures var t := Apply(Apply(Apply(s, WLoad(m)), WCheck), WSkip);
      var full := |Queue(s)| == s.size;
      var evicts := full && s.strategy == DropOldest;
      && t.dropped == s.dropped + (if full then 1 else 0)
      && t.writer == (if full && !evicts then WIdle else WStore(m, |s.accepted| % TWO32))
      && t.readTotal == s.readTotal + (if evicts then 1 else 0)
      && t == s.(readPos := t.readTotal % TWO32, readTotal := t.readTotal, dropped := t.dropped,
                 evicted := s.evicted + (if evicts then {s.readTotal} else {}), writer := t.writer)
  {
    WrappedDistance(|s.accepted|, s.readTotal);
    NextWrapped(s.readTotal);
  }

  /** The part that stores and announces. */
  lemma Lands<M>(s: Ring<M>, m: M)
    requires Shaped(s) && s.reader == RIdle && s.writer == WStore(m, |s.accepted| % TWO32)
    requires s.writePos == |s.accepted| % TWO32 && s.readPos == s.readTotal % TWO32
    requires Window(s.buffer, s.accepted, s.readTotal, s.size) && |s.accepted| < s.readTotal + s.size
    ensures var t := Apply(Apply(s, WSlot), WAdvance);
      && Settled(t) && t.accepted == s.accepted + [m] && t.readTotal == s.readTotal && t.dropped == s.dropped
  {
    WrappedIndex(|s.accepted|, s.size);
    WindowPush(s.buffer, s.accepted, s.readTotal, s.size, m);
    NextWrapped(|s.accepted|);
  }

  /** A write with nobody in between: what it does to the queue under either strategy. */
  lemma UndisturbedWrite<M>(s: Ring<M>, m: M)
    requires Settled(s)
    ensures var t := Apply(Apply(Apply(Apply(Apply(s, WLoad(m)), WCheck), WSkip), WSlot), WAdvance);
      && Settled(t) && Queue(t) == Push(Queue(s), m, s.size, s.strategy)
      && t.dropped == s.dropped + if |Queue(s)| == s.size then 1 else 0
  {
    MakesRoom(s, m);
    var u := Apply(Apply(Apply(s, WLoad(m)), WCheck), WSkip);
    hide Apply;
    if u.writer.WStore? {
      assert Window(u.buffer, u.accepted, u.readTotal, u.size);
      Lands(u, m);
    } else {
      IdleWriter(u);
    }
  }

  lemma IdleWriter<M>(s: Ring<M>)
    requires Shaped(s) && s.writer == WIdle
    ensures Apply(s, WSlot) == s && Apply(s, WAdvance) == s
  {
  }

  // ----- dropping the oldest is not --------------------------------------------------------

  /** Every accepted message the read position has passed was delivered or deliberately dropped. */
  ghost predicate Accounted<M>(s: Ring<M>) {
    forall k: nat :: k < s.readTotal && k < |s.accepted| ==> k in s.evicted || Delivered(s, k)
  }

  ghost predicate Delivered<M>(s: Ring<M>, k: nat) {
    exists i :: 0 <= i < |s.taken| && s.taken[i].at == k
  }

  lemma {:induction false} RunConcat<M>(s: Ring<M>, a: seq<Step<M>>, b: seq<Step<M>>)
    requires Shaped(s)
    ensures Run(s, a + b) == Run(Run(s, a), b)
    decreases |a|
  {
    if a == [] {
      assert a + b == b;
    } else {
      assert (a + b)[1..] == a[1..] + b;
      RunConcat(Apply(s, a[0]), a[1..], b);
    }
  }

  ghost predicate Reachable<M(!new)>(size: nat, strategy: Strategy, t: Ring<M>)
    requires IsPow2(size) && size <= TWO31
  {
    exists schedule: seq<Step<M>> :: Run(Init<M>(size, strategy), schedule) == t
  }

  lemma Extend<M(!new)>(size: nat, strategy: Strategy, t: Ring<M>, step: Step<M>, u: Ring<M>)
    requires IsPow2(size) && size <= TWO31 && Shaped(t)
    requires Reachable(size, strategy, t) && Apply(t, step) == u
    ensures Reachable(size, strategy, u)
  {
    var schedule :| Run(Init<M>(size, strategy), schedule) == t;
    RunConcat(Init<M>(size, strategy), schedule, [step]);
    assert Run(t, [step]) == u by { assert Run(u, []) == u; }
    assert Run(Init<M>(size, strategy), schedule + [step]) == u;
  }

  /** Nothing read yet, nobody mid-operation, `n` messages in the ring. */
  ghost predicate Filled<M(!new)>(size: nat, n: nat, s: Ring<M>)
    requires IsPow2(size) && size <= TWO31
  {
    && Shaped(s) && s.size == size && s.strategy == DropOldest && Reachable(size, DropOldest, s)
    && s.writePos == n && s.readPos == s.readTotal == 0 && s.writer == WIdle && s.reader == RIdle
    && s.evicted == {} && s.taken == [] && |s.accepted| == n
  }

  lemma FillOne<M(!new)>(size: nat, n: nat, m: M, s0: Ring<M>) returns (s4: Ring<M>)
    requires IsPow2(size) && n < size <= TWO31 && Filled(size, n, s0)
    ensures Filled(size, n + 1, s4)
  {
    var s1 := Apply(s0, WLoad(m));
    Extend(size, DropOldest, s0, WLoad(m), s1);
    var s2 := Apply(s1, Step<M>.WCheck);
    Extend(size, DropOldest, s1, WCheck, s2);
    s4 := FinishWrite(size, n, m, s2);
  }

  lemma FinishWrite<M(!new)>(size: nat, n: nat, m: M, s2: Ring<M>) returns (s4: Ring<M>)
    requires IsPow2(size) && n < size == s2.size <= TWO31 && s2.writer == WStore(m, n)
    requires Shaped(s2) && Reachable(size, DropOldest, s2)
    ensures s4 == s2.(buffer := s4.buffer, writePos := n + 1, accepted := s2.accepted + [m], writer := WIdle)
    ensures Shaped(s4) && Reachable(size, DropOldest, s4)
  {
    FinishWriteSteps(n, m, s2);
    var s3 := Apply(s2, Step<M>.WSlot);
    Extend(size, DropOldest, s2, WSlot, s3);
    s4 := Apply(s3, Step<M>.WAdvance);
    Extend(size, DropOldest, s3, WAdvance, s4);
  }

  lemma FinishWriteSteps<M>(n: nat, m: M, s2: Ring<M>)
    requires Shaped(s2) && n < s2.size && s2.writer == WStore(m, n)
    ensures var s4 := Apply(Apply(s2, WSlot), WAdvance);
      s4 == s2.(buffer := s4.buffer, writePos := n + 1, accepted := s2.accepted + [m], writer := WIdle)
  {
    var s3 := Apply(s2, Step<M>.WSlot);
    assert s3 == s2.(buffer := s3.buffer, writer := WPublish(m, n));
    assert Next32(n) == n + 1;
    hide Index, IsPow2, Next32;
  }

  lemma {:induction false} Fill<M(!new)>(size: nat, n: nat, m: M) returns (s: Ring<M>)
    requires IsPow2(size) && n <= size <= TWO31
    ensures Filled(size, n, s)
  {
    if n == 0 {
      s := Init<M>(size, DropOldest);
      assert Run(s, []) == s;
    } else {
      var before := Fill(size, n - 1, m);
      s := FillOne(size, n - 1, m, before);
    }
  }

  /** Full ring: the writer skips position 0 while the reader is still delivering it; 1 is lost. */
  lemma RaceLoses<M(!new)>(size: nat, m: M) returns (lost: Ring<M>)
    requires IsPow2(size) && size <= TWO31
    ensures Reachable(size, DropOldest, lost) && !Accounted(lost)
  {
    var s0 := Fill(size, size, m);
    var s1 := s0.(reader := RLoaded(0, 0));
    Extend(size, DropOldest, s0, RLoad, s1);
    var s2 := s0.(reader := RHave(0, 0));
    Extend(size, DropOldest, s1, RCheck, s2);
    var s3 := s2.(writer := WLoaded(m, size));
    Extend(size, DropOldest, s2, WLoad(m), s3);
    var s4 := s2.(writer := WEvict(m, size), dropped := s0.dropped + 1);
    Extend(size, DropOldest, s3, WCheck, s4);
    lost := RaceEnds(size, s4);
  }

  lemma RaceEnds<M(!new)>(size: nat, s4: Ring<M>) returns (lost: Ring<M>)
    requires IsPow2(size) && size <= TWO31 && Shaped(s4) && Reachable(size, DropOldest, s4)
    requires s4.reader == RHave(0, 0) && s4.writer.WEvict?
    requires s4.readPos == s4.readTotal == 0 && s4.evicted == {} && s4.taken == [] && |s4.accepted| >= 1
    ensures Reachable(size, DropOldest, lost) && !Accounted(lost)
  {
    var s5 := Apply(s4, Step<M>.WSkip);
    Extend(size, DropOldest, s4, WSkip, s5);
    var s6 := Apply(s5, Step<M>.RSlot);
    Extend(size, DropOldest, s5, RSlot, s6);
    var s7 := Apply(s6, Step<M>.RAdvance);
    Extend(size, DropOldest, s6, RAdvance, s7);
    lost := RaceWrites(size, s7);
    assert 1 < lost.readTotal && 1 !in lost.evicted && !Delivered(lost, 1);
  }

  /** The writer finishes; the message it wrote may be the one already passed. */
  lemma RaceWrites<M(!new)>(size: nat, s: Ring<M>) returns (t: Ring<M>)
    requires IsPow2(size) && size <= TWO31 && Shaped(s) && Reachable(size, DropOldest, s) && s.writer.WStore?
    ensures Reachable(size, DropOldest, t) && |t.accepted| == |s.accepted| + 1
    ensures t.readTotal == s.readTotal && t.evicted == s.evicted && t.taken == s.taken
  {
    var u := Apply(s, Step<M>.WSlot);
    Extend(size, DropOldest, s, WSlot, u);
    t := Apply(u, Step<M>.WAdvance);
    Extend(size, DropOldest, u, WAdvance, t);
  }

  lemma InOrderIsAccounted<M>(s: Ring<M>)
    requires TakenInOrder(s)
    ensures Accounted(s)
  {
    forall k: nat | k < s.readTotal ensures Delivered(s, k) {
      assert s.taken[k].at == k;
    }
  }

  /** No schedule loses a message. */
  ghost predicate Lossless<M(!new)>(size: nat, strategy: Strategy)
    requires IsPow2(size) && size <= TWO31
  {
    forall s: Ring<M> :: Reachable(size, strategy, s) ==> Accounted(s)
  }

  /** The strategies told apart: no message goes missing in any schedule iff the newest is refused. */
  lemma LosslessIffDropNewest<M(!new)>(size: nat, strategy: Strategy, m: M)
    requires IsPow2(size) && size <= TWO31
    ensures Lossless<M>(size, strategy) <==> strategy == DropNewest
  {
    if strategy == DropNewest {
      forall s: Ring<M> | Reachable(size, strategy, s) ensures Accounted(s) {
        var schedule :| Run(Init<M>(size, strategy), schedule) == s;
        RunKeepsInv(Init<M>(size, strategy), schedule);
        InOrderIsAccounted(s);
      }
    } else {
      var lost := RaceLoses(size, m);
      assert Reachable(size, strategy, lost) && !Accounted(lost);
    }
  }
}
