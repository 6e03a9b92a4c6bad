/**
 Recycled storage behind the log: a slab of message structs and an arena of payload slots,
 both reused by wrap-around while the log still points into them. One producer runs the
 acquire, describe, buy, fill, emit discipline of a publish; each is a step, and readers may
 look between any two.
 */
module Storage {
  import opened Bits
  import opened Bytes

  /** A payload: nothing, a private allocation, or a view into the arena. */
  datatype Slice = Nil | Heap(bytes: seq<Byte>) | View(off: nat, len: nat)

  datatype MediaMessage = MediaMessage(kind: nat, timestamp: nat, payload: Slice, isInit: bool)

  /** What a message says, wherever its bytes live. */
  datatype Content = Content(kind: nat, timestamp: nat, bytes: seq<Byte>, isInit: bool)

  const ZERO := MediaMessage(0, 0, Nil, false)

  /** A finished publish: what was published, and the arena acquisition that holds its payload. */
  datatype Issue = Issue(content: Content, ticket: Option<nat>)

  datatype Phase = Idle | Acquired | Described | Bought(ticket: Option<nat>) | Filled(ticket: Option<nat>)

  datatype Store = Store(
    logSize: nat,              // slots of the shared log
    slots: nat, slot: nat,     // arena geometry
    msgs: seq<MediaMessage>, msgCur: nat,
    base: seq<Byte>, cursor: nat,
    log: seq<nat>,             // every slab index published, oldest first
    phase: Phase, draft: Content,
    issues: seq<Issue>)

  datatype Step = Acquire(content: Content) | Describe | Buy | Fill | Emit

  predicate Shaped(s: Store) {
    && 1 <= |s.msgs| <= s.slots && IsPow2(s.slots) && |s.base| == s.slots * s.slot
    && (s.phase.Idle? || s.msgCur > 0)
  }

  function Init(logSize: nat, arenaSlots: nat, slots: nat, slot: nat): Store {
    Store(logSize, slots, slot, seq(arenaSlots, _ => ZERO), 0, seq(slots * slot, _ => 0), 0,
          [], Idle, Content(0, 0, [], false), [])
  }

  /** Slab index of the message being built. */
  function Mine(s: Store): (i: nat)
    requires Shaped(s) && !s.phase.Idle?
    ensures i < |s.msgs|
  {
    (s.msgCur - 1) % |s.msgs|
  }

  function Offset(ticket: nat, slots: nat, slot: nat): nat
    requires IsPow2(slots)
  {
    Index(ticket, slots) * slot
  }

  /** `append` into an arena view overwrites the bytes at its start. */
  function Splice(base: seq<Byte>, off: nat, bytes: seq<Byte>): (r: seq<Byte>)
    ensures |r| == |base|
  {
    if off + |bytes| <= |base| then base[..off] + bytes + base[off + |bytes|..] else base
  }

  function SliceOf(ticket: Option<nat>, bytes: seq<Byte>, slots: nat, slot: nat): Slice
    requires IsPow2(slots)
  {
    match ticket
    case None => Heap(bytes)
    case Some(t) => View(Offset(t, slots, slot), |bytes|)
  }

  function Apply(s: Store, step: Step): Store
    requires Shaped(s)
  {
    match (step, s.phase)
    case (Acquire(c), Idle) =>
      s.(msgs := s.msgs[s.msgCur % |s.msgs| := ZERO], msgCur := s.msgCur + 1, draft := c, phase := Acquired)
    case (Describe, Acquired) =>
      s.(msgs := s.msgs[Mine(s) := MediaMessage(s.draft.kind, s.draft.timestamp, Nil, s.draft.isInit)],
         phase := Described)
    case (Buy, Described) =>
      if |s.draft.bytes| > s.slot then s.(phase := Bought(None))
      else s.(cursor := s.cursor + 1, phase := Bought(Some(s.cursor)))
    case (Fill, Bought(ticket)) =>
      var slice := SliceOf(ticket, s.draft.bytes, s.slots, s.slot);
      s.(base := if slice.View? then Splice(s.base, slice.off, s.draft.bytes) else s.base,
         msgs := s.msgs[Mine(s) := s.msgs[Mine(s)].(payload := slice)],
         phase := Filled(ticket))
    case (Emit, Filled(ticket)) =>
      s.(log := s.log + [Mine(s)], issues := s.issues + [Issue(s.draft, ticket)], phase := Idle)
    case _ => s
  }

  lemma ShapedKept(s: Store, step: Step)
    requires Shaped(s)
    ensures Shaped(Apply(s, step))
  {
  }

  function Run(s: Store, schedule: seq<Step>): (t: Store)
    requires Shaped(s)
    ensures Shaped(t)
    decreases |schedule|
  {
    if schedule == [] then s
    else
      ShapedKept(s, schedule[0]);
      Run(Apply(s, schedule[0]), schedule[1..])
  }

  // ----- reading through the recycled memory ------------------------------------------------

  function BytesOf(slice: Slice, base: seq<Byte>): seq<Byte> {
    match slice
    case Nil => []
    case Heap(b) => b
    case View(off, len) => if off + len <= |base| then base[off..off + len] else []
  }

  function Deref(m: MediaMessage, base: seq<Byte>): Content {
    Content(m.kind, m.timestamp, BytesOf(m.payload, base), m.isInit)
  }

  /** A reader that follows the pointer at log position `p` sees what was published there. */
  ghost predicate ReadsBack(s: Store, p: nat) {
    && p < |s.log| && p < |s.issues| && s.log[p] < |s.msgs|
    && Deref(s.msgs[s.log[p]], s.base) == s.issues[p].content
  }

  /** Every message still in the log window reads back as published. */
  ghost predicate WindowIntact(s: Store) {
    forall p: nat :: |s.log| - s.logSize <= p < |s.log| ==> ReadsBack(s, p)
  }

  // ----- the invariant -------------------------------------------------------------------------

  ghost predicate Whole(s: Store, p: nat)
    requires Shaped(s) && p < |s.issues|
  {
    var m := s.msgs[p % |s.msgs|];
    && m.payload == SliceOf(s.issues[p].ticket, s.issues[p].content.bytes, s.slots, s.slot)
    && Deref(m, s.base) == s.issues[p].content
  }

  ghost function Paid(s: Store): nat {
    if (s.phase.Bought? || s.phase.Filled?) && s.phase.ticket.Some? then 1 else 0
  }

  /** At most one arena acquisition per publish: tickets fall behind no faster than messages. */
  ghost predicate TicketOk(s: Store, p: nat)
    requires p < |s.issues|
  {
    s.issues[p].ticket.Some? ==>
      && s.issues[p].ticket.value + Paid(s) < s.cursor <= s.issues[p].ticket.value + (|s.issues| - p) + Paid(s)
      && |s.issues[p].content.bytes| <= s.slot
  }

  ghost predicate DraftOk(s: Store)
    requires Shaped(s)
  {
    match s.phase
    case Idle => true
    case Acquired => s.msgs[Mine(s)] == ZERO
    case Described => s.msgs[Mine(s)] == MediaMessage(s.draft.kind, s.draft.timestamp, Nil, s.draft.isInit)
    case Bought(ticket) =>
      && s.msgs[Mine(s)] == MediaMessage(s.draft.kind, s.draft.timestamp, Nil, s.draft.isInit)
      && (ticket.Some? ==> ticket.value + 1 == s.cursor && |s.draft.bytes| <= s.slot)
    case Filled(ticket) =>
      && (ticket.Some? ==> ticket.value + 1 == s.cursor && |s.draft.bytes| <= s.slot)
      && s.msgs[Mine(s)].payload == SliceOf(ticket, s.draft.bytes, s.slots, s.slot)
      && Deref(s.msgs[Mine(s)], s.base) == s.draft
  }

  ghost predicate Inv(s: Store) {
    && Shaped(s)
    && |s.log| == |s.issues| && s.msgCur == |s.issues| + (if s.phase.Idle? then 0 else 1)
    && (forall p :: 0 <= p < |s.log| ==> s.log[p] == p % |s.msgs|)
    && (forall p :: 0 <= p < |s.issues| ==> TicketOk(s, p))
    && (forall p: nat :: s.msgCur - |s.msgs| <= p < |s.issues| ==> Whole(s, p))
    && DraftOk(s)
  }

  lemma OtherSlabSlot(s: Store, p: nat)
    requires Inv(s) && !s.phase.Idle? && s.msgCur - |s.msgs| <= p < |s.issues|
    ensures p % |s.msgs| != Mine(s)
  {
    if p % |s.msgs| == Mine(s) {
      SameSlot(p, s.msgCur - 1, |s.msgs|);
    }
  }

  lemma AcquireKeepsInv(s: Store, c: Content)
    requires Inv(s) && s.phase.Idle?
    ensures Inv(Apply(s, Acquire(c)))
  {
    var t := Apply(s, Acquire(c));
    forall p: nat | t.msgCur - |t.msgs| <= p < |t.issues| ensures Whole(t, p) {
      assert Whole(s, p);
      if p % |s.msgs| == s.msgCur % |s.msgs| {
        SameSlot(p, s.msgCur, |s.msgs|);
      }
    }
    forall p | 0 <= p < |t.issues| ensures TicketOk(t, p) {
      assert TicketOk(s, p);
    }
  }

  lemma DescribeKeepsInv(s: Store)
    requires Inv(s) && s.phase.Acquired?
    ensures Inv(Apply(s, Describe))
  {
    var t := Apply(s, Describe);
    forall p: nat | t.msgCur - |t.msgs| <= p < |t.issues| ensures Whole(t, p) {
      assert Whole(s, p);
      OtherSlabSlot(s, p);
    }
    forall p | 0 <= p < |t.issues| ensures TicketOk(t, p) {
      assert TicketOk(s, p);
    }
  }

  lemma BuyKeepsInv(s: Store)
    requires Inv(s) && s.phase.Described?
    ensures Inv(Apply(s, Buy))
  {
    var t := Apply(s, Buy);
    forall p: nat | t.msgCur - |t.msgs| <= p < |t.issues| ensures Whole(t, p) {
      assert Whole(s, p);
    }
    forall p | 0 <= p < |t.issues| ensures TicketOk(t, p) {
      assert TicketOk(s, p);
    }
  }

  /** Distinct arena slots are disjoint byte ranges, in order. */
  lemma SlotsApart(a: nat, b: nat, slot: nat)
    requires a < b
    ensures a * slot + slot <= b * slot
  {
    var d := b - a - 1;
    assert b * slot == (a + 1 + d) * slot == a * slot + slot + d * slot;
  }

  lemma OffsetFits(t: nat, slots: nat, slot: nat)
    requires IsPow2(slots)
    ensures Offset(t, slots, slot) + slot <= slots * slot
  {
    SlotsApart(Index(t, slots), slots, slot);
  }

  lemma OffsetsApart(earlier: nat, later: nat, slots: nat, slot: nat)
    requires IsPow2(slots) && earlier < later < earlier + slots
    ensures var a, b := Offset(earlier, slots, slot), Offset(later, slots, slot);
      a + slot <= b || b + slot <= a
  {
    var a, b := Index(earlier, slots), Index(later, slots);
    if a < b {
      SlotsApart(a, b, slot);
    } else if b < a {
      SlotsApart(b, a, slot);
    } else {
      SameSlot(earlier, later, slots);
    }
  }

  /** Filling the ticket just bought leaves the bytes of any younger-than-a-wrap ticket alone. */
  lemma FillSpares(base: seq<Byte>, slots: nat, slot: nat, earlier: nat, later: nat, bytes: seq<Byte>, len: nat)
    requires IsPow2(slots) && |base| == slots * slot && earlier < later < earlier + slots
    requires |bytes| <= slot && len <= slot
    ensures var v := View(Offset(earlier, slots, slot), len);
      BytesOf(v, Splice(base, Offset(later, slots, slot), bytes)) == BytesOf(v, base)
  {
    OffsetFits(earlier, slots, slot);
    OffsetFits(later, slots, slot);
    OffsetsApart(earlier, later, slots, slot);
    SpliceSpares(base, Offset(later, slots, slot), bytes, Offset(earlier, slots, slot), len);
  }

  lemma SpliceSpares(base: seq<Byte>, off: nat, bytes: seq<Byte>, o: nat, len: nat)
    requires off + |bytes| <= |base| && o + len <= |base|
    requires o + len <= off || off + |bytes| <= o
    ensures Splice(base, off, bytes)[o..o + len] == base[o..o + len]
  {
  }

  lemma FillWrites(base: seq<Byte>, slots: nat, slot: nat, t: nat, bytes: seq<Byte>)
    requires IsPow2(slots) && |base| == slots * slot && |bytes| <= slot
    ensures var off := Offset(t, slots, slot);
      BytesOf(View(off, |bytes|), Splice(base, off, bytes)) == bytes
  {
    OffsetFits(t, slots, slot);
  }

  lemma FillKeepsWhole(s: Store, p: nat)
    requires Inv(s) && s.phase.Bought? && s.msgCur - |s.msgs| <= p < |s.issues|
    ensures Whole(Apply(s, Fill), p)
  {
    assert Whole(s, p) && TicketOk(s, p);
    OtherSlabSlot(s, p);
    if s.phase.ticket.Some? && s.issues[p].ticket.Some? {
      assert s.issues[p].ticket.value < s.phase.ticket.value < s.issues[p].ticket.value + s.slots;
      FillSpares(s.base, s.slots, s.slot, s.issues[p].ticket.value, s.phase.ticket.value, s.draft.bytes,
                 |s.issues[p].content.bytes|);
    }
  }

  lemma FillKeepsInv(s: Store)
    requires Inv(s) && s.phase.Bought?
    ensures Inv(Apply(s, Fill))
  {
    var t := Apply(s, Fill);
    forall p: nat | t.msgCur - |t.msgs| <= p < |t.issues| ensures Whole(t, p) {
      FillKeepsWhole(s, p);
    }
    forall p | 0 <= p < |t.issues| ensures TicketOk(t, p) {
      assert TicketOk(s, p);
    }
    if s.phase.ticket.Some? {
      FillWrites(s.base, s.slots, s.slot, s.phase.ticket.value, s.draft.bytes);
    }
  }

  lemma EmitKeepsInv(s: Store)
    requires Inv(s) && s.phase.Filled?
    ensures Inv(Apply(s, Emit))
  {
    var t := Apply(s, Emit);
    forall p: nat | t.msgCur - |t.msgs| <= p < |t.issues| ensures Whole(t, p) {
      if p < |s.issues| { assert Whole(s, p); }
    }
    forall p | 0 <= p < |t.issues| ensures TicketOk(t, p) {
      if p < |s.issues| { assert TicketOk(s, p); }
    }
  }

  /** The message about to be emitted is the draft. */
  lemma FilledInv(s: Store)
    requires Inv(s) && s.phase.Filled?
    ensures Shaped(s) && Deref(s.msgs[Mine(s)], s.base) == s.draft
  {
  }

  lemma StepKeepsInv(s: Store, step: Step)
    requires Inv(s)
    ensures Inv(Apply(s, step))
  {
    match (step, s.phase) {
      case (Acquire(c), Idle) => AcquireKeepsInv(s, c);
      case (Describe, Acquired) => DescribeKeepsInv(s);
      case (Buy, Described) => BuyKeepsInv(s);
      case (Fill, Bought(_)) => FillKeepsInv(s);
      case (Emit, Filled(_)) => EmitKeepsInv(s);
      case _ =>
    }
  }

  lemma {:induction false} RunKeepsInv(s: Store, schedule: seq<Step>)
    requires Inv(s)
    ensures Inv(Run(s, schedule)) && Run(s, schedule).logSize == s.logSize && |Run(s, schedule).msgs| == |s.msgs|
    decreases |schedule|
  {
    if schedule != [] {
      StepKeepsInv(s, schedule[0]);
      RunKeepsInv(Apply(s, schedule[0]), schedule[1..]);
    }
  }

  // ----- no aliasing in the window ----------------------------------------------------------------

  lemma InitInv(logSize: nat, arenaSlots: nat, slots: nat, slot: nat)
    requires 1 <= arenaSlots <= slots && IsPow2(slots)
    ensures Inv(Init(logSize, arenaSlots, slots, slot))
  {
    assert 0 <= slots * slot;
  }

  lemma InvReadsBack(s: Store, p: nat)
    requires Inv(s) && s.msgCur - |s.msgs| <= p < |s.issues|
    ensures ReadsBack(s, p)
  {
    assert Whole(s, p);
  }

  lemma InvWindow(s: Store)
    requires Inv(s)
    ensures |s.log| == |s.issues|
    ensures s.logSize < |s.msgs| ==> WindowIntact(s)
  {
    if s.logSize < |s.msgs| {
      forall p: nat | |s.log| - s.logSize <= p < |s.log| ensures ReadsBack(s, p) {
        InvReadsBack(s, p);
      }
    }
  }

  lemma InWindow(s: Store, p: nat)
    requires WindowIntact(s) && |s.log| - s.logSize <= p < |s.log|
    ensures ReadsBack(s, p)
  {
  }

  /** With a slab larger than the log, no step of any run disturbs a message in the window. */
  lemma NoAliasingInWindow(logSize: nat, arenaSlots: nat, slots: nat, slot: nat, schedule: seq<Step>)
    requires logSize < arenaSlots <= slots && IsPow2(slots)
    ensures Shaped(Init(logSize, arenaSlots, slots, slot))
    ensures WindowIntact(Run(Init(logSize, arenaSlots, slots, slot), schedule))
  {
    var s0 := Init(logSize, arenaSlots, slots, slot);
    InitInv(logSize, arenaSlots, slots, slot);
    RunKeepsInv(s0, schedule);
    var s := Run(s0, schedule);
    forall p: nat | |s.log| - s.logSize <= p < |s.log| ensures ReadsBack(s, p) {
      InvReadsBack(s, p);
    }
  }

  lemma {:induction false} RunExtends(s: Store, schedule: seq<Step>)
    requires Inv(s)
    ensures s.issues <= Run(s, schedule).issues
    decreases |schedule|
  {
    if schedule != [] {
      StepKeepsInv(s, schedule[0]);
      RunExtends(Apply(s, schedule[0]), schedule[1..]);
    }
  }

  /** Whatever the producer is in the middle of, at either end: a message the slab still holds stays
      intact until the acquisition that reuses its slot. */
  lemma IntactUntilReused(s: Store, schedule: seq<Step>, p: nat)
    requires Inv(s) && s.msgCur - |s.msgs| <= p < |s.log|
    requires Run(s, schedule).msgCur <= p + |s.msgs|
    ensures var t := Run(s, schedule);
      ReadsBack(t, p) && t.issues[p] == s.issues[p]
  {
    RunKeepsInv(s, schedule);
    RunExtends(s, schedule);
    InvReadsBack(Run(s, schedule), p);
  }

  /** A message read while in the window stays intact for `arenaSlots - logSize` more acquisitions. */
  lemma GracePeriod(s: Store, schedule: seq<Step>, p: nat)
    requires Inv(s) && s.logSize < |s.msgs| && |s.log| - s.logSize <= p < |s.log|
    requires Run(s, schedule).msgCur <= |s.log| + |s.msgs| - s.logSize
    ensures var t := Run(s, schedule);
      ReadsBack(t, p) && t.issues[p] == s.issues[p]
  {
    IntactUntilReused(s, schedule, p);
  }

  const BLANKED := Content(0, 0, [], false)

  /** And no longer: the next acquisition blanks it, so it reads back iff it was published blank. */
  lemma GraceEnds(t: Store, c: Content, p: nat)
    requires Inv(t) && t.phase.Idle? && p < |t.log| && t.msgCur == p + |t.msgs|
    ensures var u := Apply(t, Acquire(c));
      && u.log[p] < |u.msgs| && Deref(u.msgs[u.log[p]], u.base) == BLANKED
      && (ReadsBack(u, p) <==> t.issues[p].content == BLANKED)
  {
    var n := |t.msgs|;
    ShiftSlot(p, 1, n);
    assert t.msgCur % n == p % n;
    assert t.log[p] == p % n;
  }

  // ----- and only then ------------------------------------------------------------------------------

  lemma {:induction false} RunConcat(s: Store, a: seq<Step>, b: seq<Step>)
    requires Shaped(s)
    ensures Run(s, a + b) == Run(Run(s, a), b)
    decreases |a|
  {
    if a == [] {
      assert a + b == b;
    } else {
      ShapedKept(s, a[0]);
      assert (a + b)[1..] == a[1..] + b;
      RunConcat(Apply(s, a[0]), a[1..], b);
    }
  }

  lemma RunOne(s: Store, step: Step)
    requires Shaped(s)
    ensures Run(s, [step]) == Apply(s, step)
  {
    ShapedKept(s, step);
  }

  const PUBLISH_REST := [Describe, Buy, Fill, Emit]

  /** One whole publish of `c`. */
  lemma PublishOne(s: Store, c: Content)
    requires Shaped(s) && s.phase.Idle?
    ensures var t := Run(s, [Acquire(c)] + PUBLISH_REST);
      && t.phase.Idle? && |t.log| == |s.log| + 1 && |t.issues| == |s.issues| + 1
      && t.issues[..|s.issues|] == s.issues && t.issues[|s.issues|].content == c
  {
    var s1 := Apply(s, Acquire(c));
    RunOne(s, Acquire(c));
    RunConcat(s, [Acquire(c)], PUBLISH_REST);
    var s2 := Apply(s1, Describe);
    var s3 := Apply(s2, Buy);
    var s4 := Apply(s3, Fill);
    var s5 := Apply(s4, Emit);
    ShapedKept(s, Acquire(c));
    ShapedKept(s1, Describe);
    ShapedKept(s2, Buy);
    ShapedKept(s3, Fill);
    ShapedKept(s4, Emit);
    assert Run(s4, PUBLISH_REST[3..]) == s5 by { assert PUBLISH_REST[3..][1..] == []; }
    assert Run(s3, PUBLISH_REST[2..]) == s5 by { assert PUBLISH_REST[2..][1..] == PUBLISH_REST[3..]; }
    assert Run(s2, PUBLISH_REST[1..]) == s5 by { assert PUBLISH_REST[1..][1..] == PUBLISH_REST[2..]; }
    assert Run(s1, PUBLISH_REST) == s5;
  }

  lemma {:induction false} PublishMany(s: Store, c: Content, n: nat) returns (schedule: seq<Step>)
    requires Inv(s) && s.phase.Idle? && s.issues == []
    ensures var t := Run(s, schedule);
      Inv(t) && t.phase.Idle? && |t.issues| == n && (forall p :: 0 <= p < n ==> t.issues[p].content == c)
  {
    if n == 0 {
      schedule := [];
    } else {
      var before := PublishMany(s, c, n - 1);
      var one := [Acquire(c)] + PUBLISH_REST;
      schedule := before + one;
      RunConcat(s, before, one);
      PublishOne(Run(s, before), c);
      RunKeepsInv(s, schedule);
      var u, t := Run(s, before), Run(s, schedule);
      forall p | 0 <= p < n ensures t.issues[p].content == c {
        if p < n - 1 { assert t.issues[p] == t.issues[..n - 1][p] == u.issues[p]; }
      }
    }
  }

  /** A slab no larger than the log: one more acquire blanks a message still in the window. */
  lemma AcquireBlanks(t: Store, c: Content)
    requires Inv(t) && t.phase.Idle? && |t.issues| == |t.msgs| <= t.logSize
    requires c.kind != 0 && t.issues[0].content == c
    ensures !WindowIntact(Apply(t, Acquire(c)))
  {
    var u := Apply(t, Acquire(c));
    assert t.msgCur % |t.msgs| == 0;
    assert u.log[0] == 0 && u.msgs[0] == ZERO;
    assert !ReadsBack(u, 0);
  }

  lemma SmallSlabAliases(s: Store) returns (schedule: seq<Step>)
    requires Inv(s) && s.phase.Idle? && s.issues == [] && |s.msgs| <= s.logSize
    ensures !WindowIntact(Run(s, schedule))
  {
    var c := Content(1, 0, [], false);
    var fill := PublishMany(s, c, |s.msgs|);
    schedule := fill + [Acquire(c)];
    RunConcat(s, fill, [Acquire(c)]);
    RunKeepsInv(s, fill);
    RunOne(Run(s, fill), Acquire(c));
    AcquireBlanks(Run(s, fill), c);
  }

  /** No schedule ever shows a reader of the window anything but what was published. */
  ghost predicate NeverAliases(logSize: nat, arenaSlots: nat, slots: nat, slot: nat)
    requires 1 <= arenaSlots <= slots && IsPow2(slots)
  {
    InitInv(logSize, arenaSlots, slots, slot);
    forall schedule :: WindowIntact(Run(Init(logSize, arenaSlots, slots, slot), schedule))
  }

  lemma NeverAliasesIff(logSize: nat, arenaSlots: nat, slots: nat, slot: nat)
    requires 1 <= arenaSlots <= slots && IsPow2(slots)
    ensures NeverAliases(logSize, arenaSlots, slots, slot) <==> logSize < arenaSlots
  {
    InitInv(logSize, arenaSlots, slots, slot);
    if logSize < arenaSlots {
      forall schedule ensures WindowIntact(Run(Init(logSize, arenaSlots, slots, slot), schedule)) {
        NoAliasingInWindow(logSize, arenaSlots, slots, slot, schedule);
      }
    } else {
      var schedule := SmallSlabAliases(Init(logSize, arenaSlots, slots, slot));
      assert !WindowIntact(Run(Init(logSize, arenaSlots, slots, slot), schedule));
    }
  }

  // ----- the arena's tickets ----------------------------------------------------------------------------

  /** How many payloads so far fitted an arena slot. */
  function Fitting(issues: seq<Issue>, slot: nat): nat
    decreases |issues|
  {
    if issues == [] then 0
    else Fitting(issues[..|issues| - 1], slot) + if |issues[|issues| - 1].content.bytes| <= slot then 1 else 0
  }

  /** A payload that fits gets the next ticket, and one that does not gets its own allocation. */
  ghost predicate Ticketed(s: Store) {
    && (forall p :: 0 <= p < |s.issues| ==>
          s.issues[p].ticket ==
          if |s.issues[p].content.bytes| <= s.slot then Some(Fitting(s.issues[..p], s.slot)) else None)
    && s.cursor == Fitting(s.issues, s.slot) + Paid(s)
    && (s.phase.Bought? || s.phase.Filled? ==>
          s.phase.ticket == if |s.draft.bytes| <= s.slot then Some(Fitting(s.issues, s.slot)) else None)
  }

  lemma EmitKeepsTickets(s: Store)
    requires Shaped(s) && Ticketed(s) && s.phase.Filled?
    ensures Ticketed(Apply(s, Emit))
  {
    var t := Apply(s, Emit);
    assert t.issues[..|s.issues|] == s.issues;
    forall p | 0 <= p < |t.issues| ensures t.issues[p].ticket ==
      if |t.issues[p].content.bytes| <= t.slot then Some(Fitting(t.issues[..p], t.slot)) else None
    {
      if p < |s.issues| { assert t.issues[..p] == s.issues[..p]; }
    }
  }

  lemma StepKeepsTickets(s: Store, step: Step)
    requires Shaped(s) && Ticketed(s)
    ensures Ticketed(Apply(s, step))
  {
    hide Fitting, SliceOf, Splice;
    if step.Emit? && s.phase.Filled? { EmitKeepsTickets(s); }
  }

  /** Over every schedule tickets are handed out in order, one to each payload that fits. */
  lemma {:induction false} RunKeepsTickets(s: Store, schedule: seq<Step>)
    requires Shaped(s) && Ticketed(s)
    ensures Ticketed(Run(s, schedule))
    decreases |schedule|
  {
    hide Ticketed, Apply;
    if schedule != [] {
      ShapedKept(s, schedule[0]);
      StepKeepsTickets(s, schedule[0]);
      RunKeepsTickets(Apply(s, schedule[0]), schedule[1..]);
    }
  }
}
