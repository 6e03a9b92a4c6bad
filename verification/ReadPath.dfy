/**
 The log and the storage it points into, as one step machine: the producer acquires, describes,
 buys, fills, claims and stores, a reader loads, fetches and commits, and follows its pointer at
 any later time. A pointer fetched from a slot says what its publish said until that publish's slab
 slot is acquired again, and not a step longer.
 */
module ReadPath {
  import opened Bits
  import L = LogSteps
  import S = Storage

  /** The log's messages are slab indexes. */
  datatype Path = Path(store: S.Store, log: L.Log<nat>)

  datatype Step =
    | Produce(work: S.Step)     // acquire, describe, buy, fill
    | Claim                     // nextSeq.Add(1)
    | Land                      // the slot store, which ends the publish
    | Read(step: L.Step<nat>)   // attach, load, fetch, commit

  ghost predicate Shaped(s: Path) {
    S.Shaped(s.store) && L.Shaped(s.log)
  }

  function Apply(s: Path, step: Step): Path
    requires Shaped(s)
  {
    match step
    case Produce(p) => if p.Emit? then s else s.(store := S.Apply(s.store, p))
    case Claim =>
      if s.store.phase.Filled? && s.log.producer.Idle? then s.(log := L.Apply(s.log, L.Claim(S.Mine(s.store)))) else s
    case Land =>
      if s.log.producer.Storing? then Path(S.Apply(s.store, S.Emit), L.Apply(s.log, L.Step<nat>.Store)) else s
    case Read(r) => if r.Claim? || r.Store? then s else s.(log := L.Apply(s.log, r))
  }

  ghost function Run(s: Path, schedule: seq<Step>): Path
    requires Inv(s)
    decreases |schedule|
  {
    if schedule == [] then s
    else
      StepKeepsInv(s, schedule[0]);
      Run(Apply(s, schedule[0]), schedule[1..])
  }

  ghost function Init(logSize: nat, arenaSlots: nat, slots: nat, slot: nat): (s: Path)
    requires IsPow2(logSize) && 1 <= arenaSlots <= slots && IsPow2(slots)
    ensures Inv(s)
  {
    S.InitInv(logSize, arenaSlots, slots, slot);
    L.InitInv<nat>(logSize);
    Path(S.Init(logSize, arenaSlots, slots, slot), L.Init<nat>(logSize))
  }

  // ----- the invariant ---------------------------------------------------------------------------

  /** No read has seen more stores than have landed. */
  ghost predicate Settled(r: L.Reader<nat>, landed: nat) {
    && (forall i :: 0 <= i < |r.deliveries| ==> r.deliveries[i].landed <= landed)
    && (r.phase.Fetched? ==> r.phase.got.landed <= landed)
  }

  ghost predicate Joined(s: Path)
    requires S.Shaped(s.store)
  {
    && (s.log.producer.Storing? ==> s.store.phase.Filled? && s.log.producer.msg == S.Mine(s.store))
    && s.log.history == s.store.log + (if s.log.producer.Storing? then [s.log.producer.msg] else [])
    && forall id :: id in s.log.readers ==> Settled(s.log.readers[id], |s.store.log|)
  }

  ghost predicate Inv(s: Path) {
    S.Inv(s.store) && L.Inv(s.log) && S.Shaped(s.store) && L.Shaped(s.log) && Joined(s)
  }

  /** Short of the end of a publish the producer's storage steps leave the log of indexes alone. */
  lemma ProduceKeepsInv(s: Path, p: S.Step)
    requires Inv(s)
    ensures Inv(Apply(s, Produce(p)))
  {
    hide L.Inv, S.Inv;
    if !p.Emit? {
      S.StepKeepsInv(s.store, p);
      StoreShaped(S.Apply(s.store, p));
    }
  }

  lemma StoreShaped(s: S.Store)
    requires S.Inv(s)
    ensures S.Shaped(s)
  {
  }

  lemma LogShaped(s: L.Log<nat>)
    requires L.Inv(s)
    ensures L.Shaped(s) && L.Landed(s) == if s.producer.Storing? then s.producer.at else s.nextSeq
    ensures |s.history| == s.nextSeq && (s.producer.Storing? ==> s.producer.at + 1 == s.nextSeq)
  {
  }

  lemma ClaimKeepsInv(s: Path)
    requires Inv(s)
    ensures Inv(Apply(s, Claim))
  {
    hide L.Inv, S.Inv;
    if s.store.phase.Filled? && s.log.producer.Idle? {
      L.ClaimKeepsInv(s.log, S.Mine(s.store));
      LogShaped(Apply(s, Claim).log);
    }
  }

  lemma LandKeepsInv(s: Path)
    requires Inv(s)
    ensures Inv(Apply(s, Land))
  {
    hide L.Inv, S.Inv;
    if s.log.producer.Storing? {
      L.StoreKeepsInv(s.log);
      S.StepKeepsInv(s.store, S.Emit);
      var t := Apply(s, Land);
      LogShaped(t.log);
      StoreShaped(t.store);
      assert t.log.history == t.store.log + [];
      forall id | id in t.log.readers ensures Settled(t.log.readers[id], |t.store.log|) {
        assert Settled(s.log.readers[id], |s.store.log|);
      }
    }
  }

  lemma ReadKeepsInv(s: Path, r: L.Step<nat>)
    requires Inv(s) && !r.Claim? && !r.Store?
    ensures Inv(Apply(s, Read(r)))
  {
    hide L.Inv, S.Inv;
    var t := Apply(s, Read(r));
    ReaderStepKeepsLog(s.log, r);
    LogShaped(s.log);
    LogShaped(t.log);
    assert |s.log.history| == |s.store.log| + if s.log.producer.Storing? then 1 else 0;
    forall id | id in t.log.readers ensures Settled(t.log.readers[id], |s.store.log|) {
      if id in s.log.readers { assert Settled(s.log.readers[id], |s.store.log|); }
    }
  }

  lemma ReaderStepKeepsLog(s: L.Log<nat>, r: L.Step<nat>)
    requires L.Inv(s) && L.Shaped(s) && !r.Claim? && !r.Store?
    ensures L.Inv(L.Apply(s, r))
  {
    match r {
      case Attach(id) => L.AttachKeepsInv(s, id);
      case Load(id) => L.LoadKeepsInv(s, id);
      case Fetch(id) => L.FetchKeepsInv(s, id);
      case Commit(id) => L.CommitKeepsInv(s, id);
    }
  }

  lemma StepKeepsInv(s: Path, step: Step)
    requires Inv(s)
    ensures Inv(Apply(s, step))
  {
    match step {
      case Produce(p) => ProduceKeepsInv(s, p);
      case Claim => ClaimKeepsInv(s);
      case Land => LandKeepsInv(s);
      case Read(r) => if !r.Claim? && !r.Store? { ReadKeepsInv(s, r); }
    }
  }

  lemma {:induction false} RunKeepsInv(s: Path, schedule: seq<Step>)
    requires Inv(s)
    ensures Inv(Run(s, schedule))
    decreases |schedule|
  {
    hide S.Inv, L.Inv, Joined;
    if schedule != [] {
      StepKeepsInv(s, schedule[0]);
      RunKeepsInv(Apply(s, schedule[0]), schedule[1..]);
    }
  }

  // ----- following a fetched pointer -----------------------------------------------------------------

  /** The pointer stored by publish `st.pos`, followed now. */
  ghost predicate SaysItsPublish(s: Path, st: L.Stored<nat>) {
    && st.pos < |s.store.issues| && st.msg < |s.store.msgs|
    && S.Deref(s.store.msgs[st.msg], s.store.base) == s.store.issues[st.pos].content
  }

  lemma StoredIsLanded(h: seq<nat>, size: nat, d: L.Delivery<nat>)
    requires size > 0 && L.Honest(h, size, d) && d.got.Some?
    ensures d.got.value.pos < d.landed <= |h| && d.got.value.msg == h[d.got.value.pos]
  {
    L.LastStoreBound(d.landed, size, d.at % size);
  }

  lemma FollowsWhileHeld(s: Path, d: L.Delivery<nat>)
    requires Inv(s) && s.log.size > 0 && L.Honest(s.log.history, s.log.size, d) && d.landed <= |s.store.log|
    requires d.got.Some?
    ensures var st := d.got.value;
      && st.pos < |s.store.log| && st.msg == s.store.log[st.pos]
      && (s.store.msgCur <= st.pos + |s.store.msgs| ==> SaysItsPublish(s, st))
  {
    hide L.Inv, L.Honest;
    StoredIsLanded(s.log.history, s.log.size, d);
    var p := d.got.value.pos;
    assert s.log.history[p] == s.store.log[p];
    if s.store.msgCur <= p + |s.store.msgs| {
      S.InvReadsBack(s.store, p);
    }
  }

  /** On every schedule of producer and readers, at every moment: a pointer some read returned, however
      long ago, says what its publish said as long as that publish's slab slot has not been acquired
      again. Which publish that is, `LogSteps.ExactReadIff` and `ReadOutcomes` say. */
  lemma DereferenceHolds(logSize: nat, arenaSlots: nat, slots: nat, slot: nat, schedule: seq<Step>, id: nat, i: nat)
    requires IsPow2(logSize) && 1 <= arenaSlots <= slots && IsPow2(slots)
    requires var s := Run(Init(logSize, arenaSlots, slots, slot), schedule);
      id in s.log.readers && i < |s.log.readers[id].deliveries| && s.log.readers[id].deliveries[i].got.Some?
    ensures var s := Run(Init(logSize, arenaSlots, slots, slot), schedule);
      var st := s.log.readers[id].deliveries[i].got.value;
      s.store.msgCur <= st.pos + |s.store.msgs| ==> SaysItsPublish(s, st)
  {
    var s := Run(Init(logSize, arenaSlots, slots, slot), schedule);
    RunKeepsInv(Init(logSize, arenaSlots, slots, slot), schedule);
    DeliveryIsHonest(s, id, i);
    FollowsWhileHeld(s, s.log.readers[id].deliveries[i]);
  }

  lemma DeliveryIsHonest(s: Path, id: nat, i: nat)
    requires Inv(s) && id in s.log.readers && i < |s.log.readers[id].deliveries|
    ensures var d := s.log.readers[id].deliveries[i];
      s.log.size > 0 && L.Honest(s.log.history, s.log.size, d) && d.landed <= |s.store.log|
  {
    assert L.AllHonest(s.log.history, s.log.size, s.log.readers[id]);
    assert Settled(s.log.readers[id], |s.store.log|);
  }

  /** And no longer: the acquisition that reuses the slot blanks the message behind it. */
  lemma DereferenceEnds(s: Path, id: nat, i: nat, c: S.Content)
    requires Inv(s) && id in s.log.readers && i < |s.log.readers[id].deliveries|
    requires s.log.readers[id].deliveries[i].got.Some? && s.store.phase.Idle?
    requires s.store.msgCur == s.log.readers[id].deliveries[i].got.value.pos + |s.store.msgs|
    ensures var st, t := s.log.readers[id].deliveries[i].got.value, Apply(s, Produce(S.Acquire(c)));
      && st.msg < |t.store.msgs| && S.Deref(t.store.msgs[st.msg], t.store.base) == S.BLANKED
      && (SaysItsPublish(t, st) <==> s.store.issues[st.pos].content == S.BLANKED)
  {
    DeliveryIsHonest(s, id, i);
    FollowsWhileHeld(s, s.log.readers[id].deliveries[i]);
    S.GraceEnds(s.store, c, s.log.readers[id].deliveries[i].got.value.pos);
  }
}
