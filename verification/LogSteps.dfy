/**
 The shared log as a step machine: every atomic add, store and load of the producer and of
 any number of readers is one step, and a schedule is any sequence of steps. A step that its
 thread cannot take yet leaves the state alone, so every schedule is a run.
 */
module LogSteps {
  import opened Bits

  /** Positions are 0-based: position `a` holds the message with sequence number `a + 1`. */
  datatype Producer<M> = Idle | Storing(at: nat, msg: M)

  /** Where a reader is inside `Subscriber.Read`. */
  datatype Phase<M> =
    | Resting
    | Loaded(at: nat, skipped: nat, end: nat)
    | Fetched(got: Delivery<M>, skipped: nat)

  /** What a slot holds: a message, and which publish stored it. Slab recycling makes pointers
      repeat, so only the position tells one publish from another. */
  datatype Stored<M> = Stored(pos: nat, msg: M)

  /** One read: the cursor it started from and the log end it loaded, the position it then asked for,
      what the slot held, and how many stores had landed at the slot load. */
  datatype Delivery<M> = Delivery(from: nat, end: nat, at: nat, got: Option<Stored<M>>, landed: nat)

  datatype Reader<M> = Reader(
    attach: nat, cursor: nat, dropped: nat, phase: Phase<M>, deliveries: seq<Delivery<M>>)

  datatype Log<M> = Log(
    size: nat, nextSeq: nat, slots: seq<Option<Stored<M>>>, producer: Producer<M>,
    readers: map<nat, Reader<M>>,
    history: seq<M>)  // every message in the order its sequence number was claimed

  datatype Step<M> =
    | Claim(msg: M)     // nextSeq.Add(1)
    | Store             // buf[(seq-1)&mask].Store(msg)
    | Attach(id: nat)   // a new cursor at nextSeq.Load()
    | Load(id: nat)     // nextSeq.Load(), then the gap computation
    | Fetch(id: nat)    // buf[at&mask].Load()
    | Commit(id: nat)   // dropped.Add(skipped), cursor = at + 1

  ghost predicate Shaped<M>(s: Log<M>) {
    IsPow2(s.size) && |s.slots| == s.size
  }

  function Landed<M>(s: Log<M>): nat {
    if s.producer.Storing? then s.producer.at else s.nextSeq
  }

  function Init<M>(size: nat): Log<M> {
    Log(size, 0, seq(size, _ => None), Idle, map[], [])
  }

  function LoadAt<M>(r: Reader<M>, pubSeq: nat, size: nat): Reader<M> {
    if !r.phase.Resting? || r.cursor >= pubSeq then r
    else
      var gap := pubSeq - r.cursor;
      var skipped := if gap > size then gap - size else 0;
      r.(phase := Loaded(r.cursor + skipped, skipped, pubSeq))
  }

  function FetchAt<M>(s: Log<M>, r: Reader<M>): Reader<M>
    requires Shaped(s)
  {
    if !r.phase.Loaded? then r
    else
      var d := Delivery(r.cursor, r.phase.end, r.phase.at, s.slots[Index(r.phase.at, s.size)], Landed(s));
      r.(phase := Fetched(d, r.phase.skipped))
  }

  function CommitRead<M>(r: Reader<M>): Reader<M> {
    if !r.phase.Fetched? then r
    else r.(cursor := r.phase.got.at + 1, dropped := r.dropped + r.phase.skipped,
            phase := Resting, deliveries := r.deliveries + [r.phase.got])
  }

  function Apply<M>(s: Log<M>, step: Step<M>): Log<M>
    requires Shaped(s)
  {
    match step
    case Claim(m) =>
      if s.producer.Storing? then s
      else s.(nextSeq := s.nextSeq + 1, producer := Storing(s.nextSeq, m), history := s.history + [m])
    case Store =>
      if s.producer.Idle? then s
      else s.(slots := s.slots[Index(s.producer.at, s.size) := Some(Stored(s.producer.at, s.producer.msg))],
                   producer := Idle)
    case Attach(id) =>
      if id in s.readers then s
      else s.(readers := s.readers[id := Reader(s.nextSeq, s.nextSeq, 0, Resting, [])])
    case Load(id) =>
      if id !in s.readers then s
      else s.(readers := s.readers[id := LoadAt(s.readers[id], s.nextSeq, s.size)])
    case Fetch(id) =>
      if id !in s.readers then s
      else s.(readers := s.readers[id := FetchAt(s, s.readers[id])])
    case Commit(id) =>
      if id !in s.readers then s
      else s.(readers := s.readers[id := CommitRead(s.readers[id])])
  }

  ghost function Run<M>(s: Log<M>, schedule: seq<Step<M>>): Log<M>
    requires Shaped(s)
    decreases |schedule|
  {
    if schedule == [] then s
    else
      ShapedKept(s, schedule[0]);
      Run(Apply(s, schedule[0]), schedule[1..])
  }

  lemma ShapedKept<M>(s: Log<M>, step: Step<M>)
    requires Shaped(s)
    ensures Shaped(Apply(s, step))
  {
  }

  // ----- what a slot holds -------------------------------------------------------------

  /** The last of the first `n` positions that falls on slot `i`. */
  function LastStore(n: nat, size: nat, i: nat): Option<nat>
    requires size > 0
  {
    if n == 0 then None
    else if (n - 1) % size == i then Some(n - 1)
    else LastStore(n - 1, size, i)
  }

  lemma {:induction false} LastStoreBound(n: nat, size: nat, i: nat)
    requires size > 0
    ensures LastStore(n, size, i).Some? ==> LastStore(n, size, i).value < n
  {
    if n > 0 && (n - 1) % size != i { LastStoreBound(n - 1, size, i); }
  }

  function Held<M>(h: seq<M>, size: nat, n: nat, i: nat): Option<Stored<M>>
    requires size > 0 && n <= |h|
  {
    LastStoreBound(n, size, i);
    match LastStore(n, size, i)
    case None => None
    case Some(j) => Some(Stored(j, h[j]))
  }

  // ----- the invariant -----------------------------------------------------------------

  ghost predicate Honest<M>(h: seq<M>, size: nat, d: Delivery<M>)
    requires size > 0
  {
    && d.at < |h| && d.at <= d.landed <= |h|
    && d.got == Held(h, size, d.landed, d.at % size)
  }

  ghost predicate Counted<M>(r: Reader<M>, nextSeq: nat) {
    && r.attach <= r.cursor <= nextSeq
    && r.cursor - r.attach == |r.deliveries| + r.dropped
    && (forall i :: 0 <= i < |r.deliveries| ==> r.attach <= r.deliveries[i].at < r.cursor)
    && (forall i, j :: 0 <= i < j < |r.deliveries| ==> r.deliveries[i].at < r.deliveries[j].at)
    && (r.phase.Loaded? ==> r.phase.at == r.cursor + r.phase.skipped < nextSeq)
    && (r.phase.Fetched? ==> r.phase.got.at == r.cursor + r.phase.skipped < nextSeq)
  }

  ghost predicate AllHonest<M>(h: seq<M>, size: nat, r: Reader<M>)
    requires size > 0
  {
    && (forall i :: 0 <= i < |r.deliveries| ==> Honest(h, size, r.deliveries[i]))
    && (r.phase.Fetched? ==> Honest(h, size, r.phase.got))
  }

  ghost predicate SlotsHeld<M>(s: Log<M>)
    requires Shaped(s)
  {
    && |s.history| == s.nextSeq
    && (s.producer.Storing? ==> s.producer.at + 1 == s.nextSeq && s.producer.msg == s.history[s.producer.at])
    && forall i :: 0 <= i < s.size ==> s.slots[i] == Held(s.history, s.size, Landed(s), i)
  }

  ghost predicate Inv<M>(s: Log<M>) {
    && Shaped(s)
    && SlotsHeld(s)
    && forall id :: id in s.readers ==>
         Counted(s.readers[id], s.nextSeq) && AllHonest(s.history, s.size, s.readers[id])
  }

  lemma HeldGrows<M>(h: seq<M>, m: M, size: nat, n: nat, i: nat)
    requires size > 0 && n <= |h|
    ensures Held(h + [m], size, n, i) == Held(h, size, n, i)
  {
    LastStoreBound(n, size, i);
  }

  lemma ReaderKeptByClaim<M>(h: seq<M>, m: M, size: nat, r: Reader<M>)
    requires size > 0 && AllHonest(h, size, r)
    ensures AllHonest(h + [m], size, r)
  {
    forall i | 0 <= i < |r.deliveries| ensures Honest(h + [m], size, r.deliveries[i]) {
      HeldGrows(h, m, size, r.deliveries[i].landed, r.deliveries[i].at % size);
    }
    if r.phase.Fetched? {
      HeldGrows(h, m, size, r.phase.got.landed, r.phase.got.at % size);
    }
  }

  lemma ClaimKeepsInv<M>(s: Log<M>, m: M)
    requires Inv(s)
    ensures Inv(Apply(s, Claim(m)))
  {
    var t := Apply(s, Claim(m));
    if s.producer.Idle? {
      forall i | 0 <= i < s.size ensures t.slots[i] == Held(t.history, t.size, Landed(t), i) {
        HeldGrows(s.history, m, s.size, s.nextSeq, i);
      }
      forall id | id in t.readers ensures AllHonest(t.history, t.size, t.readers[id]) {
        ReaderKeptByClaim(s.history, m, s.size, s.readers[id]);
      }
    }
  }

  lemma StoreKeepsInv<M>(s: Log<M>)
    requires Inv(s)
    ensures Inv(Apply(s, Store))
  {
    var t := Apply(s, Step<M>.Store);
    if s.producer.Storing? {
      var n := s.producer.at;
      forall i | 0 <= i < s.size ensures t.slots[i] == Held(t.history, t.size, Landed(t), i) {
        assert s.slots[i] == Held(s.history, s.size, n, i);
      }
    }
  }

  ghost predicate ReaderInv<M>(s: Log<M>, r: Reader<M>)
    requires s.size > 0
  {
    Counted(r, s.nextSeq) && AllHonest(s.history, s.size, r)
  }

  lemma LoadKeepsReader<M>(s: Log<M>, r: Reader<M>)
    requires Inv(s) && ReaderInv(s, r)
    ensures ReaderInv(s, LoadAt(r, s.nextSeq, s.size))
  {
  }

  lemma FetchKeepsReader<M>(s: Log<M>, r: Reader<M>)
    requires Inv(s) && ReaderInv(s, r)
    ensures ReaderInv(s, FetchAt(s, r))
  {
    if r.phase.Loaded? {
      assert s.slots[r.phase.at % s.size] == Held(s.history, s.size, Landed(s), r.phase.at % s.size);
    }
  }

  lemma CommitKeepsReader<M>(s: Log<M>, r: Reader<M>)
    requires Inv(s) && ReaderInv(s, r)
    ensures ReaderInv(s, CommitRead(r))
  {
  }

  lemma ReaderReplaced<M>(s: Log<M>, id: nat, r: Reader<M>)
    requires Inv(s) && ReaderInv(s, r)
    ensures Inv(s.(readers := s.readers[id := r]))
  {
  }

  lemma AttachKeepsInv<M>(s: Log<M>, id: nat)
    requires Inv(s)
    ensures Inv(Apply(s, Attach(id)))
  {
    hide Inv, Held, LastStore;
    if id !in s.readers {
      NewReader(s);
      ReaderReplaced(s, id, Reader(s.nextSeq, s.nextSeq, 0, Resting, []));
    }
  }

  lemma NewReader<M>(s: Log<M>)
    requires Inv(s)
    ensures s.size > 0 && ReaderInv(s, Reader(s.nextSeq, s.nextSeq, 0, Resting, []))
  {
  }

  lemma ReaderOf<M>(s: Log<M>, id: nat)
    requires Inv(s) && id in s.readers
    ensures Shaped(s) && s.size > 0 && ReaderInv(s, s.readers[id])
  {
  }

  lemma LoadKeepsInv<M>(s: Log<M>, id: nat)
    requires Inv(s)
    ensures Inv(Apply(s, Load(id)))
  {
    hide Inv, ReaderInv;
    if id in s.readers {
      ReaderOf(s, id);
      LoadKeepsReader(s, s.readers[id]);
      ReaderReplaced(s, id, LoadAt(s.readers[id], s.nextSeq, s.size));
    }
  }

  lemma FetchKeepsInv<M>(s: Log<M>, id: nat)
    requires Inv(s)
    ensures Inv(Apply(s, Fetch(id)))
  {
    hide Inv, ReaderInv;
    if id in s.readers {
      ReaderOf(s, id);
      FetchKeepsReader(s, s.readers[id]);
      ReaderReplaced(s, id, FetchAt(s, s.readers[id]));
    }
  }

  lemma CommitKeepsInv<M>(s: Log<M>, id: nat)
    requires Inv(s)
    ensures Inv(Apply(s, Commit(id)))
  {
    hide Inv, ReaderInv;
    if id in s.readers {
      ReaderOf(s, id);
      CommitKeepsReader(s, s.readers[id]);
      ReaderReplaced(s, id, CommitRead(s.readers[id]));
    }
  }

  lemma {:induction false} RunKeepsInv<M>(s: Log<M>, schedule: seq<Step<M>>)
    requires Inv(s)
    ensures Inv(Run(s, schedule))
    decreases |schedule|
  {
    if schedule != [] {
      var step := schedule[0];
      match step {
        case Claim(m) => ClaimKeepsInv(s, m);
        case Store => StoreKeepsInv(s);
        case Attach(id) => AttachKeepsInv(s, id);
        case Load(id) => LoadKeepsInv(s, id);
        case Fetch(id) => FetchKeepsInv(s, id);
        case Commit(id) => CommitKeepsInv(s, id);
      }
      RunKeepsInv(Apply(s, step), schedule[1..]);
    }
  }

  lemma InitInv<M>(size: nat)
    requires IsPow2(size)
    ensures Inv(Init<M>(size))
  {
  }

  // ----- what a read returns -----------------------------------------------------------

  /** Which position occupies the slot of `a` once `n` stores have landed. */
  lemma {:induction false} Occupant(n: nat, size: nat, a: nat)
    requires size > 0
    ensures n <= a < n + size ==> LastStore(n, size, a % size) == (if a < size then None else Some(a - size))
    ensures a < n <= a + size ==> LastStore(n, size, a % size) == Some(a)
    decreases n
  {
    if n <= a < n + size {
      if n == 0 {
      } else {
        if a >= size { ShiftSlot(a - size, 1, size); }
        if (n - 1) % size == a % size {
          if a < size {
            SameSlot(n - 1, a, size);
          } else {
            SameSlot(a - size, n - 1, size);
          }
        } else if a == n - 1 + size {
          ShiftSlot(n - 1, 1, size);
        } else {
          Occupant(n - 1, size, a);
        }
      }
    } else if a < n <= a + size && n - 1 != a {
      if (n - 1) % size == a % size {
        SameSlot(a, n - 1, size);
      }
      Occupant(n - 1, size, a);
    }
  }

  /** A slot passed over by `k` wraps holds the message `k * size` later. */
  lemma LapOccupant(n: nat, size: nat, a: nat) returns (k: nat)
    requires size > 0 && n > a + size
    ensures k >= 1 && LastStore(n, size, a % size) == Some(a + k * size) && a + k * size < n
  {
    k := (n - 1 - a) / size;
    var b := a + k * size;
    assert n - 1 - a == k * size + (n - 1 - a) % size;
    ShiftSlot(a, k, size);
    Occupant(n, size, b);
  }

  ghost predicate Published<M>(h: seq<M>, pos: nat, got: Option<Stored<M>>) {
    pos < |h| && got == Some(Stored(pos, h[pos]))
  }

  /** The three outcomes of a read at `at`, told apart by the stores landed at the slot load. */
  ghost predicate Outcome<M>(h: seq<M>, size: nat, d: Delivery<M>) {
    && d.at < |h|
    && (d.at < d.landed <= d.at + size ==> Published(h, d.at, d.got))
    && (d.landed <= d.at ==>
          d.landed == d.at && if d.at < size then d.got == None else Published(h, d.at - size, d.got))
    && (d.landed > d.at + size ==> exists k: nat :: k >= 1 && Published(h, d.at + k * size, d.got))
  }

  lemma HonestOutcome<M>(h: seq<M>, size: nat, d: Delivery<M>)
    requires size > 0 && Honest(h, size, d)
    ensures Outcome(h, size, d)
  {
    Occupant(d.landed, size, d.at);
    if d.landed > d.at + size {
      var k := LapOccupant(d.landed, size, d.at);
      assert Published(h, d.at + k * size, d.got);
    }
  }

  /** Every completed read of every schedule, however producer and readers interleave. */
  lemma ReadOutcomes<M>(size: nat, schedule: seq<Step<M>>, id: nat, i: nat)
    requires IsPow2(size)
    requires var s := Run(Init<M>(size), schedule); id in s.readers && i < |s.readers[id].deliveries|
    ensures var s := Run(Init<M>(size), schedule); Outcome(s.history, s.size, s.readers[id].deliveries[i])
  {
    var s := Run(Init<M>(size), schedule);
    InitInv<M>(size);
    RunKeepsInv(Init<M>(size), schedule);
    assert AllHonest(s.history, s.size, s.readers[id]);
    HonestOutcome(s.history, s.size, s.readers[id].deliveries[i]);
  }

  lemma Laps(k: nat, size: nat)
    requires k >= 1
    ensures k * size >= size
  {
  }

  /** Which store a slot shows, from the number of stores landed alone. */
  lemma ExactStoreIff(landed: nat, size: nat, at: nat)
    requires size > 0 && at <= landed
    ensures LastStore(landed, size, at % size) == Some(at) <==> at < landed <= at + size
  {
    Occupant(landed, size, at);
    if landed > at + size {
      var k := LapOccupant(landed, size, at);
      Laps(k, size);
    }
  }

  /** In every run, and for every history, pointers repeated or not: a read at `at` saw the store of
      publish `at` iff that store had landed and no later one had hit the slot. */
  lemma ExactReadIff<M>(size: nat, schedule: seq<Step<M>>, id: nat, i: nat)
    requires IsPow2(size)
    requires var s := Run(Init<M>(size), schedule); id in s.readers && i < |s.readers[id].deliveries|
    ensures var s := Run(Init<M>(size), schedule);
      var d := s.readers[id].deliveries[i];
      Published(s.history, d.at, d.got) <==> d.at < d.landed <= d.at + s.size
  {
    var s := Run(Init<M>(size), schedule);
    InitInv<M>(size);
    RunKeepsInv(Init<M>(size), schedule);
    assert AllHonest(s.history, s.size, s.readers[id]);
    var d := s.readers[id].deliveries[i];
    assert Honest(s.history, s.size, d);
    ExactStoreIff(d.landed, s.size, d.at);
  }

  /** Cursor bookkeeping under every interleaving: nothing is counted twice or forgotten. */
  lemma CursorConserved<M>(size: nat, schedule: seq<Step<M>>, id: nat)
    requires IsPow2(size)
    requires id in Run(Init<M>(size), schedule).readers
    ensures var s := Run(Init<M>(size), schedule);
      var r := s.readers[id];
      && r.cursor - r.attach == |r.deliveries| + r.dropped
      && r.cursor <= s.nextSeq == |s.history|
      && (forall i, j :: 0 <= i < j < |r.deliveries| ==> r.deliveries[i].at < r.deliveries[j].at)
  {
    InitInv<M>(size);
    RunKeepsInv(Init<M>(size), schedule);
    assert Counted(Run(Init<M>(size), schedule).readers[id], Run(Init<M>(size), schedule).nextSeq);
  }

  lemma RunFront<M>(s: Log<M>, step: Step<M>, rest: seq<Step<M>>)
    requires Shaped(s)
    ensures Shaped(Apply(s, step))
    ensures Run(s, [step] + rest) == Run(Apply(s, step), rest)
  {
    assert ([step] + rest)[1..] == rest;
  }

  lemma RunNothing<M>(s: Log<M>)
    requires Shaped(s)
    ensures Run(s, []) == s
  {
  }

  /** Load, fetch and commit of a reader one behind the log end. */
  lemma ReadsOnce<M>(s: Log<M>, r: Reader<M>)
    requires Shaped(s) && s.readers == map[0 := r] && r.phase.Resting? && r.cursor + 1 == s.nextSeq && s.size >= 1
    ensures var t := Run(s, [Load(0), Fetch(0), Commit(0)]);
      var d := Delivery(r.cursor, s.nextSeq, r.cursor, s.slots[Index(r.cursor, s.size)], Landed(s));
      t == s.(readers := map[0 := r.(cursor := s.nextSeq, deliveries := r.deliveries + [d])])
  {
    hide IsPow2, Index, Run;
    var r1 := r.(phase := Loaded(r.cursor, 0, s.nextSeq));
    var s1 := s.(readers := map[0 := r1]);
    var r2 := FetchAt(s1, r1);
    var s2 := s1.(readers := map[0 := r2]);
    assert [Load(0), Fetch(0), Commit(0)] == [Step<M>.Load(0)] + ([Step<M>.Fetch(0)] + ([Step<M>.Commit(0)] + []));
    RunFront(s, Load(0), [Step<M>.Fetch(0)] + ([Step<M>.Commit(0)] + []));
    assert Apply(s, Load(0)) == s1;
    RunFront(s1, Fetch(0), [Step<M>.Commit(0)] + []);
    assert Apply(s1, Fetch(0)) == s2;
    RunFront(s2, Commit(0), []);
    var s3 := s2.(readers := map[0 := CommitRead(r2)]);
    assert Apply(s2, Commit(0)) == s3;
    RunNothing(s3);
  }

  /** A reader attached at the end of the log reads while the next publish is claimed, not stored. */
  lemma ReadsTooSoon<M>(s: Log<M>, m: M) returns (schedule: seq<Step<M>>)
    requires Shaped(s) && s.producer.Idle? && s.readers == map[] && s.size >= 1
    ensures var t := Run(s, schedule);
      && t.history == s.history + [m] && 0 in t.readers && t.readers[0].cursor == t.nextSeq
      && |t.readers[0].deliveries| == 1
      && t.readers[0].deliveries[0].at == t.readers[0].deliveries[0].landed == s.nextSeq
      && t.readers[0].deliveries[0].from == s.nextSeq && t.readers[0].deliveries[0].end == s.nextSeq + 1
  {
    hide Index, IsPow2, Run;
    var n := s.nextSeq;
    var r: Reader<M> := Reader(n, n, 0, Resting, []);
    var s1 := s.(readers := map[0 := r]);
    var s2 := s1.(nextSeq := n + 1, producer := Storing(n, m), history := s.history + [m]);
    var e := [Step<M>.Load(0), Step<M>.Fetch(0), Step<M>.Commit(0)];
    schedule := [Step<M>.Attach(0)] + ([Step.Claim(m)] + e);
    RunFront(s, Attach(0), [Step.Claim(m)] + e);
    assert Apply(s, Attach(0)) == s1;
    RunFront(s1, Claim(m), e);
    assert Apply(s1, Claim(m)) == s2;
    ReadsOnce(s2, r);
  }

  /** A log of any size can hand a reader an empty slot: the sequence is claimed before the store. */
  lemma EmptySlotIsObservable<M>(size: nat, m: M) returns (schedule: seq<Step<M>>)
    requires IsPow2(size)
    ensures var s := Run(Init<M>(size), schedule);
      && s.history == [m] && 0 in s.readers && s.readers[0].cursor == s.nextSeq
      && s.readers[0].deliveries == [Delivery(0, 1, 0, None, 0)]
  {
    InitInv<M>(size);
    schedule := ReadsTooSoon(Init<M>(size), m);
    ReadOutcomes(size, schedule, 0, 0);
    var s := Run(Init<M>(size), schedule);
    RunKeepsSize(Init<M>(size), schedule);
    assert s.history == [] + [m] == [m];
    assert s.readers[0].deliveries == [s.readers[0].deliveries[0]];
  }

  lemma {:induction false} RunKeepsSize<M>(s: Log<M>, schedule: seq<Step<M>>)
    requires Shaped(s)
    ensures Run(s, schedule).size == s.size
    decreases |schedule|
  {
    if schedule != [] {
      ShapedKept(s, schedule[0]);
      RunKeepsSize(Apply(s, schedule[0]), schedule[1..]);
    }
  }

  lemma {:induction false} PublishAll<M>(s: Log<M>, ms: seq<M>) returns (schedule: seq<Step<M>>)
    requires Inv(s) && s.producer.Idle? && s.readers == map[]
    ensures var t := Run(s, schedule);
      && Inv(t) && t.producer.Idle? && t.readers == map[] && t.size == s.size && t.history == s.history + ms
    decreases |ms|
  {
    if ms == [] {
      schedule := [];
      assert s.history + ms == s.history;
    } else {
      var t := Apply(s, Claim(ms[0]));
      ClaimKeepsInv(s, ms[0]);
      StoreKeepsInv(t);
      var u := Apply(t, Step<M>.Store);
      var rest := PublishAll(u, ms[1..]);
      schedule := [Step.Claim(ms[0])] + ([Step<M>.Store] + rest);
      RunFront(s, Claim(ms[0]), [Step<M>.Store] + rest);
      RunFront(t, Step<M>.Store, rest);
      assert s.history + [ms[0]] + ms[1..] == s.history + ms;
    }
  }

  lemma {:induction false} RunConcat<M>(s: Log<M>, a: seq<Step<M>>, b: seq<Step<M>>)
    requires Shaped(s)
    ensures Shaped(Run(s, a)) && Run(s, a + b) == Run(Run(s, a), b)
    decreases |a|
  {
    if a == [] {
      assert a + b == b;
    } else {
      ShapedKept(s, a[0]);
      assert (a + b)[1..] == a[1..] + b;
      RunConcat(Apply(s, a[0]), a[1..], b);
    }
  }

  lemma InvShaped<M>(s: Log<M>)
    requires Inv(s)
    ensures Shaped(s) && s.nextSeq == |s.history|
  {
  }

  /** And once it has wrapped, the message `size` older: after one full lap, the very first one. */
  lemma StaleSlotIsObservable<M>(ms: seq<M>, m: M) returns (schedule: seq<Step<M>>)
    requires IsPow2(|ms|)
    ensures var s := Run(Init<M>(|ms|), schedule);
      && s.history == ms + [m] && 0 in s.readers
      && s.readers[0].deliveries == [Delivery(|ms|, |ms| + 1, |ms|, Some(Stored(0, ms[0])), |ms|)]
  {
    hide Run, Inv;
    var size := |ms|;
    InitInv<M>(size);
    InvShaped(Init<M>(size));
    var lap := PublishAll(Init<M>(size), ms);
    var t := Run(Init<M>(size), lap);
    assert [] + ms == ms;
    InvShaped(t);
    var late := ReadsTooSoon(t, m);
    schedule := lap + late;
    RunConcat(Init<M>(size), lap, late);
    ReadOutcomes(size, schedule, 0, 0);
    RunKeepsSize(Init<M>(size), schedule);
    var s := Run(Init<M>(size), schedule);
    assert s.history[0] == ms[0];
    assert s.readers[0].deliveries == [s.readers[0].deliveries[0]];
  }
}
