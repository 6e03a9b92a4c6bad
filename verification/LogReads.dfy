/**
 Where a reader of the interleaved log reads: at its cursor, unless the log end it loaded was more
 than the whole log further. Everything is read off the schedule: which load each read came from,
 which attach each reader, and hence what was skipped and counted as dropped.
 */
module LogReads {
  import opened Bits
  import opened LogSteps

  ghost predicate AttachedIn<M>(size: nat, schedule: seq<Step<M>>, k: nat, id: nat, at: nat)
    requires IsPow2(size)
  {
    && k < |schedule| && schedule[k] == Attach(id)
    && var t := Run(Init<M>(size), schedule[..k]); id !in t.readers && t.nextSeq == at
  }

  ghost predicate LoadedIn<M>(size: nat, schedule: seq<Step<M>>, k: nat, id: nat, from: nat, end: nat)
    requires IsPow2(size)
  {
    && k < |schedule| && schedule[k] == Load(id) && from < end
    && var t := Run(Init<M>(size), schedule[..k]);
       id in t.readers && t.readers[id].cursor == from && t.nextSeq == end
  }

  /** At the cursor, or `size` before the end where the cursor is further behind than that. */
  predicate Rule(size: nat, from: nat, end: nat, at: nat) {
    from < end && if end - from <= size then at == from else at + size == end
  }

  /** Some load in the schedule found this cursor and this end, and the rule says the rest. */
  ghost predicate Explained<M>(size: nat, schedule: seq<Step<M>>, id: nat, from: nat, end: nat, at: nat)
    requires IsPow2(size)
  {
    Rule(size, from, end, at) && exists k :: LoadedIn(size, schedule, k, id, from, end)
  }

  function Skipped<M>(ds: seq<Delivery<M>>): int {
    if ds == [] then 0 else Skipped(ds[..|ds| - 1]) + (ds[|ds| - 1].at - ds[|ds| - 1].from)
  }

  /** Each read starts where the one before it left off, the first at the attach. */
  ghost predicate Chained<M>(attach: nat, ds: seq<Delivery<M>>, cursor: nat) {
    && (ds != [] ==> ds[0].from == attach)
    && (forall i, j :: 0 <= i < j == i + 1 < |ds| ==> ds[j].from == ds[i].at + 1)
    && cursor == if ds == [] then attach else ds[|ds| - 1].at + 1
  }

  ghost predicate Told<M>(size: nat, schedule: seq<Step<M>>, id: nat, r: Reader<M>)
    requires IsPow2(size)
  {
    && (exists k :: AttachedIn(size, schedule, k, id, r.attach))
    && Chained(r.attach, r.deliveries, r.cursor) && r.dropped == Skipped(r.deliveries)
    && (forall i :: 0 <= i < |r.deliveries| ==>
          Explained(size, schedule, id, r.deliveries[i].from, r.deliveries[i].end, r.deliveries[i].at))
    && match r.phase
       case Resting => true
       case Loaded(at, skipped, end) => Explained(size, schedule, id, r.cursor, end, at) && skipped == at - r.cursor
       case Fetched(d, skipped) =>
         d.from == r.cursor && Explained(size, schedule, id, d.from, d.end, d.at) && skipped == d.at - d.from
  }

  // ----- longer schedules -------------------------------------------------------------------------

  lemma {:induction false} RunSnoc<M>(s: Log<M>, schedule: seq<Step<M>>, step: Step<M>)
    requires Shaped(s)
    ensures Shaped(Run(s, schedule)) && Run(s, schedule + [step]) == Apply(Run(s, schedule), step)
    decreases |schedule|
  {
    if schedule == [] {
      assert (schedule + [step])[1..] == [];
      ShapedKept(s, step);
    } else {
      ShapedKept(s, schedule[0]);
      assert (schedule + [step])[1..] == schedule[1..] + [step];
      RunSnoc(Apply(s, schedule[0]), schedule[1..], step);
    }
  }

  lemma ExplainedLater<M>(size: nat, schedule: seq<Step<M>>, step: Step<M>, id: nat, from: nat, end: nat, at: nat)
    requires IsPow2(size) && Explained(size, schedule, id, from, end, at)
    ensures Explained(size, schedule + [step], id, from, end, at)
  {
    var k: nat :| LoadedIn(size, schedule, k, id, from, end);
    assert (schedule + [step])[..k] == schedule[..k];
    assert LoadedIn(size, schedule + [step], k, id, from, end);
  }

  lemma ToldLater<M>(size: nat, schedule: seq<Step<M>>, step: Step<M>, id: nat, r: Reader<M>)
    requires IsPow2(size) && Told(size, schedule, id, r)
    ensures Told(size, schedule + [step], id, r)
  {
    hide Explained, Chained, Skipped;
    var k: nat :| AttachedIn(size, schedule, k, id, r.attach);
    assert (schedule + [step])[..k] == schedule[..k];
    assert AttachedIn(size, schedule + [step], k, id, r.attach);
    forall i | 0 <= i < |r.deliveries|
      ensures Explained(size, schedule + [step], id, r.deliveries[i].from, r.deliveries[i].end, r.deliveries[i].at)
    {
      ExplainedLater(size, schedule, step, id, r.deliveries[i].from, r.deliveries[i].end, r.deliveries[i].at);
    }
    match r.phase {
      case Resting =>
      case Loaded(at, _, end) => ExplainedLater(size, schedule, step, id, r.cursor, end, at);
      case Fetched(d, _) => ExplainedLater(size, schedule, step, id, d.from, d.end, d.at);
    }
  }

  lemma LoadTold<M>(size: nat, schedule: seq<Step<M>>, id: nat)
    requires IsPow2(size) && id in Run(Init<M>(size), schedule).readers
    requires Run(Init<M>(size), schedule).size == size
    requires Told(size, schedule, id, Run(Init<M>(size), schedule).readers[id])
    ensures var s := Run(Init<M>(size), schedule);
      Told(size, schedule + [Load(id)], id, LoadAt(s.readers[id], s.nextSeq, size))
  {
    hide Chained, Skipped;
    var s := Run(Init<M>(size), schedule);
    var r := s.readers[id];
    ToldLater(size, schedule, Load(id), id, r);
    if r.phase.Resting? && r.cursor < s.nextSeq {
      assert (schedule + [Step<M>.Load(id)])[..|schedule|] == schedule;
      assert LoadedIn(size, schedule + [Load(id)], |schedule|, id, r.cursor, s.nextSeq);
    }
  }

  lemma CommitTold<M>(size: nat, schedule: seq<Step<M>>, id: nat, r: Reader<M>)
    requires IsPow2(size) && Told(size, schedule, id, r)
    ensures Told(size, schedule, id, CommitRead(r))
  {
    hide Explained, AttachedIn, Chained, Skipped;
    if r.phase.Fetched? {
      OneMoreRead(r.attach, r.deliveries, r.cursor, r.phase.got);
    }
  }

  lemma OneMoreRead<M>(attach: nat, ds: seq<Delivery<M>>, cursor: nat, d: Delivery<M>)
    requires Chained(attach, ds, cursor) && d.from == cursor
    ensures Chained(attach, ds + [d], d.at + 1) && Skipped(ds + [d]) == Skipped(ds) + (d.at - d.from)
  {
    assert (ds + [d])[..|ds|] == ds;
  }

  lemma AttachTold<M>(size: nat, schedule: seq<Step<M>>, id: nat)
    requires IsPow2(size) && id !in Run(Init<M>(size), schedule).readers
    ensures var n := Run(Init<M>(size), schedule).nextSeq;
      Told(size, schedule + [Attach(id)], id, Reader(n, n, 0, Resting, []))
  {
    assert (schedule + [Step<M>.Attach(id)])[..|schedule|] == schedule;
    assert AttachedIn(size, schedule + [Attach(id)], |schedule|, id, Run(Init<M>(size), schedule).nextSeq);
  }

  /** Every reader of every run is told by its schedule. */
  lemma {:induction false} EveryReaderTold<M>(size: nat, schedule: seq<Step<M>>, id: nat)
    requires IsPow2(size) && id in Run(Init<M>(size), schedule).readers
    ensures Told(size, schedule, id, Run(Init<M>(size), schedule).readers[id])
    decreases |schedule|
  {
    hide Told, LoadAt, FetchAt, CommitRead;
    var before, step := schedule[..|schedule| - 1], schedule[|schedule| - 1];
    assert schedule == before + [step];
    RunSnoc(Init<M>(size), before, step);
    RunKeepsSize(Init<M>(size), before);
    var s := Run(Init<M>(size), before);
    if id in s.readers {
      EveryReaderTold(size, before, id);
      ToldLater(size, before, step, id, s.readers[id]);
      if step == Load(id) {
        LoadTold<M>(size, before, id);
      } else if step == Fetch(id) {
        FetchTold(s, size, schedule, id);
      } else if step == Commit(id) {
        CommitTold(size, schedule, id, s.readers[id]);
      }
    } else {
      AttachTold<M>(size, before, id);
    }
  }

  lemma FetchTold<M>(s: Log<M>, size: nat, schedule: seq<Step<M>>, id: nat)
    requires IsPow2(size) && Shaped(s) && id in s.readers && Told(size, schedule, id, s.readers[id])
    ensures Told(size, schedule, id, FetchAt(s, s.readers[id]))
  {
    hide Explained, Chained, Skipped;
  }

  // ----- what a reader can rely on ------------------------------------------------------------------

  /** In every interleaving: a read starts at the cursor the one before it left, the first at the log
      end its attach loaded; it is at that cursor if the end its load found was at most `size` further,
      and otherwise `size` before that end. */
  lemma SkipsOnlyWhenBehind<M>(size: nat, schedule: seq<Step<M>>, id: nat, i: nat) returns (a: nat, k: nat)
    requires IsPow2(size)
    requires var s := Run(Init<M>(size), schedule); id in s.readers && i < |s.readers[id].deliveries|
    ensures var r := Run(Init<M>(size), schedule).readers[id];
      var d := r.deliveries[i];
      && AttachedIn(size, schedule, a, id, r.attach) && LoadedIn(size, schedule, k, id, d.from, d.end)
      && d.from == (if i == 0 then r.attach else r.deliveries[i - 1].at + 1) < d.end
      && (if d.end - d.from <= size then d.at == d.from else d.at + size == d.end)
  {
    EveryReaderTold(size, schedule, id);
    var r := Run(Init<M>(size), schedule).readers[id];
    a :| AttachedIn(size, schedule, a, id, r.attach);
    var d := r.deliveries[i];
    assert Explained(size, schedule, id, d.from, d.end, d.at);
    k :| LoadedIn(size, schedule, k, id, d.from, d.end);
  }

  /** What is counted as dropped is what the reads skipped, each from its cursor to its position. */
  lemma DroppedIsSkipped<M>(size: nat, schedule: seq<Step<M>>, id: nat)
    requires IsPow2(size) && id in Run(Init<M>(size), schedule).readers
    ensures var r := Run(Init<M>(size), schedule).readers[id]; r.dropped == Skipped(r.deliveries)
  {
    EveryReaderTold(size, schedule, id);
  }

  /** A reader never more than `size` behind at its loads drops nothing and reads every position. */
  lemma NeverBehind<M>(size: nat, schedule: seq<Step<M>>, id: nat)
    requires IsPow2(size) && id in Run(Init<M>(size), schedule).readers
    requires var ds := Run(Init<M>(size), schedule).readers[id].deliveries;
      forall i :: 0 <= i < |ds| ==> ds[i].end - ds[i].from <= size
    ensures var r := Run(Init<M>(size), schedule).readers[id];
      r.dropped == 0 && forall i :: 0 <= i < |r.deliveries| ==> r.deliveries[i].at == r.attach + i
  {
    hide Told;
    EveryReaderTold(size, schedule, id);
    ToldSteady(size, schedule, id, Run(Init<M>(size), schedule).readers[id]);
  }

  lemma ToldSteady<M>(size: nat, schedule: seq<Step<M>>, id: nat, r: Reader<M>)
    requires IsPow2(size) && Told(size, schedule, id, r)
    requires forall i :: 0 <= i < |r.deliveries| ==> r.deliveries[i].end - r.deliveries[i].from <= size
    ensures r.dropped == 0 && forall i :: 0 <= i < |r.deliveries| ==> r.deliveries[i].at == r.attach + i
  {
    forall i | 0 <= i < |r.deliveries| ensures r.deliveries[i].at == r.deliveries[i].from {
      assert Explained(size, schedule, id, r.deliveries[i].from, r.deliveries[i].end, r.deliveries[i].at);
    }
    Steady(r.attach, r.deliveries, |r.deliveries|);
    assert r.deliveries[..|r.deliveries|] == r.deliveries;
  }

  lemma {:induction false} Steady<M>(attach: nat, ds: seq<Delivery<M>>, n: nat)
    requires n <= |ds| && forall i :: 0 <= i < |ds| ==> ds[i].at == ds[i].from
    requires ds != [] ==> ds[0].from == attach
    requires forall i, j :: 0 <= i < j == i + 1 < |ds| ==> ds[j].from == ds[i].at + 1
    ensures Skipped(ds[..n]) == 0 && forall i :: 0 <= i < n ==> ds[i].at == attach + i
  {
    if n > 0 {
      Steady(attach, ds, n - 1);
      assert ds[..n][..n - 1] == ds[..n - 1];
      if n > 1 {
        assert ds[n - 1].from == ds[n - 2].at + 1;
      }
    }
  }
}
