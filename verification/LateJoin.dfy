/**
 Codec configuration for late joiners. Publishing an init message caches it under the stream
 lock and only later claims its log position; attaching loads the log end and snapshots the
 cache inside the lock while the log keeps moving. These are separate steps here, in any order
 the lock allows.
 */
module LateJoin {

  datatype Kind = Audio | Video | Metadata | Other

  datatype Msg = Msg(kind: Kind, isInit: bool)

  /** Who is inside the stream lock, and the cursor it has loaded. */
  datatype Lock = Free | Attaching(id: nat, cursor: nat)

  /** `cleared` counts the messages already issued when a publisher last detached. */
  datatype Sub = Sub(cursor: nat, pending: seq<nat>, cleared: nat)

  datatype Stream = Stream(
    issued: seq<Msg>,      // every message handed to Publish; its index is its log position
    nextSeq: nat,          // positions claimed in the log
    cache: map<Kind, nat>, // the cached init message of each kind
    cleared: nat,
    lock: Lock,
    subs: map<nat, Sub>)

  datatype Step =
    | Begin(msg: Msg)      // Publish up to and including cacheInitMessage
    | Claim                // log.Publish
    | AttachLoad(id: nat)  // take the lock, load LatestSeq
    | AttachSnapshot       // copy the cache, register, release the lock
    | DetachPublisher      // clear the cache under the lock

  const INIT := Stream([], 0, map[], 0, Free, map[])

  predicate Caches(m: Msg) {
    m.isInit && m.kind != Other
  }

  function Snapshot(cache: map<Kind, nat>): seq<nat> {
    (if Metadata in cache then [cache[Metadata]] else [])
    + (if Video in cache then [cache[Video]] else [])
    + (if Audio in cache then [cache[Audio]] else [])
  }

  function Apply(s: Stream, step: Step): Stream {
    match step
    case Begin(m) =>
      if s.nextSeq < |s.issued| || (m.isInit && !s.lock.Free?) then s
      else s.(issued := s.issued + [m],
              cache := if Caches(m) then s.cache[m.kind := |s.issued|] else s.cache)
    case Claim => if s.nextSeq < |s.issued| then s.(nextSeq := s.nextSeq + 1) else s
    case AttachLoad(id) =>
      if s.lock.Free? && id !in s.subs then s.(lock := Attaching(id, s.nextSeq)) else s
    case AttachSnapshot =>
      if s.lock.Free? then s
      else s.(lock := Free, subs := s.subs[s.lock.id := Sub(s.lock.cursor, Snapshot(s.cache), s.cleared)])
    case DetachPublisher =>
      if s.lock.Free? then s.(cache := map[], cleared := |s.issued|) else s
  }

  function Run(s: Stream, schedule: seq<Step>): Stream
    decreases |schedule|
  {
    if schedule == [] then s else Run(Apply(s, schedule[0]), schedule[1..])
  }

  // ----- the invariant -------------------------------------------------------------------

  /** The cache holds the newest uncleared init message of each kind. */
  ghost predicate CacheInv(s: Stream) {
    && s.cleared <= |s.issued| && s.nextSeq <= |s.issued| <= s.nextSeq + 1
    && (forall k :: k in s.cache ==>
          && s.cleared <= s.cache[k] < |s.issued| && Caches(s.issued[s.cache[k]])
          && s.issued[s.cache[k]].kind == k)
    && (forall i :: s.cleared <= i < |s.issued| && Caches(s.issued[i]) ==>
          s.issued[i].kind in s.cache && i <= s.cache[s.issued[i].kind])
  }

  ghost predicate LockInv(s: Stream) {
    s.lock.Attaching? ==>
      && s.lock.cursor <= s.nextSeq
      && forall k :: k in s.cache ==> s.cache[k] <= s.lock.cursor
  }

  ghost predicate Superseded(s: Stream, sub: Sub, i: nat)
    requires i < |s.issued|
  {
    exists j :: 0 <= j < |sub.pending| && i < sub.pending[j] < |s.issued| &&
      s.issued[sub.pending[j]].kind == s.issued[i].kind
  }

  /** Nothing configured before the subscriber came is lost to it. */
  ghost predicate Configured(s: Stream, sub: Sub, i: nat)
    requires i < |s.issued|
  {
    sub.cursor <= i || i in sub.pending || Superseded(s, sub, i) || i < sub.cleared
  }

  ghost predicate SubInv(s: Stream, sub: Sub) {
    && sub.cursor <= s.nextSeq
    && (forall i: nat :: i < |s.issued| && Caches(s.issued[i]) ==> Configured(s, sub, i))
    && (forall i :: i in sub.pending ==> i <= sub.cursor && i < |s.issued| && Caches(s.issued[i]))
  }

  ghost predicate Inv(s: Stream) {
    && CacheInv(s) && LockInv(s)
    && forall id :: id in s.subs ==> SubInv(s, s.subs[id])
  }

  lemma SnapshotHolds(cache: map<Kind, nat>, k: Kind)
    requires k != Other
    ensures k in cache ==> cache[k] in Snapshot(cache)
  {
  }

  lemma SnapshotOnly(cache: map<Kind, nat>, i: nat)
    requires i in Snapshot(cache)
    ensures exists k :: k in cache && cache[k] == i
  {
  }

  lemma AttachedIsConfigured(s: Stream, i: nat)
    requires CacheInv(s) && LockInv(s) && s.lock.Attaching?
    requires i < |s.issued| && Caches(s.issued[i])
    ensures Configured(s, Sub(s.lock.cursor, Snapshot(s.cache), s.cleared), i)
  {
    if s.cleared <= i {
      var k := s.issued[i].kind;
      SnapshotHolds(s.cache, k);
      var j :| 0 <= j < |Snapshot(s.cache)| && Snapshot(s.cache)[j] == s.cache[k];
      assert i == s.cache[k] || Superseded(s, Sub(s.lock.cursor, Snapshot(s.cache), s.cleared), i);
    }
  }

  lemma SnapshotKeepsInv(s: Stream)
    requires Inv(s)
    ensures Inv(Apply(s, AttachSnapshot))
  {
    if s.lock.Attaching? {
      var t := Apply(s, AttachSnapshot);
      var sub := Sub(s.lock.cursor, Snapshot(s.cache), s.cleared);
      forall i: nat | i < |t.issued| && Caches(t.issued[i]) ensures Configured(t, sub, i) {
        AttachedIsConfigured(s, i);
        assert Superseded(s, sub, i) ==> Superseded(t, sub, i);
      }
      forall i | i in sub.pending ensures i <= sub.cursor && i < |t.issued| && Caches(t.issued[i]) {
        SnapshotOnly(s.cache, i);
      }
      forall id | id in t.subs && id != s.lock.id ensures SubInv(t, t.subs[id]) {
        SubKept(s, t, s.subs[id]);
      }
    }
  }

  /** A subscriber's guarantee survives the log growing. */
  lemma SubKept(s: Stream, t: Stream, sub: Sub)
    requires SubInv(s, sub) && s.nextSeq <= |s.issued|
    requires s.issued <= t.issued && s.nextSeq <= t.nextSeq
    ensures SubInv(t, sub)
  {
    forall i: nat | i < |t.issued| && Caches(t.issued[i]) ensures Configured(t, sub, i) {
      if i < |s.issued| {
        assert Configured(s, sub, i);
        if Superseded(s, sub, i) {
          var j :| 0 <= j < |sub.pending| && i < sub.pending[j] < |s.issued| &&
            s.issued[sub.pending[j]].kind == s.issued[i].kind;
          assert t.issued[sub.pending[j]].kind == t.issued[i].kind;
          assert Superseded(t, sub, i);
        }
      }
    }
  }

  lemma BeginKeepsInv(s: Stream, m: Msg)
    requires Inv(s)
    ensures Inv(Apply(s, Begin(m)))
  {
    var t := Apply(s, Begin(m));
    assert CacheInv(t);
    forall id | id in t.subs ensures SubInv(t, t.subs[id]) {
      SubKept(s, t, s.subs[id]);
    }
  }

  lemma StepKeepsInv(s: Stream, step: Step)
    requires Inv(s)
    ensures Inv(Apply(s, step))
  {
    var t := Apply(s, step);
    match step {
      case Begin(m) => BeginKeepsInv(s, m);
      case AttachSnapshot => SnapshotKeepsInv(s);
      case _ =>
        forall id | id in t.subs ensures SubInv(t, t.subs[id]) {
          SubKept(s, t, s.subs[id]);
        }
    }
  }

  lemma {:induction false} RunKeepsInv(s: Stream, schedule: seq<Step>)
    requires Inv(s)
    ensures Inv(Run(s, schedule))
    decreases |schedule|
  {
    if schedule != [] {
      StepKeepsInv(s, schedule[0]);
      RunKeepsInv(Apply(s, schedule[0]), schedule[1..]);
    }
  }

  // ----- read off the schedule -------------------------------------------------------------

  lemma {:induction false} RunSnoc(s: Stream, schedule: seq<Step>, step: Step)
    ensures Run(s, schedule + [step]) == Apply(Run(s, schedule), step)
    decreases |schedule|
  {
    if schedule == [] {
      assert (schedule + [step])[1..] == [];
    } else {
      assert (schedule + [step])[1..] == schedule[1..] + [step];
      RunSnoc(Apply(s, schedule[0]), schedule[1..], step);
    }
  }

  /** How many messages had been issued when a publisher last detached; 0 if none ever did. A detach
      that finds the lock taken waits. */
  function Detached(schedule: seq<Step>): nat {
    if schedule == [] then 0
    else
      var before := schedule[..|schedule| - 1];
      var s := Run(INIT, before);
      if schedule[|schedule| - 1] == DetachPublisher && s.lock.Free? then |s.issued| else Detached(before)
  }

  lemma {:induction false} ClearedIsDetached(schedule: seq<Step>)
    ensures Run(INIT, schedule).cleared == Detached(schedule)
  {
    if schedule != [] {
      var before, step := schedule[..|schedule| - 1], schedule[|schedule| - 1];
      assert schedule == before + [step];
      RunSnoc(INIT, before, step);
      ClearedIsDetached(before);
    }
  }

  /** `AttachLoad(id)` at `j` took the lock and found the log end at `cursor`. */
  ghost predicate LoadedAt(schedule: seq<Step>, j: nat, id: nat, cursor: nat) {
    && j < |schedule| && schedule[j] == AttachLoad(id)
    && Run(INIT, schedule[..j]).lock.Free? && Run(INIT, schedule[..j]).nextSeq == cursor
  }

  lemma {:induction false} LockIsLoaded(schedule: seq<Step>) returns (j: nat)
    requires Run(INIT, schedule).lock.Attaching?
    ensures LoadedAt(schedule, j, Run(INIT, schedule).lock.id, Run(INIT, schedule).lock.cursor)
    decreases |schedule|
  {
    var before, step := schedule[..|schedule| - 1], schedule[|schedule| - 1];
    assert schedule == before + [step];
    RunSnoc(INIT, before, step);
    if Run(INIT, before).lock.Attaching? {
      j := LockIsLoaded(before);
      assert schedule[..j] == before[..j];
    } else {
      j := |before|;
    }
  }

  /** `AttachSnapshot` at `k` made the subscriber what it is. */
  ghost predicate AttachedAt(schedule: seq<Step>, k: nat, id: nat, sub: Sub) {
    && k < |schedule| && schedule[k] == AttachSnapshot
    && Run(INIT, schedule[..k]).lock == Attaching(id, sub.cursor)
    && sub.pending == Snapshot(Run(INIT, schedule[..k]).cache)
    && sub.cleared == Detached(schedule[..k])
  }

  /** Every subscriber comes from one attach: it starts at the log end that attach loaded, with the
      cache as its snapshot found it. */
  lemma {:induction false} SubscribedAt(schedule: seq<Step>, id: nat) returns (j: nat, k: nat)
    requires id in Run(INIT, schedule).subs
    ensures j < k && AttachedAt(schedule, k, id, Run(INIT, schedule).subs[id])
    ensures LoadedAt(schedule, j, id, Run(INIT, schedule).subs[id].cursor)
    decreases |schedule|
  {
    var before, step := schedule[..|schedule| - 1], schedule[|schedule| - 1];
    assert schedule == before + [step];
    RunSnoc(INIT, before, step);
    var s := Run(INIT, before);
    if step == AttachSnapshot && s.lock.Attaching? && s.lock.id == id {
      k := |before|;
      assert schedule[..k] == before;
      j := LockIsLoaded(before);
      assert schedule[..j] == before[..j];
      ClearedIsDetached(before);
    } else {
      j, k := SubscribedAt(before, id);
      assert schedule[..j] == before[..j] && schedule[..k] == before[..k];
    }
  }

  /** Nothing but a detach empties the cache: an entry stays or gives way to a newer one. */
  lemma OnlyDetachClears(s: Stream, step: Step, kind: Kind)
    requires Inv(s) && kind in s.cache && step != DetachPublisher
    ensures kind in Apply(s, step).cache && s.cache[kind] <= Apply(s, step).cache[kind]
  {
  }

  /** No interleaving leaves a subscriber without a codec configuration message: it is ahead, pending,
      superseded there by a newer one of its kind, or older than the last detach before the attach. */
  lemma LateJoinersAreConfigured(schedule: seq<Step>, id: nat, i: nat) returns (k: nat)
    requires var s := Run(INIT, schedule);
      id in s.subs && i < |s.issued| && s.issued[i].isInit && s.issued[i].kind in {Audio, Video, Metadata}
    ensures AttachedAt(schedule, k, id, Run(INIT, schedule).subs[id])
    ensures var s := Run(INIT, schedule);
      var sub := s.subs[id];
      || sub.cursor <= i || i in sub.pending
      || (exists j :: 0 <= j < |sub.pending| && i < sub.pending[j] < |s.issued|
            && s.issued[sub.pending[j]].isInit && s.issued[sub.pending[j]].kind == s.issued[i].kind)
      || i < Detached(schedule[..k])
  {
    RunKeepsInv(INIT, schedule);
    var s := Run(INIT, schedule);
    assert SubInv(s, s.subs[id]);
    assert Configured(s, s.subs[id], i);
    var j;
    j, k := SubscribedAt(schedule, id);
    if Superseded(s, s.subs[id], i) {
      var n :| 0 <= n < |s.subs[id].pending| && i < s.subs[id].pending[n] < |s.issued|
        && s.issued[s.subs[id].pending[n]].kind == s.issued[i].kind;
      assert s.subs[id].pending[n] in s.subs[id].pending;
    }
  }

  /** What a snapshot hands over was issued since the cache was last cleared. */
  lemma SnapshotIsCurrent(s: Stream, a: nat)
    requires CacheInv(s) && a < |Snapshot(s.cache)|
    ensures var pending := Snapshot(s.cache);
      s.cleared <= pending[a] < |s.issued| && s.issued[pending[a]].isInit
    ensures var pending := Snapshot(s.cache);
      forall b :: a < b < |pending| && pending[b] < |s.issued| ==>
        Rank(s.issued[pending[a]].kind) < Rank(s.issued[pending[b]].kind) < 3
  {
    var pending := Snapshot(s.cache);
    forall b | a < b < |pending| && pending[b] < |s.issued|
      ensures Rank(s.issued[pending[a]].kind) < Rank(s.issued[pending[b]].kind) < 3
    {
      if a == 0 { assert b == 1 || b == 2; } else { assert a == 1 && b == 2; }
    }
  }

  /** What is pending was issued after that detach, in the order metadata, video, audio. */
  lemma PendingIsCurrent(schedule: seq<Step>, id: nat) returns (k: nat)
    requires id in Run(INIT, schedule).subs
    ensures AttachedAt(schedule, k, id, Run(INIT, schedule).subs[id])
    ensures var s := Run(INIT, schedule);
      var pending := s.subs[id].pending;
      && (forall a :: 0 <= a < |pending| ==>
            Detached(schedule[..k]) <= pending[a] < |s.issued| && s.issued[pending[a]].isInit)
      && (forall a, b :: 0 <= a < b < |pending| ==>
            Rank(s.issued[pending[a]].kind) < Rank(s.issued[pending[b]].kind) < 3)
  {
    hide CacheInv, LockInv, SubInv, Snapshot, Rank, Run, Detached;
    var j;
    j, k := SubscribedAt(schedule, id);
    RunKeepsInv(INIT, schedule[..k]);
    ClearedIsDetached(schedule[..k]);
    IssuedGrows(schedule, k);
    var t, s := Run(INIT, schedule[..k]), Run(INIT, schedule);
    var pending := s.subs[id].pending;
    forall a | 0 <= a < |pending|
      ensures Detached(schedule[..k]) <= pending[a] < |t.issued| && s.issued[pending[a]].isInit
    {
      SnapshotIsCurrent(t, a);
    }
    forall a, b | 0 <= a < b < |pending|
      ensures Rank(s.issued[pending[a]].kind) < Rank(s.issued[pending[b]].kind) < 3
    {
      SnapshotIsCurrent(t, a);
      assert pending[b] < |t.issued|;
    }
  }

  function Rank(kind: Kind): nat {
    match kind
    case Metadata => 0
    case Video => 1
    case Audio => 2
    case Other => 3
  }

  lemma {:induction false} IssuedGrows(schedule: seq<Step>, k: nat)
    requires k <= |schedule|
    ensures Run(INIT, schedule[..k]).issued <= Run(INIT, schedule).issued
    decreases |schedule|
  {
    if k == |schedule| {
      assert schedule[..k] == schedule;
    } else {
      var before, step := schedule[..|schedule| - 1], schedule[|schedule| - 1];
      assert schedule == before + [step] && schedule[..k] == before[..k];
      RunSnoc(INIT, before, step);
      IssuedGrows(before, k);
    }
  }

  lemma {:induction false} NeverDetached(schedule: seq<Step>)
    requires DetachPublisher !in schedule
    ensures Detached(schedule) == 0
  {
    if schedule != [] { NeverDetached(schedule[..|schedule| - 1]); }
  }

  /** Without a detach, every init message is ahead, pending, or superseded there. */
  lemma ConfiguredUnlessDetached(schedule: seq<Step>, id: nat, i: nat)
    requires DetachPublisher !in schedule
    requires var s := Run(INIT, schedule);
      id in s.subs && i < |s.issued| && s.issued[i].isInit && s.issued[i].kind in {Audio, Video, Metadata}
    ensures var s := Run(INIT, schedule);
      var sub := s.subs[id];
      || sub.cursor <= i || i in sub.pending
      || (exists j :: 0 <= j < |sub.pending| && i < sub.pending[j] < |s.issued|
            && s.issued[sub.pending[j]].isInit && s.issued[sub.pending[j]].kind == s.issued[i].kind)
  {
    var k := LateJoinersAreConfigured(schedule, id, i);
    NeverDetached(schedule[..k]);
  }

  /** Only the init message in flight while the subscriber attached can reach it twice. */
  lemma AtMostOneSeenTwice(schedule: seq<Step>, id: nat, i: nat, j: nat)
    requires id in Run(INIT, schedule).subs
    requires var sub := Run(INIT, schedule).subs[id];
      i in sub.pending && j in sub.pending && sub.cursor <= i && sub.cursor <= j
    ensures i == j == Run(INIT, schedule).subs[id].cursor
  {
    RunKeepsInv(INIT, schedule);
    var s := Run(INIT, schedule);
    assert SubInv(s, s.subs[id]);
  }

  /** Undisturbed, a publish is issued and claimed, and whoever attaches next starts behind it, with
      the message in hand if it is configuration. */
  lemma PublishThenAttach(s: Stream, m: Msg, id: nat)
    requires s.lock.Free? && s.nextSeq == |s.issued| && id !in s.subs
    ensures var t := Apply(Apply(Apply(Apply(s, Begin(m)), Claim), AttachLoad(id)), AttachSnapshot);
      && t.lock.Free? && t.issued == s.issued + [m] && t.nextSeq == |t.issued|
      && t.subs.Keys == s.subs.Keys + {id} && t.subs[id].cursor == |t.issued|
      && (m.isInit && m.kind != Other ==> |s.issued| in t.subs[id].pending)
  {
    var a := Apply(s, Begin(m));
    var b := Apply(a, Claim);
    var t := Apply(Apply(b, AttachLoad(id)), AttachSnapshot);
    var cached := Snapshot(b.cache);
    assert t.subs[id].pending == cached;
    if m.isInit && m.kind != Other {
      assert b.cache[m.kind] == |s.issued|;
      InSnapshot(b.cache, m.kind);
    }
  }

  lemma InSnapshot(cache: map<Kind, nat>, k: Kind)
    requires k in cache && k != Other
    ensures cache[k] in Snapshot(cache)
  {
  }
}
