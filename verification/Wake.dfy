/**
 The wake broadcast: every publish makes a fresh channel, swaps it in and closes the one it
 swapped out; a subscriber that read nothing loads the current channel and parks on it. Any
 number of publishers and subscribers interleave at single atomic steps.
 */
module Wake {

  /** The life of a channel, with the publisher responsible for its next move. */
  datatype Channel = Fresh(owner: nat) | Current | Retired(owner: nat) | Closed

  datatype Publisher =
    | PIdle
    | PAdded(pos: nat)               // message appended, broadcast not started
    | PMade(pos: nat, made: nat)     // fresh channel made
    | PSwapped(pos: nat, prev: nat)   // fresh channel installed, old one still open

  /** `readAt` and `loadAt` are the number of swaps done at the empty read and at the load. */
  datatype Subscriber =
    | SRunning(cursor: nat)
    | SEmpty(cursor: nat, readAt: nat)
    | SParked(cursor: nat, readAt: nat, loadAt: nat, chan: nat)

  /** One swap: the log position whose publish made it and the channel it retired. */
  datatype Swap = Swap(pos: nat, prev: nat)

  datatype State = State(
    nextSeq: nat, chans: seq<Channel>, current: nat, closes: seq<nat>,
    publishers: map<nat, Publisher>, subs: map<nat, Subscriber>, swaps: seq<Swap>)

  datatype Step =
    | Append(p: nat) | Make(p: nat) | Install(p: nat) | Close(p: nat)
    | Read(id: nat) | LoadChan(id: nat) | Wakeup(id: nat)

  function Init(publishers: set<nat>, subs: set<nat>): State {
    State(0, [Current], 0, [0], map p | p in publishers :: PIdle, map i | i in subs :: SRunning(0), [])
  }

  ghost predicate Shaped(s: State) {
    && |s.closes| == |s.chans| && s.current < |s.chans|
    && forall p :: p in s.publishers ==> PublisherShaped(s, s.publishers[p])
  }

  ghost predicate PublisherShaped(s: State, p: Publisher) {
    && (p.PMade? ==> p.made < |s.chans|)
    && (p.PSwapped? ==> p.prev < |s.chans|)
  }

  function ApplyPublisher(s: State, p: nat, step: Step): State
    requires Shaped(s) && p in s.publishers
  {
    match (step, s.publishers[p])
    case (Append(_), PIdle) =>
      s.(nextSeq := s.nextSeq + 1, publishers := s.publishers[p := PAdded(s.nextSeq)])
    case (Make(_), PAdded(pos)) =>
      s.(chans := s.chans + [Fresh(p)], closes := s.closes + [0],
         publishers := s.publishers[p := PMade(pos, |s.chans|)])
    case (Install(_), PMade(pos, made)) =>
      s.(chans := s.chans[s.current := Retired(p)][made := Current], current := made,
         swaps := s.swaps + [Swap(pos, s.current)],
         publishers := s.publishers[p := PSwapped(pos, s.current)])
    case (Close(_), PSwapped(pos, prev)) =>
      s.(chans := s.chans[prev := Closed], closes := s.closes[prev := s.closes[prev] + 1],
         publishers := s.publishers[p := PIdle])
    case _ => s
  }

  function ApplySubscriber(s: State, id: nat, step: Step): State
    requires Shaped(s) && id in s.subs
  {
    match (step, s.subs[id])
    case (Read(_), SRunning(cursor)) =>
      s.(subs := s.subs[id := if cursor < s.nextSeq then SRunning(cursor + 1) else SEmpty(cursor, |s.swaps|)])
    case (LoadChan(_), SEmpty(cursor, readAt)) =>
      s.(subs := s.subs[id := SParked(cursor, readAt, |s.swaps|, s.current)])
    case (Wakeup(_), SParked(cursor, readAt, loadAt, chan)) =>
      if chan < |s.chans| && s.chans[chan] == Closed then s.(subs := s.subs[id := SRunning(cursor)]) else s
    case _ => s
  }

  predicate ByPublisher(step: Step) {
    step.Append? || step.Make? || step.Install? || step.Close?
  }

  function Apply(s: State, step: Step): State
    requires Shaped(s)
  {
    if ByPublisher(step) then
      if step.p in s.publishers then ApplyPublisher(s, step.p, step) else s
    else if step.id in s.subs then ApplySubscriber(s, step.id, step) else s
  }

  // ----- the invariant -------------------------------------------------------------------

  /** Every channel has one keeper: the stream, one publisher, or nobody once it is closed. */
  ghost predicate Owned(s: State)
    requires Shaped(s)
  {
    && s.chans[s.current] == Current
    && (forall c :: 0 <= c < |s.chans| && s.chans[c] == Current ==> c == s.current)
    && (forall p :: p in s.publishers && s.publishers[p].PMade? ==> s.chans[s.publishers[p].made] == Fresh(p))
    && (forall p :: p in s.publishers && s.publishers[p].PSwapped? ==> s.chans[s.publishers[p].prev] == Retired(p))
    && (forall c :: 0 <= c < |s.chans| && s.chans[c].Fresh? ==>
          s.chans[c].owner in s.publishers && s.publishers[s.chans[c].owner].PMade?
          && s.publishers[s.chans[c].owner].made == c)
    && (forall c :: 0 <= c < |s.chans| && s.chans[c].Retired? ==>
          s.chans[c].owner in s.publishers && s.publishers[s.chans[c].owner].PSwapped?
          && s.publishers[s.chans[c].owner].prev == c)
  }

  ghost predicate ClosedOnce(s: State)
    requires Shaped(s)
  {
    forall c :: 0 <= c < |s.chans| ==> s.closes[c] == if s.chans[c] == Closed then 1 else 0
  }

  ghost predicate Positions(s: State) {
    && (forall p :: p in s.publishers && !s.publishers[p].PIdle? ==> s.publishers[p].pos < s.nextSeq)
    && (forall i :: 0 <= i < |s.swaps| ==> s.swaps[i].pos < s.nextSeq)
  }

  /** What a subscriber that found nothing knows about the swaps so far. */
  ghost predicate Waiting(s: State, sub: Subscriber) {
    match sub
    case SRunning(cursor) => cursor <= s.nextSeq
    case SEmpty(cursor, readAt) =>
      && cursor <= s.nextSeq && readAt <= |s.swaps|
      && (forall i :: 0 <= i < readAt ==> s.swaps[i].pos < cursor)
    case SParked(cursor, readAt, loadAt, chan) =>
      && cursor <= s.nextSeq && readAt <= loadAt <= |s.swaps|
      && (forall i :: 0 <= i < readAt ==> s.swaps[i].pos < cursor)
      && (if loadAt == |s.swaps| then chan == s.current
          else s.swaps[loadAt].prev == chan && chan < |s.chans| && (s.chans[chan].Retired? || s.chans[chan].Closed?))
  }

  ghost predicate Inv(s: State) {
    && Shaped(s) && Owned(s) && ClosedOnce(s) && Positions(s)
    && forall id :: id in s.subs ==> Waiting(s, s.subs[id])
  }

  /** A waiting subscriber's knowledge survives any step that keeps the past and its channel. */
  lemma WaitingKept(s: State, t: State, sub: Subscriber)
    requires Waiting(s, sub)
    requires s.nextSeq <= t.nextSeq && s.swaps == t.swaps && s.current == t.current && |s.chans| <= |t.chans|
    requires forall c :: 0 <= c < |s.chans| && (s.chans[c].Retired? || s.chans[c].Closed?) ==>
      t.chans[c].Retired? || t.chans[c].Closed?
    ensures Waiting(t, sub)
  {
  }

  lemma AppendKeepsInv(s: State, p: nat)
    requires Inv(s) && p in s.publishers && s.publishers[p].PIdle?
    ensures Inv(ApplyPublisher(s, p, Append(p)))
  {
    var t := ApplyPublisher(s, p, Append(p));
    forall id | id in t.subs ensures Waiting(t, t.subs[id]) {
      WaitingKept(s, t, s.subs[id]);
    }
  }

  lemma MakeKeepsInv(s: State, p: nat)
    requires Inv(s) && p in s.publishers && s.publishers[p].PAdded?
    ensures Inv(ApplyPublisher(s, p, Make(p)))
  {
    var t := ApplyPublisher(s, p, Make(p));
    MakeKeepsOwned(s, p);
    MakeKeepsCounts(s, p);
    forall id | id in t.subs ensures Waiting(t, t.subs[id]) {
      WaitingKept(s, t, s.subs[id]);
    }
  }

  lemma MakeKeepsOwned(s: State, p: nat)
    requires Inv(s) && p in s.publishers && s.publishers[p].PAdded?
    ensures var t := ApplyPublisher(s, p, Make(p)); Shaped(t) && Owned(t)
  {
    hide ClosedOnce, Positions, Waiting;
  }

  lemma MakeKeepsCounts(s: State, p: nat)
    requires Inv(s) && p in s.publishers && s.publishers[p].PAdded?
    ensures var t := ApplyPublisher(s, p, Make(p)); Shaped(t) && ClosedOnce(t) && Positions(t)
  {
    hide Owned, Waiting;
  }

  lemma InstallKeepsInv(s: State, p: nat)
    requires Inv(s) && p in s.publishers && s.publishers[p].PMade?
    ensures Inv(ApplyPublisher(s, p, Install(p)))
  {
    var t := ApplyPublisher(s, p, Install(p));
    InstallKeepsOwned(s, p);
    InstallKeepsCounts(s, p);
    forall id | id in t.subs ensures Waiting(t, t.subs[id]) {
      InstallKeepsWaiting(s, p, s.subs[id]);
    }
  }

  lemma InstallKeepsOwned(s: State, p: nat)
    requires Inv(s) && p in s.publishers && s.publishers[p].PMade?
    ensures var t := ApplyPublisher(s, p, Install(p)); Shaped(t) && Owned(t)
  {
    hide ClosedOnce, Positions, Waiting;
    assert s.publishers[p].made != s.current;
  }

  lemma InstallKeepsCounts(s: State, p: nat)
    requires Inv(s) && p in s.publishers && s.publishers[p].PMade?
    ensures var t := ApplyPublisher(s, p, Install(p)); Shaped(t) && ClosedOnce(t) && Positions(t)
  {
    hide Waiting;
    assert s.publishers[p].made != s.current;
  }

  lemma InstallKeepsWaiting(s: State, p: nat, sub: Subscriber)
    requires Inv(s) && p in s.publishers && s.publishers[p].PMade? && Waiting(s, sub)
    ensures Waiting(ApplyPublisher(s, p, Install(p)), sub)
  {
    assert s.publishers[p].made != s.current;
  }

  lemma CloseKeepsInv(s: State, p: nat)
    requires Inv(s) && p in s.publishers && s.publishers[p].PSwapped?
    ensures Inv(ApplyPublisher(s, p, Close(p)))
  {
    var t := ApplyPublisher(s, p, Close(p));
    CloseKeepsOwned(s, p);
    forall id | id in t.subs ensures Waiting(t, t.subs[id]) {
      WaitingKept(s, t, s.subs[id]);
    }
  }

  lemma CloseKeepsOwned(s: State, p: nat)
    requires Inv(s) && p in s.publishers && s.publishers[p].PSwapped?
    ensures var t := ApplyPublisher(s, p, Close(p)); Shaped(t) && Owned(t) && ClosedOnce(t) && Positions(t)
  {
    hide Waiting;
  }

  lemma SubscribersApart(s: State, subs: map<nat, Subscriber>)
    requires Shaped(s) && Owned(s) && ClosedOnce(s) && Positions(s)
    ensures var t := s.(subs := subs); Shaped(t) && Owned(t) && ClosedOnce(t) && Positions(t)
  {
  }

  lemma SubscriberKeepsInv(s: State, id: nat, step: Step)
    requires Inv(s) && id in s.subs && !ByPublisher(step)
    ensures Inv(ApplySubscriber(s, id, step))
  {
    hide Owned, ClosedOnce, Positions;
    var t := ApplySubscriber(s, id, step);
    SubscribersApart(s, t.subs);
    assert Waiting(s, s.subs[id]);
    assert Waiting(s, t.subs[id]);
    forall i | i in t.subs ensures Waiting(t, t.subs[i]) {
      assert i != id ==> Waiting(s, s.subs[i]);
      WaitingKept(s, t, t.subs[i]);
    }
  }

  lemma StepKeepsInv(s: State, step: Step)
    requires Inv(s)
    ensures Inv(Apply(s, step))
  {
    if ByPublisher(step) {
      if step.p in s.publishers {
        match (step, s.publishers[step.p]) {
          case (Append(p), PIdle) => AppendKeepsInv(s, p);
          case (Make(p), PAdded(_)) => MakeKeepsInv(s, p);
          case (Install(p), PMade(_, _)) => InstallKeepsInv(s, p);
          case (Close(p), PSwapped(_, _)) => CloseKeepsInv(s, p);
          case _ =>
        }
      }
    } else if step.id in s.subs {
      SubscriberKeepsInv(s, step.id, step);
    }
  }

  function Run(s: State, schedule: seq<Step>): (t: State)
    requires Shaped(s)
    ensures Shaped(t)
    decreases |schedule|
  {
    if schedule == [] then s
    else
      ShapedKept(s, schedule[0]);
      Run(Apply(s, schedule[0]), schedule[1..])
  }

  lemma ShapedKept(s: State, step: Step)
    requires Shaped(s)
    ensures Shaped(Apply(s, step))
  {
    var t := Apply(s, step);
    forall p | p in t.publishers ensures PublisherShaped(t, t.publishers[p]) {
      assert PublisherShaped(s, s.publishers[p]);
    }
  }

  lemma {:induction false} RunKeepsInv(s: State, schedule: seq<Step>)
    requires Inv(s)
    ensures Inv(Run(s, schedule))
    decreases |schedule|
  {
    if schedule != [] {
      StepKeepsInv(s, schedule[0]);
      RunKeepsInv(Apply(s, schedule[0]), schedule[1..]);
    }
  }

  /** Every state some schedule of these publishers and subscribers leads to. */
  ghost predicate Reachable(s: State) {
    exists ps, ids, schedule :: Run(Init(ps, ids), schedule) == s
  }

  lemma ReachableInv(s: State)
    requires Reachable(s)
    ensures Inv(s)
  {
    var ps, ids, schedule :| Run(Init(ps, ids), schedule) == s;
    RunKeepsInv(Init(ps, ids), schedule);
  }

  // ----- every position is announced once ------------------------------------------------

  /** A publisher has appended position `q` and has yet to swap for it. */
  ghost predicate Pending(s: State, q: nat) {
    exists p :: p in s.publishers && Unswapped(s.publishers[p]) && s.publishers[p].pos == q
  }

  predicate Unswapped(p: Publisher) {
    p.PAdded? || p.PMade?
  }

  ghost predicate Swapped(s: State, q: nat) {
    exists i :: 0 <= i < |s.swaps| && s.swaps[i].pos == q
  }

  /** Every position claimed has one swap, made or still to come, and not both. */
  ghost predicate Announced(s: State) {
    && (forall q: nat :: q < s.nextSeq ==> Pending(s, q) || Swapped(s, q))
    && (forall p :: p in s.publishers && Unswapped(s.publishers[p]) ==>
          s.publishers[p].pos < s.nextSeq && !Swapped(s, s.publishers[p].pos))
    && (forall i :: 0 <= i < |s.swaps| ==> s.swaps[i].pos < s.nextSeq)
    && (forall p, r ::
          (p in s.publishers && r in s.publishers && p != r && Unswapped(s.publishers[p]) && Unswapped(s.publishers[r]))
          ==> s.publishers[p].pos != s.publishers[r].pos)
  }

  lemma AppendKeepsAnnounced(s: State, p: nat)
    requires Shaped(s) && Announced(s) && p in s.publishers && s.publishers[p].PIdle?
    ensures Announced(ApplyPublisher(s, p, Append(p)))
  {
    var t := ApplyPublisher(s, p, Append(p));
    forall q: nat | q < t.nextSeq ensures Pending(t, q) || Swapped(t, q) {
      if q == s.nextSeq {
        assert Unswapped(t.publishers[p]) && t.publishers[p].pos == q;
      } else if Pending(s, q) {
        var r :| r in s.publishers && Unswapped(s.publishers[r]) && s.publishers[r].pos == q;
        assert Unswapped(t.publishers[r]) && t.publishers[r].pos == q;
      } else {
        SwapsKept(s, t, q);
      }
    }
    forall r | r in t.publishers && Unswapped(t.publishers[r])
      ensures t.publishers[r].pos < t.nextSeq && !Swapped(t, t.publishers[r].pos)
    {
      SwapsKept(s, t, t.publishers[r].pos);
    }
  }

  lemma SwapsKept(s: State, t: State, q: nat)
    requires t.swaps == s.swaps
    ensures Swapped(t, q) <==> Swapped(s, q)
  {
  }

  /** A step that neither claims, nor swaps, nor changes who has yet to swap for what. */
  lemma QuietKeepsAnnounced(s: State, t: State)
    requires Announced(s) && t.swaps == s.swaps && t.nextSeq == s.nextSeq && t.publishers.Keys == s.publishers.Keys
    requires forall p :: p in s.publishers ==>
      && Unswapped(t.publishers[p]) == Unswapped(s.publishers[p])
      && (Unswapped(s.publishers[p]) ==> t.publishers[p].pos == s.publishers[p].pos)
    ensures Announced(t)
  {
    forall q: nat | q < t.nextSeq ensures Pending(t, q) || Swapped(t, q) {
      SwapsKept(s, t, q);
      if Pending(s, q) {
        var r :| r in s.publishers && Unswapped(s.publishers[r]) && s.publishers[r].pos == q;
        assert Unswapped(t.publishers[r]) && t.publishers[r].pos == q;
      }
    }
    forall r | r in t.publishers && Unswapped(t.publishers[r])
      ensures t.publishers[r].pos < t.nextSeq && !Swapped(t, t.publishers[r].pos)
    {
      SwapsKept(s, t, t.publishers[r].pos);
    }
  }

  lemma InstallKeepsAnnounced(s: State, p: nat)
    requires Shaped(s) && Announced(s) && p in s.publishers && s.publishers[p].PMade?
    ensures Announced(ApplyPublisher(s, p, Install(p)))
  {
    var t := ApplyPublisher(s, p, Install(p));
    var pos := s.publishers[p].pos;
    forall q: nat | q < t.nextSeq ensures Pending(t, q) || Swapped(t, q) {
      SwapAdded(s, t, q);
      if Pending(s, q) && q != pos {
        var r :| r in s.publishers && Unswapped(s.publishers[r]) && s.publishers[r].pos == q;
        assert Unswapped(t.publishers[r]) && t.publishers[r].pos == q;
      }
    }
    forall r | r in t.publishers && Unswapped(t.publishers[r])
      ensures t.publishers[r].pos < t.nextSeq && !Swapped(t, t.publishers[r].pos)
    {
      assert r != p && t.publishers[r] == s.publishers[r];
      SwapAdded(s, t, t.publishers[r].pos);
    }
  }

  lemma SwapAdded(s: State, t: State, q: nat)
    requires |t.swaps| == |s.swaps| + 1 && t.swaps[..|s.swaps|] == s.swaps
    ensures Swapped(t, q) <==> Swapped(s, q) || t.swaps[|s.swaps|].pos == q
  {
    assert forall i :: 0 <= i < |s.swaps| ==> t.swaps[i] == s.swaps[i];
  }

  lemma StepKeepsAnnounced(s: State, step: Step)
    requires Shaped(s) && Announced(s)
    ensures Announced(Apply(s, step))
  {
    hide Announced;
    var t := Apply(s, step);
    if ByPublisher(step) {
      if step.p in s.publishers {
        match (step, s.publishers[step.p]) {
          case (Append(p), PIdle) => AppendKeepsAnnounced(s, p);
          case (Install(p), PMade(_, _)) => InstallKeepsAnnounced(s, p);
          case _ => QuietKeepsAnnounced(s, t);
        }
      }
    } else if step.id in s.subs {
      QuietKeepsAnnounced(s, t);
    }
  }

  lemma {:induction false} RunKeepsAnnounced(s: State, schedule: seq<Step>)
    requires Shaped(s) && Announced(s)
    ensures Announced(Run(s, schedule))
    decreases |schedule|
  {
    hide Announced;
    if schedule != [] {
      ShapedKept(s, schedule[0]);
      StepKeepsAnnounced(s, schedule[0]);
      RunKeepsAnnounced(Apply(s, schedule[0]), schedule[1..]);
    }
  }

  lemma ReachableAnnounced(s: State)
    requires Reachable(s)
    ensures Announced(s)
  {
    var ps, ids, schedule :| Run(Init(ps, ids), schedule) == s;
    RunKeepsAnnounced(Init(ps, ids), schedule);
  }

  // ----- what the protocol guarantees ----------------------------------------------------

  ghost predicate Holds(p: Publisher, c: nat) {
    (p.PMade? && p.made == c) || (p.PSwapped? && p.prev == c)
  }

  /** However publishes race, no channel is closed twice, and each unclosed one has one keeper. */
  lemma EveryChannelClosesOnce(s: State, c: nat)
    requires Reachable(s) && c < |s.chans|
    ensures |s.closes| == |s.chans| && s.closes[c] <= 1
    ensures c == s.current ==> s.closes[c] == 0
    ensures s.closes[c] == 0 && c != s.current ==>
      exists p :: p in s.publishers && Holds(s.publishers[p], c)
    ensures forall p, q | p in s.publishers && q in s.publishers ::
      Holds(s.publishers[p], c) && Holds(s.publishers[q], c) ==> p == q && s.closes[c] == 0
  {
    ReachableInv(s);
    if s.chans[c].Fresh? || s.chans[c].Retired? {
      assert s.chans[c].owner in s.publishers;
    }
  }

  /** A publisher has swapped this channel out and is about to close it. */
  ghost predicate Closing(s: State, chan: nat) {
    exists p :: p in s.publishers && s.publishers[p].PSwapped? && s.publishers[p].prev == chan
  }

  /** The channel a subscriber parked on is the one retired by the first swap after its load. */
  lemma ParkedChannelIsNextRetired(s: State, id: nat)
    requires Reachable(s) && id in s.subs && s.subs[id].SParked?
    ensures var sub := s.subs[id]; sub.loadAt <= |s.swaps|
    ensures var sub := s.subs[id]; sub.loadAt == |s.swaps| ==> sub.chan == s.current
    ensures var sub := s.subs[id]; sub.loadAt < |s.swaps| ==>
      && s.swaps[sub.loadAt].prev == sub.chan < |s.chans| == |s.closes|
      && (s.closes[sub.chan] == 1 || Closing(s, sub.chan))
  {
    ReachableInv(s);
    var sub := s.subs[id];
    assert Waiting(s, sub);
    if sub.loadAt < |s.swaps| && s.chans[sub.chan].Retired? {
      assert s.chans[sub.chan].owner in s.publishers;
    }
  }

  /** Under any interleaving: once a broadcast that swapped after its load has finished, a parked
      subscriber is free to run, whatever else is under way. */
  lemma ReleasedByNextBroadcast(s: State, id: nat)
    requires Reachable(s) && id in s.subs && s.subs[id].SParked? && s.subs[id].loadAt < |s.swaps|
    requires forall p :: p in s.publishers && s.publishers[p].PSwapped? ==> s.publishers[p].prev != s.subs[id].chan
    ensures Shaped(s) && Apply(s, Wakeup(id)) == s.(subs := s.subs[id := SRunning(s.subs[id].cursor)])
  {
    ReachableInv(s);
    assert Waiting(s, s.subs[id]);
  }

  /** The broadcast of position `q` swapped between the empty read and the channel load. */
  ghost predicate SwapInGap(s: State, sub: Subscriber, q: nat)
    requires sub.SParked? && sub.loadAt <= |s.swaps|
  {
    exists i :: sub.readAt <= i < sub.loadAt && s.swaps[i].pos == q
  }

  /** Publish by publish: a subscriber parked on the current channel has missed the broadcast of an
      unread message iff its swap fell between the empty read and the load; the broadcast of every
      other unread message is still to come. */
  lemma MissedIff(s: State, id: nat, q: nat)
    requires Reachable(s) && id in s.subs && s.subs[id].SParked? && s.subs[id].chan == s.current
    requires s.subs[id].cursor <= q < s.nextSeq
    ensures s.subs[id].loadAt <= |s.swaps|
    ensures SwapInGap(s, s.subs[id], q) <==> !Pending(s, q)
  {
    ReachableInv(s);
    ReachableAnnounced(s);
    var sub := s.subs[id];
    assert Waiting(s, sub);
    assert s.chans[s.current] == Current;
    assert Pending(s, q) || Swapped(s, q);
    if SwapInGap(s, sub, q) {
      var i :| sub.readAt <= i < sub.loadAt && s.swaps[i].pos == q;
      assert Swapped(s, q);
    }
  }

  /** Parked on the open channel with an unread message nobody is going to announce. */
  ghost predicate Stranded(s: State, sub: Subscriber) {
    && sub.SParked? && sub.chan == s.current
    && exists q: nat :: sub.cursor <= q < s.nextSeq && !Pending(s, q)
  }

  /** A parked subscriber is stranded iff no swap followed its load and one for an unread message
      fell into the gap before it. */
  lemma StrandedIff(s: State, id: nat)
    requires Reachable(s) && id in s.subs && s.subs[id].SParked?
    ensures var sub := s.subs[id];
      Stranded(s, sub) <==>
        sub.loadAt == |s.swaps| && exists i :: sub.readAt <= i < sub.loadAt && s.swaps[i].pos >= sub.cursor
  {
    ReachableInv(s);
    var sub := s.subs[id];
    assert Waiting(s, sub) && s.chans[s.current] == Current;
    if Stranded(s, sub) {
      var q: nat :| sub.cursor <= q < s.nextSeq && !Pending(s, q);
      MissedIff(s, id, q);
    } else if sub.loadAt == |s.swaps| && exists i :: sub.readAt <= i < sub.loadAt && s.swaps[i].pos >= sub.cursor {
      var i :| sub.readAt <= i < sub.loadAt && s.swaps[i].pos >= sub.cursor;
      SwappedPositions(s, i);
      MissedIff(s, id, s.swaps[i].pos);
    }
  }

  lemma SwappedPositions(s: State, i: nat)
    requires Reachable(s) && i < |s.swaps|
    ensures s.swaps[i].pos < s.nextSeq
  {
    ReachableInv(s);
  }

  /** Whatever it missed, the next broadcast closes its channel and wakes it. */
  lemma NextBroadcastReleases(s: State, id: nat, p: nat)
    requires Inv(s) && id in s.subs && s.subs[id].SParked? && s.subs[id].chan == s.current
    requires p in s.publishers && s.publishers[p].PMade?
    ensures Run(s, [Install(p), Close(p), Wakeup(id)]).subs == s.subs[id := SRunning(s.subs[id].cursor)]
  {
    var t := Apply(s, Install(p));
    StepKeepsInv(s, Install(p));
    CloseReleases(t, id, p);
    var u := Apply(t, Close(p));
    assert [Install(p), Close(p), Wakeup(id)][1..] == [Close(p), Wakeup(id)];
    assert [Close(p), Wakeup(id)][1..] == [Wakeup(id)];
    assert [Wakeup(id)][1..] == [];
    assert Run(s, [Install(p), Close(p), Wakeup(id)]) == Run(t, [Close(p), Wakeup(id)]);
    assert Run(t, [Close(p), Wakeup(id)]) == Run(u, [Wakeup(id)]);
  }

  lemma CloseReleases(t: State, id: nat, p: nat)
    requires Inv(t) && id in t.subs && t.subs[id].SParked?
    requires p in t.publishers && t.publishers[p].PSwapped? && t.publishers[p].prev == t.subs[id].chan
    ensures var u := Apply(t, Close(p));
      Shaped(u) && Apply(u, Wakeup(id)).subs == t.subs[id := SRunning(t.subs[id].cursor)]
  {
    ShapedKept(t, Close(p));
  }

  lemma {:induction false} RunSnoc(s: State, schedule: seq<Step>, step: Step)
    requires Shaped(s)
    ensures Run(s, schedule + [step]) == Apply(Run(s, schedule), step)
    decreases |schedule|
  {
    if schedule == [] {
      assert (schedule + [step])[1..] == [];
    } else {
      ShapedKept(s, schedule[0]);
      assert (schedule + [step])[1..] == schedule[1..] + [step];
      RunSnoc(Apply(s, schedule[0]), schedule[1..], step);
    }
  }

  /** The broadcast of one undisturbed publish. */
  lemma Broadcast(s: State, p: nat) returns (schedule: seq<Step>)
    requires Shaped(s) && p in s.publishers && s.publishers[p] == PIdle
    ensures var t := Run(s, schedule);
      && t.subs == s.subs && t.publishers == s.publishers && t.nextSeq == s.nextSeq + 1
      && t.swaps == s.swaps + [Swap(s.nextSeq, s.current)]
  {
    var l1 := [] + [Append(p)];
    var l2 := l1 + [Make(p)];
    var l3 := l2 + [Install(p)];
    schedule := l3 + [Close(p)];
    RunSnoc(s, [], Append(p));
    RunSnoc(s, l1, Make(p));
    RunSnoc(s, l2, Install(p));
    RunSnoc(s, l3, Close(p));
    var s1, s2, s3 := Run(s, l1), Run(s, l2), Run(s, l3);
    assert s1.publishers == s.publishers[p := PAdded(s.nextSeq)];
    assert s2.publishers == s.publishers[p := PMade(s.nextSeq, |s1.chans|)];
    assert s3.publishers == s.publishers[p := PSwapped(s.nextSeq, s.current)];
  }

  /** The gap is real: any caught-up subscriber can read nothing, miss a whole publish and park. */
  lemma LostWakeup(s: State, id: nat, p: nat) returns (schedule: seq<Step>)
    requires Reachable(s) && id in s.subs && s.subs[id] == SRunning(s.nextSeq)
    requires p in s.publishers && s.publishers[p] == PIdle
    ensures Shaped(s)
    ensures var t := Run(s, schedule);
      id in t.subs && Stranded(t, t.subs[id]) && t.publishers == s.publishers
  {
    ReachableInv(s);
    RunSnoc(s, [], Read(id));
    var s1 := Run(s, [] + [Read(id)]);
    assert s1.subs[id] == SEmpty(s.nextSeq, |s.swaps|);
    var publish := Broadcast(s1, p);
    var s2 := Run(s1, publish);
    schedule := [] + [Read(id)] + publish + [LoadChan(id)];
    RunConcat(s, [] + [Read(id)], publish);
    RunSnoc(s, [] + [Read(id)] + publish, LoadChan(id));
    var t := Run(s, schedule);
    assert !Pending(t, s.nextSeq);
  }

  lemma {:induction false} RunConcat(s: State, a: seq<Step>, b: seq<Step>)
    requires Shaped(s)
    ensures Run(s, a + b) == Run(Run(s, a), b)
    decreases |a|
  {
    if a == [] {
      assert a + b == b;
    } else {
      ShapedKept(s, a[0]);
      assert (a + b)[1..] == a[1..] + b;
      RunConcat(Apply(s, a[0]), a[1..], b);
    }
  }

  // ----- what running and being parked mean ------------------------------------------------------------

  /** A released subscriber reads to the end, one message a step. */
  lemma {:induction false} CatchesUp(s: State, id: nat, cursor: nat, n: nat)
    requires Shaped(s) && id in s.subs && s.subs[id] == SRunning(cursor) && cursor + n == s.nextSeq
    ensures Run(s, seq(n, _ => Read(id))) == s.(subs := s.subs[id := SRunning(s.nextSeq)])
    decreases n
  {
    var steps := seq(n, _ => Read(id));
    if n == 0 {
      assert s.subs[id := SRunning(s.nextSeq)] == s.subs;
    } else {
      var t := Apply(s, Read(id));
      assert steps[1..] == seq(n - 1, _ => Read(id));
      ShapedKept(s, Read(id));
      CatchesUp(t, id, cursor + 1, n - 1);
      assert t.subs[id := SRunning(s.nextSeq)] == s.subs[id := SRunning(s.nextSeq)];
    }
  }

  /** A closed channel stays closed, and a subscriber parked on one that is not stays parked. */
  lemma StepKeepsParked(s: State, id: nat, step: Step)
    requires Inv(s) && id in s.subs && s.subs[id].SParked? && s.subs[id].chan < |s.chans|
    ensures var t, chan := Apply(s, step), s.subs[id].chan;
      && id in t.subs && |s.chans| <= |t.chans| && (s.chans[chan] == Closed ==> t.chans[chan] == Closed)
      && (s.chans[chan] != Closed ==> t.subs[id] == s.subs[id])
  {
    hide ClosedOnce, Positions, Waiting;
  }

  lemma {:induction false} ClosedStays(s: State, chan: nat, schedule: seq<Step>)
    requires Inv(s) && chan < |s.chans| && s.chans[chan] == Closed
    ensures var t := Run(s, schedule); chan < |t.chans| && t.chans[chan] == Closed
    decreases |schedule|
  {
    hide ClosedOnce, Positions, Waiting;
    if schedule != [] {
      StepKeepsInv(s, schedule[0]);
      ClosedStays(Apply(s, schedule[0]), chan, schedule[1..]);
    }
  }

  /** Over every schedule: as long as its channel is open, a parked subscriber reads nothing. */
  lemma {:induction false} ParkedUntilClosed(s: State, id: nat, schedule: seq<Step>)
    requires Inv(s) && id in s.subs && s.subs[id].SParked? && s.subs[id].chan < |s.chans|
    ensures var t, chan := Run(s, schedule), s.subs[id].chan;
      chan < |t.chans| && id in t.subs && (t.chans[chan] != Closed ==> t.subs[id] == s.subs[id])
    decreases |schedule|
  {
    hide Owned, ClosedOnce, Positions, Waiting, Apply;
    if schedule != [] {
      var t, chan := Apply(s, schedule[0]), s.subs[id].chan;
      StepKeepsInv(s, schedule[0]);
      StepKeepsParked(s, id, schedule[0]);
      if s.chans[chan] == Closed {
        ClosedStays(s, chan, schedule);
        SubscribersStay(s, id, schedule);
      } else {
        ParkedUntilClosed(t, id, schedule[1..]);
      }
    }
  }

  lemma {:induction false} SubscribersStay(s: State, id: nat, schedule: seq<Step>)
    requires Shaped(s) && id in s.subs
    ensures id in Run(s, schedule).subs
    decreases |schedule|
  {
    if schedule != [] {
      ShapedKept(s, schedule[0]);
      SubscribersStay(Apply(s, schedule[0]), id, schedule[1..]);
    }
  }
}
