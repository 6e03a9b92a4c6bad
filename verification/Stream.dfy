/**
 The stream: one publisher filling recycled storage, any number of subscribers reading it
 through the shared log, and the cached codec configuration. Every method keeps the storage
 invariant, so what a subscriber dereferences is what was published, byte for byte.
 */
module StreamBus {
  import opened Bits
  import opened Bytes
  import opened Storage
  import opened Bus

  const AUDIO := 0
  const VIDEO := 1
  const METADATA := 2

  class Stream {
    const log: SharedLog<nat>
    const arena: Arena
    const msgs: array<MediaMessage>
    var msgCur: nat

    var subscribers: map<nat, Subscriber>
    var nextSubID: nat
    var publisher: Option<nat>

    var initVideo: Option<Content>
    var initAudio: Option<Content>
    var initMeta: Option<Content>

    var notify: nat  // number of the current wake channel

    ghost var phase: Phase
    ghost var draft: Content
    ghost var issues: seq<Issue>

    /** The stream and everything it fills. */
    ghost function Repr(): set<object> {
      {this, msgs, arena, arena.base, log, log.buf}
    }

    /** Who publishes and who listens; publishing changes neither. */
    ghost function Parties(): (Option<nat>, map<nat, Subscriber>, nat)
      reads this`publisher, this`subscribers, this`nextSubID
    {
      (publisher, subscribers, nextSubID)
    }

    ghost function View(): Store
      reads this`msgCur, this`phase, this`draft, this`issues, msgs, arena, arena.base, log
    {
      Store(log.size, arena.slots, arena.slot, msgs[..], msgCur, arena.base[..], arena.cursor,
            log.history, phase, draft, issues)
    }

    /** The storage half: the log points into memory that still says what was published. */
    ghost predicate Storing()
      reads this`msgCur, this`phase, this`draft, this`issues, msgs, arena, arena.base, log, log.buf
    {
      log.Valid() && arena.Valid() && Inv(View())
    }

    ghost predicate Registered()
      reads this, subscribers.Values
    {
      forall id :: id in subscribers ==>
        && subscribers[id].id == id && id < nextSubID && subscribers[id].log == log && subscribers[id].Valid()
    }

    constructor (logSize: nat, arenaSlots: nat, arenaSlotSize: nat)
      requires arenaSlots >= 1  // the slab index is taken modulo it
      ensures msgs.Length == arenaSlots
      ensures Storing() && Registered() && phase.Idle? && issues == [] && subscribers == map[]
      ensures publisher == None && initVideo == initAudio == initMeta == None
      ensures log.nextSeq == 0 && log.size == Rounded(logSize)
      ensures fresh(log) && fresh(log.buf) && fresh(arena) && fresh(arena.base) && fresh(msgs)
    {
      log := new SharedLog<nat>(logSize);
      var a := new Arena(arenaSlots, arenaSlotSize);
      arena := a;
      msgs := new MediaMessage[arenaSlots](_ => ZERO);
      msgCur, nextSubID, notify := 0, 1, 0;
      subscribers, publisher := map[], None;
      initVideo, initAudio, initMeta := None, None, None;
      phase, draft, issues := Idle, Content(0, 0, [], false), [];
      new;
      InitInv(log.size, arenaSlots, arena.slots, arena.slot);
      assert View() == Init(log.size, arenaSlots, arena.slots, arena.slot);
    }

    /** The next slab slot, blanked. `c` is what the caller is about to put there. */
    method AcquireMessage(ghost c: Content) returns (i: nat)
      requires Storing() && phase.Idle?
      modifies this`msgCur, this`phase, this`draft, msgs
      ensures Storing() && View() == Apply(old(View()), Step.Acquire(c)) && i == Mine(View())
      ensures phase.Acquired? && draft == c
    {
      ghost var was := View();
      i := msgCur % msgs.Length;
      msgs[i] := ZERO;
      msgCur := msgCur + 1;
      phase, draft := Acquired, c;
      assert View() == Apply(was, Step.Acquire(c));
      AcquireKeepsInv(was, c);
    }

    /** The publisher sets the plain fields of the message it acquired. */
    method SetFields(i: nat, kind: nat, timestamp: nat, isInit: bool)
      requires Storing() && phase.Acquired? && i == Mine(View())
      requires draft.kind == kind && draft.timestamp == timestamp && draft.isInit == isInit
      modifies this`phase, msgs
      ensures Storing() && View() == Apply(old(View()), Step.Describe) && phase.Described? && i == Mine(View())
    {
      ghost var was := View();
      msgs[i] := msgs[i].(kind := kind, timestamp := timestamp, isInit := isInit);
      phase := Described;
      assert View() == Apply(was, Step.Describe);
      DescribeKeepsInv(was);
    }

    method AcquirePayload(size: nat) returns (view: Slice)
      requires Storing() && phase.Described? && size == |draft.bytes|
      modifies this`phase, arena`cursor
      ensures Storing() && View() == Apply(old(View()), Step.Buy) && phase.Bought? && Mine(View()) == old(Mine(View()))
      ensures view == SliceOf(phase.ticket, [], arena.slots, arena.slot)
      ensures phase.ticket.Some? ==> |draft.bytes| <= arena.slot && phase.ticket.value + 1 == arena.cursor
    {
      ghost var was := View();
      view := arena.Acquire(size);
      phase := Bought(if size > arena.slot then None else Some(was.cursor));
      assert View() == Apply(was, Step.Buy);
      BuyKeepsInv(was);
    }

    /** The publisher appends the payload to the buffer it got and hangs it on the message. */
    method FillPayload(i: nat, view: Slice, payload: seq<Byte>)
      requires Storing() && phase.Bought? && i == Mine(View()) && payload == draft.bytes
      requires view == SliceOf(phase.ticket, [], arena.slots, arena.slot)
      modifies this`phase, msgs, arena.base
      ensures Storing() && View() == Apply(old(View()), Step.Fill) && phase.Filled? && i == Mine(View())
    {
      ghost var was := View();
      if view.View? {
        OffsetFits(phase.ticket.value, arena.slots, arena.slot);
      }
      var filled := arena.Append(view, payload);
      msgs[i] := msgs[i].(payload := filled);
      phase := Filled(was.phase.ticket);
      assert View() == Apply(was, Step.Fill);
      FillKeepsInv(was);
    }

    /** Keep a clone of a codec configuration message for late joiners. */
    method CacheInit(clone: Content)
      modifies this`initVideo, this`initAudio, this`initMeta
      ensures initVideo == if clone.kind == VIDEO then Some(clone) else old(initVideo)
      ensures initAudio == if clone.kind == AUDIO then Some(clone) else old(initAudio)
      ensures initMeta == if clone.kind == METADATA then Some(clone) else old(initMeta)
    {
      match clone.kind {
        case 1 => initVideo := Some(clone);
        case 0 => initAudio := Some(clone);
        case 2 => initMeta := Some(clone);
        case _ =>
      }
    }

    /** Cache a clone if it is codec configuration, then append the pointer to the log and wake. */
    method Publish(i: nat)
      requires Storing() && phase.Filled? && i == Mine(View())
      modifies this`phase, this`issues, this`notify, this`initVideo, this`initAudio, this`initMeta
      modifies log`nextSeq, log`history, log.buf
      ensures Storing() && View() == Apply(old(View()), Step.Emit) && phase.Idle?
      ensures |issues| == |old(issues)| + 1 && old(issues) <= issues && issues[|old(issues)|].content == draft
      ensures Closed(old(notify)) && !Closed(notify)
      ensures initVideo == if draft.isInit && draft.kind == VIDEO then Some(draft) else old(initVideo)
      ensures initAudio == if draft.isInit && draft.kind == AUDIO then Some(draft) else old(initAudio)
      ensures initMeta == if draft.isInit && draft.kind == METADATA then Some(draft) else old(initMeta)
    {
      hide Inv;
      ghost var was := View();
      FilledInv(was);
      if msgs[i].isInit {
        CacheInit(Deref(msgs[i], arena.base[..]));
      }
      var _ := log.Publish(Some(i));
      issues := issues + [Issue(draft, phase.ticket)];
      phase := Idle;
      assert View() == Apply(was, Step.Emit);
      EmitKeepsInv(was);
      BroadcastReady();
    }

    /** Channels are numbered as they are made, and with whole operations all but the current one have
        been closed. That each is closed exactly once however publishes race is `Wake`'s result. */
    ghost predicate Closed(chan: nat)
      reads this
    {
      chan < notify
    }

    method WaitChan() returns (chan: nat)
      ensures chan == notify && !Closed(chan)
    {
      chan := notify;
    }

    /** A fresh channel is swapped in and the one swapped out is closed. */
    method BroadcastReady()
      modifies this`notify
      ensures !Closed(notify) && notify != old(notify)
      ensures forall chan: nat :: Closed(chan) <==> old(Closed(chan)) || chan == old(notify)
    {
      notify := notify + 1;
    }

    method AttachPublisher(id: nat) returns (ok: bool)
      modifies this`publisher
      ensures ok == old(publisher).None?
      ensures publisher == if ok then Some(id) else old(publisher)
    {
      if publisher.Some? {
        return false;
      }
      publisher := Some(id);
      return true;
    }

    method DetachPublisher()
      modifies this`publisher, this`initVideo, this`initAudio, this`initMeta
      ensures publisher == None && initVideo == initAudio == initMeta == None
    {
      publisher, initVideo, initAudio, initMeta := None, None, None, None;
    }

    /** A new cursor at the log end, preceded by the cached configuration: metadata, video, audio. */
    method AttachSubscriber() returns (sub: Subscriber, id: nat)
      requires Registered()
      modifies this`subscribers, this`nextSubID
      ensures Registered() && fresh(sub) && id == old(nextSubID) && subscribers == old(subscribers)[id := sub]
      ensures sub.Valid() && sub.log == log && sub.cursor == sub.attach == log.nextSeq
        && sub.pendIdx == 0 && sub.dropped == 0
      ensures sub.pending == Cached(initMeta) + Cached(initVideo) + Cached(initAudio) && sub.delivered == []
    {
      id := nextSubID;
      nextSubID := nextSubID + 1;
      sub := new Subscriber(id, log, Cached(initMeta) + Cached(initVideo) + Cached(initAudio));
      subscribers := subscribers[id := sub];
    }

    method DetachSubscriber(id: nat)
      requires Registered()
      modifies this`subscribers
      ensures Registered() && subscribers == old(subscribers) - {id}
    {
      subscribers := subscribers - {id};
    }

    static function Cached(init: Option<Content>): seq<Content> {
      if init.Some? then [init.value] else []
    }

    ghost function Counts(): map<nat, nat>
      reads this, subscribers.Values
    {
      map id | id in subscribers :: subscribers[id].dropped
    }

    /** The sum over the current subscribers, in whatever order they are visited. */
    method TotalDropped() returns (total: nat)
      requires Registered()
      ensures total == SumBelow(Counts(), nextSubID)
    {
      var todo := subscribers.Keys;
      ghost var counts := Counts();
      total := 0;
      assert counts.Keys == todo;
      ghost var rest := counts;
      while todo != {}
        invariant rest.Keys == todo <= subscribers.Keys
        invariant forall id :: id in rest ==> rest[id] == subscribers[id].dropped
        invariant total + SumBelow(rest, nextSubID) == SumBelow(counts, nextSubID)
        decreases |todo|
      {
        var id :| id in todo;
        SumWithout(rest, id, nextSubID);
        total := total + subscribers[id].dropped;
        todo := todo - {id};
        rest := rest - {id};
      }
      assert rest == map[];
      SumOfNone(nextSubID);
    }

    /** A read followed to its bytes: the next message of the history, exactly as published. */
    method Deliver(sub: Subscriber) returns (content: Option<Content>)
      requires Storing() && log.size < msgs.Length && sub.Valid() && sub.log == log
      modifies sub
      ensures sub.Valid()
      ensures old(sub.pendIdx) < |sub.pending| ==>
        sub.delivered == old(sub.delivered) && sub.dropped == old(sub.dropped) &&
        content == Some(sub.pending[old(sub.pendIdx)]) && sub.pendIdx == old(sub.pendIdx) + 1
          && sub.cursor == old(sub.cursor)
      ensures old(sub.pendIdx) == |sub.pending| ==> sub.pendIdx == old(sub.pendIdx)
      ensures old(sub.pendIdx) == |sub.pending| && old(sub.cursor) >= |issues| ==>
        content == None && sub.cursor == old(sub.cursor)
        && sub.delivered == old(sub.delivered) && sub.dropped == old(sub.dropped)
      ensures old(sub.pendIdx) == |sub.pending| && old(sub.cursor) < |issues| ==>
        var o := Oldest(|issues|, log.size);
        && sub.cursor == (if old(sub.cursor) < o then o else old(sub.cursor)) + 1 <= |issues|
        && content == Some(issues[sub.cursor - 1].content)
        && sub.delivered == old(sub.delivered) + [sub.cursor - 1]
        && sub.dropped == old(sub.dropped) + if old(sub.cursor) < o then o - old(sub.cursor) else 0
    {
      hide Inv, WindowIntact;
      InvWindow(View());
      var msg, ok := sub.Read();
      if msg.None? {
        return None;
      }
      match msg.value {
        case Clone(c) => return Some(c);
        case Slot(i) =>
          InWindow(View(), sub.cursor - 1);
          return Some(Deref(msgs[i], arena.base[..]));
      }
    }
  }
}
