/** The HTTP-FLV and WebSocket-FLV subscribers: one writes bytes to a connection, the other one
    frame per tag. Either peer may stop accepting at any point. */
module FlvSubscribers {
  import opened Bits
  import opened Bytes
  import opened Storage
  import opened Bus
  import opened StreamBus
  import opened Flv
  import opened Pipeline

  /** `Done`: nothing left to read. `Panic`: a nil message dereferenced before the gate opened. */
  datatype Exit = Done | WriteError | Panic

  lemma NoTags()
    ensures TagsBytes([]) == [] && BE32(0) == [0, 0, 0, 0]
  {}

  lemma OneMoreTag(opening: seq<Byte>, tags: seq<Tag>, t: Tag, room: nat)
    ensures var was, now := opening + TagsBytes(tags), opening + TagsBytes(tags + [t]);
            && Take(Take(was, room) + TagBytes(t), room) == Take(now, room)
            && |Take(was, room)| <= room
            && (|Take(was, room) + TagBytes(t)| <= room <==> |now| <= room)
            && |was| <= |now|
  {
    hide TagBytes, TagsBytes, Take;
    TagsSnoc(tags, t);
    assert opening + (TagsBytes(tags) + TagBytes(t)) == opening + TagsBytes(tags) + TagBytes(t);
    TakeMore(opening + TagsBytes(tags), TagBytes(t), room);
  }

  lemma OneMoreFrame(opening: seq<seq<Byte>>, tags: seq<Tag>, t: Tag, room: nat)
    ensures var was, now := opening + Frames(tags), opening + Frames(tags + [t]);
            && Take(Take(was, room) + [TagBytes(t)], room) == Take(now, room)
            && |Take(was, room)| <= room
            && (|Take(was, room) + [TagBytes(t)]| <= room <==> |now| <= room)
            && |was| <= |now|
  {
    hide TagBytes, Take;
    assert Frames(tags + [t]) == Frames(tags) + [TagBytes(t)];
    assert opening + (Frames(tags) + [TagBytes(t)]) == opening + Frames(tags) + [TagBytes(t)];
    TakeMore(opening + Frames(tags), [TagBytes(t)], room);
  }

  /** What one read does to a subscriber that had read `was`. */
  ghost predicate Turned(was: seq<Message>, now: seq<Message>, m: Message, gotKeyframe: bool, exit: Exit) {
    && (exit == Panic <==> m.None? && !gotKeyframe)
    && (exit == Panic ==> FirstKey(was) == |was|)
    && now == if exit == Panic then was else was + [m]
  }

  lemma NoKeyYet(ms: seq<Message>, base: nat)
    requires Gated(ms, false, base)
    ensures FirstKey(ms) == |ms|
  {}

  /** How a whole sequence of reads ends: unless the peer gives up, all of it is handled, or the
      first nil before any keyframe ends the loop. */
  ghost predicate Ended(was: seq<Message>, now: seq<Message>, feed: seq<Message>, exit: Exit) {
    && was <= now <= was + feed
    && (exit == Done ==> now == was + feed)
    && (exit == Panic ==> |now| < |was + feed| && (was + feed)[|now|].None? && FirstKey(now) == |now|)
  }

  /** Short of a write error, the loop crashes exactly when a nil comes before the first keyframe. */
  lemma PanicIff(was: seq<Message>, now: seq<Message>, feed: seq<Message>, exit: Exit, base: nat)
    requires Ended(was, now, feed, exit) && exit != WriteError
    requires Gated(now, FirstKey(now) < |now|, base)
    ensures exit == Panic <==> exists i :: 0 <= i < FirstKey(was + feed) && (was + feed)[i].None?
  {
    var all := was + feed;
    if exit == Panic {
      assert all[..|now|] == now;
      assert forall i :: 0 <= i < |now| ==> all[i] == now[i];
      assert FirstKey(all) > |now|;
    }
  }

  /** The bytes of the closed form after an opening. */
  ghost function FlvBody(opening: seq<Byte>, ms: seq<Message>): seq<Byte> {
    opening + TagsBytes(Shown(ms))
  }

  ghost function FrameList(opening: seq<seq<Byte>>, ms: seq<Message>): seq<seq<Byte>> {
    opening + Frames(Shown(ms))
  }

  lemma BodyGrows(opening: seq<Byte>, ms: seq<Message>, more: seq<Message>)
    ensures FlvBody(opening, ms) <= FlvBody(opening, ms + more)
  {
    hide Shown, TagsBytes;
    ShownGrows(ms, more);
    var tags, all := Shown(ms), Shown(ms + more);
    assert all == tags + all[|tags|..];
    BytesGrow(tags, all[|tags|..]);
  }

  lemma FramesGrow(opening: seq<seq<Byte>>, ms: seq<Message>, more: seq<Message>)
    ensures FrameList(opening, ms) <= FrameList(opening, ms + more)
  {
    hide Shown, TagBytes;
    ShownGrows(ms, more);
    var tags, all := Shown(ms), Shown(ms + more);
    assert forall i :: 0 <= i < |tags| ==> Frames(all)[i] == Frames(tags)[i];
  }

  /** A peer that takes `room` items receives that much of `full`, and the writer hears of it. */
  ghost predicate Received<T>(written: seq<T>, full: seq<T>, room: nat, exit: Exit) {
    written == Take(full, room) && exit == if |full| <= room then Done else WriteError
  }

  class HttpSubscriber {
    const room: nat              // bytes the connection accepts in all
    var written: seq<Byte>
    var headerWritten: bool
    var gotKeyframe: bool
    var tsOffset: nat
    var tsBaseSet: bool
    ghost var opening: seq<Byte>
    ghost var seen: seq<Message>

    /** What an unlimited connection would have received. */
    ghost function Ideal(): seq<Byte>
      reads this
    {
      FlvBody(opening, seen)
    }

    /** The connection has refused some of it. */
    ghost predicate Cut()
      reads this
    {
      |Ideal()| > room
    }

    ghost predicate Valid()
      reads this
    {
      tsBaseSet == gotKeyframe && Gated(seen, gotKeyframe, tsOffset) && written == Take(Ideal(), room)
    }

    constructor (room: nat)
      ensures Valid() && this.room == room && written == opening == [] && seen == [] && !headerWritten
    {
      this.room := room;
      written, headerWritten, gotKeyframe, tsOffset, tsBaseSet := [], false, false, 0, false;
      opening, seen := [], [];
    }

    method Write(data: seq<Byte>) returns (ok: bool)
      requires |written| <= room
      modifies this`written
      ensures written == Take(old(written) + data, room)
      ensures ok == (|old(written) + data| <= room)
    {
      ok := |written| + |data| <= room;
      written := if ok then written + data else (written + data)[..room];
    }

    method WriteHeader(hasAudio: bool, hasVideo: bool) returns (ok: bool)
      requires Valid() && (headerWritten || Shown(seen) == [])
      modifies this`written, this`headerWritten, this`opening
      ensures Valid()
      ensures opening == if old(headerWritten) then old(opening) else old(opening) + Prologue(hasAudio, hasVideo)
      ensures headerWritten == (old(headerWritten) || ok)
      ensures ok == (old(headerWritten) || |old(written)| + 13 <= room)
    {
      hide Gated, TagsBytes, HeaderBytes, BE32, Shown;
      NoTags();
      if headerWritten {
        return true;
      }
      var header := HeaderArray(hasAudio, hasVideo);
      var combined := header[..] + [0, 0, 0, 0];
      assert combined == Prologue(hasAudio, hasVideo);
      TakeMore(opening, combined, room);
      assert Ideal() == opening;
      ok := Write(combined);
      opening := opening + combined;
      assert Ideal() == opening;
      if !ok {
        return;
      }
      headerWritten := true;
    }

    method RebaseTimestamp(m: Content) returns (ts: nat)
      modifies this`tsOffset, this`tsBaseSet
      ensures tsBaseSet == (old(tsBaseSet) || !m.isInit)
      ensures tsOffset == if !m.isInit && !old(tsBaseSet) then m.timestamp else old(tsOffset)
      ensures ts == Stamp(m, tsOffset)
    {
      if m.isInit {
        return 0;
      }
      if !tsBaseSet {
        tsOffset := m.timestamp;
        tsBaseSet := true;
      }
      if m.timestamp < tsOffset {
        return 0;
      }
      return m.timestamp - tsOffset;
    }

    /** One turn of the loop, for a read that returned `m`. */
    method Handle(m: Message) returns (exit: Exit)
      requires Valid()
      modifies this`written, this`gotKeyframe, this`tsOffset, this`tsBaseSet, this`seen
      ensures Valid() && Turned(old(seen), seen, m, old(gotKeyframe), exit)
      ensures exit == WriteError ==> Cut()
      ensures Cut() ==> old(Cut()) || exit == WriteError
    {
      hide Gated, Shown, FirstKey, TagBytes, TagsBytes, Take;
      ghost var was, base := seen, tsOffset;
      if !gotKeyframe {
        if m.None? {
          NoKeyYet(was, base);
          return Panic;
        }
        if !m.value.isInit {
          if m.value.kind == VIDEO && IsVideoKeyframe(m.value.bytes) {
            gotKeyframe := true;
          } else {
            PassesOver(was, m, false, base);
            seen := seen + [m];
            return Done;
          }
        }
      }
      var tagType := TagTypeForMessage(m);
      if tagType.None? {
        PassesOver(was, m, gotKeyframe, base);
        seen := seen + [m];
        return Done;
      }
      var ts := RebaseTimestamp(m.value);
      var tag := AppendTag([], tagType.value, ts, m.value.bytes);
      assert tag == TagBytes(Tag(tagType.value, ts, m.value.bytes));
      Passes(was, m, old(gotKeyframe), base, tsOffset);
      seen := seen + [m];
      OneMoreTag(opening, Shown(was), Tag(tagType.value, ts, m.value.bytes), room);
      var ok := Write(tag);
      return if ok then Done else WriteError;
    }

    /** The loop, over everything `Read` returned before the context ended. */
    method ProcessMessages(feed: seq<Message>) returns (exit: Exit)
      requires Valid()
      modifies this`written, this`gotKeyframe, this`tsOffset, this`tsBaseSet, this`seen
      ensures Valid() && Ended(old(seen), seen, feed, exit)
      ensures !old(Cut()) && exit != Panic ==> Received(written, FlvBody(opening, old(seen) + feed), room, exit)
    {
      hide Gated, FirstKey, FlvBody, Take;
      exit := Done;
      ghost var was := seen;
      for i := 0 to |feed|
        invariant exit == Done && Valid() && seen == was + feed[..i]
        invariant Cut() ==> old(Cut())
      {
        exit := Handle(feed[i]);
        if exit != Done {
          if exit == WriteError {
            ghost var rest := feed[i + 1..];
            assert seen + rest == was + feed;
            BodyGrows(opening, seen, rest);
            TakePrefix(Ideal(), FlvBody(opening, was + feed), room);
          }
          return;
        }
      }
      assert feed[..|feed|] == feed;
    }
  }

  class WsSubscriber {
    const room: nat              // frames the connection accepts in all
    var written: seq<seq<Byte>>
    var headerWritten: bool
    var gotKeyframe: bool
    var tsOffset: nat
    var tsBaseSet: bool
    ghost var opening: seq<seq<Byte>>
    ghost var seen: seq<Message>

    /** What an unlimited connection would have received. */
    ghost function Ideal(): seq<seq<Byte>>
      reads this
    {
      FrameList(opening, seen)
    }

    /** The connection has refused some of it. */
    ghost predicate Cut()
      reads this
    {
      |Ideal()| > room
    }

    ghost predicate Valid()
      reads this
    {
      tsBaseSet == gotKeyframe && Gated(seen, gotKeyframe, tsOffset) && written == Take(Ideal(), room)
    }

    constructor (room: nat)
      ensures Valid() && this.room == room && written == opening == [] && seen == [] && !headerWritten
    {
      this.room := room;
      written, headerWritten, gotKeyframe, tsOffset, tsBaseSet := [], false, false, 0, false;
      opening, seen := [], [];
    }

    method WriteMessage(frame: seq<Byte>) returns (ok: bool)
      requires |written| <= room
      modifies this`written
      ensures written == Take(old(written) + [frame], room)
      ensures ok == (|old(written) + [frame]| <= room)
    {
      ok := |written| < room;
      if ok { written := written + [frame]; }
    }

    method WriteHeader(hasAudio: bool, hasVideo: bool) returns (ok: bool)
      requires Valid() && (headerWritten || Shown(seen) == [])
      modifies this`written, this`headerWritten, this`opening
      ensures Valid()
      ensures opening == if old(headerWritten) then old(opening) else old(opening) + [Prologue(hasAudio, hasVideo)]
      ensures headerWritten == (old(headerWritten) || ok)
      ensures ok == (old(headerWritten) || |old(written)| < room)
    {
      hide Gated, HeaderBytes, BE32, Shown;
      NoTags();
      if headerWritten {
        return true;
      }
      var headerBytes := HeaderArray(hasAudio, hasVideo);
      var frame := new Byte[headerBytes.Length + 4](_ => 0);
      CopyInto(frame, 0, headerBytes[..]);
      assert frame[..] == frame[..9] + frame[9..];
      assert frame[..] == Prologue(hasAudio, hasVideo);
      TakeMore(opening, [frame[..]], room);
      assert Ideal() == opening;
      ok := WriteMessage(frame[..]);
      opening := opening + [frame[..]];
      assert Ideal() == opening;
      if !ok {
        return;
      }
      headerWritten := true;
    }

    method RebaseTimestamp(m: Content) returns (ts: nat)
      modifies this`tsOffset, this`tsBaseSet
      ensures tsBaseSet == (old(tsBaseSet) || !m.isInit)
      ensures tsOffset == if !m.isInit && !old(tsBaseSet) then m.timestamp else old(tsOffset)
      ensures ts == Stamp(m, tsOffset)
    {
      if m.isInit {
        return 0;
      }
      if !tsBaseSet {
        tsOffset := m.timestamp;
        tsBaseSet := true;
      }
      if m.timestamp < tsOffset {
        return 0;
      }
      return m.timestamp - tsOffset;
    }

    /** One turn of the loop, for a read that returned `m`. */
    method Handle(m: Message) returns (exit: Exit)
      requires Valid()
      modifies this`written, this`gotKeyframe, this`tsOffset, this`tsBaseSet, this`seen
      ensures Valid() && Turned(old(seen), seen, m, old(gotKeyframe), exit)
      ensures exit == WriteError ==> Cut()
      ensures Cut() ==> old(Cut()) || exit == WriteError
    {
      hide Gated, Shown, FirstKey, TagBytes, Frames, Take;
      ghost var was, base := seen, tsOffset;
      if !gotKeyframe {
        if m.None? {
          NoKeyYet(was, base);
          return Panic;
        }
        if !m.value.isInit {
          if m.value.kind == VIDEO && IsVideoKeyframe(m.value.bytes) {
            gotKeyframe := true;
          } else {
            PassesOver(was, m, false, base);
            seen := seen + [m];
            return Done;
          }
        }
      }
      var tagType := TagTypeForMessage(m);
      if tagType.None? {
        PassesOver(was, m, gotKeyframe, base);
        seen := seen + [m];
        return Done;
      }
      var ts := RebaseTimestamp(m.value);
      var tag := AppendTag([], tagType.value, ts, m.value.bytes);
      assert tag == TagBytes(Tag(tagType.value, ts, m.value.bytes));
      Passes(was, m, old(gotKeyframe), base, tsOffset);
      seen := seen + [m];
      OneMoreFrame(opening, Shown(was), Tag(tagType.value, ts, m.value.bytes), room);
      var ok := WriteMessage(tag);
      return if ok then Done else WriteError;
    }

    /** The loop, over everything `Read` returned before the context ended. */
    method ProcessMessages(feed: seq<Message>) returns (exit: Exit)
      requires Valid()
      modifies this`written, this`gotKeyframe, this`tsOffset, this`tsBaseSet, this`seen
      ensures Valid() && Ended(old(seen), seen, feed, exit)
      ensures !old(Cut()) && exit != Panic ==> Received(written, FrameList(opening, old(seen) + feed), room, exit)
    {
      hide Gated, FirstKey, FrameList, Take;
      exit := Done;
      ghost var was := seen;
      for i := 0 to |feed|
        invariant exit == Done && Valid() && seen == was + feed[..i]
        invariant Cut() ==> old(Cut())
      {
        exit := Handle(feed[i]);
        if exit != Done {
          if exit == WriteError {
            ghost var rest := feed[i + 1..];
            assert seen + rest == was + feed;
            FramesGrow(opening, seen, rest);
            TakePrefix(Ideal(), FrameList(opening, was + feed), room);
          }
          return;
        }
      }
      assert feed[..|feed|] == feed;
    }
  }

  // ----- the two outputs, and what a player makes of them ---------------------------------------------

  /** After the same reads, the HTTP body is the concatenation of the WebSocket frames. */
  lemma SameBytes(h: HttpSubscriber, w: WsSubscriber)
    requires h.Valid() && w.Valid() && !h.Cut() && !w.Cut()
    requires h.seen == w.seen && h.opening == Concat(w.opening)
    ensures h.written == Concat(w.written)
  {
    ConcatAppend(w.opening, Frames(Shown(w.seen)));
    ConcatFrames(Shown(w.seen));
  }

  /** A player that reads the HTTP body finds exactly the tags of the closed form, iff each of them
      fits FLV's fields. */
  lemma PlayerReads(h: HttpSubscriber, hasAudio: bool, hasVideo: bool)
    requires h.Valid() && !h.Cut() && h.opening == Prologue(hasAudio, hasVideo)
    ensures ReadFile(h.written) == Some(File(hasAudio, hasVideo, Shown(h.seen)))
       <==> forall t :: t in Shown(h.seen) ==> Sayable(t)
  {
    hide ReadFile, Shown;
    FileReadsBackIff(hasAudio, hasVideo, Shown(h.seen));
  }

  // ----- a subscriber on a stream -------------------------------------------------------------------

  /** What a subscriber is still to read: cached configuration, then the history from its cursor,
      less what the log no longer holds. */
  ghost function Due(pending: seq<Content>, issues: seq<Issue>, size: nat, cursor: nat): (due: seq<Message>) {
    var o := Oldest(|issues|, size);
    var from := if cursor < o then o else if cursor > |issues| then |issues| else cursor;
    seq(|pending|, i requires 0 <= i < |pending| => Some(pending[i]))
    + seq(|issues| - from, i requires 0 <= i < |issues| - from => Some(issues[from + i].content))
  }

  lemma DuePending(pending: seq<Content>, issues: seq<Issue>, size: nat, cursor: nat)
    requires pending != []
    ensures Due(pending, issues, size, cursor) == [Some(pending[0])] + Due(pending[1..], issues, size, cursor)
  {
  }

  lemma DueInLog(issues: seq<Issue>, size: nat, cursor: nat)
    requires cursor < |issues| && size > 0
    ensures var o := Oldest(|issues|, size);
            var from := if cursor < o then o else cursor;
            from < |issues|
            && Due([], issues, size, cursor) == [Some(issues[from].content)] + Due([], issues, size, from + 1)
  {
  }

  lemma DueNothing(issues: seq<Issue>, size: nat, cursor: nat)
    requires cursor >= |issues|
    ensures Due([], issues, size, cursor) == []
  {
  }

  /** What a subscriber has read: its pending messages so far, then the log positions it was given. */
  ghost function ReadSoFar(pending: seq<Content>, delivered: seq<nat>, issues: seq<Issue>): seq<Message> {
    seq(|pending|, i requires 0 <= i < |pending| => Some(pending[i]))
    + seq(|delivered|, j requires 0 <= j < |delivered| =>
        if delivered[j] < |issues| then Some(issues[delivered[j]].content) else None)
  }

  ghost function ReadBy(stream: Stream, sub: Subscriber): seq<Message>
    reads stream`issues, sub
  {
    ReadSoFar(if sub.pendIdx <= |sub.pending| then sub.pending[..sub.pendIdx] else [], sub.delivered, stream.issues)
  }

  ghost function DueTo(stream: Stream, sub: Subscriber): seq<Message>
    reads stream`issues, sub
  {
    Due(if sub.pendIdx <= |sub.pending| then sub.pending[sub.pendIdx..] else [],
        stream.issues, stream.log.size, sub.cursor)
  }

  ghost predicate CaughtUp(stream: Stream, sub: Subscriber)
    reads stream`issues, sub
  {
    sub.pendIdx == |sub.pending| && sub.cursor >= |stream.issues|
  }

  /** Whatever a log of `n` messages still holds, as far as the cursor has come, was read. */
  ghost predicate ReadWindow(attach: nat, cursor: nat, delivered: seq<nat>, n: nat, size: nat) {
    forall p: nat :: attach <= p < cursor && Oldest(n, size) <= p ==> p in delivered
  }

  lemma WindowOnlyMoves(attach: nat, cursor: nat, delivered: seq<nat>, n: nat, n': nat, size: nat)
    requires ReadWindow(attach, cursor, delivered, n, size) && n <= n'
    ensures ReadWindow(attach, cursor, delivered, n', size)
  {
  }

  ghost predicate Gapless(stream: Stream, sub: Subscriber)
    reads stream`issues, sub
  {
    ReadWindow(sub.attach, sub.cursor, sub.delivered, |stream.issues|, stream.log.size)
  }

  /** How many messages a cursor has let the log overwrite. */
  function Late(n: nat, size: nat, c: nat): nat {
    if c < Oldest(n, size) then Oldest(n, size) - c else 0
  }

  /** A read of a log of `n` messages at `c`: one position further, past whatever is no longer held. */
  predicate Moves(n: nat, size: nat, c: nat, dropped: nat, c': nat, dropped': nat) {
    if c >= n then c' == c && dropped' == dropped
    else
      var from := if c < Oldest(n, size) then Oldest(n, size) else c;
      c' == from + 1 <= n && dropped' == dropped + (from - c)
  }

  lemma MovesOn(n: nat, size: nat, c: nat, dropped: nat, c': nat, dropped': nat)
    requires Moves(n, size, c, dropped, c', dropped') && c <= n
    ensures c' <= n && dropped' + Late(n, size, c') == dropped + Late(n, size, c)
  {
  }

  lemma ReadPending(pending: seq<Content>, i: nat, issues: seq<Issue>)
    requires i < |pending|
    ensures ReadSoFar(pending[..i + 1], [], issues) == ReadSoFar(pending[..i], [], issues) + [Some(pending[i])]
  {
  }

  lemma ReadLog(pending: seq<Content>, delivered: seq<nat>, p: nat, issues: seq<Issue>)
    requires p < |issues|
    ensures ReadSoFar(pending, delivered + [p], issues)
      == ReadSoFar(pending, delivered, issues) + [Some(issues[p].content)]
  {
  }

  /** One read off a stream. */
  method Next(stream: Stream, sub: Subscriber) returns (m: Message)
    requires stream.Storing() && stream.log.size < stream.msgs.Length && sub.Valid() && sub.log == stream.log
    modifies sub
    ensures sub.Valid()
    ensures old(DueTo(stream, sub)) == if m.None? then [] else [m] + DueTo(stream, sub)
    ensures ReadBy(stream, sub) == old(ReadBy(stream, sub)) + if m.None? then [] else [m]
    ensures m.None? ==> CaughtUp(stream, sub)
    ensures old(sub.pendIdx) < |sub.pending| ==> sub.cursor == old(sub.cursor) && sub.dropped == old(sub.dropped)
    ensures old(sub.pendIdx) == |sub.pending| ==>
      sub.pendIdx == old(sub.pendIdx)
      && Moves(|stream.issues|, stream.log.size, old(sub.cursor), old(sub.dropped), sub.cursor, sub.dropped)
    ensures old(Gapless(stream, sub)) ==> Gapless(stream, sub)
  {
    hide Inv, Due, ReadSoFar, Stream.Storing;
    ghost var i, cursor := sub.pendIdx, sub.cursor;
    if i < |sub.pending| {
      DuePending(sub.pending[i..], stream.issues, stream.log.size, cursor);
      assert sub.pending[i..][1..] == sub.pending[i + 1..];
      ReadPending(sub.pending, i, stream.issues);
    } else if cursor < |stream.issues| {
      LogSized(stream);
      DueInLog(stream.issues, stream.log.size, cursor);
      assert sub.pending[i..] == [];
      var o := Oldest(|stream.issues|, stream.log.size);
      ReadLog(sub.pending[..i], sub.delivered, if cursor < o then o else cursor, stream.issues);
    } else {
      assert sub.pending[i..] == [];
      DueNothing(stream.issues, stream.log.size, cursor);
    }
    m := stream.Deliver(sub);
  }

  lemma LogSized(stream: Stream)
    requires stream.Storing()
    ensures stream.log.size > 0
  {
  }

  /** One turn of the loop on a stream: read, and show what was read. */
  method ReadOne(stream: Stream, sub: Subscriber, h: HttpSubscriber) returns (exit: Exit, more: bool)
    requires stream.Storing() && stream.log.size < stream.msgs.Length && sub.Valid() && sub.log == stream.log
    requires h.Valid() && !h.Cut()
    modifies sub, h`written, h`gotKeyframe, h`tsOffset, h`tsBaseSet, h`seen
    ensures sub.Valid() && h.Valid()
    ensures exit == if h.Cut() then WriteError else Done
    ensures h.seen + DueTo(stream, sub) == old(h.seen + DueTo(stream, sub))
    ensures |h.seen| == |old(h.seen)| + if more then 1 else 0
    ensures h.seen[..|old(h.seen)|] == old(h.seen)
    ensures ReadBy(stream, sub) == old(ReadBy(stream, sub)) + h.seen[|old(h.seen)|..]
    ensures !more ==> CaughtUp(stream, sub) && DueTo(stream, sub) == [] && exit == Done
    ensures more ==> |DueTo(stream, sub)| < |old(DueTo(stream, sub))|
    ensures old(sub.pendIdx) < |sub.pending| ==> sub.cursor == old(sub.cursor) && sub.dropped == old(sub.dropped)
    ensures old(sub.pendIdx) == |sub.pending| ==>
      sub.pendIdx == old(sub.pendIdx)
      && Moves(|stream.issues|, stream.log.size, old(sub.cursor), old(sub.dropped), sub.cursor, sub.dropped)
    ensures old(Gapless(stream, sub)) ==> Gapless(stream, sub)
  {
    hide Gated, FlvBody, Take, Inv, Due, ReadSoFar, Stream.Storing;
    ghost var was := h.seen;
    var m := Next(stream, sub);
    if m.None? {
      CaughtUpDueNothing(stream, sub);
      return Done, false;
    }
    exit := h.Handle(m);
    more := true;
    assert was + ([m] + DueTo(stream, sub)) == was + [m] + DueTo(stream, sub);
  }

  lemma CaughtUpDueNothing(stream: Stream, sub: Subscriber)
    requires CaughtUp(stream, sub)
    ensures DueTo(stream, sub) == []
  {
    assert sub.pending[sub.pendIdx..] == [];
    DueNothing(stream.issues, stream.log.size, sub.cursor);
  }

  /** Publisher to player: attached to a stream that stays put meanwhile, the loop shows what the
      publisher sent, byte for byte, through the recycled storage, up to what the peer accepts. */
  method Watch(stream: Stream, sub: Subscriber, h: HttpSubscriber) returns (exit: Exit)
    requires stream.Storing() && stream.log.size < stream.msgs.Length && sub.Valid() && sub.log == stream.log
    requires h.Valid() && !h.Cut()
    modifies sub, h`written, h`gotKeyframe, h`tsOffset, h`tsBaseSet, h`seen
    ensures sub.Valid() && h.Valid()
    ensures var all := old(h.seen + DueTo(stream, sub));
      && Received(h.written, FlvBody(h.opening, all), h.room, exit)
      && h.seen <= all && (exit == Done ==> h.seen == all && CaughtUp(stream, sub))
    ensures old(h.seen) <= h.seen && ReadBy(stream, sub) == old(ReadBy(stream, sub)) + h.seen[|old(h.seen)|..]
    ensures exit == if h.Cut() then WriteError else Done
    ensures old(sub.cursor) <= |stream.issues| ==> sub.cursor <= |stream.issues|
    ensures old(sub.cursor) <= |stream.issues| ==>
      sub.dropped <= old(sub.dropped) + Late(|stream.issues|, stream.log.size, old(sub.cursor))
    ensures old(Gapless(stream, sub)) ==> Gapless(stream, sub)
    ensures old(sub.pendIdx) == |sub.pending| ==> sub.pendIdx == |sub.pending|
  {
    hide Gated, FirstKey, FlvBody, Take, Inv, Due, ReadSoFar, Stream.Storing, Moves, Late, Gapless;
    PendingFits(sub);
    ghost var was, all, read := h.seen, h.seen + DueTo(stream, sub), ReadBy(stream, sub);
    exit := Done;
    var more := true;
    while exit == Done && more
      invariant sub.Valid() && h.Valid() && sub.pendIdx <= |sub.pending|
      invariant exit == if h.Cut() then WriteError else Done
      invariant h.seen + DueTo(stream, sub) == all && was <= h.seen
      invariant ReadBy(stream, sub) == read + h.seen[|was|..]
      invariant !more ==> CaughtUp(stream, sub) && DueTo(stream, sub) == []
      invariant old(sub.cursor) <= |stream.issues| ==> sub.cursor <= |stream.issues|
      invariant old(sub.cursor) <= |stream.issues| ==>
        sub.dropped + Late(|stream.issues|, stream.log.size, sub.cursor)
        <= old(sub.dropped) + Late(|stream.issues|, stream.log.size, old(sub.cursor))
      invariant old(Gapless(stream, sub)) ==> Gapless(stream, sub)
      invariant old(sub.pendIdx) == |sub.pending| ==> sub.pendIdx == |sub.pending|
      decreases more, |DueTo(stream, sub)|
    {
      ghost var before, got := h.seen, ReadBy(stream, sub);
      ghost var n, size, c, d, i := |stream.issues|, stream.log.size, sub.cursor, sub.dropped, sub.pendIdx;
      exit, more := ReadOne(stream, sub, h);
      if i == |sub.pending| && c <= n { MovesOn(n, size, c, d, sub.cursor, sub.dropped); }
      assert h.seen[|was|..] == before[|was|..] + h.seen[|before|..];
    }
    BodyGrows(h.opening, h.seen, DueTo(stream, sub));
    if exit == Done {
      assert h.seen == all;
      NotCutYet(h.Ideal(), h.room);
    } else {
      TakePrefix(h.Ideal(), FlvBody(h.opening, all), h.room);
    }
  }

  lemma PendingFits(sub: Subscriber)
    requires sub.Valid()
    ensures sub.pendIdx <= |sub.pending|
  {
  }

  lemma NotCutYet<T>(s: seq<T>, n: nat)
    requires |s| <= n
    ensures Take(s, n) == s
  {
  }
}
