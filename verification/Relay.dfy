/**
 The whole path: the connection loop obeys commands and publishes the media it reads, a subscriber
 reads the stream at any pace meanwhile, and what it writes is an FLV file of what went on the air.
 */
module Relay {
  import opened Bits
  import opened Bytes
  import opened Storage
  import opened Bus
  import opened StreamBus
  import opened Publishing
  import opened Flv
  import opened Pipeline
  import opened FlvSubscribers
  import opened Commands
  import Amf0
  import Amf0Codec
  import Amf0Command
  import Chunks
  import ChunkParsers
  import ChunkFlow
  import Conversation
  import Demux
  import ExtTime
  import Interleaved
  import Sessions
  import Clients
  import SizeChanges

  const ACK_WINDOW := 5_000_000
  const SERVER_CHUNK_SIZE := 4096

  /** A connection as seen from the stream under `key`, where it publishes when it is `here`. */
  class ServiceSession {
    const session: Sessions.Session
    const publisher: Publisher
    const key: StreamKey
    var app: Amf0.Str
    var here: bool
    var commands: nat

    constructor (conn: ChunkParsers.Conn, stream: Stream, key: StreamKey)
      ensures publisher.stream == stream && this.key == key && fresh(session) && fresh(session.parser)
      ensures session.conn == conn && session.Valid() && session.parser.chunkStreams == map[]
      ensures session.parser.View() == Chunks.Parser(map[], Chunks.DEFAULT_CHUNK_SIZE)
      ensures Life() == START.(attached := stream.publisher.Some?)
    {
      session := new Sessions.Session(conn);
      publisher := new Publisher(stream);
      this.key := key;
      app, here, commands := [], false, 0;
    }

    /** The connection, the stream it publishes to, and all they are made of. */
    ghost function Repr(): set<object>
      reads session.parser
    {
      {this, session, session.conn, session.parser} + session.parser.chunkStreams.Values + publisher.stream.Repr()
    }

    ghost function Life(): Life
      reads this, publisher.stream`publisher
    {
      Commands.Life(app, here, publisher.stream.publisher.Some?, commands)
    }

    /** The answer to `connect` sets the acknowledgement window and the write size. */
    method HandleConnect(vs: seq<Amf0.Value>, k: nat, w: World) returns (ended: bool)
      requires session.Valid()
      modifies this`app, session`ackSize, session`writeChunkSize
      ensures session.Valid() && here == old(here) && commands == old(commands)
      ensures Verdict(Life(), ended)
        == if |vs| < 2 then Verdict(old(Life()), true) else Verdict(old(Life()).(app := AppOf(vs)), !w.replies(k))
      ensures !ended ==> session.ackSize == 5_000_000 && session.writeChunkSize == 4096
    {
      hide AppOf;
      if |vs| < 2 {
        return true;
      }
      app := AppOf(vs);
      session.SetAckSize(ACK_WINDOW);
      session.SetWriteChunkSize(SERVER_CHUNK_SIZE);
      ended := !w.replies(k);
    }

    /** Attaches a publisher to the named stream; only the stream under `key` is followed further. */
    method HandlePublish(vs: seq<Amf0.Value>, k: nat, w: World) returns (ended: bool)
      modifies this`here, publisher.stream`publisher
      ensures Verdict(Life(), ended) == JudgePublish(old(Life()), vs, k, key, w)
    {
      hide StreamName, BareName;
      var name := BareName(StreamName(vs));
      if name == [] || !w.allows(k) || app == [] {
        return true;
      }
      if (app, name) != key {
        if !w.others(k) {
          return true;
        }
        here := false;
        return !w.replies(k);
      }
      var ok := publisher.stream.AttachPublisher(1);
      if !ok {
        return true;
      }
      here := true;
      ended := !w.replies(k);
    }

    method HandleCommand(m: Chunks.Message, w: World) returns (ended: bool)
      requires m.kind == TYPE_COMMAND && session.Valid()
      modifies this`app, this`here, this`commands, publisher.stream`publisher
      modifies session`ackSize, session`writeChunkSize
      ensures session.Valid() && Verdict(Life(), ended) == Judge(old(Life()), m, key, w)
    {
      hide JudgePublish, AppOf, Ascii, Amf0Command.DecodeCommand;
      var r := new ChunkParsers.Conn(m.body);
      var cmd := Amf0Codec.ReadCommand(r);
      var k := commands;
      commands := commands + 1;
      if cmd.Rejected? {
        return true;
      }
      var vs := cmd.values;
      if vs == [] || !vs[0].String? {
        return false;
      }
      var name := vs[0].s;
      if name == Ascii("connect") {
        ended := HandleConnect(vs, k, w);
      } else if name == Ascii("releaseStream") || name == Ascii("FCPublish") {
        ended := |vs| >= 2 && !w.replies(k);
      } else if name == Ascii("createStream") {
        ended := |vs| < 2 || !w.replies(k);
      } else if name == Ascii("publish") {
        ended := HandlePublish(vs, k, w);
      } else {
        ended := name == Ascii("deleteStream") || name == Ascii("closeStream");
      }
    }

    /** Audio, video and data are published, if a publisher is attached; other types are ignored. */
    method HandleMediaMessage(m: Chunks.Message)
      requires publisher.stream.Storing() && publisher.stream.phase.Idle?
      modifies publisher.stream.Repr()
      ensures publisher.stream.Storing() && publisher.stream.phase.Idle?
      ensures publisher.stream.Parties() == old(publisher.stream.Parties())
      ensures Published(publisher.stream) == old(Published(publisher.stream)) + if here then Media(m) else []
    {
      hide Inv, IsAACSequenceHeader, IsAVCSequenceHeader, StripSetDataFrame, Stream.Storing, Stream.View;
      if !here {
        return;
      }
      match m.kind {
        case 8 => publisher.PublishAudio(m.timestamp, m.body);
        case 9 => publisher.PublishVideo(m.timestamp, m.body);
        case 18 => publisher.PublishMetadata(m.timestamp, m.body);
        case _ =>
      }
    }

    /** The switch on the type of a completed message. */
    method HandleMessage(m: Chunks.Message, w: World) returns (ended: bool)
      requires session.Valid() && publisher.stream.Storing() && publisher.stream.phase.Idle?
      modifies this, session, publisher.stream.Repr()
      ensures session.Valid() && publisher.stream.Storing() && publisher.stream.phase.Idle?
      ensures Verdict(Life(), ended) == Judge(old(Life()), m, key, w)
      ensures Published(publisher.stream) == old(Published(publisher.stream)) + if old(here) then Media(m) else []
      ensures session.parser.View() == old(session.parser.View()) && session.conn.data == old(session.conn.data)
    {
      hide Inv, Judge, Media, Stream.Storing, Stream.View;
      if m.kind == TYPE_COMMAND {
        CommandsCarryNoMedia(m);
        ended := HandleCommand(m, w);
      } else {
        OnlyCommandsJudge(Life(), m, key, w);
        HandleMediaMessage(m);
        ended := false;
      }
    }

    /** What the bytes still unread will put on the air. */
    ghost function Unaired(w: World): seq<Content>
      reads this, session, session.parser, session.parser.chunkStreams.Values, session.conn, publisher.stream`publisher
    {
      Aired(Chunks.Drain(session.parser.View(), session.conn.data, true).delivered, Life(), key, w)
    }

    /** How many chunks the bytes still unread hold. */
    ghost function ChunksLeft(): nat
      reads session, session.parser, session.parser.chunkStreams.Values, session.conn
    {
      |Chunks.Drain(session.parser.View(), session.conn.data, true).counts|
    }

    /** One turn of the connection loop. Nothing is lost or invented: what is published and what is
        still to be aired are together what they were. */
    method Turn(w: World, sendOk: bool) returns (ended: bool)
      requires session.Valid() && publisher.stream.Storing() && publisher.stream.phase.Idle?
      modifies Repr()
      ensures session.Valid() && publisher.stream.Storing() && publisher.stream.phase.Idle?
      ensures fresh(Repr() - old(Repr()))
      ensures !ended ==> |session.conn.data| < |old(session.conn.data)|
      ensures old(Published(publisher.stream) + Unaired(w))
        == Published(publisher.stream) + if ended then [] else Unaired(w)
      ensures old(Published(publisher.stream)) <= Published(publisher.stream)
      ensures !ended ==> ChunksLeft() + 1 == old(ChunksLeft())
      ensures |Published(publisher.stream)|
        <= |old(Published(publisher.stream))| + if old(ChunksLeft()) > 0 then 1 else 0
    {
      hide Inv, Judge, Media, Aired, Published, Chunks.Drain, Stream.Storing, Stream.View;
      hide ChunkParsers.ChunkParser.View, ChunkParsers.ChunkParser.Valid, Sessions.Session.Valid;
      ghost var was, life := Published(publisher.stream), Life();
      NothingAired(life, key, w);
      var err, item, n := session.Turn(sendOk);
      if err.Some? {
        return true;
      }
      ended := false;
      ghost var view, data := session.parser.View(), session.conn.data;
      ghost var rest := Chunks.Drain(view, data, true).delivered;
      AiredMoves(was, item, rest, life, key, w);
      if item != [] {
        AtMostOne(item[0].1);
        ended := HandleMessage(item[0].1, w);
      }
    }

    /** The deferred `Close`: a publisher that is here leaves its stream. */
    method Close()
      modifies publisher.stream`publisher
      modifies publisher.stream`initVideo, publisher.stream`initAudio, publisher.stream`initMeta
      ensures publisher.stream.publisher == if here then None else old(publisher.stream.publisher)
      ensures var s := publisher.stream; here ==> s.initVideo == s.initAudio == s.initMeta == None
    {
      if here {
        publisher.stream.DetachPublisher();
      }
    }
  }

  lemma AtMostOne(m: Chunks.Message)
    ensures |Media(m)| <= 1
  {
  }

  lemma CommandsCarryNoMedia(m: Chunks.Message)
    requires m.kind == TYPE_COMMAND
    ensures Media(m) == []
  {
  }

  lemma OnlyCommandsJudge(life: Life, m: Chunks.Message, key: StreamKey, w: World)
    requires m.kind != TYPE_COMMAND
    ensures Judge(life, m, key, w) == Verdict(life, false)
  {
  }

  lemma NothingAired(life: Life, key: StreamKey, w: World)
    ensures Aired([], life, key, w) == []
  {
  }

  /** A completed message moves its media from what is to be aired to what is published. */
  lemma AiredMoves(was: seq<Content>, item: seq<(nat, Chunks.Message)>, rest: seq<(nat, Chunks.Message)>,
                   life: Life, key: StreamKey, w: World)
    requires |item| <= 1
    ensures item == [] ==> item + rest == rest
    ensures item != [] ==>
      var v := Judge(life, item[0].1, key, w);
      var now := was + if life.here then Media(item[0].1) else [];
      was + Aired(item + rest, life, key, w) == now + if v.ended then [] else Aired(rest, v.life, key, w)
  {
    hide Judge, Media;
    if item != [] {
      assert (item + rest)[1..] == rest;
    }
  }

  /** What was read stays read while more is published. */
  lemma ReadsKept(pending: seq<Content>, delivered: seq<nat>, a: seq<Issue>, b: seq<Issue>)
    requires Contents(a) <= Contents(b) && forall j :: 0 <= j < |delivered| ==> delivered[j] < |a|
    ensures ReadSoFar(pending, delivered, a) == ReadSoFar(pending, delivered, b)
  {
    forall j | 0 <= j < |delivered| ensures a[delivered[j]].content == b[delivered[j]].content {
      assert Contents(a)[delivered[j]] == Contents(b)[delivered[j]];
    }
  }

  lemma ReadByKept(sub: Subscriber, before: seq<Issue>, stream: Stream)
    requires sub.Valid() && sub.cursor <= |before| && Contents(before) <= Published(stream)
    ensures ReadBy(stream, sub) == ReadSoFar(sub.pending[..sub.pendIdx], sub.delivered, before)
    ensures |before| <= |stream.issues|
  {
    hide ReadSoFar;
    ReadsKept(sub.pending[..sub.pendIdx], sub.delivered, before, stream.issues);
  }

  lemma ReadByIs(sub: Subscriber, stream: Stream)
    requires sub.Valid()
    ensures ReadBy(stream, sub) == ReadSoFar(sub.pending[..sub.pendIdx], sub.delivered, stream.issues)
    ensures sub.pendIdx <= |sub.pending|
  {
  }

  // ----- how far a reader can fall behind ------------------------------------------------------------

  /** At worst: messages published and unread, chunks still to come, messages lost. */
  datatype Race = Race(lag: nat, left: nat, lost: nat)

  /** A server turn publishes one message if there is a chunk left; a read takes one, past any the log
      of `size` no longer holds. */
  function Pace(r: Race, server: bool, size: nat): Race {
    if server then if r.left > 0 then Race(r.lag + 1, r.left - 1, r.lost) else r
    else if r.lag == 0 then r
    else if r.lag <= size then r.(lag := r.lag - 1)
    else Race(if size > 0 then size - 1 else 0, r.left, r.lost + (r.lag - size))
  }

  function Worst(r: Race, schedule: seq<bool>, size: nat): Race {
    if schedule == [] then r
    else Pace(Worst(r, schedule[..|schedule| - 1], size), schedule[|schedule| - 1], size)
  }

  /** What is lost at worst when both loops then run to their ends, the server first. */
  function Losses(r: Race, schedule: seq<bool>, size: nat): nat {
    var e := Worst(r, schedule, size);
    e.lost + if e.lag + e.left > size then e.lag + e.left - size else 0
  }

  /** Server turns not yet answered by a read. */
  function Lead(schedule: seq<bool>, start: nat): nat {
    if schedule == [] then start
    else
      var before := Lead(schedule[..|schedule| - 1], start);
      if schedule[|schedule| - 1] then before + 1 else if before > 0 then before - 1 else 0
  }

  /** A reader whose server is never more than a log ahead loses nothing. */
  lemma {:induction false} InStepLosesNothing(r: Race, schedule: seq<bool>, size: nat)
    requires forall i :: 0 <= i <= |schedule| ==> Lead(schedule[..i], r.lag) <= size
    ensures Worst(r, schedule, size).lost == r.lost && Worst(r, schedule, size).lag <= Lead(schedule, r.lag)
    ensures Worst(r, schedule, size).left <= r.left
    decreases |schedule|
  {
    if schedule != [] {
      var before := schedule[..|schedule| - 1];
      forall i | 0 <= i <= |before| ensures Lead(before[..i], r.lag) <= size {
        assert before[..i] == schedule[..i];
      }
      assert schedule[..|schedule|] == schedule;
      InStepLosesNothing(r, before, size);
    }
  }

  /** And none at all, if what is left over when the schedule ends fits the log as well. */
  lemma NothingLost(r: Race, schedule: seq<bool>, size: nat)
    requires forall i :: 0 <= i <= |schedule| ==> Lead(schedule[..i], r.lag) <= size
    requires Lead(schedule, r.lag) + Worst(r, schedule, size).left <= size
    ensures Losses(r, schedule, size) == r.lost
  {
    InStepLosesNothing(r, schedule, size);
  }

  function Alternating(n: nat): seq<bool> {
    if n == 0 then [] else Alternating(n - 1) + [true, false]
  }

  /** A reader that takes its turn after every turn of the server loses nothing, however long the
      broadcast and however small the log. */
  lemma {:induction false} AlternatingLosesNothing(left: nat, n: nat, size: nat)
    requires size >= 1
    ensures Worst(Race(0, left, 0), Alternating(n), size) == Race(0, if left > n then left - n else 0, 0)
    ensures n >= left ==> Losses(Race(0, left, 0), Alternating(n), size) == 0
  {
    if n > 0 {
      var before := Alternating(n - 1);
      AlternatingLosesNothing(left, n - 1, size);
      assert Alternating(n)[..|before| + 1] == before + [true] && (before + [true])[..|before|] == before;
    }
  }

  /** The true state of a reader is never worse than the race says. */
  ghost predicate NoWorse(r: Race, lag: int, left: nat, lost: int) {
    lag <= r.lag && left <= r.left && lost <= r.lost
  }

  lemma ServerKeepsPace(r: Race, lag: int, lag': int, left: nat, left': nat, lost: int, size: nat)
    requires NoWorse(r, lag, left, lost) && lag' <= lag + (if left > 0 then 1 else 0)
    requires left' + 1 <= left || left' == 0
    ensures NoWorse(Pace(r, true, size), lag', left', lost)
  {
  }

  lemma ReaderKeepsPace(r: Race, n: nat, size: nat, c: nat, d: nat, c': nat, d': nat, left: nat, from: nat)
    requires NoWorse(r, n - c, left, d - from) && c <= n && Moves(n, size, c, d, c', d')
    ensures NoWorse(Pace(r, false, size), n - c', left, d' - from)
  {
  }

  /** A loop that has ended lets its turn pass. */
  lemma IdleKeepsPace(r: Race, server: bool, lag: int, left: nat, lost: int, size: nat)
    requires NoWorse(r, lag, left, lost) && (if server then left == 0 else lag <= 0)
    ensures NoWorse(Pace(r, server, size), lag, left, lost)
  {
  }

  lemma WorstStart(r: Race, schedule: seq<bool>, size: nat)
    ensures Worst(r, schedule[..0], size) == r
  {
  }

  lemma WorstNext(r: Race, schedule: seq<bool>, i: nat, size: nat)
    requires i < |schedule|
    ensures Worst(r, schedule[..i + 1], size) == Pace(Worst(r, schedule[..i], size), schedule[i], size)
    ensures Worst(r, schedule[..i], size).lost <= Worst(r, schedule[..i + 1], size).lost
  {
    assert schedule[..i + 1][..i] == schedule[..i];
  }

  // ----- server and subscriber side by side ----------------------------------------------------------

  /** A connection and a client of its stream: the client has seen exactly what it has read, and has
      read whatever the log still holds as far as it has come. */
  ghost predicate Running(svc: ServiceSession, sub: Subscriber, h: HttpSubscriber, exit: Exit)
    reads svc, svc.Repr(), sub, h
  {
    var stream := svc.publisher.stream;
    && svc.session.Valid() && stream.Storing() && stream.phase.Idle? && stream.log.size < stream.msgs.Length
    && sub.Valid() && sub.log == stream.log && sub.cursor <= |stream.issues| && sub.pendIdx == |sub.pending|
    && h.Valid() && h.seen == ReadBy(stream, sub) && exit == (if h.Cut() then WriteError else Done)
    && Gapless(stream, sub) && sub !in svc.Repr() && h !in svc.Repr()
  }

  /** Where the two loops stand is no worse than `r` says, counting what was lost since `from`. */
  ghost predicate Holding(r: Race, svc: ServiceSession, sub: Subscriber, ended: bool, exit: Exit, from: nat)
    reads svc, svc.Repr(), sub
  {
    NoWorse(r, if exit == Done then |svc.publisher.stream.issues| - sub.cursor else 0,
            if ended then 0 else svc.ChunksLeft(), sub.dropped - from)
  }

  ghost function StartOf(svc: ServiceSession, sub: Subscriber): Race
    reads svc, svc.Repr(), sub
  {
    var n := |svc.publisher.stream.issues|;
    Race(if sub.cursor <= n then n - sub.cursor else 0, svc.ChunksLeft(), 0)
  }

  method ServerTurn(svc: ServiceSession, ghost sub: Subscriber, ghost h: HttpSubscriber, ghost exit: Exit,
                    w: World, sendOk: bool, ghost r: Race, ghost from: nat) returns (ended: bool)
    requires Running(svc, sub, h, exit) && Holding(r, svc, sub, false, exit, from)
    modifies svc.Repr()
    ensures Running(svc, sub, h, exit) && fresh(svc.Repr() - old(svc.Repr()))
    ensures !ended ==> |svc.session.conn.data| < |old(svc.session.conn.data)|
    ensures !ended ==> svc.ChunksLeft() + 1 == old(svc.ChunksLeft())
    ensures old(Published(svc.publisher.stream) + svc.Unaired(w))
      == Published(svc.publisher.stream) + if ended then [] else svc.Unaired(w)
    ensures |svc.publisher.stream.issues|
      <= |old(svc.publisher.stream.issues)| + if old(svc.ChunksLeft()) > 0 then 1 else 0
    ensures |old(svc.publisher.stream.issues)| <= |svc.publisher.stream.issues|
    ensures sub.cursor == old(sub.cursor) && sub.dropped == old(sub.dropped) && h.seen == old(h.seen)
    ensures sub.pendIdx == old(sub.pendIdx)
    ensures Holding(Pace(r, true, svc.publisher.stream.log.size), svc, sub, ended, exit, from)
  {
    hide Inv, Gated, FlvBody, Take, ReadSoFar, ReadWindow, Pace, Stream.Storing, Stream.View;
    hide ServiceSession.Unaired, ServiceSession.Life, ServiceSession.ChunksLeft;
    hide Subscriber.Valid, HttpSubscriber.Valid, HttpSubscriber.Cut, Sessions.Session.Valid, ReadBy, Contents;
    var stream := svc.publisher.stream;
    ghost var before := stream.issues;
    ghost var n, left, c := |before|, svc.ChunksLeft(), sub.cursor;
    ReadByIs(sub, stream);
    ended := svc.Turn(w, sendOk);
    ReadByKept(sub, before, stream);
    WindowOnlyMoves(sub.attach, sub.cursor, sub.delivered, |before|, |stream.issues|, stream.log.size);
    ServerKeepsPace(r, if exit == Done then n - c else 0, if exit == Done then |stream.issues| - c else 0,
                    left, if ended then 0 else svc.ChunksLeft(), sub.dropped - from, stream.log.size);
  }

  method ReaderTurn(ghost svc: ServiceSession, stream: Stream, sub: Subscriber, h: HttpSubscriber,
                    ghost ended: bool, ghost w: World, ghost r: Race, ghost from: nat) returns (exit: Exit)
    requires Running(svc, sub, h, Done) && Holding(r, svc, sub, ended, Done, from) && stream == svc.publisher.stream
    modifies sub, h`written, h`gotKeyframe, h`tsOffset, h`tsBaseSet, h`seen
    ensures Running(svc, sub, h, exit)
    ensures Holding(Pace(r, false, stream.log.size), svc, sub, ended, exit, from)
    ensures |stream.issues| <= stream.log.size ==> sub.dropped == old(sub.dropped)
    ensures Published(stream) == old(Published(stream)) && svc.Unaired(w) == old(svc.Unaired(w))
    ensures svc.Repr() == old(svc.Repr())
  {
    hide ServiceSession.Unaired;
    hide Inv, Gated, FlvBody, Take, ReadSoFar, ReadWindow, Moves, Pace, Stream.Storing, Stream.View;
    hide Subscriber.Valid, HttpSubscriber.Valid, HttpSubscriber.Cut, Sessions.Session.Valid, ReadBy;
    hide ServiceSession.ChunksLeft;
    ghost var n, size, c, d := |stream.issues|, stream.log.size, sub.cursor, sub.dropped;
    var more;
    exit, more := ReadOne(stream, sub, h);
    MovesOn(n, size, c, d, sub.cursor, sub.dropped);
    ReaderKeepsPace(r, n, size, c, d, sub.cursor, sub.dropped, if ended then 0 else svc.ChunksLeft(), from);
  }

  /** A loop that has ended lets its turn pass. */
  lemma IdleTurn(svc: ServiceSession, sub: Subscriber, h: HttpSubscriber, ended: bool, exit: Exit,
                 server: bool, r: Race, from: nat)
    requires Running(svc, sub, h, exit) && Holding(r, svc, sub, ended, exit, from)
    requires if server then ended else exit != Done
    ensures Holding(Pace(r, server, svc.publisher.stream.log.size), svc, sub, ended, exit, from)
  {
    var stream := svc.publisher.stream;
    IdleKeepsPace(r, server, if exit == Done then |stream.issues| - sub.cursor else 0,
                  if ended then 0 else svc.ChunksLeft(), sub.dropped - from, stream.log.size);
  }

  /** Whose turn it is takes it, unless its loop has ended. */
  method NextTurn(svc: ServiceSession, sub: Subscriber, h: HttpSubscriber, server: bool, wasEnded: bool, was: Exit,
                  w: World, sendOk: bool, ghost r: Race, ghost from: nat) returns (ended: bool, exit: Exit)
    requires Running(svc, sub, h, was) && Holding(r, svc, sub, wasEnded, was, from)
    modifies svc.Repr()
    modifies sub, h`written, h`gotKeyframe, h`tsOffset, h`tsBaseSet, h`seen
    ensures Running(svc, sub, h, exit) && fresh(svc.Repr() - old(svc.Repr()))
    ensures old(Published(svc.publisher.stream)) + (if wasEnded then [] else old(svc.Unaired(w)))
      == Published(svc.publisher.stream) + if ended then [] else svc.Unaired(w)
    ensures Holding(Pace(r, server, svc.publisher.stream.log.size), svc, sub, ended, exit, from)
    ensures |svc.publisher.stream.issues| <= svc.publisher.stream.log.size ==> sub.dropped == old(sub.dropped)
    ensures |old(svc.publisher.stream.issues)| <= |svc.publisher.stream.issues|
  {
    hide Running, Holding, Published, Pace, ServiceSession.Unaired, ServiceSession.ChunksLeft;
    ended, exit := wasEnded, was;
    if server && !ended {
      ended := ServerTurn(svc, sub, h, exit, w, sendOk, r, from);
    } else if !server && exit == Done {
      exit := ReaderTurn(svc, svc.publisher.stream, sub, h, ended, w, r, from);
    } else {
      IdleTurn(svc, sub, h, ended, exit, server, r, from);
    }
  }

  /** Turns of the connection loop and of a subscriber's loop in any order; each stops for good at its
      own end. The client has lost no more than the order of turns allows. */
  method Live(svc: ServiceSession, sub: Subscriber, h: HttpSubscriber, w: World, sends: nat -> bool,
              schedule: seq<bool>) returns (ended: bool, exit: Exit)
    requires Running(svc, sub, h, Done)
    modifies svc.Repr()
    modifies sub, h`written, h`gotKeyframe, h`tsOffset, h`tsBaseSet, h`seen
    ensures Running(svc, sub, h, exit) && fresh(svc.Repr() - old(svc.Repr()))
    ensures old(Published(svc.publisher.stream) + svc.Unaired(w))
      == Published(svc.publisher.stream) + if ended then [] else svc.Unaired(w)
    ensures Holding(Worst(old(StartOf(svc, sub)), schedule, svc.publisher.stream.log.size),
                    svc, sub, ended, exit, old(sub.dropped))
    ensures |svc.publisher.stream.issues| <= svc.publisher.stream.log.size ==> sub.dropped == old(sub.dropped)
    ensures schedule == [] ==>
      && !ended && exit == Done && h.seen == old(h.seen)
      && sub.pendIdx == old(sub.pendIdx) && sub.cursor == old(sub.cursor)
  {
    hide Running, Holding, StartOf, Published, Pace, Worst, ServiceSession.Unaired, ServiceSession.ChunksLeft;
    var stream := svc.publisher.stream;
    ghost var all, start := Published(stream) + svc.Unaired(w), StartOf(svc, sub);
    ghost var repr, from, seen, pendIdx, cursor := svc.Repr(), sub.dropped, h.seen, sub.pendIdx, sub.cursor;
    ghost var size := stream.log.size;
    ended, exit := false, Done;
    StartHolds(svc, sub, h, schedule);
    for i := 0 to |schedule|
      invariant Running(svc, sub, h, exit) && fresh(svc.Repr() - repr)
      invariant all == Published(stream) + if ended then [] else svc.Unaired(w)
      invariant Holding(Worst(start, schedule[..i], size), svc, sub, ended, exit, from)
      invariant |stream.issues| <= size ==> sub.dropped == from
      invariant i == 0 ==>
        !ended && exit == Done && h.seen == seen && sub.pendIdx == pendIdx && sub.cursor == cursor
    {
      ghost var race := Worst(start, schedule[..i], size);
      WorstNext(start, schedule, i, size);
      ended, exit := NextTurn(svc, sub, h, schedule[i], ended, exit, w, sends(i), race, from);
    }
    assert schedule[..|schedule|] == schedule;
  }

  lemma StartHolds(svc: ServiceSession, sub: Subscriber, h: HttpSubscriber, schedule: seq<bool>)
    requires Running(svc, sub, h, Done)
    ensures Holding(Worst(StartOf(svc, sub), schedule[..0], svc.publisher.stream.log.size),
                    svc, sub, false, Done, sub.dropped)
  {
    WorstStart(StartOf(svc, sub), schedule, svc.publisher.stream.log.size);
  }

  lemma CursorFits(svc: ServiceSession, sub: Subscriber, h: HttpSubscriber, exit: Exit)
    requires Running(svc, sub, h, exit)
    ensures sub.cursor <= |svc.publisher.stream.issues|
  {
  }

  lemma SomeRace(svc: ServiceSession, sub: Subscriber, h: HttpSubscriber, exit: Exit) returns (r: Race)
    requires Running(svc, sub, h, exit)
    ensures Holding(r, svc, sub, false, exit, sub.dropped)
  {
    r := StartOf(svc, sub);
  }

  /** The connection loop to its end: what it airs is determined by the bytes and the commands. */
  method Serve(svc: ServiceSession, ghost sub: Subscriber, ghost h: HttpSubscriber, ghost exit: Exit,
               w: World, sends: nat -> bool)
    requires Running(svc, sub, h, exit)
    modifies svc.Repr()
    ensures Running(svc, sub, h, exit) && fresh(svc.Repr() - old(svc.Repr()))
    ensures Published(svc.publisher.stream) == old(Published(svc.publisher.stream) + svc.Unaired(w))
    ensures |old(svc.publisher.stream.issues)| <= |svc.publisher.stream.issues|
      <= |old(svc.publisher.stream.issues)| + old(svc.ChunksLeft())
    ensures sub.cursor == old(sub.cursor) && sub.dropped == old(sub.dropped) && h.seen == old(h.seen)
    ensures sub.pendIdx == old(sub.pendIdx)
  {
    hide Running, Holding, Published, ServiceSession.Unaired, ServiceSession.ChunksLeft;
    var stream := svc.publisher.stream;
    ghost var n, all := |stream.issues|, Published(stream) + svc.Unaired(w);
    var k, ended := 0, false;
    while !ended
      invariant Running(svc, sub, h, exit) && fresh(svc.Repr() - old(svc.Repr()))
      invariant all == Published(stream) + if ended then [] else svc.Unaired(w)
      invariant n <= |stream.issues|
      invariant |stream.issues| + (if ended then 0 else svc.ChunksLeft()) <= n + old(svc.ChunksLeft())
      invariant sub.cursor == old(sub.cursor) && sub.dropped == old(sub.dropped) && h.seen == old(h.seen)
      invariant sub.pendIdx == old(sub.pendIdx)
      decreases !ended, |svc.session.conn.data|
    {
      ghost var r := SomeRace(svc, sub, h, exit);
      ended := ServerTurn(svc, sub, h, exit, w, sends(k), r, sub.dropped);
      k := k + 1;
    }
  }

  /** The subscriber's loop to its end on a stream that stays put. */
  method Follow(ghost svc: ServiceSession, stream: Stream, sub: Subscriber, h: HttpSubscriber) returns (exit: Exit)
    requires Running(svc, sub, h, Done) && stream == svc.publisher.stream
    modifies sub, h`written, h`gotKeyframe, h`tsOffset, h`tsBaseSet, h`seen
    ensures Running(svc, sub, h, exit)
    ensures exit == Done ==> sub.cursor == |stream.issues|
    ensures sub.dropped <= old(sub.dropped) + Late(|stream.issues|, stream.log.size, old(sub.cursor))
    ensures Received(h.written, FlvBody(h.opening, old(h.seen + DueTo(stream, sub))), h.room, exit)
  {
    hide Inv, Gated, FlvBody, Take, Due, ReadSoFar, ReadWindow, Stream.Storing, Stream.View;
    hide Subscriber.Valid, HttpSubscriber.Valid, HttpSubscriber.Cut, Sessions.Session.Valid, ReadBy, Late;
    ghost var seen := h.seen;
    exit := Watch(stream, sub, h);
    assert seen + h.seen[|seen|..] == h.seen;
  }

  /** A broadcast: server and subscriber side by side on any schedule, then each to its end. */
  method Broadcast(svc: ServiceSession, sub: Subscriber, h: HttpSubscriber, w: World, sends: nat -> bool,
                   schedule: seq<bool>) returns (exit: Exit)
    requires Running(svc, sub, h, Done)
    modifies svc.Repr()
    modifies sub, h`written, h`gotKeyframe, h`tsOffset, h`tsBaseSet, h`seen
    ensures Running(svc, sub, h, exit)
    ensures Published(svc.publisher.stream) == old(Published(svc.publisher.stream) + svc.Unaired(w))
    ensures exit == Done ==> sub.cursor == |svc.publisher.stream.issues|
    ensures sub.dropped <= old(sub.dropped) + Losses(old(StartOf(svc, sub)), schedule, svc.publisher.stream.log.size)
    ensures |svc.publisher.stream.issues| <= svc.publisher.stream.log.size ==> sub.dropped <= old(sub.dropped)
    ensures schedule == [] ==>
      var stream := svc.publisher.stream;
      var due := Due(old(sub.pending[sub.pendIdx..]), stream.issues, stream.log.size, old(sub.cursor));
      Received(h.written, FlvBody(h.opening, old(h.seen) + due), h.room, exit)
  {
    hide Running, Published, Due, Worst, ServiceSession.Unaired, ServiceSession.ChunksLeft, FlvBody, Received;
    hide StartOf;
    PendingRead(svc, sub, h, Done);
    var stream := svc.publisher.stream;
    var ended;
    ended, exit := Live(svc, sub, h, w, sends, schedule);
    if !ended {
      Serve(svc, sub, h, exit, w, sends);
    }
    CursorFits(svc, sub, h, exit);
    PendingRead(svc, sub, h, exit);
    if exit == Done {
      exit := Follow(svc, stream, sub, h);
    }
  }

  lemma PendingRead(svc: ServiceSession, sub: Subscriber, h: HttpSubscriber, exit: Exit)
    requires Running(svc, sub, h, exit)
    ensures sub.pendIdx == |sub.pending|
  {
  }

  // ----- from the client's messages to the player's tags ----------------------------------------------

  /** The messages at these positions of what went on the air. */
  function Picks(aired: seq<Content>, ds: seq<nat>): seq<Message>
    requires forall j :: 0 <= j < |ds| ==> ds[j] < |aired|
  {
    seq(|ds|, j requires 0 <= j < |ds| => Some(aired[ds[j]]))
  }

  predicate Rising(ds: seq<nat>, n: nat) {
    (forall j :: 0 <= j < |ds| ==> ds[j] < n) && (forall i, j :: 0 <= i < j < |ds| ==> ds[i] < ds[j])
  }

  function All(aired: seq<Content>): seq<Message> {
    seq(|aired|, i requires 0 <= i < |aired| => Some(aired[i]))
  }

  /** What a log still holds once everything is published. */
  function Recent(aired: seq<Content>, size: nat): seq<Message> {
    var o := Oldest(|aired|, size);
    seq(|aired| - o, i requires 0 <= i < |aired| - o => Some(aired[o + i]))
  }

  lemma DueIsRecent(issues: seq<Issue>, size: nat)
    ensures Due([], issues, size, 0) == Recent(Contents(issues), size)
  {
  }

  lemma ReadIsPicks(delivered: seq<nat>, issues: seq<Issue>)
    requires Rising(delivered, |issues|)
    ensures ReadSoFar([], delivered, issues) == Picks(Contents(issues), delivered)
  {
  }

  /** As many rising positions as there are positions below `n`, or as many as the last one allows. */
  lemma {:induction false} RisingIsDense(ds: seq<nat>, n: nat, j: nat)
    requires Rising(ds, n) && j < |ds|
    ensures j <= ds[j] <= n - (|ds| - j)
    decreases |ds| - j
  {
    if j + 1 < |ds| { RisingIsDense(ds, n, j + 1); }
    RisingFrom(ds, n, j);
  }

  lemma {:induction false} RisingFrom(ds: seq<nat>, n: nat, j: nat)
    requires Rising(ds, n) && j < |ds|
    ensures j <= ds[j]
  {
    if j > 0 { RisingFrom(ds, n, j - 1); }
  }

  /** Nothing dropped up to a cursor: what was read is a prefix of what went on the air. */
  lemma NothingSkipped(aired: seq<Content>, ds: seq<nat>)
    requires Rising(ds, |ds|) && |ds| <= |aired|
    ensures forall j :: 0 <= j < |ds| ==> ds[j] < |aired|
    ensures Picks(aired, ds) <= All(aired)
  {
    forall j | 0 <= j < |ds| ensures ds[j] == j {
      RisingIsDense(ds, |ds|, j);
    }
  }

  predicate Muxable(c: Content) {
    c.timestamp < TWO32 && |c.bytes| < TWO24
  }

  /** From the client's bytes: connect, createStream, publish and then media, in chunks of whatever
      sizes the client announces on the way, put exactly that media on the air iff the key is allowed,
      application and name are not empty and are this key, and the replies are sent. */
  lemma PublishingClient(ids: (nat, nat, nat), sid: nat, txn: Amf0.Double, f: Amf0.Fields, app: Amf0.Str,
                         bare: Amf0.Str, query: Amf0.Str, mode: Amf0.Str, media: seq<(nat, Chunks.Message)>,
                         sizes: seq<nat>, key: StreamKey, w: World)
    requires Clients.Says(f, app) && |bare + query| <= 65535 && |mode| <= 65535
    requires 63 !in bare && (query == [] || query[0] == 63)
    requires forall i :: 0 <= i < |media| ==> media[i].1.kind != 20
    requires var ms := Clients.PublisherMessages(ids, sid, txn, f, bare + query, mode) + media;
      && SizeChanges.Follows(ms, sizes) && sizes[0] == 128 && SizeChanges.Sends(ms, sizes)
    ensures var ms := Clients.PublisherMessages(ids, sid, txn, f, bare + query, mode) + media;
      AiredOf(SizeChanges.WrittenSized(ms, sizes), key, w)
      == if w.allows(2) && bare != [] && app != [] && (app, bare) == key && w.replies(0) && w.replies(1) && w.replies(2)
         then MediaAll(media) else []
  {
    hide Aired, Chunks.Drain, SizeChanges.WrittenSized, SizeChanges.Sends, SizeChanges.Follows;
    hide Clients.PublisherMessages, Clients.Says;
    SizeChanges.DeliversTheList(Clients.PublisherMessages(ids, sid, txn, f, bare + query, mode) + media, sizes);
    Clients.PublisherIsAired(ids, sid, txn, f, app, bare, query, mode, media, key, w);
  }

  lemma {:induction false} AiredIsMuxable(ms: seq<(nat, Chunks.Message)>, life: Life, key: StreamKey, w: World)
    requires forall d :: d in ms ==> ExtTime.Addressable(d)
    ensures forall x :: x in Aired(ms, life, key, w) ==> Muxable(x)
  {
    hide Judge;
    if ms != [] {
      var v := Judge(life, ms[0].1, key, w);
      assert ExtTime.Addressable(ms[0]);
      AiredIsMuxable(ms[1..], v.life, key, w);
    }
  }

  lemma ShownIsSayable(ms: seq<Message>)
    requires forall m :: m in ms && m.Some? ==> Muxable(m.value)
    ensures forall t :: t in Shown(ms) ==> Sayable(t)
  {
    forall j | 0 <= j < |Shown(ms)| ensures Sayable(Shown(ms)[j]) {
      var i := KeptBelow(ms, |ms|)[j];
      assert ms[i] in ms;
    }
  }

  /** The messages the connection loop gets out of a client's bytes, and the chunks it counts. */
  function Delivered(input: seq<Byte>): seq<(nat, Chunks.Message)> {
    Chunks.Drain(Chunks.Parser(map[], Chunks.DEFAULT_CHUNK_SIZE), input, true).delivered
  }

  function ChunkCount(input: seq<Byte>): nat {
    |Chunks.Drain(Chunks.Parser(map[], Chunks.DEFAULT_CHUNK_SIZE), input, true).counts|
  }

  function AiredOf(input: seq<Byte>, key: StreamKey, w: World): seq<Content> {
    Aired(Delivered(input), START, key, w)
  }

  /** Whatever the bytes, sizes and timestamps of what goes on the air fit FLV: any selection of it
      reads back. */
  lemma FileIsRead(input: seq<Byte>, key: StreamKey, w: World, ds: seq<nat>, hasAudio: bool, hasVideo: bool)
    requires Rising(ds, |AiredOf(input, key, w)|)
    ensures var f := File(hasAudio, hasVideo, Shown(Picks(AiredOf(input, key, w), ds)));
            ReadFile(Prologue(hasAudio, hasVideo) + TagsBytes(f.tags)) == Some(f)
  {
    hide ReadFile, Shown, Sayable, Muxable, Aired, ExtTime.Addressable, Chunks.Drain;
    var aired := AiredOf(input, key, w);
    ExtTime.OnlyAddressable(Chunks.Parser(map[], Chunks.DEFAULT_CHUNK_SIZE), input, true);
    AiredIsMuxable(Delivered(input), START, key, w);
    forall m | m in Picks(aired, ds) && m.Some? ensures Muxable(m.value) {
      assert m.value in aired;
    }
    ShownIsSayable(Picks(aired, ds));
    FileReadsBackIff(hasAudio, hasVideo, Shown(Picks(aired, ds)));
  }

  /** Of a writer that changes its chunk size as it likes, the server gets every message. */
  lemma WrittenIsDelivered(ms: seq<(nat, Chunks.Message)>)
    requires Conversation.AllWritable(ms, Chunks.DEFAULT_CHUNK_SIZE)
    requires Conversation.SizesPositive(ms, Chunks.DEFAULT_CHUNK_SIZE)
    ensures Delivered(Conversation.WrittenAll(ms, Chunks.DEFAULT_CHUNK_SIZE)) == ms
  {
    Conversation.FollowsSizeChanges(Chunks.Parser(map[], Chunks.DEFAULT_CHUNK_SIZE), ms);
  }

  /** Of interleaved conformant senders, say of audio and video, it gets each one's, in order. */
  lemma InterleavedIsDelivered(flows: map<nat, ChunkFlow.Flow>, il: seq<(nat, seq<Byte>)>)
    requires Demux.InStep(Chunks.Parser(map[], Chunks.DEFAULT_CHUNK_SIZE), flows) && flows.Keys != {}
    requires Demux.Interleaves(il, flows, Chunks.DEFAULT_CHUNK_SIZE) && Interleaved.Sizeless(flows)
    ensures forall id :: id in flows ==>
      Demux.Project(Delivered(Demux.Wire(il)), id) == Demux.ExpectedOf(flows[id])
  {
    hide Chunks.Drain, Demux.Project, Demux.Wire;
    Interleaved.ServesInterleaved(Chunks.Parser(map[], Chunks.DEFAULT_CHUNK_SIZE), flows, il,
                                  Sessions.Ack(0, 0, 0), _ => true);
  }

  /** A new HTTP-FLV client: the header, and unless that already fails, what is due. */
  method Play(stream: Stream, sub: Subscriber, room: nat, hasAudio: bool, hasVideo: bool)
    returns (body: seq<Byte>, exit: Exit)
    requires stream.Storing() && stream.log.size < stream.msgs.Length && sub.Valid() && sub.log == stream.log
    modifies sub
    ensures Received(body, FlvBody(Prologue(hasAudio, hasVideo), old(DueTo(stream, sub))), room, exit)
  {
    hide Inv, Take, Gated, Due, Prologue, Stream.Storing;
    ghost var due := DueTo(stream, sub);
    var h, ok := NewClient(room, hasAudio, hasVideo);
    if !ok {
      assert [] + due == due;
      BodyGrows(h.opening, [], due);
      TakePrefix(h.Ideal(), FlvBody(h.opening, due), room);
      return h.written, WriteError;
    }
    hide FlvBody;
    assert h.seen + due == due;
    exit := Watch(stream, sub, h);
    body := h.written;
  }

  /** A client of which the header has been written, or refused. */
  method NewClient(room: nat, hasAudio: bool, hasVideo: bool) returns (h: HttpSubscriber, ok: bool)
    ensures fresh(h) && h.Valid() && h.room == room && h.seen == [] && h.opening == Prologue(hasAudio, hasVideo)
    ensures ok == !h.Cut() && h.written == Take(Prologue(hasAudio, hasVideo), room)
  {
    hide Take, Gated, Prologue, FlvBody, Shown;
    h := new HttpSubscriber(room);
    NothingShown();
    ok := h.WriteHeader(hasAudio, hasVideo);
    HeaderAlone(Prologue(hasAudio, hasVideo));
    assert h.opening == Prologue(hasAudio, hasVideo);
  }

  lemma NothingShown()
    ensures Shown([]) == []
  {}

  lemma HeaderAlone(opening: seq<Byte>)
    ensures FlvBody(opening, []) == opening
  {
    NothingShown();
  }

  /** An empty stream with one subscriber. */
  method Open(logSize: nat, arenaSlots: nat, slotSize: nat) returns (stream: Stream, sub: Subscriber)
    requires Rounded(logSize) < arenaSlots
    ensures fresh(stream) && fresh(stream.log) && fresh(stream.log.buf) && fresh(stream.arena)
    ensures fresh(stream.arena.base) && fresh(stream.msgs) && fresh(sub)
    ensures stream.Storing() && stream.phase.Idle? && stream.issues == [] && stream.log.size == Rounded(logSize)
    ensures stream.log.size < stream.msgs.Length && stream.publisher == None
    ensures sub.Valid() && sub.log == stream.log && sub.pending == [] && sub.pendIdx == 0 && sub.cursor == 0
    ensures sub.attach == 0 && sub.dropped == 0 && sub.delivered == []
  {
    hide Inv, Rounded;
    stream := new Stream(logSize, arenaSlots, slotSize);
    var id;
    sub, id := stream.AttachSubscriber();
  }

  /** What holds of every broadcast of `aired` to one client, however the two loops interleave. */
  ghost predicate Broadcasted(aired: seq<Content>, size: nat, opening: seq<Byte>, room: nat,
                              body: seq<Byte>, exit: Exit, dropped: nat, ds: seq<nat>)
  {
    && Rising(ds, |aired|)
    && Received(body, FlvBody(opening, Picks(aired, ds)), room, exit)
    && (forall j :: 0 <= j < |ds| ==> ds[j] <= j + dropped)
    && (exit == Done ==> |ds| + dropped == |aired|)
    && (exit == Done ==> forall p: nat :: |aired| - size <= p < |aired| ==> p in ds)
    && (dropped == 0 ==> Received(body, FlvBody(opening, All(aired)), room, exit))
    && (|aired| <= size ==> dropped == 0)
  }

  lemma RefusedHeader(aired: seq<Content>, size: nat, opening: seq<Byte>, room: nat)
    requires |opening| > room
    ensures Broadcasted(aired, size, opening, room, Take(opening, room), WriteError, 0, [])
    ensures Received(Take(opening, room), FlvBody(opening, Recent(aired, size)), room, WriteError)
  {
    hide FlvBody, Take;
    HeaderAlone(opening);
    assert Picks(aired, []) == [];
    BodyGrows(opening, [], All(aired));
    BodyGrows(opening, [], Recent(aired, size));
    assert [] + All(aired) == All(aired) && [] + Recent(aired, size) == Recent(aired, size);
    TakePrefix(opening, FlvBody(opening, All(aired)), room);
    TakePrefix(opening, FlvBody(opening, Recent(aired, size)), room);
  }

  /** What the state of the two loops at their end says of the broadcast. */
  lemma BroadcastEnds(stream: Stream, sub: Subscriber, h: HttpSubscriber, exit: Exit)
    requires sub.Valid() && h.Valid() && exit == if h.Cut() then WriteError else Done
    requires sub.pending == [] && sub.attach == 0 && sub.cursor <= |stream.issues|
    requires h.seen == ReadBy(stream, sub) && (exit == Done ==> sub.cursor == |stream.issues|)
    requires |stream.issues| <= stream.log.size ==> sub.dropped == 0
    requires Gapless(stream, sub)
    ensures Broadcasted(Published(stream), stream.log.size, h.opening, h.room, h.written,
                exit, sub.dropped, sub.delivered)
    ensures Rising(sub.delivered, |Published(stream)|)
  {
    hide FlvBody, Take, Gated, ReadSoFar;
    var aired, ds := Published(stream), sub.delivered;
    assert sub.pending[..sub.pendIdx] == [];
    ReadIsPicks(ds, stream.issues);
    forall j | 0 <= j < |ds| ensures ds[j] <= j + sub.dropped {
      RisingIsDense(ds, |ds| + sub.dropped, j);
    }
    if sub.dropped == 0 {
      NothingSkipped(aired, ds);
      var rest := All(aired)[|ds|..];
      assert Picks(aired, ds) + rest == All(aired);
      BodyGrows(h.opening, Picks(aired, ds), rest);
      if exit == Done {
        assert |Picks(aired, ds)| == |All(aired)|;
        assert Picks(aired, ds) == All(aired);
      } else {
        TakePrefix(h.Ideal(), FlvBody(h.opening, All(aired)), h.room);
      }
    }
  }

  lemma NothingRead(stream: Stream, sub: Subscriber)
    requires sub.pending == [] && sub.pendIdx == 0 && sub.delivered == []
    ensures ReadBy(stream, sub) == []
  {
  }

  lemma Begins(svc: ServiceSession, sub: Subscriber, h: HttpSubscriber)
    requires var stream := svc.publisher.stream;
      && svc.session.Valid() && stream.Storing() && stream.phase.Idle? && stream.log.size < stream.msgs.Length
      && sub.Valid() && sub.log == stream.log && sub.pending == [] && sub.pendIdx == 0 && sub.cursor == 0
      && sub.delivered == [] && h.Valid() && h.seen == [] && !h.Cut()
    ensures Running(svc, sub, h, Done)
  {
    hide Inv, Gated, Take, FlvBody, Stream.Storing, Subscriber.Valid, HttpSubscriber.Valid, Sessions.Session.Valid;
    NothingRead(svc.publisher.stream, sub);
  }

  /** A broadcast to one client that was there from the start. */
  method OneClient(svc: ServiceSession, sub: Subscriber, h: HttpSubscriber, w: World, sends: nat -> bool,
                   schedule: seq<bool>, ghost aired: seq<Content>)
    returns (exit: Exit, body: seq<Byte>, dropped: nat, ghost ds: seq<nat>)
    requires Running(svc, sub, h, Done) && svc.publisher.stream.issues == [] && h.seen == []
    requires sub.pending == [] && sub.attach == 0 && sub.cursor == 0 && sub.dropped == 0
    requires svc.Unaired(w) == aired
    modifies svc.Repr()
    modifies sub, h`written, h`gotKeyframe, h`tsOffset, h`tsBaseSet, h`seen
    ensures Broadcasted(aired, svc.publisher.stream.log.size, h.opening, h.room, body, exit, dropped, ds)
    ensures Rising(ds, |aired|)
    ensures dropped <= Losses(Race(0, old(svc.ChunksLeft()), 0), schedule, svc.publisher.stream.log.size)
    ensures schedule == [] ==>
      Received(body, FlvBody(h.opening, Recent(aired, svc.publisher.stream.log.size)), h.room, exit)
  {
    hide Inv, Gated, Take, Due, ReadSoFar, Aired, Recent, FlvBody, Shown, Broadcasted, Received, Losses, ReadWindow;
    hide Stream.Storing, Stream.View, ServiceSession.Unaired, ServiceSession.ChunksLeft, Sessions.Session.Valid;
    var stream := svc.publisher.stream;
    exit := Broadcast(svc, sub, h, w, sends, schedule);
    body, dropped, ds := h.written, sub.dropped, sub.delivered;
    assert [] + aired == aired;
    BroadcastEnds(stream, sub, h, exit);
    RecentIsDue(stream.issues, stream.log.size);
  }

  /** A client sends any bytes; the server reads them, obeys commands and publishes media; a
      subscriber there from the start reads at any pace and writes FLV to a peer that takes `room`
      bytes. On every schedule of the two loops the peer receives exactly that much of the closed form
      of a selection, in order, of what went on the air. If the peer takes it all, a player reads it
      back; the selection holds at least whatever the log held at the end; and what is missing from it
      was counted as dropped, which is no more than the schedule's lag behind the server allows, and
      nothing if all of it fits the log. */
  method EndToEnd(input: seq<Byte>, key: StreamKey, w: World, sends: nat -> bool,
                  logSize: nat, arenaSlots: nat, slotSize: nat, schedule: seq<bool>,
                  room: nat, hasAudio: bool, hasVideo: bool)
    returns (body: seq<Byte>, exit: Exit, dropped: nat, ghost ds: seq<nat>)
    requires Rounded(logSize) < arenaSlots
    ensures Broadcasted(AiredOf(input, key, w), Rounded(logSize), Prologue(hasAudio, hasVideo),
                room, body, exit, dropped, ds)
    ensures Rising(ds, |AiredOf(input, key, w)|)
    ensures dropped <= Losses(Race(0, ChunkCount(input), 0), schedule, Rounded(logSize))
    ensures exit == Done ==>
      ReadFile(body) == Some(File(hasAudio, hasVideo, Shown(Picks(AiredOf(input, key, w), ds))))
    ensures schedule == [] ==>
      Received(body, FlvBody(Prologue(hasAudio, hasVideo),
        Recent(AiredOf(input, key, w), Rounded(logSize))), room, exit)
  {
    hide Inv, Gated, Take, Due, ReadSoFar, ReadFile, Recent, Rounded, Prologue, FlvBody, Shown, Losses;
    hide Stream.Storing, Stream.View, ServiceSession.Unaired, ServiceSession.ChunksLeft, Broadcasted, Received;
    hide Subscriber.Valid, HttpSubscriber.Valid, Sessions.Session.Valid, AiredOf, ChunkCount, ReadWindow;
    ghost var aired, size, opening := AiredOf(input, key, w), Rounded(logSize), Prologue(hasAudio, hasVideo);
    var stream, sub := Open(logSize, arenaSlots, slotSize);
    var svc := Connect(input, stream, key, w);
    var h, ok := NewClient(room, hasAudio, hasVideo);
    if !ok {
      HeaderAlone(opening);
      RefusedHeader(aired, size, opening, room);
      return h.written, WriteError, 0, [];
    }
    Begins(svc, sub, h);
    exit, body, dropped, ds := OneClient(svc, sub, h, w, sends, schedule, aired);
    if exit == Done {
      FileOfBroadcast(input, key, w, size, room, hasAudio, hasVideo, body, dropped, ds);
    }
    svc.Close();
  }

  /** A connection on which a client has sent `input`. */
  method Connect(input: seq<Byte>, stream: Stream, key: StreamKey, ghost w: World) returns (svc: ServiceSession)
    requires stream.publisher == None
    ensures fresh(svc) && fresh(svc.session) && fresh(svc.session.parser) && fresh(svc.session.conn)
    ensures svc.session.Valid() && svc.session.parser.chunkStreams == map[]
    ensures svc.publisher.stream == stream && svc.key == key
    ensures svc.Unaired(w) == AiredOf(input, key, w) && svc.ChunksLeft() == ChunkCount(input)
  {
    hide Aired, Chunks.Drain, Stream.Storing;
    var conn := new ChunkParsers.Conn(input);
    svc := new ServiceSession(conn, stream, key);
  }

  lemma RecentIsDue(issues: seq<Issue>, size: nat)
    ensures forall seen: seq<Message> | seen == [] :: seen + Due([], issues, size, 0) == Recent(Contents(issues), size)
  {
    DueIsRecent(issues, size);
  }

  lemma FileOfBroadcast(input: seq<Byte>, key: StreamKey, w: World, size: nat, room: nat,
                        hasAudio: bool, hasVideo: bool, body: seq<Byte>, dropped: nat, ds: seq<nat>)
    requires Broadcasted(AiredOf(input, key, w), size, Prologue(hasAudio, hasVideo), room, body, Done, dropped, ds)
    ensures ReadFile(body) == Some(File(hasAudio, hasVideo, Shown(Picks(AiredOf(input, key, w), ds))))
  {
    hide ReadFile, Shown, AiredOf, Prologue;
    FileIsRead(input, key, w, ds, hasAudio, hasVideo);
  }
}
