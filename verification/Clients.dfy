/**
 What a publishing client gets, from the bytes of its commands: which commands end a connection,
 which publish takes effect, and that connect, createStream, publish and then media put exactly
 that media on the air. Names are literal bytes here.
 */
module Clients {
  import opened Chunks
  import opened Amf0
  import opened Amf0Command
  import opened Commands

  const CONNECT: Str := [99, 111, 110, 110, 101, 99, 116]
  const RELEASE_STREAM: Str := [114, 101, 108, 101, 97, 115, 101, 83, 116, 114, 101, 97, 109]
  const FC_PUBLISH: Str := [70, 67, 80, 117, 98, 108, 105, 115, 104]
  const CREATE_STREAM: Str := [99, 114, 101, 97, 116, 101, 83, 116, 114, 101, 97, 109]
  const PUBLISH: Str := [112, 117, 98, 108, 105, 115, 104]
  const DELETE_STREAM: Str := [100, 101, 108, 101, 116, 101, 83, 116, 114, 101, 97, 109]
  const CLOSE_STREAM: Str := [99, 108, 111, 115, 101, 83, 116, 114, 101, 97, 109]
  const APP: Str := [97, 112, 112]
  const LIVE: Str := [108, 105, 118, 101]

  lemma NamesAreAscii()
    ensures Ascii("connect") == CONNECT && Ascii("releaseStream") == RELEASE_STREAM
    ensures Ascii("FCPublish") == FC_PUBLISH && Ascii("createStream") == CREATE_STREAM
    ensures Ascii("publish") == PUBLISH && Ascii("deleteStream") == DELETE_STREAM
    ensures Ascii("closeStream") == CLOSE_STREAM && Ascii("app") == APP && Ascii("live") == LIVE
  {
    ShortNames();
    StreamNames();
    hide Ascii;
  }

  lemma ShortNames()
    ensures Ascii("connect") == CONNECT && Ascii("publish") == PUBLISH && Ascii("FCPublish") == FC_PUBLISH
    ensures Ascii("app") == APP && Ascii("live") == LIVE
  {
  }

  lemma StreamNames()
    ensures Ascii("releaseStream") == RELEASE_STREAM && Ascii("createStream") == CREATE_STREAM
    ensures Ascii("deleteStream") == DELETE_STREAM && Ascii("closeStream") == CLOSE_STREAM
  {
  }

  // ----- names ------------------------------------------------------------------------------------

  /** What stands before the question mark, or all of it. */
  lemma {:induction false} BareIsBeforeQuery(bare: Str, query: Str)
    requires 63 !in bare && (query == [] || query[0] == 63)
    ensures BareName(bare + query) == bare
  {
    if bare == [] {
      assert bare + query == query;
    } else {
      assert (bare + query)[1..] == bare[1..] + query;
      BareIsBeforeQuery(bare[1..], query);
    }
  }

  /** Every name splits so. */
  lemma {:induction false} SplitName(raw: Str) returns (query: Str)
    ensures raw == BareName(raw) + query && 63 !in BareName(raw) && (query == [] || query[0] == 63)
  {
    if raw == [] || raw[0] == 63 {
      query := raw;
    } else {
      query := SplitName(raw[1..]);
    }
  }

  // ----- which commands end the connection ----------------------------------------------------------

  /** The name a decoded command carries, if any. */
  predicate Named(vs: seq<Value>, name: Str) {
    vs != [] && vs[0] == String(name)
  }

  /** Of the commands other than publish: connect and createStream must carry a second value and be
      answered, releaseStream and FCPublish must be answered if they do, deleteStream and closeStream
      end it, and every other command is ignored. Only connect changes anything. */
  lemma OtherCommands(life: Life, vs: seq<Value>, k: nat, key: StreamKey, w: World)
    requires !Named(vs, PUBLISH)
    ensures var v := JudgeCommand(life, vs, k, key, w);
      && (v.ended <==>
            || ((Named(vs, CONNECT) || Named(vs, CREATE_STREAM)) && (|vs| < 2 || !w.replies(k)))
            || ((Named(vs, RELEASE_STREAM) || Named(vs, FC_PUBLISH)) && |vs| >= 2 && !w.replies(k))
            || Named(vs, DELETE_STREAM) || Named(vs, CLOSE_STREAM))
      && v.life.here == life.here && v.life.attached == life.attached && v.life.commands == life.commands
      && (Named(vs, CONNECT) && |vs| >= 2 ==> v.life.app == AppIn(vs))
      && (!Named(vs, CONNECT) ==> v.life.app == life.app)
  {
    NamesAreAscii();
    hide Ascii;
  }

  /** The application a connect names: the string under `app` in its third value, or `live`. */
  function AppIn(vs: seq<Value>): Str {
    if |vs| >= 3 && vs[2].Object? && APP in vs[2].fields && vs[2].fields[APP].String? then vs[2].fields[APP].s
    else LIVE
  }

  /** The string in fourth place of a publish, or failing that in third. */
  function NameIn(vs: seq<Value>): Str {
    if |vs| >= 4 && vs[3].String? then vs[3].s
    else if |vs| >= 3 && vs[2].String? then vs[2].s
    else []
  }

  /** A publish takes effect iff it names something, its key is allowed, an application is set, and
      the stream it names takes the publisher; on this stream, iff it has none. */
  lemma PublishCommand(life: Life, vs: seq<Value>, k: nat, key: StreamKey, w: World, bare: Str, query: Str)
    requires Named(vs, PUBLISH) && NameIn(vs) == bare + query
    requires 63 !in bare && (query == [] || query[0] == 63)
    ensures var v := JudgeCommand(life, vs, k, key, w);
      var ours := (life.app, bare) == key;
      var effective := bare != [] && life.app != [] && w.allows(k) && if ours then !life.attached else w.others(k);
      && (v.ended <==> !effective || !w.replies(k))
      && v.life == (if effective then life.(here := ours, attached := life.attached || ours) else life)
  {
    NamesAreAscii();
    hide Ascii;
    BareIsBeforeQuery(bare, query);
  }

  // ----- connect, createStream, publish, and then media ----------------------------------------------

  /** The three commands as a client encodes them. */
  function ConnectWire(txn: Double, f: Fields): seq<Wire> {
    [WString(CONNECT), WNumber(txn), WObject(f)]
  }

  function CreateStreamWire(txn: Double): seq<Wire> {
    [WString(CREATE_STREAM), WNumber(txn), WNull]
  }

  function PublishWire(txn: Double, name: Str, mode: Str): seq<Wire> {
    [WString(PUBLISH), WNumber(txn), WNull, WString(name), WString(mode)]
  }

  function CommandMessage(sid: nat, ws: seq<Wire>): Message {
    Message(20, 0, sid, EncodeCommand(ws))
  }

  /** A sender's object, with the application under `app`. */
  predicate Says(f: Fields, app: Str) {
    FitsFields(f) && APP in MapOf(f) && MapOf(f)[APP] == String(app)
  }

  lemma DecodesCommand(ws: seq<Wire>)
    requires forall w :: w in ws ==> Fits(w)
    ensures DecodeCommand(EncodeCommand(ws), []) == Values(CommandOf(ws))
  {
    assert ws[..|ws|] == ws && EncodeCommand(ws)[..|EncodeCommand(ws)|] == EncodeCommand(ws);
    CommandPrefixFrom(ws, |EncodeCommand(ws)|, |ws|, []);
    assert [] + CommandOf(ws) == CommandOf(ws);
  }

  lemma JudgesConnect(life: Life, sid: nat, txn: Double, f: Fields, app: Str, key: StreamKey, w: World)
    requires Says(f, app)
    ensures Judge(life, CommandMessage(sid, ConnectWire(txn, f)), key, w)
      == Verdict(life.(app := app, commands := life.commands + 1), !w.replies(life.commands))
  {
    hide Decode, Encode, Ascii, DecodeCommand, EncodeCommand, JudgeCommand;
    var ws := ConnectWire(txn, f);
    DecodesCommand(ws);
    var vs := CommandOf(ws);
    assert vs[0] == String(CONNECT) && vs[2] == Object(MapOf(f)) && |vs| == 3;
    OtherCommands(life.(commands := life.commands + 1), vs, life.commands, key, w);
  }

  lemma JudgesCreateStream(life: Life, sid: nat, txn: Double, key: StreamKey, w: World)
    ensures Judge(life, CommandMessage(sid, CreateStreamWire(txn)), key, w)
      == Verdict(life.(commands := life.commands + 1), !w.replies(life.commands))
  {
    hide Decode, Encode, Ascii, DecodeCommand, EncodeCommand, JudgeCommand;
    var ws := CreateStreamWire(txn);
    DecodesCommand(ws);
    var vs := CommandOf(ws);
    assert vs[0] == String(CREATE_STREAM) && |vs| == 3;
    OtherCommands(life.(commands := life.commands + 1), vs, life.commands, key, w);
  }

  lemma JudgesPublish(life: Life, sid: nat, txn: Double, bare: Str, query: Str, mode: Str, key: StreamKey, w: World)
    requires |bare + query| <= 65535 && |mode| <= 65535 && 63 !in bare && (query == [] || query[0] == 63)
    requires !life.attached
    ensures var v := Judge(life, CommandMessage(sid, PublishWire(txn, bare + query, mode)), key, w);
      var k := life.commands;
      var ours := (life.app, bare) == key;
      var effective := bare != [] && life.app != [] && w.allows(k) && (ours || w.others(k));
      && (v.ended <==> !effective || !w.replies(k))
      && v.life.here == (if effective then ours else life.here)
  {
    hide Decode, Encode, Ascii, DecodeCommand, EncodeCommand, JudgeCommand;
    var ws := PublishWire(txn, bare + query, mode);
    DecodesCommand(ws);
    var vs := CommandOf(ws);
    assert vs[0] == String(PUBLISH) && vs[3] == String(bare + query) && |vs| == 5;
    PublishCommand(life.(commands := life.commands + 1), vs, life.commands, key, w, bare, query);
  }

  /** From the first byte: a client that connects to `app`, creates a stream, publishes `bare` (with
      any query string) and then sends media puts all of it on the air under `key` iff the key is
      allowed, the name and the application are not empty and are `key`, and the replies are sent;
      and otherwise nothing. */
  lemma PublisherIsAired(ids: (nat, nat, nat), sid: nat, txn: Double, f: Fields, app: Str,
                         bare: Str, query: Str, mode: Str, media: seq<(nat, Message)>, key: StreamKey, w: World)
    requires Says(f, app) && |bare + query| <= 65535 && |mode| <= 65535
    requires 63 !in bare && (query == [] || query[0] == 63)
    requires forall i :: 0 <= i < |media| ==> media[i].1.kind != 20
    ensures var ms := PublisherMessages(ids, sid, txn, f, bare + query, mode) + media;
      Aired(ms, Life([], false, false, 0), key, w)
      == if w.allows(2) && bare != [] && app != [] && (app, bare) == key && w.replies(0) && w.replies(1) && w.replies(2)
         then MediaAll(media) else []
  {
    hide Judge, Media, ConnectWire, CreateStreamWire, PublishWire, EncodeCommand;
    var m0, m1 := CommandMessage(0, ConnectWire(txn, f)), CommandMessage(0, CreateStreamWire(txn));
    var m2 := CommandMessage(sid, PublishWire(txn, bare + query, mode));
    var l0 := Life([], false, false, 0);
    JudgesConnect(l0, 0, txn, f, app, key, w);
    var l1 := Life(app, false, false, 1);
    JudgesCreateStream(l1, 0, txn, key, w);
    var l2 := Life(app, false, false, 2);
    JudgesPublish(l2, sid, txn, bare, query, mode, key, w);
    var v := Judge(l2, m2, key, w);
    AiredWithoutCommands(media, v.life, key, w);
    var three := PublisherMessages(ids, sid, txn, f, bare + query, mode);
    AiredFront(three + media, l0, key, w);
    AiredFront((three + media)[1..], l1, key, w);
    AiredFront((three + media)[1..][1..], l2, key, w);
    assert (three + media)[1..][1..][1..] == media;
  }

  /** connect, createStream, publish. */
  function PublisherMessages(ids: (nat, nat, nat), sid: nat, txn: Double, f: Fields, name: Str, mode: Str)
    : seq<(nat, Message)>
  {
    [(ids.0, CommandMessage(0, ConnectWire(txn, f))), (ids.1, CommandMessage(0, CreateStreamWire(txn))),
     (ids.2, CommandMessage(sid, PublishWire(txn, name, mode)))]
  }

  /** A message that airs nothing of its own: the rest is aired in the life it leaves. */
  lemma AiredFront(ms: seq<(nat, Message)>, life: Life, key: StreamKey, w: World)
    requires ms != [] && !life.here
    ensures var v := Judge(life, ms[0].1, key, w);
      Aired(ms, life, key, w) == if v.ended then [] else Aired(ms[1..], v.life, key, w)
  {
  }
}
