/**
 What the connection loop makes of AMF0 commands: which ones end the connection, which one starts
 publishing, and hence which of the delivered media messages go on the air.
 */
module Commands {
  import opened Chunks
  import opened Amf0
  import opened Amf0Command
  import opened Storage
  import opened StreamBus
  import opened Publishing

  /** Application and stream name. */
  type StreamKey = (Str, Str)

  const TYPE_AUDIO := 8
  const TYPE_VIDEO := 9
  const TYPE_DATA := 18
  const TYPE_COMMAND := 20

  function Ascii(s: string): Str {
    seq(|s|, i requires 0 <= i < |s| => (s[i] as int) % 0x100)
  }

  /** What the bytes do not say about the k-th command: whether its key is allowed, whether a stream
      other than ours takes its publisher, and whether its replies could be sent. */
  datatype World = World(allows: nat -> bool, others: nat -> bool, replies: nat -> bool)

  /** The session as seen from one stream: the application, whether its publisher is on this stream,
      whether this stream has a publisher, and the commands handled. */
  datatype Life = Life(app: Str, here: bool, attached: bool, commands: nat)

  const START := Life([], false, false, 0)

  datatype Verdict = Verdict(life: Life, ended: bool)

  /** The name in front of a query string. */
  function BareName(raw: Str): Str {
    if raw == [] || raw[0] == 63 then [] else [raw[0]] + BareName(raw[1..])
  }

  function StreamName(vs: seq<Value>): Str {
    if |vs| >= 4 && vs[3].String? then vs[3].s
    else if |vs| >= 3 && vs[2].String? then vs[2].s
    else []
  }

  function AppOf(vs: seq<Value>): Str {
    if |vs| >= 3 && vs[2].Object? && Ascii("app") in vs[2].fields && vs[2].fields[Ascii("app")].String?
    then vs[2].fields[Ascii("app")].s
    else Ascii("live")
  }

  function JudgePublish(life: Life, vs: seq<Value>, k: nat, key: StreamKey, w: World): Verdict {
    var name := BareName(StreamName(vs));
    if name == [] || !w.allows(k) || life.app == [] then Verdict(life, true)
    else if (life.app, name) != key then
      if w.others(k) then Verdict(life.(here := false), !w.replies(k)) else Verdict(life, true)
    else if life.attached then Verdict(life, true)
    else Verdict(life.(here := true, attached := true), !w.replies(k))
  }

  function JudgeCommand(life: Life, vs: seq<Value>, k: nat, key: StreamKey, w: World): Verdict {
    if vs == [] || !vs[0].String? then Verdict(life, false)
    else
      var name := vs[0].s;
      if name == Ascii("connect") then
        if |vs| < 2 then Verdict(life, true) else Verdict(life.(app := AppOf(vs)), !w.replies(k))
      else if name == Ascii("releaseStream") || name == Ascii("FCPublish") then
        Verdict(life, |vs| >= 2 && !w.replies(k))
      else if name == Ascii("createStream") then Verdict(life, |vs| < 2 || !w.replies(k))
      else if name == Ascii("publish") then JudgePublish(life, vs, k, key, w)
      else Verdict(life, name == Ascii("deleteStream") || name == Ascii("closeStream"))
  }

  /** What a message does to the session, seen from the stream under `key`. */
  function Judge(life: Life, m: Message, key: StreamKey, w: World): Verdict {
    if m.kind != TYPE_COMMAND then Verdict(life, false)
    else
      var next := life.(commands := life.commands + 1);
      match DecodeCommand(m.body, [])
      case Rejected(_) => Verdict(next, true)
      case Values(vs) => JudgeCommand(next, vs, life.commands, key, w)
  }

  // ----- what goes on the air ------------------------------------------------------------------

  /** What publishing an RTMP message puts on the bus. */
  function Media(m: Message): seq<Content> {
    if m.kind == TYPE_AUDIO then [Content(AUDIO, m.timestamp, m.body, IsAACSequenceHeader(m.body))]
    else if m.kind == TYPE_VIDEO then [Content(VIDEO, m.timestamp, m.body, IsAVCSequenceHeader(m.body))]
    else if m.kind == TYPE_DATA then [Content(METADATA, m.timestamp, StripSetDataFrame(m.body), true)]
    else []
  }

  function MediaAll(ms: seq<(nat, Message)>): seq<Content> {
    if ms == [] then [] else Media(ms[0].1) + MediaAll(ms[1..])
  }

  /** Media while the publisher is on this stream, until a command ends the connection. */
  function Aired(ms: seq<(nat, Message)>, life: Life, key: StreamKey, w: World): seq<Content> {
    if ms == [] then []
    else
      var v := Judge(life, ms[0].1, key, w);
      (if life.here then Media(ms[0].1) else [])
      + if v.ended then [] else Aired(ms[1..], v.life, key, w)
  }

  /** The session after these messages, or at the command that ended it. */
  function LifeAfter(ms: seq<(nat, Message)>, life: Life, key: StreamKey, w: World): Verdict {
    if ms == [] then Verdict(life, false)
    else
      var v := Judge(life, ms[0].1, key, w);
      if v.ended then v else LifeAfter(ms[1..], v.life, key, w)
  }

  lemma {:induction false} AiredConcat(a: seq<(nat, Message)>, b: seq<(nat, Message)>,
                                       life: Life, key: StreamKey, w: World)
    ensures var v := LifeAfter(a, life, key, w);
      Aired(a + b, life, key, w) == Aired(a, life, key, w) + if v.ended then [] else Aired(b, v.life, key, w)
  {
    hide Judge, Media;
    if a == [] {
      assert a + b == b;
    } else {
      assert (a + b)[1..] == a[1..] + b;
      var v := Judge(life, a[0].1, key, w);
      if !v.ended {
        AiredConcat(a[1..], b, v.life, key, w);
        var u := LifeAfter(a[1..], v.life, key, w);
        var tail := if u.ended then [] else Aired(b, u.life, key, w);
        Regroup(if life.here then Media(a[0].1) else [], Aired(a[1..], v.life, key, w), tail);
      }
    }
  }

  lemma Regroup<T>(a: seq<T>, b: seq<T>, c: seq<T>)
    ensures a + (b + c) == (a + b) + c
  {
  }

  /** Nothing after a command that does not decode is aired, whatever it is. */
  lemma RejectedEnds(a: seq<(nat, Message)>, id: nat, m: Message, b: seq<(nat, Message)>,
                     life: Life, key: StreamKey, w: World)
    requires m.kind == TYPE_COMMAND && DecodeCommand(m.body, []).Rejected?
    ensures Aired(a + ([(id, m)] + b), life, key, w) == Aired(a, life, key, w)
  {
    hide DecodeCommand;
    AiredConcat(a, [(id, m)] + b, life, key, w);
    assert ([(id, m)] + b)[1..] == b;
  }

  /** Without commands the media of a publishing session is aired whole, and that of any other not
      at all. */
  lemma {:induction false} AiredWithoutCommands(ms: seq<(nat, Message)>, life: Life, key: StreamKey, w: World)
    requires forall i :: 0 <= i < |ms| ==> ms[i].1.kind != TYPE_COMMAND
    ensures Aired(ms, life, key, w) == if life.here then MediaAll(ms) else []
  {
    hide Media;
    if ms != [] { AiredWithoutCommands(ms[1..], life, key, w); }
  }

  /** One byte that no value starts with, then a keyframe: the keyframe is never aired. */
  lemma RejectedRun(key: StreamKey, w: World)
    ensures var ms := [(3, Message(TYPE_COMMAND, 0, 0, [13])), (4, Message(TYPE_VIDEO, 0, 1, [0x17, 1]))];
      Aired(ms, Life(key.0, true, true, 0), key, w) == [] != MediaAll(ms)
  {
    var bad, frame := Message(TYPE_COMMAND, 0, 0, [13]), Message(TYPE_VIDEO, 0, 1, [0x17, 1]);
    assert Decode([13]) == Err(UnexpectedType);
    RejectedEnds([], 3, bad, [(4, frame)], Life(key.0, true, true, 0), key, w);
    var ms: seq<(nat, Message)> := [(3, bad), (4, frame)];
    assert ms == [] + ([(3, bad)] + [(4, frame)]);
    assert MediaAll(ms) == Media(bad) + MediaAll(ms[1..]) && MediaAll(ms[1..]) == Media(frame) + MediaAll(ms[1..][1..]);
  }
}
