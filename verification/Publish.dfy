/** The publisher: it marks codec configuration, drops the RTMP-only prefix of metadata, and runs
    the acquire, fill, publish discipline on the stream. */
module Publishing {
  import opened Bits
  import opened Bytes
  import opened Storage
  import opened StreamBus
  import Amf0
  import Amf0Command

  /** "@setDataFrame" */
  const SET_DATA_FRAME: seq<Byte> := [64, 115, 101, 116, 68, 97, 116, 97, 70, 114, 97, 109, 101]

  predicate IsAACSequenceHeader(payload: seq<Byte>) {
    |payload| >= 2 && payload[0] / 16 == 10 && payload[1] == 0
  }

  predicate IsAVCSequenceHeader(payload: seq<Byte>) {
    |payload| >= 2 && payload[0] % 16 == 7 && payload[1] == 0
  }

  function StripSetDataFrame(payload: seq<Byte>): seq<Byte> {
    if |payload| < 3 || payload[0] != 2 then payload
    else
      var hi: int, lo: int := payload[1], payload[2];
      var total := 3 + 0x100 * hi + lo;
      if |payload| < total then payload
      else if payload[3..total] == SET_DATA_FRAME then payload[total..]
      else payload
  }

  lemma PastMarker(payload: seq<Byte>, n: nat)
    requires |payload| >= 3 + n
    ensures payload[1..][2..2 + n] == payload[3..3 + n]
    ensures payload[1..][2 + n..] == payload[3 + n..]
  {
  }

  /** Hand-written parsing agrees with the AMF0 decoder on every payload: what goes is a leading
      string value that says `@setDataFrame`, and nothing else ever goes. */
  lemma StripsOneValue(payload: seq<Byte>)
    ensures StripSetDataFrame(payload) == match Amf0.Decode(payload)
      case Ok(String(s), rest) => if s == SET_DATA_FRAME then rest else payload
      case _ => payload
  {
    hide Amf0.DecodeFields;
    if |payload| >= 3 && payload[0] == 2 {
      var after := payload[1..];
      var hi: int, lo: int := payload[1], payload[2];
      var n := 0x100 * hi + lo;
      assert after[..2] == [payload[1], payload[2]];
      if |after| - 2 >= n {
        PastMarker(payload, n);
      }
    }
  }

  /** `@setDataFrame`, then any values: what is republished decodes to exactly those values. */
  lemma StrippedCommand(ws: seq<Amf0.Wire>)
    requires forall w :: w in ws ==> Amf0.Ordered(w) && Amf0.Representable(Amf0.ValueOf(w))
    ensures var sent := Amf0Command.EncodeCommand([Amf0.WString(SET_DATA_FRAME)] + ws);
            Amf0Command.DecodeCommand(StripSetDataFrame(sent), [])
            == Amf0Command.Values(Amf0Command.CommandOf(ws))
  {
    var w := Amf0.WString(SET_DATA_FRAME);
    var rest := Amf0Command.EncodeCommand(ws);
    assert ([w] + ws)[1..] == ws;
    assert Amf0Command.EncodeCommand([w] + ws) == Amf0.Encode(w) + rest;
    Amf0.RoundTrip(w, rest);
    StripsOneValue(Amf0.Encode(w) + rest);
    Amf0Command.CommandRoundTripIff(ws);
  }

  ghost function Contents(issues: seq<Issue>): (cs: seq<Content>)
    ensures |cs| == |issues|
  {
    seq(|issues|, i requires 0 <= i < |issues| => issues[i].content)
  }

  /** Everything published so far, oldest first. */
  ghost function Published(s: Stream): seq<Content>
    reads s`issues
  {
    Contents(s.issues)
  }

  class Publisher {
    const stream: Stream

    constructor (stream: Stream)
      ensures this.stream == stream
    {
      this.stream := stream;
    }

    /** The discipline all three kinds share. */
    method Send(kind: nat, timestamp: nat, isInit: bool, payload: seq<Byte>)
      requires stream.Storing() && stream.phase.Idle?
      modifies stream.Repr()
      ensures stream.Storing() && stream.phase.Idle? && stream.Parties() == old(stream.Parties())
      ensures stream.draft == Content(kind, timestamp, payload, isInit)
      ensures Published(stream) == old(Published(stream)) + [stream.draft]
      ensures stream.Closed(old(stream.notify)) && !stream.Closed(stream.notify)
      ensures stream.initVideo == if isInit && kind == VIDEO then Some(stream.draft) else old(stream.initVideo)
      ensures stream.initAudio == if isInit && kind == AUDIO then Some(stream.draft) else old(stream.initAudio)
      ensures stream.initMeta == if isInit && kind == METADATA then Some(stream.draft) else old(stream.initMeta)
    {
      hide Inv, Apply, Stream.Storing, Stream.View;
      var i := stream.AcquireMessage(Content(kind, timestamp, payload, isInit));
      stream.SetFields(i, kind, timestamp, isInit);
      var view := stream.AcquirePayload(|payload|);
      stream.FillPayload(i, view, payload);
      stream.Publish(i);
    }

    method PublishAudio(timestamp: nat, payload: seq<Byte>)
      requires stream.Storing() && stream.phase.Idle?
      modifies stream.Repr()
      ensures stream.Storing() && stream.phase.Idle? && stream.Parties() == old(stream.Parties())
      ensures Published(stream) == old(Published(stream))
        + [Content(AUDIO, timestamp, payload, IsAACSequenceHeader(payload))]
      ensures stream.initVideo == old(stream.initVideo) && stream.initMeta == old(stream.initMeta)
      ensures stream.initAudio == if IsAACSequenceHeader(payload) then Some(Content(AUDIO, timestamp, payload, true))
                                  else old(stream.initAudio)
    {
      Send(AUDIO, timestamp, IsAACSequenceHeader(payload), payload);
    }

    method PublishVideo(timestamp: nat, payload: seq<Byte>)
      requires stream.Storing() && stream.phase.Idle?
      modifies stream.Repr()
      ensures stream.Storing() && stream.phase.Idle? && stream.Parties() == old(stream.Parties())
      ensures Published(stream) == old(Published(stream))
        + [Content(VIDEO, timestamp, payload, IsAVCSequenceHeader(payload))]
      ensures stream.initAudio == old(stream.initAudio) && stream.initMeta == old(stream.initMeta)
      ensures stream.initVideo == if IsAVCSequenceHeader(payload) then Some(Content(VIDEO, timestamp, payload, true))
                                  else old(stream.initVideo)
    {
      Send(VIDEO, timestamp, IsAVCSequenceHeader(payload), payload);
    }

    method PublishMetadata(timestamp: nat, payload: seq<Byte>)
      requires stream.Storing() && stream.phase.Idle?
      modifies stream.Repr()
      ensures stream.Storing() && stream.phase.Idle? && stream.Parties() == old(stream.Parties())
      ensures Published(stream) == old(Published(stream))
        + [Content(METADATA, timestamp, StripSetDataFrame(payload), true)]
      ensures stream.initVideo == old(stream.initVideo) && stream.initAudio == old(stream.initAudio)
      ensures stream.initMeta == Some(Content(METADATA, timestamp, StripSetDataFrame(payload), true))
    {
      Send(METADATA, timestamp, true, StripSetDataFrame(payload));
    }
  }
}
