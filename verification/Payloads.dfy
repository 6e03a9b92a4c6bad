/**
 What a message says about itself, read off its literal bytes: which payloads are keyframes and codec
 configuration (annexes E.4.2.1 and E.4.3.1 of Flash Video File Format 10.1), and which RTMP message
 types become which FLV tags.
 */
module Payloads {
  import opened Bits
  import opened Bytes
  import Chunks
  import opened Publishing
  import opened Commands
  import opened Pipeline

  const SET_DATA_FRAME_TEXT := "@setDataFrame"

  /** A video payload opens with frame type and codec, four bits each, and AVC's packet type. */
  lemma VideoPayload(frame: nat, codec: nat, packet: Byte, rest: seq<Byte>)
    requires frame < 16 && codec < 16
    ensures IsVideoKeyframe([16 * frame + codec] + rest) <==> frame == 1
    ensures IsAVCSequenceHeader([16 * frame + codec, packet] + rest) <==> codec == 7 && packet == 0
    ensures !IsVideoKeyframe([]) && !IsAVCSequenceHeader([]) && !IsAVCSequenceHeader([16 * frame + codec])
  {
  }

  /** An audio payload opens with the format in the upper four bits, and AAC's packet type. */
  lemma AudioPayload(format: nat, rate: nat, packet: Byte, rest: seq<Byte>)
    requires format < 16 && rate < 16
    ensures IsAACSequenceHeader([16 * format + rate, packet] + rest) <==> format == 10 && packet == 0
    ensures !IsAACSequenceHeader([]) && !IsAACSequenceHeader([16 * format + rate])
  {
  }

  /** Types 8, 9 and 18 are published and no others, and each as the FLV tag of the same type, with
      its own timestamp and its own bytes, metadata without its RTMP-only prefix. */
  lemma PublishedAs(m: Chunks.Message)
    ensures |Media(m)| == if m.kind == 8 || m.kind == 9 || m.kind == 18 then 1 else 0
    ensures |Media(m)| == 1 ==>
      var c := Media(m)[0];
      && TagTypeForMessage(Some(c)) == Some(m.kind) && c.timestamp == m.timestamp
      && (m.kind != 18 ==> c.bytes == m.body)
      && (m.kind == 18 ==> c.isInit && c.bytes == StripSetDataFrame(m.body))
      && (m.kind == 9 ==> (c.isInit <==> IsAVCSequenceHeader(m.body)))
      && (m.kind == 8 ==> (c.isInit <==> IsAACSequenceHeader(m.body)))
  {
    hide IsAACSequenceHeader, IsAVCSequenceHeader, StripSetDataFrame;
  }

  /** A published message opens the gate iff it is video, of frame type 1, and not an AVC sequence
      header. */
  lemma OpensIff(m: Chunks.Message)
    requires |Media(m)| == 1
    ensures Opens(Some(Media(m)[0])) <==>
      m.kind == 9 && m.body != [] && m.body[0] / 16 == 1
      && !(|m.body| >= 2 && m.body[0] % 16 == 7 && m.body[1] == 0)
  {
  }

  /** The prefix is thirteen characters behind the AMF0 marker 2 and a length of sixteen bits. */
  lemma StripsLiteral(rest: seq<Byte>)
    ensures SET_DATA_FRAME == Ascii(SET_DATA_FRAME_TEXT)
    ensures StripSetDataFrame([2, 0, 13] + SET_DATA_FRAME + rest) == rest
  {
    var payload := [2, 0, 13] + SET_DATA_FRAME + rest;
    assert payload[3..16] == SET_DATA_FRAME && payload[16..] == rest;
  }

  /** A video message that is not configuration and opens with frame type 1. */
  predicate IsKey(m: Message) {
    m.Some? && m.value.kind == 1 && !m.value.isInit && m.value.bytes != [] && m.value.bytes[0] / 16 == 1
  }

  /** What plays: of the known kinds, configuration always, and the rest from the first keyframe on. */
  lemma KeptIff(ms: seq<Message>, i: nat)
    requires i < |ms|
    ensures Kept(ms, i) <==>
      && ms[i].Some? && ms[i].value.kind <= 2
      && (ms[i].value.isInit || exists j :: 0 <= j <= i && IsKey(ms[j]))
  {
    assert forall j :: 0 <= j < |ms| ==> Opens(ms[j]) == IsKey(ms[j]);
    if FirstKey(ms) <= i { assert IsKey(ms[FirstKey(ms)]); }
  }
}
