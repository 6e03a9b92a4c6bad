/**
 In-band chunk-size changes, told by the writer's own list of sizes: each message is written in the
 size listed for it, and the size changes only right after a Set Chunk Size message that says so
 (sections 5.4.1 and 5.3 of RTMP 1.0).
 */
module SizeChanges {
  import opened Bits
  import opened Bytes
  import opened Chunks
  import opened ChunkFlow
  import opened Conversation

  /** The size in force after message `m`: a type 1 with a four-byte big-endian size from 1 to 2^24-1
      switches to it; a type 1 too short for a size, or beyond the maximum, is not a change. */
  predicate Switches(m: Message, size: nat, next: nat) {
    if m.kind != 1 then next == size
    else if |m.body| < 4 then next == size
    else
      var b0: int, b1: int, b2: int, b3: int := m.body[0], m.body[1], m.body[2], m.body[3];
      if b0 > 0 then next == size
      else next == 65536 * b1 + 256 * b2 + b3 >= 1
  }

  /** A list of messages with the size each is written in, and the size left at the end. */
  predicate Follows(ms: seq<(nat, Message)>, sizes: seq<nat>) {
    |sizes| == |ms| + 1 && forall i :: 0 <= i < |ms| ==> Switches(ms[i].1, sizes[i], sizes[i + 1])
  }

  function WrittenSized(ms: seq<(nat, Message)>, sizes: seq<nat>): seq<Byte>
    requires |sizes| == |ms| + 1 && forall i :: 0 <= i < |ms| ==> sizes[i] >= 1
    decreases |ms|
  {
    if ms == [] then [] else Written(ms[0].0, ms[0].1, sizes[0]) + WrittenSized(ms[1..], sizes[1..])
  }

  /** What the parser does with the message is what the list says. */
  lemma SwitchIsNextSize(m: Message, size: nat, next: nat)
    requires Switches(m, size, next)
    ensures NextSize(size, m) == next
  {
    if m.kind == 1 && |m.body| >= 4 {
      var b := m.body[..4];
      var b0: int, b1: int, b2: int, b3: int := m.body[0], m.body[1], m.body[2], m.body[3];
      assert b[..2][0] == m.body[0] && b[..2][1] == m.body[1] && b[2..][0] == m.body[2] && b[2..][1] == m.body[3];
      assert FromBE32(b) == 0x1_0000 * (0x100 * b0 + b1) + (0x100 * b2 + b3);
    }
  }

  /** The message that announces a size, byte for byte, switches to exactly that size. */
  lemma AnnouncedSize(n: nat, size: nat, next: nat)
    requires 1 <= n <= 0xFF_FFFF
    ensures Switches(Message(1, 0, 0, CreateSetChunkSize(n)), size, next) <==> next == n
  {
    RoundTripBE32(n);
    var b := CreateSetChunkSize(n);
    var b0: int, b1: int, b2: int, b3: int := b[0], b[1], b[2], b[3];
    assert b[..2][0] == b[0] && b[..2][1] == b[1] && b[2..][0] == b[2] && b[2..][1] == b[3];
    assert FromBE32(b) == 0x1_0000 * (0x100 * b0 + b1) + (0x100 * b2 + b3) == n;
  }

  lemma {:induction false} SizedIsWrittenAll(ms: seq<(nat, Message)>, sizes: seq<nat>)
    requires Follows(ms, sizes) && forall i :: 0 <= i < |sizes| ==> 1 <= sizes[i] < TWO24
    requires forall i :: 0 <= i < |ms| ==> ValidID(ms[i].0) && Writable(ms[i].1, sizes[i])
    ensures SizesPositive(ms, sizes[0]) && AllWritable(ms, sizes[0])
    ensures WrittenAll(ms, sizes[0]) == WrittenSized(ms, sizes)
    decreases |ms|
  {
    hide Written, NextSize, Writable, Switches;
    if ms != [] {
      SwitchIsNextSize(ms[0].1, sizes[0], sizes[1]);
      SizedIsWrittenAll(ms[1..], sizes[1..]);
    }
  }

  /** What the format can carry: sizes from 1 to 2^24-1, identifiers from 2 to 65599, bodies that
      are not empty, and no extended timestamp on a message of several chunks. */
  predicate Sends(ms: seq<(nat, Message)>, sizes: seq<nat>) {
    && |sizes| == |ms| + 1 && (forall i :: 0 <= i < |sizes| ==> 1 <= sizes[i] < 0x100_0000)
    && forall i :: 0 <= i < |ms| ==>
         var m := ms[i].1;
         && 2 <= ms[i].0 <= 65599 && 1 <= |m.body| < 0x100_0000 && m.timestamp < TWO32 && m.streamID < TWO32
         && (m.timestamp < 0xFF_FFFF || |m.body| <= sizes[i])
  }

  /** Whatever messages a writer sends, switching size as its list says, the connection loop delivers
      exactly them, in order, and is left with the last size. */
  lemma DeliversTheList(ms: seq<(nat, Message)>, sizes: seq<nat>)
    requires Follows(ms, sizes) && sizes[0] == 128
    requires Sends(ms, sizes)
    ensures var t := Drain(Parser(map[], DEFAULT_CHUNK_SIZE), WrittenSized(ms, sizes), true);
      t.error == EOF && t.delivered == ms
  {
    hide Drain, WrittenAll, WrittenSized, Switches;
    SizedIsWrittenAll(ms, sizes);
    FollowsSizeChanges(Parser(map[], DEFAULT_CHUNK_SIZE), ms);
  }
}
