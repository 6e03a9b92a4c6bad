/**
 The formats digit by digit: byte order, the chunk headers of RTMP 1.0 (section 5.3.1), AMF0 markers
 (AMF 0 specification, section 2.1) and FLV headers and tags (annexes E.2 and E.4), each as the list
 of bytes the standard shows.
 */
module WireFormat {
  import opened Bits
  import opened Bytes
  import opened Chunks
  import opened ChunkFlow
  import opened Conversation
  import Amf0
  import Flv

  /** The number whose digits to base 256 these are. */
  function Number(digits: seq<Byte>): nat {
    if digits == [] then 0
    else
      var last: int := digits[|digits| - 1];
      0x100 * Number(digits[..|digits| - 1]) + last
  }

  lemma NumberOf(a: Byte, b: Byte, c: Byte, d: Byte)
    ensures Number([a, b]) == 0x100 * a + b
    ensures Number([a, b, c]) == 0x1_0000 * a + 0x100 * b + c
    ensures Number([a, b, c, d]) == 0x100_0000 * a + 0x1_0000 * b + 0x100 * c + d
  {
    assert [a][..0] == [] && [a, b][..1] == [a] && [a, b, c][..2] == [a, b] && [a, b, c, d][..3] == [a, b, c];
    assert Number([a]) == a;
  }

  lemma LowDigits(hi: nat, a: Byte, b: Byte)
    ensures BE16(0x1_0000 * hi + 0x100 * a + b) == [a, b]
  {
    var n := 0x1_0000 * hi + 0x100 * a + b;
    DivModUnique(n, 0x100, 0x100 * hi + a, b);
    DivModUnique(0x100 * hi + a, 0x100, hi, a);
  }

  lemma ThreeDigits(hi: nat, a: Byte, b: Byte, c: Byte)
    ensures BE24(0x100_0000 * hi + 0x1_0000 * a + 0x100 * b + c) == [a, b, c]
  {
    var n := 0x100_0000 * hi + 0x1_0000 * a + 0x100 * b + c;
    DivModUnique(n, 0x1_0000, 0x100 * hi + a, 0x100 * b + c);
    DivModUnique(0x100 * hi + a, 0x100, hi, a);
    LowDigits(0x100 * hi + a, b, c);
  }

  lemma FourDigits(a: Byte, b: Byte, c: Byte, d: Byte)
    ensures BE32(0x100_0000 * a + 0x1_0000 * b + 0x100 * c + d) == [a, b, c, d]
  {
    var n := 0x100_0000 * a + 0x1_0000 * b + 0x100 * c + d;
    hide BE16;
    DivModUnique(n, 0x1_0000, 0x100 * a + b, 0x100 * c + d);
    LowDigits(0, a, b);
    LowDigits(0x100 * a + b, c, d);
  }

  /** Most significant byte first, except for the message stream identifier. */
  lemma ByteOrder(a: Byte, b: Byte, c: Byte, d: Byte)
    ensures BE16(Number([a, b])) == [a, b]
    ensures BE24(Number([a, b, c])) == [a, b, c]
    ensures BE32(Number([a, b, c, d])) == [a, b, c, d]
    ensures LE32(Number([d, c, b, a])) == [a, b, c, d]
  {
    hide BE16, BE24, BE32, Number;
    NumberOf(a, b, c, d);
    NumberOf(d, c, b, a);
    LowDigits(0, a, b);
    ThreeDigits(0, a, b, c);
    FourDigits(a, b, c, d);
    FourDigits(d, c, b, a);
  }

  // ----- chunk headers --------------------------------------------------------------------------------

  /** Identifiers below 64 take one byte, below 320 two, and the rest three, high byte first. */
  lemma BasicHeaderForms(fmt: nat, id: nat, a: Byte, b: Byte)
    requires fmt < 4
    ensures 2 <= id < 64 ==> BasicHeader(fmt, id) == [64 * fmt + id]
    ensures BasicHeader(fmt, 64 + a) == [64 * fmt, a]
    ensures Number([a, b]) >= 256 ==> BasicHeader(fmt, 64 + Number([a, b])) == [64 * fmt + 1, a, b]
  {
    NumberOf(a, b, 0, 0);
  }

  predicate Fits24(t: seq<Byte>) {
    |t| == 3 && Number(t) < 0xFF_FFFF
  }

  lemma DigitsOf(t: seq<Byte>)
    ensures |t| == 3 ==> BE24(Number(t)) == t
    ensures |t| == 4 ==> BE32(Number(t)) == t && LE32(Number(t)) == [t[3], t[2], t[1], t[0]]
  {
    if |t| == 3 {
      assert t == [t[0], t[1], t[2]];
      ByteOrder(t[0], t[1], t[2], 0);
    } else if |t| == 4 {
      assert t == [t[0], t[1], t[2], t[3]];
      ByteOrder(t[0], t[1], t[2], t[3]);
      ByteOrder(t[3], t[2], t[1], t[0]);
    }
  }

  /** Formats 0, 1 and 2: time, length, type, and the stream identifier low byte first. */
  lemma MessageHeaderForms(t: seq<Byte>, l: seq<Byte>, kind: Byte, sid: seq<Byte>, body: seq<Byte>)
    requires Fits24(t) && |l| == 3 && Number(l) == |body| && |sid| == 4
    ensures LeadBytes(Unit(Full(Number(t), kind, Number(sid)), body))
      == t + l + [kind] + [sid[3], sid[2], sid[1], sid[0]]
    ensures LeadBytes(Unit(NewLength(Number(t), kind), body)) == t + l + [kind]
    ensures LeadBytes(Unit(NewDelta(Number(t)), body)) == t
  {
    hide BE24, LE32, Number;
    DigitsOf(t);
    DigitsOf(l);
    DigitsOf(sid);
    assert t + [] == t;
  }

  /** From 0xffffff on the time field is all ones and four bytes behind the header carry the time. */
  lemma ExtendedHeaderForms(t: seq<Byte>, l: seq<Byte>, kind: Byte, sid: seq<Byte>, body: seq<Byte>)
    requires |t| == 4 && Number(t) >= 0xFF_FFFF && |l| == 3 && Number(l) == |body| && |sid| == 4
    ensures LeadBytes(Unit(Full(Number(t), kind, Number(sid)), body))
      == [255, 255, 255] + l + [kind] + [sid[3], sid[2], sid[1], sid[0]] + t
    ensures LeadBytes(Unit(NewLength(Number(t), kind), body)) == [255, 255, 255] + l + [kind] + t
    ensures LeadBytes(Unit(NewDelta(Number(t)), body)) == [255, 255, 255] + t
  {
    hide BE24, BE32, LE32, Number;
    DigitsOf(t);
    DigitsOf(l);
    DigitsOf(sid);
    assert BE24(0xFF_FFFF) == [255, 255, 255] by { AllOnes(); }
  }

  lemma AllOnes()
    ensures BE24(0xFF_FFFF) == [255, 255, 255]
  {
  }

  lemma FirstChunk(id: nat, m: Message, c: nat)
    requires m.body != [] && c >= 1
    ensures ChunkAt(id, m, 0, c) == BasicHeader(0, id) + LeadBytes(UnitOf(m)) + m.body[..Min(c, |m.body|)]
  {
    hide BasicHeader, LeadBytes;
  }

  lemma SecondChunk(id: nat, m: Message, c: nat)
    requires 1 <= c < |m.body|
    ensures ChunkAt(id, m, c, c) == BasicHeader(3, id) + m.body[c..Min(2 * c, |m.body|)]
  {
    hide BasicHeader, LeadBytes;
  }

  lemma OneOrTwo(id: nat, m: Message, c: nat)
    requires m.body != [] && c >= 1
    ensures |m.body| <= c ==> Written(id, m, c) == ChunkAt(id, m, 0, c)
    ensures c < |m.body| <= 2 * c ==> Written(id, m, c) == ChunkAt(id, m, 0, c) + ChunkAt(id, m, c, c)
  {
    hide ChunkAt;
    assert WriteFrom(id, m, 0, c) == ChunkAt(id, m, 0, c) + WriteFrom(id, m, c, c);
    if c < |m.body| <= 2 * c {
      assert WriteFrom(id, m, c, c) == ChunkAt(id, m, c, c) + WriteFrom(id, m, 2 * c, c);
    }
  }

  /** A message in one chunk, and one in two: the second repeats the identifier under format 3. */
  lemma WrittenForms(id: nat, t: seq<Byte>, l: seq<Byte>, kind: Byte, sid: seq<Byte>, body: seq<Byte>, c: nat)
    requires 2 <= id < 64 && Fits24(t) && |l| == 3 && Number(l) == |body| >= 1 && |sid| == 4 && c >= 1
    ensures var out := Written(id, Message(kind, Number(t), Number(sid), body), c);
      var header := [id] + (t + l + [kind] + [sid[3], sid[2], sid[1], sid[0]]);
      && (|body| <= c ==> out == header + body)
      && (c < |body| <= 2 * c ==> out == header + body[..c] + ([192 + id] + body[c..]))
  {
    hide LeadBytes, BasicHeader, Number, ChunkAt, Written, Fits24;
    MessageHeaderForms(t, l, kind, sid, body);
    BasicHeaderForms(0, id, 0, 0);
    BasicHeaderForms(3, id, 0, 0);
    AssembledForms(id, Message(kind, Number(t), Number(sid), body), c);
  }

  lemma AssembledForms(id: nat, m: Message, c: nat)
    requires m.body != [] && c >= 1
    ensures var out := Written(id, m, c); var header := BasicHeader(0, id) + LeadBytes(UnitOf(m));
      && (|m.body| <= c ==> out == header + m.body)
      && (c < |m.body| <= 2 * c ==> out == header + m.body[..c] + (BasicHeader(3, id) + m.body[c..]))
  {
    hide LeadBytes, BasicHeader, ChunkAt, Written;
    FirstChunk(id, m, c);
    OneOrTwo(id, m, c);
    if |m.body| <= c {
      assert m.body[..|m.body|] == m.body;
    } else if |m.body| <= 2 * c {
      SecondChunk(id, m, c);
      assert m.body[c..|m.body|] == m.body[c..];
    }
  }

  // ----- AMF0 -----------------------------------------------------------------------------------------

  /** What is written for each kind of value. */
  lemma EncodedForms(d: Amf0.Double, s: Amf0.Str, h: Byte, l: Byte)
    requires |s| == Number([h, l])
    ensures Amf0.Encode(Amf0.WNumber(d)) == [0] + d
    ensures Amf0.Encode(Amf0.WBoolean(true)) == [1, 1] && Amf0.Encode(Amf0.WBoolean(false)) == [1, 0]
    ensures Amf0.Encode(Amf0.WString(s)) == [2, h, l] + s
    ensures Amf0.Encode(Amf0.WNull) == [5]
  {
    ByteOrder(h, l, 0, 0);
    hide BE16, Number;
    assert [2] + [h, l] == [2, h, l];
  }

  /** An object is its fields between marker and end, and an array its items behind their number. */
  lemma NestedForms(s: Amf0.Str, h: Byte, l: Byte, v: Amf0.Wire)
    requires |s| == Number([h, l])
    ensures Amf0.Encode(Amf0.WObject(Amf0.End)) == [3, 0, 0, 9]
    ensures Amf0.Encode(Amf0.WObject(Amf0.Field(s, v, Amf0.End))) == [3] + ([h, l] + s + Amf0.Encode(v)) + [0, 0, 9]
    ensures Amf0.Encode(Amf0.WArray(Amf0.Cons(v, Amf0.Nil))) == [10, 0, 0, 0, 1] + Amf0.Encode(v)
  {
    ByteOrder(h, l, 0, 0);
    SmallNumbers();
    hide BE16, BE32, Number;
    OneField(s, v);
    OneItem(v);
    assert [0, 0] + [9] == [0, 0, 9] && [10] + [0, 0, 0, 1] == [10, 0, 0, 0, 1];
  }

  lemma OneField(s: Amf0.Str, v: Amf0.Wire)
    ensures Amf0.Body(Amf0.End) == []
    ensures Amf0.Body(Amf0.Field(s, v, Amf0.End)) == BE16(|s|) + s + Amf0.Encode(v)
  {
    hide BE16;
    assert Amf0.Body(Amf0.Field(s, v, Amf0.End)) == BE16(|s|) + s + Amf0.Encode(v) + Amf0.Body(Amf0.End);
  }

  lemma OneItem(v: Amf0.Wire)
    ensures Amf0.Length(Amf0.Cons(v, Amf0.Nil)) == 1
    ensures Amf0.EncodeItems(Amf0.Cons(v, Amf0.Nil)) == Amf0.Encode(v)
  {
    assert Amf0.Length(Amf0.Nil) == 0;
    assert Amf0.EncodeItems(Amf0.Cons(v, Amf0.Nil)) == Amf0.Encode(v) + Amf0.EncodeItems(Amf0.Nil);
  }

  lemma SmallNumbers()
    ensures BE16(0) == [0, 0] && BE32(1) == [0, 0, 0, 1] && BE32(0) == [0, 0, 0, 0] && BE32(9) == [0, 0, 0, 9]
  {
  }

  lemma EmptyObject(marker: Byte, rest: seq<Byte>)
    ensures Amf0.Decode([3, 0, 0, marker] + rest)
      == if marker == 9 then Amf0.Ok(Amf0.Object(map[]), rest) else Amf0.Err(Amf0.InvalidData)
  {
    var input := [3, 0, 0, marker] + rest;
    assert input[1..] == [0, 0, marker] + rest;
    var after := input[1..];
    assert after[..2] == [0, 0] && after[2..2] == [] && after[2..] == [marker] + rest;
    assert ([marker] + rest)[1..] == rest;
    assert FromBE16([0, 0]) == 0;
    assert Amf0.DecodeString(after) == Amf0.Ok([], [marker] + rest);
  }

  /** What is read beyond what is ever written: any byte but 0 is true, undefined is null, an ECMA array
      is the object behind its count, and every other marker is refused. */
  lemma DecodedForms(marker: Byte, count: seq<Byte>, rest: seq<Byte>)
    requires |count| == 4
    ensures Amf0.Decode([1, marker] + rest) == Amf0.Ok(Amf0.Boolean(marker != 0), rest)
    ensures Amf0.Decode([6] + rest) == Amf0.Decode([5] + rest) == Amf0.Ok(Amf0.Null, rest)
    ensures Amf0.Decode([8] + count + rest) == Amf0.Decode([3] + rest)
    ensures Amf0.Decode([3, 0, 0, marker] + rest)
      == if marker == 9 then Amf0.Ok(Amf0.Object(map[]), rest) else Amf0.Err(Amf0.InvalidData)
    ensures marker !in {0, 1, 2, 3, 5, 6, 8} ==> Amf0.Decode([marker] + rest) == Amf0.Err(Amf0.UnexpectedType)
  {
    Marked(marker, rest);
    Marked(5, rest);
    Marked(6, rest);
    EcmaArray(count, rest);
    EmptyObject(marker, rest);
    hide Amf0.Decode;
  }

  lemma Marked(marker: Byte, rest: seq<Byte>)
    ensures Amf0.Decode([1, marker] + rest) == Amf0.Ok(Amf0.Boolean(marker != 0), rest)
    ensures marker in {5, 6} ==> Amf0.Decode([marker] + rest) == Amf0.Ok(Amf0.Null, rest)
    ensures marker !in {0, 1, 2, 3, 5, 6, 8} ==> Amf0.Decode([marker] + rest) == Amf0.Err(Amf0.UnexpectedType)
  {
    hide Amf0.DecodeFields, Amf0.DecodeString;
    assert ([1, marker] + rest)[1..] == [marker] + rest && ([marker] + rest)[1..] == rest;
  }

  lemma EcmaArray(count: seq<Byte>, rest: seq<Byte>)
    requires |count| == 4
    ensures Amf0.Decode([8] + count + rest) == Amf0.Decode([3] + rest)
  {
    hide Amf0.DecodeFields, Amf0.DecodeString;
    assert ([8] + count + rest)[1..] == count + rest && (count + rest)[4..] == rest;
    assert ([3] + rest)[1..] == rest;
  }

  // ----- FLV ------------------------------------------------------------------------------------------

  /** Signature, version 1, a flag each for audio and video, header length 9, and the zero size. */
  lemma PrologueForm(hasAudio: bool, hasVideo: bool)
    ensures Flv.Prologue(hasAudio, hasVideo)
      == [0x46, 0x4C, 0x56, 1, (if hasAudio then 4 else 0) + (if hasVideo then 1 else 0), 0, 0, 0, 9, 0, 0, 0, 0]
  {
    SmallNumbers();
    hide BE32;
  }

  lemma TimeDigits(t: seq<Byte>)
    requires |t| == 4
    ensures BE24(Number(t)) == [t[1], t[2], t[3]] && Number(t) / TWO24 % 0x100 == t[0]
  {
    hide BE24, Number;
    var a: int, b: int, c: int, d: int := t[0], t[1], t[2], t[3];
    assert t == [t[0], t[1], t[2], t[3]];
    NumberOf(t[0], t[1], t[2], t[3]);
    ThreeDigits(t[0], t[1], t[2], t[3]);
    DivModUnique(Number(t), TWO24, a, 0x1_0000 * b + 0x100 * c + d);
  }

  /** Type, length, the low three bytes of the time and then its high byte, stream 0, data, and the
      size of all that. */
  lemma TagForm(kind: Byte, l: seq<Byte>, t: seq<Byte>, size: seq<Byte>, data: seq<Byte>)
    requires |l| == 3 && Number(l) == |data| && |t| == 4 && |size| == 4 && Number(size) == 11 + |data|
    ensures Flv.TagBytes(Flv.Tag(kind, Number(t), data))
      == [kind] + l + [t[1], t[2], t[3], t[0], 0, 0, 0] + data + size
  {
    hide BE24, BE32, Number;
    DigitsOf(l);
    DigitsOf(size);
    TimeDigits(t);
  }
}
