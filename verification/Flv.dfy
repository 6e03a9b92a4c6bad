/** FLV headers and tags (Flash Video File Format 10.1, annexes E.2 to E.4): what the muxer writes,
    and two independent readers of it, one from each end of the file. */
module Flv {
  import opened Bits
  import opened Bytes

  const TAG_AUDIO := 8
  const TAG_VIDEO := 9
  const TAG_SCRIPT := 18

  datatype Tag = Tag(kind: Byte, timestamp: nat, data: seq<Byte>)

  // ----- writing ------------------------------------------------------------------------------

  /** Low 24 bits of the timestamp, then its high byte; stream identifier zero. */
  function TagHeader(t: Tag): (s: seq<Byte>)
    ensures |s| == 11
  {
    [t.kind] + BE24(|t.data|) + BE24(t.timestamp) + [t.timestamp / TWO24 % 0x100] + [0, 0, 0]
  }

  /** A tag without the size that trails it. */
  function Unit(t: Tag): (s: seq<Byte>)
    ensures |s| == 11 + |t.data|
  {
    TagHeader(t) + t.data
  }

  function TagBytes(t: Tag): (s: seq<Byte>)
    ensures |s| == 15 + |t.data|
  {
    Unit(t) + BE32(11 + |t.data|)
  }

  function TagsBytes(tags: seq<Tag>): seq<Byte> {
    if tags == [] then [] else TagBytes(tags[0]) + TagsBytes(tags[1..])
  }

  function HeaderBytes(hasAudio: bool, hasVideo: bool): (s: seq<Byte>)
    ensures |s| == 9
  {
    [70, 76, 86, 1, (if hasAudio then 4 else 0) + (if hasVideo then 1 else 0)] + BE32(9)
  }

  /** The header and the zero size before the first tag. */
  function Prologue(hasAudio: bool, hasVideo: bool): (s: seq<Byte>)
    ensures |s| == 13
  {
    HeaderBytes(hasAudio, hasVideo) + BE32(0)
  }

  /** `byte(x >> shift)` of a uint32. */
  function ByteAt(x: nat, unit: nat): Byte
    requires unit > 0
  {
    x / unit % 0x100
  }

  /** A byte of a number is a byte of the number cut to 32 bits. */
  lemma DigitOfCut(n: nat, unit: nat, k: nat)
    requires unit > 0 && k > 0 && unit * k == TWO32 && k % 0x100 == 0
    ensures ByteAt(n % TWO32, unit) == ByteAt(n, unit)
  {
    TwoDigits(n, unit, k);
    DivModUnique(n % TWO32, unit, n / unit % k, n % unit);
    ModOfMod(n / unit, 0x100, k);
  }

  lemma Digits(n: nat)
    ensures BE24(n) == [ByteAt(n, 0x1_0000), ByteAt(n, 0x100), ByteAt(n, 1)]
    ensures BE32(n) == [ByteAt(n, TWO24)] + BE24(n)
  {
    assert n / 0x1_0000 / 0x100 == n / TWO24;
  }

  lemma CutsTo32(n: nat)
    ensures BE24(n % TWO32) == BE24(n) && BE32(n % TWO32) == BE32(n)
  {
    hide ByteAt, BE24, BE32;
    Digits(n);
    Digits(n % TWO32);
    DigitOfCut(n, 1, TWO32);
    DigitOfCut(n, 0x100, TWO24);
    DigitOfCut(n, 0x1_0000, 0x1_0000);
    DigitOfCut(n, TWO24, 0x100);
  }

  /** uint32 arithmetic on the size changes no byte of either size field. */
  lemma SizeFields(n: nat)
    ensures BE24(n % TWO32) == BE24(n)
    ensures BE32((11 + n % TWO32) % TWO32) == BE32(11 + n)
  {
    hide BE24, BE32;
    CutsTo32(n);
    CutsTo32(11 + n);
    CutsTo32(11 + n % TWO32);
    assert (11 + n % TWO32) % TWO32 == (11 + n) % TWO32;
  }

  /** Append to a caller's buffer; sizes are uint32. */
  method AppendTag(dst: seq<Byte>, tagType: Byte, timestamp: nat, payload: seq<Byte>) returns (r: seq<Byte>)
    ensures r == dst + TagBytes(Tag(tagType, timestamp, payload))
  {
    hide ByteAt, BE24, BE32;
    ghost var t := Tag(tagType, timestamp, payload);
    var size := |payload| % TWO32;
    r := dst + [
      tagType,
      ByteAt(size, 0x1_0000), ByteAt(size, 0x100), ByteAt(size, 1),
      ByteAt(timestamp, 0x1_0000), ByteAt(timestamp, 0x100), ByteAt(timestamp, 1),
      ByteAt(timestamp, TWO24),
      0, 0, 0];
    SizeFields(|payload|);
    Digits(size);
    Digits(timestamp);
    HeaderDigits(t);
    assert r == dst + TagHeader(t);
    r := r + payload;
    var prev := (11 + size) % TWO32;
    Digits(prev);
    r := r + [ByteAt(prev, TWO24), ByteAt(prev, 0x1_0000), ByteAt(prev, 0x100), ByteAt(prev, 1)];
  }

  lemma HeaderDigits(t: Tag)
    ensures TagHeader(t) == [t.kind] + BE24(|t.data|) + BE24(t.timestamp) + [ByteAt(t.timestamp, TWO24)] + [0, 0, 0]
  {}

  /** The same bytes by index into an allocated buffer. */
  method TagArray(t: Tag) returns (result: array<Byte>)
    ensures fresh(result) && result[..] == TagBytes(t)
  {
    hide ByteAt, BE24, BE32, TagHeader;
    var n := |t.data|;
    result := new Byte[11 + n + 4](_ => 0);
    FillHeader(result, t);
    ghost var one := result[..];
    CopyInto(result, 11, t.data);
    ghost var two := result[..];
    var prevSize := (11 + n) % TWO32;
    CutsTo32(11 + n);
    CopyInto(result, 11 + n, BE32(prevSize));
    Pieces(one, two, result[..], TagHeader(t), t.data, BE32(11 + n));
  }

  /** Three fields written one after another into the same buffer. */
  lemma Pieces(one: seq<Byte>, two: seq<Byte>, three: seq<Byte>, a: seq<Byte>, b: seq<Byte>, c: seq<Byte>)
    requires |one| == |two| == |three| == |a| + |b| + |c|
    requires one[..|a|] == a
    requires two[..|a|] == one[..|a|] && two[|a|..|a| + |b|] == b
    requires three[..|a| + |b|] == two[..|a| + |b|] && three[|a| + |b|..|a| + |b| + |c|] == c
    ensures three == a + b + c
  {
    assert two[..|a| + |b|] == two[..|a|] + two[|a|..|a| + |b|];
    assert three == three[..|a| + |b|] + three[|a| + |b|..];
  }

  method FillHeader(result: array<Byte>, t: Tag)
    requires result.Length >= 11
    modifies result
    ensures result[..11] == TagHeader(t)
  {
    hide ByteAt, BE24, BE32;
    var dataSize := |t.data| % TWO32;
    result[0] := t.kind;
    result[1], result[2], result[3] := ByteAt(dataSize, 0x1_0000), ByteAt(dataSize, 0x100), ByteAt(dataSize, 1);
    result[4], result[5] := ByteAt(t.timestamp, 0x1_0000), ByteAt(t.timestamp, 0x100);
    result[6] := ByteAt(t.timestamp, 1);
    result[7] := ByteAt(t.timestamp, TWO24);
    result[8], result[9], result[10] := 0, 0, 0;
    SizeFields(|t.data|);
    Digits(dataSize);
    Digits(t.timestamp);
    HeaderDigits(t);
  }

  /** `copy(a[off:], data)`, with room for all of it. */
  method CopyInto(a: array<Byte>, off: nat, data: seq<Byte>)
    requires off + |data| <= a.Length
    modifies a
    ensures a[..off] == old(a[..off]) && a[off..off + |data|] == data
    ensures a[off + |data|..] == old(a[off + |data|..])
  {
    for k := 0 to |data|
      invariant forall j :: 0 <= j < k ==> a[off + j] == data[j]
      invariant forall j :: 0 <= j < a.Length && !(off <= j < off + k) ==> a[j] == old(a[j])
    {
      a[off + k] := data[k];
    }
  }

  method HeaderArray(hasAudio: bool, hasVideo: bool) returns (header: array<Byte>)
    ensures fresh(header) && header[..] == HeaderBytes(hasAudio, hasVideo)
  {
    hide ByteAt, BE24, BE32;
    header := new Byte[9](_ => 0);
    header[0], header[1], header[2], header[3] := 70, 76, 86, 1;
    var flags: Byte := 0;
    if hasAudio { flags := flags + 4; }
    if hasVideo { flags := flags + 1; }
    header[4] := flags;
    header[5], header[6], header[7], header[8] := ByteAt(9, TWO24), ByteAt(9, 0x1_0000), ByteAt(9, 0x100), ByteAt(9, 1);
    Digits(9);
  }

  // ----- reading forward ----------------------------------------------------------------------

  datatype Cut = Cut(tag: Tag, rest: seq<Byte>) | Malformed

  function ReadTag(s: seq<Byte>): (c: Cut)
    ensures c.Cut? ==> |c.rest| < |s|
  {
    if |s| < 11 then Malformed
    else
      var n := FromBE24(s[1..4]);
      if |s| < 15 + n || s[8..11] != [0, 0, 0] || FromBE32(s[11 + n..15 + n]) != 11 + n then Malformed
      else
        var high: int := s[7];
        Cut(Tag(s[0], TWO24 * high + FromBE24(s[4..7]), s[11..11 + n]), s[15 + n..])
  }

  function ReadTags(s: seq<Byte>): Option<seq<Tag>> {
    if s == [] then Some([])
    else
      match ReadTag(s)
      case Malformed => None
      case Cut(t, rest) =>
        match ReadTags(rest)
        case None => None
        case Some(ts) => Some([t] + ts)
  }

  datatype File = File(hasAudio: bool, hasVideo: bool, tags: seq<Tag>)

  function ReadFile(s: seq<Byte>): Option<File> {
    if |s| < 13 || s[..4] != [70, 76, 86, 1] || s[5..9] != BE32(9) || s[9..13] != BE32(0) then None
    else
      match ReadTags(s[13..])
      case None => None
      case Some(tags) => Some(File(s[4] / 4 % 2 == 1, s[4] % 2 == 1, tags))
  }

  /** A 24-bit size field and a 32-bit timestamp can say this tag. */
  predicate Sayable(t: Tag) {
    t.timestamp < TWO32 && |t.data| < TWO24
  }

  lemma ReadsBack(t: Tag, rest: seq<Byte>)
    requires Sayable(t)
    ensures ReadTag(TagBytes(t) + rest) == Cut(t, rest)
  {
    hide BE24, BE32, FromBE24, FromBE32;
    var s, n := TagBytes(t) + rest, |t.data|;
    assert s[1..4] == BE24(n) && s[4..7] == BE24(t.timestamp) && s[8..11] == [0, 0, 0];
    assert s[11..11 + n] == t.data && s[11 + n..15 + n] == BE32(11 + n) && s[15 + n..] == rest;
    RoundTripBE24(n);
    RoundTripBE24(t.timestamp);
    RoundTripBE32(11 + n);
    TwoDigits(t.timestamp, TWO24, 0x100);
  }

  lemma {:induction false} TagsReadBack(tags: seq<Tag>)
    requires forall t :: t in tags ==> Sayable(t)
    ensures ReadTags(TagsBytes(tags)) == Some(tags)
  {
    hide ReadTag, TagBytes;
    if tags == [] {
      assert TagsBytes(tags) == [];
    } else {
      ReadsBack(tags[0], TagsBytes(tags[1..]));
      TagsReadBack(tags[1..]);
      assert [tags[0]] + tags[1..] == tags;
    }
  }

  lemma {:induction false} OnlySayable(s: seq<Byte>)
    ensures ReadTags(s).Some? ==> forall t :: t in ReadTags(s).value ==> Sayable(t)
    decreases |s|
  {
    var c := ReadTag(s);
    if s != [] && c.Cut? { OnlySayable(c.rest); }
  }

  /** Header, zero, tags: a reader gets the flags and tags back iff every tag is sayable. */
  lemma FileReadsBackIff(hasAudio: bool, hasVideo: bool, tags: seq<Tag>)
    ensures ReadFile(Prologue(hasAudio, hasVideo) + TagsBytes(tags)) == Some(File(hasAudio, hasVideo, tags))
       <==> forall t :: t in tags ==> Sayable(t)
  {
    hide ReadTags, TagsBytes, BE32;
    var s := Prologue(hasAudio, hasVideo) + TagsBytes(tags);
    assert s[13..] == TagsBytes(tags);
    assert s[..4] == [70, 76, 86, 1] && s[5..9] == BE32(9) && s[9..13] == BE32(0);
    if forall t :: t in tags ==> Sayable(t) {
      TagsReadBack(tags);
    } else {
      OnlySayable(TagsBytes(tags));
    }
  }

  // ----- reading backward -----------------------------------------------------------------------

  /** From the end, by the trailing sizes, until the zero that opens the body. */
  function WalkBack(body: seq<Byte>): Option<seq<seq<Byte>>>
    decreases |body|
  {
    if |body| < 4 then None
    else
      var size := FromBE32(body[|body| - 4..]);
      if size == 0 then if |body| == 4 then Some([]) else None
      else if |body| < size + 4 then None
      else
        var end := |body| - 4;
        match WalkBack(body[..end - size])
        case None => None
        case Some(units) => Some(units + [body[end - size..end]])
  }

  function TagUnits(tags: seq<Tag>): seq<seq<Byte>> {
    seq(|tags|, i requires 0 <= i < |tags| => Unit(tags[i]))
  }

  lemma {:induction false} TagsSnoc(tags: seq<Tag>, t: Tag)
    ensures TagsBytes(tags + [t]) == TagsBytes(tags) + TagBytes(t)
  {
    hide TagBytes;
    if tags == [] {
      assert (tags + [t])[1..] == [];
    } else {
      TagsSnoc(tags[1..], t);
      assert (tags + [t])[1..] == tags[1..] + [t];
    }
  }

  lemma {:induction false} WalksBack(tags: seq<Tag>)
    requires forall t :: t in tags ==> 11 + |t.data| < TWO32
    ensures WalkBack(BE32(0) + TagsBytes(tags)) == Some(TagUnits(tags))
    decreases |tags|
  {
    hide TagsBytes, Unit, BE32, FromBE32;
    if tags == [] {
      NothingToWalk();
      assert TagUnits(tags) == [];
    } else {
      var init, t := tags[..|tags| - 1], tags[|tags| - 1];
      assert tags == init + [t];
      TagsSnoc(init, t);
      WalksBack(init);
      WalkOne(BE32(0) + TagsBytes(init), t);
      assert BE32(0) + TagsBytes(tags) == BE32(0) + TagsBytes(init) + TagBytes(t);
      assert TagUnits(tags) == TagUnits(init) + [Unit(t)];
    }
  }

  lemma NothingToWalk()
    ensures WalkBack(BE32(0) + TagsBytes([])) == Some([])
  {
    assert BE32(0) + TagsBytes([]) == BE32(0);
    assert BE32(0)[0..] == BE32(0);
    RoundTripBE32(0);
  }

  lemma WalkOne(body: seq<Byte>, t: Tag)
    requires 11 + |t.data| < TWO32
    ensures WalkBack(body + TagBytes(t)) == match WalkBack(body)
      case None => None
      case Some(units) => Some(units + [Unit(t)])
  {
    hide TagHeader, BE32, FromBE32;
    var whole, size := body + TagBytes(t), 11 + |t.data|;
    var end := |whole| - 4;
    assert whole[end..] == BE32(size) && whole[end - size..end] == Unit(t) && whole[..end - size] == body;
    RoundTripBE32(size);
  }

  lemma {:induction false} StepsFit(body: seq<Byte>)
    ensures WalkBack(body).Some? ==> forall u :: u in WalkBack(body).value ==> |u| < TWO32
    decreases |body|
  {
    hide FromBE32;
    if |body| >= 4 {
      var size := FromBE32(body[|body| - 4..]);
      if 0 < size <= |body| - 4 {
        StepsFit(body[..|body| - 4 - size]);
      }
    }
  }

  /** The trailing sizes lead back over every tag to the opening zero iff each fits 32 bits. */
  lemma WalksBackIff(tags: seq<Tag>)
    ensures WalkBack(BE32(0) + TagsBytes(tags)) == Some(TagUnits(tags))
       <==> forall t :: t in tags ==> 11 + |t.data| < TWO32
  {
    hide WalkBack, TagsBytes;
    if forall t :: t in tags ==> 11 + |t.data| < TWO32 {
      WalksBack(tags);
    } else {
      var i :| 0 <= i < |tags| && 11 + |tags[i].data| >= TWO32;
      assert TagUnits(tags)[i] == Unit(tags[i]);
      StepsFit(BE32(0) + TagsBytes(tags));
    }
  }
}
