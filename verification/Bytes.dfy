/** Fixed-width integers on the wire. A Go conversion `byte(x >> k)` is written out with `%`. */
module Bytes {
  import opened Bits

  type Byte = b: int | 0 <= b < 256

  function BE16(n: nat): (s: seq<Byte>)
    ensures |s| == 2
  {
    [n / 0x100 % 0x100, n % 0x100]
  }

  function BE24(n: nat): (s: seq<Byte>)
    ensures |s| == 3
  {
    [n / 0x1_0000 % 0x100] + BE16(n)
  }

  function BE32(n: nat): (s: seq<Byte>)
    ensures |s| == 4
  {
    BE16(n / 0x1_0000) + BE16(n)
  }

  function LE32(n: nat): (s: seq<Byte>)
    ensures |s| == 4
  {
    var b := BE32(n);
    [b[3], b[2], b[1], b[0]]
  }

  function FromBE16(s: seq<Byte>): (n: nat)
    requires |s| == 2
    ensures n < 0x1_0000
  {
    var a: int, b: int := s[0], s[1];
    0x100 * a + b
  }

  function FromBE24(s: seq<Byte>): (n: nat)
    requires |s| == 3
    ensures n < TWO24
  {
    var a: int := s[0];
    0x1_0000 * a + FromBE16(s[1..])
  }

  function FromBE32(s: seq<Byte>): (n: nat)
    requires |s| == 4
    ensures n < TWO32
  {
    0x1_0000 * FromBE16(s[..2]) + FromBE16(s[2..])
  }

  function FromLE32(s: seq<Byte>): (n: nat)
    requires |s| == 4
    ensures n < TWO32
  {
    FromBE32([s[3], s[2], s[1], s[0]])
  }

  // Reading back a fixed-width field yields the value cut to that width.

  lemma RoundTripBE16(n: nat)
    ensures FromBE16(BE16(n)) == n % 0x1_0000
  {
    TwoDigits(n, 0x100, 0x100);
  }

  lemma RoundTripBE24(n: nat)
    ensures FromBE24(BE24(n)) == n % TWO24
  {
    TwoDigits(n, 0x1_0000, 0x100);
    RoundTripBE16(n);
    assert BE24(n)[1..] == BE16(n);
  }

  lemma RoundTripBE32(n: nat)
    ensures FromBE32(BE32(n)) == n % TWO32
  {
    TwoDigits(n, 0x1_0000, 0x1_0000);
    RoundTripBE16(n / 0x1_0000);
    RoundTripBE16(n);
    assert BE32(n)[..2] == BE16(n / 0x1_0000) && BE32(n)[2..] == BE16(n);
  }

  lemma RoundTripLE32(n: nat)
    ensures FromLE32(LE32(n)) == n % TWO32
  {
    RoundTripBE32(n);
    var s := LE32(n);
    assert [s[3], s[2], s[1], s[0]] == BE32(n);
  }
}
