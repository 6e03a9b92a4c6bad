/**
 AMF0 commands: values one after another. The decoder is incremental, on every input: more bytes
 change neither a value already decoded nor a rejection, they can only end a shortage. That is
 what makes a truncated command decode to its whole values.
 */
module Amf0Command {
  import opened Bytes
  import opened Chunks
  import opened Amf0

  // ----- more input -----------------------------------------------------------------------------

  /** `more` is what `less` turns into when `q` is appended to the input. */
  ghost predicate Extends<T>(less: Decoded<T>, more: Decoded<T>, q: seq<Byte>) {
    match less
    case Ok(v, rest) => more == Ok(v, rest + q)
    case Err(e) => e.Io? || more == less
  }

  lemma StringExtends(p: seq<Byte>, q: seq<Byte>)
    ensures Extends(DecodeString(p), DecodeString(p + q), q)
  {
    if |p| >= 2 {
      assert (p + q)[..2] == p[..2];
      var n := FromBE16(p[..2]);
      if |p| - 2 >= n {
        assert (p + q)[2..2 + n] == p[2..2 + n] && (p + q)[2 + n..] == p[2 + n..] + q;
      }
    }
  }

  lemma {:induction false} DecodeExtends(p: seq<Byte>, q: seq<Byte>)
    ensures Extends(Decode(p), Decode(p + q), q)
    decreases |p|, 0
  {
    if p != [] {
      var after := p[1..];
      assert (p + q)[1..] == after + q;
      if p[0] == OBJECT {
        FieldsExtend(after, map[], q);
        ObjectExtends(p, after, q);
      } else if p[0] == ECMA_ARRAY {
        if |after| >= 4 {
          assert (after + q)[4..] == after[4..] + q;
          FieldsExtend(after[4..], map[], q);
        }
        EcmaArrayExtends(p, after, q);
      } else {
        ScalarExtends(p, q);
      }
    }
  }

  lemma ObjectExtends(p: seq<Byte>, after: seq<Byte>, q: seq<Byte>)
    requires p != [] && p[0] == OBJECT && after == p[1..]
    requires Extends(DecodeFields(after, map[]), DecodeFields(after + q, map[]), q)
    ensures Extends(Decode(p), Decode(p + q), q)
  {
    hide DecodeFields, DecodeString;
    assert (p + q)[1..] == after + q;
  }

  lemma EcmaArrayExtends(p: seq<Byte>, after: seq<Byte>, q: seq<Byte>)
    requires p != [] && p[0] == ECMA_ARRAY && after == p[1..]
    requires |after| >= 4 ==> Extends(DecodeFields(after[4..], map[]), DecodeFields(after[4..] + q, map[]), q)
    ensures Extends(Decode(p), Decode(p + q), q)
  {
    hide DecodeFields, DecodeString;
    assert (p + q)[1..] == after + q;
    if |after| >= 4 {
      assert (after + q)[4..] == after[4..] + q;
    }
  }

  lemma ScalarExtends(p: seq<Byte>, q: seq<Byte>)
    requires p != [] && p[0] != OBJECT && p[0] != ECMA_ARRAY
    ensures Extends(Decode(p), Decode(p + q), q)
  {
    hide Decode, DecodeFields, DecodeString;
    if p[0] == NUMBER {
      NumberExtends(p, q);
    } else if p[0] == BOOLEAN {
      BooleanExtends(p, q);
    } else if p[0] == STRING {
      StringValueExtends(p, q);
    } else {
      MarkerExtends(p, q);
    }
  }

  lemma NumberExtends(p: seq<Byte>, q: seq<Byte>)
    requires p != [] && p[0] == NUMBER
    ensures Extends(Decode(p), Decode(p + q), q)
  {
    hide DecodeFields, DecodeString;
    var after := p[1..];
    assert (p + q)[1..] == after + q;
    if |after| >= 8 {
      assert (after + q)[..8] == after[..8] && (after + q)[8..] == after[8..] + q;
    }
  }

  lemma BooleanExtends(p: seq<Byte>, q: seq<Byte>)
    requires p != [] && p[0] == BOOLEAN
    ensures Extends(Decode(p), Decode(p + q), q)
  {
    hide DecodeFields, DecodeString;
    var after := p[1..];
    assert (p + q)[1..] == after + q;
    if after != [] {
      assert (after + q)[1..] == after[1..] + q;
    }
  }

  lemma StringValueExtends(p: seq<Byte>, q: seq<Byte>)
    requires p != [] && p[0] == STRING
    ensures Extends(Decode(p), Decode(p + q), q)
  {
    hide DecodeFields, DecodeString;
    assert (p + q)[1..] == p[1..] + q;
    StringExtends(p[1..], q);
  }

  /** A marker that stands for itself, or for nothing. */
  lemma MarkerExtends(p: seq<Byte>, q: seq<Byte>)
    requires p != [] && p[0] !in {NUMBER, BOOLEAN, STRING, OBJECT, ECMA_ARRAY}
    ensures Extends(Decode(p), Decode(p + q), q)
  {
    hide DecodeFields, DecodeString;
    assert (p + q)[1..] == p[1..] + q;
  }

  lemma {:induction false} FieldsExtend(p: seq<Byte>, acc: map<Str, Value>, q: seq<Byte>)
    ensures Extends(DecodeFields(p, acc), DecodeFields(p + q, acc), q)
    decreases |p|, 1
  {
    hide Decode, DecodeString;
    StringExtends(p, q);
    var d := DecodeString(p);
    if d.Ok? {
      if d.value == [] {
        EndExtends(p, acc, q);
      } else {
        DecodeExtends(d.rest, q);
        var r := Decode(d.rest);
        if r.Ok? {
          FieldsExtend(r.rest, acc[d.value := r.value], q);
        }
      }
    }
  }

  lemma EndExtends(p: seq<Byte>, acc: map<Str, Value>, q: seq<Byte>)
    requires DecodeString(p).Ok? && DecodeString(p).value == []
    ensures Extends(DecodeFields(p, acc), DecodeFields(p + q, acc), q)
  {
    hide Decode, DecodeString;
    StringExtends(p, q);
    var rest := DecodeString(p).rest;
    if rest != [] {
      assert (rest + q)[1..] == rest[1..] + q;
    }
  }

  // ----- commands ---------------------------------------------------------------------------------

  function EncodeCommand(ws: seq<Wire>): seq<Byte> {
    if ws == [] then [] else Encode(ws[0]) + EncodeCommand(ws[1..])
  }

  function CommandOf(ws: seq<Wire>): seq<Value> {
    seq(|ws|, i requires 0 <= i < |ws| => ValueOf(ws[i]))
  }

  datatype Command = Values(values: seq<Value>) | Rejected(error: Error)

  /** Values up to the first error. A shortage is the end of the command; another error rejects it
      only when nothing was decoded before. */
  function DecodeCommand(input: seq<Byte>, acc: seq<Value>): Command
    decreases |input|
  {
    match Decode(input)
    case Ok(v, rest) => DecodeCommand(rest, acc + [v])
    case Err(e) => if e.Io? || |acc| >= 1 then Values(acc) else Rejected(e)
  }

  /** The first `n` bytes of an encoding, short of its end, are a shortage and nothing else. */
  lemma CutValueIsShort(w: Wire, n: nat)
    requires Fits(w) && n < |Encode(w)|
    ensures Decode(Encode(w)[..n]).Err? && Decode(Encode(w)[..n]).error.Io?
  {
    hide Decode, Encode;
    var p, q := Encode(w)[..n], Encode(w)[n..];
    assert p + q == Encode(w) + [];
    DecodeExtends(p, q);
    RoundTrip(w, []);
  }

  lemma {:induction false} CommandPrefixFrom(ws: seq<Wire>, n: nat, k: nat, acc: seq<Value>)
    requires forall w :: w in ws ==> Fits(w)
    requires k <= |ws| && |EncodeCommand(ws[..k])| <= n <= |EncodeCommand(ws)|
    requires k < |ws| ==> n < |EncodeCommand(ws[..k + 1])|
    ensures DecodeCommand(EncodeCommand(ws)[..n], acc) == Values(acc + CommandOf(ws[..k]))
    decreases k
  {
    hide Decode, Encode;
    if k == 0 {
      assert acc + CommandOf(ws[..0]) == acc;
      if ws != [] {
        assert ws[..1] == [ws[0]] && ws[..1][1..] == [];
        assert EncodeCommand(ws[..1]) == Encode(ws[0]) + EncodeCommand(ws[..1][1..]);
        assert EncodeCommand(ws)[..n] == Encode(ws[0])[..n];
        CutValueIsShort(ws[0], n);
      } else {
        EmptyIsShort();
      }
    } else {
      var first, rest := Encode(ws[0]), ws[1..];
      assert ws[..k][1..] == rest[..k - 1];
      if k < |ws| {
        assert ws[..k + 1][1..] == rest[..k];
      }
      var m := n - |first|;
      assert EncodeCommand(ws)[..n] == first + EncodeCommand(rest)[..m];
      RoundTrip(ws[0], EncodeCommand(rest)[..m]);
      CommandPrefixFrom(rest, m, k - 1, acc + [ValueOf(ws[0])]);
      assert acc + [ValueOf(ws[0])] + CommandOf(rest[..k - 1]) == acc + CommandOf(ws[..k]);
    }
  }

  /** Every cut falls after some number of whole values. */
  lemma {:induction false} CutPoint(ws: seq<Wire>, n: nat) returns (k: nat)
    requires n <= |EncodeCommand(ws)|
    ensures k <= |ws| && |EncodeCommand(ws[..k])| <= n
    ensures k < |ws| ==> n < |EncodeCommand(ws[..k + 1])|
  {
    hide Encode;
    k := 0;
    while k < |ws| && |EncodeCommand(ws[..k + 1])| <= n
      invariant k <= |ws| && |EncodeCommand(ws[..k])| <= n
    {
      k := k + 1;
    }
  }

  lemma EmptyIsShort()
    ensures Decode([]) == Err(Io(EOF))
  {}

  /** A command cut after any number of bytes decodes, without error, to exactly the values whose
      encodings lie wholly before the cut. */
  lemma CommandPrefix(ws: seq<Wire>, n: nat, k: nat)
    requires forall w :: w in ws ==> Ordered(w) && Representable(ValueOf(w))
    requires k <= |ws| && |EncodeCommand(ws[..k])| <= n <= |EncodeCommand(ws)|
    requires k < |ws| ==> n < |EncodeCommand(ws[..k + 1])|
    ensures DecodeCommand(EncodeCommand(ws)[..n], []) == Values(CommandOf(ws[..k]))
  {
    forall w | w in ws ensures Fits(w) { RepresentableFits(w); }
    CommandPrefixFrom(ws, n, k, []);
    assert [] + CommandOf(ws[..k]) == CommandOf(ws[..k]);
  }

  lemma {:induction false} CommandsRepresentable(input: seq<Byte>, acc: seq<Value>)
    requires forall v :: v in acc ==> Representable(v)
    ensures var r := DecodeCommand(input, acc); r.Values? ==> forall v :: v in r.values ==> Representable(v)
    decreases |input|
  {
    hide Decode;
    DecodesRepresentable(input);
    var d := Decode(input);
    if d.Ok? { CommandsRepresentable(d.rest, acc + [d.value]); }
  }

  /** Decoding ends on every input: each value has eaten at least one byte. */
  lemma {:induction false} OneBytePerValue(input: seq<Byte>, acc: seq<Value>)
    ensures var r := DecodeCommand(input, acc); r.Values? ==> |r.values| <= |acc| + |input|
    decreases |input|
  {
    hide Decode;
    var d := Decode(input);
    if d.Ok? { OneBytePerValue(d.rest, acc + [d.value]); }
  }

  /** A whole command survives the trip iff each of its values does. */
  lemma CommandRoundTripIff(ws: seq<Wire>)
    requires forall w :: w in ws ==> Ordered(w)
    ensures DecodeCommand(EncodeCommand(ws), []) == Values(CommandOf(ws))
       <==> forall w :: w in ws ==> Representable(ValueOf(w))
  {
    if forall w :: w in ws ==> Representable(ValueOf(w)) {
      assert ws[..|ws|] == ws && EncodeCommand(ws)[..|EncodeCommand(ws)|] == EncodeCommand(ws);
      CommandPrefix(ws, |EncodeCommand(ws)|, |ws|);
    } else {
      var w :| w in ws && !Representable(ValueOf(w));
      var i :| 0 <= i < |ws| && ws[i] == w;
      assert CommandOf(ws)[i] == ValueOf(w);
      CommandsRepresentable(EncodeCommand(ws), []);
    }
  }

  /** On any bytes at all, a longer input decodes to a longer command, or to the same one. */
  lemma {:induction false} LongerInputKeepsValues(p: seq<Byte>, q: seq<Byte>, acc: seq<Value>)
    ensures var less, more := DecodeCommand(p, acc), DecodeCommand(p + q, acc);
            if less.Rejected? then more == less && acc == []
            else (more.Values? && |less.values| <= |more.values| && more.values[..|less.values|] == less.values)
                 || (more.Rejected? && less.values == [])
    decreases |p|
  {
    hide Decode;
    DecodeExtends(p, q);
    var d := Decode(p);
    if d.Ok? {
      LongerInputKeepsValues(d.rest, q, acc + [d.value]);
    } else {
      DecodeGrows(p + q, acc);
    }
  }

  lemma {:induction false} DecodeGrows(input: seq<Byte>, acc: seq<Value>)
    ensures var r := DecodeCommand(input, acc);
            if r.Rejected? then acc == [] else |acc| <= |r.values| && r.values[..|acc|] == acc
    decreases |input|
  {
    hide Decode;
    var d := Decode(input);
    if d.Ok? { DecodeGrows(d.rest, acc + [d.value]); }
  }
}
