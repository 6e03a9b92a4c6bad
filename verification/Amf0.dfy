/**
 AMF0 values on the wire (AMF 0 specification, sections 2.2 to 2.11). Objects are maps, so the
 encoder emits their fields in whatever order the map yields: a `Wire` is a value together with
 one such order at every object.
 */
module Amf0 {
  import opened Bytes
  import opened Chunks

  type Str = seq<Byte>

  /** A float64 as its eight bytes. */
  type Double = s: seq<Byte> | |s| == 8 witness [0, 0, 0, 0, 0, 0, 0, 0]

  const NUMBER := 0
  const BOOLEAN := 1
  const STRING := 2
  const OBJECT := 3
  const NULL := 5
  const ECMA_ARRAY := 8
  const OBJECT_END := 9
  const STRICT_ARRAY := 10

  datatype Value =
    | Number(bits: Double)
    | Boolean(b: bool)
    | String(s: Str)
    | Null
    | Object(fields: map<Str, Value>)
    | Array(items: seq<Value>)

  datatype Wire =
    | WNumber(bits: Double)
    | WBoolean(b: bool)
    | WString(s: Str)
    | WNull
    | WObject(fields: Fields)
    | WArray(items: Items)

  datatype Fields = End | Field(key: Str, value: Wire, rest: Fields)

  datatype Items = Nil | Cons(head: Wire, tail: Items)

  // ----- forgetting the order -----------------------------------------------------------------

  function ValueOf(w: Wire): Value {
    match w
    case WNumber(bits) => Number(bits)
    case WBoolean(b) => Boolean(b)
    case WString(s) => String(s)
    case WNull => Null
    case WObject(f) => Object(MapOf(f))
    case WArray(items) => Array(ValuesOf(items))
  }

  function MapOf(f: Fields): map<Str, Value> {
    match f
    case End => map[]
    case Field(k, v, rest) => map[k := ValueOf(v)] + MapOf(rest)
  }

  function ValuesOf(items: Items): seq<Value> {
    match items
    case Nil => []
    case Cons(w, rest) => [ValueOf(w)] + ValuesOf(rest)
  }

  /** A map yields each key once. */
  predicate Ordered(w: Wire) {
    match w
    case WObject(f) => OrderedFields(f)
    case WArray(items) => OrderedItems(items)
    case _ => true
  }

  predicate OrderedFields(f: Fields) {
    f.Field? ==> f.key !in MapOf(f.rest) && Ordered(f.value) && OrderedFields(f.rest)
  }

  predicate OrderedItems(items: Items) {
    items.Cons? ==> Ordered(items.head) && OrderedItems(items.tail)
  }

  // ----- encoding --------------------------------------------------------------------------------

  function Encode(w: Wire): (s: seq<Byte>)
    ensures s != []
  {
    match w
    case WNumber(bits) => [NUMBER] + bits
    case WBoolean(b) => [BOOLEAN, if b then 1 else 0]
    case WString(s) => [STRING] + BE16(|s|) + s
    case WNull => [NULL]
    case WObject(f) => [OBJECT] + Body(f) + BE16(0) + [OBJECT_END]
    case WArray(items) => [STRICT_ARRAY] + BE32(Length(items)) + EncodeItems(items)
  }

  /** Key length cut to sixteen bits, key, value, for each field in order. */
  function Body(f: Fields): seq<Byte> {
    match f
    case End => []
    case Field(k, v, rest) => BE16(|k|) + k + Encode(v) + Body(rest)
  }

  function EncodeItems(items: Items): seq<Byte> {
    match items
    case Nil => []
    case Cons(w, rest) => Encode(w) + EncodeItems(rest)
  }

  function Length(items: Items): nat {
    match items
    case Nil => 0
    case Cons(_, rest) => 1 + Length(rest)
  }

  // ----- decoding --------------------------------------------------------------------------------

  datatype Error = Io(io: IoError) | UnexpectedType | InvalidData

  datatype Decoded<+T> = Ok(value: T, rest: seq<Byte>) | Err(error: Error)

  function DecodeString(input: seq<Byte>): (r: Decoded<Str>)
    ensures r.Ok? ==> |r.rest| < |input| && |r.value| <= 65535
  {
    if |input| < 2 then Err(Io(Short(input)))
    else
      var n := FromBE16(input[..2]);
      if |input| - 2 < n then Err(Io(Short(input[2..])))
      else Ok(input[2..2 + n], input[2 + n..])
  }

  function Decode(input: seq<Byte>): (r: Decoded<Value>)
    ensures r.Ok? ==> |r.rest| < |input|
    decreases |input|, 0
  {
    if input == [] then Err(Io(EOF))
    else
      var after := input[1..];
      match input[0]
      case 0 => if |after| < 8 then Err(Io(Short(after))) else Ok(Number(after[..8]), after[8..])
      case 1 => if after == [] then Err(Io(EOF)) else Ok(Boolean(after[0] != 0), after[1..])
      case 2 =>
        (match DecodeString(after)
         case Ok(s, rest) => Ok(String(s), rest)
         case Err(e) => Err(e))
      case 3 => AsObject(DecodeFields(after, map[]))
      case 5 => Ok(Null, after)
      case 6 => Ok(Null, after)
      case 8 => if |after| < 4 then Err(Io(Short(after))) else AsObject(DecodeFields(after[4..], map[]))
      case _ => Err(UnexpectedType)
  }

  function AsObject(d: Decoded<map<Str, Value>>): Decoded<Value> {
    match d
    case Ok(m, rest) => Ok(Object(m), rest)
    case Err(e) => Err(e)
  }

  /** The field loop; an empty key announces the end marker. */
  function DecodeFields(input: seq<Byte>, acc: map<Str, Value>): (r: Decoded<map<Str, Value>>)
    ensures r.Ok? ==> |r.rest| < |input|
    decreases |input|, 1
  {
    match DecodeString(input)
    case Err(e) => Err(e)
    case Ok(key, rest) =>
      if key == [] then
        if rest == [] then Err(Io(EOF))
        else if rest[0] != OBJECT_END then Err(InvalidData)
        else Ok(acc, rest[1..])
      else
        match Decode(rest)
        case Err(e) => Err(e)
        case Ok(v, rest') => DecodeFields(rest', acc[key := v])
  }

  // ----- what survives the trip --------------------------------------------------------------------

  predicate Fits(w: Wire) {
    match w
    case WString(s) => |s| <= 65535
    case WObject(f) => FitsFields(f)
    case WArray(_) => false
    case _ => true
  }

  predicate FitsFields(f: Fields) {
    f.Field? ==> 1 <= |f.key| <= 65535 && Fits(f.value) && FitsFields(f.rest)
  }

  /** The same condition on the value itself, whatever the order. */
  ghost predicate Representable(v: Value) {
    match v
    case String(s) => |s| <= 65535
    case Object(fields) => forall k :: k in fields ==> 1 <= |k| <= 65535 && Representable(fields[k])
    case Array(_) => false
    case _ => true
  }

  lemma StringRoundTrip(s: Str, suffix: seq<Byte>)
    requires |s| <= 65535
    ensures DecodeString(BE16(|s|) + s + suffix) == Ok(s, suffix)
  {
    var input := BE16(|s|) + s + suffix;
    RoundTripBE16(|s|);
    assert input[..2] == BE16(|s|);
    assert input[2..2 + |s|] == s && input[2 + |s|..] == suffix;
  }

  // One unfolding of the decoder for each form of value.

  lemma DecodesNumber(bits: Double, suffix: seq<Byte>)
    ensures Decode([NUMBER] + bits + suffix) == Ok(Number(bits), suffix)
  {
    hide DecodeFields, DecodeString;
    var input := [NUMBER] + bits + suffix;
    assert input[1..] == bits + suffix;
  }

  lemma DecodesBoolean(b: bool, suffix: seq<Byte>)
    ensures Decode([BOOLEAN, if b then 1 else 0] + suffix) == Ok(Boolean(b), suffix)
  {
    hide DecodeFields, DecodeString;
    var input := [BOOLEAN, if b then 1 else 0] + suffix;
    assert input[1..] == [if b then 1 else 0] + suffix;
  }

  lemma DecodesString(s: Str, suffix: seq<Byte>)
    requires |s| <= 65535
    ensures Decode([STRING] + (BE16(|s|) + s + suffix)) == Ok(String(s), suffix)
  {
    hide DecodeFields, DecodeString;
    var input := [STRING] + (BE16(|s|) + s + suffix);
    assert input[1..] == BE16(|s|) + s + suffix;
    StringRoundTrip(s, suffix);
  }

  lemma DecodesNull(suffix: seq<Byte>)
    ensures Decode([NULL] + suffix) == Ok(Null, suffix)
  {
    hide DecodeFields, DecodeString;
    assert ([NULL] + suffix)[1..] == suffix;
  }

  lemma DecodesObject(more: seq<Byte>)
    ensures Decode([OBJECT] + more) == AsObject(DecodeFields(more, map[]))
  {
    hide DecodeFields, DecodeString;
    assert ([OBJECT] + more)[1..] == more;
  }

  lemma DecodesEnd(acc: map<Str, Value>, suffix: seq<Byte>)
    ensures DecodeFields(BE16(0) + [OBJECT_END] + suffix, acc) == Ok(acc, suffix)
  {
    hide Decode, DecodeString;
    var after := [OBJECT_END] + suffix;
    StringRoundTrip([], after);
    assert BE16(0) + [OBJECT_END] + suffix == BE16(0) + [] + after;
    assert after[1..] == suffix;
  }

  lemma DecodesField(key: Str, input: seq<Byte>, acc: map<Str, Value>)
    requires 1 <= |key| <= 65535
    ensures DecodeFields(BE16(|key|) + key + input, acc)
            == match Decode(input)
               case Err(e) => Err(e)
               case Ok(v, rest) => DecodeFields(rest, acc[key := v])
  {
    hide Decode, DecodeString;
    StringRoundTrip(key, input);
  }

  lemma BodyUnfolds(f: Fields, tail: seq<Byte>)
    requires f.Field?
    ensures Body(f) + tail == BE16(|f.key|) + f.key + (Encode(f.value) + (Body(f.rest) + tail))
  {
    hide Encode, BE16;
  }

  lemma MapUnfolds(f: Fields, acc: map<Str, Value>)
    requires f.Field?
    ensures acc[f.key := ValueOf(f.value)] + MapOf(f.rest) == acc + MapOf(f)
  {
    hide ValueOf;
  }

  /** Decoding an encoded value returns it and leaves exactly what follows. */
  lemma {:induction false} RoundTrip(w: Wire, suffix: seq<Byte>)
    requires Fits(w)
    ensures Decode(Encode(w) + suffix) == Ok(ValueOf(w), suffix)
    decreases w, 0
  {
    hide Decode, DecodeFields, Body;
    match w {
      case WNumber(bits) => DecodesNumber(bits, suffix);
      case WBoolean(b) => DecodesBoolean(b, suffix);
      case WString(s) =>
        assert Encode(w) + suffix == [STRING] + (BE16(|s|) + s + suffix);
        DecodesString(s, suffix);
      case WNull => DecodesNull(suffix);
      case WObject(f) =>
        var more := Body(f) + (BE16(0) + [OBJECT_END] + suffix);
        assert Encode(w) + suffix == [OBJECT] + more;
        DecodesObject(more);
        FieldsRoundTrip(f, map[], suffix);
        assert map[] + MapOf(f) == MapOf(f);
    }
  }

  lemma {:induction false} FieldsRoundTrip(f: Fields, acc: map<Str, Value>, suffix: seq<Byte>)
    requires FitsFields(f)
    ensures DecodeFields(Body(f) + (BE16(0) + [OBJECT_END] + suffix), acc) == Ok(acc + MapOf(f), suffix)
    decreases f, 1
  {
    hide Decode, DecodeFields, Encode, BE16;
    var tail := BE16(0) + [OBJECT_END] + suffix;
    match f {
      case End =>
        assert Body(f) + tail == tail;
        DecodesEnd(acc, suffix);
        assert acc + map[] == acc;
      case Field(k, v, rest) =>
        var more := Body(rest) + tail;
        BodyUnfolds(f, tail);
        DecodesField(k, Encode(v) + more, acc);
        RoundTrip(v, more);
        FieldsRoundTrip(rest, acc[k := ValueOf(v)], suffix);
        MapUnfolds(f, acc);
    }
  }

  /** Whatever the bytes, the decoder only ever produces representable values. */
  lemma {:induction false} DecodesRepresentable(input: seq<Byte>)
    ensures Decode(input).Ok? ==> Representable(Decode(input).value)
    decreases |input|, 0
  {
    if input != [] {
      var after := input[1..];
      if input[0] == OBJECT {
        FieldsRepresentable(after, map[]);
      } else if input[0] == ECMA_ARRAY && |after| >= 4 {
        FieldsRepresentable(after[4..], map[]);
      }
    }
  }

  lemma {:induction false} FieldsRepresentable(input: seq<Byte>, acc: map<Str, Value>)
    requires Representable(Object(acc))
    ensures var r := DecodeFields(input, acc); r.Ok? ==> Representable(Object(r.value))
    decreases |input|, 1
  {
    var d := DecodeString(input);
    if d.Ok? && d.value != [] {
      DecodesRepresentable(d.rest);
      var r := Decode(d.rest);
      if r.Ok? {
        FieldsRepresentable(r.rest, acc[d.value := r.value]);
      }
    }
  }

  lemma {:induction false} RepresentableFits(w: Wire)
    requires Ordered(w) && Representable(ValueOf(w))
    ensures Fits(w)
    decreases w, 0
  {
    if w.WObject? { RepresentableFitsFields(w.fields); }
  }

  lemma {:induction false} RepresentableFitsFields(f: Fields)
    requires OrderedFields(f) && Representable(Object(MapOf(f)))
    ensures FitsFields(f)
    decreases f, 1
  {
    if f.Field? {
      assert f.key in MapOf(f) && MapOf(f)[f.key] == ValueOf(f.value);
      RepresentableFits(f.value);
      forall k | k in MapOf(f.rest) ensures 1 <= |k| <= 65535 && Representable(MapOf(f.rest)[k]) {
        assert MapOf(f)[k] == MapOf(f.rest)[k];
      }
      RepresentableFitsFields(f.rest);
    }
  }

  /** Decoding an encoded value, in any key order and before any suffix, returns the value and the
      suffix iff every string and key fits sixteen bits, no key is empty and there is no array. */
  lemma RoundTripIff(w: Wire, suffix: seq<Byte>)
    requires Ordered(w)
    ensures Decode(Encode(w) + suffix) == Ok(ValueOf(w), suffix) <==> Representable(ValueOf(w))
  {
    DecodesRepresentable(Encode(w) + suffix);
    if Representable(ValueOf(w)) {
      RepresentableFits(w);
      RoundTrip(w, suffix);
    }
  }
}
