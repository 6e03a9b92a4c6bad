/** The AMF0 encoder and decoder as the code has them: loops over a writer and a reader. */
module Amf0Codec {
  import opened Bits
  import opened Bytes
  import opened ChunkParsers
  import opened Amf0
  import opened Amf0Command

  /** An in-memory writer, which accepts everything. */
  class Sink {
    var data: seq<Byte>

    constructor ()
      ensures data == []
    {
      data := [];
    }

    method Write(bytes: seq<Byte>)
      modifies this
      ensures data == old(data) + bytes
    {
      data := data + bytes;
    }
  }

  // ----- encoding -----------------------------------------------------------------------------

  function Snoc(f: Fields, key: Str, value: Wire): Fields {
    match f
    case End => Field(key, value, End)
    case Field(k, v, rest) => Field(k, v, Snoc(rest, key, value))
  }

  function SnocItem(items: Items, w: Wire): Items {
    match items
    case Nil => Cons(w, Nil)
    case Cons(h, t) => Cons(h, SnocItem(t, w))
  }

  lemma {:induction false} SnocBody(f: Fields, key: Str, value: Wire)
    ensures Body(Snoc(f, key, value)) == Body(f) + BE16(|key|) + key + Encode(value)
  {
    hide Encode, BE16;
    if f.Field? { SnocBody(f.rest, key, value); }
  }

  lemma {:induction false} SnocMap(f: Fields, key: Str, value: Wire)
    requires key !in MapOf(f)
    ensures MapOf(Snoc(f, key, value)) == MapOf(f)[key := ValueOf(value)]
  {
    hide ValueOf;
    if f.Field? {
      SnocMap(f.rest, key, value);
    }
  }

  lemma {:induction false} SnocOrdered(f: Fields, key: Str, value: Wire)
    requires OrderedFields(f) && Ordered(value) && key !in MapOf(f)
    ensures OrderedFields(Snoc(f, key, value))
  {
    hide ValueOf, Ordered;
    if f.Field? {
      SnocMap(f.rest, key, value);
      SnocOrdered(f.rest, key, value);
    }
  }

  /** `f` holds the fields met so far, all but those under the keys `todo`. */
  ghost predicate Emitted(f: Fields, fields: map<Str, Value>, todo: set<Str>) {
    && OrderedFields(f)
    && todo <= fields.Keys
    && MapOf(f) == fields - todo
  }

  lemma EmitOne(f: Fields, fields: map<Str, Value>, todo: set<Str>, key: Str, w: Wire)
    requires Emitted(f, fields, todo) && key in todo
    requires ValueOf(w) == fields[key] && Ordered(w)
    ensures Emitted(Snoc(f, key, w), fields, todo - {key})
    ensures Body(Snoc(f, key, w)) == Body(f) + BE16(|key|) + key + Encode(w)
  {
    hide ValueOf, MapOf, Ordered, OrderedFields, Body, Encode, BE16;
    SnocBody(f, key, w);
    SnocMap(f, key, w);
    SnocOrdered(f, key, w);
  }

  lemma EmitNone(fields: map<Str, Value>)
    ensures Emitted(End, fields, fields.Keys) && Body(End) == []
  {}

  lemma EmittedAll(f: Fields, fields: map<Str, Value>)
    requires Emitted(f, fields, {})
    ensures MapOf(f) == fields && OrderedFields(f)
  {
    hide MapOf, OrderedFields;
  }

  lemma {:induction false} SnocItems(items: Items, w: Wire)
    ensures EncodeItems(SnocItem(items, w)) == EncodeItems(items) + Encode(w)
    ensures ValuesOf(SnocItem(items, w)) == ValuesOf(items) + [ValueOf(w)]
    ensures OrderedItems(items) && Ordered(w) ==> OrderedItems(SnocItem(items, w))
    ensures Length(SnocItem(items, w)) == Length(items) + 1
  {
    hide Encode, ValueOf, Ordered;
    if items.Cons? { SnocItems(items.tail, w); }
  }

  lemma {:induction false} LengthOfValues(items: Items)
    ensures Length(items) == |ValuesOf(items)|
  {
    if items.Cons? { LengthOfValues(items.tail); }
  }

  /** Writes `v`; `w` records the order in which the object loops met their keys. */
  method EncodeValue(out: Sink, v: Value) returns (ghost w: Wire)
    modifies out
    ensures ValueOf(w) == v && Ordered(w)
    ensures out.data == old(out.data) + Encode(w)
    decreases v, 1
  {
    match v {
      case Number(bits) =>
        w := WNumber(bits);
        out.Write([NUMBER]);
        out.Write(bits);
      case Boolean(b) =>
        w := WBoolean(b);
        out.Write([BOOLEAN]);
        out.Write([if b then 1 else 0]);
      case String(s) =>
        w := WString(s);
        out.Write([STRING]);
        out.Write(BE16(|s|));
        out.Write(s);
      case Null =>
        w := WNull;
        out.Write([NULL]);
      case Object(fields) =>
        ghost var f := EncodeObject(out, v);
        w := WObject(f);
      case Array(items) =>
        ghost var f := EncodeArray(out, v);
        w := WArray(f);
    }
  }

  method EncodeObject(out: Sink, v: Value) returns (ghost f: Fields)
    requires v.Object?
    modifies out
    ensures MapOf(f) == v.fields && OrderedFields(f)
    ensures out.data == old(out.data) + Encode(WObject(f))
    decreases v, 0
  {
    hide ValueOf, MapOf, Body, Ordered, OrderedFields, BE16, Emitted;
    ghost var start := out.data;
    f := End;
    EmitNone(v.fields);
    out.Write([OBJECT]);
    var todo := v.fields.Keys;
    while todo != {}
      invariant todo <= v.fields.Keys && Emitted(f, v.fields, todo)
      invariant out.data == start + [OBJECT] + Body(f)
      decreases |todo|
    {
      var key :| key in todo;
      out.Write(BE16(|key|));
      out.Write(key);
      ghost var w := EncodeValue(out, v.fields[key]);
      EmitOne(f, v.fields, todo, key, w);
      f := Snoc(f, key, w);
      todo := todo - {key};
    }
    EmittedAll(f, v.fields);
    out.Write(BE16(0));
    out.Write([OBJECT_END]);
  }

  method EncodeArray(out: Sink, v: Value) returns (ghost f: Items)
    requires v.Array?
    modifies out
    ensures ValuesOf(f) == v.items && OrderedItems(f)
    ensures out.data == old(out.data) + Encode(WArray(f))
    decreases v, 0
  {
    ghost var start := out.data;
    f := Nil;
    out.Write([STRICT_ARRAY]);
    out.Write(BE32(|v.items|));
    for i := 0 to |v.items|
      invariant ValuesOf(f) == v.items[..i] && OrderedItems(f)
      invariant out.data == start + [STRICT_ARRAY] + BE32(|v.items|) + EncodeItems(f)
    {
      ghost var w := EncodeValue(out, v.items[i]);
      SnocItems(f, w);
      f := SnocItem(f, w);
    }
    LengthOfValues(f);
  }

  /** `bytes` are the values one after another, each in some key order. */
  ghost predicate Encodes(bytes: seq<Byte>, values: seq<Value>) {
    exists ws :: CommandOf(ws) == values && bytes == EncodeCommand(ws) && forall w :: w in ws ==> Ordered(w)
  }

  method EncodeCommandBytes(values: seq<Value>) returns (bytes: seq<Byte>)
    ensures Encodes(bytes, values)
  {
    var out := new Sink();
    ghost var ws: seq<Wire> := [];
    for i := 0 to |values|
      invariant CommandOf(ws) == values[..i] && (forall w :: w in ws ==> Ordered(w))
      invariant out.data == EncodeCommand(ws)
    {
      ghost var w := EncodeValue(out, values[i]);
      CommandSnoc(ws, w);
      ws := ws + [w];
    }
    bytes := out.data;
    assert CommandOf(ws) == values;
  }

  lemma {:induction false} CommandSnoc(ws: seq<Wire>, w: Wire)
    ensures EncodeCommand(ws + [w]) == EncodeCommand(ws) + Encode(w)
    ensures CommandOf(ws + [w]) == CommandOf(ws) + [ValueOf(w)]
  {
    hide Encode;
    if ws == [] {
      assert (ws + [w])[1..] == [];
    } else {
      CommandSnoc(ws[1..], w);
      assert (ws + [w])[1..] == ws[1..] + [w];
    }
  }

  // ----- decoding -----------------------------------------------------------------------------

  datatype Outcome<+T> = Got(value: T) | Failed(error: Error)

  /** The reader did what the function on byte sequences says. */
  ghost predicate Read<T>(d: Decoded<T>, got: Outcome<T>, rest: seq<Byte>) {
    match d
    case Ok(v, after) => got == Got(v) && rest == after
    case Err(e) => got == Failed(e)
  }

  method ReadString(r: Conn) returns (got: Outcome<Str>)
    modifies r
    ensures Read(DecodeString(old(r.data)), got, r.data)
  {
    ghost var input := r.data;
    var length, err := r.ReadFull(2);
    if err != None { return Failed(Io(err.value)); }
    var n := FromBE16(length);
    if n == 0 { return Got([]); }
    var buf;
    buf, err := r.ReadFull(n);
    if err != None { return Failed(Io(err.value)); }
    assert input[2..][..n] == input[2..2 + n] && input[2..][n..] == input[2 + n..];
    got := Got(buf);
  }

  method ReadValue(r: Conn) returns (got: Outcome<Value>)
    modifies r
    ensures Read(Decode(old(r.data)), got, r.data)
    decreases |r.data|, 0
  {
    hide DecodeFields, DecodeString;
    var marker, err := r.ReadFull(1);
    if err != None { return Failed(Io(err.value)); }
    match marker[0] {
      case 0 =>
        var bits;
        bits, err := r.ReadFull(8);
        if err != None { return Failed(Io(err.value)); }
        got := Got(Number(bits));
      case 1 =>
        var b;
        b, err := r.ReadFull(1);
        if err != None { return Failed(Io(err.value)); }
        got := Got(Boolean(b[0] != 0));
      case 2 =>
        var s := ReadString(r);
        got := match s case Got(str) => Got(String(str)) case Failed(e) => Failed(e);
      case 3 =>
        var o := ReadObject(r);
        got := match o case Got(fields) => Got(Object(fields)) case Failed(e) => Failed(e);
      case 5 => got := Got(Null);
      case 6 => got := Got(Null);
      case 8 =>
        var count;
        count, err := r.ReadFull(4);
        if err != None { return Failed(Io(err.value)); }
        var o := ReadObject(r);
        got := match o case Got(fields) => Got(Object(fields)) case Failed(e) => Failed(e);
      case _ => got := Failed(UnexpectedType);
    }
  }

  method ReadObject(r: Conn) returns (got: Outcome<map<Str, Value>>)
    modifies r
    ensures Read(DecodeFields(old(r.data), map[]), got, r.data)
    decreases |r.data|, 1
  {
    hide Decode, DecodeString;
    ghost var input := r.data;
    var fields := map[];
    while true
      invariant |r.data| <= |input|
      invariant DecodeFields(r.data, fields) == DecodeFields(input, map[])
      decreases |r.data|
    {
      var key := ReadString(r);
      if key.Failed? { return Failed(key.error); }
      if key.value == [] {
        var mark, err := r.ReadFull(1);
        if err != None { return Failed(Io(err.value)); }
        if mark[0] != OBJECT_END { return Failed(InvalidData); }
        return Got(fields);
      }
      var value := ReadValue(r);
      if value.Failed? { return Failed(value.error); }
      fields := fields[key.value := value.value];
    }
  }

  /** `DecodeCommand`, on what is left of a reader. */
  method ReadCommand(r: Conn) returns (cmd: Command)
    modifies r
    ensures cmd == DecodeCommand(old(r.data), [])
  {
    hide Decode;
    ghost var input := r.data;
    var values := [];
    while true
      invariant DecodeCommand(r.data, values) == DecodeCommand(input, [])
      decreases |r.data|
    {
      var got := ReadValue(r);
      if got.Failed? {
        if got.error.Io? || |values| >= 1 { return Values(values); }
        return Rejected(got.error);
      }
      values := values + [got.value];
    }
  }

  /** The methods composed: what the encoder writes, in whatever order, the decoder reads back. */
  method SendAndReceive(values: seq<Value>) returns (cmd: Command)
    ensures cmd == Values(values) <==> forall v :: v in values ==> Representable(v)
  {
    hide Decode, Encode;
    var bytes := EncodeCommandBytes(values);
    ghost var ws :| CommandOf(ws) == values && bytes == EncodeCommand(ws) && forall w :: w in ws ==> Ordered(w);
    var r := new Conn(bytes);
    cmd := ReadCommand(r);
    CommandRoundTripIff(ws);
    assert forall i :: 0 <= i < |ws| ==> values[i] == ValueOf(ws[i]);
    if forall v :: v in values ==> Representable(v) {
      forall w | w in ws ensures Representable(ValueOf(w)) {
        var i :| 0 <= i < |ws| && ws[i] == w;
        assert values[i] in values;
      }
    } else {
      var v :| v in values && !Representable(v);
      var i :| 0 <= i < |values| && values[i] == v;
      assert ws[i] in ws;
    }
  }
}
