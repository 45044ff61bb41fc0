/**
 Session values and the tagged encoding under which the persistent store keeps them.
 Bytes have no JSON form, so they travel as an object whose only key is a marker.
 */
module Values {
  import opened Basics

  type Byte = x: int | 0 <= x < 256

  const BYTES_MARKER := "__cpf_fcv_bytes__"

  datatype Value =
    | Null
    | Bool(b: bool)
    | Num(n: int)
    | Str(s: string)
    | Bytes(raw: seq<Byte>)
    | List(items: seq<Value>)
    | Dict(fields: seq<Field>)

  datatype Field = Field(name: string, value: Value)

  datatype Json =
    | JNull
    | JBool(b: bool)
    | JNum(n: int)
    | JStr(s: string)
    | JArr(items: seq<Json>)
    | JObj(fields: seq<JField>)

  datatype JField = JField(name: string, value: Json)

  /** The text form of bytes (base64 in the program): any injective codec will do. */
  datatype TextCodec = TextCodec(enc: seq<Byte> -> string, dec: string -> Option<seq<Byte>>) {
    ghost predicate Valid() {
      forall raw :: dec(enc(raw)) == Some(raw)
    }
  }

  function Encode(c: TextCodec, v: Value): Json
    decreases v, 1
  {
    match v
    case Null => JNull
    case Bool(b) => JBool(b)
    case Num(n) => JNum(n)
    case Str(s) => JStr(s)
    case Bytes(raw) => JObj([JField(BYTES_MARKER, JStr(c.enc(raw)))])
    case List(items) => JArr(EncodeItems(c, items))
    case Dict(fields) => JObj(EncodeFields(c, fields))
  }

  function EncodeItems(c: TextCodec, vs: seq<Value>): seq<Json>
    decreases vs, 0
  {
    if vs == [] then [] else [Encode(c, vs[0])] + EncodeItems(c, vs[1..])
  }

  function EncodeFields(c: TextCodec, fs: seq<Field>): seq<JField>
    decreases fs, 0
  {
    if fs == [] then []
    else [JField(fs[0].name, Encode(c, fs[0].value))] + EncodeFields(c, fs[1..])
  }

  /** True of exactly the dicts that the decoder takes for tagged bytes. */
  predicate IsMarker(fields: seq<Field>) {
    |fields| == 1 && fields[0].name == BYTES_MARKER && fields[0].value.Str?
  }

  /** Decoding; `None` is the exception raised on a marker that holds no valid text form. */
  function Decode(c: TextCodec, j: Json): Option<Value>
    decreases j, 1
  {
    match j
    case JNull => Some(Null)
    case JBool(b) => Some(Bool(b))
    case JNum(n) => Some(Num(n))
    case JStr(s) => Some(Str(s))
    case JArr(items) =>
      (match DecodeItems(c, items)
       case None => None
       case Some(vs) => Some(List(vs)))
    case JObj(fields) =>
      (match DecodeFields(c, fields)
       case None => None
       case Some(fs) =>
         if IsMarker(fs) then
           (match c.dec(fs[0].value.s)
            case None => None
            case Some(raw) => Some(Bytes(raw)))
         else Some(Dict(fs)))
  }

  function DecodeItems(c: TextCodec, js: seq<Json>): Option<seq<Value>>
    decreases js, 0
  {
    if js == [] then Some([])
    else match (Decode(c, js[0]), DecodeItems(c, js[1..]))
      case (Some(v), Some(vs)) => Some([v] + vs)
      case _ => None
  }

  function DecodeFields(c: TextCodec, js: seq<JField>): Option<seq<Field>>
    decreases js, 0
  {
    if js == [] then Some([])
    else match (Decode(c, js[0].value), DecodeFields(c, js[1..]))
      case (Some(v), Some(fs)) => Some([Field(js[0].name, v)] + fs)
      case _ => None
  }

  /** No dict at any depth is exactly the marker: the values the encoding is meant for. */
  predicate Clean(v: Value)
    decreases v, 1
  {
    match v
    case List(items) => CleanItems(items)
    case Dict(fields) => !IsMarker(fields) && CleanFields(fields)
    case _ => true
  }

  predicate CleanItems(vs: seq<Value>)
    decreases vs, 0
  {
    vs == [] || (Clean(vs[0]) && CleanItems(vs[1..]))
  }

  predicate CleanFields(fs: seq<Field>)
    decreases fs, 0
  {
    fs == [] || (Clean(fs[0].value) && CleanFields(fs[1..]))
  }

  /** Decoding undoes encoding exactly on the clean values. */
  lemma {:induction false} RoundTrip(c: TextCodec, v: Value)
    requires c.Valid()
    ensures Decode(c, Encode(c, v)) == Some(v) <==> Clean(v)
    decreases v, 1
  {
    match v
    case List(items) => RoundTripItems(c, items);
    case Dict(fields) => RoundTripFields(c, fields);
    case Bytes(raw) =>
      DecodeOne(c, BYTES_MARKER, JStr(c.enc(raw)));
    case _ =>
  }

  lemma DecodeOne(c: TextCodec, name: string, j: Json)
    ensures DecodeFields(c, [JField(name, j)])
         == match Decode(c, j) case None => None case Some(v) => Some([Field(name, v)])
  {
    var js := [JField(name, j)];
    assert js[1..] == [] && js[0] == JField(name, j);
    if Decode(c, j).Some? {
      var field := Field(name, Decode(c, j).value);
      assert [field] + [] == [field];
    }
  }

  lemma {:induction false} RoundTripItems(c: TextCodec, vs: seq<Value>)
    requires c.Valid()
    ensures DecodeItems(c, EncodeItems(c, vs)) == Some(vs) <==> CleanItems(vs)
    decreases vs, 0
  {
    if vs != [] {
      RoundTrip(c, vs[0]);
      RoundTripItems(c, vs[1..]);
      assert vs == [vs[0]] + vs[1..];
      var js := EncodeItems(c, vs);
      assert js[1..] == EncodeItems(c, vs[1..]);
    }
  }

  lemma {:induction false} RoundTripFields(c: TextCodec, fs: seq<Field>)
    requires c.Valid()
    ensures DecodeFields(c, EncodeFields(c, fs)) == Some(fs) <==> CleanFields(fs)
    decreases fs, 0
  {
    if fs != [] {
      RoundTrip(c, fs[0].value);
      RoundTripFields(c, fs[1..]);
      assert fs == [fs[0]] + fs[1..];
      var js := EncodeFields(c, fs);
      assert js[1..] == EncodeFields(c, fs[1..]);
    }
  }
}
