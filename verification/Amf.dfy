/**
 AMF0 (sections 2.2 to 2.14 of the AMF 0 specification) as amf.c encodes and decodes it. The encoder works in a
 bounded buffer and drops what does not fit; the decoder stops at the end marker.
 */
module Amf {
  import opened Bytes

  /** The eight bytes of a number, which are carried and never interpreted. */
  type Double = b: seq<byte> | |b| == 8 witness seq(8, _ => 0)

  /** A property value. Numbers are their eight wire bytes; Date and XmlDoc only ever come from the decoder. */
  datatype Value =
    | Number(bits: Double)
    | Boolean(b: bool)
    | String(s: seq<byte>)
    | Null
    | Object(props: seq<Prop>)
    | EcmaArray(elements: seq<Prop>)
    | StrictArray(items: seq<Prop>)
    | Date(time: Double, utc: nat)
    | XmlDoc(doc: seq<byte>)

  datatype Prop = Prop(name: seq<byte>, value: Value)

  const AMF_NUMBER := 0
  const AMF_BOOLEAN := 1
  const AMF_STRING := 2
  const AMF_OBJECT := 3
  const AMF_NULL := 5
  const AMF_UNDEFINED := 6
  const AMF_ECMA_ARRAY := 8
  const AMF_OBJECT_END := 9
  const AMF_STRICT_ARRAY := 10
  const AMF_DATE := 11
  const AMF_LONG_STRING := 12
  const AMF_UNSUPPORTED := 13
  const AMF_XML_DOC := 15

  const END_MARKER: seq<byte> := [0, 0, 9]

  // ---------- the encoder, on values: `room` is pBufEnd - pBuffer ----------

  /** AMF_EncodeString. Its size test is not guarded by the length for the long form, so 5 + len bytes are needed. */
  function EncodeString(s: seq<byte>, room: int): Option<seq<byte>> {
    if (|s| < 65536 && 3 + |s| > room) || 5 + |s| > room then None
    else if |s| < 65536 then Some([AMF_STRING] + Int16(|s|) + s)
    else Some([AMF_LONG_STRING] + Int32(|s|) + s)
  }

  function EncodeNumber(bits: Double, room: int): Option<seq<byte>> {
    if 9 > room then None else Some([AMF_NUMBER] + bits)
  }

  function EncodeBoolean(b: bool, room: int): Option<seq<byte>> {
    if 2 > room then None else Some([AMF_BOOLEAN, if b then 1 else 0])
  }

  /** The name part of AMFProp_Encode: nothing for null properties and for empty names. */
  function NamePart(p: Prop): seq<byte> {
    if p.value.Null? || p.name == [] then [] else Int16(|p.name|) + p.name
  }

  /** AMFProp_Encode. */
  function EncodeProp(p: Prop, room: int): (r: Option<seq<byte>>)
    ensures r.Some? ==> |r.value| <= room
    decreases p, 1
  {
    if !p.value.Null? && |p.name| + 3 >= room then None
    else
      var name := NamePart(p);
      match EncodeValue(p.value, room - |name|)
      case None => None
      case Some(v) => Some(name + v)
  }

  function EncodeValue(v: Value, room: int): (r: Option<seq<byte>>)
    ensures r.Some? ==> |r.value| <= room
    decreases v, 0
  {
    match v
    case Number(bits) => EncodeNumber(bits, room)
    case Boolean(b) => EncodeBoolean(b, room)
    case String(s) => EncodeString(s, room)
    case Null => if 1 >= room then None else Some([AMF_NULL])
    case Object(props) =>
      if 4 >= room then None
      else Close([AMF_OBJECT] + EncodeProps(props, room - 1), room)
    case EcmaArray(props) =>
      if 4 >= room then None
      else Close([AMF_ECMA_ARRAY] + Int32(|props|) + EncodeProps(props, room - 5), room)
    case StrictArray(props) =>
      if 4 >= room then None
      else Some([AMF_STRICT_ARRAY] + Int32(|props|) + EncodeProps(props, room - 5))
    case Date(_, _) => None
    case XmlDoc(_) => None
  }

  /** The end marker, if there is room for it. */
  function Close(s: seq<byte>, room: int): (r: Option<seq<byte>>)
  {
    if |s| + 3 >= room then None else Some(s + END_MARKER)
  }

  /** The loop over properties: it stops at the first one that cannot be encoded and keeps what is there. */
  function EncodeProps(ps: seq<Prop>, room: int): (r: seq<byte>)
    ensures |r| <= room || r == []
    decreases ps, 0
  {
    if ps == [] then []
    else match EncodeProp(ps[0], room)
      case None => []
      case Some(b) => b + EncodeProps(ps[1..], room - |b|)
  }

  // ---------- the decoder, on values ----------

  /** What a decoder returns: the value and nOriginalSize - nSize, the bytes it accounts for. */
  datatype Decoded<+T> = Decoded(value: T, used: nat)

  function Rest(b: seq<byte>, used: nat): (r: seq<byte>)
    ensures used > 0 && b != [] ==> |r| < |b|
    ensures |r| <= |b|
  {
    if used <= |b| then b[used..] else []
  }

  /** AMFProp_Decode. */
  function DecodeProp(b: seq<byte>, named: bool): (r: Option<Decoded<Prop>>)
    ensures r.Some? ==> r.value.used > 0
    decreases |b|, 1
  {
    if b == [] || (named && |b| < 4) then None
    else if named && DecodeInt16(b) > |b| - 2 then None
    else
      var n: nat := if named then 2 + DecodeInt16(b) else 0;
      var name := if named then b[2..n] else [];
      if n == |b| then None
      else match DecodeValue(b[n..])
        case None => None
        case Some(d) => Some(Decoded(Prop(name, d.value), n + d.used))
  }

  /** The type byte and what it announces. */
  function DecodeValue(b: seq<byte>): (r: Option<Decoded<Value>>)
    requires b != []
    ensures r.Some? ==> r.value.used > 0
    decreases |b|, 0
  {
    var t, d := b[0], b[1..];
    if t == AMF_NUMBER then
      if |d| < 8 then None else Some(Decoded(Number(d[..8]), 9))
    else if t == AMF_BOOLEAN then
      if |d| < 1 then None else Some(Decoded(Boolean(d[0] != 0), 2))
    else if t == AMF_STRING then
      if |d| < 2 || |d| < DecodeInt16(d) + 2 then None
      else Some(Decoded(String(d[2..2 + DecodeInt16(d)]), 3 + DecodeInt16(d)))
    else if t == AMF_OBJECT then
      match DecodeProps(d, true)
      case None => None
      case Some(o) => Some(Decoded(Object(o.value), 1 + o.used))
    else if t == AMF_NULL || t == AMF_UNDEFINED || t == AMF_UNSUPPORTED then Some(Decoded(Null, 1))
    else if t == AMF_ECMA_ARRAY then
      match DecodeProps(Rest(d, 4), true)
      case None => None
      case Some(o) => Some(Decoded(EcmaArray(o.value), 5 + o.used))
    else if t == AMF_STRICT_ARRAY then
      if |d| < 4 then None
      else match DecodeItems(d[4..], AsSigned(DecodeInt32(d)))
        case None => None
        case Some(o) => Some(Decoded(StrictArray(o.value), 5 + o.used))
    else if t == AMF_DATE then
      if |d| < 10 then None else Some(Decoded(Date(d[..8], DecodeInt16(d[8..])), 11))
    else if t == AMF_LONG_STRING || t == AMF_XML_DOC then
      if |d| < 4 || |d| < DecodeInt32(d) + 4 then None
      else
        var s := d[4..4 + DecodeInt32(d)];
        Some(Decoded(if t == AMF_XML_DOC then XmlDoc(s) else String(s), 5 + DecodeInt32(d)))
    else None
  }

  predicate AtEndMarker(b: seq<byte>) {
    |b| >= 3 && DecodeInt24(b) == AMF_OBJECT_END
  }

  /** After an error: bytes are skipped up to and including the next end marker, if there is one. */
  function SkipToMarker(b: seq<byte>): (r: Option<nat>)
    ensures r.Some? ==> 3 <= r.value <= |b|
  {
    if b == [] then None
    else if AtEndMarker(b) then Some(3)
    else match SkipToMarker(b[1..])
      case None => None
      case Some(n) => Some(1 + n)
  }

  /** AMF_Decode: properties up to the end marker, the end of the data, or an error that a later marker mends. */
  function DecodeProps(b: seq<byte>, named: bool): Option<Decoded<seq<Prop>>>
    decreases |b|, 2
  {
    if b == [] then Some(Decoded([], 0))
    else if AtEndMarker(b) then Some(Decoded([], 3))
    else match DecodeProp(b, named)
      case None =>
        (match SkipToMarker(b)
         case None => None
         case Some(n) => Some(Decoded([], n)))
      case Some(p) =>
        match DecodeProps(Rest(b, p.used), named)
        case None => None
        case Some(ps) => Some(Decoded([p.value] + ps.value, p.used + ps.used))
  }

  /** AMF_DecodeArray: a fixed number of unnamed properties. */
  function DecodeItems(b: seq<byte>, count: int): Option<Decoded<seq<Prop>>>
    decreases |b|, 3, count
  {
    if count <= 0 then Some(Decoded([], 0))
    else match DecodeProp(b, false)
      case None => None
      case Some(p) =>
        match DecodeItems(Rest(b, p.used), count - 1)
        case None => None
        case Some(ps) => Some(Decoded([p.value] + ps.value, p.used + ps.used))
  }
}
