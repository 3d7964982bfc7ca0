/** Decoding undoes encoding, also when the encoder ran out of room. */
module AmfRoundTrip {
  import opened Bytes
  import opened Amf

  // ---------- the trees the format can carry ----------

  /** Members of objects and ECMA arrays: named, with a short name, and not null. */
  predicate CleanMember(p: Prop) {
    p.name != [] && |p.name| < 65536 && !p.value.Null? && Clean(p.value)
  }

  predicate CleanItem(p: Prop) {
    p.name == [] && Clean(p.value)
  }

  predicate Clean(v: Value) {
    match v
    case String(s) => |s| < TWO32
    case Object(props) => forall p | p in props :: CleanMember(p)
    case EcmaArray(props) => forall p | p in props :: CleanMember(p)
    case StrictArray(props) => |props| < 0x8000_0000 && forall p | p in props :: CleanItem(p)
    case Date(_, _) => false
    case XmlDoc(_) => false
    case _ => true
  }

  // ---------- what is left of a tree in a buffer of a given size ----------

  /** Every object keeps the properties that were encoded before the first one that did not fit. */
  function Prune(v: Value, room: int): Value
    decreases v, 0
  {
    match v
    case Object(props) => Object(PruneProps(props, room - 1))
    case EcmaArray(props) => EcmaArray(PruneProps(props, room - 5))
    case StrictArray(props) => StrictArray(PruneProps(props, room - 5))
    case _ => v
  }

  function PruneProp(p: Prop, room: int): Prop
    decreases p, 1
  {
    Prop(p.name, Prune(p.value, room - |NamePart(p)|))
  }

  function PruneProps(ps: seq<Prop>, room: int): seq<Prop>
    decreases ps, 0
  {
    if ps == [] || EncodeProp(ps[0], room).None? then []
    else [PruneProp(ps[0], room)] + PruneProps(ps[1..], room - |EncodeProp(ps[0], room).value|)
  }

  /** No strict array lost an element; its element count is written before the elements are tried. */
  predicate Whole(v: Value, room: int)
    decreases v, 0
  {
    match v
    case Object(props) => WholeProps(props, room - 1)
    case EcmaArray(props) => WholeProps(props, room - 5)
    case StrictArray(props) => |PruneProps(props, room - 5)| == |props| && WholeProps(props, room - 5)
    case _ => true
  }

  predicate WholeProp(p: Prop, room: int)
    decreases p, 1
  {
    Whole(p.value, room - |NamePart(p)|)
  }

  predicate WholeProps(ps: seq<Prop>, room: int)
    decreases ps, 0
  {
    ps == [] || EncodeProp(ps[0], room).None? ||
    (WholeProp(ps[0], room) && WholeProps(ps[1..], room - |EncodeProp(ps[0], room).value|))
  }

  // ---------- decoding an encoding ----------

  lemma ScalarRoundTrip(v: Value, room: int, suffix: seq<byte>)
    requires Clean(v) && EncodeValue(v, room).Some?
    requires v.Number? || v.Boolean? || v.String? || v.Null?
    ensures var e := EncodeValue(v, room).value;
      e != [] && DecodeValue(e + suffix) == Some(Decoded(v, |e|))
  {
    hide DecodeProps, DecodeItems, EncodeProps;
    var e := EncodeValue(v, room).value;
    if v.String? {
      StringRoundTrip(v.s, room, suffix);
    } else {
      DropJoined(e, suffix, 1);
      if v.Number? {
        assert e[1..] == v.bits;
        DropJoined(v.bits, suffix, 8);
      }
    }
  }

  lemma StringRoundTrip(s: seq<byte>, room: int, suffix: seq<byte>)
    requires Clean(String(s)) && EncodeString(s, room).Some?
    ensures
      var e := EncodeString(s, room).value;
      e != [] && DecodeValue(e + suffix) == Some(Decoded(String(s), |e|))
  {
    hide DecodeProps, DecodeItems, Int16, Int32, DecodeInt16, DecodeInt32;
    IntRoundTrip(|s|, s + suffix);
    var head := if |s| < 65536 then Int16(|s|) else Int32(|s|);
    var b := EncodeString(s, room).value + suffix;
    assert b[1..] == head + (s + suffix);
    assert (head + (s + suffix))[|head|..|head| + |s|] == s;
  }

  // One unfolding of the coders each, so that the induction below works with equations only.

  lemma EncodeContainer(v: Value, room: int)
    requires (v.Object? || v.EcmaArray? || v.StrictArray?) && EncodeValue(v, room).Some?
    ensures EncodeValue(v, room).value ==
      match v
      case Object(ps) => [AMF_OBJECT] + (EncodeProps(ps, room - 1) + END_MARKER)
      case EcmaArray(ps) => [AMF_ECMA_ARRAY] + (Int32(|ps|) + (EncodeProps(ps, room - 5) + END_MARKER))
      case StrictArray(ps) => [AMF_STRICT_ARRAY] + (Int32(|ps|) + EncodeProps(ps, room - 5))
      case _ => []
  {
    hide EncodeProps;
  }

  lemma DecodeObject(d: seq<byte>, o: Decoded<seq<Prop>>)
    requires DecodeProps(d, true) == Some(o)
    ensures DecodeValue([AMF_OBJECT] + d) == Some(Decoded(Object(o.value), 1 + o.used))
  {
    hide DecodeProps, DecodeItems;
    assert ([AMF_OBJECT] + d)[1..] == d;
  }

  lemma DecodeEcmaArray(n: nat, d: seq<byte>, o: Decoded<seq<Prop>>)
    requires DecodeProps(d, true) == Some(o)
    ensures DecodeValue([AMF_ECMA_ARRAY] + (Int32(n) + d)) == Some(Decoded(EcmaArray(o.value), 5 + o.used))
  {
    hide DecodeProps, DecodeItems;
    assert ([AMF_ECMA_ARRAY] + (Int32(n) + d))[1..] == Int32(n) + d;
    assert (Int32(n) + d)[4..] == d;
  }

  lemma DecodeStrictArray(n: nat, d: seq<byte>, o: Decoded<seq<Prop>>)
    requires n < 0x8000_0000 && DecodeItems(d, n) == Some(o)
    ensures DecodeValue([AMF_STRICT_ARRAY] + (Int32(n) + d)) == Some(Decoded(StrictArray(o.value), 5 + o.used))
  {
    hide DecodeProps, DecodeItems;
    assert ([AMF_STRICT_ARRAY] + (Int32(n) + d))[1..] == Int32(n) + d;
    assert (Int32(n) + d)[4..] == d;
    IntRoundTrip(n, d);
  }

  lemma NameSlices(l: seq<byte>, name: seq<byte>, w: seq<byte>)
    requires |l| == 2
    ensures var b := l + name + w;
      b == l + (name + w) && b[2..2 + |name|] == name && b[2 + |name|..] == w
  {
    assert (l + name)[2..] == name;
  }

  /** A property with a name cannot be mistaken for the end marker. */
  lemma NoMarkerAtName(b: seq<byte>)
    requires |b| >= 3 && DecodeInt16(b) > 0
    ensures !AtEndMarker(b)
  {
  }

  lemma DecodeAtMarker(suffix: seq<byte>)
    ensures DecodeProps(END_MARKER + suffix, true) == Some(Decoded([], 3))
  {
    hide DecodeProp;
  }

  lemma DecodeMember(name: seq<byte>, w: seq<byte>, d: Decoded<Value>)
    requires name != [] && |name| < 65536 && w != [] && DecodeValue(w) == Some(d)
    ensures DecodeProp(Int16(|name|) + name + w, true) == Some(Decoded(Prop(name, d.value), 2 + |name| + d.used))
    ensures !AtEndMarker(Int16(|name|) + name + w)
  {
    hide DecodeValue, Int16, DecodeInt16, AtEndMarker;
    var b := Int16(|name|) + name + w;
    NameSlices(Int16(|name|), name, w);
    IntRoundTrip(|name|, name + w);
    NoMarkerAtName(b);
  }

  lemma DecodeItem(w: seq<byte>, d: Decoded<Value>)
    requires w != [] && DecodeValue(w) == Some(d)
    ensures DecodeProp(w, false) == Some(Decoded(Prop([], d.value), d.used))
  {
    hide DecodeValue;
    assert w[0..] == w;
  }

  lemma DecodePropsStep(e: seq<byte>, p: Prop, rest: seq<byte>, o: Decoded<seq<Prop>>)
    requires !AtEndMarker(e + rest) && DecodeProp(e + rest, true) == Some(Decoded(p, |e|))
    requires DecodeProps(rest, true) == Some(o)
    ensures DecodeProps(e + rest, true) == Some(Decoded([p] + o.value, |e| + o.used))
  {
    hide DecodeProp, AtEndMarker;
    assert (e + rest)[|e|..] == rest;
  }

  lemma DecodeItemsStep(e: seq<byte>, p: Prop, rest: seq<byte>, n: nat, o: Decoded<seq<Prop>>)
    requires DecodeProp(e + rest, false) == Some(Decoded(p, |e|))
    requires DecodeItems(rest, n) == Some(o)
    ensures DecodeItems(e + rest, n + 1) == Some(Decoded([p] + o.value, |e| + o.used))
  {
    hide DecodeProp;
    assert (e + rest)[|e|..] == rest;
  }

  lemma {:induction false} ValueRoundTrip(v: Value, room: int, suffix: seq<byte>)
    requires Clean(v) && EncodeValue(v, room).Some? && Whole(v, room)
    ensures var e := EncodeValue(v, room).value;
      e != [] && DecodeValue(e + suffix) == Some(Decoded(Prune(v, room), |e|))
    decreases v, 0
  {
    hide EncodeValue, DecodeValue, EncodeProps, DecodeProps, DecodeItems, PruneProps, WholeProps, CleanMember;
    hide CleanItem, Int32;
    var e := EncodeValue(v, room).value;
    match v
    case Object(props) =>
      EncodeContainer(v, room);
      PropsRoundTrip(props, room - 1, suffix);
      var d := EncodeProps(props, room - 1) + END_MARKER + suffix;
      DecodeObject(d, DecodeProps(d, true).value);
      Assoc([AMF_OBJECT], EncodeProps(props, room - 1) + END_MARKER, suffix);
    case EcmaArray(props) =>
      EncodeContainer(v, room);
      PropsRoundTrip(props, room - 5, suffix);
      var d := EncodeProps(props, room - 5) + END_MARKER + suffix;
      DecodeEcmaArray(|props|, d, DecodeProps(d, true).value);
      Assoc([AMF_ECMA_ARRAY], Int32(|props|) + (EncodeProps(props, room - 5) + END_MARKER), suffix);
      Assoc(Int32(|props|), EncodeProps(props, room - 5) + END_MARKER, suffix);
    case StrictArray(props) =>
      EncodeContainer(v, room);
      ItemsRoundTrip(props, room - 5, suffix);
      var d := EncodeProps(props, room - 5) + suffix;
      DecodeStrictArray(|props|, d, DecodeItems(d, |props|).value);
      Assoc([AMF_STRICT_ARRAY], Int32(|props|) + EncodeProps(props, room - 5), suffix);
      Assoc(Int32(|props|), EncodeProps(props, room - 5), suffix);
    case _ =>
      ScalarRoundTrip(v, room, suffix);
  }

  lemma {:induction false} MemberRoundTrip(p: Prop, room: int, suffix: seq<byte>)
    requires CleanMember(p) && EncodeProp(p, room).Some? && WholeProp(p, room)
    ensures var e := EncodeProp(p, room).value;
      e != [] && !AtEndMarker(e + suffix)
      && DecodeProp(e + suffix, true) == Some(Decoded(PruneProp(p, room), |e|))
    decreases p, 1
  {
    hide EncodeValue, DecodeValue, DecodeProp, Prune, Whole, Clean, AtEndMarker, Int16;
    var room' := room - |NamePart(p)|;
    ValueRoundTrip(p.value, room', suffix);
    var v := EncodeValue(p.value, room').value;
    DecodeMember(p.name, v + suffix, DecodeValue(v + suffix).value);
    assert EncodeProp(p, room).value + suffix == Int16(|p.name|) + p.name + (v + suffix);
  }

  lemma {:induction false} ItemRoundTrip(p: Prop, room: int, suffix: seq<byte>)
    requires CleanItem(p) && EncodeProp(p, room).Some? && WholeProp(p, room)
    ensures var e := EncodeProp(p, room).value;
      e != [] && DecodeProp(e + suffix, false) == Some(Decoded(PruneProp(p, room), |e|))
    decreases p, 1
  {
    hide EncodeValue, DecodeValue, DecodeProp, Prune, Whole, Clean;
    assert NamePart(p) == [];
    ValueRoundTrip(p.value, room, suffix);
    var v := EncodeValue(p.value, room).value;
    assert [] + v == v;
    DecodeItem(v + suffix, DecodeValue(v + suffix).value);
  }

  lemma {:induction false} PropsRoundTrip(ps: seq<Prop>, room: int, suffix: seq<byte>)
    requires (forall p | p in ps :: CleanMember(p)) && WholeProps(ps, room)
    ensures DecodeProps(EncodeProps(ps, room) + END_MARKER + suffix, true)
      == Some(Decoded(PruneProps(ps, room), |EncodeProps(ps, room)| + 3))
    decreases ps, 0
  {
    hide EncodeProp, DecodeProp, DecodeProps, PruneProp, WholeProp, CleanMember, AtEndMarker;
    if ps == [] || EncodeProp(ps[0], room).None? {
      assert EncodeProps(ps, room) + END_MARKER + suffix == END_MARKER + suffix;
      DecodeAtMarker(suffix);
    } else {
      var e := EncodeProp(ps[0], room).value;
      var more := EncodeProps(ps[1..], room - |e|);
      var rest := more + END_MARKER + suffix;
      MemberRoundTrip(ps[0], room, rest);
      PropsRoundTrip(ps[1..], room - |e|, suffix);
      DecodePropsStep(e, PruneProp(ps[0], room), rest, DecodeProps(rest, true).value);
      Assoc(e, more, END_MARKER);
      Assoc(e, more + END_MARKER, suffix);
    }
  }

  lemma {:induction false} ItemsRoundTrip(ps: seq<Prop>, room: int, suffix: seq<byte>)
    requires (forall p | p in ps :: CleanItem(p)) && WholeProps(ps, room) && |PruneProps(ps, room)| == |ps|
    ensures DecodeItems(EncodeProps(ps, room) + suffix, |ps|)
      == Some(Decoded(PruneProps(ps, room), |EncodeProps(ps, room)|))
    decreases ps, 0
  {
    hide EncodeProp, DecodeProp, PruneProp, WholeProp, CleanItem;
    if ps != [] {
      var e := EncodeProp(ps[0], room).value;
      var more := EncodeProps(ps[1..], room - |e|);
      var rest := more + suffix;
      ItemRoundTrip(ps[0], room, rest);
      ItemsRoundTrip(ps[1..], room - |e|, suffix);
      DecodeItemsStep(e, PruneProp(ps[0], room), rest, |ps| - 1, DecodeItems(rest, |ps| - 1).value);
      Assoc(e, more, suffix);
    }
  }

  // ---------- enough room: nothing is lost ----------

  /** The bytes a value takes when nothing is dropped. */
  function Size(v: Value): nat
    decreases v, 0
  {
    match v
    case Number(_) => 9
    case Boolean(_) => 2
    case String(s) => if |s| < 65536 then 3 + |s| else 5 + |s|
    case Null => 1
    case Object(ps) => 4 + SizeProps(ps)
    case EcmaArray(ps) => 8 + SizeProps(ps)
    case StrictArray(ps) => 5 + SizeProps(ps)
    case Date(_, _) => 0
    case XmlDoc(_) => 0
  }

  function SizeProp(p: Prop): nat
    decreases p, 1
  {
    |NamePart(p)| + Size(p.value)
  }

  function SizeProps(ps: seq<Prop>): nat
    decreases ps, 0
  {
    if ps == [] then 0 else SizeProp(ps[0]) + SizeProps(ps[1..])
  }

  predicate CleanProps(ps: seq<Prop>) {
    (forall p | p in ps :: CleanMember(p)) || (forall p | p in ps :: CleanItem(p))
  }

  lemma CleanHeadAndTail(ps: seq<Prop>)
    requires CleanProps(ps) && ps != []
    ensures CleanMember(ps[0]) || CleanItem(ps[0])
    ensures CleanProps(ps[1..])
  {
    hide CleanMember, CleanItem;
  }

  lemma {:induction false} EnoughRoom(v: Value, room: int)
    requires Clean(v) && room >= Size(v) + 2
    ensures EncodeValue(v, room).Some? && |EncodeValue(v, room).value| == Size(v)
    ensures Prune(v, room) == v && Whole(v, room)
    decreases v, 0
  {
    hide EncodeProps, PruneProps, WholeProps, SizeProps, CleanMember, CleanItem;
    match v
    case Object(ps) => EnoughRoomForAll(ps, room - 1);
    case EcmaArray(ps) => EnoughRoomForAll(ps, room - 5);
    case StrictArray(ps) => EnoughRoomForAll(ps, room - 5);
    case _ =>
  }

  lemma {:induction false} EnoughRoomForOne(p: Prop, room: int)
    requires (CleanMember(p) || CleanItem(p)) && room >= SizeProp(p) + 2
    ensures EncodeProp(p, room).Some? && |EncodeProp(p, room).value| == SizeProp(p)
    ensures PruneProp(p, room) == p && WholeProp(p, room)
    decreases p, 1
  {
    hide EncodeValue, Prune, Whole, Clean, Size;
    SizeAtLeast(p.value);
    EnoughRoom(p.value, room - |NamePart(p)|);
  }

  lemma {:induction false} EnoughRoomForAll(ps: seq<Prop>, room: int)
    requires CleanProps(ps) && room >= SizeProps(ps) + 2
    ensures |EncodeProps(ps, room)| == SizeProps(ps)
    ensures PruneProps(ps, room) == ps && WholeProps(ps, room)
    decreases ps, 0
  {
    hide EncodeProp, PruneProp, WholeProp, SizeProp, CleanProps, CleanMember, CleanItem;
    if ps != [] {
      CleanHeadAndTail(ps);
      EnoughRoomForOne(ps[0], room);
      EnoughRoomForAll(ps[1..], room - SizeProp(ps[0]));
      assert [ps[0]] + ps[1..] == ps;
    }
  }

  lemma SizeAtLeast(v: Value)
    requires Clean(v)
    ensures if v.Null? then Size(v) == 1 else Size(v) >= 2
  {
  }

  /**
   AMF0 round trip: given two bytes more room than the encoding takes, decoding returns the tree and consumes
   exactly the bytes written, whatever follows them.
   */
  lemma RoundTrip(v: Value, room: int, suffix: seq<byte>)
    requires Clean(v) && room >= Size(v) + 2
    ensures var e := EncodeValue(v, room);
      e.Some? && e.value != [] && |e.value| == Size(v)
      && DecodeValue(e.value + suffix) == Some(Decoded(v, |e.value|))
  {
    EnoughRoom(v, room);
    ValueRoundTrip(v, room, suffix);
  }

  // ---------- too little room: objects keep prefixes ----------

  /** No strict array anywhere; their element count is written before the elements are tried. */
  predicate NoStrictArrays(v: Value) {
    match v
    case Object(ps) => forall p | p in ps :: NoStrictArrays(p.value)
    case EcmaArray(ps) => forall p | p in ps :: NoStrictArrays(p.value)
    case StrictArray(_) => false
    case _ => true
  }

  /** `w` is `v` with every object cut down to a prefix of its properties, and those pruned in turn. */
  predicate PrunedFrom(w: Value, v: Value)
    decreases v, 0
  {
    match (w, v)
    case (Object(qs), Object(ps)) => PrefixPruned(qs, ps)
    case (EcmaArray(qs), EcmaArray(ps)) => PrefixPruned(qs, ps)
    case (_, _) => w == v
  }

  predicate PrefixPruned(qs: seq<Prop>, ps: seq<Prop>)
    decreases ps, 0
  {
    |qs| <= |ps| && forall i | 0 <= i < |qs| :: qs[i].name == ps[i].name && PrunedFrom(qs[i].value, ps[i].value)
  }

  lemma {:induction false} PruneKeepsPrefixes(v: Value, room: int)
    requires NoStrictArrays(v)
    ensures Whole(v, room) && PrunedFrom(Prune(v, room), v)
    decreases v, 0
  {
    hide PruneProps, WholeProps, PrefixPruned;
    match v
    case Object(ps) => PrunePropsKeepsPrefix(ps, room - 1);
    case EcmaArray(ps) => PrunePropsKeepsPrefix(ps, room - 5);
    case _ =>
  }

  lemma {:induction false} PrunePropsKeepsPrefix(ps: seq<Prop>, room: int)
    requires forall p | p in ps :: NoStrictArrays(p.value)
    ensures WholeProps(ps, room) && PrefixPruned(PruneProps(ps, room), ps)
    decreases ps, 0
  {
    hide EncodeProp, Prune, Whole, NoStrictArrays, PrunedFrom;
    if ps != [] && EncodeProp(ps[0], room).Some? {
      var p, room' := ps[0], room - |EncodeProp(ps[0], room).value|;
      PruneKeepsPrefixes(p.value, room - |NamePart(p)|);
      PrunePropsKeepsPrefix(ps[1..], room');
      var qs := PruneProps(ps[1..], room');
      forall i | 0 <= i < |qs| + 1
        ensures ([PruneProp(p, room)] + qs)[i].name == ps[i].name
          && PrunedFrom(([PruneProp(p, room)] + qs)[i].value, ps[i].value)
      {
        if i > 0 {
          assert ps[i] == ps[1..][i - 1];
        }
      }
    }
  }

  /**
   Graceful truncation: for any output size, what the encoder produces for a tree of objects and ECMA arrays
   fits, and decodes to a pruned tree, again whatever follows.
   */
  lemma TruncationIsGraceful(v: Value, room: int, suffix: seq<byte>)
    requires Clean(v) && NoStrictArrays(v) && EncodeValue(v, room).Some?
    ensures var e := EncodeValue(v, room).value;
      && e != [] && |e| <= room
      && DecodeValue(e + suffix).Some?
      && DecodeValue(e + suffix).value.used == |e|
      && PrunedFrom(DecodeValue(e + suffix).value.value, v)
  {
    PruneKeepsPrefixes(v, room);
    ValueRoundTrip(v, room, suffix);
  }

  /** A strict array that lost elements announces more than it holds, so that its bytes alone do not decode. */
  lemma TruncatedStrictArrayLost(ps: seq<Prop>, room: int)
    requires Clean(StrictArray(ps)) && EncodeValue(StrictArray(ps), room).Some?
    requires WholeProps(ps, room - 5) && |PruneProps(ps, room - 5)| < |ps|
    ensures DecodeValue(EncodeValue(StrictArray(ps), room).value).None?
  {
    hide EncodeProps, PruneProps, DecodeItems, DecodeProps, WholeProps;
    EncodeContainer(StrictArray(ps), room);
    var items := EncodeProps(ps, room - 5);
    TruncatedItemsLost(ps, room - 5);
    var b := [AMF_STRICT_ARRAY] + (Int32(|ps|) + items);
    assert b[1..] == Int32(|ps|) + items && (Int32(|ps|) + items)[4..] == items;
    IntRoundTrip(|ps|, items);
  }

  lemma {:induction false} TruncatedItemsLost(ps: seq<Prop>, room: int)
    requires (forall p | p in ps :: CleanItem(p)) && WholeProps(ps, room) && |PruneProps(ps, room)| < |ps|
    ensures DecodeItems(EncodeProps(ps, room), |ps|).None?
    decreases ps, 0
  {
    hide EncodeProp, DecodeProp, PruneProp, WholeProp, CleanItem;
    if EncodeProp(ps[0], room).Some? {
      var e := EncodeProp(ps[0], room).value;
      var rest := EncodeProps(ps[1..], room - |e|);
      ItemRoundTrip(ps[0], room, rest);
      TruncatedItemsLost(ps[1..], room - |e|);
      assert (e + rest)[|e|..] == rest;
    } else {
      NothingToDecode();
    }
  }

  lemma NothingToDecode()
    ensures DecodeProp([], false).None?
  {
  }

  // ---------- what the format, as coded, cannot carry ----------

  /** Members whose name the encoder leaves out although the decoder will look for one. */
  predicate NameLost(p: Prop) {
    if p.value.Null? then |p.name| < 5 * 256
    else p.name == [] && (p.value.Number? ==> p.value.bits[0] != 0)
  }

  /** A member without its name on the wire is never read back: its bytes are taken for another name. */
  lemma NamelessMemberLost(p: Prop, rest: seq<Prop>, room: int, suffix: seq<byte>)
    requires NameLost(p) && EncodeProp(p, room).Some?
    ensures var d := DecodeProps(EncodeProps([p] + rest, room) + END_MARKER + suffix, true);
      d.None? || d.value.value == [] || d.value.value[0] != p
  {
    var e := EncodeProp(p, room).value;
    var b := EncodeProps([p] + rest, room) + END_MARKER + suffix;
    assert ([p] + rest)[1..] == rest;
    FirstByte(p, room);
    assert b[0] == e[0] && (p.value.Number? ==> b[1] == e[1]);
    if DecodeProp(b, true).Some? {
      assert |DecodeProp(b, true).value.value.name| == DecodeInt16(b);
    }
  }

  lemma FirstByte(p: Prop, room: int)
    requires NameLost(p) && EncodeProp(p, room).Some?
    ensures var e := EncodeProp(p, room).value;
      e != [] && (p.value.Null? ==> e[0] == 5) && (!p.value.Null? && !p.value.Number? ==> e[0] > 0)
      && (p.value.Number? ==> |e| > 1 && e[0] == 0 && e[1] != 0)
  {
    hide EncodeProps;
  }
}
