/** The bytes of a property value as the AMF 0 specification writes them, in every way a peer may choose, and what they
  * say: the decoder reads each of them as that, and the encoder writes one of them. */
module AmfFormat {
  import opened Bytes
  import opened Amf
  import AmfRoundTrip

  // ---------- the format: sections 2.2 to 2.17 ----------

  /** A number written in bytes, the highest first. */
  function Big(b: seq<byte>): nat {
    if b == [] then 0 else Big(b[..|b| - 1]) * 256 + b[|b| - 1]
  }

  /** A value with the choices its writer makes: the flag of a boolean, the short or the long form of a string, one of
    * three ways to say nothing, and the count of an ECMA array, which need not be right. */
  datatype Form =
    | Numeric(bits: Double)
    | Flag(b: byte)
    | Short(len: seq<byte>, s: seq<byte>)
    | Long(len: seq<byte>, s: seq<byte>)
    | Nothing(marker: byte)
    | Members(ms: seq<Named>)
    | Counted(count: seq<byte>, ms: seq<Named>)
    | Listed(count: seq<byte>, fs: seq<Form>)
    | Time(bits: Double, zone: seq<byte>)
    | Xml(len: seq<byte>, s: seq<byte>)

  datatype Named = Named(len: seq<byte>, name: seq<byte>, form: Form)

  predicate Good(f: Form) {
    match f
    case Numeric(_) => true
    case Flag(_) => true
    case Short(len, s) => |len| == 2 && Big(len) == |s|
    case Long(len, s) => |len| == 4 && Big(len) == |s|
    case Nothing(marker) => marker == 5 || marker == 6 || marker == 13
    case Members(ms) => forall m | m in ms :: GoodNamed(m)
    case Counted(count, ms) => |count| == 4 && forall m | m in ms :: GoodNamed(m)
    case Listed(count, fs) => |count| == 4 && Big(count) == |fs| && |fs| < 0x8000_0000 && forall g | g in fs :: Good(g)
    case Time(_, zone) => |zone| == 2
    case Xml(len, s) => |len| == 4 && Big(len) == |s|
  }

  predicate GoodNamed(m: Named) {
    |m.len| == 2 && Big(m.len) == |m.name| && Good(m.form)
  }

  function Wire(f: Form): (b: seq<byte>)
    ensures b != []
    decreases f, 0
  {
    match f
    case Numeric(bits) => [0] + bits
    case Flag(b) => [1, b]
    case Short(len, s) => [2] + (len + s)
    case Long(len, s) => [12] + (len + s)
    case Nothing(marker) => [marker]
    case Members(ms) => [3] + (WireMembers(ms) + [0, 0, 9])
    case Counted(count, ms) => [8] + (count + (WireMembers(ms) + [0, 0, 9]))
    case Listed(count, fs) => [10] + (count + WireItems(fs))
    case Time(bits, zone) => [11] + (bits + zone)
    case Xml(len, s) => [15] + (len + s)
  }

  function WireMembers(ms: seq<Named>): seq<byte>
    decreases ms, 0
  {
    if ms == [] then [] else ms[0].len + ms[0].name + Wire(ms[0].form) + WireMembers(ms[1..])
  }

  function WireItems(fs: seq<Form>): seq<byte>
    decreases fs, 0
  {
    if fs == [] then [] else Wire(fs[0]) + WireItems(fs[1..])
  }

  function Says(f: Form): Value
    decreases f, 0
  {
    match f
    case Numeric(bits) => Number(bits)
    case Flag(b) => Boolean(b != 0)
    case Short(_, s) => String(s)
    case Long(_, s) => String(s)
    case Nothing(_) => Null
    case Members(ms) => Object(SaysMembers(ms))
    case Counted(_, ms) => EcmaArray(SaysMembers(ms))
    case Listed(_, fs) => StrictArray(SaysItems(fs))
    case Time(bits, zone) => Date(bits, Big(zone))
    case Xml(_, s) => XmlDoc(s)
  }

  function SaysMembers(ms: seq<Named>): seq<Prop>
    decreases ms, 0
  {
    if ms == [] then [] else [Prop(ms[0].name, Says(ms[0].form))] + SaysMembers(ms[1..])
  }

  function SaysItems(fs: seq<Form>): seq<Prop>
    decreases fs, 0
  {
    if fs == [] then [] else [Prop([], Says(fs[0]))] + SaysItems(fs[1..])
  }

  // ---------- the decoder reads every form ----------

  lemma BigOfTwo(b: seq<byte>, rest: seq<byte>)
    requires |b| == 2
    ensures DecodeInt16(b + rest) == Big(b)
  {
    assert b[..1][..0] == [];
    assert Big(b[..1]) == b[0];
  }

  lemma BigOfFour(b: seq<byte>, rest: seq<byte>)
    requires |b| == 4
    ensures DecodeInt32(b + rest) == Big(b)
  {
    var c, d := b[..3], b[..2];
    assert c[..2] == d && d[..1][..0] == [];
    BigOfTwo(d, []);
    assert d + [] == d;
    assert Big(c) == Big(d) * 256 + b[2];
  }

  /** A text behind its length and a marker. */
  lemma Measured(marker: byte, len: seq<byte>, s: seq<byte>, suffix: seq<byte>)
    ensures
      var d := ([marker] + (len + s) + suffix)[1..];
      && d == len + (s + suffix) && d[..|len|] == len && d[|len|..|len| + |s|] == s
  {
    assert ([marker] + (len + s) + suffix)[1..] == len + (s + suffix);
    DropJoined(len, s + suffix, |len|);
    assert (len + (s + suffix))[|len|..|len| + |s|] == s;
  }

  lemma TextRead(f: Form, suffix: seq<byte>)
    requires Good(f) && (f.Short? || f.Long? || f.Xml?)
    ensures DecodeValue(Wire(f) + suffix) == Some(Decoded(Says(f), |Wire(f)|))
  {
    hide DecodeProps, DecodeItems, DecodeInt16, DecodeInt32, Big;
    if f.Short? {
      BigOfTwo(f.len, f.s + suffix);
    } else {
      BigOfFour(f.len, f.s + suffix);
    }
    Measured(Wire(f)[0], f.len, f.s, suffix);
  }

  lemma TimeRead(f: Form, suffix: seq<byte>)
    requires Good(f) && f.Time?
    ensures DecodeValue(Wire(f) + suffix) == Some(Decoded(Says(f), |Wire(f)|))
  {
    hide DecodeProps, DecodeItems, DecodeInt16, DecodeInt32, Big;
    Measured(11, f.bits, f.zone, suffix);
    var d := (Wire(f) + suffix)[1..];
    assert d[8..] == f.zone + suffix;
    BigOfTwo(f.zone, suffix);
  }

  lemma SimpleRead(f: Form, suffix: seq<byte>)
    requires Good(f) && (f.Numeric? || f.Flag? || f.Nothing?)
    ensures DecodeValue(Wire(f) + suffix) == Some(Decoded(Says(f), |Wire(f)|))
  {
    hide DecodeProps, DecodeItems;
    DropJoined(Wire(f), suffix, 1);
    if f.Numeric? {
      assert Wire(f)[1..] == f.bits;
      DropJoined(f.bits, suffix, 8);
    }
  }

  lemma ObjectRead(ms: seq<Named>, d: seq<byte>)
    requires DecodeProps(WireMembers(ms) + [0, 0, 9] + d, true)
      == Some(Decoded(SaysMembers(ms), |WireMembers(ms)| + 3))
    ensures DecodeValue(Wire(Members(ms)) + d) == Some(Decoded(Says(Members(ms)), |Wire(Members(ms))|))
  {
    hide DecodeValue, DecodeProps, WireMembers, SaysMembers;
    var w := WireMembers(ms) + [0, 0, 9];
    Assoc([3], w, d);
    AmfRoundTrip.DecodeObject(w + d, DecodeProps(w + d, true).value);
  }

  lemma ArrayRead(count: seq<byte>, ms: seq<Named>, d: seq<byte>)
    requires |count| == 4
    requires DecodeProps(WireMembers(ms) + [0, 0, 9] + d, true)
      == Some(Decoded(SaysMembers(ms), |WireMembers(ms)| + 3))
    ensures DecodeValue(Wire(Counted(count, ms)) + d)
        == Some(Decoded(Says(Counted(count, ms)), |Wire(Counted(count, ms))|))
  {
    hide DecodeProps, DecodeItems, WireMembers, SaysMembers;
    var w := WireMembers(ms) + [0, 0, 9];
    Behind(8, count, w, d);
  }

  lemma Behind(marker: byte, count: seq<byte>, w: seq<byte>, d: seq<byte>)
    requires |count| == 4
    ensures
      var t := [marker] + (count + w) + d;
      t[0] == marker && t[1..] == count + (w + d) && t[1..][4..] == w + d
  {
    DropJoined(count, w + d, 4);
  }

  lemma ItemsRead(count: seq<byte>, fs: seq<Form>, d: seq<byte>)
    requires Good(Listed(count, fs))
    requires DecodeItems(WireItems(fs) + d, |fs|) == Some(Decoded(SaysItems(fs), |WireItems(fs)|))
    ensures DecodeValue(Wire(Listed(count, fs)) + d)
        == Some(Decoded(Says(Listed(count, fs)), |Wire(Listed(count, fs))|))
  {
    hide DecodeProps, DecodeItems, WireItems, SaysItems, DecodeInt32, Big, Good;
    assert |count| == 4 && Big(count) == |fs| < 0x8000_0000 by {
      GoodCount(count, fs);
    }
    BigOfFour(count, WireItems(fs) + d);
    Behind(10, count, WireItems(fs), d);
  }

  lemma GoodCount(count: seq<byte>, fs: seq<Form>)
    requires Good(Listed(count, fs))
    ensures |count| == 4 && Big(count) == |fs| < 0x8000_0000
  {
  }

  /** The decoder reads every form a peer may write as what it says, and takes just its bytes. */
  lemma {:induction false} FormRead(f: Form, suffix: seq<byte>)
    requires Good(f)
    ensures DecodeValue(Wire(f) + suffix) == Some(Decoded(Says(f), |Wire(f)|))
    decreases f, 0
  {
    hide DecodeValue, DecodeProps, DecodeItems, GoodNamed, Wire, Says, Big;
    match f
    case Members(ms) =>
      AllMembersRead(ms, suffix);
      ObjectRead(ms, suffix);
    case Counted(count, ms) =>
      AllMembersRead(ms, suffix);
      ArrayRead(count, ms, suffix);
    case Listed(count, fs) =>
      AllItemsRead(fs, suffix);
      ItemsRead(count, fs, suffix);
    case Time(_, _) => TimeRead(f, suffix);
    case Numeric(_) => SimpleRead(f, suffix);
    case Flag(_) => SimpleRead(f, suffix);
    case Nothing(_) => SimpleRead(f, suffix);
    case _ => TextRead(f, suffix);
  }

  /** A member cannot be taken for the end of the members: no value begins with that byte. */
  lemma MemberRead(len: seq<byte>, name: seq<byte>, w: seq<byte>, d: Decoded<Value>)
    requires |len| == 2 && Big(len) == |name| && |w| >= 2 && DecodeValue(w) == Some(d)
    ensures
      var b := len + name + w;
      !AtEndMarker(b) && DecodeProp(b, true) == Some(Decoded(Prop(name, d.value), 2 + |name| + d.used))
  {
    hide DecodeValue, DecodeProp, DecodeProps, DecodeItems, Big, DecodeInt16, AtEndMarker;
    NotTheEnd(w);
    MemberPlaces(len, name, w);
    PropRead(len + name + w, |name|, w, d);
  }

  lemma MemberPlaces(len: seq<byte>, name: seq<byte>, w: seq<byte>)
    requires |len| == 2 && Big(len) == |name| && w != [] && w[0] != 9
    ensures
      var b := len + name + w;
      && |b| == 2 + |name| + |w| && b[2..2 + |name|] == name && b[2 + |name|..] == w
      && DecodeInt16(b) == |name| && !AtEndMarker(b)
  {
    hide Big, DecodeInt16, AtEndMarker;
    BigOfTwo(len, name + w);
    AmfRoundTrip.NameSlices(len, name, w);
    NotAtEnd(len, name, w);
  }

  lemma PropRead(b: seq<byte>, n: nat, w: seq<byte>, d: Decoded<Value>)
    requires |b| == 2 + n + |w| && |w| >= 2 && DecodeInt16(b) == n && b[2 + n..] == w && DecodeValue(w) == Some(d)
    ensures DecodeProp(b, true) == Some(Decoded(Prop(b[2..2 + n], d.value), 2 + n + d.used))
  {
    hide DecodeValue, DecodeInt16;
  }

  lemma NotAtEnd(len: seq<byte>, name: seq<byte>, w: seq<byte>)
    requires |len| == 2 && w != [] && w[0] != 9 && DecodeInt16(len + (name + w)) == |name|
    ensures !AtEndMarker(len + name + w)
  {
    var b := len + (name + w);
    Assoc(len, name, w);
    hide DecodeInt16, AtEndMarker;
    AtMarkerIs(b);
    if name == [] {
      assert b[2] == w[0];
    }
  }

  lemma NotTheEnd(w: seq<byte>)
    requires w != [] && DecodeValue(w).Some?
    ensures w[0] != 9
  {
    hide DecodeProps, DecodeItems;
  }

  lemma AtMarkerIs(b: seq<byte>)
    ensures AtEndMarker(b) <==> |b| >= 3 && b[0] == 0 && b[1] == 0 && b[2] == 9
    ensures AtEndMarker(b) ==> DecodeInt16(b) == 0
  {
  }

  lemma {:induction false} AllMembersRead(ms: seq<Named>, suffix: seq<byte>)
    requires forall m | m in ms :: GoodNamed(m)
    ensures DecodeProps(WireMembers(ms) + [0, 0, 9] + suffix, true)
      == Some(Decoded(SaysMembers(ms), |WireMembers(ms)| + 3))
    decreases ms, 0
  {
    hide DecodeValue, DecodeProp, DecodeProps, GoodNamed, Wire, Says, AtEndMarker;
    var e := WireMembers(ms) + [0, 0, 9] + suffix;
    if ms == [] {
      assert e == END_MARKER + suffix;
      AmfRoundTrip.DecodeAtMarker(suffix);
    } else {
      var m := ms[0];
      var rest := WireMembers(ms[1..]) + [0, 0, 9] + suffix;
      AllMembersRead(ms[1..], suffix);
      NamedRead(m, rest);
      var head := m.len + m.name + Wire(m.form);
      assert e == head + rest;
      AmfRoundTrip.DecodePropsStep(head, Prop(m.name, Says(m.form)), rest, DecodeProps(rest, true).value);
    }
  }

  lemma {:induction false} NamedRead(m: Named, rest: seq<byte>)
    requires GoodNamed(m) && rest != []
    ensures
      var head := m.len + m.name + Wire(m.form);
      && !AtEndMarker(head + rest)
      && DecodeProp(head + rest, true) == Some(Decoded(Prop(m.name, Says(m.form)), |head|))
    decreases m, 0
  {
    hide DecodeValue, DecodeProp, Wire, Says, AtEndMarker, Big, Good;
    FormRead(m.form, rest);
    MemberRead(m.len, m.name, Wire(m.form) + rest, Decoded(Says(m.form), |Wire(m.form)|));
    assert m.len + m.name + Wire(m.form) + rest == m.len + m.name + (Wire(m.form) + rest);
  }

  lemma {:induction false} AllItemsRead(fs: seq<Form>, suffix: seq<byte>)
    requires forall g | g in fs :: Good(g)
    ensures DecodeItems(WireItems(fs) + suffix, |fs|) == Some(Decoded(SaysItems(fs), |WireItems(fs)|))
    decreases fs, 0
  {
    hide DecodeValue, DecodeProp, Good, Wire, Says;
    if fs != [] {
      var w, rest := Wire(fs[0]), WireItems(fs[1..]) + suffix;
      FormRead(fs[0], rest);
      AllItemsRead(fs[1..], suffix);
      AmfRoundTrip.DecodeItem(w + rest, Decoded(Says(fs[0]), |w|));
      AmfRoundTrip.DecodeItemsStep(w, Prop([], Says(fs[0])), rest, |fs| - 1, DecodeItems(rest, |fs| - 1).value);
      Assoc(w, WireItems(fs[1..]), suffix);
    }
  }

  /** Any other first byte is refused, except for 17, which switches to AMF3. */
  lemma OtherMarkersRefused(b: seq<byte>)
    requires b != [] && b[0] !in {0, 1, 2, 3, 5, 6, 8, 10, 11, 12, 13, 15, 17}
    ensures DecodeValue(b).None?
  {
    hide DecodeProps, DecodeItems;
  }

  // ---------- the encoder writes one of the forms ----------

  lemma BigInts(v: nat)
    ensures v < 0x1_0000 ==> Big(Int16(v)) == v
    ensures v < 0x1_0000_0000 ==> Big(Int32(v)) == v
  {
    hide Big;
    IntRoundTrip(v, []);
    BigOfTwo(Int16(v), []);
    BigOfFour(Int32(v), []);
  }

  /** What the encoder writes for what is left of a tree is a form of it. */
  lemma {:induction false} WritesForm(v: Value, room: int) returns (f: Form)
    requires AmfRoundTrip.Clean(v) && EncodeValue(v, room).Some? && AmfRoundTrip.Whole(v, room)
    ensures Good(f) && Wire(f) == EncodeValue(v, room).value && Says(f) == AmfRoundTrip.Prune(v, room)
    decreases v, 0
  {
    hide EncodeProps, AmfRoundTrip.PruneProps, AmfRoundTrip.WholeProps, AmfRoundTrip.CleanMember;
    hide AmfRoundTrip.CleanItem, GoodNamed, WireMembers, WireItems, SaysMembers, SaysItems, Int16, Int32, Big;
    match v
    case Number(bits) => f := Numeric(bits);
    case Boolean(b) => f := Flag(if b then 1 else 0);
    case Null => f := Nothing(5);
    case String(s) =>
      BigInts(|s|);
      f := if |s| < 65536 then Short(Int16(|s|), s) else Long(Int32(|s|), s);
    case Object(ps) =>
      var ms := WritesMembers(ps, room - 1);
      f := Members(ms);
    case EcmaArray(ps) =>
      var ms := WritesMembers(ps, room - 5);
      f := Counted(Int32(|ps|), ms);
    case StrictArray(ps) =>
      var fs := WritesItems(ps, room - 5);
      BigInts(|ps|);
      f := Listed(Int32(|ps|), fs);
  }

  lemma {:induction false} WritesMembers(ps: seq<Prop>, room: int) returns (ms: seq<Named>)
    requires (forall p | p in ps :: AmfRoundTrip.CleanMember(p)) && AmfRoundTrip.WholeProps(ps, room)
    ensures forall m | m in ms :: GoodNamed(m)
    ensures WireMembers(ms) == EncodeProps(ps, room) && SaysMembers(ms) == AmfRoundTrip.PruneProps(ps, room)
    decreases ps, 0
  {
    hide EncodeProp, AmfRoundTrip.PruneProp, AmfRoundTrip.WholeProp, AmfRoundTrip.CleanMember, GoodNamed, Wire, Says;
    if ps == [] || EncodeProp(ps[0], room).None? {
      ms := [];
    } else {
      var m := WritesMember(ps[0], room);
      ms := WritesMembers(ps[1..], room - |EncodeProp(ps[0], room).value|);
      ms := [m] + ms;
    }
  }

  lemma {:induction false} WritesMember(p: Prop, room: int) returns (m: Named)
    requires AmfRoundTrip.CleanMember(p) && EncodeProp(p, room).Some? && AmfRoundTrip.WholeProp(p, room)
    ensures GoodNamed(m) && m.len + m.name + Wire(m.form) == EncodeProp(p, room).value
    ensures Prop(m.name, Says(m.form)) == AmfRoundTrip.PruneProp(p, room)
    decreases p, 1
  {
    hide EncodeValue, AmfRoundTrip.Prune, AmfRoundTrip.Whole, AmfRoundTrip.Clean, Good, Wire, Says, Int16, Big;
    var f := WritesForm(p.value, room - |NamePart(p)|);
    BigInts(|p.name|);
    m := Named(Int16(|p.name|), p.name, f);
  }

  lemma {:induction false} WritesItems(ps: seq<Prop>, room: int) returns (fs: seq<Form>)
    requires (forall p | p in ps :: AmfRoundTrip.CleanItem(p)) && AmfRoundTrip.WholeProps(ps, room)
    requires |AmfRoundTrip.PruneProps(ps, room)| == |ps|
    ensures |fs| == |ps| && forall g | g in fs :: Good(g)
    ensures WireItems(fs) == EncodeProps(ps, room) && SaysItems(fs) == AmfRoundTrip.PruneProps(ps, room)
    decreases ps, 0
  {
    hide EncodeProp, AmfRoundTrip.PruneProp, AmfRoundTrip.WholeProp, AmfRoundTrip.CleanItem, Good, Wire, Says;
    if ps == [] {
      fs := [];
    } else {
      var f := WritesItem(ps[0], room);
      fs := WritesItems(ps[1..], room - |EncodeProp(ps[0], room).value|);
      fs := [f] + fs;
    }
  }

  lemma {:induction false} WritesItem(p: Prop, room: int) returns (f: Form)
    requires AmfRoundTrip.CleanItem(p) && EncodeProp(p, room).Some? && AmfRoundTrip.WholeProp(p, room)
    ensures Good(f) && Wire(f) == EncodeProp(p, room).value && Prop([], Says(f)) == AmfRoundTrip.PruneProp(p, room)
    decreases p, 1
  {
    hide EncodeValue, AmfRoundTrip.Prune, AmfRoundTrip.Whole, AmfRoundTrip.Clean, Good, Wire, Says;
    assert NamePart(p) == [];
    f := WritesForm(p.value, room);
    assert [] + Wire(f) == Wire(f);
  }

  // ---------- after an error ----------

  /** An end marker stands at `i`. */
  predicate Marker(b: seq<byte>, i: int) {
    0 <= i <= |b| - 3 && b[i] == 0 && b[i + 1] == 0 && b[i + 2] == 9
  }

  /** After a member that cannot be read, decoding goes on behind the first end marker in what is left, and gives up
    * exactly when there is none. */
  lemma {:induction false} SkipExact(b: seq<byte>)
    ensures SkipToMarker(b).None? <==> forall i :: !Marker(b, i)
    ensures
      var r := SkipToMarker(b);
      r.Some? ==> Marker(b, r.value - 3) && forall i :: i < r.value - 3 ==> !Marker(b, i)
  {
    AtMarkerIs(b);
    assert AtEndMarker(b) <==> Marker(b, 0);
    if b != [] {
      SkipExact(b[1..]);
      hide AtEndMarker;
      forall i
        ensures Marker(b, i) <==> (i == 0 && Marker(b, 0)) || Marker(b[1..], i - 1)
      {
        MarkerLater(b, i);
      }
      hide Marker;
      if SkipToMarker(b).None? {
        assert forall i :: !Marker(b, i);
      } else if !AtEndMarker(b) {
        var n := SkipToMarker(b[1..]).value;
        assert Marker(b, n - 2);
      }
    }
  }

  lemma MarkerLater(b: seq<byte>, i: int)
    requires b != []
    ensures Marker(b, i) <==> (i == 0 && Marker(b, 0)) || Marker(b[1..], i - 1)
  {
  }
}
