/** amf.c in its own form: encoders that advance through a bounded buffer, decoders that count down nSize. */
module AmfBuffer {
  import opened Bytes
  import opened Amf

  /** memcpy to the cursor. */
  method Store(a: array<byte>, p: nat, s: seq<byte>) returns (q: nat)
    requires p + |s| <= a.Length
    modifies a
    ensures q == p + |s| && a[p..q] == s
    ensures forall i | 0 <= i < p || q <= i < a.Length :: a[i] == old(a[i])
  {
    q := p + |s|;
    for i := 0 to |s|
      invariant a[p..p + i] == s[..i]
      invariant forall j | 0 <= j < p || q <= j < a.Length :: a[j] == old(a[j])
    {
      a[p + i] := s[i];
    }
  }

  /** AMFProp_Encode; -1 is NULL. Never writes outside [p, end). */
  method PropEncode(prop: Prop, a: array<byte>, p: nat, end: nat) returns (r: int)
    requires p <= end <= a.Length
    modifies a
    ensures r == -1 <==> EncodeProp(prop, end - p).None?
    ensures r != -1 ==> p <= r <= end && a[p..r] == EncodeProp(prop, end - p).value
    ensures forall i | 0 <= i < p || end <= i < a.Length :: a[i] == old(a[i])
    decreases prop, 1
  {
    hide EncodeValue;
    if !prop.value.Null? && p + |prop.name| + 2 + 1 >= end {
      return -1;
    }
    var q := p;
    if !prop.value.Null? && |prop.name| > 0 {
      q := Store(a, q, Int16(|prop.name|));
      q := Store(a, q, prop.name);
    }
    assert a[p..q] == NamePart(prop);
    r := ValueEncode(prop.value, a, q, end);
    if r != -1 {
      assert a[p..r] == a[p..q] + a[q..r];
    }
  }

  /** The switch of AMFProp_Encode and the encoders it calls. */
  method ValueEncode(v: Value, a: array<byte>, p: nat, end: nat) returns (r: int)
    requires p <= end <= a.Length
    modifies a
    ensures r == -1 <==> EncodeValue(v, end - p).None?
    ensures r != -1 ==> p <= r <= end && a[p..r] == EncodeValue(v, end - p).value
    ensures forall i | 0 <= i < p || end <= i < a.Length :: a[i] == old(a[i])
    decreases v, 0
  {
    hide EncodeProps;
    match v {
      case Number(_) => r := ScalarEncode(v, a, p, end);
      case Boolean(_) => r := ScalarEncode(v, a, p, end);
      case String(_) => r := ScalarEncode(v, a, p, end);
      case Null => r := ScalarEncode(v, a, p, end);
      case Object(props) =>
        if p + 4 >= end {
          return -1;
        }
        var q := Store(a, p, [AMF_OBJECT]);
        r := PropsEncode(props, a, q, end);
        r := MarkerEncode(a, p, q, r, end, [AMF_OBJECT], EncodeProps(props, end - q));
      case EcmaArray(props) =>
        if p + 4 >= end {
          return -1;
        }
        var q := Store(a, p, [AMF_ECMA_ARRAY] + Int32(|props|));
        r := PropsEncode(props, a, q, end);
        r := MarkerEncode(a, p, q, r, end, [AMF_ECMA_ARRAY] + Int32(|props|), EncodeProps(props, end - q));
      case StrictArray(props) =>
        if p + 4 >= end {
          return -1;
        }
        var q := Store(a, p, [AMF_STRICT_ARRAY] + Int32(|props|));
        r := PropsEncode(props, a, q, end);
        assert a[p..r] == a[p..q] + a[q..r];
      case Date(_, _) => r := -1;
      case XmlDoc(_) => r := -1;
    }
  }

  method ScalarEncode(v: Value, a: array<byte>, p: nat, end: nat) returns (r: int)
    requires p <= end <= a.Length && (v.Number? || v.Boolean? || v.String? || v.Null?)
    modifies a
    ensures r == -1 <==> EncodeValue(v, end - p).None?
    ensures r != -1 ==> p <= r <= end && a[p..r] == EncodeValue(v, end - p).value
    ensures forall i | 0 <= i < p || end <= i < a.Length :: a[i] == old(a[i])
  {
    r := -1;
    match v {
      case Number(bits) =>
        if p + 1 + 8 <= end {
          r := Store(a, p, [AMF_NUMBER] + bits);
        }
      case Boolean(b) =>
        if p + 2 <= end {
          r := Store(a, p, [AMF_BOOLEAN, if b then 1 else 0]);
        }
      case String(s) =>
        if !(|s| < 65536 && p + 1 + 2 + |s| > end) && p + 1 + 4 + |s| <= end {
          r := Store(a, p, (if |s| < 65536 then [AMF_STRING] + Int16(|s|) else [AMF_LONG_STRING] + Int32(|s|)) + s);
        }
      case Null =>
        if p + 1 < end {
          r := Store(a, p, [AMF_NULL]);
        }
    }
  }

  /** The end marker behind header and properties, if three bytes and one to spare are left. */
  method MarkerEncode(a: array<byte>, p: nat, q: nat, r0: nat, end: nat, ghost header: seq<byte>,
                      ghost props: seq<byte>)
    returns (r: int)
    requires p <= q <= r0 <= end <= a.Length
    requires a[p..q] == header && a[q..r0] == props
    modifies a
    ensures r == -1 <==> Close(header + props, end - p).None?
    ensures r != -1 ==> p <= r <= end && a[p..r] == Close(header + props, end - p).value
    ensures forall i | 0 <= i < p || end <= i < a.Length :: a[i] == old(a[i])
  {
    assert a[p..r0] == a[p..q] + a[q..r0];
    if r0 + 3 >= end {
      return -1;
    }
    r := Store(a, r0, Int24(AMF_OBJECT_END));
    assert a[p..r] == a[p..r0] + a[r0..r];
  }

  lemma PropsEnd(room: int)
    ensures EncodeProps([], room) == []
  {
  }

  lemma PropsStep(ps: seq<Prop>, p: Prop, rest: seq<Prop>, room: int)
    requires ps == [p] + rest
    ensures EncodeProps(ps, room) == match EncodeProp(p, room)
                                     case None => []
                                     case Some(b) => b + EncodeProps(rest, room - |b|)
  {
    hide EncodeProp;
    assert ps[1..] == rest;
  }

  /** The loop over properties shared by the three container encoders. */
  method PropsEncode(ps: seq<Prop>, a: array<byte>, p: nat, end: nat) returns (q: nat)
    requires p <= end <= a.Length
    modifies a
    ensures p <= q <= end && a[p..q] == EncodeProps(ps, end - p)
    ensures forall i | 0 <= i < p || end <= i < a.Length :: a[i] == old(a[i])
    decreases ps, 0
  {
    hide EncodeProp, EncodeProps;
    q := p;
    ghost var done: seq<byte> := [];
    for i := 0 to |ps|
      invariant p <= q <= end && a[p..q] == done
      invariant EncodeProps(ps, end - p) == done + EncodeProps(ps[i..], end - q)
      invariant forall j | 0 <= j < p || end <= j < a.Length :: a[j] == old(a[j])
    {
      PropsStep(ps[i..], ps[i], ps[i + 1..], end - q);
      ghost var q0 := q;
      var res := PropEncode(ps[i], a, q, end);
      assert a[p..q] == done;
      if res == -1 {
        return;
      }
      q := res;
      assert a[p..q] == done + a[q0..q];
      Assoc(done, a[q0..q], EncodeProps(ps[i + 1..], end - q));
      done := done + a[q0..q];
    }
    PropsEnd(end - q);
  }

  // ---------- the decoders ----------

  /** The bytes a decoder still has: nSize of them from the cursor, none once nSize has gone below zero. */
  function Window(buf: seq<byte>, at: nat, nSize: int): seq<byte>
    requires nSize > 0 ==> at + nSize <= |buf|
  {
    if nSize <= 0 then [] else buf[at..at + nSize]
  }

  /** What the properties so far and a decoding of the rest make together. */
  function Joined(ps: seq<Prop>, used: int, more: Option<Decoded<seq<Prop>>>): Option<Decoded<seq<Prop>>>
    requires used >= 0
  {
    match more
    case None => None
    case Some(d) => Some(Decoded(ps + d.value, used + d.used))
  }

  function Skipped(n: Option<nat>): Option<Decoded<seq<Prop>>> {
    match n
    case None => None
    case Some(k) => Some(Decoded([], k))
  }

  lemma WindowAfter(buf: seq<byte>, at: nat, nSize: int, used: nat)
    requires nSize > 0 && at + nSize <= |buf|
    ensures Window(buf, at + used, nSize - used) == Rest(Window(buf, at, nSize), used)
  {
  }

  lemma JoinedStep(ps: seq<Prop>, used: nat, p: Prop, n: nat, more: Option<Decoded<seq<Prop>>>)
    ensures Joined(ps, used, Joined([p], n, more)) == Joined(ps + [p], used + n, more)
  {
    if more.Some? {
      assert ps + ([p] + more.value.value) == ps + [p] + more.value.value;
    }
  }

  lemma JoinedEnd(ps: seq<Prop>, used: nat, n: nat)
    ensures Joined(ps, used, Some(Decoded([], n))) == Some(Decoded(ps, used + n))
  {
    assert ps + [] == ps;
  }

  /** AMF_Decode; nRes -1 is an error no later end marker mended. */
  method ObjectDecode(buf: seq<byte>, at0: nat, nSize0: int, named: bool) returns (nRes: int, props: seq<Prop>)
    requires nSize0 > 0 ==> at0 + nSize0 <= |buf|
    ensures var d := DecodeProps(Window(buf, at0, nSize0), named);
      if nRes == -1 then d.None? else nRes >= 0 && d == Some(Decoded(props, nRes))
    decreases if nSize0 < 0 then 0 else nSize0, 2
  {
    hide DecodeProp, SkipToMarker, DecodeProps, Joined, Skipped, Rest, Window;
    var at, nSize, bError := at0, nSize0, false;
    props := [];
    ghost var result := DecodeProps(Window(buf, at, nSize), named);
    assert result == Joined([], 0, result) by { StartJoined(result); }
    while nSize > 0
      invariant at - at0 == nSize0 - nSize >= 0 && (nSize > 0 ==> at + nSize <= |buf|)
      invariant result == Joined(props, at - at0,
        if bError then Skipped(SkipToMarker(Window(buf, at, nSize))) else DecodeProps(Window(buf, at, nSize), named))
      decreases nSize, !bError
    {
      ghost var b := Window(buf, at, nSize);
      WindowIs(buf, at, nSize);
      DecodePropsCases(b, named);
      if nSize >= 3 && DecodeInt24(buf[at..at + nSize]) == AMF_OBJECT_END {
        nSize := nSize - 3;
        JoinedEnd(props, at - at0, 3);
        return nSize0 - nSize, props;
      }
      if bError {
        WindowAfter(buf, at, nSize, 1);
        SkipOne(props, at - at0, b);
        nSize, at := nSize - 1, at + 1;
      } else {
        var n, prop := PropDecode(buf, at, nSize, named);
        if n == -1 {
          bError := true;
        } else {
          WindowAfter(buf, at, nSize, n);
          JoinedStep(props, at - at0, prop, n, DecodeProps(Rest(b, n), named));
          nSize, at := nSize - n, at + n;
          props := props + [prop];
        }
      }
    }
    WindowEnd(buf, at, nSize, props, at - at0, named);
    JoinedEnd(props, at - at0, 0);
    nRes := if bError then -1 else nSize0 - nSize;
  }

  lemma StartJoined(r: Option<Decoded<seq<Prop>>>)
    ensures r == Joined([], 0, r)
  {
    if r.Some? {
      assert [] + r.value.value == r.value.value;
    }
  }

  lemma WindowIs(buf: seq<byte>, at: nat, nSize: int)
    requires nSize > 0 && at + nSize <= |buf|
    ensures Window(buf, at, nSize) == buf[at..at + nSize]
  {
  }

  lemma WindowEnd(buf: seq<byte>, at: nat, nSize: int, ps: seq<Prop>, used: nat, named: bool)
    requires nSize <= 0
    ensures Joined(ps, used, Skipped(SkipToMarker(Window(buf, at, nSize)))) == None
    ensures DecodeProps(Window(buf, at, nSize), named) == Some(Decoded([], 0))
  {
  }

  /** The turns of AMF_Decode's loop. */
  lemma DecodePropsCases(b: seq<byte>, named: bool)
    requires b != []
    ensures AtEndMarker(b) ==>
      DecodeProps(b, named) == Some(Decoded([], 3)) && Skipped(SkipToMarker(b)) == Some(Decoded([], 3))
    ensures !AtEndMarker(b) && DecodeProp(b, named).None? ==> DecodeProps(b, named) == Skipped(SkipToMarker(b))
    ensures !AtEndMarker(b) && DecodeProp(b, named).Some? ==>
      var p := DecodeProp(b, named).value;
      DecodeProps(b, named) == Joined([p.value], p.used, DecodeProps(Rest(b, p.used), named))
  {
    hide DecodeProp;
  }

  lemma SkipOne(ps: seq<Prop>, used: nat, b: seq<byte>)
    requires b != [] && !AtEndMarker(b)
    ensures Joined(ps, used, Skipped(SkipToMarker(b))) == Joined(ps, used + 1, Skipped(SkipToMarker(Rest(b, 1))))
  {
    hide SkipToMarker, AtEndMarker;
    SkippedOn(b);
    assert Rest(b, 1) == b[1..];
  }

  lemma SkippedOn(b: seq<byte>)
    requires b != [] && !AtEndMarker(b)
    ensures SkipToMarker(b) == match SkipToMarker(b[1..]) case None => None case Some(n) => Some(1 + n)
  {
    hide AtEndMarker;
  }

  /** AMF_DecodeArray. */
  method ItemsDecode(buf: seq<byte>, at0: nat, nSize0: int, nArrayLen: int) returns (nRes: int, props: seq<Prop>)
    requires nSize0 > 0 ==> at0 + nSize0 <= |buf|
    ensures var d := DecodeItems(Window(buf, at0, nSize0), nArrayLen);
      if nRes == -1 then d.None? else nRes >= 0 && d == Some(Decoded(props, nRes))
    decreases if nSize0 < 0 then 0 else nSize0, 3
  {
    hide DecodeProp, DecodeItems, Joined;
    var at, nSize, bError, left := at0, nSize0, false, nArrayLen;
    props := [];
    ghost var result := DecodeItems(Window(buf, at, nSize), left);
    StartJoined(result);
    while left > 0
      invariant at - at0 == nSize0 - nSize >= 0 && (nSize > 0 ==> at + nSize <= |buf|)
      invariant if bError then result.None?
                else result == Joined(props, at - at0, DecodeItems(Window(buf, at, nSize), left))
      decreases left
    {
      ghost var b := Window(buf, at, nSize);
      DecodeItemsCases(b, left, props, at - at0);
      left := left - 1;
      var n, prop := PropDecode(buf, at, nSize, false);
      if n == -1 {
        bError := true;
      } else {
        WindowAfter(buf, at, nSize, n);
        JoinedStep(props, at - at0, prop, n, DecodeItems(Rest(b, n), left));
        nSize, at := nSize - n, at + n;
        props := props + [prop];
      }
    }
    ItemsEnd(Window(buf, at, nSize), left);
    JoinedEnd(props, at - at0, 0);
    nRes := if bError then -1 else nSize0 - nSize;
  }

  lemma DecodeItemsCases(b: seq<byte>, count: int, ps: seq<Prop>, used: nat)
    requires count > 0
    ensures DecodeProp(b, false).None? ==> Joined(ps, used, DecodeItems(b, count)) == None
    ensures DecodeProp(b, false).Some? ==>
      var p := DecodeProp(b, false).value;
      DecodeItems(b, count) == Joined([p.value], p.used, DecodeItems(Rest(b, p.used), count - 1))
  {
    hide DecodeProp;
  }

  lemma ItemsEnd(b: seq<byte>, count: int)
    requires count <= 0
    ensures DecodeItems(b, count) == Some(Decoded([], 0))
  {
  }

  /** AMFProp_Decode: the name, if wanted, and then the value. */
  method PropDecode(buf: seq<byte>, at: nat, nSize0: int, named: bool) returns (nRes: int, prop: Prop)
    requires nSize0 > 0 ==> at + nSize0 <= |buf|
    ensures var d := DecodeProp(Window(buf, at, nSize0), named);
      if nRes == -1 then d.None? else nRes > 0 && nSize0 > 0 && d == Some(Decoded(prop, nRes))
    decreases if nSize0 < 0 then 0 else nSize0, 1
  {
    hide DecodeValue;
    prop := Prop([], Null);
    var p, nSize := at, nSize0;
    if nSize <= 0 {
      return -1, prop;
    }
    ghost var b := Window(buf, at, nSize);
    if named && nSize < 4 {
      return -1, prop;
    }
    if named {
      var nNameSize := DecodeInt16(buf[p..p + nSize]);
      if nNameSize > nSize - 2 {
        return -1, prop;
      }
      prop := prop.(name := buf[p + 2..p + 2 + nNameSize]);
      SubSlice(buf, at, nSize0, 2, 2 + nNameSize);
      nSize, p := nSize - (2 + nNameSize), p + 2 + nNameSize;
    }
    if nSize == 0 {
      return -1, prop;
    }
    assert buf[p..p + nSize] == b[nSize0 - nSize..];
    var v;
    nRes, v := ValueDecode(buf, p, nSize);
    if nRes != -1 {
      prop := prop.(value := v);
      nRes := nRes + (nSize0 - nSize);
    }
  }

  /** The type switch of AMFProp_Decode. */
  method ValueDecode(buf: seq<byte>, at: nat, nSize0: int) returns (nRes: int, v: Value)
    requires nSize0 > 0 && at + nSize0 <= |buf|
    ensures var d := DecodeValue(buf[at..at + nSize0]);
      if nRes == -1 then d.None? else nRes > 0 && d == Some(Decoded(v, nRes))
    decreases nSize0, 0
  {
    hide DecodeProps, DecodeItems;
    ghost var d := buf[at..at + nSize0][1..];
    var p, nSize := at + 1, nSize0 - 1;
    var t := buf[at];
    assert d == buf[p..p + nSize];
    v := Null;
    if t == AMF_OBJECT {
      var props;
      nRes, props := ObjectDecode(buf, p, nSize, true);
      assert Window(buf, p, nSize) == d;
      if nRes != -1 {
        nRes, v := 1 + nRes, Object(props);
      }
    } else if t == AMF_ECMA_ARRAY {
      var props;
      assert Window(buf, p + 4, nSize - 4) == Rest(d, 4);
      nRes, props := ObjectDecode(buf, p + 4, nSize - 4, true);
      if nRes != -1 {
        nRes, v := 5 + nRes, EcmaArray(props);
      }
    } else if t == AMF_STRICT_ARRAY {
      if nSize < 4 {
        return -1, v;
      }
      var props;
      var nArrayLen := AsSigned(DecodeInt32(buf[p..p + nSize]));
      assert Window(buf, p + 4, nSize - 4) == d[4..];
      nRes, props := ItemsDecode(buf, p + 4, nSize - 4, nArrayLen);
      if nRes != -1 {
        nRes, v := 5 + nRes, StrictArray(props);
      }
    } else {
      nRes, v := ScalarDecode(t, buf[p..p + nSize]);
    }
  }

  /** The types that hold no properties. */
  method ScalarDecode(t: byte, d: seq<byte>) returns (nRes: int, v: Value)
    requires t != AMF_OBJECT && t != AMF_ECMA_ARRAY && t != AMF_STRICT_ARRAY
    ensures var r := DecodeValue([t] + d);
      if nRes == -1 then r.None? else nRes > 0 && r == Some(Decoded(v, nRes))
  {
    hide DecodeProps, DecodeItems;
    assert ([t] + d)[1..] == d;
    nRes, v := -1, Null;
    var nSize := |d|;
    if t == AMF_NUMBER {
      if nSize >= 8 {
        nRes, v := 9, Number(d[..8]);
      }
    } else if t == AMF_BOOLEAN {
      if nSize >= 1 {
        nRes, v := 2, Boolean(d[0] != 0);
      }
    } else if t == AMF_STRING {
      if nSize >= 2 && nSize >= DecodeInt16(d) + 2 {
        nRes, v := 3 + DecodeInt16(d), String(d[2..2 + DecodeInt16(d)]);
      }
    } else if t == AMF_NULL || t == AMF_UNDEFINED || t == AMF_UNSUPPORTED {
      nRes := 1;
    } else if t == AMF_DATE {
      if nSize >= 10 {
        nRes, v := 11, Date(d[..8], DecodeInt16(d[8..]));
      }
    } else if t == AMF_LONG_STRING || t == AMF_XML_DOC {
      if nSize >= 4 && nSize >= DecodeInt32(d) + 4 {
        var s := d[4..4 + DecodeInt32(d)];
        nRes, v := 5 + DecodeInt32(d), if t == AMF_LONG_STRING then String(s) else XmlDoc(s);
      }
    }
  }
}
