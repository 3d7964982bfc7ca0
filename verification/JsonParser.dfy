/** The parser as it runs: a cursor over NUL-terminated text, strings decoded into room counted beforehand. */
module JsonParser {
  import opened Bytes
  import opened Json

  /** Text with its terminating NUL. */
  ghost predicate Terminated(s: Text) {
    s != [] && s[|s| - 1] == 0 && 0 !in s[..|s| - 1]
  }

  /** What is left of the text from a cursor on. */
  ghost function From(s: Text, at: nat): Text
    requires at < |s|
  {
    s[at..|s| - 1]
  }

  lemma At(s: Text, at: nat)
    requires Terminated(s) && at < |s|
    ensures First(From(s, at)) == s[at] && (s[at] == 0 <==> at == |s| - 1) && (at == |s| - 1 <==> From(s, at) == [])
    ensures |From(s, at)| == |s| - 1 - at
    ensures at + 1 < |s| ==> From(s, at)[1..] == From(s, at + 1)
  {
    if at < |s| - 1 {
      assert s[..|s| - 1][at] == s[at];
    }
  }

  /** Dropping `n` characters moves the cursor by `n`. */
  lemma Ahead(s: Text, at: nat, n: nat)
    requires at + n < |s|
    ensures From(s, at)[n..] == From(s, at + n) && From(s, at)[..n] == s[at..at + n]
  {
  }

  method SkipBlanks(s: Text, at: nat) returns (end: nat)
    requires Terminated(s) && at < |s|
    ensures at <= end < |s| && From(s, end) == Skip(From(s, at))
  {
    end := at;
    At(s, at);
    while s[end] != 0 && s[end] <= 32
      invariant at <= end < |s| && Skip(From(s, end)) == Skip(From(s, at))
      invariant First(From(s, end)) == s[end] && (s[end] == 0 <==> From(s, end) == [])
      decreases |s| - end
    {
      At(s, end);
      end := end + 1;
      At(s, end);
    }
  }

  method ReadDigits(s: Text, at: nat) returns (n: nat, end: nat)
    requires Terminated(s) && at < |s|
    ensures at <= end < |s| && (n, From(s, end)) == TakeDigits(From(s, at), 0)
  {
    n, end := 0, at;
    At(s, at);
    while IsDigit(s[end])
      invariant at <= end < |s| && TakeDigits(From(s, end), n) == TakeDigits(From(s, at), 0)
      invariant First(From(s, end)) == s[end]
      decreases |s| - end
    {
      At(s, end);
      n := n * 10 + (s[end] - 48);
      end := end + 1;
      At(s, end);
    }
  }

  method ReadNumber(s: Text, at: nat) returns (ok: bool, n: int, end: nat)
    requires Terminated(s) && at < |s| && (s[at] == MINUS || IsDigit(s[at]))
    requires First(From(s, at)) == s[at]
    ensures ok <==> ParseNumber(From(s, at)).Some?
    ensures ok ==> at < end < |s| && ParseNumber(From(s, at)) == Some((n, From(s, end)))
  {
    hide TakeDigits;
    At(s, at);
    end := at;
    if s[at] == MINUS {
      end := end + 1;
    }
    At(s, end);
    if s[end] == ZERO {
      end := end + 1;
    }
    At(s, end);
    ghost var significant := From(s, end);
    var m: nat := 0;
    if 49 <= s[end] <= 57 {
      m, end := ReadDigits(s, end);
    }
    At(s, end);
    n := if s[at] == MINUS then -(m as int) else m as int;
    ok := !(s[end] == 46 && IsDigit(s[end + 1])) && s[end] != 101 && s[end] != 69;
    if end + 1 < |s| {
      At(s, end + 1);
    }
  }

  // Strings

  /** The room a string is given: one character for each it has, an escape counting as one. */
  function Room(t: Text): nat {
    if t == [] || t[0] == QUOTE then 0
    else if t[0] == BACKSLASH then 1 + if |t| < 2 then 0 else Room(t[2..])
    else 1 + Room(t[1..])
  }

  /** Every backslash before the closing quote is followed by something. */
  predicate Scans(t: Text) {
    if t == [] || t[0] == QUOTE then true
    else if t[0] == BACKSLASH then |t| >= 2 && Scans(t[2..])
    else Scans(t[1..])
  }

  lemma {:induction false} OrdinaryRoom(a: Text, b: Text)
    requires Ordinary(a)
    ensures Room(a + b) == |a| + Room(b) && Scans(a + b) == Scans(b)
  {
    if a == [] {
      assert a + b == b;
    } else {
      assert (a + b)[1..] == a[1..] + b;
      OrdinaryRoom(a[1..], b);
    }
  }

  /** An escape needs no more room than it was counted for. */
  lemma EscapeFits(t: Text)
    requires First(t) == BACKSLASH && Unescape(t).Some?
    ensures |Unescape(t).value.0| + Room(t[Unescape(t).value.1..]) <= Room(t)
    ensures Scans(t) == Scans(t[Unescape(t).value.1..])
  {
    if t[1] == LOWER_U {
      assert t[2..] == t[2..6] + t[6..];
      OrdinaryRoom(t[2..6], t[6..]);
      if Unescape(t).value.1 == 12 {
        assert t[6..][2..] == t[8..12] + t[12..];
        OrdinaryRoom(t[8..12], t[12..]);
      }
    }
  }

  /** A string that parses scans: the two loops over it stay in step. */
  lemma {:induction false} ParsedScans(t: Text)
    requires ParseChars(t).Some?
    ensures Scans(t)
    decreases |t|
  {
    hide Unescape;
    if t != [] && t[0] != QUOTE {
      if t[0] == BACKSLASH {
        EscapeFits(t);
        ParsedScans(t[Unescape(t).value.1..]);
      } else {
        ParsedScans(t[1..]);
      }
    }
  }

  /** Characters already decoded, in front of what is still to be decoded. */
  function Join(done: Text, rest: Option<(Text, Text)>): Option<(Text, Text)> {
    match rest
    case None => None
    case Some((s, end)) => Some((done + s, end))
  }

  lemma JoinStep(done: Text, t: Text)
    requires t != [] && t[0] != QUOTE
    ensures t[0] != BACKSLASH ==> Join(done, ParseChars(t)) == Join(done + [t[0]], ParseChars(t[1..]))
    ensures t[0] == BACKSLASH && Unescape(t).None? ==> Join(done, ParseChars(t)) == None
    ensures
      t[0] == BACKSLASH && Unescape(t).Some? ==>
        Join(done, ParseChars(t)) == Join(done + Unescape(t).value.0, ParseChars(t[Unescape(t).value.1..]))
  {
    hide Unescape;
    if t[0] != BACKSLASH {
      if ParseChars(t[1..]).Some? {
        Assoc(done, [t[0]], ParseChars(t[1..]).value.0);
      }
    } else if Unescape(t).Some? {
      var (c, n) := Unescape(t).value;
      if ParseChars(t[n..]).Some? {
        Assoc(done, c, ParseChars(t[n..]).value.0);
      }
    }
  }

  /** Counts the room for a string; not well if a backslash ends the text. */
  method CountRoom(s: Text, at: nat) returns (ok: bool, len: nat)
    requires Terminated(s) && at < |s|
    ensures ok ==> len == Room(From(s, at))
    ensures !ok ==> ParseChars(From(s, at)) == None
  {
    hide ParseChars, Unescape;
    len, ok := 0, true;
    var ptr := at;
    At(s, at);
    if ParseChars(From(s, at)).Some? {
      ParsedScans(From(s, at));
    }
    while s[ptr] != QUOTE && s[ptr] != 0
      invariant at <= ptr < |s| && len + Room(From(s, ptr)) == Room(From(s, at))
      invariant Scans(From(s, ptr)) == Scans(From(s, at))
      invariant First(From(s, ptr)) == s[ptr] && (s[ptr] == 0 <==> From(s, ptr) == [])
      decreases |s| - ptr
    {
      At(s, ptr);
      len := len + 1;
      if s[ptr] == BACKSLASH {
        if s[ptr + 1] == 0 {
          At(s, ptr + 1);
          return false, len;
        }
        At(s, ptr + 1);
        Ahead(s, ptr, 2);
        ptr := ptr + 2;
      } else {
        ptr := ptr + 1;
      }
      At(s, ptr);
    }
  }

  /** Whether four characters follow that a string may go on with; otherwise the text is not part of the model. */
  method FourMore(s: Text, at: nat) returns (ok: bool)
    requires Terminated(s) && at < |s|
    ensures ok <==> |From(s, at)| >= 4 && Ordinary(From(s, at)[..4])
  {
    var k := 0;
    At(s, at);
    while k < 4
      invariant k <= 4 && at + k < |s| && Ordinary(From(s, at)[..k])
    {
      At(s, at + k);
      if s[at + k] == 0 || s[at + k] == QUOTE || s[at + k] == BACKSLASH {
        assert |From(s, at)| > 3 ==> From(s, at)[..4][k] == s[at + k];
        return false;
      }
      assert From(s, at)[..k + 1] == From(s, at)[..k] + [s[at + k]];
      k := k + 1;
    }
    ok := true;
  }

  /** Four hexadecimal digits; the first character that is none gives 0. */
  method ReadHex4(s: Text, at: nat) returns (h: nat)
    requires at + 4 <= |s|
    ensures h == Hex4(s[at..at + 4])
  {
    h := 0;
    if HexValue(s[at]) == 16 { return 0; }
    h := h + HexValue(s[at]);
    h := h * 16;
    if HexValue(s[at + 1]) == 16 { return 0; }
    h := h + HexValue(s[at + 1]);
    h := h * 16;
    if HexValue(s[at + 2]) == 16 { return 0; }
    h := h + HexValue(s[at + 2]);
    h := h * 16;
    if HexValue(s[at + 3]) == 16 { return 0; }
    h := h + HexValue(s[at + 3]);
  }

  /** What is left of a code point when its low six bits have been taken off `k` times, and the bytes taken off. */
  function Shifted(uc: nat, k: nat): nat {
    if k == 0 then uc else Shifted(uc, k - 1) / 0x40
  }

  function LowBytes(uc: nat, k: nat): (s: seq<byte>)
    ensures |s| == k
  {
    if k == 0 then [] else [0x80 + Shifted(uc, k - 1) % 0x40] + LowBytes(uc, k - 1)
  }

  function FirstMark(len: nat): nat {
    if len == 1 then 0 else if len == 2 then 0xC0 else if len == 3 then 0xE0 else 0xF0
  }

  /** UTF-8 as repeated shifting produces it. */
  lemma Utf8Shifted(uc: nat)
    requires 0 < uc < 0x11_0000
    ensures
      var len := |Utf8(uc)|;
      && len == (if uc < 0x80 then 1 else if uc < 0x800 then 2 else if uc < 0x1_0000 then 3 else 4)
      && Shifted(uc, len - 1) + FirstMark(len) < 256
      && Utf8(uc) == [Shifted(uc, len - 1) + FirstMark(len)] + LowBytes(uc, len - 1)
  {
    assert uc / 0x40 / 0x40 == uc / 0x1000 && uc / 0x1000 / 0x40 == uc / 0x4_0000;
    assert Shifted(uc, 1) == uc / 0x40 && Shifted(uc, 2) == uc / 0x1000 && Shifted(uc, 3) == uc / 0x4_0000;
    assert LowBytes(uc, 1) == [0x80 + uc % 0x40];
    assert LowBytes(uc, 2) == [0x80 + uc / 0x40 % 0x40] + LowBytes(uc, 1);
    assert LowBytes(uc, 3) == [0x80 + uc / 0x1000 % 0x40] + LowBytes(uc, 2);
  }

  /** Writes a code point as UTF-8, its last byte first. */
  method WriteUtf8(out: array<byte>, p: nat, uc: nat) returns (end: nat)
    requires 0 < uc < 0x11_0000 && p + |Utf8(uc)| <= out.Length
    modifies out
    ensures end == p + |Utf8(uc)| && out[..end] == old(out[..p]) + Utf8(uc)
  {
    hide Utf8, Shifted, LowBytes;
    Utf8Shifted(uc);
    NothingShifted(uc);
    var len := 4;
    if uc < 0x80 {
      len := 1;
    } else if uc < 0x800 {
      len := 2;
    } else if uc < 0x1_0000 {
      len := 3;
    }
    end := p + len;
    var q, u := end, uc;
    if len >= 4 {
      q, u := WriteLow(out, q, u, uc, end);
    }
    if len >= 3 {
      q, u := WriteLow(out, q, u, uc, end);
    }
    if len >= 2 {
      q, u := WriteLow(out, q, u, uc, end);
    }
    q := q - 1;
    out[q] := u + FirstMark(len);
    assert out[..end] == out[..p] + ([out[p]] + out[p + 1..end]);
  }

  lemma NothingShifted(uc: nat)
    ensures Shifted(uc, 0) == uc && LowBytes(uc, 0) == []
  {
  }

  /** The lowest six bits go before what is written, and the others are left. */
  method WriteLow(out: array<byte>, q: nat, u: nat, ghost uc: nat, ghost end: nat) returns (q': nat, u': nat)
    requires 0 < q <= end <= out.Length && u == Shifted(uc, end - q) && out[q..end] == LowBytes(uc, end - q)
    modifies out
    ensures q' == q - 1 && u' == Shifted(uc, end - q') && out[q'..end] == LowBytes(uc, end - q')
    ensures out[..q'] == old(out[..q'])
  {
    q', u' := q - 1, u / 0x40;
    out[q'] := 0x80 + u % 0x40;
    assert out[q'..end] == [out[q']] + out[q..end];
  }

  /** A \u escape, the cursor on its `u`; a high surrogate takes the escape behind it along. */
  method ReadUnicode(s: Text, ptr: nat, out: array<byte>, p: nat) returns (ok: bool, next: nat, end: nat)
    requires Terminated(s) && ptr + 2 < |s| && s[ptr] == BACKSLASH && s[ptr + 1] == LOWER_U
    requires var e := UnescapeUnicode(From(s, ptr)); e.Some? ==> p + |e.value.0| <= out.Length
    requires p <= out.Length
    modifies out
    ensures ok <==> UnescapeUnicode(From(s, ptr)).Some?
    ensures
      ok ==>
        var e := UnescapeUnicode(From(s, ptr)).value;
        next == ptr + e.1 < |s| && end == p + |e.0| && out[..end] == old(out[..p]) + e.0
  {
    hide Utf8, Hex4;
    At(s, ptr);
    Ahead(s, ptr, 2);
    next, end := ptr + 2, p;
    ok := FourMore(s, next);
    if !ok {
      return;
    }
    UnicodeAt(s, ptr);
    var uc := ReadHex4(s, next);
    next := next + 4;
    if 0xDC00 <= uc <= 0xDFFF || uc == 0 {
      return;
    }
    if 0xD800 <= uc <= 0xDBFF {
      At(s, next);
      if s[next] != BACKSLASH || s[next + 1] != LOWER_U {
        return;
      }
      At(s, next + 1);
      ok := FourMore(s, next + 2);
      if !ok {
        return;
      }
      var uc2 := ReadHex4(s, next + 2);
      next := next + 6;
      if uc2 < 0xDC00 || uc2 > 0xDFFF {
        return;
      }
      uc := 0x1_0000 + uc % 0x400 * 0x400 + uc2 % 0x400;
    }
    end := WriteUtf8(out, p, uc);
  }

  /** The parts of the text an escape is read from. */
  lemma UnicodeAt(s: Text, ptr: nat)
    requires Terminated(s) && ptr + 6 < |s|
    ensures var t := From(s, ptr);
      && |t| >= 6 && t[2..6] == s[ptr + 2..ptr + 6] == From(s, ptr + 2)[..4]
      && (|t| >= 7 ==> t[6] == s[ptr + 6] && ptr + 7 < |s|) && (|t| >= 8 ==> t[7] == s[ptr + 7] && ptr + 8 < |s|)
      && (ptr + 8 < |s| ==> |t| >= 8 && |From(s, ptr + 8)| == |t| - 8)
      && (|t| >= 12 ==> t[8..12] == s[ptr + 8..ptr + 12] == From(s, ptr + 8)[..4])
      && (|t| == 6 ==> s[ptr + 6] == 0) && (|t| == 7 ==> s[ptr + 7] == 0)
  {
    Cut(s, ptr, 2, 6);
    if |From(s, ptr)| >= 12 {
      Cut(s, ptr, 8, 12);
    }
  }

  lemma Cut(s: Text, at: nat, i: nat, j: nat)
    requires i <= j && at + j < |s|
    ensures From(s, at)[i..j] == s[at + i..at + j] == From(s, at + i)[..j - i]
  {
    forall k | 0 <= k < j - i
      ensures From(s, at)[i..j][k] == s[at + i..at + j][k] == From(s, at + i)[..j - i][k]
    {
      assert s[at + i + k] == From(s, at)[i + k] == From(s, at + i)[k];
    }
  }

  /** One escape, the cursor on its backslash. */
  method ReadEscape(s: Text, ptr: nat, out: array<byte>, p: nat) returns (ok: bool, next: nat, end: nat)
    requires Terminated(s) && ptr + 1 < |s| && s[ptr] == BACKSLASH && First(From(s, ptr)) == BACKSLASH
    requires var e := Unescape(From(s, ptr)); e.Some? ==> p + |e.value.0| <= out.Length
    requires p <= out.Length
    modifies out
    ensures ok <==> Unescape(From(s, ptr)).Some?
    ensures
      ok ==>
        var e := Unescape(From(s, ptr)).value;
        next == ptr + e.1 < |s| && end == p + |e.0| && out[..end] == old(out[..p]) + e.0
  {
    hide UnescapeUnicode;
    At(s, ptr);
    At(s, ptr + 1);
    var c := s[ptr + 1];
    next, end := ptr + 2, p;
    if c == 0 {
      return false, next, end;
    }
    assert |From(s, ptr)| >= 2 && From(s, ptr)[1] == c;
    if c == LOWER_U {
      ok, next, end := ReadUnicode(s, ptr, out, p);
      return;
    }
    out[p] := if c == 98 then 8 else if c == 102 then 12 else if c == 110 then 10 else if c == 114 then 13
              else if c == 116 then 9 else c;
    end := p + 1;
    assert out[..end] == out[..p] + [out[p]];
    ok := true;
  }

  /** Decodes a string into room counted beforehand; every write is inside it. */
  method ReadString(s: Text, at: nat) returns (ok: bool, str: Text, end: nat)
    requires Terminated(s) && at < |s|
    ensures ok <==> ParseString(From(s, at)).Some?
    ensures ok ==> at < end < |s| && ParseString(From(s, at)) == Some((str, From(s, end)))
  {
    hide ParseChars, Unescape, Room;
    str, end := [], at;
    At(s, at);
    if s[at] != QUOTE {
      return false, str, end;
    }
    At(s, at + 1);
    var len;
    ok, len := CountRoom(s, at + 1);
    if !ok {
      return;
    }
    var out := new byte[len + 1](_ => 0);
    var p: nat;
    ok, p, end := DecodeChars(s, at + 1, out);
    if !ok {
      return;
    }
    str := out[..p];
    out[p] := 0;
  }

  method DecodeChars(s: Text, at: nat, out: array<byte>) returns (ok: bool, p: nat, end: nat)
    requires Terminated(s) && at < |s| && out.Length == Room(From(s, at)) + 1
    modifies out
    ensures ok <==> ParseChars(From(s, at)).Some?
    ensures ok ==> at <= end < |s| && p < out.Length && ParseChars(From(s, at)) == Some((out[..p], From(s, end)))
  {
    hide Unescape;
    p, end, ok := 0, at, true;
    At(s, at);
    assert out[..0] == [];
    JoinNothing(ParseChars(From(s, at)));
    hide ParseChars, Room;
    while s[end] != QUOTE && s[end] != 0
      invariant at <= end < |s| && p + Room(From(s, end)) < out.Length
      invariant Join(out[..p], ParseChars(From(s, end))) == ParseChars(From(s, at))
      invariant First(From(s, end)) == s[end] && (s[end] == 0 <==> end == |s| - 1)
      decreases |s| - end
    {
      At(s, end);
      ok, p, end := DecodeOne(s, end, out, p);
      if !ok {
        return;
      }
      At(s, end);
    }
    At(s, end);
    JoinEnd(out[..p], From(s, end));
    if s[end] == QUOTE {
      end := end + 1;
    }
  }

  lemma JoinNothing(r: Option<(Text, Text)>)
    ensures Join([], r) == r
  {
    if r.Some? {
      assert [] + r.value.0 == r.value.0;
    }
  }

  /** At the closing quote, or at the end of the text. */
  lemma JoinEnd(done: Text, t: Text)
    requires t == [] || t[0] == QUOTE
    ensures Join(done, ParseChars(t)) == Some((done, if t == [] then [] else t[1..]))
  {
    assert done + [] == done;
  }

  method DecodeOne(s: Text, at: nat, out: array<byte>, p0: nat) returns (ok: bool, p: nat, end: nat)
    requires Terminated(s) && at < |s| - 1 && s[at] != QUOTE && s[at] != 0 && First(From(s, at)) == s[at]
    requires p0 + Room(From(s, at)) < out.Length
    modifies out
    ensures !ok ==> Join(old(out[..p0]), ParseChars(From(s, at))) == None
    ensures
      ok ==>
        && at < end < |s| && p + Room(From(s, end)) < out.Length
        && Join(out[..p], ParseChars(From(s, end))) == Join(old(out[..p0]), ParseChars(From(s, at)))
  {
    hide ParseChars, Unescape;
    At(s, at);
    p, end, ok := p0, at, true;
    ghost var done, t := out[..p0], From(s, at);
    JoinStep(done, t);
    if s[at] != BACKSLASH {
      out[p] := s[at];
      p, end := p + 1, end + 1;
      assert out[..p] == done + [s[at]];
    } else {
      if Unescape(t).Some? {
        EscapeFits(t);
        Ahead(s, at, Unescape(t).value.1);
      }
      ok, end, p := ReadEscape(s, at, out, p0);
    }
  }

  // Values

  /** Children already read, in front of what is still to be read. */
  function Prepend<T>(done: seq<T>, rest: Option<(seq<T>, Text)>): Option<(seq<T>, Text)> {
    match rest
    case None => None
    case Some((more, end)) => Some((done + more, end))
  }

  /** What may follow an item, white space skipped. */
  function AfterItem(t: Text): Option<(seq<Value>, Text)> {
    if First(t) == COMMA then ParseItems(t[1..])
    else if First(t) == CLOSE_BRACKET then Some(([], t[1..]))
    else None
  }

  function AfterMember(t: Text): Option<(seq<Member>, Text)> {
    if First(t) == COMMA then ParseMembers(t[1..])
    else if First(t) == CLOSE_BRACE then Some(([], t[1..]))
    else None
  }

  lemma ItemsUnfold(t: Text)
    ensures
      ParseItems(t) ==
      match ParseValue(Skip(t))
      case None => None
      case Some((v, r)) => Prepend([v], AfterItem(Skip(r)))
  {
    hide ParseValue, Skip;
    if ParseValue(Skip(t)).Some? {
      assert [ParseValue(Skip(t)).value.0] + [] == [ParseValue(Skip(t)).value.0];
    }
  }

  lemma MembersUnfold(t: Text)
    ensures
      ParseMembers(t) ==
      match ParseMember(t)
      case None => None
      case Some((m, r)) => Prepend([m], AfterMember(Skip(r)))
  {
    hide ParseMember, Skip;
    if ParseMember(t).Some? {
      assert [ParseMember(t).value.0] + [] == [ParseMember(t).value.0];
    }
  }

  lemma PrependTwice<T>(a: seq<T>, b: seq<T>, r: Option<(seq<T>, Text)>)
    ensures Prepend(a, Prepend(b, r)) == Prepend(a + b, r)
  {
    if r.Some? {
      assert a + (b + r.value.0) == a + b + r.value.0;
    }
  }

  lemma PrependEnd<T>(a: seq<T>, end: Text)
    ensures Prepend(a, Some(([], end))) == Some((a, end))
  {
    assert a + [] == a;
  }

  method StartsWith(s: Text, at: nat, word: Text) returns (yes: bool)
    requires Terminated(s) && at < |s| && 0 !in word
    ensures yes <==> word <= From(s, at)
  {
    var k := 0;
    while k < |word|
      invariant k <= |word| && at + k < |s| && word[..k] <= From(s, at)
    {
      At(s, at + k);
      if s[at + k] != word[k] {
        if |From(s, at)| > k {
          assert From(s, at)[k] == s[at + k];
        }
        return false;
      }
      assert From(s, at)[k] == s[at + k];
      assert word[..k + 1] == word[..k] + [word[k]];
      k := k + 1;
    }
    assert word[..k] == word;
    yes := true;
  }

  /** What a value is to be read as, in the order in which the source asks. */
  datatype Kind = Word(v: Value, length: nat) | Quotation | Number | Array | Object | Nothing

  function KindOf(t: Text): (k: Kind)
    ensures k.Word? ==> k.length <= |t|
    ensures k.Quotation? ==> First(t) == QUOTE
    ensures k.Number? ==> First(t) == MINUS || IsDigit(First(t))
  {
    if NULL_TEXT <= t then Word(Null, 4)
    else if FALSE_TEXT <= t then Word(False, 5)
    else if TRUE_TEXT <= t then Word(True, 4)
    else if First(t) == QUOTE then Quotation
    else if First(t) == MINUS || IsDigit(First(t)) then Number
    else if First(t) == OPEN_BRACKET then Array
    else if First(t) == OPEN_BRACE then Object
    else Nothing
  }

  /** The body of an array, after the bracket and white space. */
  function AfterOpenBracket(u: Text): Option<(Value, Text)> {
    if First(u) == CLOSE_BRACKET then Some((Arr([]), u[1..]))
    else
      match ParseItems(u)
      case None => None
      case Some((items, rest)) => Some((Arr(items), rest))
  }

  function AfterOpenBrace(u: Text): Option<(Value, Text)> {
    if First(u) == CLOSE_BRACE then Some((Obj([]), u[1..]))
    else
      match ParseMembers(u)
      case None => None
      case Some((members, rest)) => Some((Obj(members), rest))
  }

  function AsString(r: Option<(Text, Text)>): Option<(Value, Text)> {
    if r.None? then None else Some((Str(r.value.0), r.value.1))
  }

  function AsNumber(r: Option<(int, Text)>): Option<(Value, Text)> {
    if r.None? then None else Some((Num(r.value.0), r.value.1))
  }

  lemma ValueByKind(t: Text)
    ensures var k := KindOf(t);
      && (k.Word? ==> ParseValue(t) == Some((k.v, t[k.length..])))
      && (k.Quotation? ==> ParseValue(t) == AsString(ParseString(t)))
      && (k.Number? ==> ParseValue(t) == AsNumber(ParseNumber(t)))
      && (k.Array? ==> t != [] && ParseValue(t) == AfterOpenBracket(Skip(t[1..])))
      && (k.Object? ==> t != [] && ParseValue(t) == AfterOpenBrace(Skip(t[1..])))
      && (k.Nothing? ==> ParseValue(t) == None)
  {
    hide ParseItems, ParseMembers, ParseString, ParseNumber, Skip;
  }

  method FindKind(s: Text, at: nat) returns (k: Kind)
    requires Terminated(s) && at < |s|
    ensures k == KindOf(From(s, at))
  {
    At(s, at);
    var found := StartsWith(s, at, NULL_TEXT);
    if found { return Word(Null, 4); }
    found := StartsWith(s, at, FALSE_TEXT);
    if found { return Word(False, 5); }
    found := StartsWith(s, at, TRUE_TEXT);
    if found { return Word(True, 4); }
    k := if s[at] == QUOTE then Quotation
         else if s[at] == MINUS || IsDigit(s[at]) then Number
         else if s[at] == OPEN_BRACKET then Array
         else if s[at] == OPEN_BRACE then Object
         else Nothing;
  }

  method ReadValue(s: Text, at: nat) returns (ok: bool, v: Value, end: nat)
    requires Terminated(s) && at < |s|
    ensures ok <==> ParseValue(From(s, at)).Some?
    ensures ok ==> at < end < |s| && ParseValue(From(s, at)) == Some((v, From(s, end)))
    decreases |s| - at, 0
  {
    hide ParseValue, ParseString, ParseNumber, ParseItems, ParseMembers, KindOf, Skip;
    ok, v, end := false, Null, at;
    At(s, at);
    ValueByKind(From(s, at));
    var k := FindKind(s, at);
    match k
    case Word(w, n) =>
      Ahead(s, at, n);
      ok, v, end := true, w, at + n;
    case Quotation =>
      var str;
      ok, str, end := ReadString(s, at);
      v := Str(str);
    case Number =>
      var n;
      ok, n, end := ReadNumber(s, at);
      v := Num(n);
    case Array => ok, v, end := ReadArray(s, at);
    case Object => ok, v, end := ReadObject(s, at);
    case Nothing =>
  }

  method ReadArray(s: Text, at: nat) returns (ok: bool, v: Value, end: nat)
    requires Terminated(s) && at + 1 < |s|
    ensures ok <==> AfterOpenBracket(Skip(From(s, at)[1..])).Some?
    ensures ok ==> at < end < |s| && AfterOpenBracket(Skip(From(s, at)[1..])) == Some((v, From(s, end)))
    decreases |s| - at - 1, 3
  {
    hide ParseValue, ParseItems, Skip;
    v := Arr([]);
    Ahead(s, at, 1);
    end := SkipBlanks(s, at + 1);
    At(s, end);
    if s[end] == CLOSE_BRACKET {
      return true, v, end + 1;
    }
    var items;
    ok, items, end := ReadItems(s, end);
    v := Arr(items);
  }

  method ReadItems(s: Text, at: nat) returns (ok: bool, items: seq<Value>, end: nat)
    requires Terminated(s) && at < |s|
    ensures ok <==> ParseItems(From(s, at)).Some?
    ensures ok ==> at < end < |s| && ParseItems(From(s, at)) == Some((items, From(s, end)))
    decreases |s| - at, 2
  {
    hide ParseValue, ParseItems, Skip;
    items := [];
    ItemsUnfold(From(s, at));
    var v;
    ok, v, end := ReadItem(s, at);
    if !ok {
      return;
    }
    items := [v];
    At(s, end);
    while s[end] == COMMA
      invariant at < end < |s| && First(From(s, end)) == s[end]
      invariant Prepend(items, AfterItem(From(s, end))) == ParseItems(From(s, at))
      decreases |s| - end
    {
      At(s, end);
      ItemsUnfold(From(s, end + 1));
      ghost var was := end;
      ok, v, end := ReadItem(s, end + 1);
      if !ok {
        return;
      }
      PrependTwice(items, [v], AfterItem(From(s, end)));
      items := items + [v];
      At(s, end);
    }
    ok := s[end] == CLOSE_BRACKET;
    if ok {
      At(s, end);
      PrependEnd(items, From(s, end + 1));
      end := end + 1;
    }
  }

  /** A value with white space on either side. */
  method ReadItem(s: Text, at: nat) returns (ok: bool, v: Value, end: nat)
    requires Terminated(s) && at < |s|
    ensures ok <==> ParseValue(Skip(From(s, at))).Some?
    ensures
      ok ==>
        && at < end < |s| && ParseValue(Skip(From(s, at))).value.0 == v
        && Skip(ParseValue(Skip(From(s, at))).value.1) == From(s, end)
    decreases |s| - at, 1
  {
    hide ParseValue, Skip;
    var start := SkipBlanks(s, at);
    ok, v, end := ReadValue(s, start);
    if ok {
      end := SkipBlanks(s, end);
    }
  }

  method ReadObject(s: Text, at: nat) returns (ok: bool, v: Value, end: nat)
    requires Terminated(s) && at + 1 < |s|
    ensures ok <==> AfterOpenBrace(Skip(From(s, at)[1..])).Some?
    ensures ok ==> at < end < |s| && AfterOpenBrace(Skip(From(s, at)[1..])) == Some((v, From(s, end)))
    decreases |s| - at - 1, 3
  {
    hide ParseMember, ParseMembers, Skip;
    v := Obj([]);
    Ahead(s, at, 1);
    end := SkipBlanks(s, at + 1);
    At(s, end);
    if s[end] == CLOSE_BRACE {
      return true, v, end + 1;
    }
    var members;
    ok, members, end := ReadMembers(s, end);
    v := Obj(members);
  }

  method ReadMembers(s: Text, at: nat) returns (ok: bool, members: seq<Member>, end: nat)
    requires Terminated(s) && at < |s|
    ensures ok <==> ParseMembers(From(s, at)).Some?
    ensures ok ==> at < end < |s| && ParseMembers(From(s, at)) == Some((members, From(s, end)))
    decreases |s| - at, 2
  {
    hide ParseMember, ParseMembers, Skip;
    members := [];
    MembersUnfold(From(s, at));
    var m;
    ok, m, end := ReadMember(s, at);
    if !ok {
      return;
    }
    members := [m];
    At(s, end);
    while s[end] == COMMA
      invariant at < end < |s| && First(From(s, end)) == s[end]
      invariant Prepend(members, AfterMember(From(s, end))) == ParseMembers(From(s, at))
      decreases |s| - end
    {
      At(s, end);
      MembersUnfold(From(s, end + 1));
      ok, m, end := ReadMember(s, end + 1);
      if !ok {
        return;
      }
      PrependTwice(members, [m], AfterMember(From(s, end)));
      members := members + [m];
      At(s, end);
    }
    ok := s[end] == CLOSE_BRACE;
    if ok {
      At(s, end);
      PrependEnd(members, From(s, end + 1));
      end := end + 1;
    }
  }

  /** A name, a colon and a value, with white space around each. */
  method ReadMember(s: Text, at: nat) returns (ok: bool, m: Member, end: nat)
    requires Terminated(s) && at < |s|
    ensures ok <==> ParseMember(From(s, at)).Some?
    ensures
      ok ==>
        && at < end < |s| && ParseMember(From(s, at)).value.0 == m
        && Skip(ParseMember(From(s, at)).value.1) == From(s, end)
    decreases |s| - at, 1
  {
    hide ParseValue, ParseString, Skip;
    m := Member([], Null);
    end := SkipBlanks(s, at);
    var name;
    ok, name, end := ReadString(s, end);
    if !ok {
      return;
    }
    end := SkipBlanks(s, end);
    At(s, end);
    if s[end] != COLON {
      return false, m, end;
    }
    Ahead(s, end, 1);
    end := SkipBlanks(s, end + 1);
    var v;
    ok, v, end := ReadValue(s, end);
    if ok {
      m := Member(name, v);
      end := SkipBlanks(s, end);
    }
  }

  /** Parses a text; with `whole` nothing but white space may follow the value. */
  method ParseWithOpts(s: Text, whole: bool) returns (ok: bool, v: Value, end: nat)
    requires Terminated(s)
    ensures ok <==> Parse(From(s, 0), whole).Some?
    ensures ok ==> end < |s| && Parse(From(s, 0), whole) == Some((v, From(s, end)))
  {
    hide ParseValue, Skip;
    end := SkipBlanks(s, 0);
    ok, v, end := ReadValue(s, end);
    if ok && whole {
      end := SkipBlanks(s, end);
      At(s, end);
      ok := s[end] == 0;
    }
  }
}
