/** Parsing what was printed gives back the tree, whatever the format and whatever follows. */
module JsonRoundTrip {
  import opened Bytes
  import opened Json

  // Strings

  lemma HexOfDigits(c: byte)
    requires c < 32
    ensures Hex4([ZERO, ZERO, DigitChar(c / 16 % 16), DigitChar(c % 16)]) == c
  {
  }

  /** Every escape the printer writes, short or \u00xx, is undone. */
  lemma EscapeUndone(c: byte, rest: Text)
    requires c != 0 && (c <= 31 || c == QUOTE || c == BACKSLASH)
    ensures
      var e := EscapeByte(c);
      && (e + rest)[0] == BACKSLASH && Unescape(e + rest) == Some(([c], |e|)) && (e + rest)[|e|..] == rest
  {
    var e := EscapeByte(c);
    assert (e + rest)[|e|..] == rest;
    if ShortEscape(c) == 0 {
      assert (e + rest)[2..6] == [ZERO, ZERO, DigitChar(c / 16 % 16), DigitChar(c % 16)];
      HexOfDigits(c);
    }
  }

  /** A \u escape of one 16-bit unit. */
  function UnitEscape(u: nat): (t: Text)
    requires u < 0x1_0000
    ensures |t| == 6
  {
    [BACKSLASH, LOWER_U, DigitChar(u / 0x1000), DigitChar(u / 0x100 % 16), DigitChar(u / 16 % 16), DigitChar(u % 16)]
  }

  lemma DigitBack(d: nat)
    requires d < 16
    ensures HexValue(DigitChar(d)) == d && DigitChar(d) != QUOTE && DigitChar(d) != BACKSLASH
  {
  }

  lemma UnitRead(u: nat)
    requires u < 0x1_0000
    ensures Hex4(UnitEscape(u)[2..6]) == u && Ordinary(UnitEscape(u)[2..6])
  {
    hide HexValue, DigitChar;
    var a, b, c, d := u / 0x1000, u / 0x100 % 16, u / 16 % 16, u % 16;
    DigitBack(a);
    DigitBack(b);
    DigitBack(c);
    DigitBack(d);
    assert UnitEscape(u)[2..6] == [DigitChar(a), DigitChar(b), DigitChar(c), DigitChar(d)];
    assert u / 0x100 == u / 0x1000 * 16 + b && u / 16 == u / 0x100 * 16 + c && u == u / 16 * 16 + d;
  }

  /** The escape of any character, section 7 of RFC 8259: one unit, or a surrogate pair. */
  function ScalarEscape(uc: nat): Text
    requires uc < 0x11_0000
  {
    if uc < 0x1_0000 then UnitEscape(uc)
    else UnitEscape(0xD800 + (uc - 0x1_0000) / 0x400) + UnitEscape(0xDC00 + (uc - 0x1_0000) % 0x400)
  }

  /** Every character other than NUL, however far up, is read back from its escape as its UTF-8 form. */
  lemma ScalarUndone(uc: nat, rest: Text)
    requires 0 < uc < 0x11_0000 && !(0xD800 <= uc <= 0xDFFF)
    ensures Unescape(ScalarEscape(uc) + rest) == Some((Utf8(uc), |ScalarEscape(uc)|))
  {
    hide Unescape, Utf8, UnitEscape;
    if uc < 0x1_0000 {
      UnitUndone(uc, rest);
    } else {
      PairUndone(uc - 0x1_0000, rest);
    }
  }

  lemma UnitUndone(u: nat, rest: Text)
    requires 0 < u < 0x1_0000 && !(0xD800 <= u <= 0xDFFF)
    ensures Unescape(UnitEscape(u) + rest) == Some((Utf8(u), 6))
  {
    UnitRead(u);
    hide Utf8, Hex4, Ordinary;
    assert (UnitEscape(u) + rest)[2..6] == UnitEscape(u)[2..6];
  }

  lemma PairUndone(u: nat, rest: Text)
    requires u < 0x10_0000
    ensures
      Unescape(UnitEscape(0xD800 + u / 0x400) + UnitEscape(0xDC00 + u % 0x400) + rest) == Some((Utf8(0x1_0000 + u), 12))
  {
    var hi, lo := 0xD800 + u / 0x400, 0xDC00 + u % 0x400;
    var t := UnitEscape(hi) + UnitEscape(lo) + rest;
    assert UnitEscape(hi)[..2] == [BACKSLASH, LOWER_U] && UnitEscape(lo)[..2] == [BACKSLASH, LOWER_U];
    hide Unescape, Utf8, Hex4, Ordinary, UnitEscape;
    UnitRead(hi);
    UnitRead(lo);
    PairValue(u);
    PairPlaces(UnitEscape(hi), UnitEscape(lo), rest);
    assert hi % 0x400 * 0x400 + lo % 0x400 == u;
    PairRead(t, hi, lo);
  }

  lemma PairPlaces(a: Text, b: Text, rest: Text)
    requires |a| == 6 && |b| == 6
    ensures
      var t := a + b + rest;
      t[..2] == a[..2] && t[2..6] == a[2..6] && t[6..8] == b[..2] && t[8..12] == b[2..6]
  {
  }

  lemma PairRead(t: Text, hi: nat, lo: nat)
    requires |t| >= 12 && t[..2] == [BACKSLASH, LOWER_U] && t[6..8] == [BACKSLASH, LOWER_U]
    requires Ordinary(t[2..6]) && Hex4(t[2..6]) == hi && 0xD800 <= hi <= 0xDBFF
    requires Ordinary(t[8..12]) && Hex4(t[8..12]) == lo && 0xDC00 <= lo <= 0xDFFF
    ensures Unescape(t) == Some((Utf8(0x1_0000 + hi % 0x400 * 0x400 + lo % 0x400), 12))
  {
    hide Utf8, Hex4, Ordinary;
    assert t[0] == t[..2][0] && t[1] == t[..2][1] && t[6] == t[6..8][0] && t[7] == t[6..8][1];
  }

  lemma PairValue(u: nat)
    requires u < 0x10_0000
    ensures (0xD800 + u / 0x400) % 0x400 == u / 0x400 && (0xDC00 + u % 0x400) % 0x400 == u % 0x400
    ensures 0xD800 <= 0xD800 + u / 0x400 <= 0xDBFF && 0xDC00 <= 0xDC00 + u % 0x400 <= 0xDFFF
    ensures u / 0x400 * 0x400 + u % 0x400 == u
  {
  }

  lemma {:induction false} CharsRoundTrip(s: Text, rest: Text)
    requires 0 !in s
    ensures ParseChars(Escape(s) + [QUOTE] + rest) == Some((s, rest))
  {
    if s == [] {
      assert Escape(s) + [QUOTE] + rest == [QUOTE] + rest;
    } else {
      var c, tail := s[0], Escape(s[1..]) + [QUOTE] + rest;
      CharsRoundTrip(s[1..], rest);
      assert Escape(s) + [QUOTE] + rest == EscapeByte(c) + tail;
      if c > 31 && c != QUOTE && c != BACKSLASH {
        assert (EscapeByte(c) + tail)[1..] == tail;
      } else {
        EscapeUndone(c, tail);
      }
      assert [c] + s[1..] == s;
    }
  }

  lemma StringRoundTrip(s: Text, rest: Text)
    requires 0 !in s
    ensures ParseString(Quoted(s) + rest) == Some((s, rest))
  {
    CharsRoundTrip(s, rest);
    assert (Quoted(s) + rest)[1..] == Escape(s) + [QUOTE] + rest;
  }

  // Numbers

  lemma {:induction false} DigitsTaken(n: nat, rest: Text)
    requires !IsDigit(First(rest))
    ensures TakeDigits(Digits(n) + rest, 0) == (n, rest)
  {
    DigitsOnTop(n, rest);
    StopsAtOnce(rest, n);
  }

  lemma StopsAtOnce(rest: Text, n: nat)
    requires !IsDigit(First(rest))
    ensures TakeDigits(rest, n) == (n, rest)
  {
  }

  /** Taking the digits of `n` comes down to going on from `n`. */
  lemma {:induction false} DigitsOnTop(n: nat, rest: Text)
    ensures TakeDigits(Digits(n) + rest, 0) == TakeDigits(rest, n)
  {
    if n < 10 {
      assert (Digits(n) + rest)[1..] == rest;
    } else {
      var last := [DigitChar(n % 10)];
      DigitsOnTop(n / 10, last + rest);
      assert Digits(n) + rest == Digits(n / 10) + (last + rest);
      assert (last + rest)[1..] == rest;
    }
  }

  /** A positive number starts with a digit other than 0, and every number with a digit. */
  lemma {:induction false} LeadingDigit(n: nat)
    ensures Digits(n) != [] && IsDigit(Digits(n)[0]) && (n > 0 ==> Digits(n)[0] != ZERO)
  {
    if n >= 10 {
      LeadingDigit(n / 10);
    }
  }

  /** A text that ends a number: not a digit, a fraction or an exponent. */
  predicate NumberEnds(rest: Text) {
    !IsDigit(First(rest)) && First(rest) != 46 && First(rest) != 101 && First(rest) != 69
  }

  lemma NumberRoundTrip(n: int, rest: Text)
    requires NumberEnds(rest)
    ensures var t := Decimal(n) + rest; (First(t) == MINUS || IsDigit(First(t))) && ParseNumber(t) == Some((n, rest))
  {
    var m: nat := if n < 0 then -n else n;
    var t := Decimal(n) + rest;
    LeadingDigit(m);
    DigitsTaken(m, rest);
    if n < 0 {
      assert t[1..] == Digits(m) + rest;
    }
    if m == 0 {
      assert (Digits(m) + rest)[1..] == rest;
    }
  }

  // White space

  predicate Blank(t: Text) {
    forall i :: 0 <= i < |t| ==> 0 < t[i] <= 32
  }

  predicate Dark(t: Text) {
    First(t) > 32
  }

  lemma {:induction false} SkipBlank(blank: Text, t: Text)
    requires Blank(blank) && (Dark(t) || t == [])
    ensures Skip(blank + t) == t
  {
    if blank == [] {
      assert blank + t == t;
    } else {
      assert (blank + t)[1..] == blank[1..] + t;
      SkipBlank(blank[1..], t);
    }
  }

  lemma SkipNothing(t: Text)
    requires Dark(t) || t == []
    ensures Skip(t) == t
  {
  }

  /** A printed value starts with a character that is neither blank nor closing. */
  lemma PrintStarts(v: Value, depth: nat, fmt: bool)
    ensures
      var t := Print(v, depth, fmt);
      t != [] && t[0] > 32 && t[0] != CLOSE_BRACKET && t[0] != CLOSE_BRACE
  {
    if v.Num? {
      LeadingDigit(if v.n < 0 then -v.n else v.n);
    }
  }

  // One turn of each reader

  lemma ReadsArray(t: Text)
    requires First(t) == OPEN_BRACKET
    ensures
      var u := Skip(t[1..]);
      && (First(u) == CLOSE_BRACKET ==> ParseValue(t) == Some((Arr([]), u[1..])))
      && (First(u) != CLOSE_BRACKET && ParseItems(u).Some? ==>
            ParseValue(t) == Some((Arr(ParseItems(u).value.0), ParseItems(u).value.1)))
  {
    hide Skip, ParseItems, ParseMembers, ParseNumber, ParseString;
  }

  lemma ReadsObject(t: Text)
    requires First(t) == OPEN_BRACE
    ensures
      var u := Skip(t[1..]);
      && (First(u) == CLOSE_BRACE ==> ParseValue(t) == Some((Obj([]), u[1..])))
      && (First(u) != CLOSE_BRACE && ParseMembers(u).Some? ==>
            ParseValue(t) == Some((Obj(ParseMembers(u).value.0), ParseMembers(u).value.1)))
  {
    hide Skip, ParseItems, ParseMembers, ParseNumber, ParseString;
  }

  lemma ReadsLastItem(t: Text, v: Value, r: Text)
    requires ParseValue(Skip(t)) == Some((v, r)) && First(Skip(r)) == CLOSE_BRACKET
    ensures ParseItems(t) == Some(([v], Skip(r)[1..]))
  {
    hide Skip, ParseValue;
  }

  lemma ReadsItem(t: Text, v: Value, r: Text, items: seq<Value>, end: Text)
    requires ParseValue(Skip(t)) == Some((v, r)) && First(Skip(r)) == COMMA
    requires ParseItems(Skip(r)[1..]) == Some((items, end))
    ensures ParseItems(t) == Some(([v] + items, end))
  {
    hide Skip, ParseValue;
  }

  lemma ReadsMember(t: Text, name: Text, r: Text, v: Value, end: Text)
    requires ParseString(Skip(t)) == Some((name, r)) && First(Skip(r)) == COLON
    requires ParseValue(Skip(Skip(r)[1..])) == Some((v, end))
    ensures ParseMember(t) == Some((Member(name, v), end))
  {
    hide Skip, ParseValue, ParseString;
  }

  lemma ReadsLastMember(t: Text, m: Member, r: Text)
    requires ParseMember(t) == Some((m, r)) && First(Skip(r)) == CLOSE_BRACE
    ensures ParseMembers(t) == Some(([m], Skip(r)[1..]))
  {
    hide Skip, ParseMember;
  }

  lemma ReadsMoreMembers(t: Text, m: Member, r: Text, members: seq<Member>, end: Text)
    requires ParseMember(t) == Some((m, r)) && First(Skip(r)) == COMMA
    requires ParseMembers(Skip(r)[1..]) == Some((members, end))
    ensures ParseMembers(t) == Some(([m] + members, end))
  {
    hide Skip, ParseMember;
  }

  // Whole values

  lemma LeafRoundTrip(v: Value, depth: nat, fmt: bool, rest: Text)
    requires Clean(v) && !v.Arr? && !v.Obj? && (v.Num? ==> NumberEnds(rest))
    ensures ParseValue(Print(v, depth, fmt) + rest) == Some((v, rest))
  {
    hide Decimal, Quoted, ParseNumber, ParseString, ParseItems, ParseMembers, Skip;
    var t := Print(v, depth, fmt) + rest;
    match v
    case Null => assert t[4..] == rest;
    case True => assert t[0] == 116 && t[4..] == rest;
    case False => assert t[0] == 102 && t[..5] == FALSE_TEXT && t[5..] == rest;
    case Num(n) => NumberRoundTrip(n, rest);
    case Str(s) =>
      StringRoundTrip(s, rest);
      QuotedStarts(s, rest);
  }

  lemma QuotedStarts(s: Text, rest: Text)
    ensures First(Quoted(s) + rest) == QUOTE
  {
  }

  lemma TailClean(items: seq<Value>, members: seq<Member>)
    ensures items != [] && Clean(Arr(items)) ==> Clean(items[0]) && Clean(Arr(items[1..]))
    ensures
      members != [] && Clean(Obj(members)) ==>
        0 !in members[0].name && Clean(members[0].value) && Clean(Obj(members[1..]))
  {
  }

  lemma ArrayText(items: seq<Value>, depth: nat, fmt: bool, rest: Text)
    ensures
      var t := Print(Arr(items), depth, fmt) + rest;
      First(t) == OPEN_BRACKET && t[1..] == PrintItems(items, depth + 1, fmt) + ([CLOSE_BRACKET] + rest)
  {
    hide PrintItems;
    assert Print(Arr(items), depth, fmt) + rest
        == [OPEN_BRACKET] + PrintItems(items, depth + 1, fmt) + [CLOSE_BRACKET] + rest;
  }

  lemma NoItemsText(depth: nat, fmt: bool, tail: Text)
    ensures PrintItems([], depth, fmt) + tail == tail
  {
  }

  lemma ArrayRoundTrip(items: seq<Value>, depth: nat, fmt: bool, rest: Text)
    requires Clean(Arr(items))
    ensures ParseValue(Print(Arr(items), depth, fmt) + rest) == Some((Arr(items), rest))
    decreases items, 1
  {
    hide ParseValue, ParseItems, Skip, PrintItems, Print, Clean;
    var body := PrintItems(items, depth + 1, fmt) + ([CLOSE_BRACKET] + rest);
    var t := Print(Arr(items), depth, fmt) + rest;
    ArrayText(items, depth, fmt, rest);
    ReadsArray(t);
    if items == [] {
      NoItemsText(depth + 1, fmt, [CLOSE_BRACKET] + rest);
      SkipNothing(body);
      assert body[1..] == rest;
    } else {
      ItemsRoundTrip(items, depth + 1, fmt, rest);
      ItemsStart(items, depth + 1, fmt, [CLOSE_BRACKET] + rest);
      SkipNothing(body);
    }
  }

  lemma EmptyObjectRoundTrip(depth: nat, fmt: bool, rest: Text)
    ensures ParseValue(Print(Obj([]), depth, fmt) + rest) == Some((Obj([]), rest))
  {
    hide ParseValue, ParseMembers, Skip;
    var blank := When(fmt, [NEWLINE] + Tabs(if depth == 0 then 0 else depth - 1));
    var t := Print(Obj([]), depth, fmt) + rest;
    assert t[1..] == blank + ([CLOSE_BRACE] + rest);
    ReadsObject(t);
    EndsObject(blank, rest);
  }

  lemma ObjectText(members: seq<Member>, depth: nat, fmt: bool, rest: Text)
    requires members != []
    ensures
      var t := Print(Obj(members), depth, fmt) + rest;
      && First(t) == OPEN_BRACE
      && t[1..] ==
         When(fmt, [NEWLINE])
         + (PrintMembers(members, depth + 1, fmt) + (When(fmt, Tabs(depth)) + ([CLOSE_BRACE] + rest)))
  {
    hide PrintMembers, When;
    var a, b, c := When(fmt, [NEWLINE]), PrintMembers(members, depth + 1, fmt), When(fmt, Tabs(depth));
    assert Print(Obj(members), depth, fmt) + rest == [OPEN_BRACE] + a + b + c + [CLOSE_BRACE] + rest;
    assert ([OPEN_BRACE] + a + b + c + [CLOSE_BRACE] + rest)[1..] == a + (b + (c + ([CLOSE_BRACE] + rest)));
  }

  lemma ObjectRoundTrip(members: seq<Member>, depth: nat, fmt: bool, rest: Text)
    requires Clean(Obj(members)) && members != []
    ensures ParseValue(Print(Obj(members), depth, fmt) + rest) == Some((Obj(members), rest))
    decreases members, 1
  {
    hide ParseValue, ParseMembers, Skip, PrintMembers, Print, Clean;
    var t := Print(Obj(members), depth, fmt) + rest;
    ObjectText(members, depth, fmt, rest);
    ReadsObject(t);
    var end := When(fmt, Tabs(depth));
    var body := PrintMembers(members, depth + 1, fmt) + (end + ([CLOSE_BRACE] + rest));
    MembersRoundTrip(members, depth + 1, fmt, end, rest);
    SkipPrefix(When(fmt, [NEWLINE]), body);
    MembersIgnoreBlank(body);
    MembersStart(members, depth + 1, fmt, end + ([CLOSE_BRACE] + rest));
  }

  lemma {:induction false} ValueRoundTrip(v: Value, depth: nat, fmt: bool, rest: Text)
    requires Clean(v) && (v.Num? ==> NumberEnds(rest))
    ensures ParseValue(Print(v, depth, fmt) + rest) == Some((v, rest))
    decreases v, 3
  {
    hide ParseValue, Print, Clean;
    match v
    case Arr(items) => ArrayRoundTrip(items, depth, fmt, rest);
    case Obj(members) =>
      if members == [] {
        EmptyObjectRoundTrip(depth, fmt, rest);
      } else {
        ObjectRoundTrip(members, depth, fmt, rest);
      }
    case _ => LeafRoundTrip(v, depth, fmt, rest);
  }

  lemma {:induction false} SkipTwice(t: Text)
    ensures Skip(Skip(t)) == Skip(t)
  {
    if t != [] && 0 < t[0] <= 32 {
      SkipTwice(t[1..]);
    }
  }

  lemma {:induction false} SkipPrefix(blank: Text, t: Text)
    requires Blank(blank)
    ensures Skip(blank + t) == Skip(t)
  {
    if blank == [] {
      assert blank + t == t;
    } else {
      assert (blank + t)[1..] == blank[1..] + t;
      SkipPrefix(blank[1..], t);
    }
  }

  lemma MembersIgnoreBlank(t: Text)
    ensures ParseMembers(Skip(t)) == ParseMembers(t)
  {
    hide Skip;
    SkipTwice(t);
    assert ParseMember(Skip(t)) == ParseMember(t);
  }

  lemma ItemsIgnoreBlank(t: Text)
    ensures ParseItems(Skip(t)) == ParseItems(t)
  {
    hide Skip, ParseValue;
    SkipTwice(t);
  }

  lemma ItemsStart(items: seq<Value>, depth: nat, fmt: bool, rest: Text)
    requires items != []
    ensures var t := PrintItems(items, depth, fmt) + rest; Dark(t) && First(t) != CLOSE_BRACKET
  {
    hide Print;
    PrintStarts(items[0], depth, fmt);
  }

  lemma NameStarts(name: Text, depth: nat, fmt: bool, rest: Text)
    ensures Skip(PrintName(name, depth, fmt) + rest) == Quoted(name) + ([COLON] + When(fmt, [TAB]) + rest)
  {
    hide Skip, Escape;
    var t := Quoted(name) + ([COLON] + When(fmt, [TAB]) + rest);
    assert PrintName(name, depth, fmt) + rest == When(fmt, Tabs(depth)) + t;
    SkipBlank(When(fmt, Tabs(depth)), t);
  }

  lemma MembersStart(members: seq<Member>, depth: nat, fmt: bool, rest: Text)
    requires members != []
    ensures First(Skip(PrintMembers(members, depth, fmt) + rest)) == QUOTE
  {
    hide Print, Skip, PrintName, EndMember, Escape;
    var m := members[0];
    var more := Print(m.value, depth, fmt) + EndMember(|members| > 1, fmt) + PrintMembers(members[1..], depth, fmt)
        + rest;
    assert PrintMembers(members, depth, fmt) + rest == PrintName(m.name, depth, fmt) + more;
    NameStarts(m.name, depth, fmt, more);
  }

  lemma ItemsText(items: seq<Value>, depth: nat, fmt: bool, tail: Text)
    requires items != []
    ensures
      |items| == 1 ==>
        PrintItems(items, depth, fmt) + tail == Print(items[0], depth, fmt) + tail && [items[0]] == items
    ensures
      |items| > 1 ==>
        var more := PrintItems(items[1..], depth, fmt) + tail;
        PrintItems(items, depth, fmt) + tail == Print(items[0], depth, fmt) + ([COMMA] + (When(fmt, [SPACE]) + more))
  {
    hide Print;
    if |items| > 1 {
      var p, q := Print(items[0], depth, fmt), PrintItems(items[1..], depth, fmt);
      Assoc(p + Separator(fmt), q, tail);
      Assoc(p, Separator(fmt), q + tail);
      Assoc([COMMA], When(fmt, [SPACE]), q + tail);
    }
  }

  lemma {:induction false} ItemsRoundTrip(items: seq<Value>, depth: nat, fmt: bool, rest: Text)
    requires items != [] && Clean(Arr(items))
    ensures ParseItems(PrintItems(items, depth, fmt) + ([CLOSE_BRACKET] + rest)) == Some((items, rest))
    decreases items, 0
  {
    hide ParseValue, ParseItems, PrintItems, Skip, Print, Clean;
    TailClean(items, []);
    var tail := [CLOSE_BRACKET] + rest;
    var t := PrintItems(items, depth, fmt) + tail;
    ItemsText(items, depth, fmt, tail);
    PrintStarts(items[0], depth, fmt);
    SkipNothing(t);
    if |items| == 1 {
      SkipNothing(tail);
      ValueRoundTrip(items[0], depth, fmt, tail);
      ReadsLastItem(t, items[0], tail);
      assert tail[1..] == rest;
    } else {
      var more := PrintItems(items[1..], depth, fmt) + tail;
      var next := When(fmt, [SPACE]) + more;
      GoesOn(next);
      ValueRoundTrip(items[0], depth, fmt, [COMMA] + next);
      ItemsRoundTrip(items[1..], depth, fmt, rest);
      SkipPrefix(When(fmt, [SPACE]), more);
      ItemsIgnoreBlank(next);
      ItemsIgnoreBlank(more);
      ReadsItem(t, items[0], [COMMA] + next, items[1..], rest);
      assert [items[0]] + items[1..] == items;
    }
  }

  lemma {:induction false} MemberRoundTrip(m: Member, depth: nat, fmt: bool, more: Text)
    requires 0 !in m.name && Clean(m.value) && NumberEnds(more)
    ensures ParseMember(PrintName(m.name, depth, fmt) + Print(m.value, depth, fmt) + more) == Some((m, more))
    decreases m, 2
  {
    hide ParseValue, ParseString, Skip, Print, PrintName, Clean, Escape;
    var body := Print(m.value, depth, fmt) + more;
    var t := PrintName(m.name, depth, fmt) + Print(m.value, depth, fmt) + more;
    Assoc(PrintName(m.name, depth, fmt), Print(m.value, depth, fmt), more);
    NameStarts(m.name, depth, fmt, body);
    var r := [COLON] + When(fmt, [TAB]) + body;
    StringRoundTrip(m.name, r);
    SkipNothing(r);
    assert r[1..] == When(fmt, [TAB]) + body;
    PrintStarts(m.value, depth, fmt);
    SkipBlank(When(fmt, [TAB]), body);
    ValueRoundTrip(m.value, depth, fmt, more);
    ReadsMember(t, m.name, r, m.value, more);
  }

  lemma MembersText(members: seq<Member>, depth: nat, fmt: bool, tail: Text)
    requires members != []
    ensures
      var m, more := members[0], EndMember(|members| > 1, fmt) + (PrintMembers(members[1..], depth, fmt) + tail);
      PrintMembers(members, depth, fmt) + tail == PrintName(m.name, depth, fmt) + Print(m.value, depth, fmt) + more
    ensures
      |members| == 1 ==>
        EndMember(|members| > 1, fmt) + (PrintMembers(members[1..], depth, fmt) + tail) == When(fmt, [NEWLINE]) + tail
    ensures
      |members| > 1 ==>
        EndMember(|members| > 1, fmt) + (PrintMembers(members[1..], depth, fmt) + tail) ==
        [COMMA] + (When(fmt, [NEWLINE]) + (PrintMembers(members[1..], depth, fmt) + tail))
  {
    hide Print, PrintName;
    var m := members[0];
    var p, q := PrintName(m.name, depth, fmt) + Print(m.value, depth, fmt), PrintMembers(members[1..], depth, fmt);
    var e := EndMember(|members| > 1, fmt);
    Assoc(p + e, q, tail);
    Assoc(p, e, q + tail);
    Assoc([COMMA], When(fmt, [NEWLINE]), q + tail);
    if |members| == 1 {
      assert q == [] && q + tail == tail && [] + When(fmt, [NEWLINE]) == When(fmt, [NEWLINE]);
    }
  }

  lemma WhenBlank(fmt: bool)
    ensures Blank(When(fmt, [NEWLINE]))
  {
  }

  lemma {:induction false} MembersRoundTrip(members: seq<Member>, depth: nat, fmt: bool, blank: Text, rest: Text)
    requires members != [] && Clean(Obj(members)) && Blank(blank)
    ensures ParseMembers(PrintMembers(members, depth, fmt) + (blank + ([CLOSE_BRACE] + rest))) == Some((members, rest))
    decreases members, 0
  {
    hide ParseMember, ParseMembers, PrintMembers, Skip, Print, PrintName, Clean, First, EndMember, When, NumberEnds;
    TailClean([], members);
    var m, tail := members[0], blank + ([CLOSE_BRACE] + rest);
    var t := PrintMembers(members, depth, fmt) + tail;
    MembersText(members, depth, fmt, tail);
    var newline := When(fmt, [NEWLINE]);
    WhenBlank(fmt);
    if |members| == 1 {
      Assoc(newline, blank, [CLOSE_BRACE] + rest);
      EndsObject(newline + blank, rest);
      MemberRoundTrip(m, depth, fmt, newline + tail);
      ReadsLastMember(t, m, newline + tail);
      assert [m] == members;
    } else {
      var more := PrintMembers(members[1..], depth, fmt) + tail;
      GoesOn(newline + more);
      MemberRoundTrip(m, depth, fmt, [COMMA] + (newline + more));
      MembersRoundTrip(members[1..], depth, fmt, blank, rest);
      SkipPrefix(newline, more);
      MembersIgnoreBlank(newline + more);
      MembersIgnoreBlank(more);
      ReadsMoreMembers(t, m, [COMMA] + (newline + more), members[1..], rest);
      assert [m] + members[1..] == members;
    }
  }

  lemma EndsObject(blank: Text, rest: Text)
    requires Blank(blank)
    ensures var t := blank + ([CLOSE_BRACE] + rest); NumberEnds(t) && Skip(t) == [CLOSE_BRACE] + rest
    ensures First([CLOSE_BRACE] + rest) == CLOSE_BRACE && ([CLOSE_BRACE] + rest)[1..] == rest
  {
    SkipBlank(blank, [CLOSE_BRACE] + rest);
  }

  lemma GoesOn(rest: Text)
    ensures
      var t := [COMMA] + rest;
      NumberEnds(t) && Skip(t) == t && First(t) == COMMA && t[1..] == rest
  {
    SkipNothing([COMMA] + rest);
  }

  /** Parse undoes print: for every clean tree, formatted or not, the tree comes back and all of the text is used. */
  lemma RoundTrip(v: Value, fmt: bool, whole: bool)
    requires Clean(v)
    ensures Parse(Print(v, 0, fmt), whole) == Some((v, []))
  {
    hide ParseValue, Print, Clean;
    var t := Print(v, 0, fmt);
    assert t + [] == t;
    PrintStarts(v, 0, fmt);
    ValueRoundTrip(v, 0, fmt, []);
  }

  /** Two clean trees that print alike in one format are the same tree. */
  lemma PrintInjective(v: Value, w: Value, fmt: bool)
    requires Clean(v) && Clean(w) && Print(v, 0, fmt) == Print(w, 0, fmt)
    ensures v == w
  {
    hide Print, Parse;
    RoundTrip(v, fmt, true);
    RoundTrip(w, fmt, true);
  }
}
