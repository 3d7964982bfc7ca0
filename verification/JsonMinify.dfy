/** The minifier: what it leaves of a text, in place, and why formatted text minifies to unformatted text. */
module JsonMinify {
  import opened Bytes
  import opened Json
  import opened JsonRoundTrip

  predicate IsSpace(c: byte) {
    c == SPACE || c == TAB || c == 13 || c == NEWLINE
  }

  /** From the next line end on. */
  function DropLine(t: Text): (r: Text)
    ensures |r| <= |t| && (t != [] && t[0] != NEWLINE ==> |r| < |t|)
  {
    if t == [] || t[0] == NEWLINE then t else DropLine(t[1..])
  }

  /** After the next end of a comment, if there is one. */
  function DropComment(t: Text): (r: Option<Text>)
    ensures r.Some? ==> |r.value| < |t|
  {
    if t == [] then None
    else if t[0] == STAR && |t| > 1 && t[1] == SLASH then Some(t[2..])
    else DropComment(t[1..])
  }

  /** White space and comments go, strings stay as they are. The text is closed: see `Closed`. */
  function Minify(t: Text): Text
    decreases |t|
  {
    if t == [] then []
    else if IsSpace(t[0]) then Minify(t[1..])
    else if t[0] == SLASH && |t| > 1 && t[1] == SLASH then Minify(DropLine(t))
    else if t[0] == SLASH && |t| > 1 && t[1] == STAR then
      match DropComment(t)
      case None => []
      case Some(rest) => Minify(rest)
    else if t[0] == QUOTE then [QUOTE] + MinifyString(t[1..])
    else [t[0]] + Minify(t[1..])
  }

  /** Inside a string: up to the closing quote, escapes taken whole. */
  function MinifyString(t: Text): Text
    decreases |t|
  {
    if t == [] then []
    else if t[0] == QUOTE then [QUOTE] + Minify(t[1..])
    else if t[0] == BACKSLASH && |t| > 1 then t[..2] + MinifyString(t[2..])
    else [t[0]] + MinifyString(t[1..])
  }

  /** Every string and every comment ends before the text does. */
  predicate Closed(t: Text)
    decreases |t|
  {
    if t == [] then true
    else if IsSpace(t[0]) then Closed(t[1..])
    else if t[0] == SLASH && |t| > 1 && t[1] == SLASH then Closed(DropLine(t))
    else if t[0] == SLASH && |t| > 1 && t[1] == STAR then
      match DropComment(t)
      case None => false
      case Some(rest) => Closed(rest)
    else if t[0] == QUOTE then ClosedString(t[1..])
    else Closed(t[1..])
  }

  predicate ClosedString(t: Text)
    decreases |t|
  {
    if t == [] then false
    else if t[0] == QUOTE then Closed(t[1..])
    else if t[0] == BACKSLASH then |t| > 1 && ClosedString(t[2..])
    else ClosedString(t[1..])
  }

  /** `a` minifies to `b`, whatever follows. */
  ghost predicate MinifiesTo(a: Text, b: Text) {
    forall rest: Text {:trigger a + rest} :: Minify(a + rest) == b + Minify(rest) && Closed(a + rest) == Closed(rest)
  }

  lemma MinifiesJoin(a: Text, b: Text, c: Text, d: Text)
    requires MinifiesTo(a, b) && MinifiesTo(c, d)
    ensures MinifiesTo(a + c, b + d)
  {
    hide Minify, Closed;
    forall rest: Text
      ensures Minify(a + c + rest) == b + d + Minify(rest) && Closed(a + c + rest) == Closed(rest)
    {
      Assoc(a, c, rest);
      Assoc(b, d, Minify(rest));
      assert Minify(a + (c + rest)) == b + Minify(c + rest);
    }
  }

  lemma BlankMinifies(blank: Text)
    requires forall i :: 0 <= i < |blank| ==> IsSpace(blank[i])
    ensures MinifiesTo(blank, [])
  {
    forall rest: Text
      ensures Minify(blank + rest) == [] + Minify(rest) && Closed(blank + rest) == Closed(rest)
    {
      BlankPasses(blank, rest);
      assert [] + Minify(rest) == Minify(rest);
    }
  }

  lemma {:induction false} BlankPasses(blank: Text, rest: Text)
    requires forall i :: 0 <= i < |blank| ==> IsSpace(blank[i])
    ensures Minify(blank + rest) == Minify(rest) && Closed(blank + rest) == Closed(rest)
  {
    if blank == [] {
      assert blank + rest == rest;
    } else {
      BlankSkipped(blank + rest);
      hide Minify, Closed, IsSpace;
      BlankPasses(blank[1..], rest);
      DropJoined(blank, rest, 1);
    }
  }

  lemma BlankSkipped(t: Text)
    requires t != [] && IsSpace(t[0])
    ensures Minify(t) == Minify(t[1..]) && Closed(t) == Closed(t[1..])
  {
  }

  predicate Plain(c: byte) {
    !IsSpace(c) && c != SLASH && c != QUOTE
  }

  lemma {:induction false} PlainPasses(t: Text, rest: Text)
    requires forall i :: 0 <= i < |t| ==> Plain(t[i])
    ensures Minify(t + rest) == t + Minify(rest) && Closed(t + rest) == Closed(rest)
  {
    if t == [] {
      assert t + rest == rest;
    } else {
      hide Minify, Closed, Plain;
      PlainPasses(t[1..], rest);
      PlainKept(t + rest);
      DropJoined(t, rest, 1);
      assert (t + rest)[0] == t[0];
      assert [t[0]] + (t[1..] + Minify(rest)) == t + Minify(rest);
    }
  }

  lemma PlainKept(t: Text)
    requires t != [] && Plain(t[0])
    ensures Minify(t) == [t[0]] + Minify(t[1..]) && Closed(t) == Closed(t[1..])
  {
  }

  lemma PlainMinifies(t: Text)
    requires forall i :: 0 <= i < |t| ==> Plain(t[i])
    ensures MinifiesTo(t, t)
  {
    hide Minify, Closed;
    forall rest: Text
      ensures Minify(t + rest) == t + Minify(rest) && Closed(t + rest) == Closed(rest)
    {
      PlainPasses(t, rest);
    }
  }

  /** An escaped character passes through a string unchanged. */
  lemma EscapePasses(c: byte, rest: Text)
    requires c != 0
    ensures MinifyString(EscapeByte(c) + rest) == EscapeByte(c) + MinifyString(rest)
    ensures ClosedString(EscapeByte(c) + rest) == ClosedString(rest)
  {
    var e := EscapeByte(c);
    if |e| == 1 {
      assert (e + rest)[1..] == rest;
    } else {
      assert (e + rest)[..2] == e[..2] && (e + rest)[2..] == e[2..] + rest;
      LettersPass(e[2..], rest);
      assert e[..2] + (e[2..] + MinifyString(rest)) == e + MinifyString(rest);
    }
  }

  lemma {:induction false} LettersPass(t: Text, rest: Text)
    requires forall i :: 0 <= i < |t| ==> t[i] != QUOTE && t[i] != BACKSLASH
    ensures MinifyString(t + rest) == t + MinifyString(rest) && ClosedString(t + rest) == ClosedString(rest)
  {
    if t == [] {
      assert t + rest == rest;
    } else {
      LettersPass(t[1..], rest);
      assert (t + rest)[1..] == t[1..] + rest;
      assert [t[0]] + (t[1..] + MinifyString(rest)) == t + MinifyString(rest);
    }
  }

  lemma {:induction false} CharsPass(s: Text, rest: Text)
    requires 0 !in s
    ensures MinifyString(Escape(s) + ([QUOTE] + rest)) == Escape(s) + ([QUOTE] + Minify(rest))
    ensures ClosedString(Escape(s) + ([QUOTE] + rest)) == Closed(rest)
  {
    hide EscapeByte;
    if s == [] {
      assert Escape(s) + ([QUOTE] + rest) == [QUOTE] + rest;
      assert ([QUOTE] + rest)[1..] == rest;
    } else {
      var tail := Escape(s[1..]) + ([QUOTE] + rest);
      Assoc(EscapeByte(s[0]), Escape(s[1..]), [QUOTE] + rest);
      Assoc(EscapeByte(s[0]), Escape(s[1..]), [QUOTE] + Minify(rest));
      EscapePasses(s[0], tail);
      CharsPass(s[1..], rest);
    }
  }

  lemma QuotedMinifies(s: Text)
    requires 0 !in s
    ensures MinifiesTo(Quoted(s), Quoted(s))
  {
    hide Escape, MinifyString, ClosedString;
    forall rest: Text
      ensures Minify(Quoted(s) + rest) == Quoted(s) + Minify(rest) && Closed(Quoted(s) + rest) == Closed(rest)
    {
      CharsPass(s, rest);
      assert (Quoted(s) + rest)[1..] == Escape(s) + ([QUOTE] + rest);
      assert [QUOTE] + (Escape(s) + ([QUOTE] + Minify(rest))) == Quoted(s) + Minify(rest);
    }
  }

  lemma {:induction false} DigitsPlain(n: nat)
    ensures forall i :: 0 <= i < |Digits(n)| ==> Plain(Digits(n)[i])
  {
    if n >= 10 {
      DigitsPlain(n / 10);
    }
  }

  lemma LeafMinifies(v: Value, depth: nat, other: nat, fmt: bool)
    requires Clean(v) && !v.Arr? && !v.Obj?
    ensures MinifiesTo(Print(v, depth, fmt), Print(v, other, false))
  {
    hide MinifiesTo, Quoted;
    match v
    case Num(n) =>
      DigitsPlain(if n < 0 then -n else n);
      PlainMinifies(Decimal(n));
    case Str(s) => QuotedMinifies(s);
    case Null => PlainMinifies(NULL_TEXT);
    case False => PlainMinifies(FALSE_TEXT);
    case True => PlainMinifies(TRUE_TEXT);
  }

  /** Text that is only there when formatting disappears if it is blank. */
  lemma WhenMinifies(fmt: bool, blank: Text)
    requires forall i :: 0 <= i < |blank| ==> IsSpace(blank[i])
    ensures MinifiesTo(When(fmt, blank), [])
  {
    hide MinifiesTo;
    BlankMinifies(When(fmt, blank));
  }

  lemma One(c: byte)
    requires Plain(c)
    ensures MinifiesTo([c], [c])
  {
    PlainMinifies([c]);
  }

  lemma NameMinifies(name: Text, depth: nat, other: nat, fmt: bool)
    requires 0 !in name
    ensures MinifiesTo(PrintName(name, depth, fmt), PrintName(name, other, false))
  {
    hide MinifiesTo, Quoted;
    WhenMinifies(fmt, Tabs(depth));
    QuotedMinifies(name);
    One(COLON);
    WhenMinifies(fmt, [TAB]);
    MinifiesJoin(When(fmt, Tabs(depth)), [], Quoted(name), Quoted(name));
    MinifiesJoin(When(fmt, Tabs(depth)) + Quoted(name), [] + Quoted(name), [COLON], [COLON]);
    MinifiesJoin(When(fmt, Tabs(depth)) + Quoted(name) + [COLON], [] + Quoted(name) + [COLON], When(fmt, [TAB]), []);
  }

  lemma CommaMinifies(more: bool, fmt: bool, blank: Text)
    requires forall i :: 0 <= i < |blank| ==> IsSpace(blank[i])
    ensures MinifiesTo(When(more, [COMMA]) + When(fmt, blank), When(more, [COMMA]))
  {
    hide MinifiesTo;
    PlainMinifies(When(more, [COMMA]));
    WhenMinifies(fmt, blank);
    MinifiesJoin(When(more, [COMMA]), When(more, [COMMA]), When(fmt, blank), []);
    assert When(more, [COMMA]) + [] == When(more, [COMMA]);
  }

  /** Minifying a printed value, at any depth and in either format, gives its unformatted text. */
  lemma {:induction false} ValueMinifies(v: Value, depth: nat, other: nat, fmt: bool)
    requires Clean(v)
    ensures MinifiesTo(Print(v, depth, fmt), Print(v, other, false))
    decreases v, 1
  {
    hide MinifiesTo, PrintItems, PrintMembers, Clean;
    match v
    case Arr(items) =>
      var a, b := PrintItems(items, depth + 1, fmt), PrintItems(items, other + 1, false);
      ItemsMinify(items, depth + 1, other + 1, fmt);
      One(OPEN_BRACKET);
      One(CLOSE_BRACKET);
      MinifiesJoin([OPEN_BRACKET], [OPEN_BRACKET], a, b);
      MinifiesJoin([OPEN_BRACKET] + a, [OPEN_BRACKET] + b, [CLOSE_BRACKET], [CLOSE_BRACKET]);
    case Obj(members) =>
      if members == [] {
        EmptyObjectMinifies(depth, other, fmt);
      } else {
        MembersMinify(members, depth + 1, other + 1, fmt);
        ObjectMinifies(members, depth, other, fmt);
      }
    case _ => LeafMinifies(v, depth, other, fmt);
  }

  lemma EmptyObjectMinifies(depth: nat, other: nat, fmt: bool)
    ensures MinifiesTo(Print(Obj([]), depth, fmt), Print(Obj([]), other, false))
  {
    hide MinifiesTo;
    var blank := When(fmt, [NEWLINE] + Tabs(if depth == 0 then 0 else depth - 1));
    BlankMinifies(blank);
    One(OPEN_BRACE);
    One(CLOSE_BRACE);
    MinifiesJoin([OPEN_BRACE], [OPEN_BRACE], blank, []);
    MinifiesJoin([OPEN_BRACE] + blank, [OPEN_BRACE] + [], [CLOSE_BRACE], [CLOSE_BRACE]);
  }

  lemma ObjectMinifies(members: seq<Member>, depth: nat, other: nat, fmt: bool)
    requires members != []
    requires MinifiesTo(PrintMembers(members, depth + 1, fmt), PrintMembers(members, other + 1, false))
    ensures MinifiesTo(Print(Obj(members), depth, fmt), Print(Obj(members), other, false))
  {
    hide MinifiesTo, PrintMembers;
    var a, b := PrintMembers(members, depth + 1, fmt), PrintMembers(members, other + 1, false);
    var newline, tabs := When(fmt, [NEWLINE]), When(fmt, Tabs(depth));
    One(OPEN_BRACE);
    One(CLOSE_BRACE);
    WhenMinifies(fmt, [NEWLINE]);
    WhenMinifies(fmt, Tabs(depth));
    MinifiesJoin([OPEN_BRACE], [OPEN_BRACE], newline, []);
    MinifiesJoin([OPEN_BRACE] + newline, [OPEN_BRACE] + [], a, b);
    MinifiesJoin([OPEN_BRACE] + newline + a, [OPEN_BRACE] + [] + b, tabs, []);
    MinifiesJoin([OPEN_BRACE] + newline + a + tabs, [OPEN_BRACE] + [] + b + [], [CLOSE_BRACE], [CLOSE_BRACE]);
  }

  lemma {:induction false} ItemsMinify(items: seq<Value>, depth: nat, other: nat, fmt: bool)
    requires Clean(Arr(items))
    ensures MinifiesTo(PrintItems(items, depth, fmt), PrintItems(items, other, false))
    decreases items, 0
  {
    hide MinifiesTo, Print, Clean;
    TailClean(items, []);
    if items == [] {
      BlankMinifies([]);
    } else {
      ValueMinifies(items[0], depth, other, fmt);
      if |items| > 1 {
        var a, b := Print(items[0], depth, fmt), Print(items[0], other, false);
        var c, d := PrintItems(items[1..], depth, fmt), PrintItems(items[1..], other, false);
        ItemsMinify(items[1..], depth, other, fmt);
        CommaMinifies(true, fmt, [SPACE]);
        assert Separator(false) == [COMMA];
        MinifiesJoin(a, b, Separator(fmt), [COMMA]);
        MinifiesJoin(a + Separator(fmt), b + [COMMA], c, d);
      }
    }
  }

  lemma {:induction false} MembersMinify(members: seq<Member>, depth: nat, other: nat, fmt: bool)
    requires Clean(Obj(members))
    ensures MinifiesTo(PrintMembers(members, depth, fmt), PrintMembers(members, other, false))
    decreases members, 0
  {
    hide MinifiesTo, Print, PrintName, Clean;
    TailClean([], members);
    if members == [] {
      BlankMinifies([]);
    } else {
      var m, more := members[0], |members| > 1;
      var a, b := Print(m.value, depth, fmt), Print(m.value, other, false);
      var n, o := PrintName(m.name, depth, fmt), PrintName(m.name, other, false);
      var c, d := PrintMembers(members[1..], depth, fmt), PrintMembers(members[1..], other, false);
      ValueMinifies(m.value, depth, other, fmt);
      NameMinifies(m.name, depth, other, fmt);
      MembersMinify(members[1..], depth, other, fmt);
      CommaMinifies(more, fmt, [NEWLINE]);
      assert EndMember(more, false) == When(more, [COMMA]);
      MinifiesJoin(n, o, a, b);
      MinifiesJoin(n + a, o + b, EndMember(more, fmt), EndMember(more, false));
      MinifiesJoin(n + a + EndMember(more, fmt), o + b + EndMember(more, false), c, d);
    }
  }

  /** The printers agree: minifying formatted text gives the unformatted text, and unformatted text is left as it is. */
  lemma PrintersAgree(v: Value, fmt: bool)
    requires Clean(v)
    ensures Closed(Print(v, 0, fmt)) && Minify(Print(v, 0, fmt)) == Print(v, 0, false)
  {
    hide Print, Clean;
    ValueMinifies(v, 0, 0, fmt);
    var t := Print(v, 0, fmt);
    assert t + [] == t && Minify([]) == [] && Closed([]);
    assert Print(v, 0, false) + [] == Print(v, 0, false);
  }
}
