/** What the parser accepts: no text but values in the shapes of the grammar, with the liberties it takes in blanks, in
  * numbers, inside strings, and with a string that the end of the text closes. */
module JsonAcceptance {
  import opened Bytes
  import opened Json
  import opened JsonRoundTrip
  import opened JsonGrammar
  import JsonLexemes

  // ---------- the shapes ----------

  datatype Shape =
    | Word(text: Text)
    | Number(negative: bool, digits: Text)
    | Literal(lit: Text, says: Text)
    | Array(gap: Text, parts: seq<Part>)
    | Object(gap: Text, fields: seq<Field>)

  /** A value with the blanks around it. */
  datatype Part = Part(before: Text, shape: Shape, after: Text)

  datatype Field = Field(before: Text, name: Shape, beforeColon: Text, part: Part)

  /** Between quotes, with no bare quote inside, and read as `s` by itself. */
  predicate Reads(lit: Text, s: Text) {
    && |lit| >= 2 && lit[0] == 34 && lit[|lit| - 1] == 34 && JsonLexemes.Inner(lit[1..|lit| - 1])
    && ParseString(lit) == Some((s, []))
  }

  /** Digits, of which the first may be an idle zero; none are needed behind a minus. */
  predicate LooseNumber(negative: bool, digits: Text) {
    AllDigits(digits) && (digits == [] ==> negative) && (|digits| > 1 && digits[0] == 48 ==> digits[1] != 48)
  }

  predicate Fit(s: Shape) {
    match s
    case Word(text) => text in {[110, 117, 108, 108], [102, 97, 108, 115, 101], [116, 114, 117, 101]}
    case Number(negative, digits) => LooseNumber(negative, digits)
    case Literal(lit, says) => Reads(lit, says)
    case Array(gap, parts) => Blank(gap) && FitParts(parts)
    case Object(gap, fields) => Blank(gap) && FitFields(fields)
  }

  predicate FitPart(p: Part) {
    Blank(p.before) && Fit(p.shape) && Blank(p.after)
  }

  predicate FitParts(ps: seq<Part>) {
    ps == [] || (FitPart(ps[0]) && FitParts(ps[1..]))
  }

  predicate FitField(f: Field) {
    Blank(f.before) && f.name.Literal? && Fit(f.name) && Blank(f.beforeColon) && FitPart(f.part)
  }

  predicate FitFields(fs: seq<Field>) {
    fs == [] || (FitField(fs[0]) && FitFields(fs[1..]))
  }

  function Write(s: Shape): Text {
    match s
    case Word(text) => text
    case Number(negative, digits) => (if negative then [45] else []) + digits
    case Literal(lit, _) => lit
    case Array(gap, parts) => [91] + (if parts == [] then gap else WriteParts(parts)) + [93]
    case Object(gap, fields) => [123] + (if fields == [] then gap else WriteFields(fields)) + [125]
  }

  function WritePart(p: Part): Text {
    p.before + Write(p.shape) + p.after
  }

  function WriteParts(ps: seq<Part>): Text {
    if ps == [] then [] else WritePart(ps[0]) + (if |ps| == 1 then [] else [44] + WriteParts(ps[1..]))
  }

  function WriteField(f: Field): Text {
    f.before + Write(f.name) + f.beforeColon + [58] + WritePart(f.part)
  }

  function WriteFields(fs: seq<Field>): Text {
    if fs == [] then [] else WriteField(fs[0]) + (if |fs| == 1 then [] else [44] + WriteFields(fs[1..]))
  }

  function Meant(s: Shape): Value {
    match s
    case Word(text) => if text == [110, 117, 108, 108] then Null else if |text| == 5 then False else True
    case Number(negative, digits) => Num(if negative then -NumberOf(digits) else NumberOf(digits))
    case Literal(_, says) => Str(says)
    case Array(_, parts) => Arr(MeantParts(parts))
    case Object(_, fields) => Obj(MeantFields(fields))
  }

  function MeantParts(ps: seq<Part>): seq<Value> {
    if ps == [] then [] else [Meant(ps[0].shape)] + MeantParts(ps[1..])
  }

  function NameOf(s: Shape): Text {
    if s.Literal? then s.says else []
  }

  function MeantFields(fs: seq<Field>): seq<Member> {
    if fs == [] then [] else [Member(NameOf(fs[0].name), Meant(fs[0].part.shape))] + MeantFields(fs[1..])
  }

  /** A string that only the end of the text closes. */
  predicate OpenString(t: Text, v: Value, rest: Text) {
    rest == [] && v.Str? && Reads(t + [34], v.s)
  }

  // ---------- strings ----------

  /** An escape is read from its own characters; a lone first half of a pair also sees that no escape follows. */
  lemma UnescapeLocal(t: Text, u: Text, n: nat)
    requires |t| >= 2 && t[0] == 92 && Unescape(t).Some? && n == Unescape(t).value.1
    requires |u| > n && u[..n] == t[..n]
    requires n == |t| ==> |u| == n + 1 && u[n] == 34
    requires n < |t| ==> u[n] == t[n] && (t[n] == 92 ==> |u| > n + 1 && |t| > n + 1 && u[n + 1] == t[n + 1])
    ensures Unescape(u) == Unescape(t)
  {
    SamePart(t, u, n, 0, 2);
    if t[1] == LOWER_U {
      UnicodeLocal(t, u, n);
    }
    hide UnescapeUnicode;
  }

  lemma SamePart(t: Text, u: Text, n: nat, i: nat, j: nat)
    requires i < j <= n <= |t| && n <= |u| && u[..n] == t[..n]
    ensures u[i..j] == t[i..j] && u[i] == t[i] && u[i + 1..j] == t[i + 1..j] && (i + 1 < j ==> u[i + 1] == t[i + 1])
  {
    SubSlice(u, 0, n, i, j);
    SubSlice(t, 0, n, i, j);
    assert u[..n][i] == t[..n][i];
    assert i + 1 < j ==> u[..n][i + 1] == t[..n][i + 1];
    assert u[i..j][1..] == t[i..j][1..];
  }

  lemma UnicodeLocal(t: Text, u: Text, n: nat)
    requires |t| >= 2 && t[0] == 92 && t[1] == 117 && UnescapeUnicode(t).Some? && n == UnescapeUnicode(t).value.1
    requires |u| > n && u[..n] == t[..n]
    requires n == |t| ==> |u| == n + 1 && u[n] == 34
    requires n < |t| ==> u[n] == t[n] && (t[n] == 92 ==> |u| > n + 1 && |t| > n + 1 && u[n + 1] == t[n + 1])
    ensures UnescapeUnicode(u) == UnescapeUnicode(t)
  {
    hide Hex4, Ordinary, Utf8;
    SamePart(t, u, n, 2, 6);
    if n == 12 {
      SamePart(t, u, n, 6, 8);
      SamePart(t, u, n, 8, 12);
    }
  }

  /** Its characters other than the backslashes that begin it are neither quotes nor backslashes. */
  lemma EscapeInner(t: Text, n: nat, b: Text)
    requires |t| >= 2 && t[0] == 92 && Unescape(t).Some? && n == Unescape(t).value.1 && JsonLexemes.Inner(b)
    ensures JsonLexemes.Inner(t[..n] + b)
  {
    if n == 2 {
      assert (t[..2] + b)[2..] == b;
    } else {
      EscapeUnits(t, n);
      if n == 12 {
        UnitInner(t[6..12], b);
        UnitInner(t[..6], t[6..12] + b);
        assert t[..12] + b == t[..6] + (t[6..12] + b);
      } else {
        UnitInner(t[..6], b);
      }
    }
  }

  lemma EscapeUnits(t: Text, n: nat)
    requires |t| >= 2 && t[0] == 92 && Unescape(t).Some? && n == Unescape(t).value.1 && n != 2
    ensures 6 <= n <= |t| && t[1] == 117 && Ordinary(t[2..6])
    ensures n == 6 || (n == 12 && t[6] == 92 && t[7] == 117 && Ordinary(t[8..12]))
  {
    hide Hex4, Ordinary, Utf8;
  }

  lemma UnitInner(unit: Text, b: Text)
    requires |unit| == 6 && unit[0] == 92 && unit[1] == 117 && Ordinary(unit[2..6]) && JsonLexemes.Inner(b)
    ensures JsonLexemes.Inner(unit + b)
  {
    assert (unit + b)[2..] == unit[2..6] + b;
    OrdinaryInner(unit[2..6], b);
  }

  lemma {:induction false} OrdinaryInner(t: Text, b: Text)
    requires Ordinary(t) && JsonLexemes.Inner(b)
    ensures JsonLexemes.Inner(t + b)
  {
    if t == [] {
      assert t + b == b;
    } else {
      OrdinaryInner(t[1..], b);
      assert (t + b)[1..] == t[1..] + b;
    }
  }

  lemma {:induction false} CharsFound(t: Text) returns (body: Text)
    requires ParseChars(t).Some?
    ensures
      var (s, rest) := ParseChars(t).value;
      && JsonLexemes.Inner(body) && ParseChars(body + [34]) == Some((s, []))
      && (t == body + [34] + rest || (t == body && rest == []))
    decreases |t|
  {
    hide Unescape;
    if t == [] || t[0] == 34 {
      body := [];
      assert [] + [34] == [34] && [34][1..] == [];
    } else if t[0] != 92 {
      var b := CharsFound(t[1..]);
      body := [t[0]] + b;
      assert (body + [34])[1..] == b + [34] && body[1..] == b;
    } else {
      body := EscapeFound(t);
    }
  }

  lemma {:induction false} EscapeFound(t: Text) returns (body: Text)
    requires ParseChars(t).Some? && t != [] && t[0] == 92
    ensures
      var (s, rest) := ParseChars(t).value;
      && JsonLexemes.Inner(body) && ParseChars(body + [34]) == Some((s, []))
      && (t == body + [34] + rest || (t == body && rest == []))
    decreases |t|, 0
  {
    hide Unescape, JsonLexemes.Inner;
    var n := Unescape(t).value.1;
    var b := CharsFound(t[n..]);
    body := t[..n] + b;
    EscapeInner(t, n, b);
    var (s, rest) := ParseChars(t[n..]).value;
    AfterEscape(t, n, b, rest);
    UnescapeLocal(t, body + [34], n);
    assert (body + [34])[n..] == b + [34];
  }

  lemma AfterEscape(t: Text, n: nat, b: Text, rest: Text)
    requires n <= |t| && JsonLexemes.Inner(b) && (t[n..] == b + [34] + rest || t[n..] == b)
    ensures
      var u := t[..n] + b + [34];
      && |u| > n && u[..n] == t[..n] && u[n..] == b + [34]
      && (n == |t| ==> |u| == n + 1 && u[n] == 34)
      && (n < |t| ==> u[n] == t[n] && (t[n] == 92 ==> |u| > n + 1 && |t| > n + 1 && u[n + 1] == t[n + 1]))
  {
    BackslashInner(b);
    hide JsonLexemes.Inner;
    var u := t[..n] + b + [34];
    assert n < |t| ==> t[n..][0] == t[n];
    assert n + 1 < |t| ==> t[n..][1] == t[n + 1];
    assert u[n..] == b + [34];
    assert u[n..][0] == u[n];
  }

  lemma BackslashInner(b: Text)
    requires JsonLexemes.Inner(b)
    ensures b != [] && b[0] == 92 ==> |b| > 1
  {
  }

  lemma LiteralFound(t: Text) returns (lit: Text)
    requires ParseString(t).Some?
    ensures
      var (s, rest) := ParseString(t).value;
      Reads(lit, s) && (t == lit + rest || (t + [34] == lit && rest == []))
  {
    hide ParseChars, JsonLexemes.Inner;
    var body := CharsFound(t[1..]);
    lit := [34] + (body + [34]);
    assert lit[1..|lit| - 1] == body && lit[1..] == body + [34];
  }

  // ---------- numbers ----------

  lemma {:induction false} DigitsFound(t: Text, n: nat) returns (digits: Text)
    ensures AllDigits(digits) && t == digits + TakeDigits(t, n).1 && !IsDigit(First(TakeDigits(t, n).1))
    ensures NumberOf(digits) >= 0 && TakeDigits(t, 0).0 == NumberOf(digits)
    decreases |t|
  {
    digits := [];
    if t != [] && IsDigit(t[0]) {
      var more := DigitsFound(t[1..], 10 * n + (t[0] - 48));
      digits := [t[0]] + more;
    }
    var rest := TakeDigits(t, n).1;
    DigitsRead(digits, rest);
    StopsAtOnce(rest, NumberOf(digits));
  }

  /** The number in front, without its sign, and what follows. */
  function Scanned(u: Text): (nat, Text) {
    var significant := if First(u) == ZERO then u[1..] else u;
    if IsDigit(First(significant)) && First(significant) != ZERO then TakeDigits(significant, 0) else (0, significant)
  }

  /** Its digits: an idle zero, and those that begin with another digit. */
  lemma UnsignedFound(u: Text) returns (digits: Text)
    ensures LooseNumber(true, digits) && (IsDigit(First(u)) ==> digits != [])
    ensures u == digits + Scanned(u).1 && NumberOf(digits) == Scanned(u).0
  {
    hide TakeDigits, NumberOf;
    var significant := if First(u) == ZERO then u[1..] else u;
    var more := [];
    if IsDigit(First(significant)) && First(significant) != ZERO {
      more := DigitsFound(significant, 0);
      assert more != [] && more[0] == significant[0];
    }
    NoDigits();
    IdleZero(more);
    if First(u) == ZERO {
      digits := [48] + more;
      assert u == [48] + significant;
    } else {
      digits := more;
    }
  }

  lemma NoDigits()
    ensures NumberOf([]) == 0
  {
  }

  lemma NumberParse(t: Text)
    requires (First(t) == MINUS || IsDigit(First(t))) && ParseNumber(t).Some?
    ensures
      var (n, rest) := Scanned(if t[0] == MINUS then t[1..] else t);
      ParseNumber(t) == Some((if t[0] == MINUS then -(n as int) else n as int, rest))
  {
    hide TakeDigits, Fractional;
  }

  lemma NumberFound(t: Text) returns (s: Shape)
    requires (First(t) == MINUS || IsDigit(First(t))) && ParseNumber(t).Some?
    ensures
      var (n, rest) := ParseNumber(t).value;
      s.Number? && Fit(s) && t == Write(s) + rest && Meant(s) == Num(n)
  {
    NumberParse(t);
    hide Scanned, LooseNumber, NumberOf, ParseNumber, Fit, Write, Meant;
    var negative := t[0] == MINUS;
    var unsigned := if negative then t[1..] else t;
    var digits := UnsignedFound(unsigned);
    s := Number(negative, digits);
    assert t == (if negative then [45] else []) + unsigned;
    SignedFound(t, negative, digits, Scanned(unsigned).1);
  }

  lemma SignedFound(t: Text, negative: bool, digits: Text, rest: Text)
    requires LooseNumber(true, digits) && (negative || digits != [])
    requires t == (if negative then [45] else []) + (digits + rest)
    ensures
      var s := Number(negative, digits);
      && Fit(s) && t == Write(s) + rest
      && Meant(s) == Num(if negative then -NumberOf(digits) else NumberOf(digits))
  {
    hide NumberOf, AllDigits;
  }

  lemma IdleZero(digits: Text)
    ensures NumberOf([48] + digits) == NumberOf(digits)
  {
    if digits != [] {
      IdleZero(digits[..|digits| - 1]);
      assert ([48] + digits)[..|digits|] == [48] + digits[..|digits| - 1];
    } else {
      assert NumberOf([48]) == 10 * NumberOf([48][..0]) && [48][..0] == [];
    }
  }

  // ---------- values ----------

  lemma {:induction false} GapFound(t: Text) returns (gap: Text)
    ensures Blank(gap) && t == gap + Skip(t)
  {
    gap := [];
    if t != [] && 0 < t[0] <= 32 {
      gap := GapFound(t[1..]);
      gap := [t[0]] + gap;
    }
  }

  /** The value was read from the front of the text. */
  predicate InFront(s: Shape, t: Text, v: Value, rest: Text) {
    Fit(s) && t == Write(s) + rest && Meant(s) == v
  }

  /** Whatever value is read, the text begins with a shape of it, or is a string that only its end closes. */
  lemma {:induction false} ShapeFound(t: Text) returns (s: Shape)
    requires ParseValue(t).Some?
    ensures var (v, rest) := ParseValue(t).value; InFront(s, t, v, rest) || OpenString(t, v, rest)
    decreases |t|, 1
  {
    hide ParseValue;
    if First(t) == OPEN_BRACKET {
      s := ArrayFound(t);
    } else if First(t) == OPEN_BRACE {
      s := ObjectFound(t);
    } else {
      s := LeafFound(t);
    }
  }

  lemma LeafFound(t: Text) returns (s: Shape)
    requires ParseValue(t).Some? && First(t) != OPEN_BRACKET && First(t) != OPEN_BRACE
    ensures var (v, rest) := ParseValue(t).value; InFront(s, t, v, rest) || OpenString(t, v, rest)
  {
    hide ParseItems, ParseMembers, Skip, ParseNumber, ParseString, Reads, LooseNumber;
    if NULL_TEXT <= t {
      s := Word(NULL_TEXT);
    } else if FALSE_TEXT <= t {
      s := Word(FALSE_TEXT);
    } else if TRUE_TEXT <= t {
      s := Word(TRUE_TEXT);
    } else if First(t) == QUOTE {
      var lit := LiteralFound(t);
      s := Literal(lit, ParseString(t).value.0);
    } else {
      s := NumberFound(t);
    }
  }

  lemma ArrayFound(t: Text) returns (s: Shape)
    requires ParseValue(t).Some? && First(t) == OPEN_BRACKET
    ensures var (v, rest) := ParseValue(t).value; InFront(s, t, v, rest)
    decreases |t|, 0
  {
    ArrayParse(t);
    hide ParseValue, ParseItems, ParseMembers, Skip, FitParts, WriteParts, InFront, MeantParts;
    var gap := GapFound(t[1..]);
    var u := Skip(t[1..]);
    if First(u) == CLOSE_BRACKET {
      s := Array(gap, []);
      EmptyInFront(gap, t, u);
    } else {
      ItemsIgnoreBlank(t[1..]);
      var parts := PartsFound(t[1..]);
      s := Array([], parts);
      ArrayInFront(parts, t, ParseItems(u).value.1);
    }
  }

  lemma EmptyInFront(gap: Text, t: Text, u: Text)
    requires t != [] && t[1..] == gap + u && Blank(gap) && u != []
    ensures t[0] == 91 && u[0] == 93 ==> InFront(Array(gap, []), t, Arr([]), u[1..])
    ensures t[0] == 123 && u[0] == 125 ==> InFront(Object(gap, []), t, Obj([]), u[1..])
  {
    hide Blank, WriteParts, WriteFields, Reads, LooseNumber;
    NoParts();
    assert t == [t[0]] + gap + [u[0]] + u[1..];
  }

  lemma ArrayInFront(parts: seq<Part>, t: Text, rest: Text)
    requires parts != [] && FitParts(parts) && t != [] && t[0] == 91 && t[1..] == WriteParts(parts) + [93] + rest
    ensures InFront(Array([], parts), t, Arr(MeantParts(parts)), rest)
  {
    hide FitParts, WriteParts, MeantParts;
    assert t == [91] + WriteParts(parts) + [93] + rest;
  }

  lemma ObjectInFront(fields: seq<Field>, t: Text, rest: Text)
    requires fields != [] && FitFields(fields) && t != [] && t[0] == 123
    requires t[1..] == WriteFields(fields) + [125] + rest
    ensures InFront(Object([], fields), t, Obj(MeantFields(fields)), rest)
  {
    hide FitFields, WriteFields, MeantFields;
    assert t == [123] + WriteFields(fields) + [125] + rest;
  }

  lemma NoParts()
    ensures FitParts([]) && WriteParts([]) == [] && MeantParts([]) == []
    ensures FitFields([]) && WriteFields([]) == [] && MeantFields([]) == []
  {
  }

  lemma ArrayParse(t: Text)
    requires ParseValue(t).Some? && First(t) == OPEN_BRACKET
    ensures
      var u := Skip(t[1..]);
      if First(u) == CLOSE_BRACKET then ParseValue(t) == Some((Arr([]), u[1..]))
      else ParseItems(u).Some? && ParseValue(t) == Some((Arr(ParseItems(u).value.0), ParseItems(u).value.1))
  {
    hide ParseItems, ParseMembers, Skip, ParseNumber, ParseString;
  }

  lemma ObjectParse(t: Text)
    requires ParseValue(t).Some? && First(t) == OPEN_BRACE
    ensures
      var u := Skip(t[1..]);
      if First(u) == CLOSE_BRACE then ParseValue(t) == Some((Obj([]), u[1..]))
      else ParseMembers(u).Some? && ParseValue(t) == Some((Obj(ParseMembers(u).value.0), ParseMembers(u).value.1))
  {
    hide ParseItems, ParseMembers, Skip, ParseNumber, ParseString;
  }

  lemma PartFound(t: Text) returns (p: Part)
    requires ParseValue(Skip(t)).Some? && Skip(ParseValue(Skip(t)).value.1) != []
    ensures
      var (v, r) := ParseValue(Skip(t)).value;
      FitPart(p) && t == WritePart(p) + Skip(r) && Meant(p.shape) == v
    decreases |t|, 2
  {
    hide ParseValue, Fit, Write, Meant, Reads;
    var before := GapFound(t);
    var (v, r) := ParseValue(Skip(t)).value;
    var s := ShapeFound(Skip(t));
    var after := GapFound(r);
    SkipNothing();
    p := Part(before, s, after);
    assert t == before + (Write(s) + (after + Skip(r)));
  }

  lemma SkipNothing()
    ensures Skip([]) == []
  {
  }

  lemma {:induction false} PartsFound(t: Text) returns (ps: seq<Part>)
    requires ParseItems(t).Some?
    ensures
      var (items, rest) := ParseItems(t).value;
      ps != [] && FitParts(ps) && t == WriteParts(ps) + [93] + rest && MeantParts(ps) == items
    decreases |t|, 3
  {
    hide ParseValue, Skip, FitPart, WritePart, Meant;
    var p := PartFound(t);
    var r := Skip(ParseValue(Skip(t)).value.1);
    if First(r) == COMMA {
      var more := PartsFound(r[1..]);
      ps := [p] + more;
      assert ps[1..] == more;
      assert r == [44] + r[1..];
    } else {
      ps := [p];
      assert r == [93] + r[1..] && ps[1..] == [];
    }
  }

  lemma ObjectFound(t: Text) returns (s: Shape)
    requires ParseValue(t).Some? && First(t) == OPEN_BRACE
    ensures var (v, rest) := ParseValue(t).value; InFront(s, t, v, rest)
    decreases |t|, 0
  {
    ObjectParse(t);
    hide ParseValue, ParseItems, ParseMembers, Skip, FitFields, WriteFields, InFront, MeantFields;
    var gap := GapFound(t[1..]);
    var u := Skip(t[1..]);
    if First(u) == CLOSE_BRACE {
      s := Object(gap, []);
      EmptyInFront(gap, t, u);
    } else {
      MembersIgnoreBlank(t[1..]);
      var fields := FieldsFound(t[1..]);
      s := Object([], fields);
      ObjectInFront(fields, t, ParseMembers(u).value.1);
    }
  }

  lemma NameFound(t: Text) returns (before: Text, name: Shape, beforeColon: Text)
    requires ParseString(Skip(t)).Some? && First(Skip(ParseString(Skip(t)).value.1)) == COLON
    ensures
      var (n, r) := ParseString(Skip(t)).value;
      && Blank(before) && name == Literal(Write(name), n) && Fit(name) && Blank(beforeColon)
      && t == before + Write(name) + beforeColon + Skip(r)
  {
    hide ParseString, Reads;
    before := GapFound(t);
    var (n, r) := ParseString(Skip(t)).value;
    var lit := LiteralFound(Skip(t));
    beforeColon := GapFound(r);
    name := Literal(lit, n);
    assert t == before + (lit + (beforeColon + Skip(r)));
  }

  lemma FieldFound(t: Text) returns (f: Field)
    requires ParseMember(t).Some? && Skip(ParseMember(t).value.1) != []
    ensures
      var (m, r) := ParseMember(t).value;
      FitField(f) && t == WriteField(f) + Skip(r) && Member(NameOf(f.name), Meant(f.part.shape)) == m
    decreases |t|, 1
  {
    hide ParseValue, ParseString, Skip, FitPart, WritePart, Fit, Write, Meant, Blank;
    var before, name, beforeColon := NameFound(t);
    var r := Skip(ParseString(Skip(t)).value.1);
    var part := PartFound(r[1..]);
    f := Field(before, name, beforeColon, part);
    assert r == [58] + r[1..];
    var end := Skip(ParseMember(t).value.1);
    assert t == before + Write(name) + beforeColon + ([58] + (WritePart(part) + end));
  }

  lemma {:induction false} FieldsFound(t: Text) returns (fs: seq<Field>)
    requires ParseMembers(t).Some?
    ensures
      var (members, rest) := ParseMembers(t).value;
      fs != [] && FitFields(fs) && t == WriteFields(fs) + [125] + rest && MeantFields(fs) == members
    decreases |t|, 3
  {
    hide ParseMember, Skip, FitField, WriteField, Meant, NameOf;
    var f := FieldFound(t);
    var r := Skip(ParseMember(t).value.1);
    if First(r) == COMMA {
      var more := FieldsFound(r[1..]);
      fs := [f] + more;
      assert fs[1..] == more;
      assert r == [44] + r[1..];
    } else {
      fs := [f];
      assert r == [125] + r[1..] && fs[1..] == [];
    }
  }

  /** A text is accepted only with a value in front, behind blanks, and when all of it has to be used up nothing but
    * blanks may follow. */
  lemma TextAccepted(t: Text, whole: bool) returns (before: Text, s: Shape, after: Text)
    requires Parse(t, whole).Some?
    ensures
      var (v, rest) := Parse(t, whole).value;
      && Blank(before)
      && ((t == before + Write(s) + after && Fit(s) && Meant(s) == v && if whole then Blank(after) else after == rest)
          || (exists u :: t == before + u && OpenString(u, v, [])))
  {
    hide ParseValue, Fit, Write, Meant, Skip, Reads;
    before := GapFound(t);
    var u := Skip(t);
    var (v, r) := ParseValue(u).value;
    s := ShapeFound(u);
    after := r;
    var gap := GapFound(r);
  }
}
