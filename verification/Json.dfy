/** JSON trees, the text they are printed as, and the reading of text. */
module Json {
  import opened Bytes

  type Text = seq<byte>

  datatype Value = Null | False | True | Num(n: int) | Str(s: Text) | Arr(items: seq<Value>) | Obj(members: seq<Member>)

  datatype Member = Member(name: Text, value: Value)

  const TAB: byte := 9
  const NEWLINE: byte := 10
  const SPACE: byte := 32
  const QUOTE: byte := 34
  const STAR: byte := 42
  const COMMA: byte := 44
  const MINUS: byte := 45
  const SLASH: byte := 47
  const ZERO: byte := 48
  const COLON: byte := 58
  const OPEN_BRACKET: byte := 91
  const BACKSLASH: byte := 92
  const CLOSE_BRACKET: byte := 93
  const LOWER_U: byte := 117
  const OPEN_BRACE: byte := 123
  const CLOSE_BRACE: byte := 125

  const NULL_TEXT: Text := [110, 117, 108, 108]
  const FALSE_TEXT: Text := [102, 97, 108, 115, 101]
  const TRUE_TEXT: Text := [116, 114, 117, 101]

  /** What the printers and the parser are for: 32-bit numbers and strings without NUL. */
  predicate Clean(v: Value) {
    match v
    case Num(n) => -0x8000_0000 <= n < 0x8000_0000
    case Str(s) => 0 !in s
    case Arr(items) => forall i :: 0 <= i < |items| ==> Clean(items[i])
    case Obj(members) => forall i :: 0 <= i < |members| ==> 0 !in members[i].name && Clean(members[i].value)
    case _ => true
  }

  // Printing

  /** A decimal or lower-case hexadecimal digit. */
  function DigitChar(d: nat): byte
    requires d < 16
  {
    if d < 10 then 48 + d else 87 + d
  }

  /** The letter that follows the backslash in a short escape, or 0. */
  function ShortEscape(c: byte): byte {
    if c == QUOTE || c == BACKSLASH then c
    else if c == 8 then 98
    else if c == 12 then 102
    else if c == NEWLINE then 110
    else if c == 13 then 114
    else if c == TAB then 116
    else 0
  }

  function EscapeByte(c: byte): Text {
    if c > 31 && c != QUOTE && c != BACKSLASH then [c]
    else if ShortEscape(c) != 0 then [BACKSLASH, ShortEscape(c)]
    else [BACKSLASH, LOWER_U, ZERO, ZERO, DigitChar(c / 16 % 16), DigitChar(c % 16)]
  }

  function Escape(s: Text): Text {
    if s == [] then [] else EscapeByte(s[0]) + Escape(s[1..])
  }

  function Quoted(s: Text): Text {
    [QUOTE] + Escape(s) + [QUOTE]
  }

  function Digits(n: nat): Text {
    if n < 10 then [DigitChar(n)] else Digits(n / 10) + [DigitChar(n % 10)]
  }

  function Decimal(n: int): Text {
    if n < 0 then [MINUS] + Digits(-n) else Digits(n)
  }

  function Tabs(n: nat): Text {
    seq(n, _ => TAB)
  }

  /** The text is only there when formatting. */
  function When(fmt: bool, t: Text): Text {
    if fmt then t else []
  }

  function Print(v: Value, depth: nat, fmt: bool): Text
    decreases v
  {
    match v
    case Null => NULL_TEXT
    case False => FALSE_TEXT
    case True => TRUE_TEXT
    case Num(n) => Decimal(n)
    case Str(s) => Quoted(s)
    case Arr(items) => [OPEN_BRACKET] + PrintItems(items, depth + 1, fmt) + [CLOSE_BRACKET]
    case Obj(members) =>
      if members == [] then
        [OPEN_BRACE] + When(fmt, [NEWLINE] + Tabs(if depth == 0 then 0 else depth - 1)) + [CLOSE_BRACE]
      else
        [OPEN_BRACE] + When(fmt, [NEWLINE]) + PrintMembers(members, depth + 1, fmt) + When(fmt, Tabs(depth))
            + [CLOSE_BRACE]
  }

  function Separator(fmt: bool): Text {
    [COMMA] + When(fmt, [SPACE])
  }

  function PrintItems(items: seq<Value>, depth: nat, fmt: bool): Text
    decreases items
  {
    if items == [] then []
    else if |items| == 1 then Print(items[0], depth, fmt)
    else Print(items[0], depth, fmt) + Separator(fmt) + PrintItems(items[1..], depth, fmt)
  }

  /** Everything up to a member's value. */
  function PrintName(name: Text, depth: nat, fmt: bool): Text {
    When(fmt, Tabs(depth)) + Quoted(name) + [COLON] + When(fmt, [TAB])
  }

  function EndMember(more: bool, fmt: bool): Text {
    When(more, [COMMA]) + When(fmt, [NEWLINE])
  }

  function PrintMembers(members: seq<Member>, depth: nat, fmt: bool): Text
    decreases members
  {
    if members == [] then []
    else
      PrintName(members[0].name, depth, fmt) + Print(members[0].value, depth, fmt)
      + EndMember(|members| > 1, fmt) + PrintMembers(members[1..], depth, fmt)
  }

  // Parsing; the end of the text stands for its terminating NUL

  function First(t: Text): byte {
    if t == [] then 0 else t[0]
  }

  function Skip(t: Text): (r: Text)
    ensures |r| <= |t|
  {
    if t != [] && 0 < t[0] <= 32 then Skip(t[1..]) else t
  }

  predicate IsDigit(c: byte) {
    48 <= c <= 57
  }

  /** The value of a hexadecimal digit in either case, or 16. */
  function HexValue(c: byte): (v: nat)
    ensures v <= 16
  {
    if IsDigit(c) then c - 48 else if 65 <= c <= 70 then c - 55 else if 97 <= c <= 102 then c - 87 else 16
  }

  /** Four hexadecimal digits; anything else reads as 0. */
  function Hex4(t: Text): (v: nat)
    requires |t| == 4
    ensures v < 0x1_0000
  {
    var a, b, c, d := HexValue(t[0]), HexValue(t[1]), HexValue(t[2]), HexValue(t[3]);
    if a < 16 && b < 16 && c < 16 && d < 16 then ((a * 16 + b) * 16 + c) * 16 + d else 0
  }

  /** UTF-8, as section 3 of RFC 3629 lays it out. */
  function Utf8(uc: nat): Text
    requires 0 < uc < 0x11_0000
  {
    if uc < 0x80 then [uc]
    else if uc < 0x800 then [0xC0 + uc / 0x40, 0x80 + uc % 0x40]
    else if uc < 0x1_0000 then [0xE0 + uc / 0x1000, 0x80 + uc / 0x40 % 0x40, 0x80 + uc % 0x40]
    else [0xF0 + uc / 0x4_0000, 0x80 + uc / 0x1000 % 0x40, 0x80 + uc / 0x40 % 0x40, 0x80 + uc % 0x40]
  }

  /** Characters that neither end a string nor start an escape. */
  predicate Ordinary(t: Text) {
    QUOTE !in t && BACKSLASH !in t
  }

  /** What an escape stands for and how long it is; none if the text or the string ends inside it, which is not part of
    * the model. */
  function Unescape(t: Text): (r: Option<(Text, nat)>)
    requires t != [] && t[0] == BACKSLASH
    ensures r.Some? ==> 2 <= r.value.1 <= |t|
  {
    if |t| < 2 then None
    else if t[1] == LOWER_U then UnescapeUnicode(t)
    else
      var c := t[1];
      Some(([if c == 98 then 8 else if c == 102 then 12 else if c == 110 then 10 else if c == 114 then 13
             else if c == 116 then 9 else c], 2))
  }

  /** A single unit, or a surrogate pair; what is neither stands for nothing. */
  function UnescapeUnicode(t: Text): (r: Option<(Text, nat)>)
    requires |t| >= 2
    ensures r.Some? ==> 2 <= r.value.1 <= |t|
  {
    if |t| < 6 || !Ordinary(t[2..6]) then None
    else
      var uc := Hex4(t[2..6]);
      if 0xDC00 <= uc <= 0xDFFF || uc == 0 then Some(([], 6))
      else if 0xD800 <= uc <= 0xDBFF then
        if |t| < 8 || t[6] != BACKSLASH || t[7] != LOWER_U then Some(([], 6))
        else if |t| < 12 || !Ordinary(t[8..12]) then None
        else
          var uc2 := Hex4(t[8..12]);
          if uc2 < 0xDC00 || uc2 > 0xDFFF then Some(([], 12))
          else Some((Utf8(0x1_0000 + uc % 0x400 * 0x400 + uc2 % 0x400), 12))
      else Some((Utf8(uc), 6))
  }

  /** The characters of a string up to its closing quote, or up to the end of the text. */
  function ParseChars(t: Text): (r: Option<(Text, Text)>)
    ensures r.Some? ==> |r.value.1| <= |t|
  {
    if t == [] then Some(([], []))
    else if t[0] == QUOTE then Some(([], t[1..]))
    else if t[0] != BACKSLASH then
      match ParseChars(t[1..])
      case None => None
      case Some((s, rest)) => Some(([t[0]] + s, rest))
    else
      match Unescape(t)
      case None => None
      case Some((c, n)) =>
        match ParseChars(t[n..])
        case None => None
        case Some((s, rest)) => Some((c + s, rest))
  }

  function ParseString(t: Text): (r: Option<(Text, Text)>)
    ensures r.Some? ==> |r.value.1| < |t|
  {
    if First(t) != QUOTE then None else ParseChars(t[1..])
  }

  /** Reads digits on top of those already read. */
  function TakeDigits(t: Text, n: nat): (r: (nat, Text))
    ensures |r.1| <= |t|
  {
    if t != [] && IsDigit(t[0]) then TakeDigits(t[1..], 10 * n + (t[0] - 48)) else (n, t)
  }

  /** A fraction or an exponent follows. */
  predicate Fractional(t: Text) {
    (First(t) == 46 && |t| > 1 && IsDigit(t[1])) || First(t) == 101 || First(t) == 69
  }

  /** Whole numbers only: other numbers are not part of the model. */
  function ParseNumber(t: Text): (r: Option<(int, Text)>)
    requires First(t) == MINUS || IsDigit(First(t))
    ensures r.Some? ==> |r.value.1| < |t|
  {
    var unsigned := if t[0] == MINUS then t[1..] else t;
    var significant := if First(unsigned) == ZERO then unsigned[1..] else unsigned;
    var (n, rest) :=
      if IsDigit(First(significant)) && First(significant) != ZERO then TakeDigits(significant, 0)
      else (0, significant);
    if Fractional(rest) then None else Some((if t[0] == MINUS then -(n as int) else n as int, rest))
  }

  function ParseValue(t: Text): (r: Option<(Value, Text)>)
    ensures r.Some? ==> |r.value.1| < |t|
    decreases |t|, 0
  {
    if NULL_TEXT <= t then Some((Null, t[4..]))
    else if FALSE_TEXT <= t then Some((False, t[5..]))
    else if TRUE_TEXT <= t then Some((True, t[4..]))
    else if First(t) == QUOTE then
      match ParseString(t)
      case None => None
      case Some((s, rest)) => Some((Str(s), rest))
    else if First(t) == MINUS || IsDigit(First(t)) then
      match ParseNumber(t)
      case None => None
      case Some((n, rest)) => Some((Num(n), rest))
    else if First(t) == OPEN_BRACKET then
      var u := Skip(t[1..]);
      if First(u) == CLOSE_BRACKET then Some((Arr([]), u[1..]))
      else
        match ParseItems(u)
        case None => None
        case Some((items, rest)) => Some((Arr(items), rest))
    else if First(t) == OPEN_BRACE then
      var u := Skip(t[1..]);
      if First(u) == CLOSE_BRACE then Some((Obj([]), u[1..]))
      else
        match ParseMembers(u)
        case None => None
        case Some((members, rest)) => Some((Obj(members), rest))
    else None
  }

  /** One item or more, and the closing bracket. */
  function ParseItems(t: Text): (r: Option<(seq<Value>, Text)>)
    ensures r.Some? ==> |r.value.1| < |t|
    decreases |t|, 1
  {
    match ParseValue(Skip(t))
    case None => None
    case Some((v, r)) =>
      var rest := Skip(r);
      if First(rest) == COMMA then
        match ParseItems(rest[1..])
        case None => None
        case Some((items, end)) => Some(([v] + items, end))
      else if First(rest) == CLOSE_BRACKET then Some(([v], rest[1..]))
      else None
  }

  /** A name, the colon and the value. */
  function ParseMember(t: Text): (r: Option<(Member, Text)>)
    ensures r.Some? ==> |r.value.1| < |t|
    decreases |t|, 1
  {
    match ParseString(Skip(t))
    case None => None
    case Some((name, r)) =>
      var rest := Skip(r);
      if First(rest) != COLON then None
      else
        match ParseValue(Skip(rest[1..]))
        case None => None
        case Some((v, end)) => Some((Member(name, v), end))
  }

  function ParseMembers(t: Text): (r: Option<(seq<Member>, Text)>)
    ensures r.Some? ==> |r.value.1| < |t|
    decreases |t|, 2
  {
    match ParseMember(t)
    case None => None
    case Some((m, r)) =>
      var rest := Skip(r);
      if First(rest) == COMMA then
        match ParseMembers(rest[1..])
        case None => None
        case Some((members, end)) => Some(([m] + members, end))
      else if First(rest) == CLOSE_BRACE then Some(([m], rest[1..]))
      else None
  }

  /** The whole of a text; with `whole` nothing but white space may follow the value. */
  function Parse(t: Text, whole: bool): Option<(Value, Text)> {
    match ParseValue(Skip(t))
    case None => None
    case Some((v, rest)) =>
      if !whole then Some((v, rest)) else if Skip(rest) == [] then Some((v, [])) else None
  }
}
