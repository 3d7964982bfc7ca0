/** Texts as a server may write them, by the grammar of RFC 8259 for whole numbers, and what they say: the parser reads
  * every one of them as that. */
module JsonGrammar {
  import opened Bytes
  import opened Json
  import opened JsonRoundTrip

  // ---------- strings: section 7 ----------

  /** A character of a string as it is written: itself, a short escape by its letter, a \u escape by its four digits, or
    * a pair of them. */
  datatype Piece = Raw(c: byte) | Short(letter: byte) | Unit(hex: Text) | Pair(high: Text, low: Text)

  predicate IsHex(c: byte) {
    48 <= c <= 57 || 65 <= c <= 70 || 97 <= c <= 102
  }

  predicate FourHex(t: Text) {
    |t| == 4 && IsHex(t[0]) && IsHex(t[1]) && IsHex(t[2]) && IsHex(t[3])
  }

  function HexDigit(c: byte): (d: nat)
    requires IsHex(c)
    ensures d < 16
  {
    if c <= 57 then c - 48 else if c <= 70 then c - 65 + 10 else c - 97 + 10
  }

  function HexNumber(t: Text): (n: nat)
    requires FourHex(t)
    ensures n < 65536
  {
    4096 * HexDigit(t[0]) + 256 * HexDigit(t[1]) + 16 * HexDigit(t[2]) + HexDigit(t[3])
  }

  /** The characters of a string are anything from the space on except quote and backslash; the escapes are those of the
    * grammar; a high surrogate comes with a low one. */
  predicate GoodPiece(p: Piece) {
    match p
    case Raw(c) => c >= 32 && c != 34 && c != 92
    case Short(letter) => letter in {34, 92, 47, 98, 102, 110, 114, 116}
    case Unit(hex) => FourHex(hex) && !(0xD800 <= HexNumber(hex) <= 0xDBFF)
    case Pair(high, low) =>
      FourHex(high) && FourHex(low) && 0xD800 <= HexNumber(high) <= 0xDBFF && 0xDC00 <= HexNumber(low) <= 0xDFFF
  }

  function SpellPiece(p: Piece): Text {
    match p
    case Raw(c) => [c]
    case Short(letter) => [92, letter]
    case Unit(hex) => [92, 117] + hex
    case Pair(high, low) => [92, 117] + high + [92, 117] + low
  }

  /** What a piece says. A zero and a lone low surrogate say nothing: strings end at NUL and are UTF-8. */
  function SayPiece(p: Piece): Text {
    if !GoodPiece(p) then []
    else
      match p
      case Raw(c) => [c]
      case Short(letter) =>
        [if letter == 98 then 8 else if letter == 102 then 12 else if letter == 110 then 10
          else if letter == 114 then 13
         else if letter == 116 then 9 else letter]
      case Unit(hex) =>
        var n := HexNumber(hex);
        if n == 0 || 0xDC00 <= n <= 0xDFFF then [] else Utf8(n)
      case Pair(high, low) => Utf8(65536 + 1024 * (HexNumber(high) - 0xD800) + (HexNumber(low) - 0xDC00))
  }

  function SpellPieces(ps: seq<Piece>): Text {
    if ps == [] then [] else SpellPiece(ps[0]) + SpellPieces(ps[1..])
  }

  predicate GoodPieces(ps: seq<Piece>) {
    forall i :: 0 <= i < |ps| ==> GoodPiece(ps[i])
  }

  function SayPieces(ps: seq<Piece>): Text {
    if ps == [] then [] else SayPiece(ps[0]) + SayPieces(ps[1..])
  }

  /** The bytes are the one UTF-8 form of a code point, section 3 of RFC 3629: the first byte gives the length, each
    * later one six bits, and no shorter form would do. */
  predicate IsUtf8(b: Text, uc: nat) {
    || (|b| == 1 && b[0] < 128 && uc == b[0])
    || (|b| == 2 && 192 <= b[0] < 224 && 128 <= b[1] < 192 && uc >= 128
        && uc == (b[0] - 192) as int * 64 + (b[1] - 128))
    || (|b| == 3 && 224 <= b[0] < 240 && 128 <= b[1] < 192 && 128 <= b[2] < 192 && uc >= 2048
        && uc == (b[0] - 224) as int * 4096 + (b[1] - 128) as int * 64 + (b[2] - 128))
    || (|b| == 4 && 240 <= b[0] < 248 && 128 <= b[1] < 192 && 128 <= b[2] < 192 && 128 <= b[3] < 192 && uc >= 65536
        && uc == (b[0] - 240) as int * 262144 + (b[1] - 128) as int * 4096 + (b[2] - 128) as int * 64 + (b[3] - 128))
  }

  lemma Utf8IsUtf8(uc: nat)
    requires 0 < uc < 0x11_0000
    ensures IsUtf8(Utf8(uc), uc)
  {
    assert uc / 64 / 64 == uc / 4096 && uc / 4096 / 64 == uc / 262144;
  }

  lemma HexRead(t: Text)
    requires FourHex(t)
    ensures Hex4(t) == HexNumber(t) && Ordinary(t)
  {
    HexIs(t[0]);
    HexIs(t[1]);
    HexIs(t[2]);
    HexIs(t[3]);
    hide HexValue, HexDigit;
  }

  lemma HexIs(c: byte)
    requires IsHex(c)
    ensures HexValue(c) == HexDigit(c) && c != QUOTE && c != BACKSLASH
  {
  }

  lemma UnitPlaces(hex: Text, rest: Text)
    requires |hex| == 4
    ensures
      var t := [92, 117] + hex + rest;
      t[0] == 92 && t[1] == 117 && t[2..6] == hex && t[6..] == rest
  {
  }

  lemma UnitIsRead(hex: Text, rest: Text)
    requires GoodPiece(Unit(hex))
    ensures Unescape([92, 117] + hex + rest) == Some((SayPiece(Unit(hex)), 6))
  {
    HexRead(hex);
    UnitPlaces(hex, rest);
    hide Hex4, HexNumber, Ordinary, Utf8;
  }

  lemma PairIsRead(high: Text, low: Text, rest: Text)
    requires GoodPiece(Pair(high, low))
    ensures Unescape(SpellPiece(Pair(high, low)) + rest) == Some((SayPiece(Pair(high, low)), 12))
  {
    hide Unescape, Hex4, HexNumber, FourHex, Ordinary, Utf8;
    HexRead(high);
    HexRead(low);
    FourLong(high);
    FourLong(low);
    var hi, lo := HexNumber(high), HexNumber(low);
    var a, b: Text := [92, 117] + high, [92, 117] + low;
    DropJoined([92, 117], high, 2);
    DropJoined([92, 117], low, 2);
    assert a[2..6] == a[2..] && b[2..6] == b[2..];
    PairPlaces(a, b, rest);
    Assoc(a, [92, 117], low);
    PairRead(a + b + rest, hi, lo);
    LowTenBits(hi, lo);
  }

  lemma FourLong(t: Text)
    requires FourHex(t)
    ensures |t| == 4
  {
  }

  lemma LowTenBits(hi: nat, lo: nat)
    requires 0xD800 <= hi <= 0xDBFF && 0xDC00 <= lo <= 0xDFFF
    ensures hi % 0x400 == hi - 0xD800 && lo % 0x400 == lo - 0xDC00
  {
  }

  /** One piece is read as what it says, and reading goes on behind it. */
  lemma PieceRead(p: Piece, t: Text, s: Text, rest: Text)
    requires GoodPiece(p) && ParseChars(t) == Some((s, rest))
    ensures ParseChars(SpellPiece(p) + t) == Some((SayPiece(p) + s, rest))
  {
    var u := SpellPiece(p) + t;
    match p
    case Raw(c) => assert u[1..] == t;
    case Short(letter) => assert u[2..] == t;
    case Unit(hex) =>
      UnitPlaces(hex, t);
      UnitIsRead(hex, t);
      hide Unescape, GoodPiece;
    case Pair(high, low) =>
      PairIsRead(high, low, t);
      assert u[0] == 92 && u[12..] == t;
      hide Unescape, GoodPiece;
  }

  lemma {:induction false} PiecesRead(ps: seq<Piece>, rest: Text)
    requires GoodPieces(ps)
    ensures ParseChars(SpellPieces(ps) + ([34] + rest)) == Some((SayPieces(ps), rest))
  {
    hide ParseChars, GoodPiece, SpellPiece, SayPiece;
    if ps == [] {
      EndOfString(rest);
      assert [] + ([34] + rest) == [34] + rest;
    } else {
      var t := SpellPieces(ps[1..]) + ([34] + rest);
      PiecesRead(ps[1..], rest);
      PieceRead(ps[0], t, SayPieces(ps[1..]), rest);
      Assoc(SpellPiece(ps[0]), SpellPieces(ps[1..]), [34] + rest);
    }
  }

  lemma EndOfString(rest: Text)
    ensures ParseChars([34] + rest) == Some(([], rest))
  {
  }

  function SpellString(ps: seq<Piece>): Text {
    [34] + SpellPieces(ps) + [34]
  }

  /** A string literal is read as what its pieces say. */
  lemma StringRead(ps: seq<Piece>, rest: Text)
    requires GoodPieces(ps)
    ensures ParseString(SpellString(ps) + rest) == Some((SayPieces(ps), rest))
  {
    hide ParseChars, SpellPieces, SayPieces, GoodPieces;
    PiecesRead(ps, rest);
    assert SpellString(ps) + rest == [34] + (SpellPieces(ps) + ([34] + rest));
    assert (SpellString(ps) + rest)[1..] == SpellPieces(ps) + ([34] + rest);
  }

  // ---------- numbers: section 6, whole numbers ----------

  predicate AllDigits(t: Text) {
    forall i :: 0 <= i < |t| ==> 48 <= t[i] <= 57
  }

  function NumberOf(digits: Text): int {
    if digits == [] then 0 else 10 * NumberOf(digits[..|digits| - 1]) + (digits[|digits| - 1] as int - 48)
  }

  /** At least one digit, and no zero in front of others. */
  predicate GoodDigits(digits: Text) {
    digits != [] && AllDigits(digits) && (digits[0] == 48 ==> |digits| == 1)
  }

  lemma {:induction false} DigitsRead(digits: Text, rest: Text)
    requires AllDigits(digits)
    ensures NumberOf(digits) >= 0 && TakeDigits(digits + rest, 0) == TakeDigits(rest, NumberOf(digits))
  {
    if digits == [] {
      assert digits + rest == rest;
    } else {
      var before, d := digits[..|digits| - 1], digits[|digits| - 1];
      DigitsRead(before, [d] + rest);
      assert digits + rest == before + ([d] + rest);
      assert ([d] + rest)[1..] == rest;
    }
  }

  lemma NumberRead(negative: bool, digits: Text, rest: Text)
    requires GoodDigits(digits) && NumberEnds(rest)
    ensures
      var t := (if negative then [45] else []) + digits + rest;
      && (First(t) == MINUS || IsDigit(First(t)))
      && ParseNumber(t) == Some((if negative then -NumberOf(digits) else NumberOf(digits), rest))
  {
    var t := (if negative then [45] else []) + digits + rest;
    var unsigned := digits + rest;
    assert negative ==> t[1..] == unsigned;
    assert !negative ==> t == unsigned;
    DigitsRead(digits, rest);
    StopsAtOnce(rest, NumberOf(digits));
    if digits[0] == 48 {
      assert digits == [48] && unsigned[1..] == rest && NumberOf([]) == 0;
    }
    hide NumberOf, TakeDigits;
  }

  // ---------- values: sections 2 to 5 ----------

  /** White space between tokens: space, tab, line feed, carriage return. */
  predicate White(t: Text) {
    forall i :: 0 <= i < |t| ==> t[i] in {32, 9, 10, 13}
  }

  datatype Written =
    | WNull | WFalse | WTrue
    | WNum(negative: bool, digits: Text)
    | WStr(pieces: seq<Piece>)
    | WArr(inside: Text, items: seq<Item>)
    | WObj(inside: Text, members: seq<Entry>)

  /** A value with the white space around it. */
  datatype Item = Item(before: Text, value: Written, after: Text)

  datatype Entry = Entry(before: Text, name: seq<Piece>, beforeColon: Text, item: Item)

  predicate Good(w: Written) {
    match w
    case WNum(_, digits) => GoodDigits(digits)
    case WStr(pieces) => GoodPieces(pieces)
    case WArr(inside, items) => White(inside) && GoodItems(items)
    case WObj(inside, members) => White(inside) && GoodEntries(members)
    case _ => true
  }

  predicate GoodItem(i: Item) {
    White(i.before) && Good(i.value) && White(i.after)
  }

  predicate GoodItems(items: seq<Item>) {
    items == [] || (GoodItem(items[0]) && GoodItems(items[1..]))
  }

  predicate GoodEntry(e: Entry) {
    White(e.before) && GoodPieces(e.name) && White(e.beforeColon) && GoodItem(e.item)
  }

  predicate GoodEntries(members: seq<Entry>) {
    members == [] || (GoodEntry(members[0]) && GoodEntries(members[1..]))
  }

  function Spell(w: Written): Text {
    match w
    case WNull => [110, 117, 108, 108]
    case WFalse => [102, 97, 108, 115, 101]
    case WTrue => [116, 114, 117, 101]
    case WNum(negative, digits) => (if negative then [45] else []) + digits
    case WStr(pieces) => SpellString(pieces)
    case WArr(inside, items) => [91] + (if items == [] then inside else SpellItems(items)) + [93]
    case WObj(inside, members) => [123] + (if members == [] then inside else SpellEntries(members)) + [125]
  }

  function SpellItem(i: Item): Text {
    i.before + Spell(i.value) + i.after
  }

  function SpellItems(items: seq<Item>): Text {
    if items == [] then []
    else SpellItem(items[0]) + (if |items| == 1 then [] else [44] + SpellItems(items[1..]))
  }

  function SpellEntry(e: Entry): Text {
    e.before + SpellString(e.name) + e.beforeColon + [58] + SpellItem(e.item)
  }

  function SpellEntries(members: seq<Entry>): Text {
    if members == [] then []
    else SpellEntry(members[0]) + (if |members| == 1 then [] else [44] + SpellEntries(members[1..]))
  }

  function Tree(w: Written): Value {
    match w
    case WNull => Null
    case WFalse => False
    case WTrue => True
    case WNum(negative, digits) => Num(if negative then -NumberOf(digits) else NumberOf(digits))
    case WStr(pieces) => Str(SayPieces(pieces))
    case WArr(_, items) => Arr(Trees(items))
    case WObj(_, members) => Obj(Members(members))
  }

  function Trees(items: seq<Item>): seq<Value> {
    if items == [] then [] else [Tree(items[0].value)] + Trees(items[1..])
  }

  function Members(members: seq<Entry>): seq<Member> {
    if members == [] then []
    else [Member(SayPieces(members[0].name), Tree(members[0].item.value))] + Members(members[1..])
  }

  lemma WhiteIsBlank(t: Text)
    requires White(t)
    ensures Blank(t)
  {
  }

  /** A value starts with a character that is neither blank nor closing. */
  lemma SpellStarts(w: Written, rest: Text)
    requires Good(w)
    ensures
      var t := Spell(w) + rest;
      Dark(t) && First(t) != CLOSE_BRACKET && First(t) != CLOSE_BRACE && Spell(w) != []
  {
    hide SpellItems, SpellEntries, SpellPieces;
  }

  lemma LeafRead(w: Written, rest: Text)
    requires Good(w) && !w.WArr? && !w.WObj? && (w.WNum? ==> NumberEnds(rest))
    ensures ParseValue(Spell(w) + rest) == Some((Tree(w), rest))
  {
    hide ParseNumber, ParseString, ParseItems, ParseMembers, Skip, SpellString, NumberOf, GoodDigits, GoodPieces;
    hide SayPieces;
    var t := Spell(w) + rest;
    match w
    case WNull => assert t[4..] == rest;
    case WTrue => assert t[0] == 116 && t[4..] == rest;
    case WFalse => assert t[0] == 102 && t[..5] == FALSE_TEXT && t[5..] == rest;
    case WNum(negative, digits) =>
      NumberRead(negative, digits, rest);
    case WStr(pieces) =>
      StringRead(pieces, rest);
      StringStarts(pieces, rest);
  }

  lemma StringStarts(ps: seq<Piece>, rest: Text)
    ensures First(SpellString(ps) + rest) == QUOTE && Dark(SpellString(ps) + rest)
  {
  }

  /** Behind a value come white space and a character that ends it, or nothing. */
  lemma AfterValue(after: Text, rest: Text)
    requires White(after) && (rest == [] || rest[0] in {44, 93, 125})
    ensures NumberEnds(after + rest) && Skip(after + rest) == rest
  {
    WhiteIsBlank(after);
    SkipBlank(after, rest);
  }

  lemma BeforeValue(before: Text, w: Written, rest: Text)
    requires White(before) && Good(w)
    ensures Skip(before + Spell(w) + rest) == Spell(w) + rest
  {
    hide Spell, Good, Skip;
    SpellStarts(w, rest);
    WhiteIsBlank(before);
    SkipBlank(before, Spell(w) + rest);
    Assoc(before, Spell(w), rest);
  }

  /** Every text of the grammar is read as what it says, whatever ends it. */
  lemma {:induction false} ValueRead(w: Written, rest: Text)
    requires Good(w) && (w.WNum? ==> NumberEnds(rest))
    ensures ParseValue(Spell(w) + rest) == Some((Tree(w), rest))
    decreases w, 1
  {
    if w.WArr? {
      ArrayRead(w.inside, w.items, rest);
    } else if w.WObj? {
      ObjectRead(w.inside, w.members, rest);
    } else {
      LeafRead(w, rest);
    }
  }

  lemma ArrayRead(inside: Text, items: seq<Item>, rest: Text)
    requires Good(WArr(inside, items))
    ensures ParseValue(Spell(WArr(inside, items)) + rest) == Some((Tree(WArr(inside, items)), rest))
    decreases WArr(inside, items), 0
  {
    hide ParseValue, ParseItems, Skip, SpellItems;
    var t := Spell(WArr(inside, items)) + rest;
    ReadsArray(t);
    if items == [] {
      assert t[1..] == inside + ([93] + rest);
      AfterValue(inside, [93] + rest);
    } else {
      var body := SpellItems(items) + ([93] + rest);
      assert t[1..] == body;
      ItemsRead(items, rest);
      ItemsIgnoreBlank(body);
      ItemsBegin(items, [93] + rest);
    }
  }

  lemma ItemsBegin(items: seq<Item>, rest: Text)
    requires items != [] && GoodItems(items)
    ensures First(Skip(SpellItems(items) + rest)) != CLOSE_BRACKET
  {
    hide Spell, Good, Skip;
    var i := items[0];
    var tail := i.after + (if |items| == 1 then [] else [44] + SpellItems(items[1..])) + rest;
    assert SpellItems(items) + rest == i.before + Spell(i.value) + tail;
    BeforeValue(i.before, i.value, tail);
    SpellStarts(i.value, tail);
  }

  lemma {:induction false} ItemsRead(items: seq<Item>, rest: Text)
    requires items != [] && GoodItems(items)
    ensures ParseItems(SpellItems(items) + ([93] + rest)) == Some((Trees(items), rest))
    decreases items, 2
  {
    hide ParseValue, ParseItems, Skip, Spell, Tree, Good, GoodItems, White, NumberEnds;
    GoodParts(items);
    var i := items[0];
    var end := [93] + rest;
    if |items| == 1 {
      assert items[1..] == [] && end[1..] == rest && Trees(items) == [Tree(i.value)];
      var tail := i.after + end;
      assert SpellItems(items) + end == i.before + Spell(i.value) + tail;
      BeforeValue(i.before, i.value, tail);
      AfterValue(i.after, end);
      ValueRead(i.value, tail);
      ReadsLastItem(SpellItems(items) + end, Tree(i.value), tail);
    } else {
      var more := SpellItems(items[1..]) + end;
      var tail := i.after + ([44] + more);
      assert SpellItems(items) + end == i.before + Spell(i.value) + tail;
      BeforeValue(i.before, i.value, tail);
      AfterValue(i.after, [44] + more);
      ValueRead(i.value, tail);
      ItemsRead(items[1..], rest);
      assert ([44] + more)[1..] == more;
      ReadsItem(SpellItems(items) + end, Tree(i.value), tail, Trees(items[1..]), rest);
    }
  }

  lemma GoodParts(items: seq<Item>)
    requires items != [] && GoodItems(items)
    ensures GoodItem(items[0]) && GoodItems(items[1..])
    ensures Trees(items) == [Tree(items[0].value)] + Trees(items[1..]) && Trees([]) == []
  {
  }

  lemma GoodEntryParts(members: seq<Entry>)
    requires members != [] && GoodEntries(members)
    ensures GoodEntry(members[0]) && GoodEntries(members[1..])
    ensures
      Members(members) ==
      [Member(SayPieces(members[0].name), Tree(members[0].item.value))] + Members(members[1..])
    ensures Members([]) == []
  {
  }

  lemma ObjectRead(inside: Text, members: seq<Entry>, rest: Text)
    requires Good(WObj(inside, members))
    ensures ParseValue(Spell(WObj(inside, members)) + rest) == Some((Tree(WObj(inside, members)), rest))
    decreases WObj(inside, members), 0
  {
    hide ParseValue, ParseMembers, Skip, SpellEntries;
    var t := Spell(WObj(inside, members)) + rest;
    ReadsObject(t);
    if members == [] {
      assert t[1..] == inside + ([125] + rest);
      AfterValue(inside, [125] + rest);
    } else {
      var body := SpellEntries(members) + ([125] + rest);
      assert t[1..] == body;
      EntriesRead(members, rest);
      MembersIgnoreBlank(body);
      EntriesBegin(members, [125] + rest);
    }
  }

  lemma NameRead(before: Text, name: seq<Piece>, beforeColon: Text, rest: Text)
    requires White(before) && GoodPieces(name) && White(beforeColon)
    ensures
      var t := before + SpellString(name) + beforeColon + [58] + rest;
      var r := beforeColon + ([58] + rest);
      && ParseString(Skip(t)) == Some((SayPieces(name), r)) && Skip(r) == [58] + rest
      && First(Skip(t)) == QUOTE
  {
    hide Skip, SpellString, SayPieces, ParseString, GoodPieces;
    var r := beforeColon + ([58] + rest);
    WhiteIsBlank(before);
    WhiteIsBlank(beforeColon);
    SkipBlank(beforeColon, [58] + rest);
    StringRead(name, r);
    StringStarts(name, r);
    SkipBlank(before, SpellString(name) + r);
    assert before + SpellString(name) + beforeColon + [58] + rest == before + (SpellString(name) + r);
  }

  lemma EntriesBegin(members: seq<Entry>, rest: Text)
    requires members != [] && GoodEntries(members)
    ensures First(Skip(SpellEntries(members) + rest)) != CLOSE_BRACE
  {
    hide SpellString, GoodPieces, Good, Skip, SpellItem;
    var e := members[0];
    var tail := SpellItem(e.item) + (if |members| == 1 then [] else [44] + SpellEntries(members[1..])) + rest;
    assert SpellEntries(members) + rest == e.before + SpellString(e.name) + e.beforeColon + [58] + tail;
    NameRead(e.before, e.name, e.beforeColon, tail);
  }

  lemma {:induction false} EntryRead(e: Entry, rest: Text)
    requires GoodEntry(e) && (rest == [] || rest[0] in {44, 93, 125})
    ensures
      ParseMember(SpellEntry(e) + rest) ==
      Some((Member(SayPieces(e.name), Tree(e.item.value)), e.item.after + rest))
    decreases e
  {
    hide ParseValue, Skip, Spell, Tree, Good, White, NumberEnds, SpellString, SayPieces, GoodPieces;
    var i := e.item;
    var tail := i.after + rest;
    var item := i.before + Spell(i.value) + tail;
    assert SpellEntry(e) + rest == e.before + SpellString(e.name) + e.beforeColon + [58] + item;
    NameRead(e.before, e.name, e.beforeColon, item);
    AfterValue(i.after, rest);
    BeforeValue(i.before, i.value, tail);
    ValueRead(i.value, tail);
    assert ([58] + item)[1..] == item;
    ReadsMember(SpellEntry(e) + rest, SayPieces(e.name), e.beforeColon + ([58] + item), Tree(i.value), tail);
  }

  lemma {:induction false} EntriesRead(members: seq<Entry>, rest: Text)
    requires members != [] && GoodEntries(members)
    ensures ParseMembers(SpellEntries(members) + ([125] + rest)) == Some((Members(members), rest))
    decreases members, 2
  {
    hide ParseMember, ParseMembers, Skip, SpellEntry, Tree, SayPieces, GoodEntries, White, NumberEnds;
    GoodEntryParts(members);
    var e := members[0];
    var m := Member(SayPieces(e.name), Tree(e.item.value));
    var end := [125] + rest;
    if |members| == 1 {
      assert members[1..] == [] && end[1..] == rest && Members(members) == [m];
      assert SpellEntries(members) + end == SpellEntry(e) + end;
      EntryRead(e, end);
      AfterValue(e.item.after, end);
      ReadsLastMember(SpellEntries(members) + end, m, e.item.after + end);
    } else {
      var more := SpellEntries(members[1..]) + end;
      assert SpellEntries(members) + end == SpellEntry(e) + ([44] + more);
      EntryRead(e, [44] + more);
      AfterValue(e.item.after, [44] + more);
      EntriesRead(members[1..], rest);
      assert ([44] + more)[1..] == more;
      ReadsMoreMembers(SpellEntries(members) + end, m, e.item.after + ([44] + more), Members(members[1..]), rest);
    }
  }

  /** The whole of a text of the grammar, white space around it, is read as the tree it says. */
  lemma TextRead(before: Text, w: Written, after: Text, whole: bool)
    requires White(before) && Good(w) && White(after)
    ensures Parse(before + Spell(w) + after, whole) == Some((Tree(w), if whole then [] else after))
  {
    hide ParseValue, Skip, Spell, Good, Tree, White;
    AfterValue(after, []);
    assert after + [] == after;
    BeforeValue(before, w, after);
    ValueRead(w, after);
  }

  /** A reply with an escaped address in it, and the address. */
  lemma EscapedAddress()
    ensures
      Parse([34, 114, 58, 92, 47, 92, 47, 104, 34], true) == Some((Str([114, 58, 47, 47, 104]), []))
  {
    hide Parse, Spell, Tree, SpellPieces, SayPieces;
    var ps := [Raw(114), Raw(58), Short(47), Short(47), Raw(104)];
    var w := WStr(ps);
    AddressSpelled(ps);
    TextRead([], w, [], true);
    assert [] + Spell(w) + [] == Spell(w);
  }

  lemma AddressSpelled(ps: seq<Piece>)
    requires ps == [Raw(114), Raw(58), Short(47), Short(47), Raw(104)]
    ensures Spell(WStr(ps)) == [34, 114, 58, 92, 47, 92, 47, 104, 34] && Good(WStr(ps))
    ensures Tree(WStr(ps)) == Str([114, 58, 47, 47, 104])
  {
    hide SpellPieces, SayPieces;
    var a, b, c, d, e := ps[0], ps[1], ps[2], ps[3], ps[4];
    NoPieces();
    PiecesJoined(e, []);
    PiecesJoined(d, [e]);
    PiecesJoined(c, [d, e]);
    PiecesJoined(b, [c, d, e]);
    PiecesJoined(a, [b, c, d, e]);
    assert [e] + [] == [e] && [d] + [e] == [d, e] && [c] + [d, e] == [c, d, e];
    assert [b] + [c, d, e] == [b, c, d, e] && [a] + [b, c, d, e] == ps;
  }

  lemma NoPieces()
    ensures SpellPieces([]) == [] && SayPieces([]) == []
  {
  }

  lemma {:induction false} PiecesJoined(p: Piece, ps: seq<Piece>)
    ensures SpellPieces([p] + ps) == SpellPiece(p) + SpellPieces(ps)
    ensures SayPieces([p] + ps) == SayPiece(p) + SayPieces(ps)
  {
    hide SpellPiece, SayPiece;
    assert ([p] + ps)[1..] == ps;
  }
}
