/** Writing into character arrays: the pieces both printing routes are made of. */
module JsonText {
  import opened Bytes
  import opened Json
  import opened JsonRoundTrip

  /** Bitwise or of two natural numbers. */
  function Or(a: nat, b: nat): nat {
    if a == 0 then b
    else 2 * Or(a / 2, b / 2) + if a % 2 == 1 || b % 2 == 1 then 1 else 0
  }

  lemma {:induction false} OrBounds(a: nat, b: nat)
    ensures a <= Or(a, b) <= a + b
  {
    if a > 0 {
      OrBounds(a / 2, b / 2);
    }
  }

  function Smear(x: nat): nat {
    var x1 := Or(x, x / 2);
    var x2 := Or(x1, x1 / 4);
    var x3 := Or(x2, x2 / 16);
    var x4 := Or(x3, x3 / 0x100);
    Or(x4, x4 / 0x1_0000)
  }

  /** The new size of a buffer that must hold `x` characters. */
  function Pow2gt(x: nat): nat
    requires x > 0
  {
    Smear(x - 1) + 1
  }

  /** Enough room, and less than twice as much as needed. */
  lemma Pow2gtFits(x: nat)
    requires x > 0
    ensures x <= Pow2gt(x) < 2 * x
  {
    hide Or;
    var y: nat := x - 1;
    var x1 := Or(y, y / 2);
    var x2 := Or(x1, x1 / 4);
    var x3 := Or(x2, x2 / 16);
    var x4 := Or(x3, x3 / 0x100);
    OrBounds(y, y / 2);
    OrBounds(x1, x1 / 4);
    OrBounds(x2, x2 / 16);
    OrBounds(x3, x3 / 0x100);
    OrBounds(x4, x4 / 0x1_0000);
  }

  method WriteBytes(out: array<byte>, at: nat, bytes: Text)
    requires at + |bytes| <= out.Length
    modifies out
    ensures out[..at + |bytes|] == old(out[..at]) + bytes
    ensures out[at + |bytes|..] == old(out[at + |bytes|..])
  {
    for i := 0 to |bytes|
      invariant out[..at + i] == old(out[..at]) + bytes[..i]
      invariant out[at + |bytes|..] == old(out[at + |bytes|..])
    {
      out[at + i] := bytes[i];
      assert out[..at + i + 1] == out[..at + i] + [bytes[i]];
      assert bytes[..i + 1] == bytes[..i] + [bytes[i]];
    }
    assert bytes[..|bytes|] == bytes;
  }

  /** Length of the NUL-terminated text that starts at `at`. */
  method StrLen(a: array<byte>, at: nat, ghost end: nat) returns (n: nat)
    requires at <= end < a.Length && a[end] == 0 && 0 !in a[at..end]
    ensures n == end - at
  {
    n := 0;
    while a[at + n] != 0
      invariant at + n <= end
      decreases end - n
    {
      n := n + 1;
    }
  }

  lemma EscapeLast(s: Text, c: byte)
    ensures Escape(s + [c]) == Escape(s) + EscapeByte(c)
  {
    if s == [] {
      assert s + [c] == [c] && [c][1..] == [];
      assert Escape([c]) == EscapeByte(c) + [];
    } else {
      EscapeLast(s[1..], c);
      assert (s + [c])[1..] == s[1..] + [c];
      Assoc(EscapeByte(s[0]), Escape(s[1..]), EscapeByte(c));
    }
  }

  /** A string none of whose characters needs an escape prints as it is. */
  lemma {:induction false} NothingEscaped(s: Text)
    requires forall i :: 0 <= i < |s| ==> s[i] > 31 && s[i] != QUOTE && s[i] != BACKSLASH
    ensures Escape(s) == s
  {
    if s != [] {
      NothingEscaped(s[1..]);
      assert [s[0]] + s[1..] == s;
    }
  }

  lemma EscapeSize(c: byte)
    ensures |EscapeByte(c)| == if ShortEscape(c) != 0 then 2 else if c < 32 then 6 else 1
  {
  }

  /** Length of a string once escaped; whether anything is escaped at all is seen on the way. */
  method EscapedLength(str: Text) returns (flag: bool, len: nat)
    ensures len == |Escape(str)| && (!flag ==> Escape(str) == str)
  {
    assert Escape([]) == [];
    hide Escape, EscapeByte;
    flag := false;
    for i := 0 to |str|
      invariant !flag ==> forall k :: 0 <= k < i ==> str[k] > 31 && str[k] != QUOTE && str[k] != BACKSLASH
    {
      flag := flag || str[i] < 32 || str[i] == QUOTE || str[i] == BACKSLASH;
    }
    if !flag {
      NothingEscaped(str);
      return false, |str|;
    }
    len := 0;
    for i := 0 to |str|
      invariant len == |Escape(str[..i])|
    {
      assert str[..i + 1] == str[..i] + [str[i]];
      EscapeLast(str[..i], str[i]);
      EscapeSize(str[i]);
      len := len + 1;
      if ShortEscape(str[i]) != 0 {
        len := len + 1;
      } else if str[i] < 32 {
        len := len + 5;
      }
    }
    assert str[..|str|] == str;
  }

  /** Writes a quoted string and its NUL, character by character. */
  method WriteQuoted(out: array<byte>, at: nat, str: Text)
    requires at + |Quoted(str)| < out.Length
    modifies out
    ensures out[..at + |Quoted(str)|] == old(out[..at]) + Quoted(str) && out[at + |Quoted(str)|] == 0
  {
    assert Escape([]) == [];
    hide Escape, EscapeByte;
    var p := at;
    out[p] := QUOTE;
    p := p + 1;
    for i := 0 to |str|
      invariant p == at + 1 + |Escape(str[..i])| && p + |Escape(str[i..])| + 2 <= out.Length
      invariant out[..p] == old(out[..at]) + [QUOTE] + Escape(str[..i])
    {
      NextEscape(str, i);
      var e := EscapeByte(str[i]);
      WriteBytes(out, p, e);
      Assoc(old(out[..at]) + [QUOTE], Escape(str[..i]), e);
      p := p + |e|;
    }
    assert str[..|str|] == str;
    out[p] := QUOTE;
    p := p + 1;
    Assoc(old(out[..at]) + [QUOTE], Escape(str), [QUOTE]);
    Assoc(old(out[..at]), [QUOTE], Escape(str) + [QUOTE]);
    Assoc([QUOTE], Escape(str), [QUOTE]);
    assert out[..p] == out[..p - 1] + [QUOTE];
    out[p] := 0;
  }

  lemma NextEscape(str: Text, i: nat)
    requires i < |str|
    ensures Escape(str[..i + 1]) == Escape(str[..i]) + EscapeByte(str[i])
    ensures |Escape(str[i..])| == |EscapeByte(str[i])| + |Escape(str[i + 1..])|
  {
    assert str[..i + 1] == str[..i] + [str[i]];
    EscapeLast(str[..i], str[i]);
    assert str[i..][1..] == str[i + 1..];
  }

  /** Writes a string in which nothing is escaped, quotes and NUL around it. */
  method WritePlain(out: array<byte>, at: nat, str: Text)
    requires at + |str| + 2 < out.Length
    modifies out
    ensures out[..at + |str| + 2] == old(out[..at]) + ([QUOTE] + str + [QUOTE]) && out[at + |str| + 2] == 0
  {
    out[at] := QUOTE;
    assert out[..at + 1] == old(out[..at]) + [QUOTE];
    WriteBytes(out, at + 1, str);
    out[at + 1 + |str|] := QUOTE;
    assert out[..at + |str| + 2] == old(out[..at]) + [QUOTE] + str + [QUOTE];
    out[at + |str| + 2] := 0;
  }

  /** Writes a quoted string, having seen whether anything in it is escaped. */
  method WriteString(out: array<byte>, at: nat, str: Text, flag: bool)
    requires at + |Quoted(str)| < out.Length && (!flag ==> Escape(str) == str)
    modifies out
    ensures out[..at + |Quoted(str)|] == old(out[..at]) + Quoted(str) && out[at + |Quoted(str)|] == 0
  {
    if flag {
      WriteQuoted(out, at, str);
    } else {
      WritePlain(out, at, str);
    }
  }

  // Printed text has no NUL in it

  lemma {:induction false} EscapeNoNul(s: Text)
    requires 0 !in s
    ensures 0 !in Escape(s)
  {
    if s != [] {
      EscapeNoNul(s[1..]);
      assert 0 !in EscapeByte(s[0]);
    }
  }

  lemma {:induction false} DigitsNoNul(n: nat)
    ensures 0 !in Digits(n)
  {
    if n >= 10 {
      DigitsNoNul(n / 10);
    }
  }

  lemma {:induction false} DigitsLength(n: nat, k: nat)
    requires n < Power10(k) && k > 0
    ensures |Digits(n)| <= k
    decreases k
  {
    if n >= 10 {
      DigitsLength(n / 10, k - 1);
    }
  }

  function Power10(k: nat): nat {
    if k == 0 then 1 else 10 * Power10(k - 1)
  }

  /** A 32-bit number takes at most eleven characters. */
  lemma DecimalLength(n: int)
    requires -0x8000_0000 <= n < 0x8000_0000
    ensures |Decimal(n)| <= 11 && 0 !in Decimal(n)
  {
    assert Power10(5) == 100000 && Power10(10) == 10000000000;
    DigitsLength(if n < 0 then -n else n, 10);
    DigitsNoNul(if n < 0 then -n else n);
  }

  lemma CleanString(s: Text)
    requires Clean(Str(s))
    ensures 0 !in s
  {
  }

  lemma {:induction false} PrintNoNul(v: Value, depth: nat, fmt: bool)
    requires Clean(v)
    ensures 0 !in Print(v, depth, fmt)
    decreases v, 1
  {
    hide PrintItems, PrintMembers, Clean;
    match v
    case Num(n) => DigitsNoNul(if n < 0 then -n else n);
    case Str(s) => CleanString(s); EscapeNoNul(s);
    case Arr(items) => ItemsNoNul(items, depth + 1, fmt);
    case Obj(members) => MembersNoNul(members, depth + 1, fmt);
    case _ =>
  }

  lemma {:induction false} ItemsNoNul(items: seq<Value>, depth: nat, fmt: bool)
    requires Clean(Arr(items))
    ensures 0 !in PrintItems(items, depth, fmt)
    decreases items, 0
  {
    hide Print, Clean;
    TailClean(items, []);
    if items != [] {
      PrintNoNul(items[0], depth, fmt);
      ItemsNoNul(items[1..], depth, fmt);
    }
  }

  lemma {:induction false} MembersNoNul(members: seq<Member>, depth: nat, fmt: bool)
    requires Clean(Obj(members))
    ensures 0 !in PrintMembers(members, depth, fmt)
    decreases members, 0
  {
    hide Print, Clean, Escape;
    TailClean([], members);
    if members != [] {
      EscapeNoNul(members[0].name);
      PrintNoNul(members[0].value, depth, fmt);
      MembersNoNul(members[1..], depth, fmt);
    }
  }
}
