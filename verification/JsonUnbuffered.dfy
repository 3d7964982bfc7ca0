/** The unbuffered printing route: every value printed on its own, then copied into room computed beforehand. */
module JsonUnbuffered {
  import opened Bytes
  import opened Json
  import opened JsonText
  import opened JsonBuffer

  /** The array holds exactly this text and its NUL at the front. */
  ghost predicate TextIn(a: array<byte>, t: Text)
    reads a
  {
    |t| < a.Length && a[..|t|] == t && a[|t|] == 0
  }

  /** The room a list of items is given: what the source adds up item by item. */
  function ItemsRoom(items: seq<Value>, depth: nat, fmt: bool): nat {
    if items == [] then 0
    else |Print(items[0], depth, fmt)| + 2 + (if fmt then 1 else 0) + ItemsRoom(items[1..], depth, fmt)
  }

  function MembersRoom(members: seq<Member>, depth: nat, fmt: bool): nat {
    if members == [] then 0
    else
      |Print(members[0].value, depth, fmt)| + |Quoted(members[0].name)| + 2 + (if fmt then 2 + depth else 0)
      + MembersRoom(members[1..], depth, fmt)
  }

  lemma {:induction false} ItemsFit(items: seq<Value>, depth: nat, fmt: bool)
    ensures |PrintItems(items, depth, fmt)| <= ItemsRoom(items, depth, fmt)
  {
    hide Print;
    if items != [] {
      ItemsFit(items[1..], depth, fmt);
    }
  }

  lemma {:induction false} MembersFit(members: seq<Member>, depth: nat, fmt: bool)
    ensures |PrintMembers(members, depth, fmt)| <= MembersRoom(members, depth, fmt)
  {
    hide Print, Quoted;
    if members != [] {
      MembersFit(members[1..], depth, fmt);
    }
  }

  /** Copies a NUL-terminated text to `at`. */
  method CopyText(out: array<byte>, at: nat, entry: array<byte>, ghost t: Text) returns (end: nat)
    requires TextIn(entry, t) && 0 !in t && at + |t| <= out.Length
    modifies out
    ensures end == at + |t| && out[..end] == old(out[..at]) + t
  {
    assert entry[0..|t|] == t;
    var n := StrLen(entry, 0, |t|);
    assert entry[..n] == t;
    WriteBytes(out, at, entry[..n]);
    end := at + n;
  }

  method Alone(bytes: Text) returns (out: array<byte>)
    ensures fresh(out) && TextIn(out, bytes)
  {
    out := new byte[|bytes| + 1](_ => 0);
    WriteBytes(out, 0, bytes);
    assert out[..0] + bytes == bytes;
    out[|bytes|] := 0;
  }

  method PrintString(str: Text) returns (out: array<byte>)
    ensures fresh(out) && TextIn(out, Quoted(str))
  {
    var flag, len := EscapedLength(str);
    out := new byte[len + 3](_ => 0);
    WriteString(out, 0, str, flag);
    assert out[..0] + Quoted(str) == Quoted(str);
  }

  method PrintNumber(n: int) returns (out: array<byte>)
    requires -0x8000_0000 <= n < 0x8000_0000
    ensures fresh(out) && TextIn(out, Decimal(n))
  {
    assert Decimal(0) == [ZERO];
    hide Decimal;
    if n == 0 {
      out := new byte[2](_ => 0);
      out[0], out[1] := ZERO, 0;
      assert out[..1] == [ZERO];
      return;
    }
    DecimalLength(n);
    out := new byte[21](_ => 0);
    WriteBytes(out, 0, Decimal(n));
    assert out[..0] + Decimal(n) == Decimal(n);
    out[|Decimal(n)|] := 0;
  }

  method PrintValue(v: Value, depth: nat, fmt: bool) returns (out: array<byte>)
    requires Clean(v)
    ensures fresh(out) && TextIn(out, Print(v, depth, fmt))
    decreases v, 1
  {
    hide TextIn, PrintItems, PrintMembers, Quoted, Decimal;
    match v
    case Null => out := Alone(NULL_TEXT);
    case False => out := Alone(FALSE_TEXT);
    case True => out := Alone(TRUE_TEXT);
    case Num(n) => out := PrintNumber(n);
    case Str(s) => out := PrintString(s);
    case Arr(items) => out := PrintArray(items, depth, fmt);
    case Obj(members) => out := PrintObject(members, depth, fmt);
  }

  /** All entries hold the items printed. */
  ghost predicate Entries(entries: seq<array<byte>>, items: seq<Value>, depth: nat, fmt: bool)
    reads entries
  {
    |entries| <= |items| && forall k :: 0 <= k < |entries| ==> TextIn(entries[k], Print(items[k], depth, fmt))
  }

  lemma ItemClean(items: seq<Value>, i: nat)
    requires i < |items| && Clean(Arr(items))
    ensures Clean(items[i])
  {
  }

  lemma RoomStep(items: seq<Value>, i: nat, depth: nat, fmt: bool)
    requires i < |items|
    ensures
      ItemsRoom(items[i..], depth, fmt) ==
      |Print(items[i], depth, fmt)| + 2 + (if fmt then 1 else 0) + ItemsRoom(items[i + 1..], depth, fmt)
  {
    hide Print;
    assert items[i..][1..] == items[i + 1..];
  }

  /** Prints the items one by one and adds up their room. */
  method PrintEntries(items: seq<Value>, depth: nat, fmt: bool) returns (entries: seq<array<byte>>, len: nat)
    requires Clean(Arr(items))
    ensures fresh(entries) && |entries| == |items| && Entries(entries, items, depth, fmt)
    ensures len == 5 + ItemsRoom(items, depth, fmt)
    decreases items, 0
  {
    hide Print, Clean, ItemsRoom, TextIn;
    entries, len := [], 5;
    assert items[0..] == items;
    for i := 0 to |items|
      invariant fresh(entries) && |entries| == i && Entries(entries, items, depth, fmt)
      invariant len + ItemsRoom(items[i..], depth, fmt) == 5 + ItemsRoom(items, depth, fmt)
    {
      ItemClean(items, i);
      RoomStep(items, i, depth, fmt);
      var ret := PrintValue(items[i], depth, fmt);
      PrintNoNul(items[i], depth, fmt);
      var n := PrintedLength(ret, Print(items[i], depth, fmt));
      entries := entries + [ret];
      len := len + n + 2 + if fmt then 1 else 0;
    }
    NoRoom(items, depth, fmt);
  }

  lemma NoRoom(items: seq<Value>, depth: nat, fmt: bool)
    ensures ItemsRoom(items[|items|..], depth, fmt) == 0
  {
  }

  method PrintArray(items: seq<Value>, depth: nat, fmt: bool) returns (out: array<byte>)
    requires Clean(Arr(items))
    ensures fresh(out) && TextIn(out, Print(Arr(items), depth, fmt))
    decreases items, 1
  {
    hide Print, PrintItems, Clean;
    if items == [] {
      out := Alone([OPEN_BRACKET, CLOSE_BRACKET]);
      EmptyArrayText(depth, fmt);
      return;
    }
    var entries, len := PrintEntries(items, depth + 1, fmt);
    ItemsFit(items, depth + 1, fmt);
    out := new byte[len](_ => 0);
    var ptr := Compose(out, entries, items, depth + 1, fmt);
    Seal(out, ptr, [CLOSE_BRACKET]);
    ArrayAt([], items, depth, fmt);
    assert [] + [OPEN_BRACKET] == [OPEN_BRACKET] && [] + Print(Arr(items), depth, fmt) == Print(Arr(items), depth, fmt);
  }

  /** The opening bracket and the entries, separated. */
  method Compose(out: array<byte>, entries: seq<array<byte>>, items: seq<Value>, depth: nat, fmt: bool)
    returns (ptr: nat)
    requires Clean(Arr(items)) && |entries| == |items| && Entries(entries, items, depth, fmt) && out !in entries
    requires out.Length >= 4 + |PrintItems(items, depth, fmt)|
    modifies out
    ensures ptr == 1 + |PrintItems(items, depth, fmt)| && out[..ptr] == [OPEN_BRACKET] + PrintItems(items, depth, fmt)
  {
    hide Print, PrintItems, Clean;
    out[0] := OPEN_BRACKET;
    ptr := 1;
    out[ptr] := 0;
    assert out[..1] == [OPEN_BRACKET];
    NoItems(items, depth, fmt);
    for i := 0 to |items|
      invariant Entries(entries, items, depth, fmt)
      invariant ptr <= out.Length
      invariant out[..ptr] + PrintItems(items[i..], depth, fmt) == [OPEN_BRACKET] + PrintItems(items, depth, fmt)
    {
      ptr := ComposeOne(out, entries, items, i, ptr, [OPEN_BRACKET] + PrintItems(items, depth, fmt), depth, fmt);
    }
    NoItems(items, depth, fmt);
  }

  /** One entry and, unless it is the last, a separator. */
  method ComposeOne(out: array<byte>, entries: seq<array<byte>>, items: seq<Value>, i: nat, ptr0: nat, ghost all: Text,
                    depth: nat, fmt: bool)
    returns (ptr: nat)
    requires Clean(Arr(items)) && |entries| == |items| && Entries(entries, items, depth, fmt) && out !in entries
    requires i < |items| && ptr0 <= out.Length && out.Length >= 3 + |all|
    requires out[..ptr0] + PrintItems(items[i..], depth, fmt) == all
    modifies out
    ensures Entries(entries, items, depth, fmt)
    ensures ptr <= out.Length && out[..ptr] + PrintItems(items[i + 1..], depth, fmt) == all
  {
    hide Print, PrintItems, Clean;
    NextItem(out[..ptr0], items, i, depth, fmt);
    ItemClean(items, i);
    PrintNoNul(items[i], depth, fmt);
    ptr := CopyText(out, ptr0, entries[i], Print(items[i], depth, fmt));
    if i != |items| - 1 {
      WriteBytes(out, ptr, Separator(fmt));
      ptr := ptr + |Separator(fmt)|;
      out[ptr] := 0;
    } else {
      NoItems(items, depth, fmt);
    }
  }

  /** All names and entries hold the members printed. */
  ghost predicate Named(names: seq<array<byte>>, members: seq<Member>)
    reads names
  {
    |names| <= |members| && forall k :: 0 <= k < |names| ==> TextIn(names[k], Quoted(members[k].name))
  }

  ghost predicate Valued(entries: seq<array<byte>>, members: seq<Member>, depth: nat, fmt: bool)
    reads entries
  {
    |entries| <= |members| && forall k :: 0 <= k < |entries| ==> TextIn(entries[k], Print(members[k].value, depth, fmt))
  }

  lemma MemberRoomStep(members: seq<Member>, i: nat, depth: nat, fmt: bool)
    requires i < |members|
    ensures
      MembersRoom(members[i..], depth, fmt) ==
      |Print(members[i].value, depth, fmt)| + |Quoted(members[i].name)| + 2 + (if fmt then 2 + depth else 0)
      + MembersRoom(members[i + 1..], depth, fmt)
  {
    hide Print, Quoted;
    assert members[i..][1..] == members[i + 1..];
  }

  /** Prints the members one by one and adds up their room. */
  method PrintPairs(members: seq<Member>, depth: nat, fmt: bool)
    returns (names: seq<array<byte>>, entries: seq<array<byte>>, len: nat)
    requires Clean(Obj(members))
    ensures fresh(names) && fresh(entries) && |names| == |entries| == |members|
    ensures Named(names, members) && Valued(entries, members, depth, fmt)
    ensures len == 7 + (if fmt then depth else 0) + MembersRoom(members, depth, fmt)
    decreases members, 0
  {
    hide Print, Quoted, Clean, TextIn;
    names, entries, len := [], [], 7 + if fmt then depth else 0;
    ghost var first := len;
    assert members[0..] == members;
    for i := 0 to |members|
      invariant fresh(names) && fresh(entries) && |names| == |entries| == i
      invariant Named(names, members) && Valued(entries, members, depth, fmt)
      invariant len + MembersRoom(members[i..], depth, fmt) == first + MembersRoom(members, depth, fmt)
    {
      MemberClean(members, i);
      MemberRoomStep(members, i, depth, fmt);
      var str, ret, room := PrintPair(members[i], depth, fmt);
      names, entries := names + [str], entries + [ret];
      len := len + room;
    }
  }

  /** A name and a value printed, and the room they are given. */
  method PrintPair(m: Member, depth: nat, fmt: bool) returns (str: array<byte>, ret: array<byte>, room: nat)
    requires 0 !in m.name && Clean(m.value)
    ensures fresh(str) && fresh(ret) && TextIn(str, Quoted(m.name)) && TextIn(ret, Print(m.value, depth, fmt))
    ensures room == |Print(m.value, depth, fmt)| + |Quoted(m.name)| + 2 + if fmt then 2 + depth else 0
    decreases m, 2
  {
    QuotedNoNul(m.name);
    PrintNoNul(m.value, depth, fmt);
    hide Print, Quoted, Clean;
    str := PrintString(m.name);
    ret := PrintValue(m.value, depth, fmt);
    var n := PrintedLength(str, Quoted(m.name));
    var k := PrintedLength(ret, Print(m.value, depth, fmt));
    room := k + n + 2 + if fmt then 2 + depth else 0;
  }

  method PrintedLength(a: array<byte>, ghost t: Text) returns (n: nat)
    requires TextIn(a, t) && 0 !in t
    ensures n == |t|
  {
    assert a[0..|t|] == t;
    n := StrLen(a, 0, |t|);
  }

  method PrintObject(members: seq<Member>, depth: nat, fmt: bool) returns (out: array<byte>)
    requires Clean(Obj(members))
    ensures fresh(out) && TextIn(out, Print(Obj(members), depth, fmt))
    decreases members, 1
  {
    hide Print, PrintMembers, Clean, MembersRoom, Quoted, Tabs, When;
    if members == [] {
      out := EmptyObject(depth, fmt);
      return;
    }
    var names, entries, len := PrintPairs(members, depth + 1, fmt);
    MembersFit(members, depth + 1, fmt);
    out := new byte[len](_ => 0);
    var ptr := ComposeMembers(out, names, entries, members, depth + 1, fmt);
    var tail := When(fmt, Tabs(depth)) + [CLOSE_BRACE];
    IndentLength(depth, fmt);
    Seal(out, ptr, tail);
    ObjectAt([], members, depth, fmt);
    Unprefixed([OPEN_BRACE] + When(fmt, [NEWLINE]));
    Unprefixed(Print(Obj(members), depth, fmt));
  }

  /** Writes the last of a text and its NUL. */
  method Seal(out: array<byte>, at: nat, t: Text)
    requires at + |t| < out.Length
    modifies out
    ensures out[..at + |t|] == old(out[..at]) + t && out[at + |t|] == 0
  {
    WriteBytes(out, at, t);
    out[at + |t|] := 0;
  }

  lemma IndentLength(depth: nat, fmt: bool)
    ensures |When(fmt, Tabs(depth))| == (if fmt then depth else 0) && |When(fmt, [NEWLINE])| <= 1
  {
  }

  lemma Unprefixed(t: Text)
    ensures [] + t == t
  {
  }

  method EmptyObject(depth: nat, fmt: bool) returns (out: array<byte>)
    ensures fresh(out) && TextIn(out, Print(Obj([]), depth, fmt))
  {
    hide Print;
    var t := [OPEN_BRACE] + When(fmt, [NEWLINE] + Tabs(if depth == 0 then 0 else depth - 1)) + [CLOSE_BRACE];
    out := new byte[if fmt then depth + 4 else 3](_ => 0);
    WriteBytes(out, 0, t);
    Unprefixed(t);
    EmptyObjectText(depth, fmt);
    out[|t|] := 0;
  }

  /** The opening brace and the members. */
  method ComposeMembers(out: array<byte>, names: seq<array<byte>>, entries: seq<array<byte>>, members: seq<Member>,
                        depth: nat, fmt: bool)
    returns (ptr: nat)
    requires Clean(Obj(members)) && |names| == |entries| == |members|
    requires Named(names, members) && Valued(entries, members, depth, fmt) && out !in names && out !in entries
    requires out.Length >= 4 + |PrintMembers(members, depth, fmt)|
    modifies out
    ensures ptr <= out.Length && out[..ptr] == [OPEN_BRACE] + When(fmt, [NEWLINE]) + PrintMembers(members, depth, fmt)
  {
    hide Print, PrintMembers, Clean, MemberAt;
    ghost var start := [OPEN_BRACE] + When(fmt, [NEWLINE]);
    WriteBytes(out, 0, [OPEN_BRACE] + When(fmt, [NEWLINE]));
    Unprefixed(start);
    ptr := if fmt then 2 else 1;
    out[ptr] := 0;
    NoMembers(members, depth, fmt);
    for i := 0 to |members|
      invariant Named(names, members) && Valued(entries, members, depth, fmt)
      invariant ptr <= out.Length
        && out[..ptr] + PrintMembers(members[i..], depth, fmt) == start + PrintMembers(members, depth, fmt)
    {
      NextMember(out[..ptr], members, i, depth, fmt);
      MemberClean(members, i);
      ptr := CopyMember(out, ptr, names[i], entries[i], members[i], i != |members| - 1, depth, fmt);
    }
    NoMembers(members, depth, fmt);
  }

  method CopyMember(out: array<byte>, at: nat, name: array<byte>, entry: array<byte>, ghost m: Member, more: bool,
                    depth: nat, fmt: bool)
    returns (ptr: nat)
    requires 0 !in m.name && Clean(m.value) && out != name && out != entry && at <= out.Length
    requires TextIn(name, Quoted(m.name)) && TextIn(entry, Print(m.value, depth, fmt))
    requires |MemberAt(out[..at], m, more, depth, fmt)| < out.Length
    modifies out
    ensures ptr <= out.Length && out[..ptr] == MemberAt(old(out[..at]), m, more, depth, fmt)
  {
    hide Print, Quoted, TextIn, EndMember;
    ghost var done := out[..at];
    MemberLength(done, m, more, depth, fmt);
    ptr := CopyName(out, at, name, m, depth, fmt);
    PrintNoNul(m.value, depth, fmt);
    ptr := CopyText(out, ptr, entry, Print(m.value, depth, fmt));
    WriteBytes(out, ptr, EndMember(more, fmt));
    ptr := ptr + |EndMember(more, fmt)|;
    out[ptr] := 0;
  }

  lemma MemberLength(done: Text, m: Member, more: bool, depth: nat, fmt: bool)
    ensures
      |MemberAt(done, m, more, depth, fmt)| ==
      |done| + |When(fmt, Tabs(depth))| + |Quoted(m.name)| + |[COLON] + When(fmt, [TAB])| + |Print(m.value, depth, fmt)|
      + |EndMember(more, fmt)|
  {
    hide Print, Quoted, EndMember, When;
  }

  method CopyName(out: array<byte>, at: nat, name: array<byte>, ghost m: Member, depth: nat, fmt: bool)
    returns (ptr: nat)
    requires 0 !in m.name && out != name && TextIn(name, Quoted(m.name))
    requires at + |When(fmt, Tabs(depth))| + |Quoted(m.name)| + |[COLON] + When(fmt, [TAB])| <= out.Length
    modifies out
    ensures ptr == at + |When(fmt, Tabs(depth))| + |Quoted(m.name)| + |[COLON] + When(fmt, [TAB])|
    ensures out[..ptr] == old(out[..at]) + When(fmt, Tabs(depth)) + Quoted(m.name) + ([COLON] + When(fmt, [TAB]))
  {
    QuotedNoNul(m.name);
    hide Quoted;
    ptr := at;
    if fmt {
      WriteBytes(out, ptr, Tabs(depth));
      ptr := ptr + depth;
    }
    assert out[..ptr] == old(out[..at]) + When(fmt, Tabs(depth));
    ptr := CopyText(out, ptr, name, Quoted(m.name));
    WriteBytes(out, ptr, [COLON] + When(fmt, [TAB]));
    ptr := ptr + |[COLON] + When(fmt, [TAB])|;
  }

  lemma QuotedNoNul(name: Text)
    requires 0 !in name
    ensures 0 !in Quoted(name)
  {
    EscapeNoNul(name);
  }
}
