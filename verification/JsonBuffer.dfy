/** The buffered printing route: one buffer that grows as text is added to it. */
module JsonBuffer {
  import opened Bytes
  import opened Json
  import opened JsonText

  class PrintBuffer {
    var buffer: array<byte>
    var length: nat
    var offset: nat

    ghost predicate Valid()
      reads this
    {
      length == buffer.Length && offset <= length
    }

    /** What has been printed and accounted for. */
    ghost function Done(): Text
      reads this, buffer
      requires Valid()
    {
      buffer[..offset]
    }

    /** The buffer holds `t`, NUL-terminated, from its start; at least `from` of it is accounted for. */
    ghost predicate Holds(t: Text, from: nat)
      reads this, buffer
    {
      Valid() && from <= offset <= |t| < buffer.Length && buffer[..|t|] == t && buffer[|t|] == 0
    }

    constructor (prebuffer: nat)
      ensures Valid() && offset == 0 && fresh(buffer)
    {
      buffer := new byte[prebuffer](_ => 0);
      length, offset := prebuffer, 0;
    }

    /** Makes room for `needed` more characters. */
    method Ensure(needed: nat)
      requires Valid()
      modifies this`buffer, this`length
      ensures Valid() && Done() == old(Done()) && offset + needed <= buffer.Length
      ensures buffer == old(buffer) || fresh(buffer)
    {
      if offset + needed <= length {
        return;
      }
      hide Pow2gt;
      Pow2gtFits(offset + needed);
      var newsize, n, was := Pow2gt(offset + needed), length, buffer;
      var newbuffer := new byte[newsize](_ => 0);
      for i := 0 to n
        invariant length == n && buffer == was && newbuffer[..i] == was[..i]
      {
        newbuffer[i] := was[i];
      }
      assert newbuffer[..offset] == newbuffer[..n][..offset] && was[..offset] == was[..n][..offset];
      length, buffer := newsize, newbuffer;
    }

    /** Accounts for the text that ends at the first NUL. */
    method Update(ghost t: Text)
      requires Holds(t, 0) && 0 !in t[offset..]
      modifies this`offset
      ensures Valid() && offset == |t| && Done() == t
    {
      assert t[offset..] == buffer[offset..|t|];
      var n := StrLen(buffer, offset, |t|);
      offset := offset + n;
    }

    /** Writes `bytes` after what is done, in room for `needed`, and a NUL if wanted; nothing more is accounted for. */
    method Write(needed: nat, bytes: Text, nul: bool)
      requires Valid() && |bytes| + (if nul then 1 else 0) <= needed
      modifies this`buffer, this`length, buffer
      ensures Valid() && (buffer == old(buffer) || fresh(buffer))
      ensures offset + needed <= buffer.Length && buffer[..offset + |bytes|] == old(Done()) + bytes
      ensures nul ==> buffer[offset + |bytes|] == 0
    {
      Ensure(needed);
      WriteBytes(buffer, offset, bytes);
      if nul {
        buffer[offset + |bytes|] := 0;
      }
    }

    /** Writes and accounts for `bytes`. */
    method Append(needed: nat, bytes: Text, nul: bool)
      requires Valid() && |bytes| + (if nul then 1 else 0) <= needed
      modifies this, buffer
      ensures Valid() && (buffer == old(buffer) || fresh(buffer)) && Done() == old(Done()) + bytes
      ensures offset == old(offset) + |bytes|
    {
      Write(needed, bytes, nul);
      offset := offset + |bytes|;
    }

    method PrintString(str: Text)
      requires Valid()
      modifies this`buffer, this`length, buffer
      ensures Holds(old(Done()) + Quoted(str), old(offset)) && (buffer == old(buffer) || fresh(buffer))
    {
      var flag, len := EscapedLength(str);
      Ensure(len + 3);
      WriteString(buffer, offset, str, flag);
    }

    method PrintLeaf(needed: nat, bytes: Text)
      requires Valid() && |bytes| < needed
      modifies this`buffer, this`length, buffer
      ensures Holds(old(Done()) + bytes, old(offset)) && (buffer == old(buffer) || fresh(buffer))
    {
      Write(needed, bytes, true);
    }

    /** A value, after what is done; only its last part may be left unaccounted for. */
    method PrintValue(v: Value, depth: nat, fmt: bool)
      requires Valid() && Clean(v)
      modifies this, buffer
      ensures Holds(old(Done()) + Print(v, depth, fmt), old(offset)) && (buffer == old(buffer) || fresh(buffer))
      decreases v, 1
    {
      hide Holds, Quoted, PrintItems, PrintMembers, Tabs;
      match v
      case Null => PrintLeaf(5, NULL_TEXT);
      case False => PrintLeaf(6, FALSE_TEXT);
      case True => PrintLeaf(5, TRUE_TEXT);
      case Num(n) =>
        DecimalLength(n);
        if n == 0 {
          PrintLeaf(2, [ZERO]);
        } else {
          PrintLeaf(21, Decimal(n));
        }
      case Str(s) => PrintString(s);
      case Arr(items) => PrintArray(items, depth, fmt);
      case Obj(members) => PrintObject(members, depth, fmt);
    }

    /** Prints and accounts for a value. */
    method AppendValue(v: Value, depth: nat, fmt: bool)
      requires Valid() && Clean(v)
      modifies this, buffer
      ensures Valid() && (buffer == old(buffer) || fresh(buffer)) && Done() == old(Done()) + Print(v, depth, fmt)
      decreases v, 2
    {
      hide Print, Clean;
      ghost var done := Done();
      PrintValue(v, depth, fmt);
      PrintNoNul(v, depth, fmt);
      NoNulBehind(done, Print(v, depth, fmt), offset);
      Update(done + Print(v, depth, fmt));
    }

    method AppendString(str: Text)
      requires Valid() && 0 !in str
      modifies this, buffer
      ensures Valid() && (buffer == old(buffer) || fresh(buffer)) && Done() == old(Done()) + Quoted(str)
    {
      hide Escape;
      ghost var done := Done();
      PrintString(str);
      EscapeNoNul(str);
      NoNulBehind(done, Quoted(str), offset);
      Update(done + Quoted(str));
    }

    method PrintArray(items: seq<Value>, depth: nat, fmt: bool)
      requires Valid() && Clean(Arr(items))
      modifies this, buffer
      ensures Holds(old(Done()) + Print(Arr(items), depth, fmt), old(offset))
      ensures buffer == old(buffer) || fresh(buffer)
      decreases items, 1
    {
      hide Print, PrintItems;
      if items == [] {
        PrintLeaf(3, [OPEN_BRACKET, CLOSE_BRACKET]);
        EmptyArrayText(depth, fmt);
        return;
      }
      ghost var done := Done();
      Append(1, [OPEN_BRACKET], false);
      ghost var start := Done();
      for i := 0 to |items|
        invariant Valid() && (buffer == old(buffer) || fresh(buffer)) && offset >= |done|
        invariant Done() + PrintItems(items[i..], depth + 1, fmt) == start + PrintItems(items, depth + 1, fmt)
      {
        NextItem(Done(), items, i, depth + 1, fmt);
        AppendValue(items[i], depth + 1, fmt);
        if i + 1 < |items| {
          var len := if fmt then 2 else 1;
          Append(len + 1, Separator(fmt), true);
        } else {
          NoItems(items, depth + 1, fmt);
        }
      }
      NoItems(items, depth + 1, fmt);
      Write(2, [CLOSE_BRACKET], true);
      ArrayAt(done, items, depth, fmt);
    }

    /** The members of an object, one after the other. */
    method AppendMembers(members: seq<Member>, depth: nat, fmt: bool)
      requires Valid() && Clean(Obj(members))
      modifies this, buffer
      ensures Valid() && (buffer == old(buffer) || fresh(buffer)) && offset >= old(offset)
      ensures Done() == old(Done()) + PrintMembers(members, depth, fmt)
      decreases members, 0
    {
      hide Print, PrintMembers, PrintName, EndMember, MemberAt, Clean, When;
      ghost var start := Done();
      for i := 0 to |members|
        invariant Valid() && (buffer == old(buffer) || fresh(buffer)) && offset >= old(offset)
        invariant Done() + PrintMembers(members[i..], depth, fmt) == start + PrintMembers(members, depth, fmt)
      {
        NextMember(Done(), members, i, depth, fmt);
        MemberClean(members, i);
        AppendMember(members[i], i + 1 < |members|, depth, fmt);
      }
      NoMembers(members, depth, fmt);
    }

    method PrintObject(members: seq<Member>, depth: nat, fmt: bool)
      requires Valid() && Clean(Obj(members))
      modifies this, buffer
      ensures Holds(old(Done()) + Print(Obj(members), depth, fmt), old(offset))
      ensures buffer == old(buffer) || fresh(buffer)
      decreases members, 1
    {
      hide Print, PrintMembers, Clean;
      if members == [] {
        PrintLeaf(if fmt then depth + 4 else 3,
                  [OPEN_BRACE] + When(fmt, [NEWLINE] + Tabs(if depth == 0 then 0 else depth - 1)) + [CLOSE_BRACE]);
        EmptyObjectText(depth, fmt);
        return;
      }
      ghost var done := Done();
      var len := if fmt then 2 else 1;
      Append(len + 1, [OPEN_BRACE] + When(fmt, [NEWLINE]), true);
      AppendMembers(members, depth + 1, fmt);
      Write(if fmt then depth + 2 else 2, When(fmt, Tabs(depth)) + [CLOSE_BRACE], true);
      ObjectAt(done, members, depth, fmt);
    }

    method AppendMember(m: Member, more: bool, depth: nat, fmt: bool)
      requires Valid() && 0 !in m.name && Clean(m.value)
      modifies this, buffer
      ensures Valid() && (buffer == old(buffer) || fresh(buffer))
      ensures Done() == MemberAt(old(Done()), m, more, depth, fmt) && offset >= old(offset)
      decreases m, 3
    {
      hide Print, Clean, Quoted;
      ghost var done := Done();
      if fmt {
        Append(depth, Tabs(depth), false);
      }
      assert Done() == done + When(fmt, Tabs(depth));
      AppendString(m.name);
      var len := if fmt then 2 else 1;
      Append(len, [COLON] + When(fmt, [TAB]), false);
      AppendValue(m.value, depth, fmt);
      len := (if fmt then 1 else 0) + if more then 1 else 0;
      Append(len + 1, EndMember(more, fmt), true);
    }
  }

  /** The text once a member has been added to what is done. */
  function MemberAt(done: Text, m: Member, more: bool, depth: nat, fmt: bool): Text {
    done + When(fmt, Tabs(depth)) + Quoted(m.name) + ([COLON] + When(fmt, [TAB])) + Print(m.value, depth, fmt)
    + EndMember(more, fmt)
  }

  lemma MemberClean(members: seq<Member>, i: nat)
    requires i < |members| && Clean(Obj(members))
    ensures 0 !in members[i].name && Clean(members[i].value)
  {
  }

  lemma NoNulBehind(done: Text, t: Text, from: nat)
    requires |done| <= from <= |done| + |t| && 0 !in t
    ensures 0 !in (done + t)[from..]
  {
    assert (done + t)[from..] == t[from - |done|..];
  }

  lemma EmptyArrayText(depth: nat, fmt: bool)
    ensures Print(Arr([]), depth, fmt) == [OPEN_BRACKET, CLOSE_BRACKET]
  {
    assert PrintItems([], depth + 1, fmt) == [];
  }

  lemma EmptyObjectText(depth: nat, fmt: bool)
    ensures
      Print(Obj([]), depth, fmt) ==
      [OPEN_BRACE] + When(fmt, [NEWLINE] + Tabs(if depth == 0 then 0 else depth - 1)) + [CLOSE_BRACE]
  {
  }

  lemma NextItem(done: Text, items: seq<Value>, i: nat, depth: nat, fmt: bool)
    requires i < |items|
    ensures
      done + PrintItems(items[i..], depth, fmt) ==
      if i + 1 < |items| then
        done + Print(items[i], depth, fmt) + Separator(fmt) + PrintItems(items[i + 1..], depth, fmt)
      else done + Print(items[i], depth, fmt)
  {
    hide Print;
    assert items[i..][1..] == items[i + 1..] && items[i..][0] == items[i];
    if i + 1 < |items| {
      var p, rest := Print(items[i], depth, fmt), PrintItems(items[i + 1..], depth, fmt);
      Assoc(done, p + Separator(fmt), rest);
      Assoc(done, p, Separator(fmt));
    }
  }

  lemma NoItems(items: seq<Value>, depth: nat, fmt: bool)
    ensures PrintItems(items[|items|..], depth, fmt) == [] && items[0..] == items
  {
  }

  lemma NoMembers(members: seq<Member>, depth: nat, fmt: bool)
    ensures PrintMembers(members[|members|..], depth, fmt) == [] && members[0..] == members
  {
  }

  lemma ArrayAt(done: Text, items: seq<Value>, depth: nat, fmt: bool)
    ensures
      done + [OPEN_BRACKET] + PrintItems(items, depth + 1, fmt) + [CLOSE_BRACKET]
          == done + Print(Arr(items), depth, fmt)
  {
    hide PrintItems;
  }

  lemma ObjectAt(done: Text, members: seq<Member>, depth: nat, fmt: bool)
    requires members != []
    ensures
      done + ([OPEN_BRACE] + When(fmt, [NEWLINE])) + PrintMembers(members, depth + 1, fmt)
      + (When(fmt, Tabs(depth)) + [CLOSE_BRACE]) == done + Print(Obj(members), depth, fmt)
  {
    hide PrintMembers, When;
  }

  lemma NextMember(done: Text, members: seq<Member>, i: nat, depth: nat, fmt: bool)
    requires i < |members|
    ensures
      done + PrintMembers(members[i..], depth, fmt) ==
      MemberAt(done, members[i], i + 1 < |members|, depth, fmt) + PrintMembers(members[i + 1..], depth, fmt)
  {
    hide Print, Quoted, EndMember, When;
    assert members[i..][1..] == members[i + 1..] && members[i..][0] == members[i];
    var a, b, c := When(fmt, Tabs(depth)), Quoted(members[i].name), [COLON] + When(fmt, [TAB]);
    var d, e, f := Print(members[i].value, depth, fmt), EndMember(i + 1 < |members|, fmt),
      PrintMembers(members[i + 1..], depth, fmt);
    assert PrintName(members[i].name, depth, fmt) == a + b + c;
    Regroup(done, a, b, c, d, e, f);
  }

  lemma Regroup(done: Text, a: Text, b: Text, c: Text, d: Text, e: Text, f: Text)
    ensures done + (a + b + c + d + e + f) == done + a + b + c + d + e + f
  {
  }

  /** Buffered printing into a buffer of any first size gives what unbuffered printing is specified to give. */
  method PrintBuffered(v: Value, prebuffer: nat, fmt: bool) returns (out: array<byte>)
    requires Clean(v)
    ensures fresh(out) && |Print(v, 0, fmt)| < out.Length && out[..|Print(v, 0, fmt)|] == Print(v, 0, fmt)
    ensures out[|Print(v, 0, fmt)|] == 0 && 0 !in Print(v, 0, fmt)
  {
    hide Print, Clean;
    var p := new PrintBuffer(prebuffer);
    p.PrintValue(v, 0, fmt);
    PrintNoNul(v, 0, fmt);
    assert [] + Print(v, 0, fmt) == Print(v, 0, fmt);
    out := p.buffer;
  }
}
