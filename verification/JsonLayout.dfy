/** How formatted text looks, in bytes. */
module JsonLayout {
  import opened Bytes
  import opened Json

  /** The text of {"a":[-7,{}]}, piece by piece: a member stands behind a tab, with a tab behind its colon; items stand
    * on one line behind a comma and a space; an empty object breaks the line, and closes one level further left than it
    * stands. */
  lemma ItemsExample()
    ensures Print(Obj([Member([97], Arr([Num(-7), Obj([])]))]), 0, true) ==
      [123, 10] + ([9] + [34, 97, 34, 58, 9] + [91, 45, 55, 44, 32, 123, 10, 9, 125, 93] + [10]) + [] + [125]
  {
    ItemsText();
    FewTabs();
    hide Print, Tabs;
    OneMember(97, Arr([Num(-7), Obj([])]), 0, [91, 45, 55, 44, 32, 123, 10, 9, 125, 93]);
  }

  lemma ItemsText()
    ensures Print(Arr([Num(-7), Obj([])]), 1, true) == [91, 45, 55, 44, 32, 123, 10, 9, 125, 93]
  {
    var items: seq<Value> := [Num(-7), Obj([])];
    assert items[1..] == [Obj([])];
    assert Decimal(-7) == [45, 55];
    FewTabs();
    hide Tabs, Decimal;
  }

  /** The text of {"c":0} inside another object: its member stands behind two tabs, and it closes behind one. */
  lemma NestedExample()
    ensures Print(Obj([Member([99], Num(0))]), 1, true) ==
      [123, 10] + ([9, 9] + [34, 99, 34, 58, 9] + [48] + [10]) + [9] + [125]
  {
    assert Print(Num(0), 2, true) == [48];
    FewTabs();
    hide Print, Tabs;
    OneMember(99, Num(0), 1, [48]);
  }

  /** The text of an object of one member that has a letter as its name. */
  lemma OneMember(c: byte, v: Value, d: nat, text: Text)
    requires c > 96 && Print(v, d + 1, true) == text
    ensures Print(Obj([Member([c], v)]), d, true) ==
      [123, 10] + (Tabs(d + 1) + [34, c, 34, 58, 9] + text + [10]) + Tabs(d) + [125]
  {
    hide Escape, Print, PrintMembers, Tabs;
    var ms := [Member([c], v)];
    Braces(ms, d);
    OnlyMember(ms, d + 1);
    Letter(c);
  }

  lemma FewTabs()
    ensures Tabs(0) == [] && Tabs(1) == [9] && Tabs(2) == [9, 9]
  {
  }

  lemma Letter(c: byte)
    requires c > 96
    ensures [34] + Escape([c]) + [34] + [58] + [9] == [34, c, 34, 58, 9]
  {
    assert [c][1..] == [];
  }

  lemma OnlyMember(ms: seq<Member>, d: nat)
    requires |ms| == 1
    ensures
      var m := ms[0];
      PrintMembers(ms, d, true) ==
      Tabs(d) + ([34] + Escape(m.name) + [34] + [58] + [9]) + Print(m.value, d, true) + [10]
  {
    hide Escape, Print, Tabs;
    assert ms[1..] == [];
  }

  lemma Braces(ms: seq<Member>, d: nat)
    requires ms != []
    ensures Print(Obj(ms), d, true) == [123, 10] + PrintMembers(ms, d + 1, true) + Tabs(d) + [125]
  {
    hide PrintMembers, Tabs;
  }

  /** Quotes, backslashes and characters below the space are escaped, by letter or by lower-case digits; a slash is
    * written as it is. */
  lemma EscapeExample()
    ensures Escape([47, 34, 92, 9, 31]) == [47, 92, 34, 92, 92, 92, 116, 92, 117, 48, 48, 49, 102]
  {
    var s: Text := [47, 34, 92, 9, 31];
    assert s[1..] == [34, 92, 9, 31] && s[1..][1..] == [92, 9, 31] && s[1..][1..][1..] == [9, 31];
    assert s[1..][1..][1..][1..] == [31] && s[1..][1..][1..][1..][1..] == [];
  }
}
