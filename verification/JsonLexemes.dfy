/** What the minifier makes of any text, said through the pieces the text falls into: blanks, comments, strings and
  * single characters. */
module JsonLexemes {
  import opened Bytes
  import opened Json
  import opened JsonMinify

  /** A line comment without its line end, a block comment, a string without its quotes, or one character. */
  datatype Lexeme = Blank(c: byte) | Line(body: Text) | Block(body: Text) | Literal(body: Text) | Single(c: byte)

  function Spell(l: Lexeme): Text {
    match l
    case Blank(c) => [c]
    case Line(body) => [47, 47] + body
    case Block(body) => [47] + body
    case Literal(body) => [34] + body + [34]
    case Single(c) => [c]
  }

  function SpellAll(ls: seq<Lexeme>): Text {
    if ls == [] then [] else Spell(ls[0]) + SpellAll(ls[1..])
  }

  /** Blanks and comments go, the rest stays as it is. */
  function Kept(ls: seq<Lexeme>): Text {
    if ls == [] then []
    else (if ls[0].Literal? || ls[0].Single? then Spell(ls[0]) else []) + Kept(ls[1..])
  }

  /** A quote in a string has a backslash before it that is not itself escaped. */
  predicate Inner(t: Text) {
    t == [] || (t[0] == 92 && |t| > 1 && Inner(t[2..])) || (t[0] != 92 && t[0] != 34 && Inner(t[1..]))
  }

  /** A block comment goes from its star to the first star and slash behind its opening slash; these may be the star
    * that opens it and the slash after. */
  predicate Comment(t: Text) {
    && |t| >= 2 && t[0] == 42 && t[|t| - 2] == 42 && t[|t| - 1] == 47
    && forall i :: 0 <= i < |t| - 2 ==> t[i] != 42 || t[i + 1] != 47
  }

  /** A lexeme and the text behind it: a line comment reaches to the line end or the end of the text, and a slash that
    * stands for itself has neither a slash nor a star behind it. */
  predicate Fits(l: Lexeme, rest: Text) {
    match l
    case Blank(c) => c == 32 || c == 9 || c == 13 || c == 10
    case Line(body) => 10 !in body && (rest == [] || rest[0] == 10)
    case Block(body) => Comment(body)
    case Literal(body) => Inner(body)
    case Single(c) =>
      && c != 32 && c != 9 && c != 13 && c != 10 && c != 34
      && (c == 47 && rest != [] ==> rest[0] != 47 && rest[0] != 42)
  }

  predicate Good(ls: seq<Lexeme>) {
    ls == [] || (Fits(ls[0], SpellAll(ls[1..])) && Good(ls[1..]))
  }

  // ---------- from lexemes to the minifier ----------

  lemma {:induction false} LinePassed(body: Text, rest: Text)
    requires 10 !in body && (rest == [] || rest[0] == 10)
    ensures DropLine(body + rest) == rest
  {
    if body == [] {
      assert body + rest == rest;
    } else {
      DropJoined(body, rest, 1);
      LinePassed(body[1..], rest);
    }
  }

  lemma {:induction false} CommentPassed(body: Text, rest: Text)
    requires Comment(body)
    ensures DropComment(body + rest) == Some(rest)
  {
    var t := body + rest;
    if |body| == 2 {
      assert t[2..] == rest;
    } else {
      CommentTail(body, rest);
      assert t[0] != 42 || t[1] != 47;
    }
  }

  /** From any place on, the first star and slash are still those at the end. */
  lemma {:induction false} CommentTail(body: Text, rest: Text)
    requires |body| > 2 && body[|body| - 2] == 42 && body[|body| - 1] == 47
    requires forall i :: 0 <= i < |body| - 2 ==> body[i] != 42 || body[i + 1] != 47
    ensures DropComment(body + rest) == Some(rest)
  {
    var t, next := body + rest, body[1..];
    DropJoined(body, rest, 1);
    assert t[0] == body[0] && t[1] == body[1];
    if |next| > 2 {
      CommentTail(next, rest);
    } else {
      assert (next + rest)[2..] == rest;
    }
  }

  lemma {:induction false} InnerPassed(body: Text, rest: Text)
    requires Inner(body)
    ensures MinifyString(body + ([34] + rest)) == body + ([34] + Minify(rest))
    ensures ClosedString(body + ([34] + rest)) == Closed(rest)
    decreases |body|
  {
    var t := body + ([34] + rest);
    if body == [] {
      assert t == [34] + rest && t[1..] == rest;
    } else {
      var k := if body[0] == 92 then 2 else 1;
      DropJoined(body, [34] + rest, k);
      InnerPassed(body[k..], rest);
      assert body == body[..k] + body[k..];
      Assoc(body[..k], body[k..], [34] + Minify(rest));
      assert t[0] == body[0];
      assert body[..1] == [body[0]];
    }
  }

  lemma LexemePassed(l: Lexeme, rest: Text)
    requires Fits(l, rest)
    ensures Closed(Spell(l) + rest) == Closed(rest)
    ensures Minify(Spell(l) + rest) == (if l.Literal? || l.Single? then Spell(l) else []) + Minify(rest)
  {
    hide MinifyString, ClosedString, DropLine, DropComment, Comment, Inner;
    var t := Spell(l) + rest;
    match l
    case Blank(c) => DropJoined([c], rest, 1);
    case Line(body) => LineGone(body, rest);
    case Block(body) => BlockGone(body, rest);
    case Literal(body) => LiteralKept(body, rest);
    case Single(c) =>
      assert t[1..] == rest;
      assert rest != [] ==> t[1] == rest[0];
  }

  lemma LineGone(body: Text, rest: Text)
    requires 10 !in body && (rest == [] || rest[0] == 10)
    ensures Closed([47, 47] + body + rest) == Closed(rest) && Minify([47, 47] + body + rest) == Minify(rest)
  {
    LinePassed([47, 47] + body, rest);
    hide DropLine, DropComment, MinifyString, ClosedString;
  }

  lemma BlockGone(body: Text, rest: Text)
    requires Comment(body)
    ensures Closed([47] + body + rest) == Closed(rest) && Minify([47] + body + rest) == Minify(rest)
  {
    CommentPassed(body, rest);
    var t := [47] + body + rest;
    assert t[1..] == body + rest && t[0] == 47 && t[1] == body[0];
    assert DropComment(t) == DropComment(t[1..]);
    hide DropLine, DropComment, MinifyString, ClosedString;
  }

  lemma LiteralKept(body: Text, rest: Text)
    requires Inner(body)
    ensures
      var t := [34] + body + [34];
      Closed(t + rest) == Closed(rest) && Minify(t + rest) == t + Minify(rest)
  {
    InnerPassed(body, rest);
    var t := [34] + body + [34];
    assert (t + rest)[1..] == body + ([34] + rest);
    assert [34] + (body + ([34] + Minify(rest))) == t + Minify(rest);
    hide DropLine, DropComment, MinifyString, ClosedString, Inner;
  }

  /** A text that falls into lexemes is closed, and what is left of it are its strings and single characters. */
  lemma {:induction false} MinifyKeeps(ls: seq<Lexeme>)
    requires Good(ls)
    ensures Closed(SpellAll(ls)) && Minify(SpellAll(ls)) == Kept(ls)
  {
    hide Minify, Closed, Spell, Fits;
    if ls == [] {
      EmptyText();
    } else {
      MinifyKeeps(ls[1..]);
      LexemePassed(ls[0], SpellAll(ls[1..]));
    }
  }

  lemma EmptyText()
    ensures Closed([]) && Minify([]) == []
  {
  }

  // ---------- from the minifier to lexemes ----------

  lemma {:induction false} LineFound(t: Text) returns (body: Text)
    ensures t == body + DropLine(t) && 10 !in body && (DropLine(t) == [] || DropLine(t)[0] == 10)
  {
    body := [];
    if t != [] && t[0] != 10 {
      body := LineFound(t[1..]);
      body := [t[0]] + body;
    }
  }

  lemma {:induction false} CommentFound(t: Text) returns (body: Text)
    requires DropComment(t).Some?
    ensures |body| >= 2 && body[|body| - 2] == 42 && body[|body| - 1] == 47
    ensures forall i :: 0 <= i < |body| - 2 ==> body[i] != 42 || body[i + 1] != 47
    ensures t == body + DropComment(t).value && body[0] == t[0]
  {
    if t[0] == 42 && |t| > 1 && t[1] == 47 {
      body := t[..2];
    } else {
      var next := CommentFound(t[1..]);
      body := [t[0]] + next;
      assert next[0] == t[1];
    }
  }

  lemma {:induction false} InnerFound(t: Text) returns (body: Text, rest: Text)
    requires ClosedString(t)
    ensures t == body + ([34] + rest) && Inner(body) && Closed(rest)
    decreases |t|
  {
    hide Closed;
    if t[0] == 34 {
      body, rest := [], t[1..];
    } else {
      var k := if t[0] == 92 then 2 else 1;
      body, rest := InnerFound(t[k..]);
      var whole := t[..k] + body;
      assert whole[k..] == body;
      Assoc(t[..k], body, [34] + rest);
      assert t == t[..k] + t[k..];
      body := whole;
    }
  }

  /** The first lexeme of a closed text. */
  lemma FirstLexeme(t: Text) returns (l: Lexeme, rest: Text)
    requires t != [] && Closed(t)
    ensures t == Spell(l) + rest && Fits(l, rest) && Closed(rest)
  {
    hide ClosedString, DropLine, DropComment, Inner, Comment;
    if IsSpace(t[0]) {
      l, rest := Blank(t[0]), t[1..];
    } else if t[0] == 47 && |t| > 1 && t[1] == 47 {
      l, rest := LineFirst(t);
    } else if t[0] == 47 && |t| > 1 && t[1] == 42 {
      l, rest := BlockFirst(t);
    } else if t[0] == 34 {
      var body;
      body, rest := InnerFound(t[1..]);
      l := Literal(body);
      assert [34] + (body + ([34] + rest)) == Spell(l) + rest;
    } else {
      l, rest := Single(t[0]), t[1..];
    }
  }

  lemma LineFirst(t: Text) returns (l: Lexeme, rest: Text)
    requires Closed(t) && |t| > 1 && t[0] == 47 && t[1] == 47
    ensures t == Spell(l) + rest && Fits(l, rest) && Closed(rest)
  {
    hide ClosedString, DropComment, Inner, Comment;
    var body := LineFound(t);
    rest := DropLine(t);
    assert DropLine(t) == DropLine(t[1..]) == DropLine(t[2..]);
    assert |body| >= 2 && body[0] == 47 && body[1] == 47 by {
      assert |rest| <= |t[2..]|;
    }
    l := Line(body[2..]);
    assert body == [47, 47] + body[2..];
  }

  lemma BlockFirst(t: Text) returns (l: Lexeme, rest: Text)
    requires Closed(t) && |t| > 1 && t[0] == 47 && t[1] == 42
    ensures t == Spell(l) + rest && Fits(l, rest) && Closed(rest)
  {
    hide ClosedString, DropLine, Inner;
    assert DropComment(t) == DropComment(t[1..]);
    rest := DropComment(t).value;
    var body := CommentFound(t[1..]);
    l := Block(body);
    assert [47] + (body + rest) == Spell(l) + rest;
  }

  /** Every closed text falls into lexemes. */
  lemma {:induction false} Lexed(t: Text) returns (ls: seq<Lexeme>)
    requires Closed(t)
    ensures Good(ls) && SpellAll(ls) == t
    decreases |t|
  {
    hide Closed, Fits;
    if t == [] {
      ls := [];
    } else {
      var l, rest := FirstLexeme(t);
      assert |Spell(l)| > 0;
      ls := Lexed(rest);
      ls := [l] + ls;
    }
  }

  /** The loop stays inside the text exactly when the text falls into lexemes. */
  lemma ClosedExact(t: Text)
    ensures Closed(t) <==> exists ls :: Good(ls) && SpellAll(ls) == t
  {
    hide Closed, Good, SpellAll, Minify;
    if Closed(t) {
      var ls := Lexed(t);
    }
    forall ls | Good(ls) && SpellAll(ls) == t
      ensures Closed(t)
    {
      MinifyKeeps(ls);
    }
  }
}
