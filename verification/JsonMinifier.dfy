/** The minifier as it runs: one array read and overwritten from the front. */
module JsonMinifier {
  import opened Bytes
  import opened Json
  import opened JsonMinify

  /** `a` holds what has been written before `into`, and from `at` to the NUL at `n` what is still to be read; the two
    * together come to what `text` minifies to. */
  ghost predicate OnCourse(a: Text, into: nat, at: nat, n: nat, text: Text) {
    && into <= at <= n < |a| && a[n] == 0 && 0 !in a[at..n]
    && Closed(a[at..n]) == Closed(text) && a[..into] + Minify(a[at..n]) == Minify(text)
  }

  /** The same with a string being read. */
  ghost predicate OnCourseInString(a: Text, into: nat, at: nat, n: nat, text: Text) {
    && into <= at <= n < |a| && a[n] == 0 && 0 !in a[at..n]
    && ClosedString(a[at..n]) == Closed(text) && a[..into] + MinifyString(a[at..n]) == Minify(text)
  }

  /** `b` is `a` with one character moved down over text already read. */
  lemma Moved(a: Text, b: Text, into: nat, at: nat, n: nat)
    requires into <= at < n < |a| && b == a[into := a[at]]
    ensures b[..into + 1] == a[..into] + [a[at]] && b[at + 1..n] == a[at + 1..n] && b[n] == a[n]
    ensures a[at..n] == [a[at]] + a[at + 1..n] && a[at..n][1..] == a[at + 1..n]
  {
  }

  lemma Tail(a: Text, at: nat, n: nat)
    requires at < n <= |a|
    ensures a[at..n][1..] == a[at + 1..n] && a[at..n][0] == a[at]
    ensures at + 1 < n ==> a[at..n][2..] == a[at + 2..n] && a[at..n][1] == a[at + 1]
    ensures at + 1 < n ==> a[at..n][..2] == [a[at]] + [a[at + 1]]
  {
  }

  method SkipLine(json: array<byte>, at: nat, ghost n: nat) returns (end: nat)
    requires at <= n < json.Length && json[n] == 0 && 0 !in json[at..n]
    ensures at <= end <= n && json[end..n] == DropLine(json[at..n])
  {
    end := at;
    while json[end] != 0 && json[end] != NEWLINE
      invariant at <= end <= n && DropLine(json[end..n]) == DropLine(json[at..n])
      decreases n - end
    {
      assert json[end..n][1..] == json[end + 1..n];
      end := end + 1;
    }
  }

  /** A comment that is not closed would lead past the terminator. */
  method SkipComment(json: array<byte>, at: nat, ghost n: nat) returns (end: nat, closed: bool)
    requires at <= n < json.Length && json[n] == 0 && 0 !in json[at..n]
    ensures closed <==> DropComment(json[at..n]).Some?
    ensures closed ==> at <= end <= n && Some(json[end..n]) == DropComment(json[at..n])
  {
    end := at;
    while json[end] != 0 && !(json[end] == STAR && json[end + 1] == SLASH)
      invariant at <= end <= n && DropComment(json[end..n]) == DropComment(json[at..n])
      decreases n - end
    {
      Tail(json[..], end, n);
      assert json[..][end..n] == json[end..n] && json[..][end + 1..n] == json[end + 1..n];
      end := end + 1;
    }
    closed := json[end] != 0;
    if !closed {
      return;
    }
    Tail(json[..], end, n);
    assert json[..][end..n] == json[end..n] && json[..][end + 2..n] == json[end + 2..n];
    end := end + 2;
  }

  lemma CopyPlain(a: Text, b: Text, into: nat, at: nat, n: nat, text: Text)
    requires OnCourse(a, into, at, n, text) && at < n && b == a[into := a[at]]
    requires !IsSpace(a[at]) && a[at] != QUOTE && !(a[at] == SLASH && (a[at + 1] == SLASH || a[at + 1] == STAR))
    ensures OnCourse(b, into + 1, at + 1, n, text)
  {
    Moved(a, b, into, at, n);
    Tail(a, at, n);
    assert a[..into] + ([a[at]] + Minify(a[at + 1..n])) == b[..into + 1] + Minify(b[at + 1..n]);
  }

  lemma CopyQuote(a: Text, b: Text, into: nat, at: nat, n: nat, text: Text)
    requires OnCourse(a, into, at, n, text) && at < n && a[at] == QUOTE && b == a[into := a[at]]
    ensures OnCourseInString(b, into + 1, at + 1, n, text)
  {
    Moved(a, b, into, at, n);
    Tail(a, at, n);
    assert a[..into] + ([QUOTE] + MinifyString(a[at + 1..n])) == b[..into + 1] + MinifyString(b[at + 1..n]);
  }

  lemma CopyInString(a: Text, b: Text, into: nat, at: nat, n: nat, text: Text)
    requires OnCourseInString(a, into, at, n, text) && at < n && b == a[into := a[at]]
    requires a[at] != QUOTE && a[at] != BACKSLASH
    ensures OnCourseInString(b, into + 1, at + 1, n, text)
  {
    Moved(a, b, into, at, n);
    Tail(a, at, n);
    assert a[..into] + ([a[at]] + MinifyString(a[at + 1..n])) == b[..into + 1] + MinifyString(b[at + 1..n]);
  }

  /** The two characters of an escape go together. */
  lemma CopyEscape(a: Text, b: Text, c: Text, into: nat, at: nat, n: nat, text: Text)
    requires OnCourseInString(a, into, at, n, text) && at + 1 < n && a[at] == BACKSLASH && b == a[into := a[at]]
    requires c == b[into + 1 := b[at + 1]]
    ensures OnCourseInString(c, into + 2, at + 2, n, text)
  {
    Moved(a, b, into, at, n);
    Tail(a, at, n);
    Moved(b, c, into + 1, at + 1, n);
    assert b[at + 1..n][1..] == b[at + 2..n] && a[at + 1..n][1..] == a[at + 2..n];
    var rest := MinifyString(a[at + 2..n]);
    assert a[..into] + ([a[at]] + [a[at + 1]] + rest) == c[..into + 2] + rest;
  }

  lemma CopyEnd(a: Text, b: Text, into: nat, at: nat, n: nat, text: Text)
    requires OnCourseInString(a, into, at, n, text) && at < n && a[at] == QUOTE && b == a[into := a[at]]
    ensures OnCourse(b, into + 1, at + 1, n, text)
  {
    Moved(a, b, into, at, n);
    Tail(a, at, n);
    assert a[..into] + ([QUOTE] + Minify(a[at + 1..n])) == b[..into + 1] + Minify(b[at + 1..n]);
  }

  /** What is skipped leaves nothing behind. */
  lemma Skipped(a: Text, into: nat, at: nat, end: nat, n: nat, text: Text)
    requires OnCourse(a, into, at, n, text) && at < end <= n
    requires Minify(a[at..n]) == Minify(a[end..n]) && Closed(a[at..n]) == Closed(a[end..n])
    ensures OnCourse(a, into, end, n, text)
  {
    hide Minify, Closed;
    forall i | end <= i < n
      ensures a[i] != 0
    {
      assert a[at..n][i - at] == a[i];
    }
  }

  /** A string that the text does not close, with or without half an escape at its end. */
  lemma LeftOpen(a: Text, into: nat, at: nat, n: nat, text: Text)
    requires OnCourseInString(a, into, at, n, text) && (at == n || (at + 1 == n && a[at] == BACKSLASH))
    ensures !Closed(text)
  {
  }

  /** One character of a string, or one escape. */
  method StringTurn(json: array<byte>, into0: nat, at0: nat, ghost n: nat, ghost text: Text)
    returns (into: nat, at: nat, closed: bool)
    requires OnCourseInString(json[..], into0, at0, n, text) && at0 < n && json[at0] != QUOTE
    modifies json
    ensures closed ==> OnCourseInString(json[..], into, at, n, text) && at0 < at
    ensures !closed ==> !Closed(text)
  {
    InString(json[..], into0, at0, n, text);
    hide OnCourseInString, Closed;
    into, at, closed := into0, at0, true;
    ghost var a := json[..];
    if json[at] == BACKSLASH {
      if json[at + 1] == 0 {
        LeftOpen(a, into, at, n, text);
        return into, at, false;
      }
      json[into] := json[at];
      ghost var b := json[..];
      into, at := into + 1, at + 1;
      json[into] := json[at];
      CopyEscape(a, b, json[..], into - 1, at - 1, n, text);
    } else {
      json[into] := json[at];
      CopyInString(a, json[..], into, at, n, text);
    }
    into, at := into + 1, at + 1;
  }

  /** Copies the opening quote. */
  method OpenString(json: array<byte>, into: nat, at: nat, ghost n: nat, ghost text: Text)
    requires OnCourse(json[..], into, at, n, text) && at < n && json[at] == QUOTE
    modifies json
    ensures OnCourseInString(json[..], into + 1, at + 1, n, text)
  {
    Outside(json[..], into, at, n, text);
    hide OnCourse, OnCourseInString;
    ghost var a := json[..];
    json[into] := json[at];
    CopyQuote(a, json[..], into, at, n, text);
  }

  /** Copies a string with both its quotes. */
  method CopyString(json: array<byte>, into0: nat, at0: nat, ghost n: nat, ghost text: Text)
    returns (into: nat, at: nat, closed: bool)
    requires OnCourse(json[..], into0, at0, n, text) && at0 < n && json[at0] == QUOTE
    modifies json
    ensures closed ==> OnCourse(json[..], into, at, n, text) && at0 < at
    ensures !closed ==> !Closed(text)
  {
    hide OnCourse, OnCourseInString, Closed;
    OpenString(json, into0, at0, n, text);
    into, at := into0 + 1, at0 + 1;
    InString(json[..], into, at, n, text);
    while json[at] != 0 && json[at] != QUOTE
      invariant OnCourseInString(json[..], into, at, n, text)
      invariant into <= at <= n < json.Length && at0 < at && (json[at] == 0 <==> at == n)
      decreases n - at
    {
      into, at, closed := StringTurn(json, into, at, n, text);
      if !closed {
        return;
      }
      InString(json[..], into, at, n, text);
    }
    ghost var a := json[..];
    if json[at] == 0 {
      LeftOpen(a, into, at, n, text);
      return into, at, false;
    }
    json[into] := json[at];
    CopyEnd(a, json[..], into, at, n, text);
    into, at, closed := into + 1, at + 1, true;
  }

  lemma InString(a: Text, into: nat, at: nat, n: nat, text: Text)
    requires OnCourseInString(a, into, at, n, text)
    ensures into <= at <= n < |a| && (a[at] == 0 <==> at == n)
    ensures at < n ==> (a[at + 1] == 0 <==> at + 1 == n)
  {
    if at < n {
      assert a[at..n][0] == a[at];
      assert at + 1 < n ==> a[at..n][1] == a[at + 1];
    }
  }

  lemma Outside(a: Text, into: nat, at: nat, n: nat, text: Text)
    requires OnCourse(a, into, at, n, text)
    ensures into <= at <= n < |a| && (a[at] == 0 <==> at == n)
    ensures at == n ==> a[..into] == Minify(text) && Closed(text)
  {
    if at < n {
      assert a[at..n][0] == a[at];
    }
  }

  /** Minifies a NUL-terminated text where it stands. A string or comment that the text leaves open is where the loop
    * would go on behind the terminator: it stays inside exactly when there is none. */
  method MinifyInPlace(json: array<byte>, ghost n: nat) returns (into: nat, closed: bool)
    requires n < json.Length && json[n] == 0 && 0 !in json[..n]
    modifies json
    ensures closed <==> Closed(old(json[..n]))
    ensures closed ==> into <= n && json[..into] == Minify(old(json[..n])) && json[into] == 0
  {
    ghost var text := json[..n];
    into, closed := 0, true;
    var at := 0;
    assert json[..][0..n] == text;
    assert OnCourse(json[..], into, at, n, text);
    Outside(json[..], into, at, n, text);
    hide OnCourse, Closed, Minify;
    while json[at] != 0
      invariant OnCourse(json[..], into, at, n, text)
      invariant into <= at <= n < json.Length && (json[at] == 0 <==> at == n)
      decreases n - at
    {
      into, at, closed := Turn(json, into, at, n, text);
      if !closed {
        return;
      }
      Outside(json[..], into, at, n, text);
    }
    Outside(json[..], into, at, n, text);
    json[into] := 0;
  }

  /** One turn of the outer loop. */
  method Turn(json: array<byte>, into0: nat, at0: nat, ghost n: nat, ghost text: Text)
    returns (into: nat, at: nat, closed: bool)
    requires OnCourse(json[..], into0, at0, n, text) && at0 < n
    modifies json
    ensures closed ==> OnCourse(json[..], into, at, n, text) && at0 < at
    ensures !closed ==> !Closed(text)
  {
    into, at, closed := into0, at0, true;
    ghost var a := json[..];
    Tail(a, at, n);
    assert json[at..n] == a[at..n];
    if IsSpace(json[at]) {
      Skipped(a, into, at, at + 1, n, text);
      at := at + 1;
    } else if json[at] == SLASH && json[at + 1] == SLASH {
      at := SkipLine(json, at, n);
      assert json[at..n] == a[at..n];
      Skipped(a, into, at0, at, n, text);
    } else if json[at] == SLASH && json[at + 1] == STAR {
      at, closed := SkipComment(json, at, n);
      if closed {
        assert json[at..n] == a[at..n];
        Skipped(a, into, at0, at, n, text);
      }
    } else if json[at] == QUOTE {
      into, at, closed := CopyString(json, into, at, n, text);
    } else {
      json[into] := json[at];
      CopyPlain(a, json[..], into, at, n, text);
      into, at := into + 1, at + 1;
    }
  }
}
