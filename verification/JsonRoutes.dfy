/** The printing routes, the minifier and the parser put together. */
module JsonRoutes {
  import opened Bytes
  import opened Json
  import opened JsonRoundTrip
  import opened JsonText
  import opened JsonMinify
  import opened JsonMinifier
  import opened JsonBuffer
  import opened JsonUnbuffered
  import opened JsonParser

  /** The text of an array, NUL included. */
  method Contents(a: array<byte>, ghost t: Text) returns (s: Text)
    requires TextIn(a, t) && 0 !in t
    ensures Terminated(s) && From(s, 0) == t
  {
    assert a[0..|t|] == t;
    var n := StrLen(a, 0, |t|);
    s := a[..n + 1];
    assert s[..|s| - 1] == t;
  }

  /** Printing by either route and parsing gives the tree back and uses all of the text. */
  method PrintAndParse(v: Value, buffered: bool, prebuffer: nat, fmt: bool) returns (w: Value, end: nat, text: Text)
    requires Clean(v)
    ensures w == v && end == |text| - 1 && text == Print(v, 0, fmt) + [0]
  {
    hide Print, Clean, Parse;
    var a;
    if buffered {
      a := PrintBuffered(v, prebuffer, fmt);
    } else {
      a := PrintValue(v, 0, fmt);
    }
    PrintNoNul(v, 0, fmt);
    text := Contents(a, Print(v, 0, fmt));
    RoundTrip(v, fmt, true);
    var ok;
    ok, w, end := ParseWithOpts(text, true);
  }

  /** Minifying formatted text where it stands leaves the text the unformatted route prints. */
  method PrintAndMinify(v: Value, prebuffer: nat) returns (a: array<byte>, n: nat, b: array<byte>)
    requires Clean(v)
    ensures n < a.Length && a[n] == 0 && a[..n] == Print(v, 0, false)
    ensures n < b.Length && b[n] == 0 && b[..n] == Print(v, 0, false)
  {
    hide Print, Clean, Minify, Closed;
    b := PrintBuffered(v, prebuffer, false);
    a := PrintValue(v, 0, true);
    PrintNoNul(v, 0, true);
    PrintersAgree(v, true);
    var closed;
    n, closed := MinifyInPlace(a, |Print(v, 0, true)|);
  }
}
