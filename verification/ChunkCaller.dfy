/** What a caller of the sender has to see to, in the caller's own terms, and how the bytes of a header are laid out. */
module ChunkCaller {
  import opened Bytes
  import opened ChunkFormat
  import opened ChunkReading
  import opened ChunkRoundTrip
  import opened ChunkLimits

  predicate SameKind(p: Header, h: Header) {
    p.bodySize == h.bodySize && p.typ == h.typ
  }

  /** A packet of the size, type and time of the one before. */
  predicate Repeats(p: Header, h: Header) {
    SameKind(p, h) && p.timestamp == h.timestamp
  }

  /** Which packets have a header the reader understands: full ones; and with the stream id of the channel, those sent
    * without it that do not repeat the last packet, unless its own time field was 0. A caller that leaves out more must
    * know that size and type, and for the shortest form the time step, are those of the last packet. */
  lemma FaithfulInCallerTerms(s: SenderState, h: Header)
    requires 0 <= h.fmt <= 3
    ensures
      HeaderFaithful(s, h) <==>
      || h.fmt == 0
      || (&& Prev(s, h.channel).Some?
          && var p, field := Prev(s, h.channel).value, s.past[h.channel].wireTime;
             && p.info == h.info
             && (h.fmt >= 2 ==> SameKind(p, h))
             && (h.fmt <= 2 && Repeats(p, h) ==> field == 0)
             && (h.fmt == 3 ==> field < 0xffffff && (p.timestamp + field) % TWO32 == h.timestamp))
  {
  }

  /** The form that goes out for a packet sent without its stream id: without size and type exactly when both are those
    * of the last packet, and without the time exactly when that repeats, too. */
  lemma CompressionExact(s: SenderState, e: Event)
    requires WellFormed(s, e) && EventHeader(e).fmt <= 1
    ensures
      var h := EventHeader(e);
      var p := Prev(s, h.channel);
      Wire(s, e)[0] / 64 ==
      if h.fmt == 0 then 0
      else if p.None? || !SameKind(p.value, h) then 1
      else if !Repeats(p.value, h) then 2 else 3
  {
    hide Continuations, MessageHeader;
  }

  // ---------- whole runs ----------

  /** The last packet sent on a channel. */
  function LastSent(es: seq<Event>, ch: int): Option<Header> {
    if es == [] then None
    else if EventHeader(es[|es| - 1]).channel == ch then Some(EventHeader(es[|es| - 1]))
    else LastSent(es[..|es| - 1], ch)
  }

  /** The chunk size: 128 until the first announcement. */
  function SizeAfter(es: seq<Event>): int {
    if es == [] then 128 else if es[|es| - 1].Announce? then 32768 else SizeAfter(es[..|es| - 1])
  }

  /** A packet a caller may send: full, or without the stream id when the channel's last packet had the same and is not
    * repeated in size, type and time; not announcing another chunk size itself; and in one chunk when its time, or
    * time step, needs more than three bytes. */
  predicate CallerRule(before: seq<Event>, e: Event) {
    e.Announce? ||
    var h, p := e.header, LastSent(before, e.header.channel);
    && 2 <= h.channel <= 65599 && h.bodySize == |e.body| < 0x100_0000
    && (h.typ == 1 && |e.body| >= 4 ==> AsSigned(DecodeInt32(e.body)) == SizeAfter(before))
    && (h.fmt == 0 || (h.fmt == 1 && p.Some? && p.value.info == h.info && !Repeats(p.value, h)))
    && var step := if h.fmt == 0 then h.timestamp else (h.timestamp - p.value.timestamp) % TWO32;
       step < 0xffffff || |e.body| <= SizeAfter(before)
  }

  ghost predicate CallerRun(before: seq<Event>, es: seq<Event>) {
    forall i :: 0 <= i < |es| ==> CallerRule(before + es[..i], es[i])
  }

  /** The sender remembers of every channel what its caller sent last, up to the form it went out in. */
  ghost predicate Remembers(s: SenderState, before: seq<Event>) {
    && s.chunkSize == SizeAfter(before)
    && forall ch ::
         match LastSent(before, ch)
         case None => Prev(s, ch) == None
         case Some(h) => Prev(s, ch).Some? && Prev(s, ch).value.(fmt := h.fmt) == h
  }

  lemma {:induction false} SizesSent(es: seq<Event>)
    ensures SizeAfter(es) == 128 || SizeAfter(es) == 32768
  {
    if es != [] {
      SizesSent(es[..|es| - 1]);
    }
  }

  lemma RuleIsFaithful(s: SenderState, before: seq<Event>, e: Event)
    requires Remembers(s, before) && CallerRule(before, e)
    ensures WellFormed(s, e) && Faithful(s, e) && Remembers(After(s, e), before + [e])
  {
    SizesSent(before);
    assert (before + [e])[..|before|] == before;
    if e.Send? {
      FaithfulInCallerTerms(s, e.header);
    }
  }

  lemma {:induction false} CallerRunFaithful(s: SenderState, before: seq<Event>, es: seq<Event>)
    requires Remembers(s, before) && CallerRun(before, es)
    ensures AllFaithful(s, es)
    decreases |es|
  {
    hide Remembers, CallerRule, Faithful, WellFormed, After;
    if es != [] {
      var e, rest := es[0], es[1..];
      assert before + es[..0] == before;
      RuleIsFaithful(s, before, e);
      forall i | 0 <= i < |rest|
        ensures CallerRule(before + [e] + rest[..i], rest[i])
      {
        assert before + [e] + rest[..i] == before + es[..i + 1];
      }
      CallerRunFaithful(After(s, e), before + [e], rest);
    }
  }

  lemma NothingSent()
    ensures Remembers(START, [])
  {
  }

  /** Whatever a caller sends by these rules on a fresh connection, and however often the chunk size is announced, the
    * reader gets exactly these packets, in order. */
  lemma CallerRoundTrip(es: seq<Event>)
    requires CallerRun([], es)
    ensures AllFaithful(START, es)
    ensures Receive(Tables([], [], 128), BLANK, WireOf(START, es)) == Received(AllExpected(es), true)
  {
    hide Remembers, CallerRun, AllFaithful, WireOf, Receive, AllExpected;
    NothingSent();
    CallerRunFaithful(START, [], es);
    FreshConnectionRoundTrip(es);
  }

  // ---------- the bytes of a header ----------

  function BigEndian3(b: seq<byte>, at: nat): int
    requires at + 3 <= |b|
  {
    b[at] as int * 65536 + b[at + 1] as int * 256 + b[at + 2] as int
  }

  function BigEndian4(b: seq<byte>, at: nat): int
    requires at + 4 <= |b|
  {
    b[at] as int * 16777216 + BigEndian3(b, at + 1)
  }

  /** The basic header, section 5.3.1.1 of RTMP 1.0: the form in the two highest bits, then the channel in six bits, one
    * byte or two. */
  lemma BasicHeaderBytes(fmt: HeaderType, ch: int)
    requires ValidChannel(ch)
    ensures
      var b := BasicHeader(fmt, ch);
      && b[0] / 64 == fmt
      && (ch <= 63 ==> |b| == 1 && b[0] % 64 == ch)
      && (64 <= ch <= 319 ==> |b| == 2 && b[0] % 64 == 0 && b[1] as int == ch - 64)
      && (320 <= ch ==> |b| == 3 && b[0] % 64 == 1 && b[1] as int + 256 * b[2] as int == ch - 64)
  {
  }

  /** The message header, section 5.3.1.2: time, length and type, and the stream id with its lowest byte first; a time
    * of three full bytes or more is written as 0xffffff and follows in four bytes. */
  lemma MessageHeaderBytes(fmt: HeaderType, t: uint32, h: Header)
    requires h.bodySize < 0x100_0000
    ensures
      var b, extra := MessageHeader(fmt, t, h), fmt <= 2 && t >= 0xffffff;
      && |b| == (if fmt == 0 then 11 else if fmt == 1 then 7 else if fmt == 2 then 3 else 0) + (if extra then 4 else 0)
      && (fmt <= 2 ==> BigEndian3(b, 0) == if extra then 0xffffff else t)
      && (fmt <= 1 ==> BigEndian3(b, 3) == h.bodySize && b[6] == h.typ)
      && (fmt == 0 ==> b[7] as int + b[8] as int * 256 + b[9] as int * 65536 + b[10] as int * 16777216 == h.info)
      && (extra ==> BigEndian4(b, |b| - 4) == t)
  {
    Digits3(Min(t, 0xffffff));
    Digits3(h.bodySize);
    Digits4(h.info);
    Digits4(t);
    hide Int24, Int32, Int32LE;
    var b := MessageHeader(fmt, t, h);
    if fmt <= 2 {
      assert b[..3] == Int24(Min(t, 0xffffff));
    }
    if fmt <= 1 {
      assert b[3..6] == Int24(h.bodySize);
    }
    if fmt == 0 {
      assert b[7..11] == Int32LE(h.info);
    }
    if Extended(fmt, t) {
      assert b[|b| - 4..] == Int32(t);
    }
  }

  lemma Digits3(v: nat)
    requires v < 0x100_0000
    ensures BigEndian3(Int24(v), 0) == v
  {
  }

  lemma Digits4(v: uint32)
    ensures BigEndian4(Int32(v), 0) == v
    ensures
      var b := Int32LE(v);
      b[0] as int + b[1] as int * 256 + b[2] as int * 65536 + b[3] as int * 16777216 == v
  {
    assert v / 0x100 / 0x100 == v / 0x1_0000 && v / 0x1_0000 / 0x100 == v / 0x100_0000;
  }

  /** A continuation chunk starts with three in the two highest bits and the same channel. */
  lemma ContinuationBytes(ch: int, body: seq<byte>, n: int)
    requires ValidChannel(ch) && n >= 1 && body != []
    ensures
      var b := Continuations(ch, body, n);
      && BasicHeader(3, ch) <= b && b[0] / 64 == 3
      && var k := Min(n, |body|); b[1 + ChannelBytes(ch)..][..k] == body[..k]
  {
    hide BasicHeader;
    BasicHeaderBytes(3, ch);
    var k, header := Min(n, |body|), BasicHeader(3, ch);
    var more := Continuations(ch, body[k..], n);
    assert Continuations(ch, body, n) == header + body[..k] + more;
    assert (header + body[..k] + more)[|header|..] == body[..k] + more;
  }

  // ---------- a run of the program ----------

  /** The report of the bytes read, sent on the channel of the chunk-size announcement and with its size and time. */
  const REPORT := Send(Header(MEDIUM, 2, 3, 0, 0, 4), [0, 0, 16, 0])

  /** It keeps its type on the wire, and the reader gets both messages. */
  lemma ReportAfterAnnouncement()
    ensures
      var s := After(START, Announce);
      WellFormed(s, REPORT) && Wire(s, REPORT) == [66, 0, 0, 0, 0, 0, 4, 3] + [0, 0, 16, 0]
    ensures AllFaithful(START, [Announce, REPORT])
    ensures
      Receive(Tables([], [], 128), BLANK, WireOf(START, [Announce, REPORT])) ==
      Received([Expected(Announce), Expected(REPORT)], true)
  {
    hide CallerRun, AllFaithful, WireOf, Receive, AllExpected, Wire, WellFormed, After;
    ReportRule();
    CallerRoundTrip([Announce, REPORT]);
    BothExpected(Announce, REPORT);
    ReportBytes();
  }

  lemma BothExpected(d: Event, e: Event)
    ensures AllExpected([d, e]) == [Expected(d), Expected(e)]
  {
    hide Expected;
    assert [d, e][1..] == [e] && [e][1..] == [];
    assert AllExpected([e]) == [Expected(e)] + AllExpected([]);
  }

  lemma ReportRule()
    ensures CallerRun([], [Announce, REPORT])
  {
    var es := [Announce, REPORT];
    assert LastSent([Announce], 2) == Some(ChunkSizeHeader());
    forall i | 0 <= i < |es|
      ensures CallerRule([] + es[..i], es[i])
    {
      if i == 1 {
        assert [] + es[..i] == [Announce];
      }
    }
  }

  lemma ReportBytes()
    ensures
      var s := After(START, Announce);
      WellFormed(s, REPORT) && Wire(s, REPORT) == [66, 0, 0, 0, 0, 0, 4, 3] + [0, 0, 16, 0]
  {
    var body: seq<byte> := [0, 0, 16, 0];
    assert body[..4] == body && body[4..] == [];
    assert Continuations(2, [], 32768) == [];
  }

  /** A completed message of type 1 with four bytes or more sets the size of the chunks to come to the number that its
    * first four bytes spell, highest first and with a sign; any other message leaves it alone. */
  lemma AnnouncedSize(tb: Tables, p: InPacket)
    requires p.Ready() && HasBody(p)
    ensures
      var r := Handle(tb, p);
      && r == tb.(chunkSize := r.chunkSize)
      && if p.typ == 1 && p.bodySize >= 4 then
           -0x8000_0000 <= r.chunkSize < 0x8000_0000
           && (r.chunkSize - BigEndian4(p.body.value, 0)) % 0x1_0000_0000 == 0
         else r.chunkSize == tb.chunkSize
  {
    if p.typ == 1 && p.bodySize >= 4 {
      FourBytes(p.body.value);
    }
  }

  lemma FourBytes(b: seq<byte>)
    requires |b| >= 4
    ensures BigEndian4(b, 0) == DecodeInt32(b)
  {
  }
}
