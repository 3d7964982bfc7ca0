/**
 The reader inverts the sender over whole runs, and the exact conditions under which one message survives.
 */
module ChunkRoundTrip {
  import opened Bytes
  import opened ChunkFormat
  import opened ChunkReading

  /** What the sender remembers of a channel: its last packet, and the last time field it put on the wire. */
  datatype Past = Past(last: Header, wireTime: uint32)

  datatype SenderState = SenderState(past: map<int, Past>, chunkSize: int)

  function Prev(s: SenderState, ch: int): Option<Header> {
    if ch in s.past then Some(s.past[ch].last) else None
  }

  datatype Event =
    | Send(header: Header, body: seq<byte>)  // RTMP_SendPacket
    | Announce                               // RTMP_SendChunkSize

  function EventHeader(e: Event): Header {
    match e
    case Send(h, _) => h
    case Announce => ChunkSizeHeader()
  }

  function EventBody(e: Event): seq<byte> {
    match e
    case Send(_, body) => body
    case Announce => ChunkSizeBody()
  }

  /** The chunk size a message is split with: the announcement is already sent with the new one. */
  function EventChunkSize(s: SenderState, e: Event): int {
    if e.Announce? then 32768 else s.chunkSize
  }

  function After(s: SenderState, e: Event): SenderState {
    var h := EventHeader(e);
    var prev := Prev(s, h.channel);
    var fmt := FinalFmt(prev, h);
    var sent := h.(fmt := fmt);
    var wireTime := if fmt == MINIMUM && prev.Some? then s.past[h.channel].wireTime else WireTime(prev, h);
    SenderState(s.past[h.channel := Past(sent, wireTime)], EventChunkSize(s, e))
  }

  /** What RTMP_SendPacket demands of its caller. */
  predicate WellFormed(s: SenderState, e: Event) {
    var h := EventHeader(e);
    && ValidChannel(h.channel) && s.chunkSize >= 1
    && 0 <= h.fmt <= 3 && 0 <= FinalFmt(Prev(s, h.channel), h) <= 3
    && h.bodySize == |EventBody(e)| < 0x100_0000
  }

  function Wire(s: SenderState, e: Event): seq<byte>
    requires WellFormed(s, e)
  {
    var h := EventHeader(e);
    Message(Prev(s, h.channel), h, EventBody(e), EventChunkSize(s, e))
  }

  function Expected(e: Event): Delivered {
    var h := EventHeader(e);
    Delivered(h.typ, h.channel, h.timestamp, h.info, EventBody(e))
  }

  /**
   When one message's header denotes the packet for a reader that has followed the channel. A compressed
   header needs history with the same stream id; SMALL and MINIMUM need the same size and type; and a message
   opened by the 1-byte header gets the last time field added again, so that field must be the wanted delta.
   */
  predicate HeaderFaithful(s: SenderState, h: Header) {
    var prev := Prev(s, h.channel);
    var fmt := FinalFmt(prev, h);
    || fmt == LARGE
    || (&& prev.Some? && prev.value.info == h.info
        && (|| fmt == MEDIUM
            || (&& prev.value.bodySize == h.bodySize && prev.value.typ == h.typ
                && (|| fmt == SMALL
                    || (&& s.past[h.channel].wireTime < 0xffffff
                        && s.past[h.channel].wireTime == WireTime(prev, h))))))
  }

  /** An extended time is repeated on no continuation chunk, though the reader expects it on each. */
  predicate NotSplitExtended(s: SenderState, e: Event) {
    var h := EventHeader(e);
    var prev := Prev(s, h.channel);
    var fmt := FinalFmt(prev, h);
    0 <= fmt <= 3 && Extended(fmt, WireTime(prev, h)) ==> h.bodySize <= EventChunkSize(s, e)
  }

  /** The reader's chunk size must follow: only RTMP_SendChunkSize changes it, and that in one old chunk. */
  predicate ChunkSizeFaithful(s: SenderState, e: Event) {
    match e
    case Announce => s.chunkSize >= 4
    case Send(h, body) => h.typ == CHUNK_SIZE_TYPE && |body| >= 4 ==> AsSigned(DecodeInt32(body)) == s.chunkSize
  }

  predicate Faithful(s: SenderState, e: Event) {
    HeaderFaithful(s, EventHeader(e)) && NotSplitExtended(s, e) && ChunkSizeFaithful(s, e)
  }

  /** The reader's entry for a channel agrees with the sender's memory of it. */
  predicate SyncedOn(past: Past, stored: Option<InPacket>, absTime: uint32, ch: int) {
    && stored.Some?
    && var p := stored.value;
       && p.channel == ch && p.typ == past.last.typ && p.info == past.last.info
       && p.bodySize == past.last.bodySize && p.body.None? && p.bytesRead == 0 && !p.hasAbs
       && p.timestamp == Min(past.wireTime, 0xffffff) && absTime == past.last.timestamp
  }

  ghost predicate Synced(s: SenderState, tb: Tables) {
    && tb.chunkSize == s.chunkSize
    && forall ch :: ch in s.past ==> SyncedOn(s.past[ch], Stored(tb, ch), AbsTime(tb, ch), ch)
  }

  // ---------- parsing the pieces ----------

  lemma BasicHeaderRoundTrip(fmt: HeaderType, ch: int, x: seq<byte>)
    requires ValidChannel(ch)
    ensures ReadBasicHeader(BasicHeader(fmt, ch) + x) == Some(BasicHeaderRead(fmt, ch, x))
  {
    var w := BasicHeader(fmt, ch) + x;
    assert w[1 + ChannelBytes(ch)..] == x;
  }

  /** What reading the message header leaves in a packet that started as `p`. */
  function HeaderApplied(p: InPacket, fmt: HeaderType, t: uint32, h: Header): InPacket
    requires h.bodySize < 0x100_0000
  {
    if fmt == LARGE then
      p.(timestamp := t, bodySize := h.bodySize, bytesRead := 0, body := None, typ := h.typ, info := h.info)
    else if fmt == MEDIUM then p.(timestamp := t, bodySize := h.bodySize, bytesRead := 0, body := None, typ := h.typ)
    else if fmt == SMALL then p.(timestamp := t)
    else p
  }

  lemma MessageHeaderRoundTrip(p: InPacket, fmt: HeaderType, t: uint32, h: Header, x: seq<byte>)
    requires h.bodySize < 0x100_0000
    requires fmt == MINIMUM ==> p.timestamp != 0xffffff
    ensures ReadHeader(p, fmt, MessageHeader(fmt, t, h) + x)
      == Some(HeaderRead(HeaderApplied(p, fmt, t, h), Extended(fmt, t), x))
  {
    var w := MessageHeader(fmt, t, h) + x;
    var n := PacketSize(fmt) - 1;
    var e: seq<byte> := if Extended(fmt, t) then Int32(t) else [];
    assert w[n..] == e + x;
    FieldsRoundTrip(p, fmt, t, h, w);
    if Extended(fmt, t) {
      IntRoundTrip(t, x);
      assert w[n..][4..] == x;
    }
  }

  lemma FieldsRoundTrip(p: InPacket, fmt: HeaderType, t: uint32, h: Header, w: seq<byte>)
    requires h.bodySize < 0x100_0000 && MessageHeader(fmt, t, h) <= w
    ensures ReadFields(p, fmt, w) == HeaderApplied(p, fmt, if fmt == MINIMUM then t else Min(t, 0xffffff), h)
  {
    if fmt <= SMALL {
      IntRoundTrip(Min(t, 0xffffff), []);
      assert w[..3] == Int24(Min(t, 0xffffff));
    }
    if fmt <= MEDIUM {
      IntRoundTrip(h.bodySize, []);
      assert w[3..6] == Int24(h.bodySize);
      assert w[6] == h.typ;
    }
    if fmt == LARGE {
      IntRoundTrip(h.info, []);
      assert w[7..11] == Int32LE(h.info);
    }
  }

  // ---------- reading one chunk ----------

  /** A chunk whose header is read back in full and whose body bytes are all there. */
  lemma ReadOneChunk(tb: Tables, pkt: InPacket, fmt: HeaderType, t: uint32, h: Header, bytes: seq<byte>,
                     tail: seq<byte>)
    requires ValidChannel(h.channel) && h.bodySize < 0x100_0000
    requires fmt == MINIMUM ==> StartFrom(tb, pkt, fmt, h.channel).timestamp != 0xffffff
    requires var p := Allocate(HeaderApplied(StartFrom(tb, pkt, fmt, h.channel), fmt, t, h), fmt);
      |bytes| == Min(tb.chunkSize, p.bodySize - p.bytesRead)
    ensures var p := Allocate(HeaderApplied(StartFrom(tb, pkt, fmt, h.channel), fmt, t, h), fmt);
      ReadChunk(tb, pkt, FullHeader(fmt, t, h) + (bytes + tail))
      == Keep(Grow(tb, h.channel), h.channel, Fill(p, bytes), Extended(fmt, t), tail)
  {
    hide BasicHeader, MessageHeader, ReadHeader, ReadBasicHeader, Keep, Grow, Allocate, Fill, HeaderApplied;
    var x := bytes + tail;
    var w := FullHeader(fmt, t, h) + x;
    assert w == BasicHeader(fmt, h.channel) + (MessageHeader(fmt, t, h) + x);
    BasicHeaderRoundTrip(fmt, h.channel, MessageHeader(fmt, t, h) + x);
    var tb1 := Grow(tb, h.channel);
    assert StartFrom(tb1, pkt, fmt, h.channel) == StartFrom(tb, pkt, fmt, h.channel);
    MessageHeaderRoundTrip(StartFrom(tb, pkt, fmt, h.channel), fmt, t, h, x);
    assert x[..|bytes|] == bytes && x[|bytes|..] == tail;
  }

  /** The packet with its whole body. */
  function Whole(p: InPacket, body: seq<byte>): InPacket
    requires p.bodySize == |body|
  {
    p.(body := if body == [] then p.body else Some(body), bytesRead := |body|)
  }

  /** The channel's packet holds the first `bytesRead` bytes of `body`. */
  predicate Partial(p: InPacket, body: seq<byte>) {
    && p.bodySize == |body| && p.bytesRead <= |body| && p.body.Some?
    && p.body.value[..p.bytesRead] == body[..p.bytesRead]
  }

  lemma FillPartial(p: InPacket, body: seq<byte>, k: nat)
    requires Partial(p, body) && p.bytesRead + k <= |body|
    ensures Fill(p, body[p.bytesRead..p.bytesRead + k]) == p.(body := Fill(p, body[p.bytesRead..p.bytesRead + k]).body,
                                                              bytesRead := p.bytesRead + k)
    ensures Partial(Fill(p, body[p.bytesRead..p.bytesRead + k]), body)
    ensures p.bytesRead + k == |body| ==> Fill(p, body[p.bytesRead..]) == Whole(p, body)
  {
    var at := p.bytesRead;
    var bytes := body[at..at + k];
    assert body[..at] + bytes == body[..at + k];
    if at + k == |body| {
      assert body[at..] == bytes;
      assert body[..at] + bytes == body;
      assert p.body.value[at + k..] == [];
      if bytes == [] {
        assert p.body.value[..at] == p.body.value && body[..at] == body;
      } else {
        assert body + p.body.value[at + k..] == body;
      }
    }
  }

  lemma ReadOneContinuation(tb: Tables, pkt: InPacket, ch: int, s: InPacket, rest: seq<byte>, tail: seq<byte>)
    requires ValidChannel(ch) && tb.chunkSize >= 1 && Stored(tb, ch) == Some(s)
    requires s.timestamp != 0xffffff && s.body.Some? && rest != [] && s.bytesRead + |rest| == s.bodySize
    ensures var k := Min(tb.chunkSize, |rest|);
      ReadChunk(tb, pkt, Continuations(ch, rest, tb.chunkSize) + tail)
      == Keep(tb, ch, Fill(s, rest[..k]), false, Continuations(ch, rest[k..], tb.chunkSize) + tail)
  {
    hide FullHeader, BasicHeader, MessageHeader, ReadChunk, Fill, Grow, Keep, Continuations;
    var n, k := tb.chunkSize, Min(tb.chunkSize, |rest|);
    var more := Continuations(ch, rest[k..], n) + tail;
    var h := Header(MINIMUM, ch, 0, 0, 0, 0);
    ContinuationShape(ch, rest, n, h, tail);
    ReadOneChunk(tb, pkt, MINIMUM, 0, h, rest[..k], more);
    GrowInside(tb, ch);
  }

  /** The continuation chunks complete the packet they belong to. */
  lemma {:induction false} ReadContinuations(tb: Tables, pkt: InPacket, ch: int, s: InPacket, body: seq<byte>,
                                             tail: seq<byte>)
    requires ValidChannel(ch) && tb.chunkSize >= 1 && Stored(tb, ch) == Some(s)
    requires Partial(s, body) && s.bytesRead < |body| && s.timestamp != 0xffffff
    ensures ReadMessage(tb, pkt, Continuations(ch, body[s.bytesRead..], tb.chunkSize) + tail)
      == Keep(tb, ch, Whole(s, body), false, tail)
    decreases |body| - s.bytesRead
  {
    hide ReadChunk, Fill;
    var n, at := tb.chunkSize, s.bytesRead;
    var rest := body[at..];
    var k := Min(n, |rest|);
    ReadOneContinuation(tb, pkt, ch, s, rest, tail);
    FillPartial(s, body, k);
    assert rest[..k] == body[at..at + k] && rest[k..] == body[at + k..];
    var p := Fill(s, rest[..k]);
    if at + k < |body| {
      var tb' := tb.(stored := tb.stored[ch := Some(p)]);
      ReadContinuations(tb', p.(body := None), ch, p, body, tail);
    } else {
      assert rest[k..] == [] && rest[..k] == rest;
      assert Continuations(ch, rest[k..], n) + tail == tail;
    }
  }

  lemma GrowInside(tb: Tables, ch: nat)
    requires ch < |tb.stored|
    ensures Grow(tb, ch) == tb
  {
  }

  lemma Regroup(a: seq<byte>, b: seq<byte>, c: seq<byte>, d: seq<byte>)
    ensures a + b + c + d == a + (b + (c + d))
  {
  }

  lemma ContinuationShape(ch: int, rest: seq<byte>, n: int, h: Header, tail: seq<byte>)
    requires ValidChannel(ch) && n >= 1 && rest != [] && h.channel == ch
    ensures var k := Min(n, |rest|);
      Continuations(ch, rest, n) + tail
      == FullHeader(MINIMUM, 0, h) + (rest[..k] + (Continuations(ch, rest[k..], n) + tail))
  {
    var k := Min(n, |rest|);
    var b, c := BasicHeader(MINIMUM, ch), Continuations(ch, rest[k..], n);
    assert FullHeader(MINIMUM, 0, h) == b by {
      assert MessageHeader(MINIMUM, 0, h) == [];
    }
    assert Continuations(ch, rest, n) == b + rest[..k] + c;
    Regroup(b, rest[..k], c, tail);
  }

  // ---------- one message ----------

  /** The packet a message header opens, for a reader whose channel entry is `start`. */
  function Opened(start: InPacket, fmt: HeaderType, t: uint32, h: Header): InPacket
    requires h.bodySize < 0x100_0000
  {
    Allocate(HeaderApplied(start, fmt, t, h), fmt)
  }

  /** A whole message, read from its first chunk to its last, leaves the opened packet with its whole body. */
  lemma ReadWholeMessage(tb: Tables, pkt: InPacket, fmt: HeaderType, t: uint32, h: Header, body: seq<byte>, n: int,
                         tail: seq<byte>)
    requires ValidChannel(h.channel) && h.bodySize == |body| < 0x100_0000
    requires tb.chunkSize >= 1 && n >= 1
    requires n == tb.chunkSize || |body| <= Min(n, tb.chunkSize)
    requires var start := StartFrom(tb, pkt, fmt, h.channel);
      && (fmt == MINIMUM ==> start.timestamp != 0xffffff)
      && var p := Opened(start, fmt, t, h);
         && p.bodySize == |body| && p.bytesRead == 0 && (body != [] ==> p.body.Some?) && p.channel == h.channel
         && (Extended(fmt, t) || p.timestamp == 0xffffff ==> |body| <= n)
    ensures ReadMessage(tb, pkt, Chunked(FullHeader(fmt, t, h), h.channel, body, n) + tail)
      == Keep(Grow(tb, h.channel), h.channel, Whole(Opened(StartFrom(tb, pkt, fmt, h.channel), fmt, t, h), body),
              Extended(fmt, t), tail)
  {
    hide FullHeader, BasicHeader, MessageHeader, ReadChunk, Grow, Allocate, HeaderApplied, StartFrom, Continuations;
    var ch, k := h.channel, Min(n, |body|);
    var p := Opened(StartFrom(tb, pkt, fmt, ch), fmt, t, h);
    var more := Continuations(ch, body[k..], n) + tail;
    assert Chunked(FullHeader(fmt, t, h), ch, body, n) + tail == FullHeader(fmt, t, h) + (body[..k] + more);
    ReadOneChunk(tb, pkt, fmt, t, h, body[..k], more);
    var p1 := Fill(p, body[..k]);
    if k == |body| {
      assert body[k..] == [] && body[..k] == body;
      NoContinuations(ch, n, tail);
      if body != [] {
        FillPartial(p, body, k);
      }
    } else {
      FillPartial(p, body, k);
      var tb1 := Grow(tb, ch);
      var tb2 := tb1.(stored := tb1.stored[ch := Some(p1)]);
      ReadContinuations(tb2, p1.(body := None), ch, p1, body, tail);
    }
  }

  lemma NoContinuations(ch: int, n: int, tail: seq<byte>)
    requires ValidChannel(ch) && n >= 1
    ensures Continuations(ch, [], n) + tail == tail
  {
  }

  /** Absolute time of a packet that has just been completed. */
  function CompletedTime(p: InPacket, absTime: uint32): uint32 {
    if p.hasAbs then p.timestamp else (p.timestamp + absTime) % TWO32
  }

  /** The packet opened by a message header is the one the sender meant. */
  predicate Denotes(p: InPacket, absTime: uint32, h: Header) {
    && p.typ == h.typ && p.channel == h.channel && p.info == h.info
    && p.bodySize == h.bodySize && p.bytesRead == 0 && p.body.None?
    && CompletedTime(p, absTime) == h.timestamp
  }

  /** Neither side has used the channel, and the caller's packet holds no body. */
  predicate Unopened(tb: Tables, pkt: InPacket, ch: int) {
    Stored(tb, ch).None? && AbsTime(tb, ch) == 0 && pkt.bytesRead == 0 && pkt.body.None?
  }

  /**
   A header survives when it is faithful; a compressed one on a fresh channel is completed from whatever the
   caller's packet still holds, so that must be what the sender meant.
   */
  predicate HeaderReadable(s: SenderState, pkt: InPacket, h: Header) {
    if Prev(s, h.channel).Some? || h.fmt == LARGE then HeaderFaithful(s, h)
    else
      && pkt.info == h.info
      && (|| h.fmt == MEDIUM
          || (&& pkt.bodySize == h.bodySize && pkt.typ == h.typ
              && (h.fmt == SMALL || (pkt.timestamp == h.timestamp && h.timestamp != 0xffffff))))
  }

  /** The message header is parsed to its end, and to the packet that was meant. */
  predicate Denoted(start: InPacket, absTime: uint32, fmt: HeaderType, t: uint32, h: Header)
    requires h.bodySize < 0x100_0000
  {
    (fmt == MINIMUM ==> start.timestamp != 0xffffff) && Denotes(HeaderApplied(start, fmt, t, h), absTime, h)
  }

  lemma OpenedBySyncedReader(s: SenderState, tb: Tables, pkt: InPacket, h: Header)
    requires ValidChannel(h.channel) && h.bodySize < 0x100_0000 && Synced(s, tb)
    requires 0 <= FinalFmt(Prev(s, h.channel), h) <= 3 && 0 <= h.fmt <= 3
    requires Prev(s, h.channel).None? && h.fmt != LARGE ==> Unopened(tb, pkt, h.channel)
    ensures
      var fmt, t := FinalFmt(Prev(s, h.channel), h), WireTime(Prev(s, h.channel), h);
      var start := StartFrom(tb, pkt, fmt, h.channel);
      Denoted(start, AbsTime(tb, h.channel), fmt, t, h) <==> HeaderReadable(s, pkt, h)
  {
  }

  /**
   Exactly which headers survive: a reader that has followed the channel parses the message header back to
   the packet that was meant, and stops right behind it, if and only if the header is readable.
   */
  lemma HeaderExact(s: SenderState, tb: Tables, pkt: InPacket, h: Header, x: seq<byte>)
    requires ValidChannel(h.channel) && h.bodySize < 0x100_0000 && Synced(s, tb)
    requires 0 <= FinalFmt(Prev(s, h.channel), h) <= 3 && 0 <= h.fmt <= 3
    requires Prev(s, h.channel).None? && h.fmt != LARGE ==> Unopened(tb, pkt, h.channel)
    ensures
      var fmt, t := FinalFmt(Prev(s, h.channel), h), WireTime(Prev(s, h.channel), h);
      var r := ReadHeader(StartFrom(tb, pkt, fmt, h.channel), fmt, MessageHeader(fmt, t, h) + x);
      r.Some? && r.value.rest == x && Denotes(r.value.packet, AbsTime(tb, h.channel), h)
      <==> HeaderReadable(s, pkt, h)
  {
    var fmt, t := FinalFmt(Prev(s, h.channel), h), WireTime(Prev(s, h.channel), h);
    var start := StartFrom(tb, pkt, fmt, h.channel);
    OpenedBySyncedReader(s, tb, pkt, h);
    if fmt == MINIMUM && start.timestamp == 0xffffff {
      assert MessageHeader(fmt, t, h) + x == x;
    } else {
      hide HeaderReadable, Denotes, HeaderApplied, ReadHeader, MessageHeader;
      MessageHeaderRoundTrip(start, fmt, t, h, x);
    }
  }

  lemma GrowKeeps(tb: Tables, ch: nat)
    ensures Stored(Grow(tb, ch), ch) == Stored(tb, ch) && AbsTime(Grow(tb, ch), ch) == AbsTime(tb, ch)
    ensures ch < |Grow(tb, ch).stored|
  {
  }

  /** What keeping a completed packet leaves: the packet with its absolute time, and synced tables. */
  lemma KeepSynced(s: SenderState, tb: Tables, tb1: Tables, p: InPacket, e: Event, extended: bool, tail: seq<byte>)
    requires WellFormed(s, e) && tb1 == Grow(tb, EventHeader(e).channel)
    requires forall ch :: ch in s.past ==> SyncedOn(s.past[ch], Stored(tb, ch), AbsTime(tb, ch), ch)
    requires var h := EventHeader(e);
      && Denotes(p.(bytesRead := 0, body := None), AbsTime(tb, h.channel), h)
      && p.bytesRead == p.bodySize
      && p.body == (if EventBody(e) == [] then None else Some(EventBody(e)))
      && (if extended then After(s, e).past[h.channel].wireTime >= 0xffffff
          else p.timestamp == After(s, e).past[h.channel].wireTime < 0xffffff)
    ensures var r := Keep(tb1, EventHeader(e).channel, p, extended, tail);
      && r.Chunk? && r.packet.Ready() && r.rest == tail && Deliver(r.packet) == Expected(e)
      && r.packet.typ == EventHeader(e).typ && r.packet.body == p.body && r.packet.bodySize == p.bodySize
      && r.tables.chunkSize == tb1.chunkSize
      && forall ch :: ch in After(s, e).past ==>
           SyncedOn(After(s, e).past[ch], Stored(r.tables, ch), AbsTime(r.tables, ch), ch)
  {
    hide FinalFmt, WireTime;
    var h := EventHeader(e);
    GrowKeeps(tb, h.channel);
  }

  /** The packet a readable header opens has everything that reading and keeping the message asks for. */
  lemma OpenedForEvent(s: SenderState, e: Event, tb: Tables, pkt: InPacket)
    requires WellFormed(s, e) && Synced(s, tb) && Readable(s, e, tb, pkt)
    ensures
      var h := EventHeader(e);
      var fmt, t := FinalFmt(Prev(s, h.channel), h), WireTime(Prev(s, h.channel), h);
      var start, wireTime := StartFrom(tb, pkt, fmt, h.channel), After(s, e).past[h.channel].wireTime;
      var p := Opened(start, fmt, t, h);
      && (fmt == MINIMUM ==> start.timestamp != 0xffffff) && p.channel == h.channel
      && Denotes(p.(body := None), AbsTime(tb, h.channel), h) && p.body.Some? == (h.bodySize > 0)
      && (if Extended(fmt, t) then wireTime >= 0xffffff else p.timestamp == wireTime < 0xffffff)
  {
    OpenedBySyncedReader(s, tb, pkt, EventHeader(e));
  }

  /** A message is readable when its header is, no extended time is split and the reader knows the chunk size. */
  predicate Readable(s: SenderState, e: Event, tb: Tables, pkt: InPacket) {
    var h := EventHeader(e);
    && HeaderReadable(s, pkt, h) && NotSplitExtended(s, e) && ChunkSizeFaithful(s, e)
    && (Prev(s, h.channel).None? && h.fmt != LARGE ==>
          Unopened(tb, pkt, h.channel) && (h.fmt == MINIMUM ==> h.timestamp < 0xffffff))
  }

  lemma FaithfulIsReadable(s: SenderState, e: Event, tb: Tables, pkt: InPacket)
    requires Faithful(s, e)
    ensures Readable(s, e, tb, pkt)
  {
  }

  /** One sent message, whatever follows it, is read back as the packet that was sent. */
  lemma EventRoundTrip(s: SenderState, e: Event, tb: Tables, pkt: InPacket, tail: seq<byte>)
    requires WellFormed(s, e) && Synced(s, tb) && Readable(s, e, tb, pkt)
    ensures
      var r := ReadMessage(tb, pkt, Wire(s, e) + tail);
      r.Chunk? && r.rest == tail && Deliver(r.packet) == Expected(e) && Synced(After(s, e), Handle(r.tables, r.packet))
  {
    hide ReadMessage, Chunked, FullHeader, Continuations, HeaderReadable, StartFrom, Allocate, HeaderApplied, Keep;
    hide SyncedOn, Deliver, FinalFmt, WireTime, Grow;
    var h, body, n := EventHeader(e), EventBody(e), EventChunkSize(s, e);
    var prev := Prev(s, h.channel);
    var fmt, t := FinalFmt(prev, h), WireTime(prev, h);
    var p := Opened(StartFrom(tb, pkt, fmt, h.channel), fmt, t, h);
    OpenedForEvent(s, e, tb, pkt);
    ReadWholeMessage(tb, pkt, fmt, t, h, body, n, tail);
    KeepSynced(s, tb, Grow(tb, h.channel), Whole(p, body), e, Extended(fmt, t), tail);
    if e.Announce? {
      IntRoundTrip(32768, []);
      assert Int32(32768) + [] == Int32(32768);
    }
  }

  // ---------- whole runs ----------

  predicate AllFaithful(s: SenderState, es: seq<Event>)
    decreases |es|
  {
    es == [] || (WellFormed(s, es[0]) && Faithful(s, es[0]) && AllFaithful(After(s, es[0]), es[1..]))
  }

  function WireOf(s: SenderState, es: seq<Event>): seq<byte>
    requires AllFaithful(s, es)
    decreases |es|
  {
    if es == [] then [] else Wire(s, es[0]) + WireOf(After(s, es[0]), es[1..])
  }

  function AllExpected(es: seq<Event>): seq<Delivered> {
    if es == [] then [] else [Expected(es[0])] + AllExpected(es[1..])
  }

  /**
   Round trip over whole runs: from synced states, whatever mix of channels, header forms and chunk-size
   announcements was sent, reading the wire delivers exactly the packets sent and understands every byte.
   */
  lemma {:induction false} RunRoundTrip(s: SenderState, es: seq<Event>, tb: Tables, pkt: InPacket)
    requires AllFaithful(s, es) && Synced(s, tb)
    ensures Receive(tb, pkt, WireOf(s, es)) == Received(AllExpected(es), true)
    decreases |es|
  {
    if es != [] {
      hide Wire, Faithful, Readable, WellFormed, After, Expected, Deliver, Handle, Synced;
      var e, s' := es[0], After(s, es[0]);
      var tail := WireOf(s', es[1..]);
      FaithfulIsReadable(s, e, tb, pkt);
      EventRoundTrip(s, e, tb, pkt, tail);
      var r := ReadMessage(tb, pkt, Wire(s, e) + tail);
      RunRoundTrip(s', es[1..], Handle(r.tables, r.packet), r.packet.(body := None));
    }
  }

  /** The case the program starts with: no history, empty tables, both chunk sizes at the default of 128. */
  lemma FreshConnectionRoundTrip(es: seq<Event>)
    requires AllFaithful(SenderState(map[], 128), es)
    ensures Receive(Tables([], [], 128), BLANK, WireOf(SenderState(map[], 128), es)) == Received(AllExpected(es), true)
  {
    RunRoundTrip(SenderState(map[], 128), es, Tables([], [], 128), BLANK);
  }
}
