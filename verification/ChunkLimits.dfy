/**
 The two sending modes the reader cannot undo: an extended time on a message that needs several chunks, and a
 chunk-size announcement read with an old chunk size below 4. Both conditions are shown to be exact.
 */
module ChunkLimits {
  import opened Bytes
  import opened ChunkFormat
  import opened ChunkReading
  import opened ChunkRoundTrip

  /** All packets completed while reading `w` chunk by chunk, with the reader's chunk size left alone. */
  function Completed(tb: Tables, pkt: InPacket, w: seq<byte>): seq<Delivered>
    decreases |w|
  {
    match ReadChunk(tb, pkt, w)
    case Failed => []
    case Chunk(tb', p, rest) =>
      (if p.Ready() then [Deliver(p)] else []) + Completed(tb', p.(body := None), rest)
  }

  /** Every table entry belongs to its own channel and is still waiting for body bytes, or has none to come. */
  ghost predicate TablesOk(tb: Tables) {
    forall c :: Stored(tb, c).Some? ==>
      var s := Stored(tb, c).value; s.channel == c && (s.bytesRead < s.bodySize || s.bodySize == 0)
  }

  /** A successful chunk read, taken apart. */
  lemma ChunkParts(tb: Tables, pkt: InPacket, w: seq<byte>)
    returns (b: BasicHeaderRead, h: HeaderRead, p: InPacket, k: nat)
    requires ReadChunk(tb, pkt, w).Chunk?
    ensures ReadBasicHeader(w) == Some(b)
    ensures ReadHeader(StartFrom(tb, pkt, b.fmt, b.channel), b.fmt, b.rest) == Some(h)
    ensures p == Allocate(h.packet, b.fmt) && k == Min(tb.chunkSize, p.bodySize - p.bytesRead) <= |h.rest|
    ensures ReadChunk(tb, pkt, w)
      == Keep(Grow(tb, b.channel), b.channel, Fill(p, h.rest[..k]), h.extended, h.rest[k..])
  {
    hide Keep, Fill, Allocate, ReadHeader;
    b := ReadBasicHeader(w).value;
    assert StartFrom(Grow(tb, b.channel), pkt, b.fmt, b.channel) == StartFrom(tb, pkt, b.fmt, b.channel);
    h := ReadHeader(StartFrom(tb, pkt, b.fmt, b.channel), b.fmt, b.rest).value;
    p := Allocate(h.packet, b.fmt);
    k := Min(tb.chunkSize, p.bodySize - p.bytesRead);
  }

  /** The fields of the packet a chunk works on, as far as the tables decide them. */
  lemma ChunkEffect(tb: Tables, pkt: InPacket, w: seq<byte>)
    returns (b: BasicHeaderRead, h: HeaderRead, k: nat, s: InPacket)
    requires ReadChunk(tb, pkt, w).Chunk?
    ensures ReadBasicHeader(w) == Some(b)
    ensures ReadHeader(StartFrom(tb, pkt, b.fmt, b.channel), b.fmt, b.rest) == Some(h)
    ensures k == Min(tb.chunkSize, h.packet.bodySize - h.packet.bytesRead) <= |h.rest|
    ensures var r := ReadChunk(tb, pkt, w);
      && |r.rest| == |h.rest| - k && r.tables.chunkSize == tb.chunkSize
      && r.packet.channel == h.packet.channel && r.packet.bodySize == h.packet.bodySize
      && r.packet.bytesRead == h.packet.bytesRead + k
      && Stored(r.tables, b.channel) == Some(s)
      && s.channel == h.packet.channel && s.bodySize == h.packet.bodySize
      && s.bytesRead == (if r.packet.Ready() then 0 else h.packet.bytesRead + k)
      && s.timestamp == (if h.extended then 0xffffff else h.packet.timestamp)
      && forall c :: c != b.channel ==> Stored(r.tables, c) == Stored(tb, c)
  {
    hide ReadChunk, ReadHeader, ReadBasicHeader;
    var p;
    b, h, p, k := ChunkParts(tb, pkt, w);
    s := Stored(ReadChunk(tb, pkt, w).tables, b.channel).value;
    assert |h.rest[..k]| == k;
  }

  /** Reading a header keeps the channel; without a new length it also keeps the body bookkeeping. */
  lemma HeaderEffect(p: InPacket, fmt: HeaderType, w: seq<byte>)
    requires ReadHeader(p, fmt, w).Some?
    ensures var h := ReadHeader(p, fmt, w).value;
      && h.packet.channel == p.channel
      && (fmt <= MEDIUM ==> h.packet.bytesRead == 0)
      && (fmt >= SMALL ==> h.packet.bytesRead == p.bytesRead && h.packet.bodySize == p.bodySize)
      && |w| - |h.rest| == PacketSize(fmt) - 1 + (if h.extended then 4 else 0)
      && (fmt == MINIMUM ==> h.extended == (p.timestamp == 0xffffff))
      && (!h.extended ==> h.packet.timestamp != 0xffffff)
      && (fmt == MINIMUM && !h.extended ==> h.packet.timestamp == p.timestamp)
  {
  }

  lemma ReadChunkKeepsTablesOk(tb: Tables, pkt: InPacket, w: seq<byte>)
    requires TablesOk(tb) && ReadChunk(tb, pkt, w).Chunk?
    ensures TablesOk(ReadChunk(tb, pkt, w).tables)
    ensures ReadBasicHeader(w).Some? && ReadChunk(tb, pkt, w).packet.channel == ReadBasicHeader(w).value.channel
  {
    hide ReadChunk, ReadHeader, ReadBasicHeader;
    var b, h, k, s := ChunkEffect(tb, pkt, w);
    HeaderEffect(StartFrom(tb, pkt, b.fmt, b.channel), b.fmt, b.rest);
  }

  // ---------- an extended time on a split message ----------

  /** Bytes that r more body bytes take as continuation chunks with o header bytes each. */
  function Cost(r: int, n: int, o: nat): int
    requires n >= 1
    decreases r
  {
    if r <= 0 then 0 else o + Min(n, r) + Cost(r - Min(n, r), n, o)
  }

  lemma {:induction false} CostGrows(r: int, r': int, n: int, o: nat)
    requires n >= 1 && r <= r'
    ensures 0 <= Cost(r, n, o) <= Cost(r', n, o)
    decreases r'
  {
    if r' > 0 {
      CostGrows(r - Min(n, r), r' - Min(n, r'), n, o);
    }
  }

  lemma {:induction false} ContinuationsCost(ch: int, body: seq<byte>, n: int)
    requires ValidChannel(ch) && n >= 1
    ensures |Continuations(ch, body, n)| == Cost(|body|, n, 1 + ChannelBytes(ch))
    decreases |body|
  {
    if body != [] {
      ContinuationsCost(ch, body[Min(n, |body|)..], n);
    }
  }

  /**
   A lower bound on the bytes the reader still has to consume before it can complete a packet of `size`
   bytes on channel `ch`.
   */
  ghost function Needed(tb: Tables, ch: int, size: int): int
    requires tb.chunkSize >= 1 && Stored(tb, ch).Some?
  {
    var s, o := Stored(tb, ch).value, 1 + ChannelBytes(ch);
    if s.bodySize == size
    then Cost(size - s.bytesRead, tb.chunkSize, o) + if s.timestamp == 0xffffff then 3 else 0
    else Cost(size, tb.chunkSize, o) + 4
  }

  lemma BasicHeaderCost(w: seq<byte>, ch: int)
    requires ReadBasicHeader(w).Some? && ReadBasicHeader(w).value.channel == ch
    ensures |w| - |ReadBasicHeader(w).value.rest| >= 1 + ChannelBytes(ch)
  {
  }

  /** Too few bytes stay too few: no chunk completes the packet or closes the gap. */
  lemma GapKept(tb: Tables, pkt: InPacket, w: seq<byte>, ch: int, size: nat)
    requires TablesOk(tb) && tb.chunkSize >= 1 && Stored(tb, ch).Some?
    requires |w| < Needed(tb, ch, size) && ReadChunk(tb, pkt, w).Chunk?
    ensures var r := ReadChunk(tb, pkt, w);
      && !(r.packet.Ready() && r.packet.channel == ch && r.packet.bodySize == size)
      && r.tables.chunkSize == tb.chunkSize && Stored(r.tables, ch).Some?
      && |r.rest| < Needed(r.tables, ch, size)
  {
    hide ReadChunk, ReadHeader, ReadBasicHeader, Cost, StartFrom, ChannelBytes;
    var b, h, k, s := ChunkEffect(tb, pkt, w);
    var start := StartFrom(tb, pkt, b.fmt, b.channel);
    HeaderEffect(start, b.fmt, b.rest);
    StartsFromStored(tb, pkt, b.fmt, b.channel);
    if b.channel == ch {
      var n, o, before := tb.chunkSize, 1 + ChannelBytes(ch), Stored(tb, ch).value;
      BasicHeaderCost(w, ch);
      CostUnfolds(size, n, o);
      CostUnfolds(0, n, o);
      if before.bodySize == size {
        CostUnfolds(size - before.bytesRead, n, o);
        CostGrows(size - before.bytesRead, size, n, o);
      }
    }
  }

  lemma StartsFromStored(tb: Tables, pkt: InPacket, fmt: HeaderType, ch: int)
    requires TablesOk(tb)
    ensures StartFrom(tb, pkt, fmt, ch).channel == ch
    ensures fmt != LARGE && Stored(tb, ch).Some? ==> StartFrom(tb, pkt, fmt, ch) == Stored(tb, ch).value
  {
  }

  /** Hence nothing of that size is ever completed on the channel. */
  lemma {:induction false} GapNeverCloses(tb: Tables, pkt: InPacket, w: seq<byte>, ch: int, size: nat)
    requires TablesOk(tb) && tb.chunkSize >= 1 && Stored(tb, ch).Some?
    requires |w| < Needed(tb, ch, size)
    ensures forall d :: d in Completed(tb, pkt, w) ==> !(d.channel == ch && |d.body| == size)
    decreases |w|
  {
    hide ReadChunk, Needed, TablesOk;
    if ReadChunk(tb, pkt, w).Chunk? {
      var r := ReadChunk(tb, pkt, w);
      GapKept(tb, pkt, w, ch, size);
      ReadChunkKeepsTablesOk(tb, pkt, w);
      GapNeverCloses(r.tables, r.packet.(body := None), r.rest, ch, size);
    }
  }

  lemma {:induction false} CompletedByMessage(tb: Tables, pkt: InPacket, w: seq<byte>)
    requires ReadMessage(tb, pkt, w).Chunk?
    ensures var r := ReadMessage(tb, pkt, w);
      Completed(tb, pkt, w) == [Deliver(r.packet)] + Completed(r.tables, r.packet.(body := None), r.rest)
    decreases |w|
  {
    hide Deliver;
    var r := ReadChunk(tb, pkt, w);
    if !r.packet.Ready() {
      assert r.packet.(body := None) == r.packet by {
        var b, h, p, k := ChunkParts(tb, pkt, w);
      }
      CompletedByMessage(r.tables, r.packet, r.rest);
    }
  }

  /** The bytes behind the first header of a message. */
  lemma PayloadCost(ch: int, body: seq<byte>, n: int)
    requires ValidChannel(ch) && n >= 1
    ensures
      var k, o := Min(n, |body|), 1 + ChannelBytes(ch);
      |body[..k] + Continuations(ch, body[k..], n)| == k + Cost(|body| - k, n, o)
      && Cost(|body|, n, o) == if body == [] then 0 else o + k + Cost(|body| - k, n, o)
  {
    hide Continuations;
    var k := Min(n, |body|);
    ContinuationsCost(ch, body[k..], n);
    CostUnfolds(|body|, n, 1 + ChannelBytes(ch));
  }

  lemma CostUnfolds(r: int, n: int, o: nat)
    requires n >= 1
    ensures Cost(r, n, o) == if r <= 0 then 0 else o + Min(n, r) + Cost(r - Min(n, r), n, o)
  {
  }

  /** How the message starts: what reading its first chunk leaves. */
  lemma FirstChunk(tb: Tables, pkt: InPacket, fmt: HeaderType, t: uint32, h: Header, x: seq<byte>)
    returns (hr: HeaderRead, k: nat, s: InPacket)
    requires ValidChannel(h.channel) && h.bodySize < 0x100_0000
    requires ReadChunk(tb, pkt, FullHeader(fmt, t, h) + x).Chunk?
    ensures
      var start, r := StartFrom(tb, pkt, fmt, h.channel), ReadChunk(tb, pkt, FullHeader(fmt, t, h) + x);
      && ReadHeader(start, fmt, MessageHeader(fmt, t, h) + x) == Some(hr)
      && k == Min(tb.chunkSize, hr.packet.bodySize - hr.packet.bytesRead)
      && |r.rest| == |hr.rest| - k && r.tables.chunkSize == tb.chunkSize
      && r.packet.bodySize == hr.packet.bodySize && r.packet.bytesRead == hr.packet.bytesRead + k
      && Stored(r.tables, h.channel) == Some(s) && s.bodySize == hr.packet.bodySize
      && s.bytesRead == (if r.packet.Ready() then 0 else hr.packet.bytesRead + k)
      && s.timestamp == (if hr.extended then 0xffffff else hr.packet.timestamp)
  {
    hide ReadChunk, ReadHeader, ReadBasicHeader, MessageHeader, BasicHeader, StartFrom;
    var b;
    var w := FullHeader(fmt, t, h) + x;
    b, hr, k, s := ChunkEffect(tb, pkt, w);
    assert w == BasicHeader(fmt, h.channel) + (MessageHeader(fmt, t, h) + x);
    BasicHeaderRoundTrip(fmt, h.channel, MessageHeader(fmt, t, h) + x);
  }

  /** The three ways in which the reader is misled about the bytes that belong to the message. */
  predicate Misled(start: InPacket, fmt: HeaderType, t: uint32, h: Header, n: int)
    requires h.bodySize < 0x100_0000
  {
    || (fmt == MINIMUM && start.timestamp == 0xffffff)
    || HeaderApplied(start, fmt, t, h).bodySize != h.bodySize
    || (Extended(fmt, t) && h.bodySize > n)
  }

  /** The reader does not count body bytes it has not read, when a compressed header opens a message. */
  predicate Unused(start: InPacket, fmt: HeaderType) {
    fmt >= SMALL ==> start.bytesRead == 0 && start.body.None?
  }

  /** A misled reader is short of bytes after the first chunk. */
  lemma MisledGap(tb: Tables, pkt: InPacket, fmt: HeaderType, t: uint32, h: Header, body: seq<byte>)
    requires ValidChannel(h.channel) && h.bodySize == |body| < 0x100_0000 && tb.chunkSize >= 1
    requires
      var start := StartFrom(tb, pkt, fmt, h.channel);
      Unused(start, fmt) && Misled(start, fmt, t, h, tb.chunkSize)
    requires ReadChunk(tb, pkt, Chunked(FullHeader(fmt, t, h), h.channel, body, tb.chunkSize)).Chunk?
    ensures
      var r := ReadChunk(tb, pkt, Chunked(FullHeader(fmt, t, h), h.channel, body, tb.chunkSize));
      && !(r.packet.Ready() && r.packet.bodySize == |body|)
      && r.tables.chunkSize == tb.chunkSize && Stored(r.tables, h.channel).Some?
      && |r.rest| < Needed(r.tables, h.channel, |body|)
  {
    hide ReadChunk, ReadHeader, MessageHeader, FullHeader, Continuations, StartFrom;
    var ch, n := h.channel, tb.chunkSize;
    var start, k := StartFrom(tb, pkt, fmt, ch), Min(n, |body|);
    var x := body[..k] + Continuations(ch, body[k..], n);
    PayloadCost(ch, body, n);
    assert Chunked(FullHeader(fmt, t, h), ch, body, n) == FullHeader(fmt, t, h) + x;
    var hr, taken, s := FirstChunk(tb, pkt, fmt, t, h, x);
    if fmt == MINIMUM && start.timestamp == 0xffffff {
      HeaderEffect(start, fmt, MessageHeader(fmt, t, h) + x);
    } else {
      MessageHeaderRoundTrip(start, fmt, t, h, x);
    }
  }

  /** A misled reader never completes a packet of the message's size on its channel. */
  lemma MisledLost(tb: Tables, pkt: InPacket, fmt: HeaderType, t: uint32, h: Header, body: seq<byte>)
    requires ValidChannel(h.channel) && h.bodySize == |body| < 0x100_0000 && tb.chunkSize >= 1 && TablesOk(tb)
    requires
      var start := StartFrom(tb, pkt, fmt, h.channel);
      Unused(start, fmt) && Misled(start, fmt, t, h, tb.chunkSize)
    ensures
      forall d :: d in Completed(tb, pkt, Chunked(FullHeader(fmt, t, h), h.channel, body, tb.chunkSize)) ==>
        !(d.channel == h.channel && |d.body| == |body|)
  {
    hide ReadChunk, Chunked, FullHeader, Needed, TablesOk, Misled, Unused, StartFrom;
    var w := Chunked(FullHeader(fmt, t, h), h.channel, body, tb.chunkSize);
    if ReadChunk(tb, pkt, w).Chunk? {
      var r := ReadChunk(tb, pkt, w);
      MisledGap(tb, pkt, fmt, t, h, body);
      ReadChunkKeepsTablesOk(tb, pkt, w);
      GapNeverCloses(r.tables, r.packet.(body := None), r.rest, h.channel, |body|);
    }
  }

  /** A packet kept with its whole body is delivered with its own fields. */
  lemma KeptWhole(tb: Tables, ch: nat, q: InPacket, fmt: HeaderType, body: seq<byte>, extended: bool)
    requires ch < |tb.stored| && q.bodySize == |body| && q.bytesRead == 0 && q.body.None?
    ensures
      var r := Keep(tb, ch, Whole(Allocate(q, fmt), body), extended, []);
      && r.Chunk? && r.rest == [] && r.packet.Ready()
      && Deliver(r.packet) == Delivered(q.typ, q.channel, CompletedTime(q, tb.absTime[ch]), q.info, body)
  {
  }

  lemma StartFields(tb: Tables, pkt: InPacket, fmt: HeaderType, t: uint32, h: Header)
    requires h.bodySize < 0x100_0000 && TablesOk(tb) && Unused(StartFrom(tb, pkt, fmt, h.channel), fmt)
    requires !Misled(StartFrom(tb, pkt, fmt, h.channel), fmt, t, h, tb.chunkSize)
    ensures
      var start := StartFrom(tb, pkt, fmt, h.channel);
      var q := HeaderApplied(start, fmt, t, h);
      && q.channel == h.channel && q.bodySize == h.bodySize && q.bytesRead == 0 && q.body.None?
      && (fmt == MINIMUM ==> start.timestamp != 0xffffff)
      && (h.bodySize > tb.chunkSize ==> !Extended(fmt, t))
      && (q.timestamp == 0xffffff ==> Extended(fmt, t))
  {
  }

  /** Otherwise the message is delivered, once, with the fields its header was read with. */
  lemma WholeDelivered(tb: Tables, pkt: InPacket, fmt: HeaderType, t: uint32, h: Header, body: seq<byte>)
    requires ValidChannel(h.channel) && h.bodySize == |body| < 0x100_0000 && tb.chunkSize >= 1 && TablesOk(tb)
    requires
      var start := StartFrom(tb, pkt, fmt, h.channel);
      Unused(start, fmt) && !Misled(start, fmt, t, h, tb.chunkSize)
    ensures
      var q := HeaderApplied(StartFrom(tb, pkt, fmt, h.channel), fmt, t, h);
      Completed(tb, pkt, Chunked(FullHeader(fmt, t, h), h.channel, body, tb.chunkSize)) ==
      [Delivered(q.typ, h.channel, CompletedTime(q, AbsTime(tb, h.channel)), q.info, body)]
  {
    hide FullHeader, Chunked, ReadMessage, Completed, Grow, Keep, Allocate, Whole, Deliver, StartFrom, HeaderApplied;
    hide Misled, Unused, TablesOk;
    var ch, start := h.channel, StartFrom(tb, pkt, fmt, h.channel);
    var w := Chunked(FullHeader(fmt, t, h), ch, body, tb.chunkSize);
    var q := HeaderApplied(start, fmt, t, h);
    StartFields(tb, pkt, fmt, t, h);
    AllocateKeeps(q, fmt);
    GrowKeeps(tb, ch);
    ReadWholeMessage(tb, pkt, fmt, t, h, body, tb.chunkSize, []);
    assert w + [] == w;
    KeptWhole(Grow(tb, ch), ch, q, fmt, body, Extended(fmt, t));
    CompletedByMessage(tb, pkt, w);
    var r := ReadMessage(tb, pkt, w);
    NothingCompleted(r.tables, r.packet.(body := None));
  }

  lemma AllocateKeeps(q: InPacket, fmt: HeaderType)
    ensures
      var p := Allocate(q, fmt);
      && p.bodySize == q.bodySize && p.bytesRead == q.bytesRead && p.channel == q.channel && p.timestamp == q.timestamp
      && (q.bodySize > 0 ==> p.body.Some?)
  {
  }

  /** Whatever its header, a message arrives as meant if and only if the header denotes it and no extended time is
    * split. */
  lemma MessageSurvives(tb: Tables, pkt: InPacket, fmt: HeaderType, t: uint32, h: Header, body: seq<byte>)
    requires ValidChannel(h.channel) && h.bodySize == |body| < 0x100_0000 && tb.chunkSize >= 1 && TablesOk(tb)
    requires Unused(StartFrom(tb, pkt, fmt, h.channel), fmt)
    ensures
      Completed(tb, pkt, Chunked(FullHeader(fmt, t, h), h.channel, body, tb.chunkSize)) ==
      [Delivered(h.typ, h.channel, h.timestamp, h.info, body)] <==>
      && Denoted(StartFrom(tb, pkt, fmt, h.channel), AbsTime(tb, h.channel), fmt, t, h)
      && (Extended(fmt, t) ==> |body| <= tb.chunkSize)
  {
    hide Completed, Chunked, FullHeader;
    var start, d := StartFrom(tb, pkt, fmt, h.channel), Delivered(h.typ, h.channel, h.timestamp, h.info, body);
    if Misled(start, fmt, t, h, tb.chunkSize) {
      MisledLost(tb, pkt, fmt, t, h, body);
      assert d in [d];
    } else {
      WholeDelivered(tb, pkt, fmt, t, h, body);
    }
  }

  /**
   Exactly which messages survive: by a reader that has followed the channel, a message is read back from its
   own bytes as it was sent if and only if its header is readable and no extended time is split over chunks.
   */
  lemma MessageExact(s: SenderState, e: Event, tb: Tables, pkt: InPacket)
    requires WellFormed(s, e) && Synced(s, tb) && TablesOk(tb) && e.Send?
    requires Prev(s, e.header.channel).None? && e.header.fmt != LARGE ==> Unopened(tb, pkt, e.header.channel)
    ensures
      Completed(tb, pkt, Wire(s, e)) == [Expected(e)] <==>
      HeaderReadable(s, pkt, e.header) && NotSplitExtended(s, e)
  {
    hide Completed, Chunked, FullHeader, HeaderReadable, Denoted;
    var h := e.header;
    var fmt, t := FinalFmt(Prev(s, h.channel), h), WireTime(Prev(s, h.channel), h);
    OpenedBySyncedReader(s, tb, pkt, h);
    MessageSurvives(tb, pkt, fmt, t, h, e.body);
  }

  /** An extended time split over chunks: nothing of the message's size completes on its channel. */
  lemma SplitExtendedLost(s: SenderState, e: Event, tb: Tables, pkt: InPacket)
    requires WellFormed(s, e) && Synced(s, tb) && TablesOk(tb) && e.Send?
    requires HeaderFaithful(s, e.header) && !NotSplitExtended(s, e)
    ensures forall d :: d in Completed(tb, pkt, Wire(s, e)) ==> !(d.channel == e.header.channel && |d.body| == |e.body|)
  {
    hide Completed, Chunked, FullHeader;
    var h := e.header;
    MisledLost(tb, pkt, FinalFmt(Prev(s, h.channel), h), WireTime(Prev(s, h.channel), h), h, e.body);
  }

  /** A repeated time: the message opened by the one-byte header arrives later than sent by the last time field. */
  lemma RepeatedTimeDrifts(s: SenderState, e: Event, tb: Tables, pkt: InPacket)
    requires WellFormed(s, e) && Synced(s, tb) && TablesOk(tb) && e.Send?
    requires
      var prev := Prev(s, e.header.channel);
      && prev.Some? && FinalFmt(prev, e.header) == MINIMUM && prev.value.info == e.header.info
      && prev.value.bodySize == e.header.bodySize && prev.value.typ == e.header.typ
      && prev.value.timestamp == e.header.timestamp && s.past[e.header.channel].wireTime < 0xffffff
    ensures
      var late := (e.header.timestamp + s.past[e.header.channel].wireTime) % TWO32;
      Completed(tb, pkt, Wire(s, e)) == [Expected(e).(timestamp := late)]
  {
    hide Completed, Chunked, FullHeader;
    var h := e.header;
    WholeDelivered(tb, pkt, MINIMUM, WireTime(Prev(s, h.channel), h), h, e.body);
  }

  const START := SenderState(map[], 128)

  /** One byte of video on channel 4, sent with the header form that asks for no stream id. */
  function Picture(timestamp: uint32): Event {
    Send(Header(MEDIUM, 4, 9, timestamp, 0, 1), [7])
  }

  /** Three pictures on a fresh connection, the last two at the same time: the third is delivered 40 later than sent. */
  lemma RepeatedTimeRun()
    ensures
      var s1 := After(START, Picture(0));
      var s2 := After(s1, Picture(40));
      && WellFormed(START, Picture(0)) && WellFormed(s1, Picture(40)) && WellFormed(s2, Picture(40))
      && var wire := Wire(START, Picture(0)) + (Wire(s1, Picture(40)) + Wire(s2, Picture(40)));
         Receive(Tables([], [], 128), BLANK, wire)
         == Received([Expected(Picture(0)), Expected(Picture(40)), Expected(Picture(80))], true)
  {
    hide Wire, ReadMessage, Deliver, SyncedOn;
    var s1, tb := After(START, Picture(0)), Tables([], [], 128);
    var s2 := After(s1, Picture(40));
    var w2 := Wire(s2, Picture(40));
    var w1 := Wire(s1, Picture(40)) + w2;
    EventRoundTrip(START, Picture(0), tb, BLANK, w1);
    var r := ReadMessage(tb, BLANK, Wire(START, Picture(0)) + w1);
    var tb1, pkt1 := Handle(r.tables, r.packet), r.packet.(body := None);
    EventRoundTrip(s1, Picture(40), tb1, pkt1, w2);
    var r1 := ReadMessage(tb1, pkt1, w1);
    assert s2.past[4] == Past(Picture(40).header.(fmt := SMALL), 40);
    LastPicture(s2, Handle(r1.tables, r1.packet), r1.packet.(body := None));
  }

  lemma LastPicture(s: SenderState, tb: Tables, pkt: InPacket)
    requires Synced(s, tb) && s.chunkSize == 128 && 4 in s.past
    requires s.past[4] == Past(Picture(40).header.(fmt := SMALL), 40)
    ensures Receive(tb, pkt, Wire(s, Picture(40))) == Received([Expected(Picture(80))], true)
  {
    hide FullHeader, Chunked, ReadMessage, Grow, Keep, Deliver, Completed;
    var h, t := Picture(40).header, WireTime(Prev(s, 4), Picture(40).header);
    var start, w := StartFrom(tb, pkt, MINIMUM, 4), Wire(s, Picture(40));
    assert w == Chunked(FullHeader(MINIMUM, t, h), 4, [7], 128);
    GrowKeeps(tb, 4);
    ReadWholeMessage(tb, pkt, MINIMUM, t, h, [7], 128, []);
    assert w + [] == w;
    KeptWhole(Grow(tb, 4), 4, start, MINIMUM, [7], false);
  }

  /** The smallest message that is split and carries an extended time. */
  const LONG := Send(Header(LARGE, 4, 9, 0xffffff, 1, 129), seq(129, _ => 7))

  /** On a fresh connection it is lost: nothing of its size is ever completed on its channel. */
  lemma SplitExtendedRun()
    ensures WellFormed(START, LONG) && HeaderFaithful(START, LONG.header)
    ensures
      var got := Completed(Tables([], [], 128), BLANK, Wire(START, LONG));
      got != [Expected(LONG)] && forall d :: d in got ==> !(d.channel == 4 && |d.body| == 129)
  {
    hide Completed, Wire;
    MessageExact(START, LONG, Tables([], [], 128), BLANK);
    SplitExtendedLost(START, LONG, Tables([], [], 128), BLANK);
  }

  lemma OpenedFields(p: InPacket, tb: Tables, pkt: InPacket, fmt: HeaderType, t: uint32, h: Header)
    requires h.bodySize < 0x100_0000 && p == Opened(StartFrom(tb, pkt, fmt, h.channel), fmt, t, h)
    requires Denotes(HeaderApplied(StartFrom(tb, pkt, fmt, h.channel), fmt, t, h), AbsTime(tb, h.channel), h)
    ensures p.bodySize == h.bodySize && p.bytesRead == 0 && (h.bodySize > 0 ==> p.body.Some?)
  {
  }

  lemma NothingCompleted(tb: Tables, pkt: InPacket)
    ensures Completed(tb, pkt, []) == []
  {
  }

  /** The announcement of a new chunk size, exactly: it is read back if and only if the old size is at least 4. */
  lemma AnnounceExact(s: SenderState, tb: Tables, pkt: InPacket)
    requires s.chunkSize >= 1 && Synced(s, tb)
    ensures Completed(tb, pkt, Wire(s, Announce)) == [Expected(Announce)] <==> s.chunkSize >= 4
  {
    hide Wire, ReadMessage, Completed, Deliver, Synced;
    if s.chunkSize >= 4 {
      EventRoundTrip(s, Announce, tb, pkt, []);
      assert Wire(s, Announce) + [] == Wire(s, Announce);
      CompletedByMessage(tb, pkt, Wire(s, Announce));
      var r := ReadMessage(tb, pkt, Wire(s, Announce));
      NothingCompleted(r.tables, r.packet.(body := None));
    } else {
      AnnounceLost(s, tb, pkt);
    }
  }

  /** The sender after a run of messages; the program itself only ever sends with chunk size 128 or 32768. */
  function AfterAll(s: SenderState, es: seq<Event>): (r: SenderState)
    ensures s.chunkSize == 128 || s.chunkSize == 32768 ==> r.chunkSize == 128 || r.chunkSize == 32768
    decreases |es|
  {
    if es == [] then s else AfterAll(After(s, es[0]), es[1..])
  }

  /** So the failing sizes never occur, and a reader in step always reads the program's own announcement. */
  lemma AnnouncementReadInStep(es: seq<Event>, tb: Tables, pkt: InPacket)
    requires Synced(AfterAll(START, es), tb)
    ensures Completed(tb, pkt, Wire(AfterAll(START, es), Announce)) == [Expected(Announce)]
  {
    hide Completed, Wire, Synced;
    AnnounceExact(AfterAll(START, es), tb, pkt);
  }

  /** An announcement at the end of a faithful run, with a chunk size that carries it. */
  lemma {:induction false} RunThenAnnounce(s: SenderState, es: seq<Event>)
    requires AllFaithful(s, es) && AfterAll(s, es).chunkSize >= 4
    ensures AllFaithful(s, es + [Announce])
    ensures WireOf(s, es + [Announce]) == WireOf(s, es) + Wire(AfterAll(s, es), Announce)
    ensures AllExpected(es + [Announce]) == AllExpected(es) + [Expected(Announce)]
    decreases |es|
  {
    hide Wire, Expected;
    if es == [] {
      assert es + [Announce] == [Announce];
      AnnounceFaithful(s);
    } else {
      hide Faithful, WellFormed, After;
      var all := es + [Announce];
      assert all[0] == es[0] && all[1..] == es[1..] + [Announce];
      RunThenAnnounce(After(s, es[0]), es[1..]);
    }
  }

  lemma AnnounceFaithful(s: SenderState)
    requires s.chunkSize >= 4
    ensures WellFormed(s, Announce) && Faithful(s, Announce)
  {
  }

  /** The program's own announcement, after any run of faithful messages from a fresh connection: the reader delivers
    * the run and then the announcement. */
  lemma AnnouncementAlwaysRead(es: seq<Event>)
    requires AllFaithful(START, es)
    ensures
      Receive(Tables([], [], 128), BLANK, WireOf(START, es) + Wire(AfterAll(START, es), Announce)) ==
      Received(AllExpected(es) + [Expected(Announce)], true)
  {
    hide Wire, WireOf, Receive, AllExpected, AllFaithful, Expected;
    RunThenAnnounce(START, es);
    FreshConnectionRoundTrip(es + [Announce]);
  }

  lemma AnnounceLost(s: SenderState, tb: Tables, pkt: InPacket)
    requires 1 <= s.chunkSize < 4 && Synced(s, tb)
    ensures Completed(tb, pkt, Wire(s, Announce)) == []
  {
    hide FullHeader, BasicHeader, MessageHeader, Grow, Allocate, HeaderApplied, Continuations, ReadChunk;
    var h, body, n := ChunkSizeHeader(), ChunkSizeBody(), s.chunkSize;
    var p := Opened(StartFrom(tb, pkt, LARGE, 2), LARGE, 0, h);
    OpenedBySyncedReader(s, tb, pkt, h);
    OpenedFields(p, tb, pkt, LARGE, 0, h);
    var tail := body[n..];
    NoContinuations(2, 32768, []);
    assert body[..4] == body && body[4..] == [];
    assert Wire(s, Announce) == FullHeader(LARGE, 0, h) + (body[..n] + tail);
    ReadOneChunk(tb, pkt, LARGE, 0, h, body[..n], tail);
    var r := ReadChunk(tb, pkt, Wire(s, Announce));
    ShortTail(r.tables, r.packet.(body := None), tail);
  }

  /** The last 3, 2 or 1 bytes of the announcement make no chunk. */
  lemma ShortTail(tb: Tables, pkt: InPacket, w: seq<byte>)
    requires w == [0, 128, 0] || w == [128, 0] || w == [0]
    ensures ReadChunk(tb, pkt, w).Failed?
  {
    hide ReadBody, ReadHeader, Grow, StartFrom;
    if w != [0] {
      var b := ReadBasicHeader(w).value;
      assert b.fmt == (if |w| == 3 then LARGE else SMALL) && |b.rest| == |w| - 2;
      NoRoomForHeader(StartFrom(Grow(tb, b.channel), pkt, b.fmt, b.channel), b.fmt, b.rest);
    }
  }

  lemma NoRoomForHeader(p: InPacket, fmt: HeaderType, w: seq<byte>)
    requires |w| < PacketSize(fmt) - 1
    ensures ReadHeader(p, fmt, w).None?
  {
  }
}
