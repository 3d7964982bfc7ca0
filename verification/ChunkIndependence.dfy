/**
 Channels do not disturb each other: however the chunks of several channels are interleaved, and however the
 channel tables grow on the way, a channel delivers what its own chunks deliver when read alone.
 */
module ChunkIndependence {
  import opened Bytes
  import opened ChunkFormat
  import opened ChunkReading
  import opened ChunkLimits

  function ChannelOf(chunk: seq<byte>): int {
    match ReadBasicHeader(chunk)
    case None => -1
    case Some(b) => b.channel
  }

  predicate OpensWithFullHeader(chunk: seq<byte>) {
    ReadBasicHeader(chunk).Some? && ReadBasicHeader(chunk).value.fmt == LARGE
  }

  /** Each element is exactly one chunk where it stands, and a channel without history opens with a full header. */
  predicate ChunkStream(tb: Tables, pkt: InPacket, chunks: seq<seq<byte>>)
    decreases |chunks|
  {
    chunks == [] ||
    (&& (Stored(tb, ChannelOf(chunks[0])).Some? || OpensWithFullHeader(chunks[0]))
     && match ReadChunk(tb, pkt, chunks[0])
        case Failed => false
        case Chunk(tb', p, rest) => rest == [] && ChunkStream(tb', p.(body := None), chunks[1..]))
  }

  function Concat(chunks: seq<seq<byte>>): seq<byte> {
    if chunks == [] then [] else chunks[0] + Concat(chunks[1..])
  }

  function ChunksOf(chunks: seq<seq<byte>>, ch: int): seq<seq<byte>> {
    if chunks == [] then []
    else (if ChannelOf(chunks[0]) == ch then [chunks[0]] else []) + ChunksOf(chunks[1..], ch)
  }

  function PacketsOf(ds: seq<Delivered>, ch: int): seq<Delivered> {
    if ds == [] then [] else (if ds[0].channel == ch then [ds[0]] else []) + PacketsOf(ds[1..], ch)
  }

  /** Two readers that agree on one channel. */
  predicate AgreeOn(tb: Tables, tb': Tables, ch: int) {
    Stored(tb, ch) == Stored(tb', ch) && AbsTime(tb, ch) == AbsTime(tb', ch) && tb.chunkSize == tb'.chunkSize
  }

  lemma StartAgrees(tb: Tables, tb': Tables, pkt: InPacket, pkt': InPacket, fmt: HeaderType, ch: int, w: seq<byte>)
    requires AgreeOn(tb, tb', ch) && (Stored(tb, ch).Some? || fmt == LARGE)
    ensures ReadHeader(StartFrom(tb, pkt, fmt, ch), fmt, w) == ReadHeader(StartFrom(tb', pkt', fmt, ch), fmt, w)
  {
  }

  lemma KeepAgrees(tb: Tables, tb': Tables, ch: int, p: InPacket, extended: bool, rest: seq<byte>)
    requires 0 <= ch < |tb.stored| && ch < |tb'.stored| && AgreeOn(tb, tb', ch)
    ensures var r, r' := Keep(tb, ch, p, extended, rest), Keep(tb', ch, p, extended, rest);
      r.Chunk? && r'.Chunk? && r.packet == r'.packet && r.rest == r'.rest && AgreeOn(r.tables, r'.tables, ch)
  {
  }

  lemma KeepElsewhere(tb: Tables, ch: int, p: InPacket, extended: bool, rest: seq<byte>, c: int)
    requires 0 <= ch < |tb.stored| && c != ch
    ensures AgreeOn(Keep(tb, ch, p, extended, rest).tables, tb, c)
  {
  }

  /** A chunk means the same to every reader that agrees on its channel, whatever their other channels hold. */
  lemma SameChunk(tb: Tables, tb': Tables, pkt: InPacket, pkt': InPacket, w: seq<byte>)
    requires AgreeOn(tb, tb', ChannelOf(w)) && (Stored(tb, ChannelOf(w)).Some? || OpensWithFullHeader(w))
    ensures var r, r' := ReadChunk(tb, pkt, w), ReadChunk(tb', pkt', w);
      r.Chunk? == r'.Chunk?
      && (r.Chunk? ==> r.packet == r'.packet && r.rest == r'.rest && AgreeOn(r.tables, r'.tables, ChannelOf(w)))
  {
    if ReadBasicHeader(w).Some? {
      hide ReadHeader, ReadBasicHeader, ReadBody, StartFrom, Grow;
      var b := ReadBasicHeader(w).value;
      var g, g' := Grow(tb, b.channel), Grow(tb', b.channel);
      StartAgrees(g, g', pkt, pkt', b.fmt, b.channel, b.rest);
      var h := ReadHeader(StartFrom(g, pkt, b.fmt, b.channel), b.fmt, b.rest);
      if h.Some? {
        BodyAgrees(g, g', b.fmt, b.channel, h.value);
      }
    }
  }

  lemma BodyAgrees(tb: Tables, tb': Tables, fmt: HeaderType, ch: nat, h: HeaderRead)
    requires ch < |tb.stored| && ch < |tb'.stored| && AgreeOn(tb, tb', ch)
    ensures var r, r' := ReadBody(tb, fmt, ch, h), ReadBody(tb', fmt, ch, h);
      r.Chunk? == r'.Chunk?
      && (r.Chunk? ==> r.packet == r'.packet && r.rest == r'.rest && AgreeOn(r.tables, r'.tables, ch))
  {
    hide Keep, Fill, AgreeOn;
    var p := Allocate(h.packet, fmt);
    assert tb.chunkSize == tb'.chunkSize by { AgreeOnChunkSize(tb, tb', ch); }
    var k := Min(tb.chunkSize, p.bodySize - p.bytesRead);
    if 0 <= k <= |h.rest| {
      KeepAgrees(tb, tb', ch, Fill(p, h.rest[..k]), h.extended, h.rest[k..]);
    }
  }

  lemma AgreeOnChunkSize(tb: Tables, tb': Tables, ch: int)
    requires AgreeOn(tb, tb', ch)
    ensures tb.chunkSize == tb'.chunkSize
  {
  }

  /** A chunk leaves every other channel as it was. */
  lemma OtherChannel(tb: Tables, pkt: InPacket, w: seq<byte>, ch: int)
    requires ReadChunk(tb, pkt, w).Chunk? && ChannelOf(w) != ch
    ensures AgreeOn(ReadChunk(tb, pkt, w).tables, tb, ch)
  {
    hide Keep, ReadHeader, ReadBasicHeader, Fill, ReadChunk;
    var b, h, p, k := ChunkParts(tb, pkt, w);
    KeepElsewhere(Grow(tb, b.channel), b.channel, Fill(p, h.rest[..k]), h.extended, h.rest[k..], ch);
  }

  /** More bytes behind a chunk do not change how it is read. */
  lemma ChunkThenTail(tb: Tables, pkt: InPacket, w: seq<byte>, tail: seq<byte>)
    requires ReadChunk(tb, pkt, w).Chunk? && ReadChunk(tb, pkt, w).rest == []
    ensures ReadChunk(tb, pkt, w + tail)
      == Chunk(ReadChunk(tb, pkt, w).tables, ReadChunk(tb, pkt, w).packet, tail)
  {
    hide ReadHeader, ReadBasicHeader, ReadBody, StartFrom, Grow;
    var b := ReadBasicHeader(w).value;
    var g := Grow(tb, b.channel);
    var start := StartFrom(g, pkt, b.fmt, b.channel);
    var h := ReadHeader(start, b.fmt, b.rest).value;
    BasicThenTail(w, tail);
    HeaderThenTail(start, b.fmt, b.rest, tail);
    BodyThenTail(g, b.fmt, b.channel, h, tail);
  }

  lemma BodyThenTail(tb: Tables, fmt: HeaderType, ch: nat, h: HeaderRead, tail: seq<byte>)
    requires ch < |tb.stored| && ReadBody(tb, fmt, ch, h).Chunk? && ReadBody(tb, fmt, ch, h).rest == []
    ensures ReadBody(tb, fmt, ch, h.(rest := h.rest + tail))
      == Chunk(ReadBody(tb, fmt, ch, h).tables, ReadBody(tb, fmt, ch, h).packet, tail)
  {
    hide Keep, Fill;
    var p := Allocate(h.packet, fmt);
    var k := Min(tb.chunkSize, p.bodySize - p.bytesRead);
    KeepThenTail(tb, ch, Fill(p, h.rest[..k]), h.extended, h.rest[k..], tail);
    assert h.rest[k..] == [];
    assert (h.rest + tail)[..k] == h.rest[..k] && (h.rest + tail)[k..] == tail;
  }

  lemma BasicThenTail(w: seq<byte>, tail: seq<byte>)
    requires ReadBasicHeader(w).Some?
    ensures var b := ReadBasicHeader(w).value;
      ReadBasicHeader(w + tail) == Some(b.(rest := b.rest + tail))
  {
    var n := if w[0] % 64 == 0 then 2 else if w[0] % 64 == 1 then 3 else 1;
    assert |w| >= n;
    assert (w + tail)[n..] == w[n..] + tail;
    assert (w + tail)[..n] == w[..n];
  }

  lemma HeaderThenTail(p: InPacket, fmt: HeaderType, w: seq<byte>, tail: seq<byte>)
    requires ReadHeader(p, fmt, w).Some?
    ensures var h := ReadHeader(p, fmt, w).value;
      ReadHeader(p, fmt, w + tail) == Some(h.(rest := h.rest + tail))
  {
    hide ReadFields, DecodeInt32;
    var n := PacketSize(fmt) - 1;
    DropJoined(w, tail, n);
    FieldsThenTail(p, fmt, w, tail);
    if ReadFields(p, fmt, w).timestamp == 0xffffff {
      var rest := w[n..];
      assert |rest| >= 4;
      DropJoined(rest, tail, 4);
      SameInt32(rest, rest + tail);
    }
  }

  lemma SameInt32(a: seq<byte>, b: seq<byte>)
    requires 4 <= |a| <= |b| && a == b[..|a|]
    ensures DecodeInt32(a) == DecodeInt32(b)
  {
    assert forall i :: 0 <= i < 4 ==> a[i] == b[i];
  }

  lemma FieldsThenTail(p: InPacket, fmt: HeaderType, w: seq<byte>, tail: seq<byte>)
    requires |w| >= PacketSize(fmt) - 1
    ensures ReadFields(p, fmt, w + tail) == ReadFields(p, fmt, w)
  {
    if fmt <= MEDIUM {
      DropJoined(w, tail, 3);
    }
    if fmt == LARGE {
      DropJoined(w, tail, 7);
    }
  }

  lemma KeepThenTail(tb: Tables, ch: int, p: InPacket, extended: bool, rest: seq<byte>, tail: seq<byte>)
    requires 0 <= ch < |tb.stored|
    ensures var r := Keep(tb, ch, p, extended, rest);
      r.Chunk? && r.rest == rest && Keep(tb, ch, p, extended, tail) == Chunk(r.tables, r.packet, tail)
  {
  }

  lemma {:induction false} PacketsOfConcat(a: seq<Delivered>, b: seq<Delivered>, ch: int)
    ensures PacketsOf(a + b, ch) == PacketsOf(a, ch) + PacketsOf(b, ch)
  {
    if a == [] {
      assert a + b == b;
    } else {
      PacketsOfConcat(a[1..], b, ch);
      var first, more := if a[0].channel == ch then [a[0]] else [], PacketsOf(a[1..], ch);
      FirstPacket(a, ch);
      FirstPacket(a + b, ch);
      hide PacketsOf;
      DropJoined(a, b, 1);
      assert (a + b)[0] == a[0];
      Assoc(first, more, PacketsOf(b, ch));
    }
  }

  lemma FirstPacket(a: seq<Delivered>, ch: int)
    requires a != []
    ensures PacketsOf(a, ch) == (if a[0].channel == ch then [a[0]] else []) + PacketsOf(a[1..], ch)
  {
  }

  function CompletedNow(p: InPacket): seq<Delivered> {
    if p.Ready() then [Deliver(p)] else []
  }

  lemma CompletedThenTail(tb: Tables, pkt: InPacket, w: seq<byte>, tail: seq<byte>)
    requires TablesOk(tb) && ReadChunk(tb, pkt, w).Chunk? && ReadChunk(tb, pkt, w).rest == []
    ensures var r := ReadChunk(tb, pkt, w);
      && Completed(tb, pkt, w + tail)
         == CompletedNow(r.packet) + Completed(r.tables, r.packet.(body := None), tail)
      && TablesOk(r.tables)
      && forall ch :: PacketsOf(CompletedNow(r.packet), ch) == if ChannelOf(w) == ch then CompletedNow(r.packet) else []
  {
    hide ReadChunk, TablesOk, ReadBasicHeader;
    ChunkThenTail(tb, pkt, w, tail);
    ReadChunkKeepsTablesOk(tb, pkt, w);
  }

  /**
   Channel independence: the packets a channel completes in any interleaving are, in order, those it completes
   when its chunks are read alone by any reader that starts with the same entry for the channel.
   */
  lemma {:induction false} ChannelsIndependent(tb: Tables, pkt: InPacket, chunks: seq<seq<byte>>, ch: int, tb': Tables,
                                               pkt': InPacket)
    requires ChunkStream(tb, pkt, chunks) && TablesOk(tb) && TablesOk(tb') && AgreeOn(tb, tb', ch)
    ensures PacketsOf(Completed(tb, pkt, Concat(chunks)), ch) == Completed(tb', pkt', Concat(ChunksOf(chunks, ch)))
    decreases |chunks|
  {
    if chunks == [] {
    } else {
      hide ReadChunk, TablesOk, Stored, AbsTime, ChannelOf, CompletedNow, OpensWithFullHeader, AgreeOn, Completed;
      var c, rest := chunks[0], chunks[1..];
      var r := ReadChunk(tb, pkt, c);
      var p := r.packet.(body := None);
      CompletedThenTail(tb, pkt, c, Concat(rest));
      PacketsOfConcat(CompletedNow(r.packet), Completed(r.tables, p, Concat(rest)), ch);
      if ChannelOf(c) == ch {
        SameChunk(tb, tb', pkt, pkt', c);
        var r' := ReadChunk(tb', pkt', c);
        CompletedThenTail(tb', pkt', c, Concat(ChunksOf(rest, ch)));
        ChannelsIndependent(r.tables, p, rest, ch, r'.tables, p);
        ConcatCons(c, ChunksOf(rest, ch));
      } else {
        OtherChannel(tb, pkt, c, ch);
        AgreeTrans(r.tables, tb, tb', ch);
        ChannelsIndependent(r.tables, p, rest, ch, tb', pkt');
        assert ChunksOf(chunks, ch) == ChunksOf(rest, ch);
      }
    }
  }

  lemma ConcatCons(c: seq<byte>, rest: seq<seq<byte>>)
    ensures Concat([c] + rest) == c + Concat(rest)
  {
    assert ([c] + rest)[1..] == rest;
  }

  lemma AgreeTrans(a: Tables, b: Tables, c: Tables, ch: int)
    requires AgreeOn(a, b, ch) && AgreeOn(b, c, ch)
    ensures AgreeOn(a, c, ch)
  {
  }

  /** In particular a channel of a fresh connection delivers what it would deliver with the connection to itself. */
  lemma ChannelAlone(chunks: seq<seq<byte>>, ch: int, n: int)
    requires ChunkStream(Tables([], [], n), BLANK, chunks)
    ensures PacketsOf(Completed(Tables([], [], n), BLANK, Concat(chunks)), ch)
      == Completed(Tables([], [], n), BLANK, Concat(ChunksOf(chunks, ch)))
  {
    ChannelsIndependent(Tables([], [], n), BLANK, chunks, ch, Tables([], [], n), BLANK);
  }
}
