/**
 RTMP_ReadPacket on values: one call reads one chunk. The reader keeps, per channel, the last packet and the
 last absolute time, in tables that grow on demand; the caller's packet is passed from call to call.
 */
module ChunkReading {
  import opened Bytes
  import opened ChunkFormat

  /** The RTMPPacket the reader fills. `body` is `m_body`: a zeroed buffer of `bodySize` bytes once allocated. */
  datatype RawPacket = InPacket(fmt: int, typ: byte, hasAbs: bool, channel: int, timestamp: uint32, info: uint32,
                                bodySize: nat, bytesRead: nat, body: Option<seq<byte>>)
  {
    predicate Ready() {
      bytesRead == bodySize
    }
  }

  type InPacket = p: RawPacket | p.body.Some? ==> |p.body.value| == p.bodySize
    witness InPacket(0, 0, false, 0, 0, 0, 0, 0, None)

  /** A zero-initialised RTMPPacket, as the callers declare it. */
  const BLANK: InPacket := InPacket(0, 0, false, 0, 0, 0, 0, 0, None)

  datatype RawTables = Tables(stored: seq<Option<InPacket>>, absTime: seq<uint32>, chunkSize: int)

  type Tables = t: RawTables | |t.stored| == |t.absTime| witness Tables([], [], 128)

  function Stored(tb: Tables, ch: int): Option<InPacket> {
    if 0 <= ch < |tb.stored| then tb.stored[ch] else None
  }

  function AbsTime(tb: Tables, ch: int): uint32 {
    if 0 <= ch < |tb.absTime| then tb.absTime[ch] else 0
  }

  /** realloc and memset of both tables when the channel is beyond them. */
  function Grow(tb: Tables, ch: nat): (tb': Tables)
    ensures ch < |tb'.stored| && tb'.chunkSize == tb.chunkSize
    ensures forall c :: Stored(tb', c) == Stored(tb, c)
    ensures forall c :: AbsTime(tb', c) == AbsTime(tb, c)
  {
    if ch < |tb.stored| then tb
    else
      var more := ch + 10 - |tb.stored|;
      tb.(stored := tb.stored + seq(more, _ => None), absTime := tb.absTime + seq(more, _ => 0))
  }

  datatype BasicHeaderRead = BasicHeaderRead(fmt: HeaderType, channel: nat, rest: seq<byte>)

  function ReadBasicHeader(w: seq<byte>): (r: Option<BasicHeaderRead>)
    ensures r.Some? ==> |r.value.rest| < |w|
  {
    if w == [] then None
    else
      var fmt, low := w[0] / 64, w[0] % 64;
      if low == 0 then
        if |w| < 2 then None else Some(BasicHeaderRead(fmt, w[1] as int + 64, w[2..]))
      else if low == 1 then
        if |w| < 3 then None else Some(BasicHeaderRead(fmt, w[2] as int * 256 + w[1] + 64, w[3..]))
      else Some(BasicHeaderRead(fmt, low, w[1..]))
  }

  /** What the chunk starts from: a full header makes the time absolute, the others reuse the channel's packet. */
  function StartFrom(tb: Tables, p: InPacket, fmt: HeaderType, ch: int): InPacket {
    if fmt == LARGE then p.(fmt := fmt, channel := ch, hasAbs := true)
    else match Stored(tb, ch)
      case Some(s) => s
      case None => p.(fmt := fmt, channel := ch)
  }

  /** The fixed part of the message header. */
  function ReadFields(p: InPacket, fmt: HeaderType, w: seq<byte>): InPacket
    requires |w| >= PacketSize(fmt) - 1
  {
    var q: InPacket := if fmt <= SMALL then p.(timestamp := DecodeInt24(w)) else p;
    var r: InPacket :=
      if fmt <= MEDIUM then q.(bodySize := DecodeInt24(w[3..]), bytesRead := 0, body := None, typ := w[6]) else q;
    if fmt == LARGE then r.(info := DecodeInt32LE(w[7..])) else r
  }

  datatype HeaderRead = HeaderRead(packet: InPacket, extended: bool, rest: seq<byte>)

  /** The whole message header; a time field of 0xffffff, even one reused from the channel, announces 4 more bytes. */
  function ReadHeader(p: InPacket, fmt: HeaderType, w: seq<byte>): (r: Option<HeaderRead>)
    ensures r.Some? ==> |r.value.rest| <= |w|
  {
    var n := PacketSize(fmt) - 1;
    if |w| < n then None
    else
      var q, rest := ReadFields(p, fmt, w), w[n..];
      if q.timestamp != 0xffffff then Some(HeaderRead(q, false, rest))
      else if |rest| < 4 then None
      else Some(HeaderRead(q.(timestamp := DecodeInt32(rest)), true, rest[4..]))
  }

  datatype ReadResult = Failed | Chunk(tables: Tables, packet: InPacket, rest: seq<byte>)

  function Allocate(p: InPacket, fmt: HeaderType): InPacket {
    if p.bodySize > 0 && p.body.None? then p.(fmt := fmt, body := Some(seq(p.bodySize, _ => 0))) else p
  }

  /** Stores k body bytes behind those already read. */
  function Fill(p: InPacket, bytes: seq<byte>): InPacket
    requires bytes != [] ==> p.body.Some? && p.bytesRead + |bytes| <= p.bodySize
  {
    if bytes == [] then p
    else
      var b, at := p.body.value, p.bytesRead;
      p.(body := Some(b[..at] + bytes + b[at + |bytes|..]), bytesRead := at + |bytes|)
  }

  /** Keeps the packet as the channel's reference and, when it is complete, makes its time absolute. */
  function Keep(tb: Tables, ch: int, p: InPacket, extended: bool, rest: seq<byte>): ReadResult
    requires 0 <= ch < |tb.stored|
  {
    var s: InPacket := if extended then p.(timestamp := 0xffffff) else p;
    if p.Ready() then
      var time: uint32 := if p.hasAbs then p.timestamp else (p.timestamp + tb.absTime[ch]) % TWO32;
      Chunk(tb.(stored := tb.stored[ch := Some(s.(body := None, bytesRead := 0, hasAbs := false))],
                absTime := tb.absTime[ch := time]),
            p.(timestamp := time), rest)
    else
      Chunk(tb.(stored := tb.stored[ch := Some(s)]), p.(body := None), rest)
  }

  /** What follows the chunk plays no part in keeping it. */
  lemma KeepRest(tb: Tables, ch: int, p: InPacket, extended: bool, rest: seq<byte>)
    requires 0 <= ch < |tb.stored|
    ensures var r := Keep(tb, ch, p, extended, []);
      r.Chunk? && Keep(tb, ch, p, extended, rest) == Chunk(r.tables, r.packet, rest)
  {
  }

  /** A completed packet that has a size has a body, so the handlers never meet a null one. */
  predicate HasBody(p: InPacket) {
    p.Ready() && p.bodySize > 0 ==> p.body.Some?
  }

  /** The body bytes of one chunk: at most the chunk size, at most what the packet still misses. */
  function ReadBody(tb: Tables, fmt: HeaderType, channel: nat, h: HeaderRead): (r: ReadResult)
    requires channel < |tb.stored|
    ensures r.Chunk? ==> |r.rest| <= |h.rest| && HasBody(r.packet)
  {
    var p := Allocate(h.packet, fmt);
    var k := Min(tb.chunkSize, p.bodySize - p.bytesRead);
    if k < 0 || |h.rest| < k then Failed
    else Keep(tb, channel, Fill(p, h.rest[..k]), h.extended, h.rest[k..])
  }

  /** One call of RTMP_ReadPacket; `Failed` is its FALSE, after which the connection is closed. */
  function ReadChunk(tb: Tables, pkt: InPacket, w: seq<byte>): (r: ReadResult)
    ensures r.Chunk? ==> |r.rest| < |w| && HasBody(r.packet)
  {
    match ReadBasicHeader(w)
    case None => Failed
    case Some(b) =>
      var tb1 := Grow(tb, b.channel);
      match ReadHeader(StartFrom(tb1, pkt, b.fmt, b.channel), b.fmt, b.rest)
      case None => Failed
      case Some(h) => ReadBody(tb1, b.fmt, b.channel, h)
  }

  /** The callers' loop: read chunks until a packet is complete. */
  function ReadMessage(tb: Tables, pkt: InPacket, w: seq<byte>): (r: ReadResult)
    ensures r.Chunk? ==> |r.rest| < |w| && r.packet.Ready() && HasBody(r.packet)
    decreases |w|
  {
    match ReadChunk(tb, pkt, w)
    case Failed => Failed
    case Chunk(tb', p', rest) =>
      if p'.Ready() then Chunk(tb', p', rest) else ReadMessage(tb', p', rest)
  }

  /** HandleChangeChunkSize, which the callers run on every completed chunk-size message. */
  function Handle(tb: Tables, p: InPacket): Tables {
    if p.typ == CHUNK_SIZE_TYPE && p.bodySize >= 4 && p.body.Some?
    then tb.(chunkSize := AsSigned(DecodeInt32(p.body.value))) else tb
  }

  /** What a completed packet tells the application. */
  datatype Delivered = Delivered(typ: byte, channel: int, timestamp: uint32, info: uint32, body: seq<byte>)

  function Deliver(p: InPacket): Delivered {
    Delivered(p.typ, p.channel, p.timestamp, p.info, if p.body.Some? then p.body.value else [])
  }

  datatype Received = Received(packets: seq<Delivered>, complete: bool)

  /** Reads a whole stream; `complete` says that every byte of it was understood. */
  function Receive(tb: Tables, pkt: InPacket, w: seq<byte>): Received
    decreases |w|
  {
    if w == [] then Received([], true)
    else match ReadMessage(tb, pkt, w)
      case Failed => Received([], false)
      case Chunk(tb', p, rest) =>
        var more := Receive(Handle(tb', p), p.(body := None), rest);
        Received([Deliver(p)] + more.packets, more.complete)
  }
}
