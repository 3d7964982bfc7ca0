/**
 RTMP chunking (section 5.3 of the RTMP 1.0 specification) on values: what one message looks like on the
 wire, given the header type the sender settled on. The in-place sender is proved against this module and
 the reader is proved to invert it.
 */
module ChunkFormat {
  import opened Bytes

  const LARGE := 0
  const MEDIUM := 1
  const SMALL := 2
  const MINIMUM := 3

  const CHUNK_SIZE_TYPE := 1
  const INVOKE_TYPE := 20

  /** RTMP_MAX_HEADER_SIZE: the bytes every allocated body keeps free in front of it. */
  const RESERVED := 18

  type HeaderType = t: int | 0 <= t <= 3

  /** The RTMPPacket fields that travel on the wire or are kept as channel history. */
  datatype Header = Header(fmt: int, channel: int, typ: byte, timestamp: uint32, info: uint32, bodySize: nat)

  /** Sizes of the four header forms, basic header byte included. */
  function PacketSize(fmt: HeaderType): nat {
    if fmt == LARGE then 12 else if fmt == MEDIUM then 8 else if fmt == SMALL then 4 else 1
  }

  /** Extra basic-header bytes for channels beyond 63 and beyond 319. */
  function ChannelBytes(channel: int): nat {
    if channel > 319 then 2 else if channel > 63 then 1 else 0
  }

  predicate ValidChannel(channel: int) {
    2 <= channel <= 65599
  }

  function BasicHeader(fmt: HeaderType, channel: int): (s: seq<byte>)
    requires ValidChannel(channel)
    ensures |s| == 1 + ChannelBytes(channel)
  {
    if channel > 319 then [fmt * 64 + 1, (channel - 64) % 256, (channel - 64) / 256]
    else if channel > 63 then [fmt * 64, (channel - 64) % 256]
    else [fmt * 64 + channel]
  }

  predicate Extended(fmt: HeaderType, t: uint32) {
    fmt != MINIMUM && t >= 0xffffff
  }

  /** The message header after the basic header: time field, length and type, stream id, extended time. */
  function MessageHeader(fmt: HeaderType, t: uint32, h: Header): (s: seq<byte>)
    ensures |s| == PacketSize(fmt) - 1 + if Extended(fmt, t) then 4 else 0
  {
    (if fmt <= SMALL then Int24(Min(t, 0xffffff)) else [])
    + (if fmt <= MEDIUM then Int24(h.bodySize) + [h.typ] else [])
    + (if fmt == LARGE then Int32LE(h.info) else [])
    + (if Extended(fmt, t) then Int32(t) else [])
  }

  function FullHeader(fmt: HeaderType, t: uint32, h: Header): (s: seq<byte>)
    requires ValidChannel(h.channel)
    ensures |s| == PacketSize(fmt) + ChannelBytes(h.channel) + if Extended(fmt, t) then 4 else 0
  {
    BasicHeader(fmt, h.channel) + MessageHeader(fmt, t, h)
  }

  /** The chunks after the first one: each a one-byte-form header and at most n body bytes. */
  function Continuations(channel: int, body: seq<byte>, n: int): seq<byte>
    requires ValidChannel(channel) && n >= 1
  {
    if body == [] then []
    else
      var k := Min(n, |body|);
      BasicHeader(MINIMUM, channel) + body[..k] + Continuations(channel, body[k..], n)
  }

  /** A whole message: first header, first body bytes, continuation chunks. */
  function Chunked(header: seq<byte>, channel: int, body: seq<byte>, n: int): seq<byte>
    requires ValidChannel(channel) && n >= 1
  {
    var k := Min(n, |body|);
    header + body[..k] + Continuations(channel, body[k..], n)
  }

  /** The header form the sender ends up with: it compresses MEDIUM against the channel's last packet. */
  function FinalFmt(prev: Option<Header>, h: Header): int {
    if prev.None? || h.fmt == LARGE then h.fmt
    else
      var fmt := if prev.value.bodySize == h.bodySize && prev.value.typ == h.typ && h.fmt == MEDIUM
                 then SMALL else h.fmt;
      if prev.value.timestamp == h.timestamp && fmt == SMALL then MINIMUM else fmt
  }

  /** The time that goes on the wire: absolute for LARGE or a fresh channel, else the delta mod 2^32. */
  function WireTime(prev: Option<Header>, h: Header): uint32 {
    if prev.Some? && h.fmt != LARGE then (h.timestamp - prev.value.timestamp) % TWO32 else h.timestamp
  }

  /** The bytes of one message for a sender whose last packet on the channel was `prev`. */
  function Message(prev: Option<Header>, h: Header, body: seq<byte>, n: int): seq<byte>
    requires ValidChannel(h.channel) && n >= 1 && 0 <= FinalFmt(prev, h) <= 3
  {
    var fmt := FinalFmt(prev, h);
    Chunked(FullHeader(fmt, WireTime(prev, h), h), h.channel, body, n)
  }

  /** The message RTMP_SendChunkSize announces 32768 with. */
  function ChunkSizeHeader(): Header {
    Header(LARGE, 2, CHUNK_SIZE_TYPE, 0, 0, 4)
  }

  function ChunkSizeBody(): seq<byte> {
    Int32(32768)
  }
}
