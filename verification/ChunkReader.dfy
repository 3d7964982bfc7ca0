/**
 RTMP_ReadPacket in place: the packet structs of the channel table hold pointers to body buffers, which the
 reader allocates, fills chunk by chunk and finally hands to the caller. Proved against ChunkReading.
 */
module ChunkReader {
  import opened Bytes
  import opened ChunkFormat
  import opened ChunkReading

  /** RTMPPacket as the table stores it; copying it copies the pointer, as memcpy does. */
  datatype PacketStruct = PacketStruct(fmt: int, typ: byte, hasAbs: bool, channel: int, timestamp: uint32,
                                       info: uint32, bodySize: nat, bytesRead: nat, body: array?<byte>)

  ghost predicate Sized(p: PacketStruct) {
    p.body != null ==> p.body.Length == p.bodySize
  }

  /** The packet as a value. */
  ghost function View(p: PacketStruct): InPacket
    requires Sized(p)
    reads p.body
  {
    InPacket(p.fmt, p.typ, p.hasAbs, p.channel, p.timestamp, p.info, p.bodySize, p.bytesRead,
             if p.body == null then None else Some(p.body[..]))
  }

  class Reader {
    // The bytes the peer has sent and this side has not read yet.
    var input: seq<byte>
    var vecChannelsIn: seq<Option<PacketStruct>>
    var channelTimestamp: seq<uint32>
    var inChunkSize: int

    ghost function Bodies(): set<array<byte>>
      reads `vecChannelsIn
    {
      set i | 0 <= i < |vecChannelsIn| && vecChannelsIn[i].Some? && vecChannelsIn[i].value.body != null
        :: vecChannelsIn[i].value.body
    }

    /** Every body buffer reachable from the table or from the caller's packet. */
    ghost function Owned(p: PacketStruct): set<array<byte>>
      reads `vecChannelsIn
    {
      Bodies() + if p.body == null then {} else {p.body}
    }

    /** Each stored body has its packet's size and belongs to one channel only. */
    ghost predicate Valid()
      reads `vecChannelsIn, `channelTimestamp
    {
      && |vecChannelsIn| == |channelTimestamp|
      && (forall i :: 0 <= i < |vecChannelsIn| && vecChannelsIn[i].Some? ==> Sized(vecChannelsIn[i].value))
      && (forall i, j :: 0 <= i < j < |vecChannelsIn| && vecChannelsIn[i].Some? && vecChannelsIn[j].Some?
           ==> vecChannelsIn[i].value.body == null || vecChannelsIn[i].value.body != vecChannelsIn[j].value.body)
    }

    /** The tables are those of the value-level reader `tb`. */
    ghost predicate Shows(tb: Tables)
      requires Valid()
      reads `vecChannelsIn, `channelTimestamp, `inChunkSize, Bodies()
    {
      && |tb.stored| == |vecChannelsIn| && tb.absTime == channelTimestamp && tb.chunkSize == inChunkSize
      && forall i :: 0 <= i < |vecChannelsIn| ==> tb.stored[i] == ViewAt(vecChannelsIn[i])
    }

    /** The same for every channel but one, whose body is being filled. */
    ghost predicate ShowsBut(tb: Tables, channel: nat)
      requires Valid()
      reads `vecChannelsIn, `channelTimestamp, `inChunkSize, Bodies()
    {
      && |tb.stored| == |vecChannelsIn| && tb.absTime == channelTimestamp && tb.chunkSize == inChunkSize
      && forall i :: 0 <= i < |vecChannelsIn| && i != channel ==> tb.stored[i] == ViewAt(vecChannelsIn[i])
    }

    ghost function ViewAt(p: Option<PacketStruct>): Option<InPacket>
      requires p.Some? ==> Sized(p.value)
      reads if p.Some? then {p.value.body} else {}
    {
      if p.Some? then Some(View(p.value)) else None
    }

    constructor (input: seq<byte>)
      ensures Valid() && Shows(Tables([], [], 128)) && this.input == input
    {
      this.input, vecChannelsIn, channelTimestamp, inChunkSize := input, [], [], 128;
    }

    /** ReadN: all n bytes or failure. */
    method ReadN(a: array<byte>, at: nat, n: int) returns (ok: bool)
      requires at <= a.Length && at + n <= a.Length
      modifies a, this`input
      ensures ok == (0 <= n <= |old(input)|)
      ensures ok ==> input == old(input)[n..] && a[at..at + n] == old(input)[..n]
      ensures forall i | 0 <= i < a.Length && !(at <= i < at + n) :: a[i] == old(a[i])
    {
      if n < 0 {
        return false;
      }
      var k := if n <= |input| then n else |input|;
      for i := 0 to k
        invariant input == old(input)
        invariant a[at..at + i] == input[..i]
        invariant forall j | 0 <= j < a.Length && !(at <= j < at + n) :: a[j] == old(a[j])
      {
        a[at + i] := input[i];
      }
      input := input[k..];
      ok := k == n;
    }

    /** The basic header: format, channel and the cursor behind it. */
    method ReadBasic(hbuf: array<byte>) returns (ok: bool, fmt: HeaderType, channel: nat, header: nat)
      requires hbuf.Length == RESERVED
      modifies hbuf, this`input
      ensures ok == ReadBasicHeader(old(input)).Some?
      ensures ok ==> ReadBasicHeader(old(input)) == Some(BasicHeaderRead(fmt, channel, input))
      ensures header <= 3
    {
      fmt, channel, header := 0, 0, 1;
      ok := ReadN(hbuf, 0, 1);
      if !ok {
        return;
      }
      assert hbuf[0] == hbuf[0..1][0];
      fmt, channel := hbuf[0] / 64, hbuf[0] % 64;
      if channel == 0 {
        ok := ReadN(hbuf, 1, 1);
        if ok {
          assert hbuf[1] == hbuf[1..2][0];
          channel, header := hbuf[1] as int + 64, 2;
        }
      } else if channel == 1 {
        ok := ReadN(hbuf, 1, 2);
        if ok {
          assert hbuf[1] == hbuf[1..3][0] && hbuf[2] == hbuf[1..3][1];
          var tmp := hbuf[2] as int * 256 + hbuf[1];
          channel, header := tmp + 64, 3;
        }
      }
    }

    method GrowTables(channel: nat, ghost tb: Tables)
      requires Valid() && Shows(tb)
      modifies this`vecChannelsIn, this`channelTimestamp
      ensures Valid() && Shows(Grow(tb, channel)) && Bodies() == old(Bodies())
      ensures channel < |vecChannelsIn|
      ensures forall i | 0 <= i < |vecChannelsIn| ::
        vecChannelsIn[i] == if i < |old(vecChannelsIn)| then old(vecChannelsIn)[i] else None
    {
      if channel >= |vecChannelsIn| {
        var n := channel + 10;
        channelTimestamp := channelTimestamp + seq(n - |channelTimestamp|, _ => 0);
        ghost var before := vecChannelsIn;
        vecChannelsIn := vecChannelsIn + seq(n - |vecChannelsIn|, _ => None);
        assert forall i | 0 <= i < |before| :: vecChannelsIn[i] == before[i];
        assert forall b :: b in Bodies() <==> b in old(Bodies());
      }
    }

    /** The fields a header of this form carries; a new length drops the body. */
    method FixedFields(bytes: seq<byte>, fmt: HeaderType, p: PacketStruct) returns (q: PacketStruct)
      requires Sized(p) && |bytes| == PacketSize(fmt) - 1
      ensures Sized(q) && q.channel == p.channel && q.body in {p.body, null}
      ensures View(q) == ReadFields(View(p), fmt, bytes)
    {
      q := p;
      var nSize := |bytes|;
      if nSize >= 3 {
        q := q.(timestamp := DecodeInt24(bytes));
        if nSize >= 6 {
          q := q.(bodySize := DecodeInt24(bytes[3..]), bytesRead := 0, body := null);
          if nSize > 6 {
            q := q.(typ := bytes[6]);
            if nSize == 11 {
              q := q.(info := DecodeInt32LE(bytes[7..]));
            }
          }
        }
      }
    }

    /** The message header behind the basic header, read into the rest of the header buffer. */
    method ReadMessageHeader(hbuf: array<byte>, header: nat, fmt: HeaderType, p: PacketStruct)
      returns (ok: bool, q: PacketStruct, extended: bool)
      requires hbuf.Length == RESERVED && header <= 3 && Sized(p) && hbuf != p.body
      modifies hbuf, this`input
      ensures ok == ReadHeader(old(View(p)), fmt, old(input)).Some?
      ensures ok ==> Sized(q) && q.channel == p.channel && q.body in {p.body, null}
      ensures ok ==> ReadHeader(old(View(p)), fmt, old(input)) == Some(HeaderRead(View(q), extended, input))
    {
      hide ReadFields;
      q, extended := p, false;
      var nSize := PacketSize(fmt) - 1;
      ghost var w := input;
      ok := ReadN(hbuf, header, nSize);
      if !ok {
        return;
      }
      ghost var view := View(p);
      q := FixedFields(hbuf[header..header + nSize], fmt, p);
      FieldsFromBytes(view, fmt, w);
      extended := q.timestamp == 0xffffff;
      if extended {
        ghost var rest := input;
        ok := ReadN(hbuf, header + nSize, 4);
        if ok {
          q := q.(timestamp := DecodeInt32(hbuf[header + nSize..header + nSize + 4]));
        }
      }
    }

    /** The fields depend on the header bytes only. */
    lemma FieldsFromBytes(p: InPacket, fmt: HeaderType, w: seq<byte>)
      requires |w| >= PacketSize(fmt) - 1
      ensures ReadFields(p, fmt, w) == ReadFields(p, fmt, w[..PacketSize(fmt) - 1])
    {
    }

    /** No other channel's stored packet shares this body. */
    ghost predicate Owns(channel: nat, body: array?<byte>)
      reads `vecChannelsIn
    {
      body != null ==> forall i :: 0 <= i < |vecChannelsIn| && i != channel && vecChannelsIn[i].Some?
                                   ==> vecChannelsIn[i].value.body != body
    }

    method AllocateBody(fmt: HeaderType, p: PacketStruct) returns (q: PacketStruct)
      requires Sized(p)
      ensures Sized(q) && q.channel == p.channel && (q.body == p.body || fresh(q.body))
      ensures View(q) == Allocate(View(p), fmt) && (q.bodySize > 0 ==> q.body != null)
    {
      q := p;
      if q.bodySize > 0 && q.body == null {
        var buf := new byte[q.bodySize](_ => 0);
        q := q.(body := buf, fmt := fmt);
        assert buf[..] == seq(q.bodySize, _ => 0);
      }
    }

    lemma FillIs(p: InPacket, bytes: seq<byte>)
      requires p.bytesRead + |bytes| <= p.bodySize && p.body.Some?
      ensures var b, at := p.body.value, p.bytesRead;
        Fill(p, bytes) == p.(body := Some(b[..at] + bytes + b[at + |bytes|..]), bytesRead := at + |bytes|)
    {
      var b, at := p.body.value, p.bytesRead;
      if bytes == [] {
        assert b[..at] + bytes + b[at + |bytes|..] == b;
      }
    }

    /** This chunk's body bytes, read behind those the packet already has. */
    method ReadBodyBytes(p: PacketStruct) returns (ok: bool, q: PacketStruct)
      requires Sized(p) && (p.bodySize > 0 ==> p.body != null)
      modifies p.body, this`input
      ensures Sized(q) && q.channel == p.channel && q.body == p.body
      ensures var k := Min(inChunkSize, p.bodySize - p.bytesRead);
        && ok == (0 <= k <= |old(input)|)
        && (ok ==> View(q) == Fill(old(View(p)), old(input)[..k]) && input == old(input)[k..])
    {
      hide Fill;
      q, ok := p, true;
      var nToRead := q.bodySize - q.bytesRead;
      var nChunk := inChunkSize;
      if nToRead < nChunk {
        nChunk := nToRead;
      }
      if nChunk < 0 {
        return false, q;
      }
      ghost var before, w := View(p), input;
      if q.body == null {
        assert Fill(before, w[..0]) == before by { NothingToFill(before, w); }
        return;
      }
      var at := q.bytesRead;
      ok := ReadN(q.body, at, nChunk);
      if ok {
        q := q.(bytesRead := at + nChunk);
        FillIs(before, w[..nChunk]);
        assert q.body[..] == before.body.value[..at] + w[..nChunk] + before.body.value[at + nChunk..];
      }
    }

    lemma NothingToFill(p: InPacket, w: seq<byte>)
      ensures Fill(p, w[..0]) == p
    {
    }

    /** The packet becomes the channel's reference; when complete it leaves with its body and absolute time. */
    method KeepPacket(channel: nat, p: PacketStruct, extended: bool, ghost tb: Tables) returns (q: PacketStruct)
      requires Valid() && ShowsBut(tb, channel) && channel < |vecChannelsIn|
      requires Sized(p) && Owns(channel, p.body)
      modifies this`vecChannelsIn, this`channelTimestamp
      ensures Valid() && Sized(q) && Owns(|vecChannelsIn|, q.body)
      ensures var r := Keep(tb, channel, View(p), extended, []);
        Shows(r.tables) && View(q) == r.packet
      ensures q.body in {p.body, null}
      ensures Bodies() <= old(Bodies()) + if p.body == null then {} else {p.body}
    {
      q := p;
      var stored := if extended then p.(timestamp := 0xffffff) else p;
      if p.bytesRead == p.bodySize {
        if !p.hasAbs {
          q := q.(timestamp := (q.timestamp + channelTimestamp[channel]) % TWO32);
        }
        channelTimestamp := channelTimestamp[channel := q.timestamp];
        stored := stored.(body := null, bytesRead := 0, hasAbs := false);
      } else {
        q := q.(body := null);
      }
      vecChannelsIn := vecChannelsIn[channel := Some(stored)];
    }

    /**
     RTMP_ReadPacket: one chunk. It succeeds exactly when the value-level reader does, and then consumes the
     same bytes, leaves the same tables and fills the same packet.
     */
    method ReadPacket(packet: PacketStruct, ghost tb: Tables) returns (ok: bool, q: PacketStruct)
      requires Valid() && Shows(tb) && Sized(packet) && Owns(|vecChannelsIn|, packet.body)
      modifies this`input, this`vecChannelsIn, this`channelTimestamp, Bodies(), packet.body
      ensures ok == ReadChunk(tb, old(View(packet)), old(input)).Chunk?
      ensures ok ==> Valid() && Sized(q) && Owns(|vecChannelsIn|, q.body)
      ensures ok ==> var r := ReadChunk(tb, old(View(packet)), old(input));
        Shows(r.tables) && View(q) == r.packet && input == r.rest
      ensures ok ==> fresh(Owned(q) - old(Owned(packet)))
    {
      hide ReadBody, ReadHeader, ReadBasicHeader, Grow, StartFrom, Shows;
      ghost var pkt, w := View(packet), input;
      q := packet;
      var hbuf := new byte[RESERVED](_ => 0);
      var fmt, channel, header;
      ok, fmt, channel, header := ReadBasic(hbuf);
      if !ok {
        return;
      }
      var p := StartPacket(packet, fmt, channel, tb);
      var extended;
      ok, p, extended := ReadMessageHeader(hbuf, header, fmt, p);
      if !ok {
        return;
      }
      ok, q := FinishChunk(channel, fmt, p, extended, Grow(tb, channel));
    }

    /** Room in the tables, and the packet this chunk continues or opens. */
    method StartPacket(packet: PacketStruct, fmt: HeaderType, channel: nat, ghost tb: Tables)
      returns (p: PacketStruct)
      requires Valid() && Shows(tb) && Sized(packet) && Owns(|vecChannelsIn|, packet.body)
      modifies this`vecChannelsIn, this`channelTimestamp
      ensures Valid() && Shows(Grow(tb, channel)) && channel < |vecChannelsIn| && Bodies() == old(Bodies())
      ensures Sized(p) && Owns(channel, p.body)
      ensures Owned(p) <= old(Owned(packet))
      ensures View(p) == StartFrom(Grow(tb, channel), View(packet), fmt, channel)
    {
      hide Grow;
      GrowTables(channel, tb);
      p := packet.(fmt := fmt, channel := channel);
      if fmt == LARGE {
        p := p.(hasAbs := true);
      } else if vecChannelsIn[channel].Some? {
        p := vecChannelsIn[channel].value;
      }
    }

    /** The rest of the call, once the header is known. */
    method FinishChunk(channel: nat, fmt: HeaderType, p0: PacketStruct, extended: bool, ghost tb: Tables)
      returns (ok: bool, q: PacketStruct)
      requires Valid() && Shows(tb) && channel < |vecChannelsIn| && Sized(p0) && Owns(channel, p0.body)
      modifies this`input, this`vecChannelsIn, this`channelTimestamp, p0.body
      ensures var r := ReadBody(tb, fmt, channel, HeaderRead(old(View(p0)), extended, old(input)));
        && ok == r.Chunk?
        && (ok ==> Valid() && Sized(q) && Owns(|vecChannelsIn|, q.body)
                   && Shows(r.tables) && View(q) == r.packet && input == r.rest)
      ensures ok ==> fresh(Owned(q) - old(Owned(p0)))
    {
      hide Keep, Fill, Allocate;
      q := p0;
      var p := AllocateBody(fmt, p0);
      ok, p := ReadBodyBytes(p);
      if ok {
        q := KeepPacket(channel, p, extended, tb);
        KeepRest(tb, channel, View(p), extended, input);
      }
    }

    /** HandleChangeChunkSize, run on every completed chunk-size message. */
    method HandleChunkSize(p: PacketStruct, ghost tb: Tables)
      requires Valid() && Shows(tb) && Sized(p) && p.typ == CHUNK_SIZE_TYPE
      requires p.bodySize >= 4 ==> p.body != null
      modifies this`inChunkSize
      ensures Valid() && Shows(Handle(tb, View(p)))
    {
      if p.bodySize >= 4 {
        inChunkSize := AsSigned(DecodeInt32(p.body[..]));
      }
    }
  }
}
