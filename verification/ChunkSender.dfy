/**
 RTMP_SendPacket: the header is written backwards into the bytes reserved in front of the body, and the body
 is split by writing each continuation header over body bytes that have already been sent.
 */
module ChunkSender {
  import opened Bytes
  import opened Arith
  import opened ChunkFormat

  /** An outgoing RTMPPacket: `buf` holds the reserved bytes and then the body; null is a null `m_body`. */
  class Packet {
    var headerType: byte
    var packetType: byte
    var channel: int
    var timestamp: uint32
    var info: uint32
    var bodySize: uint32
    var buf: array?<byte>

    ghost predicate Valid()
      reads this, buf
    {
      && ValidChannel(channel)
      && (buf == null ==> bodySize == 0)
      && (buf != null ==> buf.Length >= RESERVED + bodySize)
    }

    ghost function Body(): seq<byte>
      requires Valid()
      reads this, buf
    {
      if buf == null then [] else buf[RESERVED..RESERVED + bodySize]
    }

    function ToHeader(): Header
      reads this
    {
      Header(headerType, channel, packetType, timestamp, info, bodySize)
    }

    constructor Alloc(channel: int, headerType: byte, packetType: byte, timestamp: uint32, info: uint32,
                      bodySize: uint32)
      requires ValidChannel(channel)
      ensures Valid() && fresh(this) && fresh(buf) && buf.Length == RESERVED + bodySize
      ensures ToHeader() == Header(headerType, channel, packetType, timestamp, info, bodySize)
    {
      this.channel, this.headerType, this.packetType := channel, headerType, packetType;
      this.timestamp, this.info, this.bodySize := timestamp, info, bodySize;
      buf := new byte[RESERVED + bodySize](_ => 0);
    }
  }

  /** Number of continuation chunks for a body of `size` bytes. */
  ghost function ContinuationCount(size: nat, n: int): nat
    requires n >= 1
  {
    if size <= n then 0 else 1 + ContinuationCount(size - n, n)
  }

  lemma {:induction false} CountWithinDivision(size: nat, n: int)
    requires n >= 1 && size >= 1
    ensures ContinuationCount(size, n) + 1 <= (size + n - 1) / n
  {
    QuotientNext(size - 1, n);
    assert size - 1 + n == size + n - 1;
    if size > n {
      CountWithinDivision(size - n, n);
      assert size - n + n - 1 == size - 1;
    }
  }

  /** The bytes still to be sent when the header and then the body rest are laid out in `s`. */
  ghost function Pending(s: seq<byte>, hSize: nat, channel: int, n: int): seq<byte>
    requires ValidChannel(channel) && n >= 1 && hSize <= |s|
  {
    if hSize == 0 then [] else Chunked(s[..hSize], channel, s[hSize..], n)
  }

  lemma NothingPending(s: seq<byte>, channel: int, n: int)
    requires ValidChannel(channel) && n >= 1
    ensures Pending(s, 0, channel, n) == []
  {
  }

  lemma ContinuationsLength(channel: int, body: seq<byte>, n: int)
    requires ValidChannel(channel) && n >= 1
    ensures |body| > 0 ==>
      |Continuations(channel, body, n)|
      == |body| + (1 + ContinuationCount(|body|, n)) * (1 + ChannelBytes(channel))
  {
  }

  lemma MulMonotone(x: int, y: int, e: nat)
    requires x + 1 <= y
    ensures (x + 1) * e <= y * e
  {
    assert y * e == (x + 1) * e + (y - x - 1) * e;
  }

  /** How many of a message's first body bytes its own continuation headers leave alone. */
  function Kept(size: nat, n: int, channel: int): (k: nat)
    requires n >= 1
    ensures k <= size
  {
    if size <= n then size else if n <= 1 + ChannelBytes(channel) then 0 else n - 1 - ChannelBytes(channel)
  }

  /** A remote call: its name and the eight bytes of its number. */
  datatype Call = Call(name: seq<byte>, num: seq<byte>)

  /** The call, where the sender looks for it in the body once it has been sent; none if the body is too short. */
  function CallIn(body: seq<byte>): Option<Call> {
    if |body| < 3 || |body| < 12 + DecodeInt16(body[1..]) then None
    else
      var n := DecodeInt16(body[1..]);
      Some(Call(body[3..3 + n], body[4 + n..12 + n]))
  }

  /** A call is recorded as it was sent whenever it lies within the bytes that no continuation header reaches. */
  lemma CallReadBack(body: seq<byte>, after: seq<byte>, k: nat)
    requires k <= |body| == |after| && after[..k] == body[..k]
    requires CallIn(body).Some? && k >= 12 + |CallIn(body).value.name|
    ensures CallIn(after) == CallIn(body)
  {
    var n := |CallIn(body).value.name|;
    assert forall i :: 0 <= i < k ==> after[..k][i] == after[i] && body[..k][i] == body[i];
    assert after[1] == body[1] && after[2] == body[2];
    assert after[3..3 + n] == after[..k][3..3 + n] == body[3..3 + n];
    assert after[4 + n..12 + n] == after[..k][4 + n..12 + n] == body[4 + n..12 + n];
  }

  /** The body of an invoke: a string, a number and whatever else it carries. */
  function InvokeBody(name: seq<byte>, num: seq<byte>, rest: seq<byte>): seq<byte> {
    [2] + Int16(|name|) + name + [0] + num + rest
  }

  lemma CallInBody(name: seq<byte>, num: seq<byte>, rest: seq<byte>)
    requires |name| < 0x1_0000 && |num| == 8
    ensures CallIn(InvokeBody(name, num, rest)) == Some(Call(name, num))
  {
    var body := InvokeBody(name, num, rest);
    assert body[1] == Int16(|name|)[0] && body[2] == Int16(|name|)[1];
    assert body[3..3 + |name|] == name;
    assert body[4 + |name|..12 + |name|] == num;
  }

  /** With either chunk size of the program a call whose name has at most 113 bytes is recorded as it was sent; connect,
    * createStream and publish have at most 12. */
  lemma CallRecorded(name: seq<byte>, num: seq<byte>, rest: seq<byte>, channel: int, n: int, after: seq<byte>)
    requires |name| <= 113 && |num| == 8 && (n == 128 || n == 32768)
    requires
      var body := InvokeBody(name, num, rest);
      |after| == |body| && var k := Kept(|body|, n, channel); after[..k] == body[..k]
    ensures CallIn(after) == Some(Call(name, num))
  {
    hide CallIn, Int16;
    var body := InvokeBody(name, num, rest);
    CallInBody(name, num, rest);
    CallReadBack(body, after, Kept(|body|, n, channel));
  }

  /** The first `k` bytes from `at` on are as they were. */
  ghost predicate Keeps(a: array<byte>, before: seq<byte>, at: nat, k: nat)
    reads a
  {
    at + k <= |before| == a.Length && a[at..at + k] == before[at..at + k]
  }

  /** What RTMP_Close clears: the last packet of each channel and the calls waiting for a result. */
  datatype Link = Link(open: bool, vecChannelsOut: seq<Option<Header>>, methodCalls: seq<Call>)

  const CLOSED := Link(false, [], [])

  class Sender {
    var link: Link
    var outChunkSize: int
    const http: bool
    /** A transport that accepts no more reports an error, which closes the connection, or zero bytes. */
    const fatal: bool
    var wire: seq<byte>
    // How many more bytes the transport accepts before a write fails.
    var capacity: nat

    constructor (http: bool, fatal: bool, chunkSize: int, capacity: nat)
      ensures link == Link(true, [], []) && outChunkSize == chunkSize && wire == []
      ensures this.capacity == capacity && this.http == http && this.fatal == fatal
    {
      link, outChunkSize, wire := Link(true, [], []), chunkSize, [];
      this.http, this.fatal, this.capacity := http, fatal, capacity;
    }

    /** The last packet sent on a channel, if any; channels beyond the table have no history. */
    ghost function History(channel: int): Option<Header>
      reads this
    {
      if 0 <= channel < |link.vecChannelsOut| then link.vecChannelsOut[channel] else None
    }

    /** The connection after a write. */
    ghost function LinkAfter(before: Link, wrote: bool): Link {
      if wrote || !fatal then before else CLOSED
    }

    method WriteN(a: array<byte>, from: nat, len: nat) returns (ok: bool)
      requires from + len <= a.Length
      modifies this`wire, this`capacity, this`link
      ensures ok == (len <= old(capacity))
      ensures wire == old(wire) + a[from..from + len][..Min(len, old(capacity))]
      ensures capacity == old(capacity) - Min(len, old(capacity))
      ensures link == LinkAfter(old(link), ok)
    {
      var k := if len <= capacity then len else capacity;
      wire := wire + a[from..from + k];
      capacity := capacity - k;
      ok := k == len;
      if !ok && fatal {
        link := CLOSED;
      }
    }

    /** memcpy at a cursor; `start` is where the bytes being laid out began. */
    method Put(a: array<byte>, ghost start: nat, at: nat, s: seq<byte>) returns (next: nat)
      requires start <= at && at + |s| <= a.Length
      modifies a
      ensures next == at + |s|
      ensures a[start..next] == old(a[start..at]) + s
      ensures forall i | 0 <= i < start || next <= i < a.Length :: a[i] == old(a[i])
    {
      for i := 0 to |s|
        invariant a[at..at + i] == s[..i]
        invariant forall j | 0 <= j < at || at + |s| <= j < a.Length :: a[j] == old(a[j])
      {
        a[at + i] := s[i];
      }
      next := at + |s|;
      assert a[start..next] == a[..at][start..] + a[at..next];
    }

    method WriteHeader(a: array<byte>, at: nat, fmt: HeaderType, t: uint32, h: Header) returns (next: nat)
      requires ValidChannel(h.channel)
      requires at + |FullHeader(fmt, t, h)| <= a.Length
      modifies a
      ensures next == at + |FullHeader(fmt, t, h)|
      ensures a[at..next] == FullHeader(fmt, t, h)
      ensures forall i | 0 <= i < at || next <= i < a.Length :: a[i] == old(a[i])
    {
      next := Put(a, at, at, BasicHeader(fmt, h.channel));
      next := PutMessageHeader(a, at, next, fmt, t, h);
    }

    method PutMessageHeader(a: array<byte>, ghost start: nat, at: nat, fmt: HeaderType, t: uint32, h: Header)
      returns (next: nat)
      requires start <= at && at + |MessageHeader(fmt, t, h)| <= a.Length
      modifies a
      ensures next == at + |MessageHeader(fmt, t, h)|
      ensures a[start..next] == old(a[start..at]) + MessageHeader(fmt, t, h)
      ensures forall i | 0 <= i < start || next <= i < a.Length :: a[i] == old(a[i])
    {
      hide Int16, Int24, Int32, Int32LE;
      next := at;
      ghost var base, done := a[start..at], [];
      assert base + done == base;
      if fmt <= SMALL {
        next, done := PutPart(a, start, next, Int24(Min(t, 0xffffff)), base, done);
      }
      if fmt <= MEDIUM {
        next, done := PutPart(a, start, next, Int24(h.bodySize) + [h.typ], base, done);
      }
      if fmt == LARGE {
        next, done := PutPart(a, start, next, Int32LE(h.info), base, done);
      }
      if Extended(fmt, t) {
        next, done := PutPart(a, start, next, Int32(t), base, done);
      }
      assert done == MessageHeader(fmt, t, h);
    }

    /** Another part of the message header goes behind those already there. */
    method PutPart(a: array<byte>, ghost start: nat, at: nat, s: seq<byte>, ghost base: seq<byte>,
                   ghost done: seq<byte>)
      returns (next: nat, ghost done': seq<byte>)
      requires start <= at && at + |s| <= a.Length && a[start..at] == base + done
      modifies a
      ensures next == at + |s| && done' == done + s && a[start..next] == base + done'
      ensures forall i | 0 <= i < start || next <= i < a.Length :: a[i] == old(a[i])
    {
      next := Put(a, start, at, s);
      done' := done + s;
      Assoc(base, done, s);
    }

    /** Header of a continuation chunk, written over body bytes that were already sent. */
    method PutContinuationHeader(a: array<byte>, buffer: nat, channel: int, c: byte) returns (header: nat)
      requires ValidChannel(channel) && 192 + c % 64 == BasicHeader(MINIMUM, channel)[0]
      requires 1 + ChannelBytes(channel) <= buffer <= a.Length
      modifies a
      ensures header == buffer - 1 - ChannelBytes(channel)
      ensures a[header..buffer] == BasicHeader(MINIMUM, channel)
      ensures forall i | 0 <= i < header || buffer <= i < a.Length :: a[i] == old(a[i])
    {
      header := buffer - 1;
      var cSize := ChannelBytes(channel);
      if cSize > 0 {
        header := header - cSize;
      }
      a[header] := 192 + c % 64;
      if cSize > 0 {
        var tmp := channel - 64;
        a[header + 1] := tmp % 256;
        if cSize == 2 {
          a[header + 2] := tmp / 256;
        }
      }
    }

    /** The bytes of a message and of its HTTP buffer: the buffer is never too small. */
    lemma MessageFits(header: seq<byte>, channel: int, body: seq<byte>, n: int, chunks: int)
      requires ValidChannel(channel) && n >= 1
      requires body != [] && chunks == (|body| + n - 1) / n
      ensures |Chunked(header, channel, body, n)| <= chunks * (ChannelBytes(channel) + 1) + |body| + |header|
    {
      var k := Min(n, |body|);
      CountWithinDivision(|body|, n);
      ContinuationsLength(channel, body[k..], n);
      var e := ChannelBytes(channel) + 1;
      MulMonotone(ContinuationCount(|body|, n), chunks, e);
    }

    lemma CutTotal(wire0: seq<byte>, total: seq<byte>, sent: seq<byte>, chunk: seq<byte>, cap: nat)
      requires sent + chunk <= total && |sent| <= cap < |sent| + |chunk|
      ensures (wire0 + sent) + chunk[..cap - |sent|] == wire0 + total[..cap]
    {
      assert total[..cap] == sent + chunk[..cap - |sent|];
    }

    lemma Slices(a: array<byte>, lo: nat, hi: nat, s: seq<byte>, m: nat)
      requires lo <= hi <= a.Length && s == a[lo..hi] && m <= |s|
      ensures s[..m] == a[lo..lo + m] && s[m..] == a[lo + m..hi]
    {
    }

    /**
     One turn of the loop on values. `s` holds the header, the body bytes of this chunk and the later ones;
     `s'` is what lies in the buffer when the next turn starts.
     */
    lemma TurnOfLoop(s: seq<byte>, hSize: nat, k: nat, channel: int, n: int,
                     sent: seq<byte>, total: seq<byte>, s': seq<byte>)
      requires ValidChannel(channel) && n >= 1
      requires 1 <= hSize <= |s| && k == Min(n, |s| - hSize)
      requires sent + Pending(s, hSize, channel, n) == total
      requires s' == (if hSize + k < |s| then BasicHeader(MINIMUM, channel) else []) + s[hSize + k..]
      ensures (sent + s[..hSize + k]) + Pending(s', |s'| - (|s| - hSize - k), channel, n) == total
    {
      hide Continuations, BasicHeader, Pending;
      var h' := |s'| - (|s| - hSize - k);
      FirstChunkLeaves(s, hSize, k, channel, n);
      if hSize + k < |s| {
        LaterChunks(BasicHeader(MINIMUM, channel), s[hSize + k..], channel, n);
      } else {
        assert s[hSize + k..] == [] && s' == [];
        NothingPending(s', channel, n);
        NoMoreChunks(channel, n);
      }
      Assoc(sent, s[..hSize + k], Pending(s', h', channel, n));
    }

    lemma FirstChunkLeaves(s: seq<byte>, hSize: nat, k: nat, channel: int, n: int)
      requires ValidChannel(channel) && n >= 1
      requires 1 <= hSize <= |s| && k == Min(n, |s| - hSize)
      ensures Pending(s, hSize, channel, n) == s[..hSize + k] + Continuations(channel, s[hSize + k..], n)
    {
      hide Continuations;
      assert s[..hSize] + s[hSize..][..k] == s[..hSize + k];
      assert s[hSize..][k..] == s[hSize + k..];
    }

    lemma LaterChunks(header: seq<byte>, rest: seq<byte>, channel: int, n: int)
      requires ValidChannel(channel) && n >= 1 && rest != [] && header == BasicHeader(MINIMUM, channel)
      ensures Pending(header + rest, |header|, channel, n) == Continuations(channel, rest, n)
    {
      assert (header + rest)[..|header|] == header && (header + rest)[|header|..] == rest;
    }

    lemma NoMoreChunks(channel: int, n: int)
      requires ValidChannel(channel) && n >= 1
      ensures Continuations(channel, [], n) == []
    {
    }

    /** What handing `out` over does to the transport, or to the HTTP buffer when there is one. */
    ghost predicate Emitted(out: seq<byte>, wire0: seq<byte>, capacity0: nat, link0: Link, tbuf: array?<byte>,
                            tbuf0: seq<byte>, wrote: bool, toff: nat)
      reads this, tbuf
    {
      && link == LinkAfter(link0, wrote)
      && if tbuf == null then
        && wrote == (|out| <= capacity0)
        && wire == wire0 + (if wrote then out else out[..capacity0])
        && capacity == if wrote then capacity0 - |out| else 0
      else
        && wrote && toff == |tbuf0| + |out| <= tbuf.Length && wire == wire0 && capacity == capacity0
        && tbuf[..toff] == tbuf0 + out
    }

    /** Hands a stretch of the buffer to the transport, or appends it to the HTTP buffer when there is one. */
    method Emit(a: array<byte>, from: nat, len: nat, tbuf: array?<byte>, toff: nat)
      returns (wrote: bool, toff': nat)
      requires from + len <= a.Length && tbuf != a
      requires tbuf != null ==> toff + len <= tbuf.Length
      modifies tbuf, this`wire, this`capacity, this`link
      ensures Emitted(old(a[from..from + len]), old(wire), old(capacity), old(link), tbuf,
                      if tbuf == null then [] else old(tbuf[..toff]), wrote, toff')
    {
      wrote, toff' := true, toff;
      if tbuf != null {
        for i := 0 to len
          invariant tbuf[..toff] == old(tbuf[..toff])
          invariant tbuf[toff..toff + i] == a[from..from + i]
          invariant wire == old(wire) && capacity == old(capacity) && link == old(link)
        {
          tbuf[toff + i] := a[from + i];
        }
        toff' := toff + len;
        SplitFront(tbuf, toff, toff');
      } else {
        wrote := WriteN(a, from, len);
      }
    }

    /**
     One turn of the send loop: emit the header and k body bytes, then lay the next header over the end of
     what was sent. `chunk` is what leaves, `rest` the body bytes that must survive.
     */
    method OneChunk(a: array<byte>, header: nat, buffer: nat, k: nat, nSize: nat, channel: int, c: byte,
                    tbuf: array?<byte>, toff: nat, ghost chunk: seq<byte>, ghost rest: seq<byte>,
                    ghost before: seq<byte>, ghost at: nat, ghost size: nat)
      returns (wrote: bool, toff': nat, header': nat, hSize': nat)
      requires ValidChannel(channel) && 192 + c % 64 == BasicHeader(MINIMUM, channel)[0]
      requires header + 1 + ChannelBytes(channel) <= buffer && k <= nSize && buffer + nSize <= a.Length
      requires chunk == a[header..buffer + k] && rest == a[buffer + k..buffer + nSize]
      requires tbuf != a && (tbuf != null ==> toff + |chunk| <= tbuf.Length)
      requires outChunkSize >= 1 && Keeps(a, before, at, Kept(size, outChunkSize, channel))
      requires k == nSize || outChunkSize <= buffer + k - at < size
      modifies a, tbuf, this`wire, this`capacity, this`link
      ensures Emitted(chunk, old(wire), old(capacity), old(link), tbuf,
                      if tbuf == null then [] else old(tbuf[..toff]), wrote, toff')
      ensures wrote ==> header' + hSize' == buffer + k
      ensures wrote ==> (a[header'..buffer + nSize]
        == (if k < nSize then BasicHeader(MINIMUM, channel) else []) + rest)
      ensures Keeps(a, before, at, Kept(size, outChunkSize, channel))
    {
      hide Emitted, BasicHeader, Keeps, Kept;
      wrote, toff' := Emit(a, header, buffer + k - header, tbuf, toff);
      header', hSize' := buffer + k, 0;
      if wrote && k < nSize {
        header' := NextHeader(a, buffer + k, nSize - k, channel, c, before, at, size);
        hSize' := 1 + ChannelBytes(channel);
      }
    }

    /** The header of the next chunk stands directly before the unsent body, over what has been sent. */
    method NextHeader(a: array<byte>, buffer: nat, nSize: nat, channel: int, c: byte,
                      ghost before: seq<byte>, ghost at: nat, ghost size: nat)
      returns (header: nat)
      requires ValidChannel(channel) && 192 + c % 64 == BasicHeader(MINIMUM, channel)[0]
      requires 1 + ChannelBytes(channel) <= buffer && buffer + nSize <= a.Length
      requires outChunkSize >= 1 && Keeps(a, before, at, Kept(size, outChunkSize, channel))
      requires outChunkSize <= buffer - at < size
      modifies a
      ensures header == buffer - 1 - ChannelBytes(channel)
      ensures a[header..buffer + nSize] == BasicHeader(MINIMUM, channel) + old(a[buffer..buffer + nSize])
      ensures Keeps(a, before, at, Kept(size, outChunkSize, channel))
    {
      ghost var was, kept := a[..], Kept(size, outChunkSize, channel);
      assert at + kept <= |before| == a.Length && was[at..at + kept] == before[at..at + kept];
      NextHeaderRoom(size, outChunkSize, channel, at, buffer);
      hide BasicHeader, Keeps, Kept;
      header := PutContinuationHeader(a, buffer, channel, c);
      StillKept(a, before, at, kept, was, header, buffer);
      SameRest(a, buffer, buffer + nSize, was);
      SplitAt(a, header, buffer, buffer + nSize);
    }

    lemma SplitAt(a: array<byte>, i: nat, j: nat, k: nat)
      requires i <= j <= k <= a.Length
      ensures a[i..k] == a[i..j] + a[j..k]
    {
    }

    lemma SplitFront(a: array<byte>, j: nat, k: nat)
      requires j <= k <= a.Length
      ensures a[..k] == a[..j] + a[j..k]
    {
    }

    lemma SameRest(a: array<byte>, i: nat, j: nat, was: seq<byte>)
      requires i <= j <= a.Length == |was| && forall m :: i <= m < a.Length ==> a[m] == was[m]
      ensures a[i..j] == was[i..j]
    {
    }

    /** A continuation header stays behind the bytes that are kept. */
    lemma NextHeaderRoom(size: nat, n: int, channel: int, at: nat, buffer: nat)
      requires n >= 1 && n <= buffer - at < size
      ensures at + Kept(size, n, channel) <= buffer - 1 - ChannelBytes(channel) || Kept(size, n, channel) == 0
    {
    }

    lemma StillKept(a: array<byte>, before: seq<byte>, at: nat, k: nat, was: seq<byte>, from: nat, to: nat)
      requires at + k <= |before| == a.Length == |was| && was[at..at + k] == before[at..at + k]
      requires from <= to && forall i :: 0 <= i < |was| && !(from <= i < to) ==> a[i] == was[i]
      requires at + k <= from || k == 0
      ensures Keeps(a, before, at, k)
    {
      forall i | at <= i < at + k
        ensures a[i] == before[i]
      {
        assert was[at..at + k][i - at] == before[at..at + k][i - at];
      }
    }

    method HttpBuffer(ghost s: seq<byte>, hSize: nat, nSize: nat, channel: int) returns (tbuf: array?<byte>)
      requires ValidChannel(channel) && outChunkSize >= 1 && |s| == hSize + nSize && hSize >= 1
      ensures tbuf != null ==> fresh(tbuf) && |Pending(s, hSize, channel, outChunkSize)| <= tbuf.Length
    {
      tbuf := null;
      if http {
        var chunks := (nSize + outChunkSize - 1) / outChunkSize;
        if chunks > 1 {
          MessageFits(s[..hSize], channel, s[hSize..], outChunkSize, chunks);
          tbuf := new byte[chunks * (ChannelBytes(channel) + 1) + nSize + hSize](_ => 0);
        }
      }
    }

    /** The send loop over a buffer whose header occupies [start, start + hLen) and whose body follows. */
    method SendChunks(a: array<byte>, start: nat, hLen: nat, size: nat, channel: int, c: byte)
      returns (ok: bool)
      requires ValidChannel(channel) && outChunkSize >= 1
      requires hLen >= 1 + ChannelBytes(channel) && start + hLen + size <= a.Length
      requires 192 + c % 64 == BasicHeader(MINIMUM, channel)[0]
      modifies a, this`wire, this`capacity, this`link
      ensures Keeps(a, old(a[..]), start + hLen, Kept(size, outChunkSize, channel))
      ensures var total := old(Chunked(a[start..start + hLen], channel, a[start + hLen..start + hLen + size],
                                       outChunkSize));
        && ok == (|total| <= old(capacity)) && capacity == old(capacity) - Min(|total|, old(capacity))
        && wire == old(wire) + total[..Min(|total|, old(capacity))]
      ensures link == LinkAfter(old(link), ok)
    {
      ghost var s := a[start..start + hLen + size];
      ghost var total := Pending(s, hLen, channel, outChunkSize);
      Slices(a, start, start + hLen + size, s, hLen);
      hide Chunked, Pending, Keeps, Kept, BasicHeader, ChannelBytes;
      var tbuf := HttpBuffer(s, hLen, size, channel);
      var toff;
      ok, toff := SendLoop(a, start, hLen, size, channel, c, tbuf, a[..]);
      if ok && tbuf != null {
        assert tbuf[0..toff] == tbuf[..toff] == total;
        ok := WriteN(tbuf, 0, toff);
      }
      assert total[..|total|] == total;
    }

    /** Where the send loop stands: the buffer from the header on is what is still to be sent, and what has left
      * together with what that stands for is the whole message. */
    ghost predicate Underway(a: array<byte>, header: int, hSize: int, buffer: int, nSize: int, channel: int,
                             tbuf: array?<byte>, toff: nat, s: seq<byte>, sent: seq<byte>, total: seq<byte>,
                             wire0: seq<byte>, capacity0: nat, link0: Link)
      reads this, a, tbuf
    {
      && ValidChannel(channel) && outChunkSize >= 1 && 0 <= nSize && 0 <= hSize && 0 <= header
      && header + hSize == buffer && buffer + nSize <= a.Length
      && (if hSize == 0 then nSize == 0 else hSize > ChannelBytes(channel))
      && link == link0 && s == a[header..buffer + nSize] && sent + Pending(s, hSize, channel, outChunkSize) == total
      && (tbuf == null ==> wire == wire0 + sent && capacity == capacity0 - |sent|)
      && (tbuf != null ==> wire == wire0 && capacity == capacity0)
      && (tbuf != null ==> toff == |sent| <= |total| <= tbuf.Length && tbuf[..toff] == sent)
    }

    /** One turn of the send loop. */
    method SendTurn(a: array<byte>, header: nat, hSize: nat, buffer: nat, k: nat, nSize: nat, channel: int, c: byte,
                    tbuf: array?<byte>, toff: nat, ghost s: seq<byte>, ghost sent: seq<byte>, ghost total: seq<byte>,
                    ghost wire0: seq<byte>, ghost capacity0: nat, ghost link0: Link, ghost before: seq<byte>,
                    ghost at: nat, ghost size: nat)
      returns (wrote: bool, toff': nat, header': nat, hSize': nat, ghost s': seq<byte>, ghost sent': seq<byte>)
      requires Underway(a, header, hSize, buffer, nSize, channel, tbuf, toff, s, sent, total, wire0, capacity0, link0)
      requires hSize > 0 && k == Min(outChunkSize, nSize) && tbuf != a
      requires 192 + c % 64 == BasicHeader(MINIMUM, channel)[0]
      requires Keeps(a, before, at, Kept(size, outChunkSize, channel)) && at + size == buffer + nSize && nSize <= size
      modifies a, tbuf, this`wire, this`capacity, this`link
      ensures Keeps(a, before, at, Kept(size, outChunkSize, channel))
      ensures
        wrote ==>
          Underway(a, header', hSize', buffer + k, nSize - k, channel, tbuf, toff', s', sent', total, wire0, capacity0,
                   link0)
      ensures !wrote ==> Emitted(total, wire0, capacity0, link0, tbuf, [], false, toff')
      ensures wrote && k == nSize ==> hSize' == 0
    {
      hide Pending, Chunked, Continuations, Keeps, Kept, BasicHeader;
      ghost var chunk, rest := s[..hSize + k], s[hSize + k..];
      s' := (if k < nSize then BasicHeader(MINIMUM, channel) else []) + rest;
      sent' := sent + chunk;
      TurnOfLoop(s, hSize, k, channel, outChunkSize, sent, total, s');
      Slices(a, header, buffer + nSize, s, hSize + k);
      wrote, toff', header', hSize' :=
        OneChunk(a, header, buffer, k, nSize, channel, c, tbuf, toff, chunk, rest, before, at, size);
      if wrote {
        Assoc(wire0, sent, chunk);
      } else {
        CutTotal(wire0, total, sent, chunk, capacity0);
      }
    }

    method SendLoop(a: array<byte>, start: nat, hLen: nat, size: nat, channel: int, c: byte, tbuf: array?<byte>,
                    ghost before: seq<byte>)
      returns (ok: bool, toff: nat)
      requires ValidChannel(channel) && outChunkSize >= 1
      requires hLen >= 1 + ChannelBytes(channel) && start + hLen + size <= a.Length
      requires 192 + c % 64 == BasicHeader(MINIMUM, channel)[0]
      requires tbuf != a && (tbuf != null ==>
        |Pending(a[start..start + hLen + size], hLen, channel, outChunkSize)| <= tbuf.Length)
      requires Keeps(a, before, start + hLen, Kept(size, outChunkSize, channel))
      modifies a, tbuf, this`wire, this`capacity, this`link
      ensures Emitted(old(Pending(a[start..start + hLen + size], hLen, channel, outChunkSize)),
                      old(wire), old(capacity), old(link), tbuf, [], ok, toff)
      ensures Keeps(a, before, start + hLen, Kept(size, outChunkSize, channel))
    {
      hide Pending, Underway, Keeps, Kept, Emitted, BasicHeader, ChannelBytes, ValidChannel;
      ghost var s, sent := a[start..start + hLen + size], [];
      ghost var total := Pending(s, hLen, channel, outChunkSize);
      var header, hSize, buffer, nSize := start, hLen, start + hLen, size;
      var nChunkSize := outChunkSize;
      toff := 0;
      AtStart(a, start, hLen, size, channel, tbuf, s);
      while nSize + hSize > 0
        invariant 0 <= nSize <= size && 0 <= hSize && 0 <= header && buffer + nSize == start + hLen + size
        invariant if nSize > 0 then nChunkSize == outChunkSize else nChunkSize >= 0
        invariant hSize == 0 ==> nSize == 0
        invariant Underway(a, header, hSize, buffer, nSize, channel, tbuf, toff, s, sent, total, old(wire),
                           old(capacity), old(link))
        invariant Keeps(a, before, start + hLen, Kept(size, outChunkSize, channel))
        decreases nSize, hSize
      {
        if nSize < nChunkSize {
          nChunkSize := nSize;
        }
        var wrote: bool;
        wrote, toff, header, hSize, s, sent :=
          SendTurn(a, header, hSize, buffer, nChunkSize, nSize, channel, c, tbuf, toff, s, sent, total, old(wire),
                   old(capacity), old(link),
                   before, start + hLen, size);
        if !wrote {
          return false, toff;
        }
        nSize, buffer := nSize - nChunkSize, buffer + nChunkSize;
        StillUnderway(a, header, hSize, buffer, nSize, channel, tbuf, toff, s, sent, total, old(wire), old(capacity),
                      old(link));
      }
      AllSent(a, header, hSize, buffer, nSize, channel, tbuf, toff, s, sent, total, old(wire), old(capacity),
              old(link));
      ok := true;
    }

    lemma AtStart(a: array<byte>, start: nat, hLen: nat, size: nat, channel: int, tbuf: array?<byte>, s: seq<byte>)
      requires ValidChannel(channel) && outChunkSize >= 1
      requires hLen >= 1 + ChannelBytes(channel) && start + hLen + size <= a.Length
        && s == a[start..start + hLen + size]
      requires tbuf != null ==> |Pending(s, hLen, channel, outChunkSize)| <= tbuf.Length
      ensures Underway(a, start, hLen, start + hLen, size, channel, tbuf, 0, s, [],
                       Pending(s, hLen, channel, outChunkSize), wire, capacity, link)
    {
      hide Pending;
      assert wire + [] == wire
        && [] + Pending(s, hLen, channel, outChunkSize) == Pending(s, hLen, channel, outChunkSize);
    }

    lemma StillUnderway(a: array<byte>, header: int, hSize: int, buffer: int, nSize: int, channel: int,
                        tbuf: array?<byte>, toff: nat, s: seq<byte>, sent: seq<byte>, total: seq<byte>,
                        wire0: seq<byte>, capacity0: nat, link0: Link)
      requires Underway(a, header, hSize, buffer, nSize, channel, tbuf, toff, s, sent, total, wire0, capacity0, link0)
      ensures 0 <= nSize && 0 <= hSize && 0 <= header && (hSize == 0 ==> nSize == 0)
    {
      hide Pending;
    }

    /** When nothing is left in the buffer the whole message has left. */
    lemma AllSent(a: array<byte>, header: int, hSize: int, buffer: int, nSize: int, channel: int, tbuf: array?<byte>,
                  toff: nat, s: seq<byte>, sent: seq<byte>, total: seq<byte>, wire0: seq<byte>, capacity0: nat,
                  link0: Link)
      requires Underway(a, header, hSize, buffer, nSize, channel, tbuf, toff, s, sent, total, wire0, capacity0, link0)
      requires hSize == 0
      ensures Emitted(total, wire0, capacity0, link0, tbuf, [], true, toff)
    {
      NothingPending(s, channel, outChunkSize);
      hide Pending;
      assert sent + [] == sent && [] + sent == sent;
    }

    /** The header does not depend on the stored form, and its first byte yields the continuation's. */
    lemma HeaderBytes(fmt: HeaderType, t: uint32, h: Header, f: int)
      requires ValidChannel(h.channel)
      ensures FullHeader(fmt, t, h.(fmt := f)) == FullHeader(fmt, t, h)
      ensures 192 + FullHeader(fmt, t, h)[0] % 64 == BasicHeader(MINIMUM, h.channel)[0]
    {
    }

    /** What the source's history compression and delta computation come to on this packet. */
    method Compress(p: Packet, prev: Option<Header>) returns (t: uint32)
      requires ValidChannel(p.channel)
      modifies p`headerType
      ensures p.headerType == FinalFmt(prev, old(p.ToHeader()))
      ensures t == WireTime(prev, old(p.ToHeader()))
    {
      var last := 0;
      if prev.Some? && p.headerType != LARGE {
        if prev.value.bodySize == p.bodySize && prev.value.typ == p.packetType && p.headerType == MEDIUM {
          p.headerType := SMALL;
        }
        if prev.value.timestamp == p.timestamp && p.headerType == SMALL {
          p.headerType := MINIMUM;
        }
        last := prev.value.timestamp;
      }
      t := (p.timestamp - last) % TWO32;
    }

    /** The header, written so that it ends where the body begins; a packet without body gets a buffer of its own. */
    method LayHeader(p: Packet, fmt: HeaderType, t: uint32) returns (a: array<byte>, start: nat, hLen: nat)
      requires p.Valid()
      modifies p.buf
      ensures p.Valid() && (if p.buf == null then fresh(a) else a == p.buf && start + hLen == RESERVED)
      ensures hLen == |FullHeader(fmt, t, p.ToHeader())| && start + hLen + p.bodySize <= a.Length
      ensures a[start..start + hLen] == FullHeader(fmt, t, p.ToHeader())
      ensures a[start + hLen..start + hLen + p.bodySize] == old(p.Body())
    {
      hLen := PacketSize(fmt) + ChannelBytes(p.channel) + if Extended(fmt, t) then 4 else 0;
      if p.buf != null {
        a, start := p.buf, RESERVED - hLen;
      } else {
        a := new byte[RESERVED](_ => 0);
        start := 6 + PacketSize(fmt) - hLen;
      }
      var end := WriteHeader(a, start, fmt, t, p.ToHeader());
    }

    /** What the chunks leave alone of the laid-out buffer they leave alone of the body. */
    lemma BodyKept(p: Packet, a: array<byte>, laid: seq<byte>, at: nat, body: seq<byte>, k: nat)
      requires p.Valid() && k <= p.bodySize && (p.buf != null ==> a == p.buf && at == RESERVED)
      requires Keeps(a, laid, at, k) && at + p.bodySize <= |laid| && laid[at..at + p.bodySize] == body
      ensures p.Body()[..k] == body[..k]
    {
      if p.buf != null {
        assert p.Body()[..k] == a[at..at + k] == laid[at..at + k] == laid[at..at + p.bodySize][..k];
      }
    }

    /** Lays out the header and sends the chunks. */
    method Transmit(p: Packet, fmt: HeaderType, t: uint32) returns (ok: bool)
      requires p.Valid() && outChunkSize >= 1
      modifies this`wire, this`capacity, this`link, p.buf
      ensures p.Valid()
      ensures var m := Chunked(FullHeader(fmt, t, p.ToHeader()), p.channel, old(p.Body()), outChunkSize);
        && ok == (|m| <= old(capacity)) && capacity == old(capacity) - Min(|m|, old(capacity))
        && wire == old(wire) + m[..Min(|m|, old(capacity))]
      ensures link == LinkAfter(old(link), ok)
      ensures var k := Kept(p.bodySize, outChunkSize, p.channel); p.Body()[..k] == old(p.Body())[..k]
    {
      hide Chunked, Continuations, FullHeader, Kept, Keeps, ChannelBytes;
      var a, start, hLen := LayHeader(p, fmt, t);
      HeaderBytes(fmt, t, p.ToHeader(), p.headerType);
      assert a[start] == a[start..start + hLen][0];
      ghost var laid := a[..];
      assert laid[start + hLen..start + hLen + p.bodySize] == a[start + hLen..start + hLen + p.bodySize];
      ok := SendChunks(a, start, hLen, p.bodySize, p.channel, a[start]);
      BodyKept(p, a, laid, start + hLen, old(p.Body()), Kept(p.bodySize, outChunkSize, p.channel));
    }

    /** The calls a packet adds to those waiting for a result, read from the body as it is after sending. */
    static ghost function Recorded(p: Packet, queue: bool): seq<Call>
      requires p.Valid()
      reads p, p.buf
    {
      if p.packetType == INVOKE_TYPE && queue && CallIn(p.Body()).Some? then [CallIn(p.Body()).value] else []
    }

    lemma BodySlice(p: Packet, i: nat, j: nat)
      requires p.Valid() && p.buf != null && i <= j <= p.bodySize
      ensures p.buf[RESERVED + i..RESERVED + j] == p.Body()[i..j]
    {
      SubSlice(p.buf[..], RESERVED, p.bodySize, i, j);
    }

    lemma SameInt16(a: seq<byte>, b: seq<byte>)
      requires 2 == |b| <= |a| && b == a[..2]
      ensures DecodeInt16(a) == DecodeInt16(b)
    {
    }

    /** Keeps the call that was sent until its result arrives. */
    method RecordCall(p: Packet)
      requires p.Valid() && p.packetType == INVOKE_TYPE
      modifies this`link
      ensures link == old(link).(methodCalls := old(link).methodCalls + Recorded(p, true))
    {
      if p.buf != null && p.bodySize >= 3 {
        var len := DecodeInt16(p.buf[RESERVED + 1..RESERVED + 3]);
        BodySlice(p, 1, 3);
        SameInt16(p.Body()[1..], p.buf[RESERVED + 1..RESERVED + 3]);
        if p.bodySize >= 12 + len {
          var at := RESERVED + 4 + len;
          BodySlice(p, 3, 3 + len);
          BodySlice(p, 4 + len, 12 + len);
          var call := Call(p.buf[RESERVED + 3..RESERVED + 3 + len], p.buf[at..at + 8]);
          link := link.(methodCalls := link.methodCalls + [call]);
        }
      }
    }

    /** Makes room for a channel in the table. */
    method GrowTable(channel: nat)
      modifies this`link
      ensures channel < |link.vecChannelsOut| && forall ch :: History(ch) == old(History(ch))
      ensures link.open == old(link).open && link.methodCalls == old(link).methodCalls
    {
      var size := |link.vecChannelsOut|;
      if channel >= size {
        link := link.(vecChannelsOut := link.vecChannelsOut + seq(channel + 10 - size, _ => None));
      }
    }

    /** What is kept of a packet that has been sent. */
    method Remember(p: Packet, queue: bool)
      requires p.Valid() && p.channel < |link.vecChannelsOut|
      modifies this`link
      ensures History(p.channel) == Some(p.ToHeader())
      ensures forall ch :: ch != p.channel ==> History(ch) == old(History(ch))
      ensures link.open == old(link).open && link.methodCalls == old(link).methodCalls + Recorded(p, queue)
    {
      if p.packetType == INVOKE_TYPE && queue {
        RecordCall(p);
      }
      link := link.(vecChannelsOut := link.vecChannelsOut[p.channel := Some(p.ToHeader())]);
    }

    method SendPacket(p: Packet, queue: bool) returns (ok: bool)
      requires p.Valid() && outChunkSize >= 1
      modifies this, p`headerType, p.buf
      ensures p.Valid() && outChunkSize == old(outChunkSize)
      ensures p.ToHeader() == old(p.ToHeader()).(fmt := FinalFmt(old(History(p.channel)), old(p.ToHeader())))
      ensures p.headerType > 3 ==> !ok && wire == old(wire) && capacity == old(capacity)
      ensures
        p.headerType <= 3 ==>
          var m := Message(old(History(p.channel)), old(p.ToHeader()), old(p.Body()), outChunkSize);
          && ok == (|m| <= old(capacity)) && capacity == old(capacity) - Min(|m|, old(capacity))
          && wire == old(wire) + m[..Min(|m|, old(capacity))]
      ensures !ok && p.headerType <= 3 && fatal ==> link == CLOSED
      ensures
        ok || p.headerType > 3 || !fatal ==>
          && History(p.channel) == (if ok then Some(p.ToHeader()) else old(History(p.channel)))
          && (forall ch :: ch != p.channel ==> History(ch) == old(History(ch)))
          && link.open == old(link).open
          && link.methodCalls == old(link).methodCalls + if ok then Recorded(p, queue) else []
      ensures var k := Kept(p.bodySize, outChunkSize, p.channel); p.Body()[..k] == old(p.Body())[..k]
    {
      hide Chunked, Continuations, FullHeader, FinalFmt, WireTime, Kept, Recorded;
      ghost var h, prev := p.ToHeader(), History(p.channel);
      GrowTable(p.channel);
      var t := Compress(p, link.vecChannelsOut[p.channel]);
      if p.headerType > 3 {
        return false;
      }
      var fmt: HeaderType := p.headerType;
      HeaderBytes(fmt, t, h, p.headerType);
      ok := Transmit(p, fmt, t);
      if ok {
        Remember(p, queue);
      }
    }

    /** RTMP_SendChunkSize: switches this side to 32768 first and then announces it on channel 2. */
    method SendChunkSize() returns (ok: bool)
      modifies this
      ensures outChunkSize == 32768
      ensures
        var m := Message(old(History(2)), ChunkSizeHeader(), ChunkSizeBody(), 32768);
        && ok == (|m| <= old(capacity)) && capacity == old(capacity) - Min(|m|, old(capacity))
        && wire == old(wire) + m[..Min(|m|, old(capacity))]
      ensures !ok && fatal ==> link == CLOSED
      ensures ok || !fatal ==> link.open == old(link).open && link.methodCalls == old(link).methodCalls
      ensures ok || !fatal ==> History(2) == if ok then Some(ChunkSizeHeader()) else old(History(2))
      ensures ok || !fatal ==> forall ch :: ch != 2 ==> History(ch) == old(History(ch))
    {
      hide Message, CallIn;
      var p := new Packet.Alloc(2, LARGE, CHUNK_SIZE_TYPE, 0, 0, 4);
      var nVal := 32768;
      p.buf[RESERVED + 3] := nVal % 256;
      p.buf[RESERVED + 2] := nVal / 0x100 % 256;
      p.buf[RESERVED + 1] := nVal / 0x1_0000 % 256;
      p.buf[RESERVED] := nVal / 0x100_0000 % 256;
      outChunkSize := nVal;
      assert p.Body() == ChunkSizeBody();
      ok := SendPacket(p, false);
    }
  }
}
