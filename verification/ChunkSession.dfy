/** The in-place sender and the in-place reader put together: what is published is what is delivered. */
module ChunkSession {
  import opened Bytes
  import opened ChunkFormat
  import opened ChunkReading
  import opened ChunkRoundTrip
  import opened ChunkSender
  import opened ChunkReader

  /** The sender object remembers what the value-level sender state remembers. */
  ghost predicate Mirrors(s: Sender, ss: SenderState)
    reads s
  {
    s.outChunkSize == ss.chunkSize && forall ch :: s.History(ch) == Prev(ss, ch)
  }

  method FillBody(p: Packet, body: seq<byte>)
    requires p.Valid() && p.buf != null && p.bodySize == |body|
    modifies p.buf
    ensures p.Valid() && p.Body() == body
  {
    for i := 0 to |body|
      invariant p.buf[RESERVED..RESERVED + i] == body[..i]
    {
      p.buf[RESERVED + i] := body[i];
    }
  }

  method SendEvent(s: Sender, e: Event, queue: bool, ghost ss: SenderState)
    requires Mirrors(s, ss) && WellFormed(ss, e) && |Wire(ss, e)| <= s.capacity
    modifies s
    ensures Mirrors(s, After(ss, e)) && s.wire == old(s.wire) + Wire(ss, e)
    ensures s.capacity == old(s.capacity) - |Wire(ss, e)|
  {
    hide Message;
    if e.Announce? {
      var ok := s.SendChunkSize();
    } else {
      var h := e.header;
      var p := new Packet.Alloc(h.channel, h.fmt, h.typ, h.timestamp, h.info, h.bodySize);
      FillBody(p, e.body);
      var ok := s.SendPacket(p, queue);
    }
  }

  /** A remote call as connect, createStream and publish make it: once sent it waits for its result under the name and
    * the number it was sent with, although the body it is read back from has been written over. */
  method SendCall(s: Sender, h: Header, name: seq<byte>, num: seq<byte>, rest: seq<byte>) returns (ok: bool)
    requires ValidChannel(h.channel) && 0 <= h.fmt <= 3 && h.typ == INVOKE_TYPE
    requires |name| <= 113 && |num| == 8 && h.bodySize == |InvokeBody(name, num, rest)| < 0x100_0000
    requires s.outChunkSize == 128 || s.outChunkSize == 32768
    modifies s
    ensures ok ==> s.link.methodCalls == old(s.link).methodCalls + [Call(name, num)]
    ensures !ok ==> s.link.methodCalls == if s.fatal then [] else old(s.link).methodCalls
  {
    hide Message, CallIn, Kept, InvokeBody, FinalFmt;
    var p := new Packet.Alloc(h.channel, h.fmt, h.typ, h.timestamp, h.info, h.bodySize);
    FillBody(p, InvokeBody(name, num, rest));
    FormKept(s.History(h.channel), p.ToHeader());
    ok := s.SendPacket(p, true);
    if ok {
      CallRecorded(name, num, rest, h.channel, s.outChunkSize, p.Body());
    }
  }

  lemma FormKept(prev: Option<Header>, h: Header)
    requires 0 <= h.fmt <= 3
    ensures 0 <= FinalFmt(prev, h) <= 3
  {
  }

  method SendAll(s: Sender, es: seq<Event>, queue: bool, ghost ss: SenderState)
    requires Mirrors(s, ss) && AllFaithful(ss, es) && |WireOf(ss, es)| <= s.capacity
    modifies s
    ensures s.wire == old(s.wire) + WireOf(ss, es)
  {
    hide Wire, WellFormed, Faithful, After, Mirrors;
    ghost var now := ss;
    for i := 0 to |es|
      invariant Mirrors(s, now) && AllFaithful(now, es[i..])
      invariant |WireOf(now, es[i..])| <= s.capacity
      invariant s.wire + WireOf(now, es[i..]) == old(s.wire) + WireOf(ss, es)
    {
      assert es[i..][0] == es[i] && es[i..][1..] == es[i + 1..];
      ghost var before := s.wire;
      SendEvent(s, es[i], queue, now);
      ghost var more := WireOf(After(now, es[i]), es[i + 1..]);
      assert before + (Wire(now, es[i]) + more) == (before + Wire(now, es[i])) + more;
      now := After(now, es[i]);
    }
  }

  /** Reads chunks until a packet is complete, as the callers of RTMP_ReadPacket do. */
  method ReceiveMessage(r: Reader, q0: PacketStruct, ghost tb: Tables)
    returns (ok: bool, q: PacketStruct, ghost tb': Tables)
    requires r.Valid() && r.Shows(tb) && Sized(q0) && r.Owns(|r.vecChannelsIn|, q0.body)
    modifies r, r.Bodies(), q0.body
    ensures var m := ReadMessage(tb, old(View(q0)), old(r.input));
      && ok == m.Chunk?
      && (ok ==> r.Valid() && r.Shows(tb') && Sized(q) && r.Owns(|r.vecChannelsIn|, q.body)
                 && tb' == m.tables && View(q) == m.packet && r.input == m.rest)
    ensures ok ==> fresh(r.Owned(q) - old(r.Owned(q0)))
  {
    hide ReadChunk;
    ok, q, tb' := true, q0, tb;
    ghost var result := ReadMessage(tb, View(q0), r.input);
    var done := false;
    while !done
      invariant r.Valid() && r.Shows(tb') && Sized(q) && r.Owns(|r.vecChannelsIn|, q.body)
      invariant fresh(r.Owned(q) - old(r.Owned(q0)))
      invariant if done then result == Chunk(tb', View(q), r.input)
                else ReadMessage(tb', View(q), r.input) == result
      decreases !done, |r.input|
    {
      ghost var c := ReadChunk(tb', View(q), r.input);
      ok, q := r.ReadPacket(q, tb');
      if !ok {
        return;
      }
      tb' := c.tables;
      done := q.bytesRead == q.bodySize;
    }
  }

  /** What the application gets from a completed packet, after chunk-size messages have been followed. */
  method TakePacket(r: Reader, q: PacketStruct, ghost tb: Tables) returns (d: Delivered)
    requires r.Valid() && r.Shows(tb) && Sized(q) && (q.bodySize > 0 ==> q.body != null)
    modifies r`inChunkSize
    ensures r.Valid() && r.Shows(Handle(tb, View(q))) && d == Deliver(View(q))
  {
    if q.typ == CHUNK_SIZE_TYPE {
      r.HandleChunkSize(q, tb);
    }
    d := Delivered(q.typ, q.channel, q.timestamp, q.info, if q.body == null then [] else q.body[..]);
  }

  /** The receiving loop: hand each completed packet to the application, follow chunk-size messages. */
  method ReceiveAll(r: Reader) returns (ds: seq<Delivered>, complete: bool)
    requires r.Valid() && r.vecChannelsIn == [] && r.Shows(Tables([], [], 128))
    modifies r
    ensures Receive(Tables([], [], 128), BLANK, old(r.input)) == Received(ds, complete)
  {
    hide Receive, ReadMessage, Handle, Deliver;
    ghost var tb: Tables := Tables([], [], 128);
    ghost var result := Receive(tb, BLANK, r.input);
    var q := PacketStruct(0, 0, false, 0, 0, 0, 0, 0, null);
    ds, complete := [], true;
    assert r.Bodies() == {};
    assert result == Prepend(ds, result);
    while |r.input| > 0
      invariant r.Valid() && r.Shows(tb) && Sized(q) && q.body == null
      invariant fresh(r.Owned(q))
      invariant result == Prepend(ds, Receive(tb, View(q), r.input))
      decreases |r.input|
    {
      ghost var m := ReadMessage(tb, View(q), r.input);
      ReceiveStep(tb, View(q), r.input, ds);
      var ok;
      ok, q, tb := ReceiveMessage(r, q, tb);
      if !ok {
        return ds, false;
      }
      var d := TakePacket(r, q, tb);
      tb := Handle(tb, m.packet);
      q := q.(body := null);
      assert View(q) == m.packet.(body := None);
      ds := ds + [d];
    }
    ReceiveEnd(tb, View(q), ds);
  }

  function Prepend(ds: seq<Delivered>, more: Received): Received {
    Received(ds + more.packets, more.complete)
  }

  lemma ReceiveEnd(tb: Tables, pkt: InPacket, ds: seq<Delivered>)
    ensures Prepend(ds, Receive(tb, pkt, [])) == Received(ds, true)
  {
  }

  lemma ReceiveStep(tb: Tables, pkt: InPacket, w: seq<byte>, ds: seq<Delivered>)
    requires w != []
    ensures var m := ReadMessage(tb, pkt, w);
      Prepend(ds, Receive(tb, pkt, w))
      == if m.Failed? then Received(ds, false)
         else Prepend(ds + [Deliver(m.packet)], Receive(Handle(m.tables, m.packet), m.packet.(body := None), m.rest))
  {
    hide ReadMessage, Handle, Deliver;
    var m := ReadMessage(tb, pkt, w);
    if m.Failed? {
      assert ds + [] == ds;
    } else {
      var more := Receive(Handle(m.tables, m.packet), m.packet.(body := None), m.rest);
      assert ds + ([Deliver(m.packet)] + more.packets) == ds + [Deliver(m.packet)] + more.packets;
    }
  }

  /**
   Everything together: a fresh sender publishes the events through the in-place send loop, a fresh reader
   consumes the wire through its tables, and exactly the packets sent come out, in order.
   */
  method Loopback(es: seq<Event>, http: bool, capacity: nat) returns (ds: seq<Delivered>, complete: bool)
    requires AllFaithful(SenderState(map[], 128), es) && |WireOf(SenderState(map[], 128), es)| <= capacity
    ensures ds == AllExpected(es) && complete
  {
    hide WireOf, AllFaithful, Receive, AllExpected;
    var s := new Sender(http, true, 128, capacity);
    SendAll(s, es, false, SenderState(map[], 128));
    assert [] + WireOf(SenderState(map[], 128), es) == WireOf(SenderState(map[], 128), es);
    var r := new Reader(s.wire);
    ds, complete := ReceiveAll(r);
    FreshConnectionRoundTrip(es);
  }
}
