/** What the digest of a handshake block covers, and where it can stand: every other byte counts, at every position in
  * range. */
module HandshakeCoverage {
  import opened Bytes
  import opened Handshake

  /** The message that is hashed is what is left of a block when the 32 bytes of its digest are taken out: 1504 bytes
    * that, with the digest put back in its place, are the block. */
  lemma DigestCoversTheRest(b: Block, at: nat, key: seq<byte>, hmac: Hmac)
    requires at + 32 <= 1536
    ensures
      Verifies(b, at, key, hmac) <==>
      exists message: seq<byte> ::
        && |message| == 1504 && message[..at] + b[at..at + 32] + message[at..] == b
        && hmac(message, key) == b[at..at + 32]
  {
    var rest := b[..at] + b[at + 32..];
    assert rest[..at] == b[..at] && rest[at..] == b[at + 32..];
    assert rest[..at] + b[at..at + 32] + rest[at..] == b;
    forall message: seq<byte> | |message| == 1504 && message[..at] + b[at..at + 32] + message[at..] == b
      ensures message == rest
    {
      TakenOut(message, b, at);
    }
  }

  lemma TakenOut(message: seq<byte>, b: Block, at: nat)
    requires |message| == 1504 && at + 32 <= 1536
    requires message[..at] + b[at..at + 32] + message[at..] == b
    ensures message == b[..at] + b[at + 32..]
  {
    var back := message[..at] + b[at..at + 32] + message[at..];
    assert back[..at] == message[..at] && back[at + 32..] == message[at..];
    assert message == message[..at] + message[at..];
  }

  /** Thirty-two bytes other than these. */
  function OtherBytes(d: seq<byte>): (r: seq<byte>)
    requires |d| == DIGEST_LENGTH
    ensures |r| == DIGEST_LENGTH && r != d
  {
    var r := seq(DIGEST_LENGTH, i requires 0 <= i < DIGEST_LENGTH => (d[i] as int + 1) % 256);
    assert r[0] != d[0];
    r
  }

  /** A hash that gives `d` for one message and something other than `e` for all the rest. */
  function Telling(m: seq<byte>, d: seq<byte>, e: seq<byte>): Hmac
    requires |d| == DIGEST_LENGTH && |e| == DIGEST_LENGTH
  {
    (message, key) => if message == m then d else OtherBytes(e)
  }

  /** Tampering shows: of two blocks with their digests in the same place that differ anywhere else, some keyed hash
    * accepts one and refuses the other. */
  lemma TamperingShows(b: Block, c: Block, layout: Layout, key: seq<byte>, i: nat) returns (hmac: Hmac)
    requires DigestOffset(b, layout) == DigestOffset(c, layout)
    requires i < 1536 && b[i] != c[i]
    requires i < DigestOffset(b, layout) || DigestOffset(b, layout) + 32 <= i
    ensures Signed(b, layout, key, hmac) && !Signed(c, layout, key, hmac)
  {
    hide DigestOffset, KeyOffset;
    RegionsApart(b, layout);
    var at := DigestOffset(b, layout);
    var m, n := b[..at] + b[at + 32..], c[..at] + c[at + 32..];
    var j := if i < at then i else i - 32;
    assert m[j] == b[i] && n[j] == c[i];
    hmac := Telling(m, b[at..at + 32], c[at..at + 32]);
  }

  /** The four bytes that choose each position, as numbers in the block. */
  lemma PositionsFromBytes(b: Block)
    ensures KeyOffset(b, First) == (b[1532] as int + b[1533] as int + b[1534] as int + b[1535] as int) % 632 + 772
    ensures KeyOffset(b, Second) == (b[768] as int + b[769] as int + b[770] as int + b[771] as int) % 632 + 8
    ensures DigestOffset(b, First) == (b[8] as int + b[9] as int + b[10] as int + b[11] as int) % 728 + 12
    ensures DigestOffset(b, Second) == (b[772] as int + b[773] as int + b[774] as int + b[775] as int) % 728 + 776
  {
  }

  /** A block whose four bytes at `at` add up to `x`. */
  function WithSum(at: nat, x: nat): (b: Block)
    requires at + 4 <= 1536 && x <= 1020
    ensures Sum4(b, at) == x
  {
    var w := Min(255, x);
    var y := Min(255, x - w);
    var z := Min(255, x - w - y);
    seq(1536, i => if i == at then w else if i == at + 1 then y else if i == at + 2 then z
                   else if i == at + 3 then x - w - y - z else 0)
  }

  /** Each position is possible exactly in its range. */
  lemma PositionsExact(layout: Layout, p: nat)
    ensures
      (exists b: Block :: KeyOffset(b, layout) == p) <==>
      if layout == First then 772 <= p < 1404 else 8 <= p < 640
    ensures
      (exists b: Block :: DigestOffset(b, layout) == p) <==>
      if layout == First then 12 <= p < 740 else 776 <= p < 1504
  {
    var k, d := if layout == First then 772 else 8, if layout == First then 12 else 776;
    if k <= p < k + 632 {
      var b := WithSum(KeyChooser(layout), p - k);
      assert KeyOffset(b, layout) == p;
    }
    if d <= p < d + 728 {
      var b := WithSum(DigestChooser(layout), p - d);
      assert DigestOffset(b, layout) == p;
    }
  }

  /** The client's block starts with the time and the version, and its digest is in the front half unless the session is
    * encrypted. */
  lemma FrontOfBlock(uptime: seq<byte>, random: seq<byte>, encrypted: bool, publicKey: seq<byte>, key: seq<byte>,
                     hmac: Hmac)
    requires |uptime| == 4 && |random| == 1528 && |publicKey| == 128
    ensures
      var r := WithDigest(Unsigned(uptime, random, encrypted, publicKey), LayoutFor(encrypted), key, hmac);
      && r[..4] == uptime && r[4..8] == (if encrypted then [128, 0, 3, 2] else [10, 0, 45, 2])
      && if encrypted then DigestOffset(r, Second) >= 776 && Signed(r, Second, key, hmac)
         else DigestOffset(r, First) < 740 && Signed(r, First, key, hmac)
  {
    hide KeyOffset, DigestOffset, Verifies, Digest, Place, SameOutside;
    var layout, plain := LayoutFor(encrypted), uptime + Version(encrypted) + random;
    var b := Unsigned(uptime, random, encrypted, publicKey);
    var r := WithDigest(b, layout, key, hmac);
    RegionsApart(plain, layout);
    RegionsApart(b, layout);
    OnlyRegionsChange(plain, layout, publicKey, key, hmac);
    OnlyRegionsChange(b, layout, publicKey, key, hmac);
    KeyMovesNothing(plain, layout, publicKey);
    DigestMovesNothing(b, layout, key, hmac);
    PositionsFromBytes(r);
    FrontKept(plain, b, KeyOffset(plain, layout), 128);
    FrontKept(b, r, DigestOffset(b, layout), 32);
    assert plain[..4] == uptime && plain[4..8] == Version(encrypted);
    assert r[..8] == plain[..8];
    assert r[..4] == r[..8][..4] && r[4..8] == r[..8][4..];
    assert plain[..4] == plain[..8][..4] && plain[4..8] == plain[..8][4..];
  }

  lemma FrontKept(b: Block, r: Block, at: nat, n: nat)
    requires (SameOutside(b, r, at, n) || r == b) && at >= 8
    ensures r[..8] == b[..8]
  {
  }
}
