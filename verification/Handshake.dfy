/** The signed 1536-byte handshake block: where the key and the digest go, and why the block still verifies
  * afterwards. */
module Handshake {
  import opened Bytes

  const SIG_SIZE := 1536
  const DIGEST_LENGTH := 32
  const KEY_LENGTH := 128

  /** Any keyed hash with 32 bytes of output. */
  type Hmac = h: (seq<byte>, seq<byte>) -> seq<byte> | forall m, k :: |h(m, k)| == DIGEST_LENGTH
    witness (m, k) => seq(DIGEST_LENGTH, _ => 0)

  type Block = b: seq<byte> | |b| == SIG_SIZE witness seq(SIG_SIZE, _ => 0)

  /** The two layouts: digest before key, or key before digest. */
  datatype Layout = First | Second

  function Other(layout: Layout): Layout {
    if layout == First then Second else First
  }

  function Sum4(b: Block, at: nat): nat
    requires at + 4 <= SIG_SIZE
  {
    b[at] as int + b[at + 1] as int + b[at + 2] as int + b[at + 3] as int
  }

  /** Where the four bytes stand that choose the position of the key. */
  function KeyChooser(layout: Layout): nat {
    if layout == First then 1532 else 768
  }

  function DigestChooser(layout: Layout): nat {
    if layout == First then 8 else 772
  }

  function KeyOffset(b: Block, layout: Layout): nat {
    Sum4(b, KeyChooser(layout)) % 632 + if layout == First then 772 else 8
  }

  function DigestOffset(b: Block, layout: Layout): nat {
    Sum4(b, DigestChooser(layout)) % 728 + if layout == First then 12 else 776
  }

  /** The last byte each region may reach: the source exits when a computed region passes it. */
  function KeyLimit(layout: Layout): nat {
    if layout == First then 1531 else 767
  }

  function DigestLimit(layout: Layout): nat {
    if layout == First then 771 else 1535
  }

  predicate Apart(a: nat, n: nat, b: nat, m: nat) {
    a + n <= b || b + m <= a
  }

  /** In any block and either layout the guards never fire, the two regions are disjoint, and neither covers the bytes
    * that choose the positions, nor the time and version in front. */
  lemma RegionsApart(b: Block, layout: Layout)
    ensures KeyOffset(b, layout) + KEY_LENGTH <= KeyLimit(layout) < SIG_SIZE
    ensures DigestOffset(b, layout) + DIGEST_LENGTH <= DigestLimit(layout) < SIG_SIZE
    ensures Apart(KeyOffset(b, layout), KEY_LENGTH, DigestOffset(b, layout), DIGEST_LENGTH)
    ensures Apart(KeyOffset(b, layout), KEY_LENGTH, KeyChooser(layout), 4)
    ensures Apart(KeyOffset(b, layout), KEY_LENGTH, DigestChooser(layout), 4)
    ensures Apart(DigestOffset(b, layout), DIGEST_LENGTH, KeyChooser(layout), 4)
    ensures Apart(DigestOffset(b, layout), DIGEST_LENGTH, DigestChooser(layout), 4)
    ensures KeyOffset(b, layout) >= 8 && DigestOffset(b, layout) >= 8
  {
  }

  function Place(b: Block, at: nat, bytes: seq<byte>): Block
    requires at + |bytes| <= SIG_SIZE
  {
    b[..at] + bytes + b[at + |bytes|..]
  }

  lemma PlaceKeeps(b: Block, at: nat, bytes: seq<byte>, p: nat)
    requires at + |bytes| <= SIG_SIZE && p + 4 <= SIG_SIZE && Apart(at, |bytes|, p, 4)
    ensures Sum4(Place(b, at, bytes), p) == Sum4(b, p)
  {
  }

  /** The keyed hash of the block without its digest. */
  function Digest(b: Block, at: nat, key: seq<byte>, hmac: Hmac): (d: seq<byte>)
    requires at + DIGEST_LENGTH <= SIG_SIZE
    ensures |d| == DIGEST_LENGTH
  {
    hmac(b[..at] + b[at + DIGEST_LENGTH..], key)
  }

  predicate Verifies(b: Block, at: nat, key: seq<byte>, hmac: Hmac)
    requires at + DIGEST_LENGTH <= SIG_SIZE
  {
    b[at..at + DIGEST_LENGTH] == Digest(b, at, key, hmac)
  }

  /** A block whose digest, in this layout, is right. */
  predicate Signed(b: Block, layout: Layout, key: seq<byte>, hmac: Hmac) {
    RegionsApart(b, layout);
    Verifies(b, DigestOffset(b, layout), key, hmac)
  }

  function WithKey(b: Block, layout: Layout, publicKey: seq<byte>): Block
    requires |publicKey| == KEY_LENGTH
  {
    RegionsApart(b, layout);
    Place(b, KeyOffset(b, layout), publicKey)
  }

  function WithDigest(b: Block, layout: Layout, key: seq<byte>, hmac: Hmac): Block {
    RegionsApart(b, layout);
    Place(b, DigestOffset(b, layout), Digest(b, DigestOffset(b, layout), key, hmac))
  }

  /** Writing the public key moves neither position. */
  lemma KeyMovesNothing(b: Block, layout: Layout, publicKey: seq<byte>)
    requires |publicKey| == KEY_LENGTH
    ensures
      var r := WithKey(b, layout, publicKey);
      && KeyOffset(r, layout) == KeyOffset(b, layout) && DigestOffset(r, layout) == DigestOffset(b, layout)
      && r[KeyOffset(r, layout)..KeyOffset(r, layout) + KEY_LENGTH] == publicKey
  {
    hide Sum4;
    RegionsApart(b, layout);
    PlaceKeeps(b, KeyOffset(b, layout), publicKey, KeyChooser(layout));
    PlaceKeeps(b, KeyOffset(b, layout), publicKey, DigestChooser(layout));
  }

  /** Writing the digest moves neither position, and the block then verifies. */
  lemma DigestMovesNothing(b: Block, layout: Layout, key: seq<byte>, hmac: Hmac)
    ensures
      var r := WithDigest(b, layout, key, hmac);
      && KeyOffset(r, layout) == KeyOffset(b, layout) && DigestOffset(r, layout) == DigestOffset(b, layout)
      && Signed(r, layout, key, hmac)
      && r[KeyOffset(r, layout)..KeyOffset(r, layout) + KEY_LENGTH]
          == b[KeyOffset(b, layout)..KeyOffset(b, layout) + KEY_LENGTH]
  {
    hide Sum4, Apart;
    var at := DigestOffset(b, layout);
    var d := Digest(b, at, key, hmac);
    RegionsApart(b, layout);
    PlaceKeeps(b, at, d, KeyChooser(layout));
    PlaceKeeps(b, at, d, DigestChooser(layout));
    PlacedDigestVerifies(b, at, key, hmac);
    PlaceKeepsRegion(b, at, d, KeyOffset(b, layout), KEY_LENGTH);
  }

  lemma PlaceKeepsRegion(b: Block, at: nat, bytes: seq<byte>, p: nat, n: nat)
    requires at + |bytes| <= SIG_SIZE && p + n <= SIG_SIZE && Apart(p, n, at, |bytes|)
    ensures Place(b, at, bytes)[p..p + n] == b[p..p + n]
  {
    var r := Place(b, at, bytes);
    forall i | p <= i < p + n
      ensures r[i] == b[i]
    {
      assert i < at || at + |bytes| <= i;
    }
  }

  lemma PlacedDigestVerifies(b: Block, at: nat, key: seq<byte>, hmac: Hmac)
    requires at + DIGEST_LENGTH <= SIG_SIZE
    ensures Verifies(Place(b, at, Digest(b, at, key, hmac)), at, key, hmac)
  {
    var d := Digest(b, at, key, hmac);
    var r := Place(b, at, d);
    assert r[..at] == b[..at] && r[at + DIGEST_LENGTH..] == b[at + DIGEST_LENGTH..];
    assert r[at..at + DIGEST_LENGTH] == d;
  }

  /** Reads the bytes that choose the position of the key; the guard against a bad position never fires. */
  method GetDHOffset(handshake: array<byte>, layout: Layout) returns (res: nat)
    requires handshake.Length == SIG_SIZE
    ensures res == KeyOffset(handshake[..], layout)
  {
    var at := KeyChooser(layout);
    var offset := handshake[at] as int;
    offset := offset + handshake[at + 1] as int;
    offset := offset + handshake[at + 2] as int;
    offset := offset + handshake[at + 3] as int;
    res := offset % 632 + if layout == First then 772 else 8;
    RegionsApart(handshake[..], layout);
    if res + KEY_LENGTH > KeyLimit(layout) {
      assert false;
    }
  }

  method GetDigestOffset(handshake: array<byte>, layout: Layout) returns (res: nat)
    requires handshake.Length == SIG_SIZE
    ensures res == DigestOffset(handshake[..], layout)
  {
    var at := DigestChooser(layout);
    var offset := handshake[at] as int;
    offset := offset + handshake[at + 1] as int;
    offset := offset + handshake[at + 2] as int;
    offset := offset + handshake[at + 3] as int;
    res := offset % 728 + if layout == First then 12 else 776;
    RegionsApart(handshake[..], layout);
    if res + DIGEST_LENGTH > DigestLimit(layout) {
      assert false;
    }
  }

  method Write(block: array<byte>, at: nat, bytes: seq<byte>)
    requires block.Length == SIG_SIZE && at + |bytes| <= SIG_SIZE
    modifies block
    ensures block[..] == Place(old(block[..]), at, bytes)
  {
    for i := 0 to |bytes|
      invariant block[..] == Place(old(block[..]), at, bytes[..i])
    {
      ghost var was := block[..];
      block[at + i] := bytes[i];
      assert block[..] == was[at + i := bytes[i]];
    }
    assert bytes[..|bytes|] == bytes;
  }

  method CalculateDigest(digestPos: nat, handshake: array<byte>, key: seq<byte>, hmac: Hmac) returns (digest: seq<byte>)
    requires handshake.Length == SIG_SIZE && digestPos + DIGEST_LENGTH <= SIG_SIZE
    ensures digest == Digest(handshake[..], digestPos, key, hmac)
  {
    var message := handshake[..digestPos] + handshake[digestPos + DIGEST_LENGTH..];
    assert message == handshake[..][..digestPos] + handshake[..][digestPos + DIGEST_LENGTH..];
    digest := hmac(message, key);
  }

  method VerifyDigest(digestPos: nat, handshake: array<byte>, key: seq<byte>, hmac: Hmac) returns (ok: bool)
    requires handshake.Length == SIG_SIZE && digestPos + DIGEST_LENGTH <= SIG_SIZE
    ensures ok == Verifies(handshake[..], digestPos, key, hmac)
  {
    var digest := CalculateDigest(digestPos, handshake, key, hmac);
    assert handshake[..][digestPos..digestPos + DIGEST_LENGTH] == handshake[digestPos..digestPos + DIGEST_LENGTH];
    ok := handshake[digestPos..digestPos + DIGEST_LENGTH] == digest;
  }

  function Version(encrypted: bool): (v: seq<byte>)
    ensures |v| == 4
  {
    if encrypted then [128, 0, 3, 2] else [10, 0, 45, 2]
  }

  /** The block before the digest goes in. */
  function Unsigned(uptime: seq<byte>, random: seq<byte>, encrypted: bool, publicKey: seq<byte>): Block
    requires |uptime| == 4 && |random| == SIG_SIZE - 8 && |publicKey| == KEY_LENGTH
  {
    var plain := uptime + Version(encrypted) + random;
    if encrypted then WithKey(plain, Second, publicKey) else plain
  }

  /** Outside `n` bytes at `at` nothing differs. */
  predicate SameOutside(b: Block, r: Block, at: nat, n: nat) {
    forall i :: 0 <= i < SIG_SIZE && !(at <= i < at + n) ==> r[i] == b[i]
  }

  lemma PlaceSameOutside(b: Block, at: nat, bytes: seq<byte>)
    requires at + |bytes| <= SIG_SIZE
    ensures SameOutside(b, Place(b, at, bytes), at, |bytes|)
  {
  }

  method FillBlock(sig: array<byte>, uptime: seq<byte>, random: seq<byte>, encrypted: bool)
    requires sig.Length == SIG_SIZE && |uptime| == 4 && |random| == SIG_SIZE - 8
    modifies sig
    ensures sig[..] == uptime + Version(encrypted) + random
  {
    Write(sig, 0, uptime);
    Write(sig, 4, Version(encrypted));
    Write(sig, 8, random);
  }

  /** Lays out the client's block: time, version and random bytes, then for an encrypted session the public key, then
    * the digest. Both positions are as a receiver will recompute them, and the digest verifies. */
  method BuildBlock(sig: array<byte>, uptime: seq<byte>, random: seq<byte>, encrypted: bool, publicKey: seq<byte>,
                    key: seq<byte>, hmac: Hmac)
    returns (dhPos: nat, digestPos: nat)
    requires sig.Length == SIG_SIZE && |uptime| == 4 && |random| == SIG_SIZE - 8 && |publicKey| == KEY_LENGTH
    modifies sig
    ensures sig[..] == WithDigest(Unsigned(uptime, random, encrypted, publicKey), LayoutFor(encrypted), key, hmac)
    ensures Signed(sig[..], LayoutFor(encrypted), key, hmac) && digestPos == DigestOffset(sig[..], LayoutFor(encrypted))
    ensures encrypted ==> dhPos == KeyOffset(sig[..], Second)
    ensures encrypted ==> dhPos + KEY_LENGTH <= SIG_SIZE && sig[dhPos..dhPos + KEY_LENGTH] == publicKey
  {
    hide KeyOffset, DigestOffset, Verifies, Digest, Place, Version;
    var layout := LayoutFor(encrypted);
    FillBlock(sig, uptime, random, encrypted);
    RegionsApart(sig[..], layout);
    dhPos := 0;
    if encrypted {
      dhPos := GetDHOffset(sig, layout);
      KeyMovesNothing(sig[..], layout, publicKey);
      Write(sig, dhPos, publicKey);
      RegionsApart(sig[..], layout);
    }
    digestPos := GetDigestOffset(sig, layout);
    var digest := CalculateDigest(digestPos, sig, key, hmac);
    DigestMovesNothing(sig[..], layout, key, hmac);
    Write(sig, digestPos, digest);
    RegionsApart(sig[..], layout);
    assert encrypted ==> sig[..][dhPos..dhPos + KEY_LENGTH] == sig[dhPos..dhPos + KEY_LENGTH];
  }

  function LayoutFor(encrypted: bool): Layout {
    if encrypted then Second else First
  }

  /** The key and the digest change their own regions and nothing else. */
  lemma OnlyRegionsChange(b: Block, layout: Layout, publicKey: seq<byte>, key: seq<byte>, hmac: Hmac)
    requires |publicKey| == KEY_LENGTH
    ensures SameOutside(b, WithKey(b, layout, publicKey), KeyOffset(b, layout), KEY_LENGTH)
    ensures SameOutside(b, WithDigest(b, layout, key, hmac), DigestOffset(b, layout), DIGEST_LENGTH)
  {
    hide Digest, KeyOffset, DigestOffset, Place, SameOutside;
    RegionsApart(b, layout);
    PlaceSameOutside(b, KeyOffset(b, layout), publicKey);
    PlaceSameOutside(b, DigestOffset(b, layout), Digest(b, DigestOffset(b, layout), key, hmac));
  }

  /** Checks a peer's block in the layout expected and, failing that, in the other one. */
  method CheckBlock(sig: array<byte>, expected: Layout, key: seq<byte>, hmac: Hmac)
    returns (layout: Layout, digestPos: nat, ok: bool)
    requires sig.Length == SIG_SIZE
    ensures ok <==> Signed(sig[..], First, key, hmac) || Signed(sig[..], Second, key, hmac)
    ensures ok ==> Signed(sig[..], layout, key, hmac) && digestPos == DigestOffset(sig[..], layout)
  {
    hide DigestOffset, KeyOffset, Verifies;
    layout := expected;
    RegionsApart(sig[..], layout);
    digestPos := GetDigestOffset(sig, layout);
    ok := VerifyDigest(digestPos, sig, key, hmac);
    if !ok {
      layout := Other(layout);
      RegionsApart(sig[..], layout);
      digestPos := GetDigestOffset(sig, layout);
      ok := VerifyDigest(digestPos, sig, key, hmac);
    }
  }
}
