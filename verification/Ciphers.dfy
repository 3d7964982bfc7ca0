/** The two block ciphers of the encrypted handshakes, each with its inverse. */
module Ciphers {
  import opened Bytes
  import opened BlockTea

  const XTEA_ROUNDS := 32

  /** A block of the first cipher as two words. */
  datatype Pair = Pair(v0: uint32, v1: uint32)

  function XMixBits(v: bv32, key: bv32): bv32 {
    Xor(Plus(Xor(v << 4, v >> 5), v), key)
  }

  function XMix(v: uint32, key: uint32): uint32 {
    Word(XMixBits(Bits(v), Bits(key)))
  }

  /** The sum before round `r`, counting from 0. */
  function XSum(r: nat): uint32 {
    if r == 0 then 0 else Add(XSum(r - 1), DELTA)
  }

  function XRound(v: Pair, sum: uint32, k: Key): Pair {
    var v0 := Add(v.v0, XMix(v.v1, Add(sum, k[sum % 4])));
    var next := Add(sum, DELTA);
    Pair(v0, Add(v.v1, XMix(v0, Add(next, k[next / 2048 % 4]))))
  }

  function XUndo(v: Pair, sum: uint32, k: Key): Pair {
    var next := Add(sum, DELTA);
    var v1 := Subtract(v.v1, XMix(v.v0, Add(next, k[next / 2048 % 4])));
    Pair(Subtract(v.v0, XMix(v1, Add(sum, k[sum % 4]))), v1)
  }

  function XEncrypt(v: Pair, r: nat, k: Key): Pair {
    if r == 0 then v else XRound(XEncrypt(v, r - 1, k), XSum(r - 1), k)
  }

  function XDecrypt(v: Pair, r: nat, k: Key): Pair
    decreases r
  {
    if r == 0 then v else XDecrypt(XUndo(v, XSum(r - 1), k), r - 1, k)
  }

  lemma XRoundInverse(v: Pair, sum: uint32, k: Key)
    ensures XUndo(XRound(v, sum, k), sum, k) == v && XRound(XUndo(v, sum, k), sum, k) == v
  {
    hide XMix, Add, Subtract;
    var next := Add(sum, DELTA);
    var e, d := XRound(v, sum, k), XUndo(v, sum, k);
    AddSubtract(v.v0, XMix(v.v1, Add(sum, k[sum % 4])));
    AddSubtract(v.v1, XMix(e.v0, Add(next, k[next / 2048 % 4])));
    AddSubtract(v.v1, XMix(v.v0, Add(next, k[next / 2048 % 4])));
    AddSubtract(v.v0, XMix(d.v1, Add(sum, k[sum % 4])));
  }

  /** The first cipher is a permutation for every key. */
  lemma {:induction false} XteaInverse(v: Pair, r: nat, k: Key)
    ensures XDecrypt(XEncrypt(v, r, k), r, k) == v && XEncrypt(XDecrypt(v, r, k), r, k) == v
    decreases r
  {
    hide XRound, XUndo;
    if r > 0 {
      XRoundInverse(XEncrypt(v, r - 1, k), XSum(r - 1), k);
      XteaInverse(v, r - 1, k);
      XteaInverse(XUndo(v, XSum(r - 1), k), r - 1, k);
      XRoundInverse(v, XSum(r - 1), k);
    }
  }

  /** Eight bytes as two little-endian words, and back. */
  function FromBytes(b: seq<byte>): Pair
    requires |b| == 8
  {
    Pair(DecodeInt32LE(b[..4]), DecodeInt32LE(b[4..]))
  }

  function ToBytes(v: Pair): (b: seq<byte>)
    ensures |b| == 8
  {
    Int32LE(v.v0) + Int32LE(v.v1)
  }

  function XteaBlock(b: seq<byte>, k: Key): (r: seq<byte>)
    requires |b| == 8
    ensures |r| == 8
  {
    ToBytes(XEncrypt(FromBytes(b), XTEA_ROUNDS, k))
  }

  function XteaUnblock(b: seq<byte>, k: Key): (r: seq<byte>)
    requires |b| == 8
    ensures |r| == 8
  {
    ToBytes(XDecrypt(FromBytes(b), XTEA_ROUNDS, k))
  }

  lemma WordBytes(b: seq<byte>)
    requires |b| == 4
    ensures Int32LE(DecodeInt32LE(b)) == b
  {
    var v: nat := DecodeInt32LE(b);
    var high: nat := b[3] as int * 0x100 + b[2];
    var upper: nat := high * 0x100 + b[1];
    Digit(upper, b[0]);
    Digit(high, b[1]);
    Digit(b[3], b[2]);
    assert v == upper * 0x100 + b[0];
    QuotientsChain(v);
  }

  lemma Digit(q: nat, r: nat)
    requires r < 0x100
    ensures (q * 0x100 + r) / 0x100 == q && (q * 0x100 + r) % 0x100 == r
  {
  }

  lemma QuotientsChain(v: nat)
    ensures v / 0x1_0000 == v / 0x100 / 0x100 && v / 0x100_0000 == v / 0x100 / 0x100 / 0x100
  {
  }

  lemma BytesInverse(b: seq<byte>, v: Pair)
    requires |b| == 8
    ensures ToBytes(FromBytes(b)) == b && FromBytes(ToBytes(v)) == v
  {
    hide Int32LE, DecodeInt32LE;
    WordBytes(b[..4]);
    WordBytes(b[4..]);
    assert b == b[..4] + b[4..];
    IntRoundTrip(v.v0, []);
    IntRoundTrip(v.v1, []);
    assert Int32LE(v.v0) + [] == Int32LE(v.v0) == ToBytes(v)[..4];
    assert Int32LE(v.v1) + [] == Int32LE(v.v1) == ToBytes(v)[4..];
  }

  /** On blocks of bytes: for every key no two blocks encrypt alike, and every block is an encryption. */
  lemma XteaBlockInverse(b: seq<byte>, k: Key)
    requires |b| == 8
    ensures XteaUnblock(XteaBlock(b, k), k) == b && XteaBlock(XteaUnblock(b, k), k) == b
  {
    hide FromBytes, ToBytes, XEncrypt, XDecrypt;
    var v := FromBytes(b);
    XteaInverse(v, XTEA_ROUNDS, k);
    BytesInverse(b, XEncrypt(v, XTEA_ROUNDS, k));
    BytesInverse(b, XDecrypt(v, XTEA_ROUNDS, k));
  }

  /** Encrypts the eight bytes at `at` where they stand. */
  method Rtmpe8Sig(buf: array<byte>, at: nat, k: Key)
    requires at + 8 <= buf.Length
    modifies buf
    ensures buf[at..at + 8] == XteaBlock(old(buf[at..at + 8]), k)
    ensures buf[..at] == old(buf[..at]) && buf[at + 8..] == old(buf[at + 8..])
  {
    hide XMix, Add, XEncrypt;
    ghost var block := buf[at..at + 8];
    var v0: uint32 := buf[at] + buf[at + 1] as int * 0x100 + buf[at + 2] as int * 0x1_0000
        + buf[at + 3] as int * 0x100_0000;
    var v1: uint32 := buf[at + 4] + buf[at + 5] as int * 0x100 + buf[at + 6] as int * 0x1_0000
        + buf[at + 7] as int * 0x100_0000;
    assert Pair(v0, v1) == FromBytes(block);
    v0, v1 := Rtmpe8Rounds(v0, v1, k);
    for i := 0 to 4
      invariant buf[at..at + i] == Int32LE(v0)[..i]
      invariant buf[..at] == old(buf[..at]) && buf[at + 8..] == old(buf[at + 8..])
    {
      buf[at + i] := Int32LE(v0)[i];
    }
    for i := 0 to 4
      invariant buf[at..at + 4] == Int32LE(v0)
      invariant buf[at + 4..at + 4 + i] == Int32LE(v1)[..i]
      invariant buf[..at] == old(buf[..at]) && buf[at + 8..] == old(buf[at + 8..])
    {
      buf[at + 4 + i] := Int32LE(v1)[i];
    }
    assert buf[at..at + 8] == buf[at..at + 4] + buf[at + 4..at + 8];
    assert buf[at..at + 8] == ToBytes(Pair(v0, v1));
  }

  /** The round loop of the first cipher. */
  method Rtmpe8Rounds(a: uint32, b: uint32, k: Key) returns (v0: uint32, v1: uint32)
    ensures Pair(v0, v1) == XEncrypt(Pair(a, b), XTEA_ROUNDS, k)
  {
    hide XMix, Add;
    v0, v1 := a, b;
    var sum: uint32 := 0;
    for i := 0 to XTEA_ROUNDS
      invariant sum == XSum(i) && Pair(v0, v1) == XEncrypt(Pair(a, b), i, k)
    {
      v0 := Add(v0, XMix(v1, Add(sum, k[sum % 4])));
      sum := Add(sum, DELTA);
      v1 := Add(v1, XMix(v0, Add(sum, k[sum / 2048 % 4])));
    }
  }
}
