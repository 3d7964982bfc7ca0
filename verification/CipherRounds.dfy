/** What one round of each cipher does to the bits, said without the functions that compute it. */
module CipherRounds {
  import opened Arith
  import opened Bytes
  import BlockTea
  import Blowfish
  import opened Ciphers

  // ---------- XTEA ----------

  lemma Shifts(v: bv32)
    ensures v << 4 == v * 16 && v >> 5 == v / 32 && v << 2 == v * 4 && v >> 3 == v / 8
  {
  }

  /** A word's own shifts by four to the left and five to the right. */
  function Spread(v: bv32): bv32 {
    Xor(v * 16, v / 32)
  }

  lemma MixOnBits(v: bv32, key: bv32)
    ensures Less(Xor(XMixBits(v, key), key), v) == Spread(v)
  {
    hide Xor, Plus, Less;
    Shifts(v);
    XorTwice(Plus(Xor(v << 4, v >> 5), v), key);
    PlusLess(Xor(v << 4, v >> 5), v);
  }

  /** To `x` the number `m` was added that, with `s` taken off again, is `y` plus the shifts of `y`. */
  predicate MixedIn(x: uint32, y: uint32, s: uint32, m: bv32, r: uint32) {
    && r == (x + Word(m)) % 0x1_0000_0000
    && Less(Xor(m, Bits(s)), Bits(y)) == Spread(Bits(y))
  }

  /** Each half of a round mixes one word into the other, with the sum and a key word: the one that the lowest two bits
    * of the sum choose, then the one that bits 11 and 12 of the next sum choose. */
  lemma XteaRound(v: Pair, sum: uint32, k: BlockTea.Key) returns (m: bv32, n: bv32)
    ensures
      var r, next := XRound(v, sum, k), (sum + 0x9E3779B9) % 0x1_0000_0000;
      && MixedIn(v.v0, v.v1, (sum + k[sum % 4]) % 0x1_0000_0000, m, r.v0)
      && MixedIn(v.v1, r.v0, (next + k[next / 2048 % 4]) % 0x1_0000_0000, n, r.v1)
  {
    hide Add, XMix, MixedIn;
    var next := Add(sum, BlockTea.DELTA);
    AddIs(sum, BlockTea.DELTA);
    AddIs(sum, k[sum % 4]);
    AddIs(next, k[next / 2048 % 4]);
    var r := XRound(v, sum, k);
    m := HalfRound(v.v0, v.v1, Add(sum, k[sum % 4]));
    n := HalfRound(v.v1, r.v0, Add(next, k[next / 2048 % 4]));
  }

  lemma AddIs(x: uint32, y: uint32)
    ensures Add(x, y) == (x + y) % 0x1_0000_0000
  {
  }

  lemma HalfRound(x: uint32, y: uint32, s: uint32) returns (m: bv32)
    ensures MixedIn(x, y, s, m, Add(x, XMix(y, s)))
  {
    hide XMixBits, Less, Xor, Bits, Word, Spread;
    m := XMixBits(Bits(y), Bits(s));
    MixOnBits(Bits(y), Bits(s));
  }

  /** The sum grows by the same constant in each of the 32 rounds. */
  lemma {:induction false} XteaSums(r: nat)
    ensures XSum(r) == r * 0x9E3779B9 % 0x1_0000_0000
  {
    if r > 0 {
      XteaSums(r - 1);
      SumOnSum((r - 1) * 0x9E3779B9, 0x9E3779B9);
    }
  }

  lemma SumOnSum(x: nat, d: nat)
    ensures (x % 0x1_0000_0000 + d) % 0x1_0000_0000 == (x + d) % 0x1_0000_0000
  {
  }

  /** A block goes through 32 rounds, the first with sum 0. */
  lemma XteaRounds(b: seq<byte>, k: BlockTea.Key) returns (w: seq<Pair>)
    requires |b| == 8
    ensures |w| == 33 && w[0] == FromBytes(b) && XteaBlock(b, k) == ToBytes(w[32])
    ensures forall i: nat :: i < 32 ==> w[i + 1] == XRound(w[i], i * 0x9E3779B9 % 0x1_0000_0000, k)
  {
    hide XRound, FromBytes, ToBytes;
    w := XteaChain(FromBytes(b), 32, k);
  }

  lemma {:induction false} XteaChain(v: Pair, r: nat, k: BlockTea.Key) returns (w: seq<Pair>)
    ensures |w| == r + 1 && w[0] == v && w[r] == XEncrypt(v, r, k)
    ensures forall i: nat :: i < r ==> w[i + 1] == XRound(w[i], i * 0x9E3779B9 % 0x1_0000_0000, k)
    decreases r
  {
    hide XRound, XSum;
    if r == 0 {
      w := [v];
    } else {
      w := XteaChain(v, r - 1, k);
      w := w + [XEncrypt(v, r, k)];
      XteaSums(r - 1);
    }
  }

  // ---------- block TEA ----------

  /** The key word is chosen by the lowest two bits of the position and the next two of the sum, exclusive-or. */
  lemma KeyIndexBits(p: nat, sum: uint32)
    ensures
      var i := BlockTea.KeyIndex(p, sum);
      i % 2 == (p + sum / 4) % 2 && i / 2 == (p / 2 + sum / 8) % 2
  {
    var x, y := p % 4, sum / 4 % 4;
    TwoBits(x as bv2, y as bv2);
    ThereAndBack(x);
    ThereAndBack(y);
    LowTwo(p);
    LowTwo(sum / 4);
    assert sum / 4 / 2 == sum / 8;
    HalfOfSum(p / 2, sum / 8);
    HalfOfSum(p, sum / 4);
  }

  lemma LowTwo(x: nat)
    ensures x % 4 % 2 == x % 2 && x % 4 / 2 == x / 2 % 2
  {
  }

  lemma HalfOfSum(a: nat, b: nat)
    ensures (a % 2 + b % 2) % 2 == (a + b) % 2
  {
  }

  lemma ThereAndBack(x: nat)
    requires x < 4
    ensures x as bv2 as nat == x
  {
  }

  lemma TwoBits(a: bv2, b: bv2)
    ensures (a ^ b) as nat % 2 == (a as nat + b as nat) % 2
    ensures (a ^ b) as nat / 2 == (a as nat / 2 + b as nat / 2) % 2
  {
    assert a == 0 || a == 1 || a == 2 || a == 3;
    assert b == 0 || b == 1 || b == 2 || b == 3;
  }

  /** The two neighbours of a word, shifted and put together. */
  function Shifted(z: bv32, y: bv32): bv32 {
    Plus(Xor(z / 32, y * 4), Xor(y / 8, z * 16))
  }

  lemma TeaMixOnBits(z: bv32, y: bv32, sum: bv32, key: bv32)
    ensures
      Xor(BlockTea.MixBits(z, y, sum, key), Plus(Xor(sum, y), Xor(key, z))) == Shifted(z, y)
  {
    hide Xor, Plus;
    Shifts(z);
    Shifts(y);
    XorTwice(Plus(Xor(z >> 5, y << 2), Xor(y >> 3, z << 4)), Plus(Xor(sum, y), Xor(key, z)));
  }

  /** Decryption takes from a word a number made of the words on both sides of it, on the ring of words. */
  lemma TeaWord(v: seq<uint32>, p: nat, sum: uint32, k: BlockTea.Key) returns (m: bv32)
    requires p < |v|
    ensures
      var r := BlockTea.DecryptWord(v, p, sum, k);
      var z, y := Bits(v[(p + |v| - 1) % |v|]), Bits(v[(p + 1) % |v|]);
      var key := Bits(k[BlockTea.KeyIndex(p, sum)]);
      && r == v[p := (v[p] - Word(m)) % 0x1_0000_0000]
      && Xor(m, Plus(Xor(Bits(sum), y), Xor(key, z))) == Shifted(z, y)
  {
    hide BlockTea.MixBits, BlockTea.KeyIndex, Xor, Plus, Bits, Word, Shifted;
    Neighbours(p, |v|);
    var z, y := Bits(v[BlockTea.Before(p, |v|)]), Bits(v[BlockTea.Behind(p, |v|)]);
    var key := Bits(k[BlockTea.KeyIndex(p, sum)]);
    m := BlockTea.MixBits(z, y, Bits(sum), key);
    TeaMixOnBits(z, y, Bits(sum), key);
  }

  /** A round decrypts the words from the last to the first, each on what the step before it left. */
  lemma {:induction false} TeaRound(v: seq<uint32>, p: nat, sum: uint32, k: BlockTea.Key) returns (w: seq<seq<uint32>>)
    requires p <= |v|
    ensures |w| == p + 1 && w[0] == v && w[p] == BlockTea.DecryptDown(v, p, sum, k)
    ensures forall i: nat :: i < p ==> |w[i]| == |v| && w[i + 1] == BlockTea.DecryptWord(w[i], p - 1 - i, sum, k)
    decreases p
  {
    hide BlockTea.DecryptWord;
    if p == 0 {
      w := [v];
    } else {
      w := TeaRound(BlockTea.DecryptWord(v, p - 1, sum, k), p - 1, sum, k);
      w := [v] + w;
    }
  }

  /** The sums of the rounds fall by the same constant, from as many times it as there are rounds. */
  lemma {:induction false} TeaRounds(v: seq<uint32>, r: nat, k: BlockTea.Key) returns (w: seq<seq<uint32>>)
    ensures |w| == r + 1 && w[0] == v && w[r] == BlockTea.DecryptRounds(v, r, k)
    ensures forall i: nat :: i < r ==>
      |w[i]| == |v| && w[i + 1] == BlockTea.DecryptDown(w[i], |v|, (r - i) * 0x9E3779B9 % 0x1_0000_0000, k)
    decreases r
  {
    hide BlockTea.DecryptDown;
    if r == 0 {
      w := [v];
    } else {
      w := TeaRounds(BlockTea.DecryptDown(v, |v|, BlockTea.SumOf(r), k), r - 1, k);
      w := [v] + w;
    }
  }

  lemma Neighbours(p: nat, n: nat)
    requires p < n
    ensures BlockTea.Before(p, n) == (p + n - 1) % n && BlockTea.Behind(p, n) == (p + 1) % n
  {
    if p > 0 {
      assert p + n - 1 == p - 1 + n;
      OneRoundTrip(p - 1, n);
    }
    if p == n - 1 {
      assert p + 1 == 0 + n;
      OneRoundTrip(0, n);
    }
  }

  lemma OneRoundTrip(x: nat, n: nat)
    requires x < n
    ensures (x + n) % n == x
  {
    QuotientOf(x + n, n, 1, x);
  }

  // ---------- Blowfish ----------

  /** The word of four bytes, the first the highest. */
  function FromFour(a: bv8, b: bv8, c: bv8, d: bv8): bv32 {
    a as bv32 * 0x100_0000 + b as bv32 * 0x1_0000 + c as bv32 * 0x100 + d as bv32
  }

  /** The four bytes of a word are looked up in the four boxes, the highest in the first; without what the last two
    * add, the result is the sum of the first two. */
  lemma BlowfishBoxes(a: bv8, b: bv8, c: bv8, d: bv8, k: Blowfish.Key)
    requires k.Valid()
    ensures
      Xor(Less(Blowfish.Scramble(FromFour(a, b, c, d), k), k.s[3][d as nat]), k.s[2][c as nat]) ==
      Plus(k.s[0][a as nat], k.s[1][b as nat])
  {
    hide Xor, Less, Plus, FromFour;
    FourBytes(a, b, c, d);
    var p, q, r, s := k.s[0][a as nat], k.s[1][b as nat], k.s[2][c as nat], k.s[3][d as nat];
    PlusLess(Xor(Plus(p, q), r), s);
    XorTwice(Plus(p, q), r);
  }

  lemma FourBytes(a: bv8, b: bv8, c: bv8, d: bv8)
    ensures
      var x := FromFour(a, b, c, d);
      && (x >> 24) as bv8 == a && ((x >> 16) & 0xff) as bv8 == b && ((x >> 8) & 0xff) as bv8 == c
      && (x & 0xff) as bv8 == d
  {
  }

  /** A round: the left half takes the round's key word and goes to the right; what is mixed into the right half is the
    * boxes' value of it. */
  lemma BlowfishRound(h: Blowfish.Halves, i: nat, k: Blowfish.Key)
    requires k.Valid() && i < 16
    ensures
      var r := Blowfish.Round(h, i, k);
      Xor(r.r, h.l) == k.p[i] && Xor(r.l, h.r) == Blowfish.Scramble(r.r, k)
  {
    hide Blowfish.Scramble, Xor;
    XorBack(h.l, k.p[i]);
    XorBack(h.r, Blowfish.Scramble(Xor(h.l, k.p[i]), k));
  }

  /** Sixteen rounds with the key words in order; then the halves are crossed over and take the last two. */
  lemma BlowfishRounds(h: Blowfish.Halves, k: Blowfish.Key) returns (w: seq<Blowfish.Halves>)
    requires k.Valid()
    ensures |w| == 17 && w[0] == h && forall i: nat :: i < 16 ==> w[i + 1] == Blowfish.Round(w[i], i, k)
    ensures
      var r := Blowfish.Encrypt(h, k);
      Xor(r.l, w[16].r) == k.p[17] && Xor(r.r, w[16].l) == k.p[16]
  {
    hide Blowfish.RoundsTo, Blowfish.Round, Xor;
    w := BlowfishChain(h, 16, k);
    XorBack(w[16].r, k.p[17]);
    XorBack(w[16].l, k.p[16]);
  }

  lemma {:induction false} BlowfishChain(h: Blowfish.Halves, n: nat, k: Blowfish.Key) returns (w: seq<Blowfish.Halves>)
    requires k.Valid() && n <= 16
    ensures |w| == n + 1 && w[0] == h && w[n] == Blowfish.RoundsTo(h, n, k)
    ensures forall i: nat :: i < n ==> w[i + 1] == Blowfish.Round(w[i], i, k)
  {
    hide Blowfish.Round;
    if n == 0 {
      w := [h];
    } else {
      w := BlowfishChain(h, n - 1, k);
      w := w + [Blowfish.RoundsTo(h, n, k)];
    }
  }
}
