/** Block TEA: the in-place decryption of secure tokens, and the encryption it undoes. */
module BlockTea {
  import opened Bytes

  const DELTA: uint32 := 0x9e3779b9

  type Key = k: seq<uint32> | |k| == 4 witness [0, 0, 0, 0]

  /** The key word for word `p` in the round with this sum. */
  function KeyIndex(p: nat, sum: uint32): (i: nat)
    ensures i < 4
  {
    ((p % 4) as bv2 ^ (sum / 4 % 4) as bv2) as nat
  }

  function MixBits(z: bv32, y: bv32, sum: bv32, key: bv32): bv32 {
    Xor(Plus(Xor(z >> 5, y << 2), Xor(y >> 3, z << 4)), Plus(Xor(sum, y), Xor(key, z)))
  }

  /** What is added to word `p` by encryption and taken away by decryption. */
  function Mix(z: uint32, y: uint32, sum: uint32, p: nat, k: Key): uint32 {
    Word(MixBits(Bits(z), Bits(y), Bits(sum), Bits(k[KeyIndex(p, sum)])))
  }

  function Before(p: nat, n: nat): (b: nat)
    requires p < n
    ensures b < n && (n >= 2 ==> b != p)
  {
    if p == 0 then n - 1 else p - 1
  }

  function Behind(p: nat, n: nat): (b: nat)
    requires p < n
    ensures b < n && (n >= 2 ==> b != p)
  {
    if p == n - 1 then 0 else p + 1
  }

  /** What word `p` is mixed with, given its two neighbours on the ring of words. */
  function MixAt(v: seq<uint32>, p: nat, sum: uint32, k: Key): uint32
    requires p < |v|
  {
    Mix(v[Before(p, |v|)], v[Behind(p, |v|)], sum, p, k)
  }

  function DecryptWord(v: seq<uint32>, p: nat, sum: uint32, k: Key): (r: seq<uint32>)
    requires p < |v|
    ensures |r| == |v|
  {
    v[p := Subtract(v[p], MixAt(v, p, sum, k))]
  }

  function EncryptWord(v: seq<uint32>, p: nat, sum: uint32, k: Key): (r: seq<uint32>)
    requires p < |v|
    ensures |r| == |v|
  {
    v[p := Add(v[p], MixAt(v, p, sum, k))]
  }

  /** Decrypts the words from `p` - 1 down to 0. */
  function DecryptDown(v: seq<uint32>, p: nat, sum: uint32, k: Key): (r: seq<uint32>)
    requires p <= |v|
    ensures |r| == |v|
    decreases p
  {
    if p == 0 then v else DecryptDown(DecryptWord(v, p - 1, sum, k), p - 1, sum, k)
  }

  /** Encrypts the words from 0 up to `p` - 1. */
  function EncryptUp(v: seq<uint32>, p: nat, sum: uint32, k: Key): (r: seq<uint32>)
    requires p <= |v|
    ensures |r| == |v|
    decreases p
  {
    if p == 0 then v else EncryptWord(EncryptUp(v, p - 1, sum, k), p - 1, sum, k)
  }

  /** The sum in force in round `r`. */
  function SumOf(r: nat): uint32 {
    r * DELTA % TWO32
  }

  /** Rounds `r`, `r` - 1, ..., 1 of decryption. */
  function DecryptRounds(v: seq<uint32>, r: nat, k: Key): (w: seq<uint32>)
    ensures |w| == |v|
    decreases r
  {
    if r == 0 then v else DecryptRounds(DecryptDown(v, |v|, SumOf(r), k), r - 1, k)
  }

  /** Rounds 1, 2, ..., `r` of encryption. */
  function EncryptRounds(v: seq<uint32>, r: nat, k: Key): (w: seq<uint32>)
    ensures |w| == |v|
    decreases r
  {
    if r == 0 then v else EncryptUp(EncryptRounds(v, r - 1, k), |v|, SumOf(r), k)
  }

  function Rounds(n: nat): nat
    requires n > 0
  {
    6 + 52 / n
  }

  function Decrypt(v: seq<uint32>, k: Key): seq<uint32>
    requires |v| > 0
  {
    DecryptRounds(v, Rounds(|v|), k)
  }

  function Encrypt(v: seq<uint32>, k: Key): seq<uint32>
    requires |v| > 0
  {
    EncryptRounds(v, Rounds(|v|), k)
  }

  /** The sum comes back to 0 only after all rounds: DELTA has an inverse. */
  lemma SumIsZeroOnlyAtEnd(r: nat)
    requires r < TWO32
    ensures SumOf(r) == 0 <==> r == 0
  {
    if SumOf(r) == 0 {
      OddMultiple(r, r * DELTA / TWO32);
    }
  }

  /** A multiple of the odd number DELTA by less than 2^32 that 2^32 divides is 0. */
  lemma OddMultiple(r: nat, m: int)
    requires r < 0x1_0000_0000 && r * 0x9e3779b9 == m * 0x1_0000_0000
    ensures r == 0
  {
    var a := m * 0x144cbc89 - r * 210485888;
    assert r == a * 0x1_0000_0000;
  }

  lemma SumFalls(r: nat)
    requires r > 0
    ensures (SumOf(r) - DELTA) % TWO32 == SumOf(r - 1)
  {
    SameRemainder((r - 1) * 0x9e3779b9, r * 0x9e3779b9 / 0x1_0000_0000);
  }

  lemma SameRemainder(x: int, m: int)
    ensures (x - m * 0x1_0000_0000) % 0x1_0000_0000 == x % 0x1_0000_0000
  {
  }

  lemma WordInverse(v: seq<uint32>, p: nat, sum: uint32, k: Key)
    requires p < |v| && |v| >= 2
    ensures DecryptWord(EncryptWord(v, p, sum, k), p, sum, k) == v
    ensures EncryptWord(DecryptWord(v, p, sum, k), p, sum, k) == v
  {
    hide Mix, Add, Subtract;
    var m := MixAt(v, p, sum, k);
    AddSubtract(v[p], m);
    assert MixAt(EncryptWord(v, p, sum, k), p, sum, k) == m;
    assert MixAt(DecryptWord(v, p, sum, k), p, sum, k) == m;
  }

  lemma {:induction false} RoundInverse(v: seq<uint32>, p: nat, sum: uint32, k: Key)
    requires p <= |v| && |v| >= 2
    ensures DecryptDown(EncryptUp(v, p, sum, k), p, sum, k) == v
    ensures EncryptUp(DecryptDown(v, p, sum, k), p, sum, k) == v
    decreases p
  {
    hide EncryptWord, DecryptWord;
    if p > 0 {
      WordInverse(EncryptUp(v, p - 1, sum, k), p - 1, sum, k);
      RoundInverse(v, p - 1, sum, k);
      WordInverse(v, p - 1, sum, k);
      RoundInverse(DecryptWord(v, p - 1, sum, k), p - 1, sum, k);
    }
  }

  lemma {:induction false} RoundsInverse(v: seq<uint32>, r: nat, k: Key)
    requires |v| >= 2
    ensures DecryptRounds(EncryptRounds(v, r, k), r, k) == v
    ensures EncryptRounds(DecryptRounds(v, r, k), r, k) == v
    decreases r
  {
    hide EncryptUp, DecryptDown;
    if r > 0 {
      RoundInverse(EncryptRounds(v, r - 1, k), |v|, SumOf(r), k);
      RoundsInverse(v, r - 1, k);
      RoundInverse(v, |v|, SumOf(r), k);
      RoundsInverse(DecryptDown(v, |v|, SumOf(r), k), r - 1, k);
    }
  }

  /** For two words or more and any key, decryption and encryption undo each other. */
  lemma CipherInverse(v: seq<uint32>, k: Key)
    requires |v| >= 2
    ensures Decrypt(Encrypt(v, k), k) == v && Encrypt(Decrypt(v, k), k) == v
  {
    RoundsInverse(v, Rounds(|v|), k);
  }

  /** The decryption loop, in place; `rounds` counts its turns. */
  method DecodeTEA(v: array<uint32>, k: Key) returns (rounds: nat)
    requires v.Length > 0
    modifies v
    ensures v[..] == Decrypt(old(v[..]), k)
    ensures rounds == 6 + 52 / v.Length
    ensures v.Length >= 2 ==> Encrypt(v[..], k) == old(v[..])
  {
    hide Mix, DecryptWord, DecryptDown;
    var n := v.Length;
    var z, y := v[n - 1], v[0];
    var q := 6 + 52 / n;
    var sum: uint32 := q * DELTA % TWO32;
    rounds := 0;
    while sum != 0
      invariant rounds <= q && sum == SumOf(q - rounds) && y == v[0]
      invariant DecryptRounds(v[..], q - rounds, k) == Decrypt(old(v[..]), k)
      decreases q - rounds
    {
      DecodeRound(v, y, sum, k);
      y := v[0];
      SumFalls(q - rounds);
      sum := (sum - DELTA) % TWO32;
      rounds := rounds + 1;
    }
    SumIsZeroOnlyAtEnd(q - rounds);
    if n >= 2 {
      CipherInverse(old(v[..]), k);
    }
  }

  /** One round: from the last word to the first, each with the word before it and the word behind it, already done. */
  method DecodeRound(v: array<uint32>, first: uint32, sum: uint32, k: Key)
    requires v.Length > 0 && first == v[0]
    modifies v
    ensures v[..] == DecryptDown(old(v[..]), v.Length, sum, k)
  {
    hide Mix, Subtract;
    var n, y := v.Length, first;
    var p: nat := n - 1;
    while p > 0
      invariant p < n && y == v[Behind(p, n)]
      invariant DecryptDown(v[..], p + 1, sum, k) == DecryptDown(old(v[..]), n, sum, k)
    {
      var z := v[p - 1];
      ghost var was := v[..];
      v[p] := Subtract(v[p], Mix(z, y, sum, p, k));
      y := v[p];
      assert v[..] == DecryptWord(was, p, sum, k);
      p := p - 1;
    }
    var z := v[n - 1];
    ghost var was := v[..];
    v[0] := Subtract(v[0], Mix(z, y, sum, 0, k));
    assert v[..] == DecryptWord(was, 0, sum, k);
  }
}
