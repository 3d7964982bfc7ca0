/** The Feistel network of the second cipher: a permutation whatever its boxes hold. */
module Blowfish {
  import opened Bytes

  const ROUNDS := 16

  /** Four boxes of 256 words and one word for each round and two more. */
  datatype Key = Key(s: seq<seq<bv32>>, p: seq<bv32>) {
    ghost predicate Valid() {
      |s| == 4 && (forall i :: 0 <= i < 4 ==> |s[i]| == 256) && |p| == ROUNDS + 2
    }
  }

  function Index(b: bv8): (i: nat)
    ensures i < 256
  {
    b as nat
  }

  /** The four bytes of a word, looked up and combined. */
  function Scramble(x: bv32, k: Key): bv32
    requires k.Valid()
  {
    var a, b := k.s[0][Index((x >> 24) as bv8)], k.s[1][Index(((x >> 16) & 0xff) as bv8)];
    var c, d := k.s[2][Index(((x >> 8) & 0xff) as bv8)], k.s[3][Index((x & 0xff) as bv8)];
    Plus(Xor(Plus(a, b), c), d)
  }

  datatype Halves = Halves(l: bv32, r: bv32)

  /** Round `i`, halves swapped at the end. */
  function Round(h: Halves, i: nat, k: Key): Halves
    requires k.Valid() && i < ROUNDS
  {
    var l := Xor(h.l, k.p[i]);
    Halves(Xor(h.r, Scramble(l, k)), l)
  }

  function Unround(h: Halves, i: nat, k: Key): Halves
    requires k.Valid() && i < ROUNDS
  {
    Halves(Xor(h.r, k.p[i]), Xor(h.l, Scramble(h.r, k)))
  }

  function RoundsTo(h: Halves, n: nat, k: Key): Halves
    requires k.Valid() && n <= ROUNDS
    decreases n
  {
    if n == 0 then h else Round(RoundsTo(h, n - 1, k), n - 1, k)
  }

  function UnroundsFrom(h: Halves, n: nat, k: Key): Halves
    requires k.Valid() && n <= ROUNDS
    decreases n
  {
    if n == 0 then h else UnroundsFrom(Unround(h, n - 1, k), n - 1, k)
  }

  /** The last two key words, and the halves crossed over. */
  function Finish(h: Halves, k: Key): Halves
    requires k.Valid()
  {
    Halves(Xor(h.r, k.p[ROUNDS + 1]), Xor(h.l, k.p[ROUNDS]))
  }

  function Unfinish(h: Halves, k: Key): Halves
    requires k.Valid()
  {
    Halves(Xor(h.r, k.p[ROUNDS]), Xor(h.l, k.p[ROUNDS + 1]))
  }

  function Encrypt(h: Halves, k: Key): Halves
    requires k.Valid()
  {
    Finish(RoundsTo(h, ROUNDS, k), k)
  }

  function Decrypt(h: Halves, k: Key): Halves
    requires k.Valid()
  {
    UnroundsFrom(Unfinish(h, k), ROUNDS, k)
  }

  lemma RoundInverse(h: Halves, i: nat, k: Key)
    requires k.Valid() && i < ROUNDS
    ensures Unround(Round(h, i, k), i, k) == h && Round(Unround(h, i, k), i, k) == h
  {
    hide Scramble, Xor;
    XorTwice(h.l, k.p[i]);
    XorTwice(h.r, Scramble(Xor(h.l, k.p[i]), k));
    XorTwice(h.r, k.p[i]);
    XorTwice(h.l, Scramble(h.r, k));
  }

  lemma FinishInverse(h: Halves, k: Key)
    requires k.Valid()
    ensures Unfinish(Finish(h, k), k) == h && Finish(Unfinish(h, k), k) == h
  {
    hide Xor;
    XorTwice(h.l, k.p[ROUNDS]);
    XorTwice(h.r, k.p[ROUNDS + 1]);
    XorTwice(h.r, k.p[ROUNDS]);
    XorTwice(h.l, k.p[ROUNDS + 1]);
  }

  lemma {:induction false} RoundsInverse(h: Halves, n: nat, k: Key)
    requires k.Valid() && n <= ROUNDS
    ensures UnroundsFrom(RoundsTo(h, n, k), n, k) == h && RoundsTo(UnroundsFrom(h, n, k), n, k) == h
    decreases n
  {
    hide Round, Unround;
    if n > 0 {
      RoundInverse(RoundsTo(h, n - 1, k), n - 1, k);
      RoundsInverse(h, n - 1, k);
      RoundsInverse(Unround(h, n - 1, k), n - 1, k);
      RoundInverse(h, n - 1, k);
    }
  }

  /** The second cipher is a permutation for every key schedule. */
  lemma CipherInverse(h: Halves, k: Key)
    requires k.Valid()
    ensures Decrypt(Encrypt(h, k), k) == h && Encrypt(Decrypt(h, k), k) == h
  {
    hide Finish, Unfinish;
    RoundsInverse(h, ROUNDS, k);
    FinishInverse(RoundsTo(h, ROUNDS, k), k);
    FinishInverse(h, k);
    RoundsInverse(Unfinish(h, k), ROUNDS, k);
  }

  /** Encrypts a block of two words where it stands. */
  method BfEnc(x: array<bv32>, k: Key)
    requires k.Valid() && x.Length == 2
    modifies x
    ensures Halves(x[0], x[1]) == Encrypt(old(Halves(x[0], x[1])), k)
    ensures Decrypt(Halves(x[0], x[1]), k) == old(Halves(x[0], x[1]))
  {
    hide Scramble, Xor;
    var xl, xr := x[0], x[1];
    for i := 0 to ROUNDS
      invariant Halves(xl, xr) == RoundsTo(old(Halves(x[0], x[1])), i, k)
    {
      xl := Xor(xl, k.p[i]);
      xr := Xor(xr, Scramble(xl, k));
      xl, xr := xr, xl;
    }
    xl := Xor(xl, k.p[ROUNDS]);
    xr := Xor(xr, k.p[ROUNDS + 1]);
    x[0] := xr;
    x[1] := xl;
    CipherInverse(old(Halves(x[0], x[1])), k);
  }
}
