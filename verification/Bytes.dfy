/** Bytes, 32-bit words and the fixed-width integer encodings shared by the chunk and AMF layers. */
module Bytes {

  datatype Option<+T> = None | Some(value: T)

  type byte = b: int | 0 <= b < 256

  const TWO32: int := 0x1_0000_0000

  type uint32 = w: int | 0 <= w < TWO32

  function Min(a: int, b: int): int {
    if a < b then a else b
  }

  /** Two bytes, most significant first; higher bits are cut off, as the stores into `char` do. */
  function Int16(v: nat): (s: seq<byte>)
    ensures |s| == 2
  {
    [v / 0x100 % 256, v % 256]
  }

  function Int24(v: nat): (s: seq<byte>)
    ensures |s| == 3
  {
    [v / 0x1_0000 % 256, v / 0x100 % 256, v % 256]
  }

  function Int32(v: nat): (s: seq<byte>)
    ensures |s| == 4
  {
    [v / 0x100_0000 % 256, v / 0x1_0000 % 256, v / 0x100 % 256, v % 256]
  }

  /** Four bytes, least significant first. */
  function Int32LE(v: nat): (s: seq<byte>)
    ensures |s| == 4
  {
    [v % 256, v / 0x100 % 256, v / 0x1_0000 % 256, v / 0x100_0000 % 256]
  }

  function DecodeInt16(s: seq<byte>): (v: nat)
    requires |s| >= 2
    ensures v < 0x1_0000
  {
    s[0] as int * 0x100 + s[1]
  }

  function DecodeInt24(s: seq<byte>): (v: nat)
    requires |s| >= 3
    ensures v < 0x100_0000
  {
    s[0] as int * 0x1_0000 + s[1] as int * 0x100 + s[2]
  }

  function DecodeInt32(s: seq<byte>): (v: uint32)
    requires |s| >= 4
  {
    s[0] as int * 0x100_0000 + s[1] as int * 0x1_0000 + s[2] as int * 0x100 + s[3]
  }

  function DecodeInt32LE(s: seq<byte>): (v: uint32)
    requires |s| >= 4
  {
    s[3] as int * 0x100_0000 + s[2] as int * 0x1_0000 + s[1] as int * 0x100 + s[0]
  }

  /** Every fixed-width form is inverted by its reader, whatever follows it in the buffer. */
  lemma IntRoundTrip(v: nat, rest: seq<byte>)
    ensures v < 0x1_0000 ==> DecodeInt16(Int16(v) + rest) == v
    ensures v < 0x100_0000 ==> DecodeInt24(Int24(v) + rest) == v
    ensures v < TWO32 ==> DecodeInt32(Int32(v) + rest) == v
    ensures v < TWO32 ==> DecodeInt32LE(Int32LE(v) + rest) == v
  {
    var b, c, d := v / 0x100, v / 0x1_0000, v / 0x100_0000;
    assert b / 0x100 == c && c / 0x100 == d;
    assert v == b * 0x100 + v % 0x100 && b == c * 0x100 + b % 0x100 && c == d * 0x100 + c % 0x100;
  }

  /** A signed reading of a 32-bit word, for the C `int` fields that are filled from unsigned ones. */
  function AsSigned(w: uint32): int {
    if w < 0x8000_0000 then w else w - TWO32
  }

  /** The bits of a 32-bit word, and back: shifts and exclusive-or are done on bits, sums on words. */
  function Bits(w: uint32): bv32 {
    w as bv32
  }

  function Word(b: bv32): uint32 {
    b as int
  }

  /** Sums, differences and exclusive-or of the bits of two words. */
  function Plus(a: bv32, b: bv32): bv32 {
    a + b
  }

  function Less(a: bv32, b: bv32): bv32 {
    a - b
  }

  function Xor(a: bv32, b: bv32): bv32 {
    a ^ b
  }

  lemma PlusLess(a: bv32, b: bv32)
    ensures Less(Plus(a, b), b) == a
  {
    calc {
      Less(Plus(a, b), b);
      Less(a + b, b);
      (a + b) - b;
      a;
    }
  }

  lemma XorTwice(a: bv32, b: bv32)
    ensures Xor(Xor(a, b), b) == a
  {
    assert (a ^ b) ^ b == a;
  }

  lemma XorBack(a: bv32, b: bv32)
    ensures Xor(Xor(a, b), a) == b
  {
    assert (a ^ b) ^ a == b;
  }

  /** Addition and subtraction of 32-bit words wrap around. */
  function Add(x: uint32, m: uint32): uint32 {
    (x + m) % TWO32
  }

  function Subtract(x: uint32, m: uint32): uint32 {
    (x - m) % TWO32
  }

  lemma AddSubtract(x: uint32, m: uint32)
    ensures Subtract(Add(x, m), m) == x && Add(Subtract(x, m), m) == x
  {
    assert Add(x, m) == if x + m < TWO32 then x + m else x + m - TWO32;
    assert Subtract(x, m) == if x >= m then x - m else x - m + TWO32;
  }

  /** A slice of a slice. */
  lemma SubSlice<T>(s: seq<T>, at: nat, n: nat, i: nat, j: nat)
    requires at + n <= |s| && i <= j <= n
    ensures s[at..at + n][i..j] == s[at + i..at + j]
  {
    var w := s[at..at + n];
    forall k | 0 <= k < j - i
      ensures w[i..j][k] == s[at + i..at + j][k]
    {
      assert w[i + k] == s[at + i + k];
    }
  }

  /** Dropping from the front of two sequences joined, as far as the first reaches. */
  lemma DropJoined<T>(a: seq<T>, b: seq<T>, k: nat)
    requires k <= |a|
    ensures (a + b)[k..] == a[k..] + b && (a + b)[..k] == a[..k]
  {
  }

  lemma Assoc<T>(a: seq<T>, b: seq<T>, c: seq<T>)
    ensures (a + b) + c == a + (b + c)
  {
  }
}
