/**
 * Bytes of memory, little-endian values and the sign extensions that
 * get_next(char/short/int) performs.
 */
module Bytes {
  type Byte = b: int | 0 <= b < 256

  /** A four-byte field, the bytes[] half of the union in struct insn_field. */
  type Quad = q: seq<Byte> | |q| == 4 witness [0, 0, 0, 0]

  const ZERO_QUAD: Quad := [0, 0, 0, 0]
  const TWO31 := 0x8000_0000
  const TWO32 := 0x1_0000_0000
  const TWO64 := 0x1_0000_0000_0000_0000

  /** Byte i of the readable memory. What lies past its end reads as zero. */
  function At(c: seq<Byte>, i: nat): Byte {
    if i < |c| then c[i] else 0
  }

  function Slice(c: seq<Byte>, from: nat, n: nat): (r: seq<Byte>)
    ensures |r| == n
  {
    seq<Byte>(n, i requires 0 <= i < n => At(c, from + i))
  }

  /** Both memories hold the same bytes from lo up to hi. */
  ghost predicate AgreeOn(c: seq<Byte>, d: seq<Byte>, lo: nat, hi: nat) {
    forall i: nat :: lo <= i < hi ==> At(c, i) == At(d, i)
  }

  ghost predicate Agree(c: seq<Byte>, d: seq<Byte>, n: nat) {
    AgreeOn(c, d, 0, n)
  }

  function S8(b: Byte): int {
    if b < 0x80 then b else b - 0x100
  }

  function U16(c: seq<Byte>, i: nat): int {
    At(c, i) + 0x100 * At(c, i + 1)
  }

  function S16(c: seq<Byte>, i: nat): int {
    if U16(c, i) < 0x8000 then U16(c, i) else U16(c, i) - 0x1_0000
  }

  function U32(c: seq<Byte>, i: nat): int {
    At(c, i) + 0x100 * At(c, i + 1) + 0x1_0000 * At(c, i + 2) + 0x100_0000 * At(c, i + 3)
  }

  /** The signed reading of a 32-bit word. */
  function AsSigned32(u: int): int {
    if u < TWO31 then u else u - TWO32
  }

  function S32(c: seq<Byte>, i: nat): int {
    AsSigned32(U32(c, i))
  }

  /** The n low bytes of v in two's complement, least significant first. */
  function LE(v: int, n: nat): (r: seq<Byte>)
    ensures |r| == n
    decreases n
  {
    if n == 0 then [] else [v % 0x100] + LE(v / 0x100, n - 1)
  }

  lemma LE1(c: seq<Byte>, i: nat)
    ensures LE(S8(At(c, i)), 1) == Slice(c, i, 1)
    ensures LE(At(c, i), 1) == Slice(c, i, 1)
  {
    assert LE(S8(At(c, i)), 1) == [At(c, i)];
  }

  lemma LE2Digits(v: int, k: int, b0: Byte, b1: Byte)
    requires v == b0 + 0x100 * b1 - 0x1_0000 * k
    ensures LE(v, 2) == [b0, b1]
  {
    assert v / 0x100 == b1 - 0x100 * k && v % 0x100 == b0;
    assert LE(v / 0x100, 1) == [(b1 - 0x100 * k) % 0x100] == [b1];
  }

  lemma LE2(c: seq<Byte>, i: nat)
    ensures LE(S16(c, i), 2) == Slice(c, i, 2)
    ensures LE(U16(c, i), 2) == Slice(c, i, 2)
  {
    LE2Digits(S16(c, i), if U16(c, i) < 0x8000 then 0 else 1, At(c, i), At(c, i + 1));
    LE2Digits(U16(c, i), 0, At(c, i), At(c, i + 1));
  }

  lemma LE4Digits(v: int, k: int, b0: Byte, b1: Byte, b2: Byte, b3: Byte)
    requires v == b0 + 0x100 * b1 + 0x1_0000 * b2 + 0x100_0000 * b3 - TWO32 * k
    ensures LE(v, 4) == [b0, b1, b2, b3]
  {
    var w := v / 0x100;
    assert w == b1 + 0x100 * b2 + 0x1_0000 * b3 - 0x100_0000 * k && v % 0x100 == b0;
    var x := w / 0x100;
    assert x == b2 + 0x100 * b3 - 0x1_0000 * k && w % 0x100 == b1;
    LE2Digits(x, k, b2, b3);
    assert LE(w, 3) == [b1] + LE(x, 2);
  }

  lemma LE4(c: seq<Byte>, i: nat)
    ensures LE(S32(c, i), 4) == Slice(c, i, 4)
  {
    LE4Digits(S32(c, i), if U32(c, i) < TWO31 then 0 else 1, At(c, i), At(c, i + 1), At(c, i + 2), At(c, i + 3));
  }

  /** Reading back a stored 32-bit word gives it modulo 2^32, read as signed. */
  lemma ReadBackWord(c: seq<Byte>, i: nat, u: int)
    requires 0 <= u < TWO32
    requires Slice(c, i, 4) == LE(u, 4)
    ensures S32(c, i) == AsSigned32(u)
  {
    var w, x, y := u / 0x100, u / 0x1_0000, u / 0x100_0000;
    assert w / 0x100 == x && x / 0x100 == y && y / 0x100 == 0;
    LE4Digits(u, 0, u % 0x100, w % 0x100, x % 0x100, y % 0x100);
    assert Slice(c, i, 4)[0] == At(c, i) && Slice(c, i, 4)[1] == At(c, i + 1);
    assert Slice(c, i, 4)[2] == At(c, i + 2) && Slice(c, i, 4)[3] == At(c, i + 3);
  }
}
