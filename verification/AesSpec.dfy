/**
 * AES as FIPS 197 states it: sections 5.1 (the cipher) and 5.3.5 (the
 * equivalent inverse cipher) on a state of four columns, for any S-box that is
 * a bijection, and the proof that the second undoes the first.
 */
module AesSpec {
  /** A column of the state, row 0 first. */
  datatype Col = Col(b0: bv8, b1: bv8, b2: bv8, b3: bv8)

  datatype Block = Block(c0: Col, c1: Col, c2: Col, c3: Col)

  /** An S-box and its inverse. */
  datatype Sbox = Sbox(sub: bv8 -> bv8, inv: bv8 -> bv8) {
    ghost predicate Bijective() {
      (forall x: bv8 :: inv(sub(x)) == x) && (forall x: bv8 :: sub(inv(x)) == x)
    }
  }

  // ---- GF(2^8), sections 4.1 and 4.2 ----

  function Add(a: bv8, b: bv8): bv8 { a ^ b }

  function Sum(a: bv8, b: bv8, c: bv8, d: bv8): bv8 { Add(Add(a, b), Add(c, d)) }

  /** The reduction by x^8 + x^4 + x^3 + x + 1 for a given top bit. */
  function Reduce(top: bv8): bv8 {
    if top != 0 then 0x1b else 0
  }

  function Mul2(b: bv8): bv8 { (b << 1) ^ Reduce(b & 0x80) }
  function Mul4(b: bv8): bv8 { Mul2(Mul2(b)) }
  function Mul8(b: bv8): bv8 { Mul2(Mul4(b)) }
  function Mul3(b: bv8): bv8 { Add(Mul2(b), b) }
  function Mul9(b: bv8): bv8 { Add(Mul8(b), b) }
  function Mul11(b: bv8): bv8 { Add(Mul9(b), Mul2(b)) }
  function Mul13(b: bv8): bv8 { Add(Mul9(b), Mul4(b)) }
  function Mul14(b: bv8): bv8 { Add(Add(Mul8(b), Mul4(b)), Mul2(b)) }

  // ---- The transformations ----

  function SubCol(f: bv8 -> bv8, c: Col): Col {
    Col(f(c.b0), f(c.b1), f(c.b2), f(c.b3))
  }

  function SubBytes(f: bv8 -> bv8, s: Block): Block {
    Block(SubCol(f, s.c0), SubCol(f, s.c1), SubCol(f, s.c2), SubCol(f, s.c3))
  }

  /** Row r moves left by r columns. */
  function ShiftRows(s: Block): Block {
    Block(Col(s.c0.b0, s.c1.b1, s.c2.b2, s.c3.b3), Col(s.c1.b0, s.c2.b1, s.c3.b2, s.c0.b3),
          Col(s.c2.b0, s.c3.b1, s.c0.b2, s.c1.b3), Col(s.c3.b0, s.c0.b1, s.c1.b2, s.c2.b3))
  }

  function InvShiftRows(s: Block): Block {
    Block(Col(s.c0.b0, s.c3.b1, s.c2.b2, s.c1.b3), Col(s.c1.b0, s.c0.b1, s.c3.b2, s.c2.b3),
          Col(s.c2.b0, s.c1.b1, s.c0.b2, s.c3.b3), Col(s.c3.b0, s.c2.b1, s.c1.b2, s.c0.b3))
  }

  /** One row of the MixColumns matrix: 02 03 01 01. */
  function MixRow(a: bv8, b: bv8, c: bv8, d: bv8): bv8 {
    Sum(Mul2(a), Mul3(b), c, d)
  }

  function MixCol(c: Col): Col {
    Col(MixRow(c.b0, c.b1, c.b2, c.b3), MixRow(c.b1, c.b2, c.b3, c.b0),
        MixRow(c.b2, c.b3, c.b0, c.b1), MixRow(c.b3, c.b0, c.b1, c.b2))
  }

  /** One row of the InvMixColumns matrix: 0e 0b 0d 09. */
  function InvRow(a: bv8, b: bv8, c: bv8, d: bv8): bv8 {
    Sum(Mul14(a), Mul11(b), Mul13(c), Mul9(d))
  }

  function InvMixCol(c: Col): Col {
    Col(InvRow(c.b0, c.b1, c.b2, c.b3), InvRow(c.b1, c.b2, c.b3, c.b0),
        InvRow(c.b2, c.b3, c.b0, c.b1), InvRow(c.b3, c.b0, c.b1, c.b2))
  }

  function MixColumns(s: Block): Block {
    Block(MixCol(s.c0), MixCol(s.c1), MixCol(s.c2), MixCol(s.c3))
  }

  function InvMixColumns(s: Block): Block {
    Block(InvMixCol(s.c0), InvMixCol(s.c1), InvMixCol(s.c2), InvMixCol(s.c3))
  }

  function XorCol(c: Col, d: Col): Col {
    Col(Add(c.b0, d.b0), Add(c.b1, d.b1), Add(c.b2, d.b2), Add(c.b3, d.b3))
  }

  /** AddRoundKey */
  function Xor(s: Block, k: Block): Block {
    Block(XorCol(s.c0, k.c0), XorCol(s.c1, k.c1), XorCol(s.c2, k.c2), XorCol(s.c3, k.c3))
  }

  // ---- The cipher and its inverse ----

  /** SubBytes and ShiftRows */
  function Substituted(sb: Sbox, s: Block): Block {
    ShiftRows(SubBytes(sb.sub, s))
  }

  function EncRound(sb: Sbox, s: Block, k: Block): Block {
    Xor(MixColumns(Substituted(sb, s)), k)
  }

  function EncFinal(sb: Sbox, s: Block, k: Block): Block {
    Xor(Substituted(sb, s), k)
  }

  /** r rounds from state s, with keys 1 to r. */
  function RunRounds(round: (Block, Block) -> Block, keys: nat -> Block, s: Block, r: nat): Block {
    if r == 0 then s else round(RunRounds(round, keys, s, r - 1), keys(r))
  }

  function EncRounds(sb: Sbox): (Block, Block) -> Block {
    (s, k) => EncRound(sb, s, k)
  }

  function DecRounds(sb: Sbox): (Block, Block) -> Block {
    (s, k) => DecRound(sb, s, k)
  }

  function Cipher(sb: Sbox, keys: nat -> Block, rounds: nat, s: Block): Block
    requires rounds > 0
  {
    EncFinal(sb, RunRounds(EncRounds(sb), keys, Xor(s, keys(0)), rounds - 1), keys(rounds))
  }

  function DecRound(sb: Sbox, s: Block, k: Block): Block {
    Xor(InvMixColumns(InvShiftRows(SubBytes(sb.inv, s))), k)
  }

  function DecFinal(sb: Sbox, s: Block, k: Block): Block {
    Xor(InvShiftRows(SubBytes(sb.inv, s)), k)
  }

  function InvCipher(sb: Sbox, keys: nat -> Block, rounds: nat, s: Block): Block
    requires rounds > 0
  {
    DecFinal(sb, RunRounds(DecRounds(sb), keys, Xor(s, keys(0)), rounds - 1), keys(rounds))
  }

  predicate MiddlePaired(ek: nat -> Block, dk: nat -> Block, rounds: nat, r: nat) {
    0 < r < rounds ==> dk(r) == InvMixColumns(ek(rounds - r))
  }

  /** The decryption schedule: reversed, with InvMixColumns on the middle round keys. */
  ghost predicate Paired(ek: nat -> Block, dk: nat -> Block, rounds: nat) {
    && dk(0) == ek(rounds) && dk(rounds) == ek(0)
    && forall r: nat :: MiddlePaired(ek, dk, rounds, r)
  }

  // ---- The inverse cipher undoes the cipher ----

  // Bit-level facts, each on plain variables.

  lemma ShiftXor(a: bv8, b: bv8)
    ensures (a ^ b) << 1 == (a << 1) ^ (b << 1)
  {
  }

  lemma TopXor(a: bv8, b: bv8)
    ensures (a ^ b) & 0x80 == (a & 0x80) ^ (b & 0x80)
    ensures (a & 0x80 == 0 || a & 0x80 == 0x80) && (b & 0x80 == 0 || b & 0x80 == 0x80)
  {
  }

  lemma ReduceXor(x: bv8, y: bv8)
    requires (x == 0 || x == 0x80) && (y == 0 || y == 0x80)
    ensures Reduce(x ^ y) == Reduce(x) ^ Reduce(y)
  {
  }

  lemma AddBits(p: bv8, q: bv8, r: bv8, s: bv8)
    ensures (p ^ q) ^ (r ^ s) == (p ^ r) ^ (q ^ s)
  {
  }

  lemma Mul2Add(a: bv8, b: bv8)
    ensures Mul2(Add(a, b)) == Add(Mul2(a), Mul2(b))
  {
    ShiftXor(a, b);
    TopXor(a, b);
    ReduceXor(a & 0x80, b & 0x80);
    AddBits(a << 1, b << 1, Reduce(a & 0x80), Reduce(b & 0x80));
  }

  // Linear algebra, on sums only.

  lemma AddComm(a: bv8, b: bv8)
    ensures Add(a, b) == Add(b, a)
  {
  }

  lemma AddAssoc(a: bv8, b: bv8, c: bv8)
    ensures Add(Add(a, b), c) == Add(a, Add(b, c))
  {
  }

  lemma AddSwap(p: bv8, q: bv8, r: bv8, s: bv8)
    ensures Add(Add(p, q), Add(r, s)) == Add(Add(p, r), Add(q, s))
  {
    AddAssoc(p, q, Add(r, s));
    AddAssoc(q, r, s);
    AddComm(q, r);
    AddAssoc(r, q, s);
    AddAssoc(p, r, Add(q, s));
  }

  lemma SumAdd(p: bv8, q: bv8, r: bv8, s: bv8, w: bv8, x: bv8, y: bv8, z: bv8)
    ensures Add(Sum(p, q, r, s), Sum(w, x, y, z)) == Sum(Add(p, w), Add(q, x), Add(r, y), Add(s, z))
  {
    AddSwap(Add(p, q), Add(r, s), Add(w, x), Add(y, z));
    AddSwap(p, q, w, x);
    AddSwap(r, s, y, z);
  }

  /** A sum of sums can be taken by columns instead of rows. */
  lemma SumTranspose(p: Col, q: Col, r: Col, s: Col)
    ensures Sum(Sum(p.b0, p.b1, p.b2, p.b3), Sum(q.b0, q.b1, q.b2, q.b3), Sum(r.b0, r.b1, r.b2, r.b3), Sum(s.b0, s.b1, s.b2, s.b3))
         == Sum(Sum(p.b0, q.b0, r.b0, s.b0), Sum(p.b1, q.b1, r.b1, s.b1), Sum(p.b2, q.b2, r.b2, s.b2), Sum(p.b3, q.b3, r.b3, s.b3))
  {
    SumAdd(p.b0, p.b1, p.b2, p.b3, q.b0, q.b1, q.b2, q.b3);
    SumAdd(r.b0, r.b1, r.b2, r.b3, s.b0, s.b1, s.b2, s.b3);
    SumAdd(Add(p.b0, q.b0), Add(p.b1, q.b1), Add(p.b2, q.b2), Add(p.b3, q.b3),
           Add(r.b0, s.b0), Add(r.b1, s.b1), Add(r.b2, s.b2), Add(r.b3, s.b3));
  }

  lemma Mul48Add(a: bv8, b: bv8)
    ensures Mul4(Add(a, b)) == Add(Mul4(a), Mul4(b))
    ensures Mul8(Add(a, b)) == Add(Mul8(a), Mul8(b))
  {
    Mul2Add(a, b);
    Mul2Add(Mul2(a), Mul2(b));
    Mul2Add(Mul4(a), Mul4(b));
  }

  lemma Mul9Add(a: bv8, b: bv8)
    ensures Mul9(Add(a, b)) == Add(Mul9(a), Mul9(b))
  {
    Mul48Add(a, b);
    AddSwap(Mul8(a), Mul8(b), a, b);
  }

  lemma Mul11Add(a: bv8, b: bv8)
    ensures Mul11(Add(a, b)) == Add(Mul11(a), Mul11(b))
  {
    Mul9Add(a, b);
    Mul2Add(a, b);
    AddSwap(Mul9(a), Mul9(b), Mul2(a), Mul2(b));
  }

  lemma Mul13Add(a: bv8, b: bv8)
    ensures Mul13(Add(a, b)) == Add(Mul13(a), Mul13(b))
  {
    Mul9Add(a, b);
    Mul48Add(a, b);
    AddSwap(Mul9(a), Mul9(b), Mul4(a), Mul4(b));
  }

  lemma Mul14Add(a: bv8, b: bv8)
    ensures Mul14(Add(a, b)) == Add(Mul14(a), Mul14(b))
  {
    Mul48Add(a, b);
    Mul2Add(a, b);
    AddSwap(Mul8(a), Mul8(b), Mul4(a), Mul4(b));
    AddSwap(Add(Mul8(a), Mul4(a)), Add(Mul8(b), Mul4(b)), Mul2(a), Mul2(b));
  }

  // The coefficients of InvMixColumns * MixColumns, on the multiples of one byte.

  lemma CancelFirst(a: bv8, a2: bv8, a4: bv8, a8: bv8, a16: bv8)
    ensures Sum(Add(Add(a16, a8), a4), Add(Add(a8, a), a2), Add(Add(a8, a), a4), Add(Add(a16, a8), Add(a2, a))) == a
  {
  }

  lemma CancelSecond(b: bv8, b2: bv8, b4: bv8, b8: bv8, b16: bv8)
    ensures Sum(Add(Add(Add(b16, b8), Add(b8, b4)), Add(b4, b2)), Add(Add(b16, b2), b4), Add(Add(b8, b), b4), Add(b8, b)) == 0
  {
  }

  lemma CancelThird(c: bv8, c2: bv8, c4: bv8, c8: bv8, c16: bv8)
    ensures Sum(Add(Add(c8, c4), c2), Add(Add(Add(c16, c8), Add(c2, c)), Add(c4, c2)), Add(Add(c16, c2), c8), Add(c8, c)) == 0
  {
  }

  lemma CancelFourth(d: bv8, d2: bv8, d4: bv8, d8: bv8, d16: bv8)
    ensures Sum(Add(Add(d8, d4), d2), Add(Add(d8, d), d2), Add(Add(Add(d16, d8), Add(d2, d)), Add(d8, d4)), Add(d16, d2)) == 0
  {
  }

  lemma FirstCoefficient(a: bv8)
    ensures Sum(Mul14(Mul2(a)), Mul11(a), Mul13(a), Mul9(Mul3(a))) == a
  {
    Mul48Add(Mul2(a), a);
    CancelFirst(a, Mul2(a), Mul4(a), Mul8(a), Mul2(Mul8(a)));
  }

  lemma SecondCoefficient(b: bv8)
    ensures Sum(Mul14(Mul3(b)), Mul11(Mul2(b)), Mul13(b), Mul9(b)) == 0
  {
    Mul2Add(Mul2(b), b);
    Mul48Add(Mul2(b), b);
    CancelSecond(b, Mul2(b), Mul4(b), Mul8(b), Mul2(Mul8(b)));
  }

  lemma ThirdCoefficient(c: bv8)
    ensures Sum(Mul14(c), Mul11(Mul3(c)), Mul13(Mul2(c)), Mul9(c)) == 0
  {
    Mul2Add(Mul2(c), c);
    Mul48Add(Mul2(c), c);
    CancelThird(c, Mul2(c), Mul4(c), Mul8(c), Mul2(Mul8(c)));
  }

  lemma FourthCoefficient(d: bv8)
    ensures Sum(Mul14(d), Mul11(d), Mul13(Mul3(d)), Mul9(Mul2(d))) == 0
  {
    Mul48Add(Mul2(d), d);
    CancelFourth(d, Mul2(d), Mul4(d), Mul8(d), Mul2(Mul8(d)));
  }

  lemma MulSum(p: bv8, q: bv8, r: bv8, s: bv8)
    ensures Mul14(Sum(p, q, r, s)) == Sum(Mul14(p), Mul14(q), Mul14(r), Mul14(s))
    ensures Mul11(Sum(p, q, r, s)) == Sum(Mul11(p), Mul11(q), Mul11(r), Mul11(s))
  {
    Mul14Add(Add(p, q), Add(r, s));
    Mul14Add(p, q);
    Mul14Add(r, s);
    Mul11Add(Add(p, q), Add(r, s));
    Mul11Add(p, q);
    Mul11Add(r, s);
  }

  lemma MulSum'(p: bv8, q: bv8, r: bv8, s: bv8)
    ensures Mul13(Sum(p, q, r, s)) == Sum(Mul13(p), Mul13(q), Mul13(r), Mul13(s))
    ensures Mul9(Sum(p, q, r, s)) == Sum(Mul9(p), Mul9(q), Mul9(r), Mul9(s))
  {
    Mul13Add(Add(p, q), Add(r, s));
    Mul13Add(p, q);
    Mul13Add(r, s);
    Mul9Add(Add(p, q), Add(r, s));
    Mul9Add(p, q);
    Mul9Add(r, s);
  }

  lemma SumRotate(p: bv8, q: bv8, r: bv8, s: bv8)
    ensures Sum(p, q, r, s) == Sum(s, p, q, r)
  {
    AddComm(r, s);
    AddSwap(p, q, s, r);
    AddComm(p, s);
  }

  lemma SumZeros(a: bv8)
    ensures Sum(a, 0, 0, 0) == a
  {
  }

  lemma InvRowMixRow(a: bv8, b: bv8, c: bv8, d: bv8)
    ensures InvRow(MixRow(a, b, c, d), MixRow(b, c, d, a), MixRow(c, d, a, b), MixRow(d, a, b, c)) == a
  {
    var p := Col(Mul14(Mul2(a)), Mul14(Mul3(b)), Mul14(c), Mul14(d));
    var q := Col(Mul11(a), Mul11(Mul2(b)), Mul11(Mul3(c)), Mul11(d));
    var r := Col(Mul13(a), Mul13(b), Mul13(Mul2(c)), Mul13(Mul3(d)));
    var s := Col(Mul9(Mul3(a)), Mul9(b), Mul9(c), Mul9(Mul2(d)));
    MulSum(Mul2(a), Mul3(b), c, d);
    MulSum(Mul2(b), Mul3(c), d, a);
    SumRotate(q.b1, q.b2, q.b3, q.b0);
    MulSum'(Mul2(c), Mul3(d), a, b);
    SumRotate(r.b2, r.b3, r.b0, r.b1);
    SumRotate(r.b1, r.b2, r.b3, r.b0);
    MulSum'(Mul2(d), Mul3(a), b, c);
    SumRotate(s.b0, s.b1, s.b2, s.b3);
    SumTranspose(p, q, r, s);
    FirstCoefficient(a);
    SecondCoefficient(b);
    ThirdCoefficient(c);
    FourthCoefficient(d);
    SumZeros(a);
  }

  lemma InvMixColMixCol(c: Col)
    ensures InvMixCol(MixCol(c)) == c
  {
    InvRowMixRow(c.b0, c.b1, c.b2, c.b3);
    InvRowMixRow(c.b1, c.b2, c.b3, c.b0);
    InvRowMixRow(c.b2, c.b3, c.b0, c.b1);
    InvRowMixRow(c.b3, c.b0, c.b1, c.b2);
  }

  lemma InvRowAdd(c: Col, d: Col)
    ensures InvRow(Add(c.b0, d.b0), Add(c.b1, d.b1), Add(c.b2, d.b2), Add(c.b3, d.b3))
         == Add(InvRow(c.b0, c.b1, c.b2, c.b3), InvRow(d.b0, d.b1, d.b2, d.b3))
  {
    Mul14Add(c.b0, d.b0);
    Mul11Add(c.b1, d.b1);
    Mul13Add(c.b2, d.b2);
    Mul9Add(c.b3, d.b3);
    SumAdd(Mul14(c.b0), Mul11(c.b1), Mul13(c.b2), Mul9(c.b3), Mul14(d.b0), Mul11(d.b1), Mul13(d.b2), Mul9(d.b3));
  }

  lemma InvMixColXor(c: Col, d: Col)
    ensures InvMixCol(XorCol(c, d)) == XorCol(InvMixCol(c), InvMixCol(d))
  {
    InvRowAdd(c, d);
    InvRowAdd(Col(c.b1, c.b2, c.b3, c.b0), Col(d.b1, d.b2, d.b3, d.b0));
    InvRowAdd(Col(c.b2, c.b3, c.b0, c.b1), Col(d.b2, d.b3, d.b0, d.b1));
    InvRowAdd(Col(c.b3, c.b0, c.b1, c.b2), Col(d.b3, d.b0, d.b1, d.b2));
  }

  /** Section 5.3.5: InvMixColumns is linear and undoes MixColumns. */
  lemma InvMixColumnsLinear(s: Block, k: Block)
    ensures InvMixColumns(Xor(s, k)) == Xor(InvMixColumns(s), InvMixColumns(k))
  {
    InvMixColXor(s.c0, k.c0);
    InvMixColXor(s.c1, k.c1);
    InvMixColXor(s.c2, k.c2);
    InvMixColXor(s.c3, k.c3);
  }

  lemma InvMixColumnsUndoes(s: Block)
    ensures InvMixColumns(MixColumns(s)) == s
  {
    InvMixColMixCol(s.c0);
    InvMixColMixCol(s.c1);
    InvMixColMixCol(s.c2);
    InvMixColMixCol(s.c3);
  }

  lemma XorByteTwice(x: bv8, k: bv8)
    ensures Add(Add(x, k), k) == x
  {
  }

  lemma XorColTwice(c: Col, k: Col)
    ensures XorCol(XorCol(c, k), k) == c
  {
    XorByteTwice(c.b0, k.b0);
    XorByteTwice(c.b1, k.b1);
    XorByteTwice(c.b2, k.b2);
    XorByteTwice(c.b3, k.b3);
  }

  lemma XorTwice(s: Block, k: Block)
    ensures Xor(Xor(s, k), k) == s
  {
    XorColTwice(s.c0, k.c0);
    XorColTwice(s.c1, k.c1);
    XorColTwice(s.c2, k.c2);
    XorColTwice(s.c3, k.c3);
  }

  lemma SubColUndoes(sb: Sbox, c: Col)
    requires sb.Bijective()
    ensures SubCol(sb.inv, SubCol(sb.sub, c)) == c
  {
  }

  /** InvShiftRows and InvSubBytes, in either order, undo SubBytes and ShiftRows. */
  lemma ShiftSubUndoes(sb: Sbox, s: Block)
    requires sb.Bijective()
    ensures InvShiftRows(SubBytes(sb.inv, Substituted(sb, s))) == s
  {
    var u := SubBytes(sb.sub, s);
    assert InvShiftRows(SubBytes(sb.inv, ShiftRows(u))) == SubBytes(sb.inv, u);
    SubColUndoes(sb, s.c0);
    SubColUndoes(sb, s.c1);
    SubColUndoes(sb, s.c2);
    SubColUndoes(sb, s.c3);
  }

  /** One round of the inverse cipher, from the substituted state of a round to that of the round before. */
  lemma RoundUndone(sb: Sbox, s: Block, k: Block)
    requires sb.Bijective()
    ensures DecRound(sb, Substituted(sb, EncRound(sb, s, k)), InvMixColumns(k)) == Substituted(sb, s)
  {
    var u := Substituted(sb, s);
    ShiftSubUndoes(sb, EncRound(sb, s, k));
    InvMixColumnsLinear(MixColumns(u), k);
    InvMixColumnsUndoes(u);
    XorTwice(u, InvMixColumns(k));
  }

  /** Round i of the inverse takes back round rounds - i of the cipher, on states after sub. */
  predicate TakesBack(enc: (Block, Block) -> Block, dec: (Block, Block) -> Block, sub: Block -> Block,
                      ek: nat -> Block, dk: nat -> Block, rounds: nat, i: nat, x: Block)
  {
    0 < i < rounds ==> dec(sub(enc(x, ek(rounds - i))), dk(i)) == sub(x)
  }

  /** Then r rounds of the inverse take back the last r rounds. */
  lemma {:induction false} RoundsTakenBack(enc: (Block, Block) -> Block, dec: (Block, Block) -> Block, sub: Block -> Block,
                                           ek: nat -> Block, dk: nat -> Block, rounds: nat, s: Block, r: nat)
    requires forall i: nat, x :: TakesBack(enc, dec, sub, ek, dk, rounds, i, x)
    requires r < rounds
    ensures RunRounds(dec, dk, sub(RunRounds(enc, ek, s, rounds - 1)), r) == sub(RunRounds(enc, ek, s, rounds - 1 - r))
  {
    if r > 0 {
      RoundsTakenBack(enc, dec, sub, ek, dk, rounds, s, r - 1);
      assert TakesBack(enc, dec, sub, ek, dk, rounds, r, RunRounds(enc, ek, s, rounds - 1 - r));
    }
  }

  lemma CipherRoundsTakenBack(sb: Sbox, ek: nat -> Block, dk: nat -> Block, rounds: nat, i: nat, x: Block)
    requires sb.Bijective() && Paired(ek, dk, rounds)
    ensures TakesBack(EncRounds(sb), DecRounds(sb), s => Substituted(sb, s), ek, dk, rounds, i, x)
  {
    if 0 < i < rounds {
      assert MiddlePaired(ek, dk, rounds, i);
      RoundUndone(sb, x, ek(rounds - i));
    }
  }

  lemma LastRoundUndone(sb: Sbox, s: Block, k: Block)
    ensures Xor(EncFinal(sb, s, k), k) == Substituted(sb, s)
  {
    XorTwice(Substituted(sb, s), k);
  }

  lemma FirstKeyUndone(sb: Sbox, s: Block, k: Block)
    requires sb.Bijective()
    ensures DecFinal(sb, Substituted(sb, Xor(s, k)), k) == s
  {
    ShiftSubUndoes(sb, Xor(s, k));
    XorTwice(s, k);
  }

  /**
   * The equivalent inverse cipher undoes the cipher, for any S-box bijection,
   * any number of rounds and any round keys, when its keys are the reversed
   * schedule with InvMixColumns on the middle ones.
   */
  lemma DecryptUndoesEncrypt(sb: Sbox, ek: nat -> Block, dk: nat -> Block, rounds: nat, s: Block)
    requires sb.Bijective() && Paired(ek, dk, rounds) && rounds > 0
    ensures InvCipher(sb, dk, rounds, Cipher(sb, ek, rounds, s)) == s
  {
    var sub := x => Substituted(sb, x);
    forall i: nat, x
      ensures TakesBack(EncRounds(sb), DecRounds(sb), sub, ek, dk, rounds, i, x)
    {
      CipherRoundsTakenBack(sb, ek, dk, rounds, i, x);
    }
    var s0 := Xor(s, ek(0));
    RoundsTakenBack(EncRounds(sb), DecRounds(sb), sub, ek, dk, rounds, s0, rounds - 1);
    LastRoundUndone(sb, RunRounds(EncRounds(sb), ek, s0, rounds - 1), ek(rounds));
    FirstKeyUndone(sb, s, ek(0));
  }
}
