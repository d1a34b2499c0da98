/**
 * AES on 32-bit words by table lookup, one round at a time, and the proof that
 * a round over words is the round of FIPS 197 over bytes.
 */
module AesWords {
  import opened AesSpec

  // ---- Words and columns ----

  /** The big-endian word of a column (GETU32, PUTU32). */
  function Pack(c: Col): bv32 {
    ((c.b0 as bv32) << 24) | ((c.b1 as bv32) << 16) | ((c.b2 as bv32) << 8) | (c.b3 as bv32)
  }

  function Byte0(w: bv32): bv8 { (w >> 24) as bv8 }
  function Byte1(w: bv32): bv8 { ((w >> 16) & 0xff) as bv8 }
  function Byte2(w: bv32): bv8 { ((w >> 8) & 0xff) as bv8 }
  function Byte3(w: bv32): bv8 { (w & 0xff) as bv8 }

  function Unpack(w: bv32): Col {
    Col(Byte0(w), Byte1(w), Byte2(w), Byte3(w))
  }

  function XorWord(a: bv32, b: bv32): bv32 { a ^ b }

  lemma UnpackPack(c: Col)
    ensures Unpack(Pack(c)) == c
  {
    BytesOfWord(c.b0, c.b1, c.b2, c.b3);
  }

  lemma BytesOfWord(a: bv8, b: bv8, c: bv8, d: bv8)
    ensures var w := ((a as bv32) << 24) | ((b as bv32) << 16) | ((c as bv32) << 8) | (d as bv32);
      && (w >> 24) as bv8 == a && ((w >> 16) & 0xff) as bv8 == b
      && ((w >> 8) & 0xff) as bv8 == c && (w & 0xff) as bv8 == d
  {
  }

  lemma PackUnpack(w: bv32)
    ensures Pack(Unpack(w)) == w
  {
  }

  lemma PackXor(c: Col, d: Col)
    ensures Pack(XorCol(c, d)) == XorWord(Pack(c), Pack(d))
  {
    PackXorBits(c.b0, c.b1, c.b2, c.b3, d.b0, d.b1, d.b2, d.b3);
  }

  lemma PackXorBits(a: bv8, b: bv8, c: bv8, d: bv8, p: bv8, q: bv8, r: bv8, s: bv8)
    ensures (((a ^ p) as bv32) << 24) | (((b ^ q) as bv32) << 16) | (((c ^ r) as bv32) << 8) | ((d ^ s) as bv32)
         == (((a as bv32) << 24) | ((b as bv32) << 16) | ((c as bv32) << 8) | (d as bv32))
          ^ (((p as bv32) << 24) | ((q as bv32) << 16) | ((r as bv32) << 8) | (s as bv32))
  {
  }

  // ---- Tables ----

  /** The ten lookup tables of the kernels. */
  datatype Tables = Tables(te0: bv8 -> bv32, te1: bv8 -> bv32, te2: bv8 -> bv32, te3: bv8 -> bv32, te4: bv8 -> bv32,
                           td0: bv8 -> bv32, td1: bv8 -> bv32, td2: bv8 -> bv32, td3: bv8 -> bv32, td4: bv8 -> bv32)

  /** Te0 to Te3 hold an S-box value times one column of the MixColumns matrix, Te4 four copies of it. */
  predicate EncEntry(tb: Tables, sb: Sbox, x: bv8) {
    var v := sb.sub(x);
    && tb.te0(x) == Pack(Col(Mul2(v), v, v, Mul3(v))) && tb.te1(x) == Pack(Col(Mul3(v), Mul2(v), v, v))
    && tb.te2(x) == Pack(Col(v, Mul3(v), Mul2(v), v)) && tb.te3(x) == Pack(Col(v, v, Mul3(v), Mul2(v)))
    && tb.te4(x) == Pack(Col(v, v, v, v))
  }

  /** Td0 to Td3 hold an inverse S-box value times one column of the InvMixColumns matrix, Td4 four copies of it. */
  predicate DecEntry(tb: Tables, sb: Sbox, x: bv8) {
    var v := sb.inv(x);
    && tb.td0(x) == Pack(Col(Mul14(v), Mul9(v), Mul13(v), Mul11(v))) && tb.td1(x) == Pack(Col(Mul11(v), Mul14(v), Mul9(v), Mul13(v)))
    && tb.td2(x) == Pack(Col(Mul13(v), Mul11(v), Mul14(v), Mul9(v))) && tb.td3(x) == Pack(Col(Mul9(v), Mul13(v), Mul11(v), Mul14(v)))
    && tb.td4(x) == Pack(Col(v, v, v, v))
  }

  ghost predicate TablesFor(tb: Tables, sb: Sbox) {
    (forall x: bv8 :: EncEntry(tb, sb, x)) && (forall x: bv8 :: DecEntry(tb, sb, x))
  }

  // ---- One word of a round ----

  function Lookup(t0: bv8 -> bv32, t1: bv8 -> bv32, t2: bv8 -> bv32, t3: bv8 -> bv32,
                  a: bv32, b: bv32, c: bv32, d: bv32, k: bv32): bv32 {
    XorWord(XorWord(XorWord(XorWord(t0(Byte0(a)), t1(Byte1(b))), t2(Byte2(c))), t3(Byte3(d))), k)
  }

  /** The last round takes one byte from each of four lookups in the same table. */
  function LastLookup(t4: bv8 -> bv32, a: bv32, b: bv32, c: bv32, d: bv32, k: bv32): bv32 {
    XorWord(XorWord(XorWord(XorWord(t4(Byte0(a)) & 0xff00_0000, t4(Byte1(b)) & 0x00ff_0000),
                            t4(Byte2(c)) & 0x0000_ff00), t4(Byte3(d)) & 0x0000_00ff), k)
  }

  /** Sum of four columns. */
  function SumCols(c: Col, d: Col, e: Col, f: Col): Col {
    XorCol(XorCol(XorCol(c, d), e), f)
  }

  lemma PackSum(c: Col, d: Col, e: Col, f: Col, k: Col)
    ensures Pack(XorCol(SumCols(c, d, e, f), k))
         == XorWord(XorWord(XorWord(XorWord(Pack(c), Pack(d)), Pack(e)), Pack(f)), Pack(k))
  {
    PackXor(c, d);
    PackXor(XorCol(c, d), e);
    PackXor(XorCol(XorCol(c, d), e), f);
    PackXor(SumCols(c, d, e, f), k);
  }

  /** A left-nested sum of four bytes. */
  lemma SumNested(p: bv8, q: bv8, r: bv8, s: bv8)
    ensures Add(Add(Add(p, q), r), s) == Sum(p, q, r, s)
  {
    AddAssoc(Add(p, q), r, s);
  }

  lemma SumRotations(p: bv8, q: bv8, r: bv8, s: bv8)
    ensures Sum(p, q, r, s) == Sum(q, r, s, p) == Sum(r, s, p, q) == Sum(s, p, q, r)
  {
    SumRotate(q, r, s, p);
    SumRotate(r, s, p, q);
    SumRotate(s, p, q, r);
  }

  lemma NestedRotated(p: bv8, q: bv8, r: bv8, s: bv8)
    ensures Add(Add(Add(p, q), r), s) == Sum(p, q, r, s) == Sum(q, r, s, p) == Sum(r, s, p, q) == Sum(s, p, q, r)
  {
    SumNested(p, q, r, s);
    SumRotations(p, q, r, s);
  }

  /** Adding the matrix columns of four bytes is the matrix product. */
  lemma MixByColumns(p: bv8, q: bv8, r: bv8, s: bv8)
    ensures SumCols(Col(Mul2(p), p, p, Mul3(p)), Col(Mul3(q), Mul2(q), q, q), Col(r, Mul3(r), Mul2(r), r), Col(s, s, Mul3(s), Mul2(s)))
         == MixCol(Col(p, q, r, s))
  {
    NestedRotated(Mul2(p), Mul3(q), r, s);
    NestedRotated(p, Mul2(q), Mul3(r), s);
    NestedRotated(p, q, Mul2(r), Mul3(s));
    NestedRotated(Mul3(p), q, r, Mul2(s));
  }

  lemma InvMixByColumns(p: bv8, q: bv8, r: bv8, s: bv8)
    ensures SumCols(Col(Mul14(p), Mul9(p), Mul13(p), Mul11(p)), Col(Mul11(q), Mul14(q), Mul9(q), Mul13(q)),
                    Col(Mul13(r), Mul11(r), Mul14(r), Mul9(r)), Col(Mul9(s), Mul13(s), Mul11(s), Mul14(s)))
         == InvMixCol(Col(p, q, r, s))
  {
    NestedRotated(Mul14(p), Mul11(q), Mul13(r), Mul9(s));
    NestedRotated(Mul9(p), Mul14(q), Mul11(r), Mul13(s));
    NestedRotated(Mul13(p), Mul9(q), Mul14(r), Mul11(s));
    NestedRotated(Mul11(p), Mul13(q), Mul9(r), Mul14(s));
  }

  /** One word of an encryption round. */
  lemma EncLookup(tb: Tables, sb: Sbox, a: bv32, b: bv32, c: bv32, d: bv32, k: bv32)
    requires TablesFor(tb, sb)
    ensures var u := Col(sb.sub(Byte0(a)), sb.sub(Byte1(b)), sb.sub(Byte2(c)), sb.sub(Byte3(d)));
      Lookup(tb.te0, tb.te1, tb.te2, tb.te3, a, b, c, d, k) == Pack(XorCol(MixCol(u), Unpack(k)))
  {
    var p, q, r, s := sb.sub(Byte0(a)), sb.sub(Byte1(b)), sb.sub(Byte2(c)), sb.sub(Byte3(d));
    assert EncEntry(tb, sb, Byte0(a)) && EncEntry(tb, sb, Byte1(b)) && EncEntry(tb, sb, Byte2(c)) && EncEntry(tb, sb, Byte3(d));
    PackSum(Col(Mul2(p), p, p, Mul3(p)), Col(Mul3(q), Mul2(q), q, q), Col(r, Mul3(r), Mul2(r), r), Col(s, s, Mul3(s), Mul2(s)), Unpack(k));
    MixByColumns(p, q, r, s);
    PackUnpack(k);
  }

  /** One word of a decryption round. */
  lemma DecLookup(tb: Tables, sb: Sbox, a: bv32, b: bv32, c: bv32, d: bv32, k: bv32)
    requires TablesFor(tb, sb)
    ensures var u := Col(sb.inv(Byte0(a)), sb.inv(Byte1(b)), sb.inv(Byte2(c)), sb.inv(Byte3(d)));
      Lookup(tb.td0, tb.td1, tb.td2, tb.td3, a, b, c, d, k) == Pack(XorCol(InvMixCol(u), Unpack(k)))
  {
    var p, q, r, s := sb.inv(Byte0(a)), sb.inv(Byte1(b)), sb.inv(Byte2(c)), sb.inv(Byte3(d));
    assert DecEntry(tb, sb, Byte0(a)) && DecEntry(tb, sb, Byte1(b)) && DecEntry(tb, sb, Byte2(c)) && DecEntry(tb, sb, Byte3(d));
    PackSum(Col(Mul14(p), Mul9(p), Mul13(p), Mul11(p)), Col(Mul11(q), Mul14(q), Mul9(q), Mul13(q)),
            Col(Mul13(r), Mul11(r), Mul14(r), Mul9(r)), Col(Mul9(s), Mul13(s), Mul11(s), Mul14(s)), Unpack(k));
    InvMixByColumns(p, q, r, s);
    PackUnpack(k);
  }

  lemma MaskBits(p: bv8, q: bv8, r: bv8, s: bv8)
    ensures Pack(Col(p, p, p, p)) & 0xff00_0000 == Pack(Col(p, 0, 0, 0))
    ensures Pack(Col(q, q, q, q)) & 0x00ff_0000 == Pack(Col(0, q, 0, 0))
    ensures Pack(Col(r, r, r, r)) & 0x0000_ff00 == Pack(Col(0, 0, r, 0))
    ensures Pack(Col(s, s, s, s)) & 0x0000_00ff == Pack(Col(0, 0, 0, s))
  {
  }

  lemma SumOfParts(p: bv8, q: bv8, r: bv8, s: bv8)
    ensures SumCols(Col(p, 0, 0, 0), Col(0, q, 0, 0), Col(0, 0, r, 0), Col(0, 0, 0, s)) == Col(p, q, r, s)
  {
  }

  /** One word of the last round, for a table holding four copies of f. */
  lemma LastWord(t4: bv8 -> bv32, f: bv8 -> bv8, a: bv32, b: bv32, c: bv32, d: bv32, k: bv32)
    requires forall x: bv8 :: t4(x) == Pack(Col(f(x), f(x), f(x), f(x)))
    ensures LastLookup(t4, a, b, c, d, k) == Pack(XorCol(Col(f(Byte0(a)), f(Byte1(b)), f(Byte2(c)), f(Byte3(d))), Unpack(k)))
  {
    var p, q, r, s := f(Byte0(a)), f(Byte1(b)), f(Byte2(c)), f(Byte3(d));
    MaskBits(p, q, r, s);
    PackSum(Col(p, 0, 0, 0), Col(0, q, 0, 0), Col(0, 0, r, 0), Col(0, 0, 0, s), Unpack(k));
    SumOfParts(p, q, r, s);
    PackUnpack(k);
  }
}
