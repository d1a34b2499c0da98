/**
 * Blocks between memory and registers: 32-bit loads and stores are little
 * endian, and the kernels turn the words around (__byte_perm with selector
 * 0x0123) to get the big-endian words of FIPS 197.
 */
module AesMemory {
  import opened AesSpec
  import opened AesWords
  import opened AesRounds
  import opened Packet

  /** __byte_perm(w, 0, ENDIAN_SELECTOR) */
  function Swap(w: bv32): bv32 {
    (w >> 24) | ((w >> 8) & 0xff00) | ((w << 8) & 0xff_0000) | (w << 24)
  }

  /** The word that a 32-bit load makes of four bytes. */
  function Little(b0: bv8, b1: bv8, b2: bv8, b3: bv8): bv32 {
    (b0 as bv32) | ((b1 as bv32) << 8) | ((b2 as bv32) << 16) | ((b3 as bv32) << 24)
  }

  lemma LittleBytes(a: bv8, b: bv8, c: bv8, d: bv8)
    ensures var w := (a as bv32) | ((b as bv32) << 8) | ((c as bv32) << 16) | ((d as bv32) << 24);
      && (w >> 24) as bv8 == d && ((w >> 16) & 0xff) as bv8 == c
      && ((w >> 8) & 0xff) as bv8 == b && (w & 0xff) as bv8 == a
  {
  }

  lemma SwapLittle(a: bv8, b: bv8, c: bv8, d: bv8)
    ensures Unpack(Swap(Little(a, b, c, d))) == Col(a, b, c, d)
  {
    SwapBytes(Little(a, b, c, d));
    LittleBytes(a, b, c, d);
  }

  lemma SwapTwice(w: bv32)
    ensures Swap(Swap(w)) == w
  {
  }

  lemma SwapXor(a: bv32, b: bv32)
    ensures Swap(XorWord(a, b)) == XorWord(Swap(a), Swap(b))
  {
  }

  lemma SwapBytes(w: bv32)
    ensures Unpack(Swap(w)) == Col(Byte3(w), Byte2(w), Byte1(w), Byte0(w))
  {
  }

  function SwapWords(w: Words): Words {
    Words(Swap(w.w0), Swap(w.w1), Swap(w.w2), Swap(w.w3))
  }

  /** The block whose bytes lie in memory where the four words w do. */
  function LittleBlock(w: Words): Block {
    ToBlock(SwapWords(w))
  }

  lemma LittleSwap(w: Words)
    ensures LittleBlock(SwapWords(w)) == ToBlock(w)
  {
    SwapTwice(w.w0);
    SwapTwice(w.w1);
    SwapTwice(w.w2);
    SwapTwice(w.w3);
  }

  lemma LittleXor(a: Words, b: Words)
    ensures LittleBlock(XorWords(a, b)) == Xor(LittleBlock(a), LittleBlock(b))
  {
    SwapXor(a.w0, b.w0);
    SwapXor(a.w1, b.w1);
    SwapXor(a.w2, b.w2);
    SwapXor(a.w3, b.w3);
    XorWordsMeaning(SwapWords(a), SwapWords(b));
  }

  // ---- Blocks as bytes: column after column ----

  function BlockOf(c: Chunk): Block {
    Block(Col(c[0], c[1], c[2], c[3]), Col(c[4], c[5], c[6], c[7]), Col(c[8], c[9], c[10], c[11]), Col(c[12], c[13], c[14], c[15]))
  }

  function BytesOf(b: Block): Chunk {
    [b.c0.b0, b.c0.b1, b.c0.b2, b.c0.b3, b.c1.b0, b.c1.b1, b.c1.b2, b.c1.b3,
     b.c2.b0, b.c2.b1, b.c2.b2, b.c2.b3, b.c3.b0, b.c3.b1, b.c3.b2, b.c3.b3]
  }

  lemma BlockOfBytes(b: Block)
    ensures BlockOf(BytesOf(b)) == b
  {
  }

  lemma BytesOfBlock(c: Chunk)
    ensures BytesOf(BlockOf(c)) == c
  {
  }

  // ---- Loads and stores ----

  method LoadWord(text: array<bv8>, at: nat) returns (w: bv32)
    requires at + 4 <= text.Length
    ensures Unpack(Swap(w)) == Col(text[at], text[at + 1], text[at + 2], text[at + 3])
  {
    w := Little(text[at], text[at + 1], text[at + 2], text[at + 3]);
    SwapLittle(text[at], text[at + 1], text[at + 2], text[at + 3]);
  }

  method LoadBlock(text: array<bv8>, at: nat) returns (w: Words)
    requires at + 16 <= text.Length
    ensures LittleBlock(w) == BlockOf(Get(text[..], at))
  {
    var w0 := LoadWord(text, at);
    var w1 := LoadWord(text, at + 4);
    var w2 := LoadWord(text, at + 8);
    var w3 := LoadWord(text, at + 12);
    w := Words(w0, w1, w2, w3);
  }

  method StoreWord(text: array<bv8>, at: nat, w: bv32)
    requires at + 4 <= text.Length
    modifies text
    ensures Col(text[at], text[at + 1], text[at + 2], text[at + 3]) == Unpack(Swap(w))
    ensures forall k :: 0 <= k < text.Length && (k < at || k >= at + 4) ==> text[k] == old(text[k])
  {
    SwapBytes(w);
    text[at], text[at + 1], text[at + 2], text[at + 3] := Byte3(w), Byte2(w), Byte1(w), Byte0(w);
  }

  method StoreBlock(text: array<bv8>, at: nat, w: Words)
    requires at + 16 <= text.Length
    modifies text
    ensures text[..] == Put(old(text[..]), at, BytesOf(LittleBlock(w)))
  {
    StoreWord(text, at, w.w0);
    StoreWord(text, at + 4, w.w1);
    StoreWord(text, at + 8, w.w2);
    StoreWord(text, at + 12, w.w3);
    PutAt(old(text[..]), text[..], at, LittleBlock(w));
  }

  lemma PutAt(was: seq<bv8>, text: seq<bv8>, at: nat, b: Block)
    requires at + 16 <= |text| == |was|
    requires forall k :: 0 <= k < |text| && (k < at || k >= at + 16) ==> text[k] == was[k]
    requires BlockOf(Get(text, at)) == b
    ensures text == Put(was, at, BytesOf(b))
  {
    BytesOfBlock(Get(text, at));
  }
}
