/**
 * The example of appendix C.1 of FIPS 197: a block and a key of 128 bits, round by
 * round, with the listed S-box.
 */
module AesKnown {
  import opened AesSpec
  import opened AesWords
  import opened AesRounds
  import opened AesMemory
  import opened AesTables
  import opened AesKernels
  import opened Packet

  const PLAIN: seq<bv8> := [0x00, 0x11, 0x22, 0x33, 0x44, 0x55, 0x66, 0x77, 0x88, 0x99, 0xaa, 0xbb, 0xcc, 0xdd, 0xee, 0xff]
  const SECRET: seq<bv8> := [0x69, 0xc4, 0xe0, 0xd8, 0x6a, 0x7b, 0x04, 0x30, 0xd8, 0xcd, 0xb7, 0x80, 0x70, 0xb4, 0xc5, 0x5a]

  const K0 := Words(0x00010203, 0x04050607, 0x08090a0b, 0x0c0d0e0f)
  const K1 := Words(0xd6aa74fd, 0xd2af72fa, 0xdaa678f1, 0xd6ab76fe)
  const K2 := Words(0xb692cf0b, 0x643dbdf1, 0xbe9bc500, 0x6830b3fe)
  const K3 := Words(0xb6ff744e, 0xd2c2c9bf, 0x6c590cbf, 0x0469bf41)
  const K4 := Words(0x47f7f7bc, 0x95353e03, 0xf96c32bc, 0xfd058dfd)
  const K5 := Words(0x3caaa3e8, 0xa99f9deb, 0x50f3af57, 0xadf622aa)
  const K6 := Words(0x5e390f7d, 0xf7a69296, 0xa7553dc1, 0x0aa31f6b)
  const K7 := Words(0x14f9701a, 0xe35fe28c, 0x440adf4d, 0x4ea9c026)
  const K8 := Words(0x47438735, 0xa41c65b9, 0xe016baf4, 0xaebf7ad2)
  const K9 := Words(0x549932d1, 0xf0855768, 0x1093ed9c, 0xbe2c974e)
  const K10 := Words(0x13111d7f, 0xe3944a17, 0xf307a78b, 0x4d2b30c5)

  /** The round keys of the key 00 01 02 to 0f. */
  function RoundKey(r: nat): Words {
    if r == 0 then K0
    else if r == 1 then K1
    else if r == 2 then K2
    else if r == 3 then K3
    else if r == 4 then K4
    else if r == 5 then K5
    else if r == 6 then K6
    else if r == 7 then K7
    else if r == 8 then K8
    else if r == 9 then K9
    else K10
  }

  // The state at the start of each round, and at the end of the last.
  const S0 := Block(Col(0x00, 0x10, 0x20, 0x30), Col(0x40, 0x50, 0x60, 0x70), Col(0x80, 0x90, 0xa0, 0xb0), Col(0xc0, 0xd0, 0xe0, 0xf0))
  const S1 := Block(Col(0x89, 0xd8, 0x10, 0xe8), Col(0x85, 0x5a, 0xce, 0x68), Col(0x2d, 0x18, 0x43, 0xd8), Col(0xcb, 0x12, 0x8f, 0xe4))
  const S2 := Block(Col(0x49, 0x15, 0x59, 0x8f), Col(0x55, 0xe5, 0xd7, 0xa0), Col(0xda, 0xca, 0x94, 0xfa), Col(0x1f, 0x0a, 0x63, 0xf7))
  const S3 := Block(Col(0xfa, 0x63, 0x6a, 0x28), Col(0x25, 0xb3, 0x39, 0xc9), Col(0x40, 0x66, 0x8a, 0x31), Col(0x57, 0x24, 0x4d, 0x17))
  const S4 := Block(Col(0x24, 0x72, 0x40, 0x23), Col(0x69, 0x66, 0xb3, 0xfa), Col(0x6e, 0xd2, 0x75, 0x32), Col(0x88, 0x42, 0x5b, 0x6c))
  const S5 := Block(Col(0xc8, 0x16, 0x77, 0xbc), Col(0x9b, 0x7a, 0xc9, 0x3b), Col(0x25, 0x02, 0x79, 0x92), Col(0xb0, 0x26, 0x19, 0x96))
  const S6 := Block(Col(0xc6, 0x2f, 0xe1, 0x09), Col(0xf7, 0x5e, 0xed, 0xc3), Col(0xcc, 0x79, 0x39, 0x5d), Col(0x84, 0xf9, 0xcf, 0x5d))
  const S7 := Block(Col(0xd1, 0x87, 0x6c, 0x0f), Col(0x79, 0xc4, 0x30, 0x0a), Col(0xb4, 0x55, 0x94, 0xad), Col(0xd6, 0x6f, 0xf4, 0x1f))
  const S8 := Block(Col(0xfd, 0xe3, 0xba, 0xd2), Col(0x05, 0xe5, 0xd0, 0xd7), Col(0x35, 0x47, 0x96, 0x4e), Col(0xf1, 0xfe, 0x37, 0xf1))
  const S9 := Block(Col(0xbd, 0x6e, 0x7c, 0x3d), Col(0xf2, 0xb5, 0x77, 0x9e), Col(0x0b, 0x61, 0x21, 0x6e), Col(0x8b, 0x10, 0xb6, 0x89))
  const S10 := Block(Col(0x69, 0xc4, 0xe0, 0xd8), Col(0x6a, 0x7b, 0x04, 0x30), Col(0xd8, 0xcd, 0xb7, 0x80), Col(0x70, 0xb4, 0xc5, 0x5a))

  /** A key schedule that begins with these round keys. */
  ghost predicate Expanded(rk: seq<bv32>) {
    |rk| >= 44 && forall r: nat :: r <= 10 ==> KeyWords(rk, r) == RoundKey(r)
  }

  lemma Step1()
    ensures EncRound(RIJNDAEL, S0, ToBlock(K1)) == S1
  {
    assert Substituted(RIJNDAEL, S0) == Block(Col(0x63, 0x53, 0xe0, 0x8c), Col(0x09, 0x60, 0xe1, 0x04), Col(0xcd, 0x70, 0xb7, 0x51), Col(0xba, 0xca, 0xd0, 0xe7));
    assert ToBlock(K1) == Block(Col(0xd6, 0xaa, 0x74, 0xfd), Col(0xd2, 0xaf, 0x72, 0xfa), Col(0xda, 0xa6, 0x78, 0xf1), Col(0xd6, 0xab, 0x76, 0xfe));
  }

  lemma Step2()
    ensures EncRound(RIJNDAEL, S1, ToBlock(K2)) == S2
  {
    assert Substituted(RIJNDAEL, S1) == Block(Col(0xa7, 0xbe, 0x1a, 0x69), Col(0x97, 0xad, 0x73, 0x9b), Col(0xd8, 0xc9, 0xca, 0x45), Col(0x1f, 0x61, 0x8b, 0x61));
    assert ToBlock(K2) == Block(Col(0xb6, 0x92, 0xcf, 0x0b), Col(0x64, 0x3d, 0xbd, 0xf1), Col(0xbe, 0x9b, 0xc5, 0x00), Col(0x68, 0x30, 0xb3, 0xfe));
  }

  lemma Step3()
    ensures EncRound(RIJNDAEL, S2, ToBlock(K3)) == S3
  {
    assert Substituted(RIJNDAEL, S2) == Block(Col(0x3b, 0xd9, 0x22, 0x68), Col(0xfc, 0x74, 0xfb, 0x73), Col(0x57, 0x67, 0xcb, 0xe0), Col(0xc0, 0x59, 0x0e, 0x2d));
    assert ToBlock(K3) == Block(Col(0xb6, 0xff, 0x74, 0x4e), Col(0xd2, 0xc2, 0xc9, 0xbf), Col(0x6c, 0x59, 0x0c, 0xbf), Col(0x04, 0x69, 0xbf, 0x41));
  }

  lemma Step4()
    ensures EncRound(RIJNDAEL, S3, ToBlock(K4)) == S4
  {
    assert Substituted(RIJNDAEL, S3) == Block(Col(0x2d, 0x6d, 0x7e, 0xf0), Col(0x3f, 0x33, 0xe3, 0x34), Col(0x09, 0x36, 0x02, 0xdd), Col(0x5b, 0xfb, 0x12, 0xc7));
    assert ToBlock(K4) == Block(Col(0x47, 0xf7, 0xf7, 0xbc), Col(0x95, 0x35, 0x3e, 0x03), Col(0xf9, 0x6c, 0x32, 0xbc), Col(0xfd, 0x05, 0x8d, 0xfd));
  }

  lemma Step5()
    ensures EncRound(RIJNDAEL, S4, ToBlock(K5)) == S5
  {
    assert Substituted(RIJNDAEL, S4) == Block(Col(0x36, 0x33, 0x9d, 0x50), Col(0xf9, 0xb5, 0x39, 0x26), Col(0x9f, 0x2c, 0x09, 0x2d), Col(0xc4, 0x40, 0x6d, 0x23));
    assert ToBlock(K5) == Block(Col(0x3c, 0xaa, 0xa3, 0xe8), Col(0xa9, 0x9f, 0x9d, 0xeb), Col(0x50, 0xf3, 0xaf, 0x57), Col(0xad, 0xf6, 0x22, 0xaa));
  }

  lemma Step6()
    ensures EncRound(RIJNDAEL, S5, ToBlock(K6)) == S6
  {
    assert Substituted(RIJNDAEL, S5) == Block(Col(0xe8, 0xda, 0xb6, 0x90), Col(0x14, 0x77, 0xd4, 0x65), Col(0x3f, 0xf7, 0xf5, 0xe2), Col(0xe7, 0x47, 0xdd, 0x4f));
    assert ToBlock(K6) == Block(Col(0x5e, 0x39, 0x0f, 0x7d), Col(0xf7, 0xa6, 0x92, 0x96), Col(0xa7, 0x55, 0x3d, 0xc1), Col(0x0a, 0xa3, 0x1f, 0x6b));
  }

  lemma Step7()
    ensures EncRound(RIJNDAEL, S6, ToBlock(K7)) == S7
  {
    assert Substituted(RIJNDAEL, S6) == Block(Col(0xb4, 0x58, 0x12, 0x4c), Col(0x68, 0xb6, 0x8a, 0x01), Col(0x4b, 0x99, 0xf8, 0x2e), Col(0x5f, 0x15, 0x55, 0x4c));
    assert ToBlock(K7) == Block(Col(0x14, 0xf9, 0x70, 0x1a), Col(0xe3, 0x5f, 0xe2, 0x8c), Col(0x44, 0x0a, 0xdf, 0x4d), Col(0x4e, 0xa9, 0xc0, 0x26));
  }

  lemma Step8()
    ensures EncRound(RIJNDAEL, S7, ToBlock(K8)) == S8
  {
    assert Substituted(RIJNDAEL, S7) == Block(Col(0x3e, 0x1c, 0x22, 0xc0), Col(0xb6, 0xfc, 0xbf, 0x76), Col(0x8d, 0xa8, 0x50, 0x67), Col(0xf6, 0x17, 0x04, 0x95));
    assert ToBlock(K8) == Block(Col(0x47, 0x43, 0x87, 0x35), Col(0xa4, 0x1c, 0x65, 0xb9), Col(0xe0, 0x16, 0xba, 0xf4), Col(0xae, 0xbf, 0x7a, 0xd2));
  }

  lemma Step9()
    ensures EncRound(RIJNDAEL, S8, ToBlock(K9)) == S9
  {
    assert Substituted(RIJNDAEL, S8) == Block(Col(0x54, 0xd9, 0x90, 0xa1), Col(0x6b, 0xa0, 0x9a, 0xb5), Col(0x96, 0xbb, 0xf4, 0x0e), Col(0xa1, 0x11, 0x70, 0x2f));
    assert ToBlock(K9) == Block(Col(0x54, 0x99, 0x32, 0xd1), Col(0xf0, 0x85, 0x57, 0x68), Col(0x10, 0x93, 0xed, 0x9c), Col(0xbe, 0x2c, 0x97, 0x4e));
  }

  lemma Step10()
    ensures EncFinal(RIJNDAEL, S9, ToBlock(K10)) == S10
  {
    assert Substituted(RIJNDAEL, S9) == Block(Col(0x7a, 0xd5, 0xfd, 0xa7), Col(0x89, 0xef, 0x4e, 0x27), Col(0x2b, 0xca, 0x10, 0x0b), Col(0x3d, 0x9f, 0xf5, 0x9f));
    assert ToBlock(K10) == Block(Col(0x13, 0x11, 0x1d, 0x7f), Col(0xe3, 0x94, 0x4a, 0x17), Col(0xf3, 0x07, 0xa7, 0x8b), Col(0x4d, 0x2b, 0x30, 0xc5));
  }

  /** One more round. */
  lemma OneMore(round: (Block, Block) -> Block, keys: nat -> Block, first: Block, r: nat, s: Block, k: Block, next: Block)
    requires RunRounds(round, keys, first, r) == s && keys(r + 1) == k && round(s, k) == next
    ensures RunRounds(round, keys, first, r + 1) == next
  {
  }

  lemma KeyIs(rk: seq<bv32>, r: nat, w: Words)
    requires Expanded(rk) && r <= 10 && RoundKey(r) == w
    ensures Keys(rk)(r) == ToBlock(w)
  {
  }

  lemma Reach1(rk: seq<bv32>)
    requires Expanded(rk)
    ensures RunRounds(EncRounds(RIJNDAEL), Keys(rk), S0, 1) == S1
  {
    KeyIs(rk, 1, K1);
    Step1();
    OneMore(EncRounds(RIJNDAEL), Keys(rk), S0, 0, S0, ToBlock(K1), S1);
  }

  lemma Reach2(rk: seq<bv32>)
    requires Expanded(rk)
    ensures RunRounds(EncRounds(RIJNDAEL), Keys(rk), S0, 2) == S2
  {
    Reach1(rk);
    KeyIs(rk, 2, K2);
    Step2();
    OneMore(EncRounds(RIJNDAEL), Keys(rk), S0, 1, S1, ToBlock(K2), S2);
  }

  lemma Reach3(rk: seq<bv32>)
    requires Expanded(rk)
    ensures RunRounds(EncRounds(RIJNDAEL), Keys(rk), S0, 3) == S3
  {
    Reach2(rk);
    KeyIs(rk, 3, K3);
    Step3();
    OneMore(EncRounds(RIJNDAEL), Keys(rk), S0, 2, S2, ToBlock(K3), S3);
  }

  lemma Reach4(rk: seq<bv32>)
    requires Expanded(rk)
    ensures RunRounds(EncRounds(RIJNDAEL), Keys(rk), S0, 4) == S4
  {
    Reach3(rk);
    KeyIs(rk, 4, K4);
    Step4();
    OneMore(EncRounds(RIJNDAEL), Keys(rk), S0, 3, S3, ToBlock(K4), S4);
  }

  lemma Reach5(rk: seq<bv32>)
    requires Expanded(rk)
    ensures RunRounds(EncRounds(RIJNDAEL), Keys(rk), S0, 5) == S5
  {
    Reach4(rk);
    KeyIs(rk, 5, K5);
    Step5();
    OneMore(EncRounds(RIJNDAEL), Keys(rk), S0, 4, S4, ToBlock(K5), S5);
  }

  lemma Reach6(rk: seq<bv32>)
    requires Expanded(rk)
    ensures RunRounds(EncRounds(RIJNDAEL), Keys(rk), S0, 6) == S6
  {
    Reach5(rk);
    KeyIs(rk, 6, K6);
    Step6();
    OneMore(EncRounds(RIJNDAEL), Keys(rk), S0, 5, S5, ToBlock(K6), S6);
  }

  lemma Reach7(rk: seq<bv32>)
    requires Expanded(rk)
    ensures RunRounds(EncRounds(RIJNDAEL), Keys(rk), S0, 7) == S7
  {
    Reach6(rk);
    KeyIs(rk, 7, K7);
    Step7();
    OneMore(EncRounds(RIJNDAEL), Keys(rk), S0, 6, S6, ToBlock(K7), S7);
  }

  lemma Reach8(rk: seq<bv32>)
    requires Expanded(rk)
    ensures RunRounds(EncRounds(RIJNDAEL), Keys(rk), S0, 8) == S8
  {
    Reach7(rk);
    KeyIs(rk, 8, K8);
    Step8();
    OneMore(EncRounds(RIJNDAEL), Keys(rk), S0, 7, S7, ToBlock(K8), S8);
  }

  lemma Reach9(rk: seq<bv32>)
    requires Expanded(rk)
    ensures RunRounds(EncRounds(RIJNDAEL), Keys(rk), S0, 9) == S9
  {
    Reach8(rk);
    KeyIs(rk, 9, K9);
    Step9();
    OneMore(EncRounds(RIJNDAEL), Keys(rk), S0, 8, S8, ToBlock(K9), S9);
  }

  lemma Ends()
    ensures Xor(BlockOf(PLAIN), ToBlock(K0)) == S0 && BytesOf(S10) == SECRET
  {
    assert ToBlock(K0) == Block(Col(0, 1, 2, 3), Col(4, 5, 6, 7), Col(8, 9, 10, 11), Col(12, 13, 14, 15));
  }

  lemma Whole(sb: Sbox, keys: nat -> Block, s: Block)
    ensures Cipher(sb, keys, 10, s) == EncFinal(sb, RunRounds(EncRounds(sb), keys, Xor(s, keys(0)), 9), keys(10))
  {
  }

  /** The cipher gives the block of the standard. */
  lemma KnownBlock(rk: seq<bv32>)
    requires Expanded(rk)
    ensures BytesOf(Cipher(RIJNDAEL, Keys(rk), 10, BlockOf(PLAIN))) == SECRET
  {
    Whole(RIJNDAEL, Keys(rk), BlockOf(PLAIN));
    Ends();
    KeyIs(rk, 0, K0);
    Reach9(rk);
    KeyIs(rk, 10, K10);
    Step10();
  }

  /** So does one thread of the kernel, on a packet that carries the plain block. */
  method EncryptKnown(rk: seq<bv32>, text: array<bv8>)
    requires Expanded(rk) && 48 <= text.Length && text[32..48] == PLAIN
    modifies text
    ensures text[..] == old(text[..32]) + SECRET + old(text[48..])
  {
    TablesMatch();
    KnownBlock(rk);
    OneChunk(Encrypting(RIJNDAEL, rk, 10), PLAIN);
    EncryptPacket(TABLES, RIJNDAEL, rk, 10, text, 1);
  }

  lemma OneChunk(f: Kernel, c: Chunk)
    ensures MapChunks(f, c, 1) == f(0, c)
  {
    assert c[..0] == [] && c[0..] == c;
  }
}
