/**
 * Rounds over four words: the statements that the unrolled kernels repeat, each
 * proved to be the round of FIPS 197 on the bytes of the words.
 */
module AesRounds {
  import opened AesSpec
  import opened AesWords

  datatype Words = Words(w0: bv32, w1: bv32, w2: bv32, w3: bv32)

  function ToBlock(s: Words): Block {
    Block(Unpack(s.w0), Unpack(s.w1), Unpack(s.w2), Unpack(s.w3))
  }

  function ToWords(b: Block): Words {
    Words(Pack(b.c0), Pack(b.c1), Pack(b.c2), Pack(b.c3))
  }

  /** Round key r of a schedule. */
  function KeyWords(rk: seq<bv32>, r: nat): Words {
    if 4 * r + 4 <= |rk| then Words(rk[4 * r], rk[4 * r + 1], rk[4 * r + 2], rk[4 * r + 3]) else Words(0, 0, 0, 0)
  }

  function Keys(rk: seq<bv32>): nat -> Block {
    (r: nat) => ToBlock(KeyWords(rk, r))
  }

  function XorWords(s: Words, k: Words): Words {
    Words(XorWord(s.w0, k.w0), XorWord(s.w1, k.w1), XorWord(s.w2, k.w2), XorWord(s.w3, k.w3))
  }

  lemma XorWordMeaning(a: bv32, b: bv32)
    ensures Unpack(XorWord(a, b)) == XorCol(Unpack(a), Unpack(b))
  {
    PackUnpack(a);
    PackUnpack(b);
    PackXor(Unpack(a), Unpack(b));
    UnpackPack(XorCol(Unpack(a), Unpack(b)));
  }

  lemma XorWordsMeaning(s: Words, k: Words)
    ensures ToBlock(XorWords(s, k)) == Xor(ToBlock(s), ToBlock(k))
  {
    XorWordMeaning(s.w0, k.w0);
    XorWordMeaning(s.w1, k.w1);
    XorWordMeaning(s.w2, k.w2);
    XorWordMeaning(s.w3, k.w3);
  }

  /** The four statements of an encryption round. */
  function EncWords(tb: Tables, s: Words, k: Words): Words {
    Words(Lookup(tb.te0, tb.te1, tb.te2, tb.te3, s.w0, s.w1, s.w2, s.w3, k.w0),
          Lookup(tb.te0, tb.te1, tb.te2, tb.te3, s.w1, s.w2, s.w3, s.w0, k.w1),
          Lookup(tb.te0, tb.te1, tb.te2, tb.te3, s.w2, s.w3, s.w0, s.w1, k.w2),
          Lookup(tb.te0, tb.te1, tb.te2, tb.te3, s.w3, s.w0, s.w1, s.w2, k.w3))
  }

  /** The four statements of the last encryption round. */
  function EncLast(tb: Tables, s: Words, k: Words): Words {
    Words(LastLookup(tb.te4, s.w0, s.w1, s.w2, s.w3, k.w0), LastLookup(tb.te4, s.w1, s.w2, s.w3, s.w0, k.w1),
          LastLookup(tb.te4, s.w2, s.w3, s.w0, s.w1, k.w2), LastLookup(tb.te4, s.w3, s.w0, s.w1, s.w2, k.w3))
  }

  /** The four statements of a decryption round: the words are taken in the other direction. */
  function DecWords(tb: Tables, s: Words, k: Words): Words {
    Words(Lookup(tb.td0, tb.td1, tb.td2, tb.td3, s.w0, s.w3, s.w2, s.w1, k.w0),
          Lookup(tb.td0, tb.td1, tb.td2, tb.td3, s.w1, s.w0, s.w3, s.w2, k.w1),
          Lookup(tb.td0, tb.td1, tb.td2, tb.td3, s.w2, s.w1, s.w0, s.w3, k.w2),
          Lookup(tb.td0, tb.td1, tb.td2, tb.td3, s.w3, s.w2, s.w1, s.w0, k.w3))
  }

  function DecLast(tb: Tables, s: Words, k: Words): Words {
    Words(LastLookup(tb.td4, s.w0, s.w3, s.w2, s.w1, k.w0), LastLookup(tb.td4, s.w1, s.w0, s.w3, s.w2, k.w1),
          LastLookup(tb.td4, s.w2, s.w1, s.w0, s.w3, k.w2), LastLookup(tb.td4, s.w3, s.w2, s.w1, s.w0, k.w3))
  }

  lemma EncWord(tb: Tables, sb: Sbox, a: bv32, b: bv32, c: bv32, d: bv32, k: bv32)
    requires TablesFor(tb, sb)
    ensures Unpack(Lookup(tb.te0, tb.te1, tb.te2, tb.te3, a, b, c, d, k))
         == XorCol(MixCol(Col(sb.sub(Byte0(a)), sb.sub(Byte1(b)), sb.sub(Byte2(c)), sb.sub(Byte3(d)))), Unpack(k))
  {
    EncLookup(tb, sb, a, b, c, d, k);
    UnpackPack(XorCol(MixCol(Col(sb.sub(Byte0(a)), sb.sub(Byte1(b)), sb.sub(Byte2(c)), sb.sub(Byte3(d)))), Unpack(k)));
  }

  /** A round by table lookup is SubBytes, ShiftRows, MixColumns and AddRoundKey. */
  lemma EncWordsMeaning(tb: Tables, sb: Sbox, s: Words, k: Words)
    requires TablesFor(tb, sb)
    ensures ToBlock(EncWords(tb, s, k)) == EncRound(sb, ToBlock(s), ToBlock(k))
  {
    EncWord(tb, sb, s.w0, s.w1, s.w2, s.w3, k.w0);
    EncWord(tb, sb, s.w1, s.w2, s.w3, s.w0, k.w1);
    EncWord(tb, sb, s.w2, s.w3, s.w0, s.w1, k.w2);
    EncWord(tb, sb, s.w3, s.w0, s.w1, s.w2, k.w3);
  }

  lemma DecWord(tb: Tables, sb: Sbox, a: bv32, b: bv32, c: bv32, d: bv32, k: bv32)
    requires TablesFor(tb, sb)
    ensures Unpack(Lookup(tb.td0, tb.td1, tb.td2, tb.td3, a, b, c, d, k))
         == XorCol(InvMixCol(Col(sb.inv(Byte0(a)), sb.inv(Byte1(b)), sb.inv(Byte2(c)), sb.inv(Byte3(d)))), Unpack(k))
  {
    DecLookup(tb, sb, a, b, c, d, k);
    UnpackPack(XorCol(InvMixCol(Col(sb.inv(Byte0(a)), sb.inv(Byte1(b)), sb.inv(Byte2(c)), sb.inv(Byte3(d)))), Unpack(k)));
  }

  lemma DecWordsMeaning(tb: Tables, sb: Sbox, s: Words, k: Words)
    requires TablesFor(tb, sb)
    ensures ToBlock(DecWords(tb, s, k)) == DecRound(sb, ToBlock(s), ToBlock(k))
  {
    DecWord(tb, sb, s.w0, s.w3, s.w2, s.w1, k.w0);
    DecWord(tb, sb, s.w1, s.w0, s.w3, s.w2, k.w1);
    DecWord(tb, sb, s.w2, s.w1, s.w0, s.w3, k.w2);
    DecWord(tb, sb, s.w3, s.w2, s.w1, s.w0, k.w3);
  }

  lemma LastWordBlock(t4: bv8 -> bv32, f: bv8 -> bv8, a: bv32, b: bv32, c: bv32, d: bv32, k: bv32)
    requires forall x: bv8 :: t4(x) == Pack(Col(f(x), f(x), f(x), f(x)))
    ensures Unpack(LastLookup(t4, a, b, c, d, k)) == XorCol(Col(f(Byte0(a)), f(Byte1(b)), f(Byte2(c)), f(Byte3(d))), Unpack(k))
  {
    LastWord(t4, f, a, b, c, d, k);
    UnpackPack(XorCol(Col(f(Byte0(a)), f(Byte1(b)), f(Byte2(c)), f(Byte3(d))), Unpack(k)));
  }

  lemma Te4Copies(tb: Tables, sb: Sbox)
    requires TablesFor(tb, sb)
    ensures forall x: bv8 :: tb.te4(x) == Pack(Col(sb.sub(x), sb.sub(x), sb.sub(x), sb.sub(x)))
    ensures forall x: bv8 :: tb.td4(x) == Pack(Col(sb.inv(x), sb.inv(x), sb.inv(x), sb.inv(x)))
  {
    forall x: bv8
      ensures tb.te4(x) == Pack(Col(sb.sub(x), sb.sub(x), sb.sub(x), sb.sub(x)))
      ensures tb.td4(x) == Pack(Col(sb.inv(x), sb.inv(x), sb.inv(x), sb.inv(x)))
    {
      assert EncEntry(tb, sb, x) && DecEntry(tb, sb, x);
    }
  }

  lemma EncLastMeaning(tb: Tables, sb: Sbox, s: Words, k: Words)
    requires TablesFor(tb, sb)
    ensures ToBlock(EncLast(tb, s, k)) == EncFinal(sb, ToBlock(s), ToBlock(k))
  {
    Te4Copies(tb, sb);
    LastWordBlock(tb.te4, sb.sub, s.w0, s.w1, s.w2, s.w3, k.w0);
    LastWordBlock(tb.te4, sb.sub, s.w1, s.w2, s.w3, s.w0, k.w1);
    LastWordBlock(tb.te4, sb.sub, s.w2, s.w3, s.w0, s.w1, k.w2);
    LastWordBlock(tb.te4, sb.sub, s.w3, s.w0, s.w1, s.w2, k.w3);
  }

  lemma DecLastMeaning(tb: Tables, sb: Sbox, s: Words, k: Words)
    requires TablesFor(tb, sb)
    ensures ToBlock(DecLast(tb, s, k)) == DecFinal(sb, ToBlock(s), ToBlock(k))
  {
    Te4Copies(tb, sb);
    LastWordBlock(tb.td4, sb.inv, s.w0, s.w3, s.w2, s.w1, k.w0);
    LastWordBlock(tb.td4, sb.inv, s.w1, s.w0, s.w3, s.w2, k.w1);
    LastWordBlock(tb.td4, sb.inv, s.w2, s.w1, s.w0, s.w3, k.w2);
    LastWordBlock(tb.td4, sb.inv, s.w3, s.w2, s.w1, s.w0, k.w3);
  }

  // ---- The unrolled rounds ----

  predicate Rounds(n: nat) {
    n == 10 || n == 12 || n == 14
  }

  predicate RunsAt(states: nat -> Block, round: (Block, Block) -> Block, keys: nat -> Block, r: nat) {
    r > 0 ==> states(r) == round(states(r - 1), keys(r))
  }

  /** states(r) is the state after r rounds. */
  ghost predicate IsRun(states: nat -> Block, round: (Block, Block) -> Block, keys: nat -> Block) {
    forall r: nat :: RunsAt(states, round, keys, r)
  }

  function RunFrom(round: (Block, Block) -> Block, keys: nat -> Block, x: Block): (states: nat -> Block)
    ensures IsRun(states, round, keys)
  {
    (r: nat) => RunRounds(round, keys, x, r)
  }

  method AddFirstKey(rk: seq<bv32>, text: Words) returns (s: Words)
    requires 4 <= |rk|
    ensures ToBlock(s) == Xor(ToBlock(text), Keys(rk)(0))
  {
    s := XorWords(text, Words(rk[0], rk[1], rk[2], rk[3]));
    XorWordsMeaning(text, KeyWords(rk, 0));
  }

  /** One unrolled encryption round: s holds the state after r - 1 rounds, the result the state after r. */
  method EncStep(tb: Tables, ghost sb: Sbox, rk: seq<bv32>, s: Words, r: nat, ghost states: nat -> Block) returns (t: Words)
    requires TablesFor(tb, sb) && r > 0 && 4 * r + 4 <= |rk|
    requires IsRun(states, EncRounds(sb), Keys(rk)) && ToBlock(s) == states(r - 1)
    ensures ToBlock(t) == states(r)
  {
    t := EncWords(tb, s, Words(rk[4 * r], rk[4 * r + 1], rk[4 * r + 2], rk[4 * r + 3]));
    EncWordsMeaning(tb, sb, s, KeyWords(rk, r));
    assert RunsAt(states, EncRounds(sb), Keys(rk), r);
  }

  /** The full rounds of aes_encrypt_bpt: 9, 11 or 13. */
  method EncryptRounds(tb: Tables, ghost sb: Sbox, rk: seq<bv32>, nrounds: nat, text: Words, ghost states: nat -> Block)
    returns (t: Words)
    requires TablesFor(tb, sb) && Rounds(nrounds) && 4 * nrounds + 4 <= |rk|
    requires IsRun(states, EncRounds(sb), Keys(rk)) && ToBlock(text) == states(0)
    ensures ToBlock(t) == states(nrounds - 1)
  {
    var s := text;
    t := EncStep(tb, sb, rk, s, 1, states);
    s := EncStep(tb, sb, rk, t, 2, states);
    t := EncStep(tb, sb, rk, s, 3, states);
    s := EncStep(tb, sb, rk, t, 4, states);
    t := EncStep(tb, sb, rk, s, 5, states);
    s := EncStep(tb, sb, rk, t, 6, states);
    t := EncStep(tb, sb, rk, s, 7, states);
    s := EncStep(tb, sb, rk, t, 8, states);
    t := EncStep(tb, sb, rk, s, 9, states);
    if nrounds > 10 {
      s := EncStep(tb, sb, rk, t, 10, states);
      t := EncStep(tb, sb, rk, s, 11, states);
      if nrounds > 12 {
        s := EncStep(tb, sb, rk, t, 12, states);
        t := EncStep(tb, sb, rk, s, 13, states);
      }
    }
  }

  method EncEnd(tb: Tables, ghost sb: Sbox, rk: seq<bv32>, r: nat, t: Words) returns (out: Words)
    requires TablesFor(tb, sb) && 4 * r + 4 <= |rk|
    ensures ToBlock(out) == EncFinal(sb, ToBlock(t), Keys(rk)(r))
  {
    out := EncLast(tb, t, Words(rk[4 * r], rk[4 * r + 1], rk[4 * r + 2], rk[4 * r + 3]));
    EncLastMeaning(tb, sb, t, KeyWords(rk, r));
  }

  lemma CipherOfRun(sb: Sbox, keys: nat -> Block, rounds: nat, b: Block, last: Block, out: Block)
    requires rounds > 0 && last == RunFrom(EncRounds(sb), keys, Xor(b, keys(0)))(rounds - 1)
    requires out == EncFinal(sb, last, keys(rounds))
    ensures out == Cipher(sb, keys, rounds, b)
  {
  }

  /** aes_encrypt_bpt on the four words of a block. */
  method EncryptWords(tb: Tables, ghost sb: Sbox, rk: seq<bv32>, nrounds: nat, text: Words) returns (out: Words)
    requires TablesFor(tb, sb) && Rounds(nrounds) && 4 * nrounds + 4 <= |rk|
    ensures ToBlock(out) == Cipher(sb, Keys(rk), nrounds, ToBlock(text))
  {
    var s := AddFirstKey(rk, text);
    ghost var keys := Keys(rk);
    var t := EncryptRounds(tb, sb, rk, nrounds, s, RunFrom(EncRounds(sb), keys, ToBlock(s)));
    out := EncEnd(tb, sb, rk, nrounds, t);
    CipherOfRun(sb, keys, nrounds, ToBlock(text), ToBlock(t), ToBlock(out));
  }

  /** One unrolled decryption round: s holds the state after r - 1 rounds, the result the state after r. */
  method DecStep(tb: Tables, ghost sb: Sbox, rk: seq<bv32>, s: Words, r: nat, ghost states: nat -> Block) returns (t: Words)
    requires TablesFor(tb, sb) && r > 0 && 4 * r + 4 <= |rk|
    requires IsRun(states, DecRounds(sb), Keys(rk)) && ToBlock(s) == states(r - 1)
    ensures ToBlock(t) == states(r)
  {
    t := DecWords(tb, s, Words(rk[4 * r], rk[4 * r + 1], rk[4 * r + 2], rk[4 * r + 3]));
    DecWordsMeaning(tb, sb, s, KeyWords(rk, r));
    assert RunsAt(states, DecRounds(sb), Keys(rk), r);
  }

  /** The full rounds of aes_decrypt_bpt: 9, 11 or 13. */
  method DecryptRounds(tb: Tables, ghost sb: Sbox, rk: seq<bv32>, nrounds: nat, text: Words, ghost states: nat -> Block)
    returns (t: Words)
    requires TablesFor(tb, sb) && Rounds(nrounds) && 4 * nrounds + 4 <= |rk|
    requires IsRun(states, DecRounds(sb), Keys(rk)) && ToBlock(text) == states(0)
    ensures ToBlock(t) == states(nrounds - 1)
  {
    var s := text;
    t := DecStep(tb, sb, rk, s, 1, states);
    s := DecStep(tb, sb, rk, t, 2, states);
    t := DecStep(tb, sb, rk, s, 3, states);
    s := DecStep(tb, sb, rk, t, 4, states);
    t := DecStep(tb, sb, rk, s, 5, states);
    s := DecStep(tb, sb, rk, t, 6, states);
    t := DecStep(tb, sb, rk, s, 7, states);
    s := DecStep(tb, sb, rk, t, 8, states);
    t := DecStep(tb, sb, rk, s, 9, states);
    if nrounds > 10 {
      s := DecStep(tb, sb, rk, t, 10, states);
      t := DecStep(tb, sb, rk, s, 11, states);
      if nrounds > 12 {
        s := DecStep(tb, sb, rk, t, 12, states);
        t := DecStep(tb, sb, rk, s, 13, states);
      }
    }
  }

  method DecEnd(tb: Tables, ghost sb: Sbox, rk: seq<bv32>, r: nat, t: Words) returns (out: Words)
    requires TablesFor(tb, sb) && 4 * r + 4 <= |rk|
    ensures ToBlock(out) == DecFinal(sb, ToBlock(t), Keys(rk)(r))
  {
    out := DecLast(tb, t, Words(rk[4 * r], rk[4 * r + 1], rk[4 * r + 2], rk[4 * r + 3]));
    DecLastMeaning(tb, sb, t, KeyWords(rk, r));
  }

  lemma InvCipherOfRun(sb: Sbox, keys: nat -> Block, rounds: nat, b: Block, last: Block, out: Block)
    requires rounds > 0 && last == RunFrom(DecRounds(sb), keys, Xor(b, keys(0)))(rounds - 1)
    requires out == DecFinal(sb, last, keys(rounds))
    ensures out == InvCipher(sb, keys, rounds, b)
  {
  }

  /** aes_decrypt_bpt on the four words of a block. */
  method DecryptWords(tb: Tables, ghost sb: Sbox, rk: seq<bv32>, nrounds: nat, text: Words) returns (out: Words)
    requires TablesFor(tb, sb) && Rounds(nrounds) && 4 * nrounds + 4 <= |rk|
    ensures ToBlock(out) == InvCipher(sb, Keys(rk), nrounds, ToBlock(text))
  {
    var s := AddFirstKey(rk, text);
    ghost var keys := Keys(rk);
    var t := DecryptRounds(tb, sb, rk, nrounds, s, RunFrom(DecRounds(sb), keys, ToBlock(s)));
    out := DecEnd(tb, sb, rk, nrounds, t);
    InvCipherOfRun(sb, keys, nrounds, ToBlock(text), ToBlock(t), ToBlock(out));
  }
}
