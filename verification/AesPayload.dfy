/**
 * What the kernels make of each block of a payload, and where tweaks and
 * counters lie in memory, byte by byte.
 */
module AesPayload {
  import opened AesSpec
  import opened AesWords
  import opened AesRounds
  import opened AesMemory
  import opened Packet
  import opened AesCounter
  import opened AesKernels

  /** The four words that 16 bytes of memory are read as. */
  function Loaded(c: Chunk): Words {
    Words(Little(c[0], c[1], c[2], c[3]), Little(c[4], c[5], c[6], c[7]), Little(c[8], c[9], c[10], c[11]), Little(c[12], c[13], c[14], c[15]))
  }

  lemma LoadedBlock(c: Chunk)
    ensures LittleBlock(Loaded(c)) == BlockOf(c)
  {
    SwapLittle(c[0], c[1], c[2], c[3]);
    SwapLittle(c[4], c[5], c[6], c[7]);
    SwapLittle(c[8], c[9], c[10], c[11]);
    SwapLittle(c[12], c[13], c[14], c[15]);
  }

  lemma EncryptedAt(sb: Sbox, rk: seq<bv32>, rounds: nat, s: seq<bv8>, n: nat, i: nat)
    requires rounds > 0 && |s| == 16 * n && i < n
    ensures MapChunks(Encrypting(sb, rk, rounds), s, n)[16 * i..16 * i + 16]
         == BytesOf(Cipher(sb, Keys(rk), rounds, BlockOf(s[16 * i..16 * i + 16])))
  {
    MapChunksAt(Encrypting(sb, rk, rounds), s, n, i);
  }

  lemma DecryptedAt(sb: Sbox, rk: seq<bv32>, rounds: nat, s: seq<bv8>, n: nat, i: nat)
    requires rounds > 0 && |s| == 16 * n && i < n
    ensures MapChunks(Decrypting(sb, rk, rounds), s, n)[16 * i..16 * i + 16]
         == BytesOf(InvCipher(sb, Keys(rk), rounds, BlockOf(s[16 * i..16 * i + 16])))
  {
    MapChunksAt(Decrypting(sb, rk, rounds), s, n, i);
  }

  /** Block i is encrypted between two additions of entry i of ivs, whose bytes are iv. */
  lemma XtsEncryptedAt(sb: Sbox, rk: seq<bv32>, rounds: nat, ivs: seq<Words>, iv: Chunk, s: seq<bv8>, n: nat, i: nat)
    requires rounds > 0 && |s| == 16 * n && i < n && i < |ivs| && ivs[i] == Loaded(iv)
    ensures MapChunks(XtsEncrypting(sb, rk, rounds, ivs), s, n)[16 * i..16 * i + 16]
         == BytesOf(Xor(Cipher(sb, Keys(rk), rounds, Xor(BlockOf(s[16 * i..16 * i + 16]), BlockOf(iv))), BlockOf(iv)))
  {
    MapChunksAt(XtsEncrypting(sb, rk, rounds, ivs), s, n, i);
    LoadedBlock(iv);
  }

  lemma XtsDecryptedAt(sb: Sbox, rk: seq<bv32>, rounds: nat, ivs: seq<Words>, iv: Chunk, s: seq<bv8>, n: nat, i: nat)
    requires rounds > 0 && |s| == 16 * n && i < n && i < |ivs| && ivs[i] == Loaded(iv)
    ensures MapChunks(XtsDecrypting(sb, rk, rounds, ivs), s, n)[16 * i..16 * i + 16]
         == BytesOf(Xor(InvCipher(sb, Keys(rk), rounds, Xor(BlockOf(s[16 * i..16 * i + 16]), BlockOf(iv))), BlockOf(iv)))
  {
    MapChunksAt(XtsDecrypting(sb, rk, rounds, ivs), s, n, i);
    LoadedBlock(iv);
  }

  // ---- Counters ----

  /** Four bytes, the most significant first, as a word; and eight. */
  function Big32(a: bv8, b: bv8, c: bv8, d: bv8): bv32 {
    ((a as bv32) << 24) | ((b as bv32) << 16) | ((c as bv32) << 8) | (d as bv32)
  }

  function Big64(b: seq<bv8>): bv64
    requires |b| == 8
  {
    ((Big32(b[0], b[1], b[2], b[3]) as bv64) << 32) | (Big32(b[4], b[5], b[6], b[7]) as bv64)
  }

  lemma SwappedWord(a: bv8, b: bv8, c: bv8, d: bv8)
    ensures Swap(Little(a, b, c, d)) == Big32(a, b, c, d)
  {
    SwapLittle(a, b, c, d);
    PackUnpack(Swap(Little(a, b, c, d)));
  }

  lemma WordBytes(w: bv32)
    ensures Big32(Byte0(w), Byte1(w), Byte2(w), Byte3(w)) == w
  {
    PackUnpack(w);
  }

  lemma JoinHalves(x: bv64)
    ensures Join(High(x), Low(x)) == x
  {
  }

  lemma ByteOf64(x: bv64)
    ensures var h, l := High(x), Low(x);
      Big64([Byte0(h), Byte1(h), Byte2(h), Byte3(h), Byte0(l), Byte1(l), Byte2(l), Byte3(l)]) == x
  {
    WordBytes(High(x));
    WordBytes(Low(x));
    JoinHalves(x);
  }

  lemma JoinBig(p: bv32, q: bv32, b: seq<bv8>)
    requires |b| == 8 && p == Big32(b[0], b[1], b[2], b[3]) && q == Big32(b[4], b[5], b[6], b[7])
    ensures Join(p, q) == Big64(b)
  {
  }

  lemma SwappedHigh(ctr: Chunk)
    ensures Swap(Loaded(ctr).w2) == Big32(ctr[8], ctr[9], ctr[10], ctr[11])
    ensures Swap(Loaded(ctr).w3) == Big32(ctr[12], ctr[13], ctr[14], ctr[15])
  {
    SwappedWord(ctr[8], ctr[9], ctr[10], ctr[11]);
    SwappedWord(ctr[12], ctr[13], ctr[14], ctr[15]);
  }

  lemma BaseJoins(w: Words, p: bv32, q: bv32)
    requires Swap(w.w2) == p && Swap(w.w3) == q
    ensures Base(w) == Join(p, q)
  {
  }

  /** The counter is in bytes 8 to 15 of its block, big endian. */
  lemma BaseBytes(ctr: Chunk)
    ensures Base(Loaded(ctr)) == Big64(ctr[8..])
  {
    SwappedHigh(ctr);
    var p, q := Swap(Loaded(ctr).w2), Swap(Loaded(ctr).w3);
    BaseJoins(Loaded(ctr), p, q);
    JoinBig(p, q, ctr[8..]);
  }

  /** Eight zero bytes and the number, big endian. */
  lemma NumberBytes(x: bv64)
    ensures var b := BytesOf(NumberBlock(x)); b[..8] == [0, 0, 0, 0, 0, 0, 0, 0] && Big64(b[8..]) == x
  {
    var b, h, l := BytesOf(NumberBlock(x)), High(x), Low(x);
    ByteOf64(x);
    assert b[8..] == [Byte0(h), Byte1(h), Byte2(h), Byte3(h), Byte0(l), Byte1(l), Byte2(l), Byte3(l)];
  }

  lemma CounterBytes(ctr: Chunk, i: nat)
    ensures var b := BytesOf(CounterBlock(Loaded(ctr), Offset(i)));
      && b[..8] == [0, 0, 0, 0, 0, 0, 0, 0]
      && Number(Big64(b[8..])) == (Number(Big64(ctr[8..])) + i) % 0x1_0000_0000_0000_0000
  {
    BaseBytes(ctr);
    CounterNumber(Base(Loaded(ctr)), i);
    NumberBytes(Plus(Base(Loaded(ctr)), Offset(i)));
  }

  lemma CountedBlock(sb: Sbox, rk: seq<bv32>, rounds: nat, ctr: Words, s: seq<bv8>, n: nat, i: nat)
    requires rounds > 0 && |s| == 16 * n && i < n
    ensures MapChunks(Counting(sb, rk, rounds, ctr), s, n)[16 * i..16 * i + 16]
         == BytesOf(Xor(BlockOf(s[16 * i..16 * i + 16]), Cipher(sb, Keys(rk), rounds, CounterBlock(ctr, Offset(i)))))
  {
    MapChunksAt(Counting(sb, rk, rounds, ctr), s, n, i);
  }

  /**
   * Block i is added to an encrypted block: eight zero bytes, then the counter's
   * number plus i, modulo 2^64, big endian. The high half of the counter is not used.
   */
  lemma CountedAt(sb: Sbox, rk: seq<bv32>, rounds: nat, ctr: Chunk, s: seq<bv8>, n: nat, i: nat) returns (b: Chunk)
    requires rounds > 0 && |s| == 16 * n && i < n
    ensures b[..8] == [0, 0, 0, 0, 0, 0, 0, 0] && Number(Big64(b[8..])) == (Number(Big64(ctr[8..])) + i) % 0x1_0000_0000_0000_0000
    ensures MapChunks(Counting(sb, rk, rounds, Loaded(ctr)), s, n)[16 * i..16 * i + 16]
         == BytesOf(Xor(BlockOf(s[16 * i..16 * i + 16]), Cipher(sb, Keys(rk), rounds, BlockOf(b))))
  {
    var block := CounterBlock(Loaded(ctr), Offset(i));
    b := BytesOf(block);
    CounterBytes(ctr, i);
    CountedBlock(sb, rk, rounds, Loaded(ctr), s, n, i);
    BlockOfBytes(block);
  }
}
