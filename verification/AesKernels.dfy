/**
 * The kernels over a packet: blockwise AES, XTS and counter mode. A launch is
 * modelled thread after thread; Packet.OrderFree says that their order is
 * immaterial.
 */
module AesKernels {
  import opened AesSpec
  import opened AesWords
  import opened AesRounds
  import opened AesMemory
  import opened Packet
  import opened AesCounter

  ghost predicate Runnable(tb: Tables, sb: Sbox, rk: seq<bv32>, nrounds: nat) {
    TablesFor(tb, sb) && Rounds(nrounds) && 4 * nrounds + 4 <= |rk|
  }

  // ---- What each kernel makes of a block ----

  function Encrypting(sb: Sbox, rk: seq<bv32>, rounds: nat): Kernel
    requires rounds > 0
  {
    (thread: nat, c: Chunk) => BytesOf(Cipher(sb, Keys(rk), rounds, BlockOf(c)))
  }

  function Decrypting(sb: Sbox, rk: seq<bv32>, rounds: nat): Kernel
    requires rounds > 0
  {
    (thread: nat, c: Chunk) => BytesOf(InvCipher(sb, Keys(rk), rounds, BlockOf(c)))
  }

  /** The tweak of a thread, a block in memory: xts_encrypt and xts_decrypt get an array ivs with one for each. */
  function Tweak(ivs: seq<Words>, thread: nat): Block {
    if thread < |ivs| then LittleBlock(ivs[thread]) else LittleBlock(Words(0, 0, 0, 0))
  }

  /** Section 5.3.1 of IEEE Std 1619-2007, with the tweaks given. */
  function XtsEncrypting(sb: Sbox, rk: seq<bv32>, rounds: nat, ivs: seq<Words>): Kernel
    requires rounds > 0
  {
    (thread: nat, c: Chunk) =>
      BytesOf(Xor(Cipher(sb, Keys(rk), rounds, Xor(BlockOf(c), Tweak(ivs, thread))), Tweak(ivs, thread)))
  }

  /** Section 5.4.1 */
  function XtsDecrypting(sb: Sbox, rk: seq<bv32>, rounds: nat, ivs: seq<Words>): Kernel
    requires rounds > 0
  {
    (thread: nat, c: Chunk) =>
      BytesOf(Xor(InvCipher(sb, Keys(rk), rounds, Xor(BlockOf(c), Tweak(ivs, thread))), Tweak(ivs, thread)))
  }

  /** The text plus the encrypted counter block of the thread. */
  function Counting(sb: Sbox, rk: seq<bv32>, rounds: nat, ctr: Words): Kernel
    requires rounds > 0
  {
    (thread: nat, c: Chunk) => BytesOf(Xor(BlockOf(c), Cipher(sb, Keys(rk), rounds, CounterBlock(ctr, Offset(thread)))))
  }

  // ---- One thread ----

  /** aes_encrypt_bpt */
  method EncryptBlock(tb: Tables, ghost sb: Sbox, rk: seq<bv32>, nrounds: nat, text: array<bv8>, thread: nat)
    requires Runnable(tb, sb, rk, nrounds) && Start(thread + 1) <= text.Length
    modifies text
    ensures text[..] == Put(old(text[..]), Start(thread), Encrypting(sb, rk, nrounds)(thread, Get(old(text[..]), Start(thread))))
  {
    var w := LoadBlock(text, Start(thread));
    var out := EncryptWords(tb, sb, rk, nrounds, SwapWords(w));
    StoreBlock(text, Start(thread), SwapWords(out));
    LittleSwap(out);
  }

  /** aes_decrypt_bpt */
  method DecryptBlock(tb: Tables, ghost sb: Sbox, rk: seq<bv32>, nrounds: nat, text: array<bv8>, thread: nat)
    requires Runnable(tb, sb, rk, nrounds) && Start(thread + 1) <= text.Length
    modifies text
    ensures text[..] == Put(old(text[..]), Start(thread), Decrypting(sb, rk, nrounds)(thread, Get(old(text[..]), Start(thread))))
  {
    var w := LoadBlock(text, Start(thread));
    var out := DecryptWords(tb, sb, rk, nrounds, SwapWords(w));
    StoreBlock(text, Start(thread), SwapWords(out));
    LittleSwap(out);
  }

  /** xts_encrypt */
  method XtsEncryptBlock(tb: Tables, ghost sb: Sbox, rk: seq<bv32>, nrounds: nat, text: array<bv8>, ivs: seq<Words>, thread: nat)
    requires Runnable(tb, sb, rk, nrounds) && Start(thread + 1) <= text.Length && thread < |ivs|
    modifies text
    ensures text[..]
         == Put(old(text[..]), Start(thread), XtsEncrypting(sb, rk, nrounds, ivs)(thread, Get(old(text[..]), Start(thread))))
  {
    var w := LoadBlock(text, Start(thread));
    LittleXor(w, ivs[thread]);
    var out := EncryptWords(tb, sb, rk, nrounds, SwapWords(XorWords(w, ivs[thread])));
    LittleSwap(out);
    LittleXor(SwapWords(out), ivs[thread]);
    StoreBlock(text, Start(thread), XorWords(SwapWords(out), ivs[thread]));
  }

  /** xts_decrypt */
  method XtsDecryptBlock(tb: Tables, ghost sb: Sbox, rk: seq<bv32>, nrounds: nat, text: array<bv8>, ivs: seq<Words>, thread: nat)
    requires Runnable(tb, sb, rk, nrounds) && Start(thread + 1) <= text.Length && thread < |ivs|
    modifies text
    ensures text[..]
         == Put(old(text[..]), Start(thread), XtsDecrypting(sb, rk, nrounds, ivs)(thread, Get(old(text[..]), Start(thread))))
  {
    var w := LoadBlock(text, Start(thread));
    LittleXor(w, ivs[thread]);
    var out := DecryptWords(tb, sb, rk, nrounds, SwapWords(XorWords(w, ivs[thread])));
    LittleSwap(out);
    LittleXor(SwapWords(out), ivs[thread]);
    StoreBlock(text, Start(thread), XorWords(SwapWords(out), ivs[thread]));
  }

  /** aes_ctr_crypt: offset is thread_ctr_offset(), the thread index as a 64-bit word. */
  method CtrBlock(tb: Tables, ghost sb: Sbox, rk: seq<bv32>, nrounds: nat, text: array<bv8>, ctr: Words, offset: bv64, thread: nat)
    requires Runnable(tb, sb, rk, nrounds) && Start(thread + 1) <= text.Length && offset == Offset(thread)
    modifies text
    ensures text[..]
         == Put(old(text[..]), Start(thread), Counting(sb, rk, nrounds, ctr)(thread, Get(old(text[..]), Start(thread))))
  {
    var s := BigAdd(ctr, offset);
    var out := EncryptWords(tb, sb, rk, nrounds, SwapWords(s));
    var w := LoadBlock(text, Start(thread));
    LittleSwap(out);
    LittleXor(w, SwapWords(out));
    StoreBlock(text, Start(thread), XorWords(w, SwapWords(out)));
  }

  // ---- A launch of n threads, one by one, and what it makes of the packet ----

  method EncryptBlocks(tb: Tables, ghost sb: Sbox, rk: seq<bv32>, nrounds: nat, text: array<bv8>, n: nat)
    requires Runnable(tb, sb, rk, nrounds) && 32 + 16 * n <= text.Length
    modifies text
    ensures text[..] == MapBlocks(Encrypting(sb, rk, nrounds), old(text[..]), n)
  {
    ghost var f, was := Encrypting(sb, rk, nrounds), text[..];
    for i := 0 to n
      invariant text[..] == MapBlocks(f, was, i)
    {
      MapBlocksStep(f, was, i);
      EncryptBlock(tb, sb, rk, nrounds, text, i);
    }
  }

  method EncryptPacket(tb: Tables, ghost sb: Sbox, rk: seq<bv32>, nrounds: nat, text: array<bv8>, n: nat)
    requires Runnable(tb, sb, rk, nrounds) && 32 + 16 * n <= text.Length
    modifies text
    ensures text[..] == MapBlocks(Encrypting(sb, rk, nrounds), old(text[..]), n)
    ensures text[..] == old(text[..32]) + MapChunks(Encrypting(sb, rk, nrounds), old(text[32..32 + 16 * n]), n) + old(text[32 + 16 * n..])
  {
    MapBlocksWhole(Encrypting(sb, rk, nrounds), text[..], n);
    EncryptBlocks(tb, sb, rk, nrounds, text, n);
  }

  method DecryptBlocks(tb: Tables, ghost sb: Sbox, rk: seq<bv32>, nrounds: nat, text: array<bv8>, n: nat)
    requires Runnable(tb, sb, rk, nrounds) && 32 + 16 * n <= text.Length
    modifies text
    ensures text[..] == MapBlocks(Decrypting(sb, rk, nrounds), old(text[..]), n)
  {
    ghost var f, was := Decrypting(sb, rk, nrounds), text[..];
    for i := 0 to n
      invariant text[..] == MapBlocks(f, was, i)
    {
      MapBlocksStep(f, was, i);
      DecryptBlock(tb, sb, rk, nrounds, text, i);
    }
  }

  method DecryptPacket(tb: Tables, ghost sb: Sbox, rk: seq<bv32>, nrounds: nat, text: array<bv8>, n: nat)
    requires Runnable(tb, sb, rk, nrounds) && 32 + 16 * n <= text.Length
    modifies text
    ensures text[..] == MapBlocks(Decrypting(sb, rk, nrounds), old(text[..]), n)
    ensures text[..] == old(text[..32]) + MapChunks(Decrypting(sb, rk, nrounds), old(text[32..32 + 16 * n]), n) + old(text[32 + 16 * n..])
  {
    MapBlocksWhole(Decrypting(sb, rk, nrounds), text[..], n);
    DecryptBlocks(tb, sb, rk, nrounds, text, n);
  }

  method XtsEncryptBlocks(tb: Tables, ghost sb: Sbox, rk: seq<bv32>, nrounds: nat, text: array<bv8>, ivs: seq<Words>, n: nat)
    requires Runnable(tb, sb, rk, nrounds) && 32 + 16 * n <= text.Length && n <= |ivs|
    modifies text
    ensures text[..] == MapBlocks(XtsEncrypting(sb, rk, nrounds, ivs), old(text[..]), n)
  {
    ghost var f, was := XtsEncrypting(sb, rk, nrounds, ivs), text[..];
    for i := 0 to n
      invariant text[..] == MapBlocks(f, was, i)
    {
      MapBlocksStep(f, was, i);
      XtsEncryptBlock(tb, sb, rk, nrounds, text, ivs, i);
    }
  }

  method XtsEncryptPacket(tb: Tables, ghost sb: Sbox, rk: seq<bv32>, nrounds: nat, text: array<bv8>, ivs: seq<Words>, n: nat)
    requires Runnable(tb, sb, rk, nrounds) && 32 + 16 * n <= text.Length && n <= |ivs|
    modifies text
    ensures text[..] == MapBlocks(XtsEncrypting(sb, rk, nrounds, ivs), old(text[..]), n)
    ensures text[..] == old(text[..32]) + MapChunks(XtsEncrypting(sb, rk, nrounds, ivs), old(text[32..32 + 16 * n]), n) + old(text[32 + 16 * n..])
  {
    MapBlocksWhole(XtsEncrypting(sb, rk, nrounds, ivs), text[..], n);
    XtsEncryptBlocks(tb, sb, rk, nrounds, text, ivs, n);
  }

  method XtsDecryptBlocks(tb: Tables, ghost sb: Sbox, rk: seq<bv32>, nrounds: nat, text: array<bv8>, ivs: seq<Words>, n: nat)
    requires Runnable(tb, sb, rk, nrounds) && 32 + 16 * n <= text.Length && n <= |ivs|
    modifies text
    ensures text[..] == MapBlocks(XtsDecrypting(sb, rk, nrounds, ivs), old(text[..]), n)
  {
    ghost var f, was := XtsDecrypting(sb, rk, nrounds, ivs), text[..];
    for i := 0 to n
      invariant text[..] == MapBlocks(f, was, i)
    {
      MapBlocksStep(f, was, i);
      XtsDecryptBlock(tb, sb, rk, nrounds, text, ivs, i);
    }
  }

  method XtsDecryptPacket(tb: Tables, ghost sb: Sbox, rk: seq<bv32>, nrounds: nat, text: array<bv8>, ivs: seq<Words>, n: nat)
    requires Runnable(tb, sb, rk, nrounds) && 32 + 16 * n <= text.Length && n <= |ivs|
    modifies text
    ensures text[..] == MapBlocks(XtsDecrypting(sb, rk, nrounds, ivs), old(text[..]), n)
    ensures text[..] == old(text[..32]) + MapChunks(XtsDecrypting(sb, rk, nrounds, ivs), old(text[32..32 + 16 * n]), n) + old(text[32 + 16 * n..])
  {
    MapBlocksWhole(XtsDecrypting(sb, rk, nrounds, ivs), text[..], n);
    XtsDecryptBlocks(tb, sb, rk, nrounds, text, ivs, n);
  }

  method CtrBlocks(tb: Tables, ghost sb: Sbox, rk: seq<bv32>, nrounds: nat, text: array<bv8>, ctr: Words, n: nat)
    requires Runnable(tb, sb, rk, nrounds) && 32 + 16 * n <= text.Length
    modifies text
    ensures text[..] == MapBlocks(Counting(sb, rk, nrounds, ctr), old(text[..]), n)
  {
    ghost var f, was := Counting(sb, rk, nrounds, ctr), text[..];
    var offset: bv64 := 0;
    for i := 0 to n
      invariant text[..] == MapBlocks(f, was, i)
      invariant offset == Offset(i)
    {
      MapBlocksStep(f, was, i);
      CtrBlock(tb, sb, rk, nrounds, text, ctr, offset, i);
      offset := offset + 1;
    }
  }

  method CtrPacket(tb: Tables, ghost sb: Sbox, rk: seq<bv32>, nrounds: nat, text: array<bv8>, ctr: Words, n: nat)
    requires Runnable(tb, sb, rk, nrounds) && 32 + 16 * n <= text.Length
    modifies text
    ensures text[..] == MapBlocks(Counting(sb, rk, nrounds, ctr), old(text[..]), n)
    ensures text[..] == old(text[..32]) + MapChunks(Counting(sb, rk, nrounds, ctr), old(text[32..32 + 16 * n]), n) + old(text[32 + 16 * n..])
  {
    MapBlocksWhole(Counting(sb, rk, nrounds, ctr), text[..], n);
    CtrBlocks(tb, sb, rk, nrounds, text, ctr, n);
  }

  // ---- Round trips over whole packets ----

  lemma DecryptingUndoes(sb: Sbox, ek: seq<bv32>, dk: seq<bv32>, rounds: nat, thread: nat, c: Chunk)
    requires sb.Bijective() && rounds > 0 && Paired(Keys(ek), Keys(dk), rounds)
    ensures Undoes(Encrypting(sb, ek, rounds), Decrypting(sb, dk, rounds), thread, c)
  {
    BlockOfBytes(Cipher(sb, Keys(ek), rounds, BlockOf(c)));
    DecryptUndoesEncrypt(sb, Keys(ek), Keys(dk), rounds, BlockOf(c));
    BytesOfBlock(c);
  }

  lemma XtsDecryptingUndoes(sb: Sbox, ek: seq<bv32>, dk: seq<bv32>, rounds: nat, ivs: seq<Words>, thread: nat, c: Chunk)
    requires sb.Bijective() && rounds > 0 && Paired(Keys(ek), Keys(dk), rounds)
    ensures Undoes(XtsEncrypting(sb, ek, rounds, ivs), XtsDecrypting(sb, dk, rounds, ivs), thread, c)
  {
    var tweak := Tweak(ivs, thread);
    var whitened := Xor(BlockOf(c), tweak);
    var e := Cipher(sb, Keys(ek), rounds, whitened);
    BlockOfBytes(Xor(e, tweak));
    XorTwice(e, tweak);
    DecryptUndoesEncrypt(sb, Keys(ek), Keys(dk), rounds, whitened);
    XorTwice(BlockOf(c), tweak);
    BytesOfBlock(c);
  }

  lemma CountingUndoes(sb: Sbox, rk: seq<bv32>, rounds: nat, ctr: Words, thread: nat, c: Chunk)
    requires rounds > 0
    ensures Undoes(Counting(sb, rk, rounds, ctr), Counting(sb, rk, rounds, ctr), thread, c)
  {
    var stream := Cipher(sb, Keys(rk), rounds, CounterBlock(ctr, Offset(thread)));
    BlockOfBytes(Xor(BlockOf(c), stream));
    XorTwice(BlockOf(c), stream);
    BytesOfBlock(c);
  }

  /** Decrypting an encrypted packet restores every byte of it. */
  lemma PacketRestored(sb: Sbox, ek: seq<bv32>, dk: seq<bv32>, rounds: nat, text: seq<bv8>, n: nat)
    requires sb.Bijective() && rounds > 0 && Paired(Keys(ek), Keys(dk), rounds) && Start(n) <= |text|
    ensures MapBlocks(Decrypting(sb, dk, rounds), MapBlocks(Encrypting(sb, ek, rounds), text, n), n) == text
  {
    forall i: nat, c: Chunk
      ensures Undoes(Encrypting(sb, ek, rounds), Decrypting(sb, dk, rounds), i, c)
    {
      DecryptingUndoes(sb, ek, dk, rounds, i, c);
    }
    MapBlocksUndone(Encrypting(sb, ek, rounds), Decrypting(sb, dk, rounds), text, n);
  }

  lemma XtsPacketRestored(sb: Sbox, ek: seq<bv32>, dk: seq<bv32>, rounds: nat, ivs: seq<Words>, text: seq<bv8>, n: nat)
    requires sb.Bijective() && rounds > 0 && Paired(Keys(ek), Keys(dk), rounds) && Start(n) <= |text|
    ensures MapBlocks(XtsDecrypting(sb, dk, rounds, ivs), MapBlocks(XtsEncrypting(sb, ek, rounds, ivs), text, n), n) == text
  {
    forall i: nat, c: Chunk
      ensures Undoes(XtsEncrypting(sb, ek, rounds, ivs), XtsDecrypting(sb, dk, rounds, ivs), i, c)
    {
      XtsDecryptingUndoes(sb, ek, dk, rounds, ivs, i, c);
    }
    MapBlocksUndone(XtsEncrypting(sb, ek, rounds, ivs), XtsDecrypting(sb, dk, rounds, ivs), text, n);
  }

  lemma CtrPacketRestored(sb: Sbox, rk: seq<bv32>, rounds: nat, ctr: Words, text: seq<bv8>, n: nat)
    requires rounds > 0 && Start(n) <= |text|
    ensures MapBlocks(Counting(sb, rk, rounds, ctr), MapBlocks(Counting(sb, rk, rounds, ctr), text, n), n) == text
  {
    forall i: nat, c: Chunk
      ensures Undoes(Counting(sb, rk, rounds, ctr), Counting(sb, rk, rounds, ctr), i, c)
    {
      CountingUndoes(sb, rk, rounds, ctr, i, c);
    }
    MapBlocksUndone(Counting(sb, rk, rounds, ctr), Counting(sb, rk, rounds, ctr), text, n);
  }
}
