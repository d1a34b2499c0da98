/**
 * aes_encrypt_bp4t: four threads for each block, thread (x, y) holding word x
 * of block y in memory that all threads of a grid block share. Each statement
 * is run by all threads before the next one; it reads one shared array and
 * writes the other.
 */
module AesFourThreads {
  import opened AesSpec
  import opened AesWords
  import opened AesRounds
  import opened AesMemory
  import opened Packet
  import opened AesKernels

  const WORDS_PER_BLOCK := 256
  const BLOCKS := 64

  /** The word of the thread that is i places on in the group of thread lid. */
  function Neighbour(lid: nat, i: nat): (r: nat)
    ensures r / 4 == lid / 4 && r % 4 == (lid % 4 + i) % 4
  {
    lid / 4 * 4 + (lid % 4 + i) % 4
  }

  /** The words of group y. */
  function Group(s: seq<bv32>, y: nat): Words
    requires |s| == WORDS_PER_BLOCK && y < BLOCKS
  {
    Words(s[4 * y], s[4 * y + 1], s[4 * y + 2], s[4 * y + 3])
  }

  /** What one statement of a full round makes of word lid. */
  function RoundWord(tb: Tables, s: seq<bv32>, rk: seq<bv32>, r: nat, lid: nat): bv32
    requires |s| == WORDS_PER_BLOCK && lid < WORDS_PER_BLOCK && 4 * r + 4 <= |rk|
  {
    Lookup(tb.te0, tb.te1, tb.te2, tb.te3, s[lid], s[Neighbour(lid, 1)], s[Neighbour(lid, 2)], s[Neighbour(lid, 3)], rk[4 * r + lid % 4])
  }

  function FinalWord(tb: Tables, s: seq<bv32>, rk: seq<bv32>, r: nat, lid: nat): bv32
    requires |s| == WORDS_PER_BLOCK && lid < WORDS_PER_BLOCK && 4 * r + 4 <= |rk|
  {
    LastLookup(tb.te4, s[lid], s[Neighbour(lid, 1)], s[Neighbour(lid, 2)], s[Neighbour(lid, 3)], rk[4 * r + lid % 4])
  }

  lemma Lanes(y: nat)
    ensures Neighbour(4 * y, 1) == 4 * y + 1 && Neighbour(4 * y, 2) == 4 * y + 2 && Neighbour(4 * y, 3) == 4 * y + 3
    ensures Neighbour(4 * y + 1, 1) == 4 * y + 2 && Neighbour(4 * y + 1, 2) == 4 * y + 3 && Neighbour(4 * y + 1, 3) == 4 * y
    ensures Neighbour(4 * y + 2, 1) == 4 * y + 3 && Neighbour(4 * y + 2, 2) == 4 * y && Neighbour(4 * y + 2, 3) == 4 * y + 1
    ensures Neighbour(4 * y + 3, 1) == 4 * y && Neighbour(4 * y + 3, 2) == 4 * y + 1 && Neighbour(4 * y + 3, 3) == 4 * y + 2
    ensures (4 * y) % 4 == 0 && (4 * y + 1) % 4 == 1 && (4 * y + 2) % 4 == 2 && (4 * y + 3) % 4 == 3
  {
  }

  /** The four threads of a group do one round of their block. */
  lemma GroupRound(tb: Tables, s: seq<bv32>, t: seq<bv32>, rk: seq<bv32>, r: nat, y: nat)
    requires |s| == |t| == WORDS_PER_BLOCK && y < BLOCKS && 4 * r + 4 <= |rk|
    requires forall lid: nat :: lid < WORDS_PER_BLOCK ==> t[lid] == RoundWord(tb, s, rk, r, lid)
    ensures Group(t, y) == EncWords(tb, Group(s, y), KeyWords(rk, r))
  {
    Lanes(y);
    assert t[4 * y] == RoundWord(tb, s, rk, r, 4 * y);
    assert t[4 * y + 1] == RoundWord(tb, s, rk, r, 4 * y + 1);
    assert t[4 * y + 2] == RoundWord(tb, s, rk, r, 4 * y + 2);
    assert t[4 * y + 3] == RoundWord(tb, s, rk, r, 4 * y + 3);
  }

  lemma GroupFinal(tb: Tables, s: seq<bv32>, t: seq<bv32>, rk: seq<bv32>, r: nat, y: nat)
    requires |s| == |t| == WORDS_PER_BLOCK && y < BLOCKS && 4 * r + 4 <= |rk|
    requires forall lid: nat :: lid < WORDS_PER_BLOCK ==> t[lid] == FinalWord(tb, s, rk, r, lid)
    ensures Group(t, y) == EncLast(tb, Group(s, y), KeyWords(rk, r))
  {
    Lanes(y);
    assert t[4 * y] == FinalWord(tb, s, rk, r, 4 * y);
    assert t[4 * y + 1] == FinalWord(tb, s, rk, r, 4 * y + 1);
    assert t[4 * y + 2] == FinalWord(tb, s, rk, r, 4 * y + 2);
    assert t[4 * y + 3] == FinalWord(tb, s, rk, r, 4 * y + 3);
  }

  // ---- Statements run by all threads ----

  /** states(y) is the run of block y; all blocks have done r rounds. */
  ghost predicate AtRound(s: seq<bv32>, states: nat -> (nat -> Block), r: nat)
    requires |s| == WORDS_PER_BLOCK
  {
    forall y: nat :: y < BLOCKS ==> ToBlock(Group(s, y)) == states(y)(r)
  }

  ghost predicate AllRun(sb: Sbox, rk: seq<bv32>, states: nat -> (nat -> Block)) {
    forall y: nat :: IsRun(states(y), EncRounds(sb), Keys(rk))
  }

  lemma StatesStep(tb: Tables, sb: Sbox, rk: seq<bv32>, s: seq<bv32>, t: seq<bv32>, r: nat, states: nat -> (nat -> Block))
    requires |s| == |t| == WORDS_PER_BLOCK && TablesFor(tb, sb) && r > 0 && 4 * r + 4 <= |rk|
    requires forall lid: nat :: lid < WORDS_PER_BLOCK ==> t[lid] == RoundWord(tb, s, rk, r, lid)
    requires AllRun(sb, rk, states) && AtRound(s, states, r - 1)
    ensures AtRound(t, states, r)
  {
    forall y: nat | y < BLOCKS
      ensures ToBlock(Group(t, y)) == states(y)(r)
    {
      GroupRound(tb, s, t, rk, r, y);
      EncWordsMeaning(tb, sb, Group(s, y), KeyWords(rk, r));
      assert IsRun(states(y), EncRounds(sb), Keys(rk));
      assert RunsAt(states(y), EncRounds(sb), Keys(rk), r);
    }
  }

  /** The statement of one thread. */
  method ThreadStep(tb: Tables, rk: seq<bv32>, s: array<bv32>, t: array<bv32>, r: nat, lid: nat)
    requires s != t && s.Length == t.Length == WORDS_PER_BLOCK && 4 * r + 4 <= |rk| && lid < WORDS_PER_BLOCK
    modifies t
    ensures t[..] == old(t[..])[lid := RoundWord(tb, s[..], rk, r, lid)]
  {
    t[lid] := Lookup(tb.te0, tb.te1, tb.te2, tb.te3,
                     s[lid], s[Neighbour(lid, 1)], s[Neighbour(lid, 2)], s[Neighbour(lid, 3)], rk[4 * r + lid % 4]);
  }

  method LockStep(tb: Tables, rk: seq<bv32>, s: array<bv32>, t: array<bv32>, r: nat)
    requires s != t && s.Length == t.Length == WORDS_PER_BLOCK && 4 * r + 4 <= |rk|
    modifies t
    ensures forall lid: nat :: lid < WORDS_PER_BLOCK ==> t[lid] == RoundWord(tb, s[..], rk, r, lid)
  {
    ghost var was := s[..];
    for lid: nat := 0 to WORDS_PER_BLOCK
      invariant s[..] == was
      invariant forall k: nat :: k < lid ==> t[..][k] == RoundWord(tb, was, rk, r, k)
    {
      ThreadStep(tb, rk, s, t, r, lid);
    }
  }

  method RoundStep(tb: Tables, ghost sb: Sbox, rk: seq<bv32>, s: array<bv32>, t: array<bv32>, r: nat, ghost states: nat -> (nat -> Block))
    requires s != t && s.Length == t.Length == WORDS_PER_BLOCK && TablesFor(tb, sb) && r > 0 && 4 * r + 4 <= |rk|
    requires AllRun(sb, rk, states) && AtRound(s[..], states, r - 1)
    modifies t
    ensures AtRound(t[..], states, r)
  {
    LockStep(tb, rk, s, t, r);
    StatesStep(tb, sb, rk, s[..], t[..], r, states);
  }

  method FinalStep(tb: Tables, rk: seq<bv32>, t: array<bv32>, s: array<bv32>, r: nat)
    requires s != t && s.Length == t.Length == WORDS_PER_BLOCK && 4 * r + 4 <= |rk|
    modifies s
    ensures forall y: nat :: y < BLOCKS ==> Group(s[..], y) == EncLast(tb, Group(t[..], y), KeyWords(rk, r))
  {
    ghost var was := t[..];
    for lid: nat := 0 to WORDS_PER_BLOCK
      invariant t[..] == was
      invariant forall k: nat :: k < lid ==> s[k] == FinalWord(tb, was, rk, r, k)
    {
      s[lid] := LastLookup(tb.te4, t[lid], t[Neighbour(lid, 1)], t[Neighbour(lid, 2)], t[Neighbour(lid, 3)], rk[4 * r + lid % 4]);
    }
    forall y: nat | y < BLOCKS
      ensures Group(s[..], y) == EncLast(tb, Group(t[..], y), KeyWords(rk, r))
    {
      GroupFinal(tb, was, s[..], rk, r, y);
    }
  }

  /** The full rounds, from array s to array t and back. */
  method RoundSteps(tb: Tables, ghost sb: Sbox, rk: seq<bv32>, nrounds: nat, s: array<bv32>, t: array<bv32>,
                    ghost states: nat -> (nat -> Block))
    requires s != t && s.Length == t.Length == WORDS_PER_BLOCK && TablesFor(tb, sb) && Rounds(nrounds) && 4 * nrounds + 4 <= |rk|
    requires AllRun(sb, rk, states) && AtRound(s[..], states, 0)
    modifies s, t
    ensures AtRound(t[..], states, nrounds - 1)
  {
    RoundStep(tb, sb, rk, s, t, 1, states);
    RoundStep(tb, sb, rk, t, s, 2, states);
    RoundStep(tb, sb, rk, s, t, 3, states);
    RoundStep(tb, sb, rk, t, s, 4, states);
    RoundStep(tb, sb, rk, s, t, 5, states);
    RoundStep(tb, sb, rk, t, s, 6, states);
    RoundStep(tb, sb, rk, s, t, 7, states);
    RoundStep(tb, sb, rk, t, s, 8, states);
    RoundStep(tb, sb, rk, s, t, 9, states);
    if nrounds > 10 {
      RoundStep(tb, sb, rk, t, s, 10, states);
      RoundStep(tb, sb, rk, s, t, 11, states);
      if nrounds > 12 {
        RoundStep(tb, sb, rk, t, s, 12, states);
        RoundStep(tb, sb, rk, s, t, 13, states);
      }
    }
  }

  // ---- From the text to the shared words and back ----

  /** Byte position of block y of grid block bid: here packets have no header. */
  function BlockStart(bid: nat, y: nat): nat {
    4 * (bid * WORDS_PER_BLOCK) + 16 * y
  }

  function ColAt(text: seq<bv8>, at: nat): Col
    requires at + 4 <= |text|
  {
    Col(text[at], text[at + 1], text[at + 2], text[at + 3])
  }

  method LoadStep(rk: seq<bv32>, text: array<bv8>, bid: nat, s: array<bv32>)
    requires BlockStart(bid + 1, 0) <= text.Length && s.Length == WORDS_PER_BLOCK && 4 <= |rk|
    modifies s
    ensures forall y: nat :: y < BLOCKS ==>
      ToBlock(Group(s[..], y)) == Xor(BlockOf(Get(text[..], BlockStart(bid, y))), Keys(rk)(0))
  {
    ghost var was := text[..];
    for lid: nat := 0 to WORDS_PER_BLOCK
      invariant text[..] == was
      invariant forall k: nat :: k < lid ==> Unpack(s[k]) == XorCol(ColAt(was, BlockStart(bid, 0) + 4 * k), Unpack(rk[k % 4]))
    {
      var w := LoadWord(text, BlockStart(bid, 0) + 4 * lid);
      s[lid] := XorWord(Swap(w), rk[lid % 4]);
      XorWordMeaning(Swap(w), rk[lid % 4]);
    }
    forall y: nat | y < BLOCKS
      ensures ToBlock(Group(s[..], y)) == Xor(BlockOf(Get(was, BlockStart(bid, y))), Keys(rk)(0))
    {
      forall k: nat
        ensures Loaded(rk, was, BlockStart(bid, 0), s[..], k)
      {
      }
      GroupLoaded(rk, was, BlockStart(bid, 0), s[..], y);
    }
  }

  lemma BlockOfColumns(text: seq<bv8>, at: nat)
    requires at + 16 <= |text|
    ensures BlockOf(Get(text, at)) == Block(ColAt(text, at), ColAt(text, at + 4), ColAt(text, at + 8), ColAt(text, at + 12))
  {
  }

  ghost predicate Loaded(rk: seq<bv32>, text: seq<bv8>, start: nat, s: seq<bv32>, k: nat)
    requires |s| == WORDS_PER_BLOCK && 4 <= |rk| && start + 4 * WORDS_PER_BLOCK <= |text|
  {
    k < WORDS_PER_BLOCK ==> Unpack(s[k]) == XorCol(ColAt(text, start + 4 * k), Unpack(rk[k % 4]))
  }

  lemma Mod4(y: nat)
    ensures (4 * y) % 4 == 0 && (4 * y + 1) % 4 == 1 && (4 * y + 2) % 4 == 2 && (4 * y + 3) % 4 == 3
  {
  }

  lemma GroupOfColumns(rk: seq<bv32>, s: seq<bv32>, y: nat, b: Block)
    requires |s| == WORDS_PER_BLOCK && 4 <= |rk| && y < BLOCKS
    requires Unpack(s[4 * y]) == XorCol(b.c0, Unpack(rk[0])) && Unpack(s[4 * y + 1]) == XorCol(b.c1, Unpack(rk[1]))
    requires Unpack(s[4 * y + 2]) == XorCol(b.c2, Unpack(rk[2])) && Unpack(s[4 * y + 3]) == XorCol(b.c3, Unpack(rk[3]))
    ensures ToBlock(Group(s, y)) == Xor(b, Keys(rk)(0))
  {
  }

  lemma GroupLoaded(rk: seq<bv32>, text: seq<bv8>, start: nat, s: seq<bv32>, y: nat)
    requires start + 4 * WORDS_PER_BLOCK <= |text| && |s| == WORDS_PER_BLOCK && 4 <= |rk| && y < BLOCKS
    requires forall k: nat :: Loaded(rk, text, start, s, k)
    ensures ToBlock(Group(s, y)) == Xor(BlockOf(Get(text, start + 16 * y)), Keys(rk)(0))
  {
    Mod4(y);
    BlockOfColumns(text, start + 16 * y);
    assert Loaded(rk, text, start, s, 4 * y);
    assert Loaded(rk, text, start, s, 4 * y + 1);
    assert Loaded(rk, text, start, s, 4 * y + 2);
    assert Loaded(rk, text, start, s, 4 * y + 3);
    GroupOfColumns(rk, s, y, BlockOf(Get(text, start + 16 * y)));
  }

  method StoreStep(text: array<bv8>, bid: nat, s: array<bv32>)
    requires BlockStart(bid + 1, 0) <= text.Length && s.Length == WORDS_PER_BLOCK
    modifies text
    ensures forall y: nat :: y < BLOCKS ==> Get(text[..], BlockStart(bid, y)) == BytesOf(ToBlock(Group(s[..], y)))
    ensures forall k :: 0 <= k < text.Length && (k < BlockStart(bid, 0) || k >= BlockStart(bid + 1, 0)) ==> text[k] == old(text[k])
  {
    var start := BlockStart(bid, 0);
    ghost var words := s[..];
    for lid: nat := 0 to WORDS_PER_BLOCK
      invariant forall k: nat :: k < lid ==> Stored(text[..], start, words, k)
      invariant forall k :: 0 <= k < text.Length && (k < start || k >= BlockStart(bid + 1, 0)) ==> text[k] == old(text[k])
    {
      ghost var was := text[..];
      StoreWord(text, start + 4 * lid, Swap(s[lid]));
      SwapTwice(s[lid]);
      forall k: nat | k < lid
        ensures Stored(text[..], start, words, k)
      {
        assert Stored(was, start, words, k);
      }
    }
    forall y: nat | y < BLOCKS
      ensures Get(text[..], BlockStart(bid, y)) == BytesOf(ToBlock(Group(s[..], y)))
    {
      GroupStored(text[..], start, words, y);
    }
  }

  ghost predicate Stored(text: seq<bv8>, start: nat, s: seq<bv32>, k: nat)
    requires |s| == WORDS_PER_BLOCK && start + 4 * WORDS_PER_BLOCK <= |text|
  {
    k < WORDS_PER_BLOCK ==> ColAt(text, start + 4 * k) == Unpack(s[k])
  }

  lemma GroupStored(text: seq<bv8>, start: nat, s: seq<bv32>, y: nat)
    requires start + 4 * WORDS_PER_BLOCK <= |text| && |s| == WORDS_PER_BLOCK && y < BLOCKS
    requires forall k: nat :: k < WORDS_PER_BLOCK ==> Stored(text, start, s, k)
    ensures Get(text, start + 16 * y) == BytesOf(ToBlock(Group(s, y)))
  {
    var at := start + 16 * y;
    BlockOfColumns(text, at);
    BytesOfBlock(Get(text, at));
    assert Stored(text, start, s, 4 * y);
    assert Stored(text, start, s, 4 * y + 1);
    assert Stored(text, start, s, 4 * y + 2);
    assert Stored(text, start, s, 4 * y + 3);
  }

  function FirstState(rk: seq<bv32>, text: seq<bv8>, bid: nat, y: nat): Block
    requires BlockStart(bid + 1, 0) <= |text|
  {
    if y < BLOCKS then Xor(BlockOf(Get(text, BlockStart(bid, y))), Keys(rk)(0)) else Keys(rk)(0)
  }

  /** The runs of all blocks of a text. */
  ghost function RunsOf(round: (Block, Block) -> Block, keys: nat -> Block, first: nat -> Block): (states: nat -> (nat -> Block))
    ensures forall y: nat :: IsRun(states(y), round, keys)
    ensures forall y: nat :: states(y)(0) == first(y)
  {
    assert forall y: nat :: IsRun(RunFrom(round, keys, first(y)), round, keys);
    assert forall y: nat :: RunFrom(round, keys, first(y))(0) == first(y);
    var states := (y: nat) => RunFrom(round, keys, first(y));
    assert forall y: nat :: states(y) == RunFrom(round, keys, first(y));
    states
  }

  ghost function RunOf(sb: Sbox, rk: seq<bv32>, text: seq<bv8>, bid: nat): nat -> (nat -> Block)
    requires BlockStart(bid + 1, 0) <= |text|
  {
    RunsOf(EncRounds(sb), Keys(rk), (y: nat) => FirstState(rk, text, bid, y))
  }

  lemma RunsBegin(sb: Sbox, rk: seq<bv32>, text: seq<bv8>, bid: nat, s: seq<bv32>)
    requires BlockStart(bid + 1, 0) <= |text| && |s| == WORDS_PER_BLOCK
    requires forall y: nat :: y < BLOCKS ==> ToBlock(Group(s, y)) == Xor(BlockOf(Get(text, BlockStart(bid, y))), Keys(rk)(0))
    ensures AllRun(sb, rk, RunOf(sb, rk, text, bid)) && AtRound(s, RunOf(sb, rk, text, bid), 0)
  {
    var states := RunOf(sb, rk, text, bid);
    forall y: nat
      ensures IsRun(states(y), EncRounds(sb), Keys(rk))
    {
    }
    forall y: nat | y < BLOCKS
      ensures ToBlock(Group(s, y)) == states(y)(0)
    {
      assert states(y)(0) == FirstState(rk, text, bid, y);
    }
  }

  lemma RunsFinish(tb: Tables, sb: Sbox, rk: seq<bv32>, nrounds: nat, text: seq<bv8>, bid: nat, t: Words, out: Words, y: nat)
    requires Runnable(tb, sb, rk, nrounds) && BlockStart(bid + 1, 0) <= |text| && y < BLOCKS
    requires ToBlock(t) == RunOf(sb, rk, text, bid)(y)(nrounds - 1) && out == EncLast(tb, t, KeyWords(rk, nrounds))
    ensures ToBlock(out) == Cipher(sb, Keys(rk), nrounds, BlockOf(Get(text, BlockStart(bid, y))))
  {
    EncLastMeaning(tb, sb, t, KeyWords(rk, nrounds));
    CipherOfRun(sb, Keys(rk), nrounds, BlockOf(Get(text, BlockStart(bid, y))), ToBlock(t), ToBlock(out));
  }

  /** From the loaded words to the encrypted ones, in shared memory. */
  method EncryptShared(tb: Tables, ghost sb: Sbox, rk: seq<bv32>, nrounds: nat, ghost was: seq<bv8>, bid: nat, s: array<bv32>)
    requires Runnable(tb, sb, rk, nrounds) && BlockStart(bid + 1, 0) <= |was| && s.Length == WORDS_PER_BLOCK
    requires forall y: nat :: y < BLOCKS ==>
      ToBlock(Group(s[..], y)) == Xor(BlockOf(Get(was, BlockStart(bid, y))), Keys(rk)(0))
    modifies s
    ensures forall y: nat :: y < BLOCKS ==>
      ToBlock(Group(s[..], y)) == Cipher(sb, Keys(rk), nrounds, BlockOf(Get(was, BlockStart(bid, y))))
  {
    ghost var states := RunOf(sb, rk, was, bid);
    RunsBegin(sb, rk, was, bid, s[..]);
    var t := new bv32[WORDS_PER_BLOCK];
    RoundSteps(tb, sb, rk, nrounds, s, t, states);
    FinalStep(tb, rk, t, s, nrounds);
    forall y: nat | y < BLOCKS
      ensures ToBlock(Group(s[..], y)) == Cipher(sb, Keys(rk), nrounds, BlockOf(Get(was, BlockStart(bid, y))))
    {
      RunsFinish(tb, sb, rk, nrounds, was, bid, Group(t[..], y), Group(s[..], y), y);
    }
  }

  /**
   * aes_encrypt_bp4t for one grid block: every 16-byte block becomes what a
   * single thread of aes_encrypt_bpt makes of it.
   */
  method EncryptFourThreads(tb: Tables, ghost sb: Sbox, rk: seq<bv32>, nrounds: nat, text: array<bv8>, bid: nat)
    requires Runnable(tb, sb, rk, nrounds) && 1024 * bid + 1024 <= text.Length
    modifies text
    ensures forall y: nat :: y < 64 ==>
      BlockStart(bid, y) == 1024 * bid + 16 * y &&
      Get(text[..], BlockStart(bid, y)) == Encrypting(sb, rk, nrounds)(y, Get(old(text[..]), BlockStart(bid, y)))
    ensures forall k :: 0 <= k < text.Length && (k < 1024 * bid || k >= 1024 * bid + 1024) ==> text[k] == old(text[k])
  {
    ghost var was := text[..];
    var s := new bv32[WORDS_PER_BLOCK];
    LoadStep(rk, text, bid, s);
    EncryptShared(tb, sb, rk, nrounds, was, bid, s);
    StoreStep(text, bid, s);
  }
}
