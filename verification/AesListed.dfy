/**
 * The kernels with the tables they list: what they do to whole packets when
 * run one after the other.
 */
module AesListed {
  import opened AesSpec
  import opened AesWords
  import opened AesRounds
  import opened AesMemory
  import opened Packet
  import opened AesKernels
  import opened AesTables

  /** A decryption schedule for an encryption schedule, for the given number of rounds. */
  ghost predicate Schedules(ek: seq<bv32>, dk: seq<bv32>, nrounds: nat) {
    Rounds(nrounds) && 4 * nrounds + 4 <= |ek| && 4 * nrounds + 4 <= |dk| && Paired(Keys(ek), Keys(dk), nrounds)
  }

  method EncryptThenDecrypt(ek: seq<bv32>, dk: seq<bv32>, nrounds: nat, text: array<bv8>, n: nat)
    requires Schedules(ek, dk, nrounds) && Start(n) <= text.Length
    modifies text
    ensures text[..] == old(text[..])
  {
    TablesMatch();
    SboxBijective();
    EncryptPacket(TABLES, RIJNDAEL, ek, nrounds, text, n);
    DecryptPacket(TABLES, RIJNDAEL, dk, nrounds, text, n);
    PacketRestored(RIJNDAEL, ek, dk, nrounds, old(text[..]), n);
  }

  method XtsEncryptThenDecrypt(ek: seq<bv32>, dk: seq<bv32>, nrounds: nat, text: array<bv8>, ivs: seq<Words>, n: nat)
    requires Schedules(ek, dk, nrounds) && Start(n) <= text.Length && n <= |ivs|
    modifies text
    ensures text[..] == old(text[..])
  {
    TablesMatch();
    SboxBijective();
    XtsEncryptPacket(TABLES, RIJNDAEL, ek, nrounds, text, ivs, n);
    XtsDecryptPacket(TABLES, RIJNDAEL, dk, nrounds, text, ivs, n);
    XtsPacketRestored(RIJNDAEL, ek, dk, nrounds, ivs, old(text[..]), n);
  }

  method CtrTwice(rk: seq<bv32>, nrounds: nat, text: array<bv8>, ctr: Words, n: nat)
    requires Rounds(nrounds) && 4 * nrounds + 4 <= |rk| && Start(n) <= text.Length
    modifies text
    ensures text[..] == old(text[..])
  {
    TablesMatch();
    CtrPacket(TABLES, RIJNDAEL, rk, nrounds, text, ctr, n);
    CtrPacket(TABLES, RIJNDAEL, rk, nrounds, text, ctr, n);
    CtrPacketRestored(RIJNDAEL, rk, nrounds, ctr, old(text[..]), n);
  }
}
