/**
 * A packet in memory as the kernels see it: 16-byte blocks from byte 32 on,
 * one for each thread of the launch.
 */
module Packet {
  /** Where packets carry their payload. */
  const HEADER := 32

  type Chunk = c: seq<bv8> | |c| == 16 witness seq(16, _ => 0)

  /** What the threads make of their blocks; it may depend on the thread. */
  type Kernel = (nat, Chunk) -> Chunk

  function Start(thread: nat): nat { HEADER + 16 * thread }

  function Get(text: seq<bv8>, at: nat): Chunk
    requires at + 16 <= |text|
  {
    text[at..at + 16]
  }

  function Put(text: seq<bv8>, at: nat, c: Chunk): (r: seq<bv8>)
    requires at + 16 <= |text|
    ensures |r| == |text|
  {
    text[..at] + c + text[at + 16..]
  }

  lemma PutGet(text: seq<bv8>, at: nat, c: Chunk)
    requires at + 16 <= |text|
    ensures Get(Put(text, at, c), at) == c
  {
  }

  lemma PutGetOther(text: seq<bv8>, at: nat, c: Chunk, other: nat)
    requires at + 16 <= |text| && other + 16 <= |text| && (other + 16 <= at || at + 16 <= other)
    ensures Get(Put(text, at, c), other) == Get(text, other)
  {
    var r := Put(text, at, c);
    if other + 16 <= at {
      assert forall k :: other <= k < other + 16 ==> r[k] == text[k];
    } else {
      assert forall k :: other <= k < other + 16 ==> r[k] == text[at + 16..][k - at - 16] == text[k];
    }
  }

  /** The first n blocks each replaced by what their thread makes of them. */
  function MapBlocks(f: Kernel, text: seq<bv8>, n: nat): (r: seq<bv8>)
    requires Start(n) <= |text|
    ensures |r| == |text|
  {
    if n == 0 then text
    else Put(MapBlocks(f, text, n - 1), Start(n - 1), f(n - 1, Get(text, Start(n - 1))))
  }

  /** Blocks below n are mapped and no others. */
  lemma {:induction false} MapBlocksAt(f: Kernel, text: seq<bv8>, n: nat, i: nat)
    requires Start(n) <= |text| && Start(i + 1) <= |text|
    ensures Get(MapBlocks(f, text, n), Start(i)) == if i < n then f(i, Get(text, Start(i))) else Get(text, Start(i))
  {
    if n > 0 {
      var m, c := MapBlocks(f, text, n - 1), f(n - 1, Get(text, Start(n - 1)));
      MapBlocksAt(f, text, n - 1, i);
      if i == n - 1 {
        PutGet(m, Start(i), c);
      } else {
        PutGetOther(m, Start(n - 1), c, Start(i));
      }
    }
  }

  /** Bytes before the first and after the last block are as they were. */
  lemma {:induction false} MapBlocksFrame(f: Kernel, text: seq<bv8>, n: nat, k: nat)
    requires Start(n) <= |text| && k < |text| && (k < HEADER || k >= Start(n))
    ensures MapBlocks(f, text, n)[k] == text[k]
  {
    if n > 0 {
      MapBlocksFrame(f, text, n - 1, k);
    }
  }

  /** n blocks in a row, block i replaced by what thread i makes of it. */
  function MapChunks(f: Kernel, s: seq<bv8>, n: nat): (r: seq<bv8>)
    requires |s| == 16 * n
    ensures |r| == |s|
  {
    if n == 0 then [] else MapChunks(f, s[..16 * (n - 1)], n - 1) + f(n - 1, s[16 * (n - 1)..])
  }

  lemma {:induction false} MapChunksAt(f: Kernel, s: seq<bv8>, n: nat, i: nat)
    requires |s| == 16 * n && i < n
    ensures MapChunks(f, s, n)[16 * i..16 * i + 16] == f(i, s[16 * i..16 * i + 16])
  {
    var m, rest := MapChunks(f, s, n), s[..16 * (n - 1)];
    if i < n - 1 {
      MapChunksAt(f, rest, n - 1, i);
      assert m[16 * i..16 * i + 16] == MapChunks(f, rest, n - 1)[16 * i..16 * i + 16];
      assert rest[16 * i..16 * i + 16] == s[16 * i..16 * i + 16];
    } else {
      assert s[16 * i..] == s[16 * i..16 * i + 16];
    }
  }

  /** With the position of the payload written out: bytes 32 to 31 + 16 * n are replaced block by block, all others stay. */
  lemma {:induction false} MapBlocksWhole(f: Kernel, text: seq<bv8>, n: nat)
    requires 32 + 16 * n <= |text|
    ensures MapBlocks(f, text, n) == text[..32] + MapChunks(f, text[32..32 + 16 * n], n) + text[32 + 16 * n..]
  {
    if n > 0 {
      MapBlocksWhole(f, text, n - 1);
      var s, at := text[32..32 + 16 * n], 32 + 16 * (n - 1);
      assert s[..16 * (n - 1)] == text[32..at];
      assert s[16 * (n - 1)..] == Get(text, Start(n - 1));
      var m := MapBlocks(f, text, n - 1);
      assert m[..at] == text[..32] + MapChunks(f, text[32..at], n - 1);
      assert m[at + 16..] == text[32 + 16 * n..];
    }
  }

  /** One more thread: it may read its block from the packet as the others left it. */
  lemma MapBlocksStep(f: Kernel, text: seq<bv8>, n: nat)
    requires Start(n + 1) <= |text|
    ensures MapBlocks(f, text, n + 1)
         == Put(MapBlocks(f, text, n), Start(n), f(n, Get(MapBlocks(f, text, n), Start(n))))
  {
    MapBlocksAt(f, text, n, n);
  }

  predicate Undoes(f: Kernel, g: Kernel, i: nat, c: Chunk) {
    g(i, f(i, c)) == c
  }

  /** Packets agree when they do on every block and on all other bytes. */
  lemma SameByBlocks(r: seq<bv8>, text: seq<bv8>, n: nat)
    requires Start(n) <= |text| == |r|
    requires forall k :: 0 <= k < |text| && (k < HEADER || k >= Start(n)) ==> r[k] == text[k]
    requires forall i: nat :: i < n ==> Get(r, Start(i)) == Get(text, Start(i))
    ensures r == text
  {
    forall k | HEADER <= k < Start(n)
      ensures r[k] == text[k]
    {
      var i := (k - HEADER) / 16;
      assert r[k] == Get(r, Start(i))[(k - HEADER) % 16] && text[k] == Get(text, Start(i))[(k - HEADER) % 16];
    }
  }

  /** Mapping back by a blockwise inverse restores the packet, byte for byte. */
  lemma MapBlocksUndone(f: Kernel, g: Kernel, text: seq<bv8>, n: nat)
    requires Start(n) <= |text| && forall i: nat, c: Chunk :: Undoes(f, g, i, c)
    ensures MapBlocks(g, MapBlocks(f, text, n), n) == text
  {
    var m := MapBlocks(f, text, n);
    var r := MapBlocks(g, m, n);
    forall k | 0 <= k < |text| && (k < HEADER || k >= Start(n))
      ensures r[k] == text[k]
    {
      MapBlocksFrame(f, text, n, k);
      MapBlocksFrame(g, m, n, k);
    }
    forall i: nat | i < n
      ensures Get(r, Start(i)) == Get(text, Start(i))
    {
      MapBlocksAt(f, text, n, i);
      MapBlocksAt(g, m, n, i);
      assert Undoes(f, g, i, Get(text, Start(i)));
    }
    SameByBlocks(r, text, n);
  }

  // ---- The order of the threads ----

  predicate Below(order: seq<nat>, n: nat) {
    forall k :: 0 <= k < |order| ==> order[k] < n
  }

  predicate Once(order: seq<nat>) {
    forall j, k :: 0 <= j < k < |order| ==> order[j] != order[k]
  }

  /** Threads in the given order, each working in place on what the earlier ones left. */
  function RunInOrder(f: Kernel, text: seq<bv8>, order: seq<nat>, n: nat): (r: seq<bv8>)
    requires Start(n) <= |text| && Below(order, n)
    ensures |r| == |text|
  {
    if order == [] then text
    else
      var m, i := RunInOrder(f, text, order[..|order| - 1], n), order[|order| - 1];
      Put(m, Start(i), f(i, Get(m, Start(i))))
  }

  lemma {:induction false} RunInOrderAt(f: Kernel, text: seq<bv8>, order: seq<nat>, n: nat, i: nat)
    requires Start(n) <= |text| && Below(order, n) && Once(order) && i < n
    ensures Get(RunInOrder(f, text, order, n), Start(i)) == if i in order then f(i, Get(text, Start(i))) else Get(text, Start(i))
  {
    if order != [] {
      var rest, last := order[..|order| - 1], order[|order| - 1];
      var m := RunInOrder(f, text, rest, n);
      RunInOrderAt(f, text, rest, n, i);
      assert i in order <==> i in rest || i == last;
      if i == last {
        PutGet(m, Start(i), f(i, Get(m, Start(i))));
      } else {
        PutGetOther(m, Start(last), f(last, Get(m, Start(last))), Start(i));
      }
    }
  }

  lemma {:induction false} RunInOrderFrame(f: Kernel, text: seq<bv8>, order: seq<nat>, n: nat, k: nat)
    requires Start(n) <= |text| && Below(order, n) && k < |text| && (k < HEADER || k >= Start(n))
    ensures RunInOrder(f, text, order, n)[k] == text[k]
  {
    if order != [] {
      RunInOrderFrame(f, text, order[..|order| - 1], n, k);
    }
  }

  /** Every order in which each of the n threads runs once gives the same packet. */
  lemma OrderFree(f: Kernel, text: seq<bv8>, order: seq<nat>, n: nat)
    requires Start(n) <= |text| && Below(order, n) && Once(order)
    requires forall i: nat :: i < n ==> i in order
    ensures RunInOrder(f, text, order, n) == MapBlocks(f, text, n)
  {
    var r, m := RunInOrder(f, text, order, n), MapBlocks(f, text, n);
    forall k | 0 <= k < |text| && (k < HEADER || k >= Start(n))
      ensures r[k] == m[k]
    {
      RunInOrderFrame(f, text, order, n, k);
      MapBlocksFrame(f, text, n, k);
    }
    forall i: nat | i < n
      ensures Get(r, Start(i)) == Get(m, Start(i))
    {
      RunInOrderAt(f, text, order, n, i);
      MapBlocksAt(f, text, n, i);
    }
    SameByBlocks(r, m, n);
  }
}
