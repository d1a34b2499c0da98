/**
 * The page walk over a range of bytes: its inner loop compares byte addresses for
 * equality, so that it ends only on ranges of whole pages.
 */
module ByteRange {
  import opened Bytes
  import opened FlatScan

  const PAGE_SIZE: nat := 0x1000

  /** Bytes that a third-level entry covers: PMD pages. */
  const PMD_SIZE: nat := 0x20_0000

  /** The loop of walk_pte_range meets end after k pages, on unsigned longs. */
  predicate MeetsAfter(addr: nat, end: nat, k: nat) {
    k > 0 && (addr + k * PAGE_SIZE) % TWO64 == end
  }

  /** It ends at all exactly when both addresses have the same offset in a page. */
  lemma LoopEnds(addr: nat, end: nat)
    requires addr < end < TWO64
    ensures (exists k: nat :: MeetsAfter(addr, end, k)) <==> addr % 0x1000 == end % 0x1000
  {
    if addr % PAGE_SIZE == end % PAGE_SIZE {
      var k := (end - addr) / PAGE_SIZE;
      assert addr + k * PAGE_SIZE == end;
      assert MeetsAfter(addr, end, k);
    }
    forall k: nat | MeetsAfter(addr, end, k)
      ensures addr % PAGE_SIZE == end % PAGE_SIZE
    {
      SameOffset(addr, k, end);
    }
  }

  lemma OffsetOf(x: int, q: int, r: int)
    requires x == q * PAGE_SIZE + r && 0 <= r < PAGE_SIZE
    ensures x % PAGE_SIZE == r
  {
  }

  lemma SameOffset(addr: nat, k: nat, end: nat)
    requires (addr + k * PAGE_SIZE) % TWO64 == end
    ensures addr % PAGE_SIZE == end % PAGE_SIZE
  {
    var p, r := addr / PAGE_SIZE, addr % PAGE_SIZE;
    var q := (addr + k * PAGE_SIZE) / TWO64;
    assert addr == p * PAGE_SIZE + r && addr + k * PAGE_SIZE == q * TWO64 + end;
    OffsetOf(end, p + k - q * 0x10_0000_0000_0000, r);
  }

  /** The loop ends in every table of a range, whose pieces walk_pmd_range makes at table boundaries. */
  predicate AllLoopsEnd(addr: nat, end: nat)
    requires addr < end
    decreases end - addr
  {
    var next := AddrEnd(PMD_SIZE, addr, end);
    addr % PAGE_SIZE == next % PAGE_SIZE && (next == end || AllLoopsEnd(next, end))
  }

  lemma BoundaryAfter(addr: nat)
    ensures ((addr / PMD_SIZE + 1) * PMD_SIZE) % PMD_SIZE == 0 && ((addr / PMD_SIZE + 1) * PMD_SIZE) % PAGE_SIZE == 0
    ensures addr % PMD_SIZE == 0 ==> addr % PAGE_SIZE == 0
  {
  }

  /** From a table boundary on, it does exactly for an end at a page boundary. */
  lemma {:induction false} LoopsFromBoundary(addr: nat, end: nat)
    requires addr < end && addr % PMD_SIZE == 0
    ensures AllLoopsEnd(addr, end) <==> end % PAGE_SIZE == 0
    decreases end - addr
  {
    var next := AddrEnd(PMD_SIZE, addr, end);
    BoundaryAfter(addr);
    if next != end {
      LoopsFromBoundary(next, end);
    }
  }

  /**
   * In a range mapped throughout, the walk ends exactly when the range starts and
   * ends at page boundaries, or lies in one table and has the same offset in a
   * page at both ends.
   */
  lemma WalkEnds(addr: nat, end: nat)
    requires addr < end
    ensures AllLoopsEnd(addr, end)
       <==> addr % 0x1000 == end % 0x1000 && (addr % 0x1000 == 0 || end <= (addr / 0x20_0000 + 1) * 0x20_0000)
  {
    var next := AddrEnd(PMD_SIZE, addr, end);
    BoundaryAfter(addr);
    if next != end {
      LoopsFromBoundary(next, end);
    }
  }
}
