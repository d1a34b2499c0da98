/**
 * Slots and pages: which page the kernel and the GPU find at a slot, and when all
 * buffers lie in memory that is mapped.
 */
module SlotPages {
  import opened Wrappers
  import opened Slots
  import opened SlotRuns
  import opened SlotLeaks
  import G = GpuPages

  // ---- The page of a slot ----

  /** The page at a kernel address: vmap puts page k of the array at kva + k * 0x1000. */
  function KernelPage(pages: seq<nat>, kva: Addr, a: Addr): Option<nat> {
    var k := Minus(a, kva) / SKB_SIZE;
    if k < |pages| then Some(pages[k]) else None
  }

  /** The page at an offset into the GPU's own memory, which is the range that was walked. */
  function GpuPage(start: nat, offset: nat): nat {
    start + offset / SKB_SIZE
  }

  lemma SlotByte(kva: Addr, i: nat, d: nat)
    requires i < MAX_SKBS && d < SKB_SIZE
    ensures Minus(Plus(SlotAddr(kva, i), d), kva) == i * SKB_SIZE + d
  {
  }

  /** The first pages of the range up to page i are usable. */
  ghost predicate UsableTo(h: nat -> bool, present: nat -> bool, start: nat, end: nat, i: nat) {
    start + i < end && forall page: nat :: start <= page <= start + i ==> G.Usable(h, present, page)
  }

  /**
   * Byte d of slot i is in the page that the GPU finds at offset i * 0x1000 + d
   * exactly when all pages of the range up to that one are usable.
   */
  lemma SamePage(h: nat -> bool, present: nat -> bool, start: nat, end: nat, kva: Addr, i: nat, d: nat)
    requires start <= end && i < MAX_SKBS && d < SKB_SIZE
    ensures KernelPage(G.PresentPages(h, present, start, end), kva, Plus(SlotAddr(kva, i), d)) == Some(GpuPage(start, i * 0x1000 + d))
       <==> UsableTo(h, present, start, end, i)
  {
    var pages := G.PresentPages(h, present, start, end);
    SlotByte(kva, i, d);
    assert (i * SKB_SIZE + d) / SKB_SIZE == i;
    if i < |pages| {
      G.SlotIsPage(h, present, start, end, i);
    } else if UsableTo(h, present, start, end, i) {
      G.SlotReached(h, present, start, end, i);
    }
  }

  /** Of 32 MB of usable pages, it is for every byte of every slot. */
  lemma AllSlotsArePages(h: nat -> bool, present: nat -> bool, start: nat, kva: Addr, i: nat, d: nat)
    requires forall page: nat :: start <= page < start + MAX_SKBS ==> G.Usable(h, present, page)
    requires i < MAX_SKBS && d < SKB_SIZE
    ensures KernelPage(G.PresentPages(h, present, start, start + MAX_SKBS), kva, Plus(SlotAddr(kva, i), d))
         == Some(GpuPage(start, i * 0x1000 + d))
  {
    SamePage(h, present, start, start + MAX_SKBS, kva, i, d);
  }

  // ---- Buffers in mapped memory ----

  ghost predicate ByteMapped(w: World, n: nat, id: nat, a: Addr) {
    id in w.live && w.live[id].slot != 0 && Holds(w.live[id].skb, a) ==> Minus(a, w.pool.kva) < n * SKB_SIZE
  }

  /** All bytes of switched buffers lie in the first n pages of the mapping. */
  ghost predicate BuffersMapped(w: World, n: nat) {
    forall id, a :: ByteMapped(w, n, id, a)
  }

  lemma WithinSlot(kva: Addr, i: nat, a: Addr)
    requires i < MAX_SKBS && Minus(a, SlotAddr(kva, i)) < SKB_SIZE
    ensures Minus(a, kva) < (i + 1) * SKB_SIZE
  {
    PlusMinus(SlotAddr(kva, i), a);
    SlotByte(kva, i, Minus(a, SlotAddr(kva, i)));
  }

  lemma FullIsEnough(w: World, n: nat)
    requires Kept(w) && n >= MAX_SKBS
    ensures BuffersMapped(w, n)
  {
    forall id, a
      ensures ByteMapped(w, n, id, a)
    {
      if id in w.live && w.live[id].slot != 0 && Holds(w.live[id].skb, a) {
        assert BufferKept(w, id);
        LengthKept(w.pool, w.live[id]);
        WithinSlot(w.pool.kva, w.live[id].slot, a);
      }
    }
  }

  /** Buffers 1 to k are live, in the slots of these numbers. */
  ghost predicate FilledTo(w: World, kva: Addr, k: nat) {
    && 1 <= k < MAX_SKBS && kva != 0 && w.pool.WellFormed() && w.pool.next == k && w.pool.kva == kva && w.pool.running
    && (forall i :: 0 <= i < MAX_SKBS ==> (w.pool.slots[i] != 0 <==> 1 <= i <= k))
    && (forall id :: id in w.live ==> id <= k)
    && k in w.live && w.live[k] == Live(SwitchedTo(Native(kva, k), SlotAddr(kva, k)), Native(kva, k), k, false)
  }

  function Fill(kva: Addr, k: nat): seq<Event>
    requires k < MAX_SKBS
  {
    if k <= 1 then Climb(kva, 1) else Fill(kva, k - 1) + [Alloc(k, Native(kva, k))]
  }

  lemma FillNext(w: World, kva: Addr, k: nat)
    requires FilledTo(w, kva, k) && k + 1 < MAX_SKBS && kva % SKB_SIZE == 0
    ensures var e := [Alloc(k + 1, Native(kva, k + 1))];
      Run(w, e).Some? && FilledTo(Run(w, e).value, kva, k + 1)
  {
    var a := Alloc(k + 1, Native(kva, k + 1));
    NativeOutside(kva, k + 1);
    NextIsFree(w.pool);
    assert Switches(w.pool, Native(kva, k + 1));
    assert [a][1..] == [];
    assert Run(w, [a]) == Run(Apply(w, a), []);
  }

  lemma AtSlotOne(w: World, kva: Addr)
    requires AtSlot(w, kva, 1)
    ensures kva % SKB_SIZE == 0 ==> FilledTo(w, kva, 1)
  {
    if kva % SKB_SIZE == 0 {
      NativeOutside(kva, 1);
    }
  }

  lemma FillFirst(kva: Addr)
    requires kva != 0 && kva % SKB_SIZE == 0
    ensures Run(INITIAL, Fill(kva, 1)).Some? && FilledTo(Run(INITIAL, Fill(kva, 1)).value, kva, 1)
    ensures MapsAt(Fill(kva, 1), kva)
  {
    ClimbFirst(kva);
    AtSlotOne(Run(INITIAL, Climb(kva, 1)).value, kva);
  }

  lemma {:induction false} FillReaches(kva: Addr, k: nat)
    requires kva != 0 && kva % SKB_SIZE == 0 && 1 <= k < MAX_SKBS
    ensures Run(INITIAL, Fill(kva, k)).Some? && FilledTo(Run(INITIAL, Fill(kva, k)).value, kva, k)
    ensures MapsAt(Fill(kva, k), kva)
  {
    if k == 1 {
      FillFirst(kva);
    } else {
      FillReaches(kva, k - 1);
      FillNext(Run(INITIAL, Fill(kva, k - 1)).value, kva, k - 1);
      RunAppend(INITIAL, Fill(kva, k - 1), [Alloc(k, Native(kva, k))]);
    }
  }

  ghost predicate MappedAfter(w: World, kva: Addr, n: nat, events: seq<Event>) {
    Run(w, events).Some? && MapsAt(events, kva) ==> BuffersMapped(Run(w, events).value, n)
  }

  /** In all runs over the mapping, every switched buffer lies in its first n pages. */
  ghost predicate AlwaysMapped(w: World, kva: Addr, n: nat) {
    forall events :: MappedAfter(w, kva, n, events)
  }

  /** The last slot, when all are in use, lies past any smaller mapping. */
  lemma LastSlotUnmapped(kva: Addr, n: nat)
    requires kva != 0 && kva % SKB_SIZE == 0 && n < MAX_SKBS
    ensures !MappedAfter(INITIAL, kva, n, Fill(kva, MAX_SKBS - 1))
  {
    var k := MAX_SKBS - 1;
    FillReaches(kva, k);
    LastIsOutside(Run(INITIAL, Fill(kva, k)).value, kva, k, n);
  }

  lemma LastIsOutside(w: World, kva: Addr, k: nat, n: nat)
    requires FilledTo(w, kva, k) && n <= k && kva % SKB_SIZE == 0
    ensures !BuffersMapped(w, n)
  {
    SlotByte(kva, k, 0);
    FirstByteHeld(kva, k, SlotAddr(kva, k));
    assert !ByteMapped(w, n, k, w.live[k].skb.head);
  }

  lemma FirstByteHeld(kva: Addr, id: nat, head: Addr)
    requires kva % SKB_SIZE == 0 && id < MAX_SKBS
    ensures Holds(SwitchedTo(Native(kva, id), head), head)
  {
    NativeOutside(kva, id);
    PlusMinus(head, 0x100);
  }

  /** In all runs over a mapping of n pages every switched buffer lies in mapped pages iff there are 8192 of them. */
  lemma MappedIffFull(kva: Addr, n: nat)
    requires kva != 0 && kva % SKB_SIZE == 0
    ensures AlwaysMapped(INITIAL, kva, n) <==> n >= 8192
  {
    if n >= MAX_SKBS {
      forall events
        ensures MappedAfter(INITIAL, kva, n, events)
      {
        if Run(INITIAL, events).Some? {
          InitialKept();
          RunKeeps(INITIAL, events);
          FullIsEnough(Run(INITIAL, events).value, n);
        }
      }
    } else {
      LastSlotUnmapped(kva, n);
    }
  }

  /** So for a range of 32 MB, iff all of its pages are usable. */
  lemma MappedIffUsable(h: nat -> bool, present: nat -> bool, start: nat, kva: Addr)
    requires kva != 0 && kva % SKB_SIZE == 0
    ensures AlwaysMapped(INITIAL, kva, |G.PresentPages(h, present, start, start + 8192)|)
       <==> forall page: nat :: start <= page < start + 8192 ==> G.Usable(h, present, page)
  {
    G.PresentCount(h, present, start, start + MAX_SKBS);
    MappedIffFull(kva, |G.PresentPages(h, present, start, start + MAX_SKBS)|);
  }
}
