/**
 * nfgpu_set_mempool: the walk that collects the pages of the GPU buffer, and
 * which page each slot then stands for.
 */
module GpuPages {
  import opened FlatScan
  import opened PageWalk

  /** NFGPU_MAX_PAGES: 32 MB in pages of 4 KB. */
  const MAX_PAGES: nat := 8192

  /** The pages that nfgpu_skb_pte_process keeps of a log: those whose entry is present and not swapped out. */
  function Collected(present: nat -> bool, leaves: seq<Leaf>): seq<nat> {
    if leaves == [] then []
    else
      var l := leaves[|leaves| - 1];
      Collected(present, leaves[..|leaves| - 1]) + if l.Visited? && present(l.page) then [l.page] else []
  }

  /** The present pages of a range, in ascending order. */
  function PresentPages(h: nat -> bool, present: nat -> bool, a: nat, b: nat): seq<nat>
    decreases b
  {
    if a >= b then [] else PresentPages(h, present, a, b - 1) + if !h(b - 1) && present(b - 1) then [b - 1] else []
  }

  lemma CollectedAppend(present: nat -> bool, s: seq<Leaf>, l: Leaf)
    ensures Collected(present, s + [l]) == Collected(present, s) + if l.Visited? && present(l.page) then [l.page] else []
  {
    assert (s + [l])[..|s|] == s;
  }

  lemma {:induction false} CollectedOfScan(h: nat -> bool, present: nat -> bool, a: nat, b: nat)
    ensures Collected(present, Scan(h, false, a, b)) == PresentPages(h, present, a, b)
    decreases b
  {
    if a < b {
      CollectedOfScan(h, present, a, b - 1);
      if !h(b - 1) {
        CollectedAppend(present, Scan(h, false, a, b - 1), Visited(b - 1));
      } else {
        assert Scan(h, false, a, b) == Scan(h, false, a, b - 1);
      }
    }
  }

  predicate Usable(h: nat -> bool, present: nat -> bool, page: nat) {
    !h(page) && present(page)
  }

  /** No range collects more pages than it has, and it collects as many exactly when all are usable. */
  lemma {:induction false} PresentCount(h: nat -> bool, present: nat -> bool, a: nat, b: nat)
    requires a <= b
    ensures |PresentPages(h, present, a, b)| <= b - a
    ensures |PresentPages(h, present, a, b)| == b - a <==> forall page: nat :: a <= page < b ==> Usable(h, present, page)
    decreases b
  {
    if a < b {
      PresentCount(h, present, a, b - 1);
      assert Usable(h, present, b - 1) <==> !h(b - 1) && present(b - 1);
    }
  }

  /** Page i of the collection lies i pages on or further; it is that one exactly when all pages up to it are usable. */
  lemma {:induction false} SlotIsPage(h: nat -> bool, present: nat -> bool, a: nat, b: nat, i: nat)
    requires a <= b && i < |PresentPages(h, present, a, b)|
    ensures a + i <= PresentPages(h, present, a, b)[i] < b
    ensures PresentPages(h, present, a, b)[i] == a + i
      <==> forall page: nat :: a <= page <= a + i ==> Usable(h, present, page)
    decreases b
  {
    PresentCount(h, present, a, b);
    if a < b {
      PresentCount(h, present, a, b - 1);
      var rest := PresentPages(h, present, a, b - 1);
      if i < |rest| {
        SlotIsPage(h, present, a, b - 1, i);
      } else {
        assert i == |rest| && Usable(h, present, b - 1);
        if PresentPages(h, present, a, b)[i] == a + i {
          assert |rest| == b - 1 - a;
        }
        if forall page: nat :: a <= page <= a + i ==> Usable(h, present, page) {
          SlotReached(h, present, a, b - 1, i);
        }
      }
    }
  }

  /** If the first pages are usable, they are collected. */
  lemma {:induction false} SlotReached(h: nat -> bool, present: nat -> bool, a: nat, b: nat, n: nat)
    requires a <= b && forall page: nat :: a <= page <= a + n ==> Usable(h, present, page)
    ensures |PresentPages(h, present, a, b)| >= if b - a <= n + 1 then b - a else n + 1
    decreases b
  {
    if a < b {
      SlotReached(h, present, a, b - 1, n);
      assert b - 1 <= a + n ==> Usable(h, present, b - 1);
    }
  }

  lemma {:induction false} CollectedHoles(present: nat -> bool, s: seq<Leaf>, a: nat, b: nat)
    ensures Collected(present, s + Holes(a, b)) == Collected(present, s)
    decreases b
  {
    if a < b {
      CollectedHoles(present, s, a, b - 1);
      CollectedAppend(present, s + Holes(a, b - 1), Missing(b - 1));
      assert s + Holes(a, b) == s + Holes(a, b - 1) + [Missing(b - 1)];
    } else {
      assert s + Holes(a, b) == s;
    }
  }

  /** What one event adds to the collection. */
  lemma CollectedEvent(present: nat -> bool, log: seq<Event>, e: Event)
    ensures Collected(present, Flatten(log + [e]))
         == Collected(present, Flatten(log)) + if e.PteEntry? && present(e.page) then [e.page] else []
  {
    FlattenOne(log, e);
    match e
    case PteEntry(page) => CollectedAppend(present, Flatten(log), Visited(page));
    case PteHole(addr, next) => CollectedHoles(present, Flatten(log), addr, next);
    case _ => assert Flatten(log) + [] == Flatten(log);
  }

  /** What the first k events of a log collect. */
  ghost function CollectedBy(present: nat -> bool, log: seq<Event>, k: nat): seq<nat>
    requires k <= |log|
  {
    Collected(present, Flatten(log[..k]))
  }

  lemma CollectedNext(present: nat -> bool, log: seq<Event>, k: nat)
    requires k < |log|
    ensures CollectedBy(present, log, k + 1)
         == CollectedBy(present, log, k) + if log[k].PteEntry? && present(log[k].page) then [log[k].page] else []
  {
    CollectedEvent(present, log[..k], log[k]);
    assert log[..k] + [log[k]] == log[..k + 1];
  }

  predicate NoShorter(upto: nat -> seq<nat>, i: nat) {
    |upto(i)| <= |upto(i + 1)|
  }

  lemma {:induction false} Grows(upto: nat -> seq<nat>, k: nat, n: nat)
    requires k <= n && forall i: nat :: k <= i < n ==> NoShorter(upto, i)
    ensures |upto(k)| <= |upto(n)|
    decreases n
  {
    if k < n {
      assert NoShorter(upto, n - 1);
      Grows(upto, k, n - 1);
    }
  }

  lemma NextNoShorter(present: nat -> bool, log: seq<Event>, i: nat)
    requires i < |log|
    ensures NoShorter(CollectedUpto(present, log), i)
  {
    CollectedNext(present, log, i);
  }

  lemma CollectedGrows(present: nat -> bool, log: seq<Event>, k: nat, n: nat)
    requires k <= n <= |log|
    ensures |CollectedUpto(present, log)(k)| <= |CollectedUpto(present, log)(n)|
  {
    forall i: nat | k <= i < n
      ensures NoShorter(CollectedUpto(present, log), i)
    {
      NextNoShorter(present, log, i);
    }
    Grows(CollectedUpto(present, log), k, n);
  }

  lemma CollectedStep(present: nat -> bool, log: seq<Event>, k: nat)
    requires k < |log|
    ensures CollectedBy(present, log, k + 1)
         == CollectedBy(present, log, k) + if log[k].PteEntry? && present(log[k].page) then [log[k].page] else []
    ensures |CollectedBy(present, log, k + 1)| <= |Collected(present, Flatten(log))|
  {
    CollectedNext(present, log, k);
    CollectedGrows(present, log, k + 1, |log|);
    assert log[..|log|] == log;
  }

  // ---- Staying in the array ----

  /** Event k leaves room for what it adds. */
  predicate RoomAt(present: nat -> bool, log: seq<Event>, k: nat)
    requires k < |log|
  {
    log[k].PteEntry? && present(log[k].page) ==> |Collected(present, Flatten(log[..k]))| < MAX_PAGES
  }

  /** The first event without room comes when exactly the whole array is used. */
  lemma {:induction false} FirstOverrun(present: nat -> bool, log: seq<Event>, n: nat)
    requires n <= |log| && |CollectedBy(present, log, n)| > 8192
    ensures exists k: nat :: k < n && !RoomAt(present, log, k) && |CollectedBy(present, log, k)| == 8192
  {
    assert CollectedBy(present, log, 0) == [];
    CollectedStep(present, log, n - 1);
    if |CollectedBy(present, log, n - 1)| > MAX_PAGES {
      FirstOverrun(present, log, n - 1);
    } else {
      assert !RoomAt(present, log, n - 1);
    }
  }

  /** The callbacks of a walk stay in the array iff they collect no more pages than it holds. */
  lemma CallbacksStayInside(present: nat -> bool, log: seq<Event>)
    ensures (forall k: nat :: k < |log| ==> RoomAt(present, log, k)) <==> |Collected(present, Flatten(log))| <= MAX_PAGES
  {
    assert log[..|log|] == log;
    if |Collected(present, Flatten(log))| > MAX_PAGES {
      FirstOverrun(present, log, |log|);
    } else {
      forall k: nat | k < |log|
        ensures RoomAt(present, log, k)
      {
        CollectedStep(present, log, k);
      }
    }
  }

  /** For the walk of nfgpu_set_mempool: iff the range has no more usable pages, however large it is. */
  lemma WalkStaysInside(c: Callbacks, log: seq<Event>, h: nat -> bool, present: nat -> bool, start: nat, end: nat, stop: nat, err: int)
    requires c.pte && !c.hole && (forall l :: c.answer(l) == 0)
    requires (start >= end ==> log == []) && (start < end ==> Went(c, [], log, h, start, stop, end, err))
    ensures (forall k: nat :: k < |log| ==> RoomAt(present, log, k)) <==> |PresentPages(h, present, start, end)| <= 8192
  {
    WholeScan(c, log, h, present, start, end, stop, err);
    CallbacksStayInside(present, log);
  }

  /** 32 MB and one page more, all usable, do not. */
  lemma OnePageMore(h: nat -> bool, present: nat -> bool, start: nat)
    requires forall page: nat :: start <= page < start + 8193 ==> Usable(h, present, page)
    ensures |PresentPages(h, present, start, start + 8193)| == 8193
  {
    PresentCount(h, present, start, start + MAX_PAGES + 1);
  }

  /** nfgpu_pages and nfgpu_npages. */
  class GpuBuffer {
    const pages: array<nat>
    var npages: nat

    ghost predicate Valid()
      reads this
    {
      pages.Length == MAX_PAGES && npages <= MAX_PAGES
    }

    ghost function Contents(): seq<nat>
      requires Valid()
      reads this, pages
    {
      pages[..npages]
    }

    constructor ()
      ensures Valid() && fresh(pages) && Contents() == []
    {
      pages := new nat[MAX_PAGES];
      npages := 0;
    }

    /** nfgpu_skb_pte_process: there is no check against the end of the array. */
    method SkbPteProcess(page: nat, present: nat -> bool) returns (err: int)
      requires Valid() && (present(page) ==> npages < MAX_PAGES)
      modifies this`npages, pages
      ensures Valid() && err == 0
      ensures Contents() == old(Contents()) + if present(page) then [page] else []
    {
      if present(page) {
        pages[npages] := page;
        npages := npages + 1;
      }
      err := 0;
    }

    /** The callbacks of a walk, in the order of its log; upto says what the first events collect. */
    method RunCallbacks(log: seq<Event>, present: nat -> bool, ghost upto: nat -> seq<nat>)
      requires Valid() && npages == 0 && upto(0) == [] && forall k: nat :: Collects(upto, log, present, k)
      modifies this`npages, pages
      ensures Valid() && Contents() == upto(|log|)
    {
      var k := 0;
      while k < |log|
        invariant k <= |log| && Valid() && Contents() == upto(k)
      {
        assert Collects(upto, log, present, k);
        if log[k].PteEntry? {
          var _ := SkbPteProcess(log[k].page, present);
        }
        k := k + 1;
      }
    }

    /** The walk of nfgpu_set_mempool: its callback returns 0, and holes are not reported. */
    method CollectPages(walk: Walk, start: nat, end: nat, present: nat -> bool, ghost h: nat -> bool)
      requires Valid() && Agrees(walk.tables, h) && walk.log == []
      requires walk.calls.pte && !walk.calls.hole && forall log :: walk.calls.answer(log) == 0
      requires |PresentPages(h, present, start, end)| <= 8192
      modifies this`npages, pages, walk
      ensures Valid() && Contents() == PresentPages(h, present, start, end)
    {
      npages := 0;
      var err, stop := walk.WalkPage(true, start, end, h);
      WholeScan(walk.calls, walk.log, h, present, start, end, stop, err);
      AllCollect(present, walk.log);
      RunCallbacks(walk.log, present, CollectedUpto(present, walk.log));
    }
  }

  /** upto follows the events of the log, and stays within the array. */
  predicate Collects(upto: nat -> seq<nat>, log: seq<Event>, present: nat -> bool, k: nat) {
    k < |log| ==>
      && upto(k + 1) == upto(k) + (if log[k].PteEntry? && present(log[k].page) then [log[k].page] else [])
      && |upto(k + 1)| <= MAX_PAGES
  }

  ghost function CollectedUpto(present: nat -> bool, log: seq<Event>): nat -> seq<nat> {
    (k: nat) => if k <= |log| then CollectedBy(present, log, k) else []
  }

  lemma CollectsAt(present: nat -> bool, log: seq<Event>, k: nat)
    requires |Collected(present, Flatten(log))| <= MAX_PAGES
    ensures Collects(CollectedUpto(present, log), log, present, k)
  {
    if k < |log| {
      CollectedStep(present, log, k);
    }
  }

  lemma CollectsAll(present: nat -> bool, log: seq<Event>)
    ensures CollectedUpto(present, log)(0) == [] && CollectedUpto(present, log)(|log|) == Collected(present, Flatten(log))
  {
    assert CollectedBy(present, log, 0) == [] && log[..|log|] == log;
  }

  lemma AllCollect(present: nat -> bool, log: seq<Event>)
    requires |Collected(present, Flatten(log))| <= MAX_PAGES
    ensures var upto := CollectedUpto(present, log);
      upto(0) == [] && upto(|log|) == Collected(present, Flatten(log)) && forall k: nat :: Collects(upto, log, present, k)
  {
    CollectsAll(present, log);
    forall k: nat
      ensures Collects(CollectedUpto(present, log), log, present, k)
    {
      CollectsAt(present, log, k);
    }
  }

  lemma WholeScan(c: Callbacks, log: seq<Event>, h: nat -> bool, present: nat -> bool, start: nat, end: nat, stop: nat, err: int)
    requires c.pte && !c.hole && (forall l :: c.answer(l) == 0)
    requires (start >= end ==> log == []) && (start < end ==> Went(c, [], log, h, start, stop, end, err))
    ensures Collected(present, Flatten(log)) == PresentPages(h, present, start, end)
  {
    CollectedOfScan(h, present, start, end);
    if start < end {
      assert err == 0;
      assert Flatten(log) == Scan(h, false, start, end);
    }
  }

  /** Of 32 MB of which every page is usable, exactly 8192 pages are collected, in address order. */
  lemma AllPagesCollected(h: nat -> bool, present: nat -> bool, start: nat)
    requires forall page: nat :: start <= page < start + 8192 ==> Usable(h, present, page)
    ensures PresentPages(h, present, start, start + 8192) == seq(8192, i => start + i)
  {
    var pages := PresentPages(h, present, start, start + MAX_PAGES);
    PresentCount(h, present, start, start + MAX_PAGES);
    forall i: nat | i < MAX_PAGES
      ensures pages[i] == start + i
    {
      SlotIsPage(h, present, start, start + MAX_PAGES, i);
    }
  }
}
