/**
 * Four-level page tables, what a walk over them reports, and the flat scan,
 * page by page, that it has to agree with. Addresses are page numbers.
 */
module FlatScan {
  /** An entry of the two upper levels. */
  datatype Entry = Absent | Bad | Directory

  /**
   * An entry of the third level. A huge page needs some more attempts at a split;
   * it then is a table of pages or, when it went away meanwhile, nothing.
   */
  datatype Middle = NoTable | BadTable | Huge(attempts: nat, gone: bool) | PageTable

  /** Entries by their number in the address space; an entry that is not there is none. */
  datatype Tables = Tables(pgd: map<nat, Entry>, pud: map<nat, Entry>, pmd: map<nat, Middle>) {
    function Pgd(i: nat): Entry { if i in pgd then pgd[i] else Absent }
    function Pud(i: nat): Entry { if i in pud then pud[i] else Absent }
    function Pmd(i: nat): Middle { if i in pmd then pmd[i] else NoTable }
  }

  // Pages that an entry of each level covers.
  const PMD: nat := 0x200
  const PUD: nat := 0x4_0000
  const PGD: nat := 0x800_0000

  /** pgd_addr_end, pud_addr_end and pmd_addr_end: the end of the range of one entry. */
  function AddrEnd(size: nat, addr: nat, end: nat): (next: nat)
    requires size > 0 && addr < end
    ensures addr < next <= end
    ensures next == end || next == (addr / size + 1) * size
    ensures next <= (addr / size + 1) * size
  {
    var boundary := (addr / size + 1) * size;
    AfterAddr(size, addr);
    if boundary < end then boundary else end
  }

  lemma AfterAddr(size: nat, addr: nat)
    requires size > 0
    ensures addr < (addr / size + 1) * size
  {
    assert addr == addr / size * size + addr % size;
  }

  /** The entry is, or will become, no table. */
  predicate Ends(m: Middle) {
    match m
    case NoTable => true
    case BadTable => true
    case Huge(_, gone) => gone
    case PageTable => false
  }

  /** Nothing is mapped at the page, once what is bad is cleared and what is huge is split. */
  predicate HolePage(t: Tables, page: nat) {
    !t.Pgd(page / PGD).Directory? || !t.Pud(page / PUD).Directory? || Ends(t.Pmd(page / PMD))
  }

  /** h says which pages are holes. */
  ghost predicate Agrees(t: Tables, h: nat -> bool) {
    forall page: nat :: HolePage(t, page) == h(page)
  }

  // ---- What a walk reports ----

  datatype Event =
    | PgdEntry(addr: nat, next: nat)
    | PudEntry(addr: nat, next: nat)
    | PmdEntry(addr: nat, next: nat)
    | PteEntry(page: nat)
    | PteHole(addr: nat, next: nat)

  /** The callbacks that are set, and what they return, which may depend on all calls so far. */
  datatype Callbacks = Callbacks(pgd: bool, pud: bool, pmd: bool, pte: bool, hole: bool, answer: seq<Event> -> int)

  /** A page seen, or reported missing. */
  datatype Leaf = Visited(page: nat) | Missing(page: nat)

  function Holes(a: nat, b: nat): seq<Leaf>
    decreases b
  {
    if a >= b then [] else Holes(a, b - 1) + [Missing(b - 1)]
  }

  function Leaves(e: Event): seq<Leaf> {
    match e
    case PteEntry(page) => [Visited(page)]
    case PteHole(addr, next) => Holes(addr, next)
    case _ => []
  }

  /** The pages that a log of events is about, in order. */
  function Flatten(log: seq<Event>): seq<Leaf> {
    if log == [] then [] else Flatten(log[..|log| - 1]) + Leaves(log[|log| - 1])
  }

  lemma FlattenOne(log: seq<Event>, e: Event)
    ensures Flatten(log + [e]) == Flatten(log) + Leaves(e)
  {
    assert (log + [e])[..|log|] == log;
  }

  /** The flat scan of the pages from a to b, b excluded. */
  function Scan(h: nat -> bool, hole: bool, a: nat, b: nat): seq<Leaf>
    decreases b
  {
    if a >= b then []
    else Scan(h, hole, a, b - 1) + if !h(b - 1) then [Visited(b - 1)] else if hole then [Missing(b - 1)] else []
  }

  lemma {:induction false} ScanAppend(h: nat -> bool, hole: bool, a: nat, b: nat, c: nat)
    requires a <= b <= c
    ensures Scan(h, hole, a, c) == Scan(h, hole, a, b) + Scan(h, hole, b, c)
    decreases c
  {
    if b < c {
      ScanAppend(h, hole, a, b, c - 1);
    }
  }

  lemma {:induction false} ScanHole(h: nat -> bool, hole: bool, a: nat, b: nat)
    requires forall page :: a <= page < b ==> h(page)
    ensures Scan(h, hole, a, b) == if hole then Holes(a, b) else []
    decreases b
  {
    if a < b {
      ScanHole(h, hole, a, b - 1);
    }
  }

  /** Every callback up to the last returned 0; the last one returned err, when that is not 0. */
  ghost predicate Heeded(answer: seq<Event> -> int, before: seq<Event>, after: seq<Event>, err: int) {
    && before <= after
    && (forall k :: |before| < k < |after| ==> answer(after[..k]) == 0)
    && (|before| < |after| ==> answer(after) == err)
    && (|before| == |after| ==> err == 0)
  }

  /** A walk from start to end: it comes to stop, and has then reported just what the scan does. */
  ghost predicate Went(c: Callbacks, before: seq<Event>, after: seq<Event>, h: nat -> bool, start: nat, stop: nat, end: nat, err: int) {
    && Heeded(c.answer, before, after, err)
    && start <= stop <= end && (err == 0 ==> stop == end)
    && (c.pte ==> Flatten(after) == Flatten(before) + Scan(h, c.hole, start, stop))
  }

  lemma HeededOn(answer: seq<Event> -> int, before: seq<Event>, middle: seq<Event>, after: seq<Event>, err: int)
    requires Heeded(answer, before, middle, 0) && Heeded(answer, middle, after, err)
    ensures Heeded(answer, before, after, err)
  {
    assert |middle| == |after| ==> middle == after;
    forall k | |before| < k < |after|
      ensures answer(after[..k]) == 0
    {
      if k <= |middle| {
        assert after[..k] == middle[..k];
        assert k == |middle| ==> middle[..k] == middle;
      }
    }
  }

  /** A walk to the end of its range, then another one from there. */
  lemma WentOn(c: Callbacks, before: seq<Event>, middle: seq<Event>, after: seq<Event>, h: nat -> bool,
               start: nat, next: nat, stop: nat, end: nat, err: int)
    requires next <= end && Went(c, before, middle, h, start, next, next, 0) && Went(c, middle, after, h, next, stop, end, err)
    ensures Went(c, before, after, h, start, stop, end, err)
  {
    HeededOn(c.answer, before, middle, after, err);
    ScanAppend(h, c.hole, start, next, stop);
  }

  /** A walk that a callback stopped has stopped for any longer range. */
  lemma WentFails(c: Callbacks, before: seq<Event>, after: seq<Event>, h: nat -> bool, start: nat, stop: nat, next: nat, end: nat, err: int)
    requires Went(c, before, after, h, start, stop, next, err) && err != 0 && next <= end
    ensures Went(c, before, after, h, start, stop, end, err)
  {
  }

  lemma WentNowhere(c: Callbacks, log: seq<Event>, h: nat -> bool, start: nat)
    ensures Went(c, log, log, h, start, start, start, 0)
  {
  }

  /** A callback about an entry as a whole reports no page. */
  lemma WentInner(c: Callbacks, log: seq<Event>, e: Event, h: nat -> bool, start: nat, end: nat)
    requires Leaves(e) == [] && start <= end
    ensures c.answer(log + [e]) != 0 ==> Went(c, log, log + [e], h, start, start, end, c.answer(log + [e]))
    ensures c.answer(log + [e]) == 0 ==> Went(c, log, log + [e], h, start, start, start, 0)
  {
    FlattenOne(log, e);
  }

  lemma WentPage(c: Callbacks, log: seq<Event>, h: nat -> bool, page: nat)
    requires !h(page)
    ensures Went(c, log, log + [PteEntry(page)], h, page, page + 1, page + 1, c.answer(log + [PteEntry(page)]))
  {
    FlattenOne(log, PteEntry(page));
    assert Scan(h, c.hole, page, page + 1) == Scan(h, c.hole, page, page) + [Visited(page)];
  }

  lemma WentHole(c: Callbacks, log: seq<Event>, h: nat -> bool, addr: nat, next: nat)
    requires addr < next && forall page :: addr <= page < next ==> h(page)
    ensures c.hole ==> Went(c, log, log + [PteHole(addr, next)], h, addr, next, next, c.answer(log + [PteHole(addr, next)]))
    ensures !c.hole ==> Went(c, log, log, h, addr, next, next, 0)
  {
    FlattenOne(log, PteHole(addr, next));
    ScanHole(h, c.hole, addr, next);
  }

  // ---- What the flat scan reports ----

  /** With holes reported, item k of the scan is about page a + k: a partition of the range, in order, each page once. */
  lemma {:induction false} ScanPartitions(h: nat -> bool, a: nat, b: nat)
    requires a <= b
    ensures |Scan(h, true, a, b)| == b - a
    ensures forall k: nat :: k < b - a ==> Scan(h, true, a, b)[k] == if h(a + k) then Missing(a + k) else Visited(a + k)
    decreases b
  {
    if a < b {
      ScanPartitions(h, a, b - 1);
    }
  }

  /** Without, the items are the pages that are no holes, in ascending order. */
  lemma {:induction false} ScanVisits(h: nat -> bool, a: nat, b: nat)
    requires a <= b
    ensures var s := Scan(h, false, a, b);
      && (forall k: nat :: k < |s| ==> s[k].Visited? && a <= s[k].page < b && !h(s[k].page))
      && (forall j: nat, k: nat :: j < k < |s| ==> s[j].page < s[k].page)
      && (forall page: nat :: a <= page < b && !h(page) ==> Visited(page) in s)
    decreases b
  {
    if a < b {
      ScanVisits(h, a, b - 1);
    }
  }
}
