/**
 * The page table walk: nested loops over the entries of the levels, with a
 * second look at a third-level entry that was huge or bad.
 */
module PageWalk {
  import opened FlatScan
  import opened WalkTrace

  const EINVAL := 22

  class Walk {
    const calls: Callbacks
    var tables: Tables
    var log: seq<Event>

    constructor (calls: Callbacks, tables: Tables)
      ensures this.calls == calls && this.tables == tables && log == []
    {
      this.calls, this.tables, log := calls, tables, [];
    }

    method Call(e: Event) returns (err: int)
      modifies this`log
      ensures log == old(log) + [e] && err == calls.answer(log)
    {
      log := log + [e];
      err := calls.answer(log);
    }

    /** pgd_none_or_clear_bad */
    method PgdNoneOrClearBad(i: nat, ghost h: nat -> bool) returns (none: bool)
      requires Agrees(tables, h)
      modifies this`tables
      ensures Agrees(tables, h) && none == !tables.Pgd(i).Directory?
      ensures tables.pud == old(tables.pud) && tables.pmd == old(tables.pmd)
      ensures forall j: nat :: tables.Pgd(j).Directory? == old(tables.Pgd(j).Directory?)
    {
      if tables.Pgd(i).Bad? {
        tables := tables.(pgd := tables.pgd[i := Absent]);
      }
      none := !tables.Pgd(i).Directory?;
      SameHoles(old(tables), tables, h);
    }

    /** pud_none_or_clear_bad */
    method PudNoneOrClearBad(i: nat, ghost h: nat -> bool) returns (none: bool)
      requires Agrees(tables, h)
      modifies this`tables
      ensures Agrees(tables, h) && none == !tables.Pud(i).Directory?
      ensures tables.pgd == old(tables.pgd) && tables.pmd == old(tables.pmd)
      ensures forall j: nat :: tables.Pud(j).Directory? == old(tables.Pud(j).Directory?)
    {
      if tables.Pud(i).Bad? {
        tables := tables.(pud := tables.pud[i := Absent]);
      }
      none := !tables.Pud(i).Directory?;
      SameHoles(old(tables), tables, h);
    }

    /** One attempt of split_huge_page_pmd. */
    method SplitHugePagePmd(i: nat, ghost h: nat -> bool)
      requires Agrees(tables, h)
      modifies this`tables
      ensures Agrees(tables, h) && tables.pgd == old(tables.pgd) && tables.pud == old(tables.pud)
      ensures tables.Pmd(i) == Split(old(tables.Pmd(i))) && forall j: nat :: j != i ==> tables.Pmd(j) == old(tables.Pmd(j))
    {
      tables := tables.(pmd := tables.pmd[i := Split(tables.Pmd(i))]);
      SameHoles(old(tables), tables, h);
    }

    /** pmd_none_or_trans_huge_or_clear_bad */
    method PmdNoneOrTransHugeOrClearBad(i: nat, ghost h: nat -> bool) returns (again: bool)
      requires Agrees(tables, h)
      modifies this`tables
      ensures Agrees(tables, h) && tables.pgd == old(tables.pgd) && tables.pud == old(tables.pud)
      ensures again == !tables.Pmd(i).PageTable?
      ensures tables.Pmd(i) == if old(tables.Pmd(i)).BadTable? then NoTable else old(tables.Pmd(i))
      ensures forall j: nat :: j != i ==> tables.Pmd(j) == old(tables.Pmd(j))
    {
      if tables.Pmd(i).BadTable? {
        tables := tables.(pmd := tables.pmd[i := NoTable]);
      }
      again := !tables.Pmd(i).PageTable?;
      SameHoles(old(tables), tables, h);
    }

    /** An attempt at a split, and what is bad cleared: the entry is to be looked at again unless it now is a table. */
    method SettlePmd(i: nat, ghost h: nat -> bool) returns (again: bool)
      requires Agrees(tables, h)
      modifies this`tables
      ensures Agrees(tables, h) && tables.pgd == old(tables.pgd) && tables.pud == old(tables.pud)
      ensures tables.Pmd(i) == Settled(old(tables.Pmd(i))) && again == !tables.Pmd(i).PageTable?
      ensures forall j: nat :: j != i ==> tables.Pmd(j) == old(tables.Pmd(j))
    {
      SplitHugePagePmd(i, h);
      again := PmdNoneOrTransHugeOrClearBad(i, h);
    }

    method WalkPteRange(start: nat, end: nat, ghost h: nat -> bool) returns (err: int, ghost stop: nat)
      requires calls.pte && start < end && forall page :: start <= page < end ==> !h(page)
      modifies this`log
      ensures Went(calls, old(log), log, h, start, stop, end, err)
      ensures Follows(old(log), log, Pages(start, end), err)
    {
      ghost var trace := Pages(start, end);
      var addr := start;
      err, stop := 0, start;
      WentNowhere(calls, log, h, start);
      UptoStart(log, trace);
      while true
        invariant start <= addr < end
        invariant Went(calls, old(log), log, h, start, addr, addr, 0)
        invariant Upto(old(log), trace, log, Pages(addr, end))
        decreases end - addr
      {
        ghost var before := log;
        err := WalkPte(addr, h);
        PagesFirst(addr, end);
        stop := addr + 1;
        NextPart(calls, old(log), before, log, h, start, addr, stop, stop, end, err, trace, [PteEntry(addr)], Pages(addr + 1, end));
        if err != 0 {
          break;
        }
        addr := addr + 1;
        if addr == end {
          UptoEnd(old(log), trace, log);
          break;
        }
      }
    }

    method WalkPte(addr: nat, ghost h: nat -> bool) returns (err: int)
      requires !h(addr)
      modifies this`log
      ensures Went(calls, old(log), log, h, addr, addr + 1, addr + 1, err) && Follows(old(log), log, [PteEntry(addr)], err)
    {
      err := Call(PteEntry(addr));
      WentPage(calls, old(log), h, addr);
    }

    /** One turn of the loop of walk_pmd_range, with the second looks at the same entry. */
    method WalkPmdEntry(pmd: nat, addr: nat, next: nat, ghost h: nat -> bool) returns (err: int, ghost stop: nat)
      requires Agrees(tables, h) && addr < next && InOne(PMD, addr, next) && pmd == addr / PMD
      requires tables.Pgd(addr / PGD).Directory? && tables.Pud(addr / PUD).Directory?
      modifies this
      ensures Agrees(tables, h) && tables.pgd == old(tables.pgd) && tables.pud == old(tables.pud)
      ensures forall j: nat :: j != pmd ==> tables.Pmd(j) == old(tables.Pmd(j))
      ensures Went(calls, old(log), log, h, addr, stop, next, err)
      ensures Follows(old(log), log, PmdTrace(calls, old(tables.Pmd(pmd)), addr, next), err)
    {
      ghost var trace := PmdTrace(calls, tables.Pmd(pmd), addr, next);
      err, stop := 0, addr;
      WentNowhere(calls, log, h, addr);
      UptoStart(log, trace);
      while true
        invariant err == 0 && stop == addr
        invariant Agrees(tables, h) && tables.pgd == old(tables.pgd) && tables.pud == old(tables.pud)
        invariant forall j: nat :: j != pmd ==> tables.Pmd(j) == old(tables.Pmd(j))
        invariant Went(calls, old(log), log, h, addr, addr, addr, 0)
        invariant Upto(old(log), trace, log, PmdTrace(calls, tables.Pmd(pmd), addr, next))
        decreases Weight(tables.Pmd(pmd))
      {
        ghost var before := log;
        if tables.Pmd(pmd).NoTable? {
          HolesOfTable(tables, h, addr, next);
          err := WalkHole(addr, next, h);
          stop := next;
          NoTableTrace(calls, addr, next);
          LastPart(calls, old(log), before, log, h, addr, next, next, err, trace, If(calls.hole, PteHole(addr, next)));
          return;
        }
        ghost var rest := AfterLook(calls, tables.Pmd(pmd), addr, next);
        LookTrace(calls, tables.Pmd(pmd), addr, next);
        err := Announce(calls.pmd, PmdEntry(addr, next), addr, next, h);
        NextPart(calls, old(log), before, log, h, addr, addr, addr, if err != 0 then next else addr, next, err, trace,
                 If(calls.pmd, PmdEntry(addr, next)), rest);
        if err != 0 {
          return;
        }
        if !calls.pte {
          stop := next;
          UptoEnd(old(log), trace, log);
          return;
        }
        var again := SettlePmd(pmd, h);
        if !again {
          ghost var middle := log;
          HolesOfTable(tables, h, addr, next);
          err, stop := WalkPteRange(addr, next, h);
          LastPart(calls, old(log), middle, log, h, addr, stop, next, err, trace, Pages(addr, next));
          return;
        }
      }
    }

    /** pte_hole, when it is set. */
    method WalkHole(addr: nat, next: nat, ghost h: nat -> bool) returns (err: int)
      requires addr < next && forall page :: addr <= page < next ==> h(page)
      modifies this`log
      ensures Went(calls, old(log), log, h, addr, next, next, err)
      ensures log == old(log) + If(calls.hole, PteHole(addr, next))
    {
      WentHole(calls, log, h, addr, next);
      err := 0;
      if calls.hole {
        err := Call(PteHole(addr, next));
      }
      assert old(log) + [] == old(log);
    }

    /** A callback about an entry as a whole, when it is set. */
    method Announce(on: bool, e: Event, addr: nat, next: nat, ghost h: nat -> bool) returns (err: int)
      requires addr < next && Leaves(e) == []
      modifies this`log
      ensures Follows(old(log), log, If(on, e), err) && log == old(log) + If(on, e)
      ensures if err != 0 then Went(calls, old(log), log, h, addr, addr, next, err) else Went(calls, old(log), log, h, addr, addr, addr, 0)
    {
      WentNowhere(calls, log, h, addr);
      WentInner(calls, log, e, h, addr, next);
      err := 0;
      if on {
        err := Call(e);
      }
      assert old(log) + [] == old(log);
    }

    method WalkPmdRange(start: nat, end: nat, ghost h: nat -> bool, ghost t: Tables) returns (err: int, ghost stop: nat)
      requires Agrees(tables, h) && start < end && InOne(PUD, start, end) && Same(t, tables, start / PMD)
      requires tables.Pgd(start / PGD).Directory? && tables.Pud(start / PUD).Directory?
      modifies this
      ensures Agrees(tables, h) && tables.pgd == old(tables.pgd) && tables.pud == old(tables.pud)
      ensures Went(calls, old(log), log, h, start, stop, end, err)
      ensures Follows(old(log), log, PmdTraces(calls, t, start, end), err) && (err == 0 ==> Same(t, tables, FirstFrom(end)))
    {
      ghost var trace := PmdTraces(calls, t, start, end);
      var pmd, addr := start / PMD, start;
      err, stop := 0, start;
      WentNowhere(calls, log, h, start);
      UptoStart(log, trace);
      while true
        invariant start <= addr < end && pmd == addr / PMD
        invariant Agrees(tables, h) && tables.pgd == old(tables.pgd) && tables.pud == old(tables.pud)
        invariant Went(calls, old(log), log, h, start, addr, addr, 0)
        invariant Upto(old(log), trace, log, PmdTraces(calls, t, addr, end)) && Same(t, tables, pmd)
        decreases end - addr
      {
        ghost var before := log;
        var next := AddrEnd(PMD, addr, end);
        InOnePmd(addr, next);
        InOneWider(start, end);
        assert addr / PUD == start / PUD && addr / PGD == start / PGD;
        ghost var part, rest := PmdTrace(calls, t.Pmd(pmd), addr, next), PmdTraces(calls, t, next, end);
        err, stop := WalkPmdEntry(pmd, addr, next, h);
        NextPart(calls, old(log), before, log, h, start, addr, stop, next, end, err, trace, part, rest);
        if err != 0 {
          break;
        }
        pmd, addr := pmd + 1, next;
        if addr == end {
          UptoEnd(old(log), trace, log);
          break;
        }
      }
    }

    /** One turn of the loop of walk_pud_range. */
    method WalkPudEntry(pud: nat, addr: nat, next: nat, ghost h: nat -> bool, ghost t: Tables) returns (err: int, ghost stop: nat)
      requires Agrees(tables, h) && addr < next && InOne(PUD, addr, next) && pud == addr / PUD && tables.Pgd(addr / PGD).Directory?
      requires Same(t, tables, addr / PMD)
      modifies this
      ensures Agrees(tables, h) && tables.pgd == old(tables.pgd)
      ensures Went(calls, old(log), log, h, addr, stop, next, err)
      ensures Follows(old(log), log, PudTrace(calls, t, addr, next), err) && (err == 0 ==> Same(t, tables, FirstFrom(next)))
    {
      ghost var before, trace := log, PudTrace(calls, t, addr, next);
      UptoStart(log, trace);
      var none := PudNoneOrClearBad(pud, h);
      SameLater(t, tables, addr, next);
      if none {
        HolesOfPud(tables, h, addr, next);
        err := WalkHole(addr, next, h);
        stop := next;
        return;
      }
      err := Announce(calls.pud, PudEntry(addr, next), addr, next, h);
      ghost var rest := if calls.pmd || calls.pte then PmdTraces(calls, t, addr, next) else [];
      FollowsOn(before, trace, before, If(calls.pud, PudEntry(addr, next)), rest, log, err);
      stop := if err != 0 then addr else next;
      if err == 0 && (calls.pmd || calls.pte) {
        ghost var middle := log;
        err, stop := WalkPmdRange(addr, next, h, t);
        LastPart(calls, before, middle, log, h, addr, stop, next, err, trace, rest);
      }
    }

    method WalkPudRange(start: nat, end: nat, ghost h: nat -> bool, ghost t: Tables) returns (err: int, ghost stop: nat)
      requires Agrees(tables, h) && start < end && InOne(PGD, start, end) && tables.Pgd(start / PGD).Directory?
      requires Same(t, tables, start / PMD)
      modifies this
      ensures Agrees(tables, h) && tables.pgd == old(tables.pgd)
      ensures Went(calls, old(log), log, h, start, stop, end, err)
      ensures Follows(old(log), log, PudTraces(calls, t, start, end), err) && (err == 0 ==> Same(t, tables, FirstFrom(end)))
    {
      ghost var trace := PudTraces(calls, t, start, end);
      var pud, addr := start / PUD, start;
      err, stop := 0, start;
      WentNowhere(calls, log, h, start);
      UptoStart(log, trace);
      while true
        invariant start <= addr < end && pud == addr / PUD
        invariant Agrees(tables, h) && tables.pgd == old(tables.pgd)
        invariant Went(calls, old(log), log, h, start, addr, addr, 0)
        invariant Upto(old(log), trace, log, PudTraces(calls, t, addr, end)) && Same(t, tables, addr / PMD)
        decreases end - addr
      {
        ghost var before := log;
        var next := AddrEnd(PUD, addr, end);
        InOnePud(addr, next);
        FirstBehindPud(addr, end);
        assert addr / PGD == start / PGD;
        ghost var part, rest := PudTrace(calls, t, addr, next), PudTraces(calls, t, next, end);
        err, stop := WalkPudEntry(pud, addr, next, h, t);
        NextPart(calls, old(log), before, log, h, start, addr, stop, next, end, err, trace, part, rest);
        if err != 0 {
          break;
        }
        pud, addr := pud + 1, next;
        if addr == end {
          UptoEnd(old(log), trace, log);
          break;
        }
      }
    }

    /** One turn of the loop of walk_page. */
    method WalkPgdEntry(pgd: nat, addr: nat, next: nat, ghost h: nat -> bool, ghost t: Tables) returns (err: int, ghost stop: nat)
      requires Agrees(tables, h) && addr < next && InOne(PGD, addr, next) && pgd == addr / PGD && Same(t, tables, addr / PMD)
      modifies this
      ensures Agrees(tables, h)
      ensures Went(calls, old(log), log, h, addr, stop, next, err)
      ensures Follows(old(log), log, PgdTrace(calls, t, addr, next), err) && (err == 0 ==> Same(t, tables, FirstFrom(next)))
    {
      ghost var before, trace := log, PgdTrace(calls, t, addr, next);
      UptoStart(log, trace);
      var none := PgdNoneOrClearBad(pgd, h);
      SameLater(t, tables, addr, next);
      if none {
        HolesOfPgd(tables, h, addr, next);
        err := WalkHole(addr, next, h);
        stop := next;
        return;
      }
      err := Announce(calls.pgd, PgdEntry(addr, next), addr, next, h);
      ghost var rest := if calls.pud || calls.pmd || calls.pte then PudTraces(calls, t, addr, next) else [];
      FollowsOn(before, trace, before, If(calls.pgd, PgdEntry(addr, next)), rest, log, err);
      stop := if err != 0 then addr else next;
      if err == 0 && (calls.pud || calls.pmd || calls.pte) {
        ghost var middle := log;
        err, stop := WalkPudRange(addr, next, h, t);
        LastPart(calls, before, middle, log, h, addr, stop, next, err, trace, rest);
      }
    }

    method WalkPgdRange(start: nat, end: nat, ghost h: nat -> bool, ghost t: Tables) returns (err: int, ghost stop: nat)
      requires Agrees(tables, h) && start < end && Same(t, tables, start / PMD)
      modifies this
      ensures Agrees(tables, h)
      ensures Went(calls, old(log), log, h, start, stop, end, err)
      ensures Follows(old(log), log, Trace(calls, t, start, end), err)
    {
      ghost var trace := Trace(calls, t, start, end);
      var pgd, addr := start / PGD, start;
      err, stop := 0, start;
      WentNowhere(calls, log, h, start);
      UptoStart(log, trace);
      while true
        invariant start <= addr < end && pgd == addr / PGD
        invariant Agrees(tables, h)
        invariant Went(calls, old(log), log, h, start, addr, addr, 0)
        invariant Upto(old(log), trace, log, Trace(calls, t, addr, end)) && Same(t, tables, addr / PMD)
        decreases end - addr
      {
        ghost var before := log;
        var next := AddrEnd(PGD, addr, end);
        InOnePgd(addr, next);
        FirstBehindPgd(addr, end);
        ghost var part, rest := PgdTrace(calls, t, addr, next), Trace(calls, t, next, end);
        err, stop := WalkPgdEntry(pgd, addr, next, h, t);
        NextPart(calls, old(log), before, log, h, start, addr, stop, next, end, err, trace, part, rest);
        if err != 0 {
          break;
        }
        pgd, addr := pgd + 1, next;
        if addr == end {
          UptoEnd(old(log), trace, log);
          break;
        }
      }
    }

    /** walk_page: hasMm says that the memory map to walk is set. */
    method WalkPage(hasMm: bool, addr: nat, end: nat, ghost h: nat -> bool) returns (err: int, ghost stop: nat)
      requires Agrees(tables, h)
      modifies this
      ensures Agrees(tables, h)
      ensures addr >= end ==> err == 0 && log == old(log)
      ensures addr < end && !hasMm ==> err == -22 && log == old(log)
      ensures addr < end && hasMm ==> Went(calls, old(log), log, h, addr, stop, end, err)
      ensures addr < end && hasMm ==> Follows(old(log), log, Trace(calls, old(tables), addr, end), err)
    {
      err, stop := 0, addr;
      if addr >= end {
        return;
      }
      if !hasMm {
        err := -EINVAL;
        return;
      }
      err, stop := WalkPgdRange(addr, end, h, tables);
    }
  }

  /** What one attempt at a split leaves. */
  function Split(m: Middle): Middle {
    match m
    case Huge(attempts, gone) => if attempts > 0 then Huge(attempts - 1, gone) else if gone then NoTable else PageTable
    case _ => m
  }

  /** The last callbacks of an entry whose looks are all that came before. */
  lemma LastPart(c: Callbacks, before: seq<Event>, middle: seq<Event>, after: seq<Event>, h: nat -> bool, addr: nat, stop: nat, next: nat,
                 err: int, trace: seq<Event>, rest: seq<Event>)
    requires Went(c, before, middle, h, addr, addr, addr, 0) && Went(c, middle, after, h, addr, stop, next, err) && addr <= next
    requires Upto(before, trace, middle, rest) && (Follows(middle, after, rest, err) || after == middle + rest)
    ensures Went(c, before, after, h, addr, stop, next, err) && Follows(before, after, trace, err)
  {
    WentOn(c, before, middle, after, h, addr, addr, stop, next, err);
    FollowsLast(before, trace, middle, rest, after, err);
  }

  /** A part of a walk from start to end, from addr to next, and what is left after it. */
  lemma NextPart(c: Callbacks, before: seq<Event>, middle: seq<Event>, after: seq<Event>, h: nat -> bool, start: nat, addr: nat,
                 stop: nat, next: nat, end: nat, err: int, trace: seq<Event>, part: seq<Event>, rest: seq<Event>)
    requires Went(c, before, middle, h, start, addr, addr, 0) && Went(c, middle, after, h, addr, stop, next, err) && next <= end
    requires Upto(before, trace, middle, part + rest) && Follows(middle, after, part, err)
    ensures err != 0 ==> Went(c, before, after, h, start, stop, end, err) && Follows(before, after, trace, err)
    ensures err == 0 ==> Went(c, before, after, h, start, next, next, 0) && Upto(before, trace, after, rest)
  {
    if err != 0 {
      WentFails(c, middle, after, h, addr, stop, next, end, err);
    }
    WentOn(c, before, middle, after, h, start, addr, stop, if err != 0 then end else next, err);
    FollowsOn(before, trace, middle, part, rest, after, err);
  }

  /** What an attempt at a split and the clearing of what is bad leave. */
  function Settled(m: Middle): Middle {
    if Split(m).BadTable? then NoTable else Split(m)
  }

  /** What is left to do after a look at an entry that is something. */
  function AfterLook(c: Callbacks, m: Middle, addr: nat, next: nat): seq<Event> {
    if !c.pte then [] else if Settled(m).PageTable? then Pages(addr, next) else PmdTrace(c, Settled(m), addr, next)
  }

  lemma LookTrace(c: Callbacks, m: Middle, addr: nat, next: nat)
    requires !m.NoTable?
    ensures PmdTrace(c, m, addr, next) == If(c.pmd, PmdEntry(addr, next)) + AfterLook(c, m, addr, next)
  {
    var e, n := PmdEntry(addr, next), Looks(c, m) - 1;
    var last := if c.pte && Ends(m) then If(c.hole, PteHole(addr, next)) else if c.pte then Pages(addr, next) else [];
    assert Times(e, n + 1) == [e] + Times(e, n);
    assert [e] + Times(e, n) + last == [e] + (Times(e, n) + last);
    assert [] + last == last;
  }

  lemma NoTableTrace(c: Callbacks, addr: nat, next: nat)
    ensures PmdTrace(c, NoTable, addr, next) == If(c.hole, PteHole(addr, next))
  {
  }

  /** A table in which no page changed sides is the same to a scan. */
  lemma SameHoles(before: Tables, after: Tables, h: nat -> bool)
    requires Agrees(before, h)
    requires forall i: nat :: after.Pgd(i).Directory? == before.Pgd(i).Directory?
    requires forall i: nat :: after.Pud(i).Directory? == before.Pud(i).Directory?
    requires forall i: nat :: Ends(after.Pmd(i)) == Ends(before.Pmd(i))
    ensures Agrees(after, h)
  {
    forall page: nat
      ensures HolePage(after, page) == h(page)
    {
      assert HolePage(before, page) == h(page);
      assert Ends(after.Pmd(page / PMD)) == Ends(before.Pmd(page / PMD));
    }
  }

  /** How many more looks an entry can take. */
  function Weight(m: Middle): nat {
    match m
    case NoTable => 0
    case BadTable => 1
    case Huge(attempts, _) => attempts + 1
    case PageTable => 0
  }

  /** All pages from addr to next belong to one entry. */
  ghost predicate InOne(size: nat, addr: nat, next: nat)
    requires size > 0
  {
    forall page :: addr <= page < next ==> page / size == addr / size
  }

  lemma InOneWider(addr: nat, next: nat)
    ensures InOne(PMD, addr, next) ==> InOne(PUD, addr, next)
    ensures InOne(PUD, addr, next) ==> InOne(PGD, addr, next)
  {
    assert PUD == PMD * 0x200 && PGD == PUD * 0x200;
    forall page: nat
      ensures page / PUD == page / PMD / 0x200 && page / PGD == page / PUD / 0x200
    {
    }
  }

  /** Once an entry is nothing, or a table below directories, all of its pages are holes, or none. */
  lemma HolesOfTable(t: Tables, h: nat -> bool, addr: nat, next: nat)
    requires Agrees(t, h) && InOne(PMD, addr, next)
    requires t.Pgd(addr / PGD).Directory? && t.Pud(addr / PUD).Directory?
    ensures t.Pmd(addr / PMD).NoTable? ==> forall page :: addr <= page < next ==> h(page)
    ensures t.Pmd(addr / PMD).PageTable? ==> forall page :: addr <= page < next ==> !h(page)
  {
    InOneWider(addr, next);
    forall page: nat | addr <= page < next
      ensures h(page) == Ends(t.Pmd(addr / PMD))
    {
      assert HolePage(t, page) == h(page);
    }
  }

  lemma InOnePmd(addr: nat, next: nat)
    requires next <= (addr / PMD + 1) * PMD
    ensures InOne(PMD, addr, next)
  {
  }

  lemma InOnePud(addr: nat, next: nat)
    requires next <= (addr / PUD + 1) * PUD
    ensures InOne(PUD, addr, next)
  {
  }

  lemma InOnePgd(addr: nat, next: nat)
    requires next <= (addr / PGD + 1) * PGD
    ensures InOne(PGD, addr, next)
  {
  }

  lemma HolesOfPud(t: Tables, h: nat -> bool, addr: nat, next: nat)
    requires Agrees(t, h) && InOne(PUD, addr, next) && !t.Pud(addr / PUD).Directory?
    ensures forall page :: addr <= page < next ==> h(page)
  {
    forall page: nat | addr <= page < next
      ensures h(page)
    {
      assert HolePage(t, page) == h(page);
    }
  }

  lemma HolesOfPgd(t: Tables, h: nat -> bool, addr: nat, next: nat)
    requires Agrees(t, h) && InOne(PGD, addr, next) && !t.Pgd(addr / PGD).Directory?
    ensures forall page :: addr <= page < next ==> h(page)
  {
    forall page: nat | addr <= page < next
      ensures h(page)
    {
      assert HolePage(t, page) == h(page);
    }
  }
}
