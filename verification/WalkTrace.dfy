/**
 * The callbacks of a walk, one by one, read off the tables before it: every
 * directory is announced, and a third-level entry as often as it is looked at.
 */
module WalkTrace {
  import opened FlatScan

  function Pages(a: nat, b: nat): seq<Event>
    decreases b - a
  {
    if a >= b then [] else [PteEntry(a)] + Pages(a + 1, b)
  }

  lemma PagesFirst(a: nat, b: nat)
    requires a < b
    ensures Pages(a, b) == [PteEntry(a)] + Pages(a + 1, b)
  {
  }

  function Times(e: Event, n: nat): seq<Event> {
    if n == 0 then [] else [e] + Times(e, n - 1)
  }

  function If(on: bool, e: Event): seq<Event> {
    if on then [e] else []
  }

  /** How often a third-level entry is looked at while it is something: once, or until it is split or cleared. */
  function Looks(c: Callbacks, m: Middle): nat {
    match m
    case NoTable => 0
    case Huge(attempts, _) => if c.pte then attempts + 1 else 1
    case _ => 1
  }

  /** The callbacks about the pages of one third-level entry. */
  function PmdTrace(c: Callbacks, m: Middle, addr: nat, next: nat): seq<Event> {
    Times(PmdEntry(addr, next), if c.pmd then Looks(c, m) else 0)
    + if m.NoTable? || (c.pte && Ends(m)) then If(c.hole, PteHole(addr, next)) else if c.pte then Pages(addr, next) else []
  }

  function PmdTraces(c: Callbacks, t: Tables, addr: nat, end: nat): seq<Event>
    decreases end - addr
  {
    if addr >= end then []
    else
      var next := AddrEnd(0x200, addr, end);
      PmdTrace(c, t.Pmd(addr / 0x200), addr, next) + PmdTraces(c, t, next, end)
  }

  /** Below a second-level entry there is nothing to do when neither entries of the third level nor pages are asked for. */
  function PudTrace(c: Callbacks, t: Tables, addr: nat, next: nat): seq<Event> {
    if !t.Pud(addr / 0x4_0000).Directory? then If(c.hole, PteHole(addr, next))
    else If(c.pud, PudEntry(addr, next)) + if c.pmd || c.pte then PmdTraces(c, t, addr, next) else []
  }

  function PudTraces(c: Callbacks, t: Tables, addr: nat, end: nat): seq<Event>
    decreases end - addr
  {
    if addr >= end then []
    else
      var next := AddrEnd(0x4_0000, addr, end);
      PudTrace(c, t, addr, next) + PudTraces(c, t, next, end)
  }

  function PgdTrace(c: Callbacks, t: Tables, addr: nat, next: nat): seq<Event> {
    if !t.Pgd(addr / 0x800_0000).Directory? then If(c.hole, PteHole(addr, next))
    else If(c.pgd, PgdEntry(addr, next)) + if c.pud || c.pmd || c.pte then PudTraces(c, t, addr, next) else []
  }

  /** All callbacks of a walk from addr to end. */
  function Trace(c: Callbacks, t: Tables, addr: nat, end: nat): seq<Event>
    decreases end - addr
  {
    if addr >= end then []
    else
      var next := AddrEnd(0x800_0000, addr, end);
      PgdTrace(c, t, addr, next) + Trace(c, t, next, end)
  }

  /** The callbacks between two logs are the first ones of a trace, and all of it without an error. */
  ghost predicate Follows(before: seq<Event>, after: seq<Event>, trace: seq<Event>, err: int) {
    after <= before + trace && (err == 0 ==> after == before + trace)
  }

  /** So far the trace has been followed up to rest. */
  predicate Upto(before: seq<Event>, trace: seq<Event>, log: seq<Event>, rest: seq<Event>) {
    before + trace == log + rest
  }

  lemma UptoStart(log: seq<Event>, trace: seq<Event>)
    ensures Upto(log, trace, log, trace)
  {
  }

  lemma UptoEnd(before: seq<Event>, trace: seq<Event>, log: seq<Event>)
    requires Upto(before, trace, log, [])
    ensures Follows(before, log, trace, 0)
  {
    assert log + [] == log;
  }

  lemma FollowsOn(before: seq<Event>, trace: seq<Event>, log: seq<Event>, part: seq<Event>, rest: seq<Event>, after: seq<Event>, err: int)
    requires Upto(before, trace, log, part + rest) && Follows(log, after, part, err)
    ensures after <= before + trace && (err == 0 ==> Upto(before, trace, after, rest))
  {
    assert log + (part + rest) == log + part + rest;
  }

  /** The last part of a trace. */
  lemma FollowsLast(before: seq<Event>, trace: seq<Event>, log: seq<Event>, rest: seq<Event>, after: seq<Event>, err: int)
    requires Upto(before, trace, log, rest) && (Follows(log, after, rest, err) || after == log + rest)
    ensures Follows(before, after, trace, err)
  {
  }

  /** Entries that a walk from third-level entry k on will find as they were. */
  ghost predicate Same(was: Tables, now: Tables, k: nat) {
    && (forall i: nat :: now.Pgd(i).Directory? == was.Pgd(i).Directory?)
    && (forall i: nat :: now.Pud(i).Directory? == was.Pud(i).Directory?)
    && forall i: nat :: i >= k ==> now.Pmd(i) == was.Pmd(i)
  }

  /** The first third-level entry that begins at or behind an address. */
  function FirstFrom(addr: nat): nat {
    (addr + 0x1ff) / 0x200
  }

  lemma SameLater(was: Tables, now: Tables, addr: nat, next: nat)
    requires Same(was, now, addr / 0x200) && addr < next
    ensures Same(was, now, FirstFrom(next))
  {
  }

  lemma FirstAtMultiple(q: nat)
    ensures FirstFrom(q * 0x200) == q
  {
  }

  /** An entry that ends before the range does ends where third-level entries meet. */
  lemma FirstBehindPud(addr: nat, end: nat)
    requires addr < end
    ensures var next := AddrEnd(0x4_0000, addr, end); next < end ==> FirstFrom(next) == next / 0x200
  {
    FirstAtMultiple((addr / 0x4_0000 + 1) * 0x200);
  }

  lemma FirstBehindPgd(addr: nat, end: nat)
    requires addr < end
    ensures var next := AddrEnd(0x800_0000, addr, end); next < end ==> FirstFrom(next) == next / 0x200
  {
    FirstAtMultiple((addr / 0x800_0000 + 1) * 0x4_0000);
  }
}
