/**
 * Which mappings lose slots: none is ever lost, and every release hands back its
 * own head, in all runs over a mapping exactly when it starts at a multiple of 32 MB.
 */
module SlotLeaks {
  import opened Wrappers
  import opened Slots
  import opened SlotRuns

  predicate MapsTo(e: Event, kva: Addr) {
    e.SetBuffers? ==> e.mapped == kva || e.mapped == 0
  }

  /** All mappings made are at kva, or failed. */
  predicate MapsAt(events: seq<Event>, kva: Addr) {
    forall k :: 0 <= k < |events| ==> MapsTo(events[k], kva)
  }

  predicate HeadsKept(handed: seq<Handed>) {
    forall k :: 0 <= k < |handed| ==> handed[k].back.head == handed[k].given.head
  }

  // ---- Aligned mappings ----

  predicate Lossless(w: World) {
    NothingLost(w) && w.pool.kva % MAX_MEMORY == 0
  }

  lemma AlignedStep(w: World, e: Event)
    requires Kept(w) && Allowed(w, e) && Lossless(w) && (e.SetBuffers? ==> e.mapped % MAX_MEMORY == 0)
    ensures Lossless(Apply(w, e))
  {
    if e.Release? {
      var l := w.live[e.id];
      ReleaseFinds(w, e.id);
      ReleaseHands(w, e.id);
      assert BufferKept(w, e.id);
      assert SlotKept(w, 0);
    }
  }

  lemma {:induction false} AlignedRun(w: World, events: seq<Event>, kva: Addr)
    requires kva % MAX_MEMORY == 0 && MapsAt(events, kva) && Kept(w) && Lossless(w) && Run(w, events).Some?
    ensures Lossless(Run(w, events).value)
    decreases |events|
  {
    if events != [] {
      ApplyKeeps(w, events[0]);
      AlignedStep(w, events[0]);
      AlignedRun(Apply(w, events[0]), events[1..], kva);
    }
  }

  // ---- A run that climbs to any slot, two buffers live at a time ----

  /** Native buffers outside the mapping, with 64 bytes of headroom. */
  function Native(kva: Addr, id: nat): Skb
    requires id < MAX_SKBS
  {
    var head := Plus(kva, MAX_MEMORY + 0x100 + id * SKB_SIZE);
    Skb(head, Plus(head, 0x40), Plus(head, 0x40), Plus(head, 0x100), 0)
  }

  lemma NativeOutside(kva: Addr, id: nat)
    requires kva % SKB_SIZE == 0 && id < MAX_SKBS
    ensures Native(kva, id).head != 0 && !Within(kva, Native(kva, id).head)
    ensures Minus(Native(kva, id).end, Native(kva, id).head) == 0x100
  {
    PlusMinus(kva, MAX_MEMORY + 0x100 + id * SKB_SIZE);
    PlusMinus(Native(kva, id).head, 0x100);
  }

  /** The one live buffer, k % 2, sits in slot k; all other slots are free. */
  ghost predicate AtSlot(w: World, kva: Addr, k: nat) {
    && 1 <= k < MAX_SKBS && kva != 0
    && w.pool == Pool(seq(MAX_SKBS, _ => 0)[k := Native(kva, k % 2).head], k, kva, true)
    && w.live == map[k % 2 := Live(SwitchedTo(Native(kva, k % 2), SlotAddr(kva, k)), Native(kva, k % 2), k, false)]
    && w.owner == map[k := k % 2] && w.leaked == {}
  }

  /** A search that starts at a used slot ends at the next one, if that is free. */
  lemma NextIsFree(p: Pool)
    requires p.WellFormed() && p.next + 1 < MAX_SKBS && p.slots[p.next] != 0 && p.slots[p.next + 1] == 0
    ensures Search(p) == Some(p.next + 1)
  {
    assert p.Free(p.next + 1);
    SearchEnds(p);
    ProbeReaches(p.next, Search(p).value);
    ProbeReaches(p.next, p.next + 1);
    assert Distance(p.next, p.next + 1) == 1 && Distance(p.next, p.next) == 0;
    ProbeReaches(p.next, p.next);
  }

  /** Both buffers are live, the new one in the next slot. */
  lemma AllocNext(w: World, kva: Addr, k: nat)
    requires Kept(w) && AtSlot(w, kva, k) && k + 1 < MAX_SKBS && kva % SKB_SIZE == 0
    ensures Allowed(w, Alloc((k + 1) % 2, Native(kva, (k + 1) % 2)))
    ensures var r := Apply(w, Alloc((k + 1) % 2, Native(kva, (k + 1) % 2)));
      && r.pool == Pool(w.pool.slots[k + 1 := Native(kva, (k + 1) % 2).head], k + 1, kva, true)
      && r.live == w.live[(k + 1) % 2 := Live(SwitchedTo(Native(kva, (k + 1) % 2), SlotAddr(kva, k + 1)), Native(kva, (k + 1) % 2), k + 1, false)]
      && r.owner == w.owner[k + 1 := (k + 1) % 2] && r.leaked == {}
  {
    NativeOutside(kva, k % 2);
    NativeOutside(kva, (k + 1) % 2);
    NextIsFree(w.pool);
    assert Switches(w.pool, Native(kva, (k + 1) % 2));
  }

  /** Releasing the buffer of a reached slot frees it. */
  lemma ReleasePrevious(w: World, kva: Addr, k: nat)
    requires Kept(w) && AtSlot(w, kva, k) && k + 1 < MAX_SKBS && kva % SKB_SIZE == 0 && Reached(kva, k)
    ensures var e := [Alloc((k + 1) % 2, Native(kva, (k + 1) % 2)), Release(k % 2)];
      Run(w, e).Some? && AtSlot(Run(w, e).value, kva, k + 1)
  {
    AllocNext(w, kva, k);
    var a := Alloc((k + 1) % 2, Native(kva, (k + 1) % 2));
    var e := [a, Release(k % 2)];
    var r := Apply(w, a);
    ApplyKeeps(w, a);
    ReleaseFinds(r, k % 2);
    assert e[1..] == [Release(k % 2)] && e[1..][1..] == [];
    assert Run(w, e) == Run(r, [Release(k % 2)]) == Run(Apply(r, Release(k % 2)), []);
    var end := Apply(r, Release(k % 2));
    assert end.pool.slots == seq(MAX_SKBS, _ => 0)[k + 1 := Native(kva, (k + 1) % 2).head];
    assert end.live == r.live - {k % 2} && end.owner == r.owner - {k};
  }

  lemma {:induction false} RunAppend(w: World, a: seq<Event>, b: seq<Event>)
    ensures Run(w, a + b) == if Run(w, a).None? then None else Run(Run(w, a).value, b)
    decreases |a|
  {
    if a == [] {
      assert a + b == b;
    } else {
      assert (a + b)[1..] == a[1..] + b;
      if Allowed(w, a[0]) {
        RunAppend(Apply(w, a[0]), a[1..], b);
      }
    }
  }

  /** From the start to slot k. */
  function Climb(kva: Addr, k: nat): seq<Event> {
    if k <= 1 then [SetBuffers(kva), Start, Alloc(1, Native(kva, 1))]
    else Climb(kva, k - 1) + [Alloc(k % 2, Native(kva, k % 2)), Release((k - 1) % 2)]
  }

  lemma ClimbFirst(kva: Addr)
    requires kva != 0 && kva % SKB_SIZE == 0
    ensures Run(INITIAL, Climb(kva, 1)).Some? && AtSlot(Run(INITIAL, Climb(kva, 1)).value, kva, 1)
  {
    NativeOutside(kva, 1);
    var e := Climb(kva, 1);
    var w1 := Apply(INITIAL, e[0]);
    var w2 := Apply(w1, e[1]);
    assert e[1..][1..] == [e[2]] && e[1..][0] == e[1] && [e[2]][1..] == [];
    assert w2.pool.Free(1);
    SearchEnds(w2.pool);
    ProbeReaches(1, Search(w2.pool).value);
    ProbeReaches(1, 1);
    assert Distance(1, 1) == 0;
    assert Switches(w2.pool, Native(kva, 1));
    assert Run(INITIAL, e) == Run(w1, e[1..]) == Run(w2, [e[2]]) == Run(Apply(w2, e[2]), []);
  }

  lemma {:induction false} ClimbReaches(kva: Addr, k: nat)
    requires kva != 0 && kva % SKB_SIZE == 0 && 1 <= k < MAX_SKBS && (k > 1 ==> Reached(kva, k - 1))
    ensures Run(INITIAL, Climb(kva, k)).Some? && AtSlot(Run(INITIAL, Climb(kva, k)).value, kva, k)
    ensures MapsAt(Climb(kva, k), kva)
  {
    if k == 1 {
      ClimbFirst(kva);
    } else {
      ClimbReaches(kva, k - 1);
      var w := Run(INITIAL, Climb(kva, k - 1)).value;
      InitialKept();
      RunKeeps(INITIAL, Climb(kva, k - 1));
      ReleasePrevious(w, kva, k - 1);
      RunAppend(INITIAL, Climb(kva, k - 1), [Alloc(k % 2, Native(kva, k % 2)), Release((k - 1) % 2)]);
    }
  }

  // ---- The exact condition ----

  /** The first slot of a mapping that a release does not find. */
  function FirstLost(kva: Addr): nat {
    (MAX_MEMORY - kva % MAX_MEMORY) / SKB_SIZE
  }

  /** To the first lost slot, and its release. */
  function LosingRun(kva: Addr): seq<Event> {
    Climb(kva, FirstLost(kva)) + [Release(FirstLost(kva) % 2)]
  }

  lemma LosingRunLoses(kva: Addr)
    requires kva % SKB_SIZE == 0 && kva % MAX_MEMORY != 0
    ensures Run(INITIAL, LosingRun(kva)).Some? && MapsAt(LosingRun(kva), kva)
    ensures var w := Run(INITIAL, LosingRun(kva)).value;
      FirstLost(kva) in w.leaked && !HeadsKept(w.handed)
  {
    var k := FirstLost(kva);
    assert 1 <= k < MAX_SKBS && !Reached(kva, k) && (k > 1 ==> Reached(kva, k - 1));
    ClimbReaches(kva, k);
    var w := Run(INITIAL, Climb(kva, k)).value;
    InitialKept();
    RunKeeps(INITIAL, Climb(kva, k));
    RunAppend(INITIAL, Climb(kva, k), [Release(k % 2)]);
    assert [Release(k % 2)][1..] == [];
    ReleaseFinds(w, k % 2);
    ReleaseHands(w, k % 2);
    NativeOutside(kva, k % 2);
    var r := Apply(w, Release(k % 2));
    assert r.handed[|w.handed|].back.head != r.handed[|w.handed|].given.head;
  }

  predicate NothingLost(w: World) {
    w.leaked == {} && HeadsKept(w.handed)
  }

  ghost predicate LosslessFrom(w: World, kva: Addr, events: seq<Event>) {
    Run(w, events).Some? && MapsAt(events, kva) ==> NothingLost(Run(w, events).value)
  }

  /** In all runs over a page-aligned mapping nothing leaks and every head is handed back, iff it is at a multiple of 32 MB. */
  lemma LosslessIffAligned(kva: Addr)
    requires kva % SKB_SIZE == 0
    ensures (forall events :: LosslessFrom(INITIAL, kva, events)) <==> kva % 0x200_0000 == 0
  {
    if kva % MAX_MEMORY == 0 {
      forall events
        ensures LosslessFrom(INITIAL, kva, events)
      {
        if Run(INITIAL, events).Some? && MapsAt(events, kva) {
          InitialKept();
          AlignedRun(INITIAL, events, kva);
        }
      }
    } else {
      LosingRunLoses(kva);
      assert !LosslessFrom(INITIAL, kva, LosingRun(kva));
    }
  }

  /** Mapped at 0x1fff000, the first buffer already is lost: its native release gets the head 0x2000000. */
  lemma FailingRun()
    ensures LosingRun(0x1fff000) == [SetBuffers(0x1fff000), Start, Alloc(1, Native(0x1fff000, 1)), Release(1)]
    ensures Run(INITIAL, LosingRun(0x1fff000)).Some?
    ensures var w := Run(INITIAL, LosingRun(0x1fff000)).value;
      var given := Skb(0x400_0100, 0x400_0140, 0x400_0140, 0x400_0200, 0);
      var back := Skb(0x200_0000, 0x200_0040, 0x200_0040, 0x200_0100, 0);
      w.pool.slots[1] != 0 && w.leaked == {1} && w.handed == [Handed(given, back, false, 0x1fff000, 1)]
  {
    var kva: Addr := 0x1fff000;
    assert FirstLost(kva) == 1;
    ClimbFirst(kva);
    LosingRunLoses(kva);
  }
}
