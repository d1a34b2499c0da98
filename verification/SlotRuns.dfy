/**
 * All sequential runs of the allocator: allocations, releases, START, STOP and
 * SET_BUFFERS in any order, with the socket buffers in use between them.
 */
module SlotRuns {
  import opened Wrappers
  import opened Slots

  /** A buffer in use: its present fields, what the native allocator gave, its slot, 0 for none, and whether its data or tail was moved. */
  datatype Live = Live(skb: Skb, native: Skb, slot: nat, moved: bool)

  /**
   * A native release: the buffer that the native allocator gave, the one handed
   * back, whether data or tail was moved meanwhile, and which slot of which
   * mapping the buffer was in, 0 for none.
   */
  datatype Handed = Handed(given: Skb, back: Skb, moved: bool, kva: Addr, slot: nat)

  /**
   * owner says which buffer uses a slot, leaked which slots were not freed when
   * theirs was released; both are bookkeeping that the program does not have.
   */
  datatype World = World(pool: Pool, live: map<nat, Live>, owner: map<nat, nat>, leaked: set<nat>, handed: seq<Handed>)

  datatype Event =
    | Alloc(id: nat, native: Skb)
    | Move(id: nat, data: Addr, tail: Addr)
    | Release(id: nat)
    | Start
    | Stop
    | SetBuffers(mapped: Addr)

  /** Address a lies in the 32 MB mapped at kva. */
  predicate Within(kva: Addr, a: Addr) {
    kva != 0 && Minus(a, kva) < MAX_MEMORY
  }

  ghost predicate Unswitched(w: World) {
    forall id :: id in w.live ==> w.live[id].slot == 0
  }

  /**
   * What the environment keeps to: native buffers are not null and not in the
   * mapped memory, START needs a mapping, and a new mapping, at a page boundary as
   * vmap gives it, is made only while stopped and without switched buffers.
   */
  ghost predicate Allowed(w: World, e: Event) {
    w.pool.WellFormed() &&
    match e
    case Alloc(id, native) =>
      id !in w.live && native.head != 0 && !Within(w.pool.kva, native.head) && Allocated(w.pool, native).Some?
    case Move(id, _, _) => id in w.live
    case Release(id) => id in w.live
    case Start => w.pool.kva != 0
    case Stop => true
    case SetBuffers(mapped) =>
      && !w.pool.running && Unswitched(w) && mapped % SKB_SIZE == 0
      && forall id :: id in w.live ==> !Within(mapped, w.live[id].skb.head)
  }

  ghost function Apply(w: World, e: Event): World
    requires Allowed(w, e)
  {
    match e
    case Alloc(id, native) =>
      var (pool, skb) := Allocated(w.pool, native).value;
      if Switches(w.pool, native) then
        w.(pool := pool, live := w.live[id := Live(skb, native, pool.next, false)], owner := w.owner[pool.next := id])
      else
        w.(pool := pool, live := w.live[id := Live(skb, native, 0, false)])
    case Move(id, data, tail) =>
      w.(live := w.live[id := w.live[id].(skb := w.live[id].skb.(data := data, tail := tail), moved := true)])
    case Release(id) =>
      var l := w.live[id];
      var (pool, skb) := Released(w.pool, l.skb);
      World(pool, w.live - {id}, w.owner - {l.slot}, w.leaked + (if l.slot < MAX_SKBS && pool.slots[l.slot] != 0 then {l.slot} else {}),
            w.handed + [Handed(l.native, skb, l.moved, w.pool.kva, l.slot)])
    case Start => w.(pool := w.pool.(running := true))
    case Stop => w.(pool := w.pool.(running := false))
    case SetBuffers(mapped) => w.(pool := Mapped(w.pool, mapped), leaked := if mapped == 0 then {} else w.leaked)
  }

  // ---- The invariant ----

  ghost predicate TableKept(p: Pool) {
    && p.WellFormed() && p.slots[0] == 0
    && p.kva % SKB_SIZE == 0 && (p.running ==> p.kva != 0)
  }

  /**
   * A switched buffer sits in its slot, which holds its native head, an address
   * outside the mapped memory. It is as long as the native one, and until it is
   * moved its data has the native headroom and its tail is at its data.
   */
  predicate SwitchedKept(p: Pool, l: Live)
    requires p.WellFormed()
  {
    && l.slot < MAX_SKBS && p.kva != 0 && p.slots[l.slot] == l.native.head && !Within(p.kva, l.native.head)
    && l.skb.head == SlotAddr(p.kva, l.slot)
    && Minus(l.skb.end, l.skb.head) == Minus(l.native.end, l.native.head) <= SKB_SIZE && l.skb.frags == l.native.frags
    && (!l.moved ==> Minus(l.skb.data, l.skb.head) == Minus(l.native.data, l.native.head) && l.skb.tail == l.skb.data)
  }

  /** Any other buffer is where the native allocator put it, outside the mapped memory. */
  predicate NativeKept(p: Pool, l: Live) {
    && !Within(p.kva, l.native.head) && l.skb == l.native.(data := l.skb.data, tail := l.skb.tail)
    && (!l.moved ==> l.skb == l.native)
  }

  ghost predicate BufferKept(w: World, id: nat)
    requires w.pool.WellFormed() && id in w.live
  {
    var l := w.live[id];
    && l.native.head != 0
    && if l.slot == 0 then NativeKept(w.pool, l) else SwitchedKept(w.pool, l) && l.slot in w.owner && w.owner[l.slot] == id
  }

  /** Slot i is used exactly when it has an owner, which is in use and sits in it, or has leaked. */
  ghost predicate SlotKept(w: World, i: nat)
    requires w.pool.WellFormed()
  {
    && (i in w.owner || i in w.leaked <==> i < MAX_SKBS && w.pool.slots[i] != 0)
    && (i in w.owner ==> i > 0 && i !in w.leaked && w.owner[i] in w.live && w.live[w.owner[i]].slot == i)
  }

  /**
   * The head handed back is the one given exactly for native buffers and slots
   * below the next multiple of 32 MB. With it go the other native fields, and the
   * native data too unless it was moved; the tail of a switched buffer is then at its data.
   */
  predicate HandedRight(h: Handed) {
    && (h.back.head == h.given.head <==> h.slot == 0 || Reached(h.kva, h.slot))
    && (h.back.head == h.given.head ==> h.back == h.given.(data := h.back.data, tail := h.back.tail))
    && (h.back.head == h.given.head && !h.moved ==> h.back == if h.slot == 0 then h.given else h.given.(tail := h.given.data))
  }

  ghost predicate AllHandedRight(handed: seq<Handed>) {
    forall k :: 0 <= k < |handed| ==> HandedRight(handed[k])
  }

  ghost predicate Kept(w: World) {
    && TableKept(w.pool) && AllHandedRight(w.handed)
    && (forall id :: id in w.live ==> BufferKept(w, id))
    && (forall i: nat :: SlotKept(w, i))
  }

  lemma AllocKeeps(w: World, id: nat, native: Skb)
    requires Kept(w) && Allowed(w, Alloc(id, native))
    ensures Kept(Apply(w, Alloc(id, native)))
  {
    var r := Apply(w, Alloc(id, native));
    if Switches(w.pool, native) {
      SearchEnds(w.pool);
      var i := r.pool.next;
      assert w.pool.Free(i) && SlotKept(w, i);
      var l := r.live[id];
      PlusMinus(l.skb.head, Minus(native.end, native.head));
      PlusMinus(l.skb.head, Minus(native.data, native.head));
      assert BufferKept(r, id);
      forall other | other in w.live
        ensures BufferKept(r, other)
      {
        assert BufferKept(w, other);
      }
      forall j: nat
        ensures SlotKept(r, j)
      {
        assert SlotKept(w, j);
      }
    } else {
      forall other | other in r.live
        ensures BufferKept(r, other)
      {
        assert other != id ==> BufferKept(w, other);
      }
      forall j: nat
        ensures SlotKept(r, j)
      {
        assert SlotKept(w, j);
      }
    }
  }

  lemma MoveKeeps(w: World, id: nat, data: Addr, tail: Addr)
    requires Kept(w) && Allowed(w, Move(id, data, tail))
    ensures Kept(Apply(w, Move(id, data, tail)))
  {
    var r := Apply(w, Move(id, data, tail));
    forall other | other in r.live
      ensures BufferKept(r, other)
    {
      assert BufferKept(w, other);
    }
    forall j: nat
      ensures SlotKept(r, j)
    {
      assert SlotKept(w, j);
    }
  }

  lemma OutsideMemory(p: Pool, head: Addr)
    requires p.kva % SKB_SIZE == 0 && p.kva != 0 && !Within(p.kva, head)
    ensures !InMemory(p, head)
  {
  }

  /** The mapped memory is where it takes the addresses of slots below the next multiple of 32 MB, and no others, to be. */
  lemma LiveInMemory(p: Pool, l: Live)
    requires TableKept(p) && p.kva != 0 && if l.slot == 0 then NativeKept(p, l) else SwitchedKept(p, l)
    ensures InMemory(p, l.skb.head) <==> l.slot != 0 && Reached(p.kva, l.slot)
    ensures InMemory(p, l.skb.head) ==> Index(p, l.skb.head) == l.slot
  {
    if l.slot != 0 {
      SlotRecognised(p, l.slot);
    } else {
      OutsideMemory(p, l.skb.head);
    }
  }

  /** A release finds the slot of a switched buffer exactly when it is so reached, and nothing for any other. */
  lemma ReleaseFinds(w: World, id: nat)
    requires Kept(w) && id in w.live
    ensures var l := w.live[id];
      && (Recognised(w.pool, l.skb.head) <==> l.slot != 0 && Reached(w.pool.kva, l.slot))
      && (Recognised(w.pool, l.skb.head) ==> Index(w.pool, l.skb.head) == l.slot)
  {
    assert BufferKept(w, id);
    if w.pool.kva != 0 {
      LiveInMemory(w.pool, w.live[id]);
    }
  }

  lemma SlotWithin(kva: Addr, i: nat)
    requires kva != 0 && i < MAX_SKBS
    ensures Within(kva, SlotAddr(kva, i))
  {
    PlusMinus(kva, i * SKB_SIZE);
  }

  /** At its native head a switched buffer ends where the native one did, and starts where it did unless moved. */
  lemma MovedBack(p: Pool, l: Live)
    requires p.WellFormed() && SwitchedKept(p, l)
    ensures var back := MovedTo(l.skb, l.native.head);
      && back == l.native.(data := back.data, tail := back.tail)
      && (!l.moved ==> back == l.native.(tail := l.native.data))
  {
    PlusMinus(l.native.head, l.native.end);
    PlusMinus(l.native.head, l.native.data);
  }

  lemma ReleasedIs(w: World, id: nat)
    requires Kept(w) && id in w.live
    ensures var l := w.live[id];
      Released(w.pool, l.skb).1 == if l.slot != 0 && Reached(w.pool.kva, l.slot) then MovedTo(l.skb, l.native.head) else l.skb
  {
    ReleaseFinds(w, id);
    assert BufferKept(w, id);
  }

  /** What the native release gets. */
  lemma ReleaseHands(w: World, id: nat)
    requires Kept(w) && Allowed(w, Release(id))
    ensures var l := w.live[id];
      HandedRight(Handed(l.native, Released(w.pool, l.skb).1, l.moved, w.pool.kva, l.slot))
  {
    ReleasedIs(w, id);
    assert BufferKept(w, id);
    if w.live[id].slot != 0 {
      MovedBack(w.pool, w.live[id]);
      SlotWithin(w.pool.kva, w.live[id].slot);
    }
  }

  lemma ReleaseKeeps(w: World, id: nat)
    requires Kept(w) && Allowed(w, Release(id))
    ensures Kept(Apply(w, Release(id)))
  {
    var r := Apply(w, Release(id));
    var l := w.live[id];
    ReleaseFinds(w, id);
    ReleaseHands(w, id);
    assert BufferKept(w, id);
    assert SlotKept(w, l.slot) && SlotKept(w, 0);
    forall other | other in r.live
      ensures BufferKept(r, other)
    {
      assert BufferKept(w, other);
    }
    forall j: nat
      ensures SlotKept(r, j)
    {
      assert SlotKept(w, j);
    }
  }

  lemma SetBuffersKeeps(w: World, mapped: Addr)
    requires Kept(w) && Allowed(w, SetBuffers(mapped))
    ensures Kept(Apply(w, SetBuffers(mapped)))
  {
    var r := Apply(w, SetBuffers(mapped));
    forall id | id in r.live
      ensures BufferKept(r, id)
    {
      assert BufferKept(w, id);
    }
    forall j: nat
      ensures SlotKept(r, j)
    {
      assert SlotKept(w, j);
    }
  }

  lemma SwitchKeeps(w: World, running: bool)
    requires Kept(w) && (running ==> w.pool.kva != 0)
    ensures Kept(w.(pool := w.pool.(running := running)))
  {
    var r := w.(pool := w.pool.(running := running));
    forall id | id in r.live
      ensures BufferKept(r, id)
    {
      assert BufferKept(w, id);
    }
    forall j: nat
      ensures SlotKept(r, j)
    {
      assert SlotKept(w, j);
    }
  }

  lemma ApplyKeeps(w: World, e: Event)
    requires Kept(w) && Allowed(w, e)
    ensures Kept(Apply(w, e))
  {
    match e
    case Alloc(id, native) => AllocKeeps(w, id, native);
    case Move(id, data, tail) => MoveKeeps(w, id, data, tail);
    case Release(id) => ReleaseKeeps(w, id);
    case Start => SwitchKeeps(w, true);
    case Stop => SwitchKeeps(w, false);
    case SetBuffers(mapped) => SetBuffersKeeps(w, mapped);
  }

  // ---- Runs ----

  /** nfgpu_internal_init */
  const INITIAL: World := World(Pool(seq(MAX_SKBS, _ => 0), 1, 0, false), map[], map[], {}, [])

  /** What the events lead to, None when one of them is not allowed. */
  ghost function Run(w: World, events: seq<Event>): Option<World>
    decreases |events|
  {
    if events == [] then Some(w)
    else if Allowed(w, events[0]) then Run(Apply(w, events[0]), events[1..])
    else None
  }

  lemma {:induction false} RunKeeps(w: World, events: seq<Event>)
    requires Kept(w) && Run(w, events).Some?
    ensures Kept(Run(w, events).value)
    decreases |events|
  {
    if events != [] {
      ApplyKeeps(w, events[0]);
      RunKeeps(Apply(w, events[0]), events[1..]);
    }
  }

  /** Buffer id is switched and its bytes start at slot i. */
  ghost predicate Occupies(w: World, id: nat, i: nat) {
    id in w.live && w.live[id].slot != 0 && i < MAX_SKBS && w.live[id].skb.head == SlotAddr(w.pool.kva, i)
  }

  ghost predicate OnlyOccupant(w: World, id: nat, i: nat) {
    Occupies(w, id, i) && forall other :: Occupies(w, other, i) ==> other == id
  }

  lemma SlotAddrInjective(kva: Addr, i: nat, j: nat)
    requires i < MAX_SKBS && j < MAX_SKBS && SlotAddr(kva, i) == SlotAddr(kva, j)
    ensures i == j
  {
  }

  lemma OccupantOwns(w: World, id: nat, i: nat)
    requires Kept(w) && Occupies(w, id, i)
    ensures i in w.owner && w.owner[i] == id
  {
    assert BufferKept(w, id);
    SlotAddrInjective(w.pool.kva, i, w.live[id].slot);
  }

  ghost predicate Occupied(w: World, i: nat) {
    exists id :: OnlyOccupant(w, id, i)
  }

  /** In every reachable state a slot is non-zero exactly when one live buffer, and only one, sits in it, or it has leaked; slot 0 never is. */
  lemma SlotOccupied(w: World, i: nat)
    requires Kept(w) && i < MAX_SKBS
    ensures w.pool.slots[i] != 0 <==> Occupied(w, i) || i in w.leaked
    ensures !(Occupied(w, i) && i in w.leaked) && w.pool.slots[0] == 0
  {
    assert SlotKept(w, i);
    if i in w.owner {
      var id := w.owner[i];
      assert BufferKept(w, id);
      forall other | Occupies(w, other, i)
        ensures other == id
      {
        OccupantOwns(w, other, i);
      }
      assert OnlyOccupant(w, id, i);
    }
    forall id | OnlyOccupant(w, id, i)
      ensures i in w.owner
    {
      OccupantOwns(w, id, i);
    }
  }

  /** Byte a belongs to a buffer. */
  predicate Holds(s: Skb, a: Addr) {
    Minus(a, s.head) < Minus(s.end, s.head)
  }

  lemma MinusSlot(kva: Addr, i: nat, a: Addr)
    requires i < MAX_SKBS
    ensures Minus(a, SlotAddr(kva, i)) == Minus(Minus(a, kva), i * SKB_SIZE)
  {
  }

  lemma SlotsApart(kva: Addr, i: nat, j: nat, a: Addr)
    requires i < MAX_SKBS && j < MAX_SKBS && i != j
    ensures Minus(a, SlotAddr(kva, i)) >= SKB_SIZE || Minus(a, SlotAddr(kva, j)) >= SKB_SIZE
  {
    MinusSlot(kva, i, a);
    MinusSlot(kva, j, a);
    PagesApart(Minus(a, kva), i, j);
  }

  lemma PagesApart(x: Addr, i: nat, j: nat)
    requires i < MAX_SKBS && j < MAX_SKBS && i != j
    ensures Minus(x, i * SKB_SIZE) >= SKB_SIZE || Minus(x, j * SKB_SIZE) >= SKB_SIZE
  {
  }

  lemma LengthKept(p: Pool, l: Live)
    requires p.WellFormed() && SwitchedKept(p, l)
    ensures Minus(l.skb.end, l.skb.head) <= SKB_SIZE
  {
  }

  /** No two switched buffers share a byte. */
  lemma BuffersDisjoint(w: World, id: nat, other: nat, a: Addr)
    requires Kept(w) && id in w.live && other in w.live && id != other
    requires w.live[id].slot != 0 && w.live[other].slot != 0
    ensures !(Holds(w.live[id].skb, a) && Holds(w.live[other].skb, a))
  {
    assert BufferKept(w, id) && BufferKept(w, other);
    SlotsApart(w.pool.kva, w.live[id].slot, w.live[other].slot, a);
    LengthKept(w.pool, w.live[id]);
    LengthKept(w.pool, w.live[other]);
  }

  ghost predicate Apart(w: World, id: nat, other: nat, a: Addr) {
    id in w.live && other in w.live && id != other && w.live[id].slot != 0 && w.live[other].slot != 0 ==>
      !(Holds(w.live[id].skb, a) && Holds(w.live[other].skb, a))
  }

  ghost function Used(p: Pool): set<nat>
    requires p.WellFormed()
  {
    set i: nat | i < MAX_SKBS && p.slots[i] != 0
  }

  ghost function SwitchedIds(live: map<nat, Live>): set<nat> {
    set id | id in live && live[id].slot != 0
  }

  /** As many slots are used as switched buffers are live and slots have leaked. */
  lemma Conservation(w: World)
    requires Kept(w)
    ensures |Used(w.pool)| == |SwitchedIds(w.live)| + |w.leaked|
  {
    forall i: nat
      ensures i in Used(w.pool) <==> i in w.owner || i in w.leaked
      ensures !(i in w.owner && i in w.leaked)
    {
      assert SlotKept(w, i);
    }
    assert Used(w.pool) == w.owner.Keys + w.leaked && w.owner.Keys !! w.leaked;
    OwnersAreSwitched(w);
  }

  lemma OwnersAreSwitched(w: World)
    requires Kept(w)
    ensures |w.owner.Keys| == |SwitchedIds(w.live)|
  {
    forall id | id in SwitchedIds(w.live)
      ensures w.live[id].slot in w.owner && w.owner[w.live[id].slot] == id
    {
      assert BufferKept(w, id);
    }
    forall i | i in w.owner
      ensures w.owner[i] in SwitchedIds(w.live) && w.live[w.owner[i]].slot == i
    {
      assert SlotKept(w, i);
    }
    SameSize(w.owner.Keys, SwitchedIds(w.live), w.owner, map id | id in SwitchedIds(w.live) :: w.live[id].slot);
  }

  /** Sets that two maps lead to and fro are of one size. */
  lemma {:induction false} SameSize(a: set<nat>, b: set<nat>, to: map<nat, nat>, fro: map<nat, nat>)
    requires forall x :: x in a ==> x in to && to[x] in b && to[x] in fro && fro[to[x]] == x
    requires forall y :: y in b ==> y in fro && fro[y] in a && fro[y] in to && to[fro[y]] == y
    ensures |a| == |b|
  {
    if a == {} {
      assert b == {};
    } else {
      var x :| x in a;
      var y := to[x];
      assert |a - {x}| == |a| - 1;
      assert |b - {y}| == |b| - 1;
      SameSize(a - {x}, b - {y}, to, fro);
    }
  }

  /**
   * Over every run from the start, with mappings at any page boundary: slot 0 is
   * never used, the search position stays in 1 to 8191, every slot is non-zero
   * exactly when one live buffer sits in it or it has leaked, switched buffers are
   * disjoint, and every buffer released went back with its own head exactly when it
   * was native or in a slot below the next multiple of 32 MB.
   */
  lemma RunsSafe(events: seq<Event>)
    requires Run(INITIAL, events).Some?
    ensures var w := Run(INITIAL, events).value;
      && w.pool.WellFormed() && w.pool.slots[0] == 0 && AllHandedRight(w.handed)
      && (forall i: nat :: i < MAX_SKBS ==> (w.pool.slots[i] != 0 <==> Occupied(w, i) || i in w.leaked))
      && (forall i: nat :: i < MAX_SKBS ==> !(Occupied(w, i) && i in w.leaked))
      && |Used(w.pool)| == |SwitchedIds(w.live)| + |w.leaked|
      && (forall id, other, a :: Apart(w, id, other, a))
  {
    InitialKept();
    RunKeeps(INITIAL, events);
    var w := Run(INITIAL, events).value;
    forall i: nat | i < MAX_SKBS
      ensures w.pool.slots[i] != 0 <==> Occupied(w, i) || i in w.leaked
      ensures !(Occupied(w, i) && i in w.leaked)
    {
      SlotOccupied(w, i);
    }
    SlotOccupied(w, 0);
    Conservation(w);
    forall id, other, a
      ensures Apart(w, id, other, a)
    {
      if id in w.live && other in w.live && id != other && w.live[id].slot != 0 && w.live[other].slot != 0 {
        BuffersDisjoint(w, id, other, a);
      }
    }
  }

  lemma InitialKept()
    ensures Kept(INITIAL)
  {
    forall i: nat
      ensures SlotKept(INITIAL, i)
    {
    }
  }
}
