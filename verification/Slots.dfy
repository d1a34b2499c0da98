/**
 * The allocator of 4 KB slots for socket buffers, on values: what a switched
 * allocation and a release make of the slot table and of the buffer. Slot 0 is
 * the mailbox of the GPU.
 */
module Slots {
  import opened Wrappers
  import Bytes

  const MAX_SKBS: nat := 8192
  const SKB_SIZE: nat := 4096
  const MAX_MEMORY: nat := 0x200_0000

  /** An unsigned long. */
  type Addr = n: nat | n < Bytes.TWO64

  function Plus(a: Addr, b: Addr): Addr { (a + b) % Bytes.TWO64 }
  function Minus(a: Addr, b: Addr): Addr { (a - b) % Bytes.TWO64 }

  /** The fields of a struct sk_buff that matter here, as absolute addresses. */
  datatype Skb = Skb(head: Addr, data: Addr, tail: Addr, end: Addr, frags: nat)

  /** nfgpu_skbs, nfgpu_next, nfgpu_kva and nfgpu_running; a used slot holds the native head. */
  datatype Pool = Pool(slots: seq<Addr>, next: nat, kva: Addr, running: bool) {
    predicate WellFormed() {
      |slots| == MAX_SKBS && 1 <= next < MAX_SKBS
    }

    predicate Free(i: nat)
      requires WellFormed()
    {
      1 <= i < MAX_SKBS && slots[i] == 0
    }
  }

  // ---- The search for a free slot ----

  /** One step of the search: slot 0 is passed over. */
  function StepOn(i: nat): nat {
    if i + 1 >= MAX_SKBS then 1 else i + 1
  }

  /** The slot that the search looks at after k steps. */
  function Probe(next: nat, k: nat): nat {
    if k == 0 then next else StepOn(Probe(next, k - 1))
  }

  lemma {:induction false} ProbeAt(next: nat, k: nat)
    requires 1 <= next < MAX_SKBS
    ensures Probe(next, k) == (next - 1 + k) % (MAX_SKBS - 1) + 1
  {
    if k > 0 {
      ProbeAt(next, k - 1);
    }
  }

  /** The search ends after k steps, at the first free slot that it comes to. */
  ghost predicate EndsAfter(p: Pool, k: nat)
    requires p.WellFormed()
  {
    p.Free(Probe(p.next, k)) && forall j: nat :: j < k ==> !p.Free(Probe(p.next, j))
  }

  /** Steps until a free slot, within the given number. */
  function StepsFrom(p: Pool, k: nat, limit: nat): (r: Option<nat>)
    requires p.WellFormed() && k <= limit
    ensures r.Some? ==> k <= r.value < limit && p.Free(Probe(p.next, r.value))
    ensures r.Some? ==> forall j: nat :: k <= j < r.value ==> !p.Free(Probe(p.next, j))
    ensures r.None? ==> forall j: nat :: k <= j < limit ==> !p.Free(Probe(p.next, j))
    decreases limit - k
  {
    if k == limit then None
    else if p.Free(Probe(p.next, k)) then Some(k)
    else StepsFrom(p, k + 1, limit)
  }

  /** Where the search ends; None when it never does. */
  function Search(p: Pool): (r: Option<nat>)
    requires p.WellFormed()
  {
    var steps := StepsFrom(p, 0, MAX_SKBS - 1);
    if steps.None? then None else Some(Probe(p.next, steps.value))
  }

  /** The search comes to slot i after this many steps. */
  function Distance(next: nat, i: nat): (k: nat)
    requires 1 <= next < MAX_SKBS && 1 <= i < MAX_SKBS
    ensures k < MAX_SKBS - 1
  {
    (i - next) % (MAX_SKBS - 1)
  }

  lemma ProbeReaches(next: nat, i: nat)
    requires 1 <= next < MAX_SKBS && 1 <= i < MAX_SKBS
    ensures Probe(next, Distance(next, i)) == i
  {
    ProbeAt(next, Distance(next, i));
  }

  /**
   * The loop ends exactly when some slot other than 0 is free; then it ends at
   * the first free one in cyclic order from where it starts.
   */
  lemma SearchEnds(p: Pool)
    requires p.WellFormed()
    ensures (exists k: nat :: EndsAfter(p, k)) <==> (exists i: nat :: p.Free(i))
    ensures Search(p).Some? <==> exists i: nat :: p.Free(i)
    ensures Search(p).Some? ==>
      p.Free(Search(p).value) && forall i: nat :: p.Free(i) ==> Distance(p.next, Search(p).value) <= Distance(p.next, i)
  {
    var steps := StepsFrom(p, 0, MAX_SKBS - 1);
    forall i: nat | p.Free(i)
      ensures steps.Some? && steps.value <= Distance(p.next, i)
    {
      ProbeReaches(p.next, i);
    }
    if steps.Some? {
      assert EndsAfter(p, steps.value);
      ProbeAt(p.next, steps.value);
      DistanceOfProbe(p.next, steps.value);
    }
    forall k: nat | EndsAfter(p, k)
      ensures p.Free(Probe(p.next, k))
    {
    }
  }

  lemma DistanceOfProbe(next: nat, k: nat)
    requires 1 <= next < MAX_SKBS && k < MAX_SKBS - 1
    ensures 1 <= Probe(next, k) < MAX_SKBS && Distance(next, Probe(next, k)) == k
  {
    ProbeAt(next, k);
  }

  // ---- Allocation ----

  /** The buffer of slot i. */
  function SlotAddr(kva: Addr, i: nat): Addr
    requires i < MAX_SKBS
  {
    Plus(kva, i * SKB_SIZE)
  }

  /** Only buffers of at most a page and without fragments are switched, and only while running. */
  predicate Switches(p: Pool, native: Skb) {
    p.running && native.frags == 0 && Minus(native.end, native.head) <= SKB_SIZE
  }

  /** The buffer at a new address; skb_reset_tail_pointer puts the tail at the data. */
  function SwitchedTo(native: Skb, head: Addr): Skb {
    native.(head := head, data := Plus(head, Minus(native.data, native.head)), tail := Plus(head, Minus(native.data, native.head)),
            end := Plus(head, Minus(native.end, native.head)))
  }

  /** __netdev_alloc_skb_togpu on the buffer of the native allocator; None when it never returns. */
  function Allocated(p: Pool, native: Skb): (r: Option<(Pool, Skb)>)
    requires p.WellFormed()
  {
    if !Switches(p, native) then Some((p, native))
    else if Search(p).None? then None
    else
      var i := Search(p).value;
      assert p.Free(i);
      Some((p.(slots := p.slots[i := native.head], next := i), SwitchedTo(native, SlotAddr(p.kva, i))))
  }

  // ---- Release ----

  /** The slot number that release and nfgpu_target compute, an unsigned long. */
  function Index(p: Pool, head: Addr): Addr {
    Minus(head / SKB_SIZE, p.kva / SKB_SIZE)
  }

  /** The address looks like one of the mapped GPU memory. */
  predicate InMemory(p: Pool, head: Addr) {
    head / MAX_MEMORY == p.kva / MAX_MEMORY && Index(p, head) < MAX_SKBS
  }

  /** Slot i lies below the next multiple of 32 MB. */
  predicate Reached(kva: Addr, i: nat) {
    kva % MAX_MEMORY + i * SKB_SIZE < MAX_MEMORY
  }

  predicate Recognised(p: Pool, head: Addr)
    requires p.WellFormed()
  {
    p.kva != 0 && InMemory(p, head) && p.slots[Index(p, head)] != 0
  }

  /** The index that nfgpu_target hands to the GPU, if any. */
  function TargetIndex(p: Pool, head: Addr): Option<Addr> {
    if p.running && InMemory(p, head) then Some(Index(p, head)) else None
  }

  /** The buffer at the given head, with its pointers at the same offsets. */
  function MovedTo(skb: Skb, head: Addr): Skb {
    skb.(head := head, data := Plus(head, Minus(skb.data, skb.head)), tail := Plus(head, Minus(skb.tail, skb.head)),
         end := Plus(head, Minus(skb.end, skb.head)))
  }

  /** skb_release_data_togpu, up to the call of the native release. */
  function Released(p: Pool, skb: Skb): (Pool, Skb)
    requires p.WellFormed()
  {
    if !Recognised(p, skb.head) then (p, skb)
    else
      var i := Index(p, skb.head);
      (p.(slots := p.slots[i := 0]), MovedTo(skb, p.slots[i]))
  }

  /** The slot table that vmap's result leaves: all slots are cleared when it failed. */
  function Mapped(p: Pool, mapped: Addr): Pool {
    p.(kva := mapped, slots := if mapped == 0 then seq(MAX_SKBS, _ => 0) else p.slots)
  }

  // ---- Addresses ----

  lemma PlusMinus(a: Addr, b: Addr)
    ensures Plus(a, Minus(b, a)) == b
    ensures Minus(Plus(a, b), a) == b
  {
  }

  /** Of a page-aligned mapping, slot i is recognised exactly when it lies below the next multiple of 32 MB. */
  lemma SlotRecognised(p: Pool, i: nat)
    requires p.kva % SKB_SIZE == 0 && i < MAX_SKBS
    ensures InMemory(p, SlotAddr(p.kva, i)) <==> Reached(p.kva, i)
    ensures InMemory(p, SlotAddr(p.kva, i)) ==> Index(p, SlotAddr(p.kva, i)) == i
  {
  }

  /** Slot i was found for the native buffer. */
  predicate Found(p: Pool, native: Skb, i: nat)
    requires p.WellFormed()
  {
    Switches(p, native) && Search(p) == Some(i)
  }

  /**
   * A switched buffer, its data and tail moved at will and the device started
   * or stopped meanwhile, goes to the native release with the head that the
   * native allocator gave it and its present offsets, and its slot is free
   * again: exactly when the slot lies below the next multiple of 32 MB.
   */
  lemma ReleaseUndoesAlloc(p: Pool, native: Skb, i: nat, data: Addr, tail: Addr, running: bool)
    requires p.WellFormed() && p.kva != 0 && p.kva % SKB_SIZE == 0 && native.head != 0 && Found(p, native, i)
    ensures i < MAX_SKBS && p.Free(i)
    ensures var (q, skb) := Allocated(p, native).value;
      var (back, handed) := Released(q.(running := running), skb.(data := data, tail := tail));
      var restored := native.(data := Plus(native.head, Minus(data, skb.head)), tail := Plus(native.head, Minus(tail, skb.head)));
      (handed == restored && back == p.(next := i, running := running)) <==> Reached(p.kva, i)
  {
    SearchEnds(p);
    var (q, skb) := Allocated(p, native).value;
    SlotRecognised(q, i);
    assert p.slots[i := native.head][i := 0] == p.slots;
    PlusMinus(skb.head, Minus(native.end, native.head));
    PlusMinus(native.head, native.end);
  }

  // ---- The same in plain numbers ----

  lemma SwitchedOffsets(native: Skb, head: Addr)
    ensures var skb := SwitchedTo(native, head);
      && Minus(skb.data, head) == Minus(native.data, native.head) && Minus(skb.end, head) == Minus(native.end, native.head)
  {
    PlusMinus(head, Minus(native.data, native.head));
    PlusMinus(head, Minus(native.end, native.head));
  }

  /**
   * A buffer is switched exactly while running, without fragments and up to 4096
   * bytes long. It then starts at a free page other than the first of the mapping,
   * with the headroom and the length it had and its tail at its data; the page's
   * slot keeps its native head. The allocation does not return iff all pages are in use.
   */
  lemma AllocationLaw(p: Pool, native: Skb)
    requires p.WellFormed()
    ensures var r := Allocated(p, native); var i := if r.Some? then r.value.0.next else 0;
      if p.running && native.frags == 0 && (native.end - native.head) % 0x1_0000_0000_0000_0000 <= 4096 then
        && (r.None? <==> forall j: nat :: 1 <= j < 8192 ==> p.slots[j] != 0)
        && (r.Some? ==> 1 <= i < 8192 && p.slots[i] == 0 && r.value.0 == p.(slots := p.slots[i := native.head], next := i))
        && (r.Some? ==> PlacedAt(native, r.value.1, (p.kva + i * 0x1000) % 0x1_0000_0000_0000_0000))
      else r == Some((p, native))
  {
    SearchEnds(p);
    var r := Allocated(p, native);
    if Switches(p, native) && r.Some? {
      assert p.Free(Search(p).value);
      SwitchedOffsets(native, SlotAddr(p.kva, Search(p).value));
    }
    assert forall j: nat :: p.Free(j) <==> 1 <= j < 8192 && p.slots[j] == 0;
  }

  /** The buffer, switched to an address: the distances of data and end from head, and tail at data. */
  predicate PlacedAt(native: Skb, skb: Skb, at: int) {
    && skb.head == at && skb.tail == skb.data && skb.frags == native.frags
    && (skb.data - skb.head) % 0x1_0000_0000_0000_0000 == (native.data - native.head) % 0x1_0000_0000_0000_0000
    && (skb.end - skb.head) % 0x1_0000_0000_0000_0000 == (native.end - native.head) % 0x1_0000_0000_0000_0000
  }

  /** Slot 1 of a mapping at 32 MB, with a headroom of 64 bytes and 2048 bytes in all. */
  lemma SwitchedExample(p: Pool)
    requires p.WellFormed() && p.kva == 0x200_0000 && p.running && p.next == 1 && p.slots[1] == 0
    ensures Allocated(p, Skb(0x1000_0000, 0x1000_0040, 0x1000_0040, 0x1000_0800, 0))
         == Some((p.(slots := p.slots[1 := 0x1000_0000]), Skb(0x200_1000, 0x200_1040, 0x200_1040, 0x200_1800, 0)))
  {
    assert p.Free(1);
    SearchEnds(p);
    ProbeReaches(1, Search(p).value);
    assert Distance(1, 1) == 0;
    ProbeReaches(1, 1);
  }

  /** The slot of an address: its page's distance from the mapping's first page, if both lie in the same 32 MB. */
  ghost predicate SlotOf(kva: Addr, head: Addr, i: nat) {
    head / 0x200_0000 == kva / 0x200_0000 && i < 8192 && head / 0x1000 == kva / 0x1000 + i
  }

  /** A release restores the head found in the slot of the buffer, keeps the distances from it, and frees the slot; otherwise it changes nothing. */
  lemma ReleaseLaw(p: Pool, skb: Skb)
    requires p.WellFormed()
    ensures var (q, back) := Released(p, skb);
      (forall i: nat :: p.kva != 0 && SlotOf(p.kva, skb.head, i) && p.slots[i] != 0 ==>
         && q == p.(slots := p.slots[i := 0]) && back.head == p.slots[i] && back.frags == skb.frags
         && (back.data - back.head) % 0x1_0000_0000_0000_0000 == (skb.data - skb.head) % 0x1_0000_0000_0000_0000
         && (back.tail - back.head) % 0x1_0000_0000_0000_0000 == (skb.tail - skb.head) % 0x1_0000_0000_0000_0000
         && (back.end - back.head) % 0x1_0000_0000_0000_0000 == (skb.end - skb.head) % 0x1_0000_0000_0000_0000)
    ensures (forall i: nat :: p.kva != 0 && SlotOf(p.kva, skb.head, i) ==> p.slots[i] == 0) ==> Released(p, skb) == (p, skb)
  {
    forall i: nat
      ensures SlotOf(p.kva, skb.head, i) <==> InMemory(p, skb.head) && Index(p, skb.head) == i
    {
      SlotIsIndex(p, skb.head, i);
    }
    if Recognised(p, skb.head) {
      var head := p.slots[Index(p, skb.head)];
      PlusMinus(head, Minus(skb.data, skb.head));
      PlusMinus(head, Minus(skb.tail, skb.head));
      PlusMinus(head, Minus(skb.end, skb.head));
      assert SlotOf(p.kva, skb.head, Index(p, skb.head));
    }
  }

  /** While running, and only then, the index of the slot that the address looks like one of is handed over. */
  lemma TargetLaw(p: Pool, head: Addr)
    ensures !p.running ==> TargetIndex(p, head).None?
    ensures p.running ==> forall i: nat :: TargetIndex(p, head) == Some(i) <==> SlotOf(p.kva, head, i)
  {
    forall i: nat
      ensures SlotOf(p.kva, head, i) <==> InMemory(p, head) && Index(p, head) == i
    {
      SlotIsIndex(p, head, i);
    }
  }

  lemma SlotIsIndex(p: Pool, head: Addr, i: nat)
    ensures SlotOf(p.kva, head, i) <==> InMemory(p, head) && Index(p, head) == i
  {
  }
}
