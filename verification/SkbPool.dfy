/**
 * The hooked socket buffer routines and the state they share, updated in
 * place; each is tied to its function on values in module Slots.
 */
module SkbPool {
  import opened Wrappers
  import opened Slots

  class SkBuff {
    var head: Addr
    var data: Addr
    var tail: Addr
    var end: Addr
    var frags: nat

    constructor (s: Skb)
      ensures View() == s
    {
      head, data, tail, end, frags := s.head, s.data, s.tail, s.end, s.frags;
    }

    function View(): Skb
      reads this
    {
      Skb(head, data, tail, end, frags)
    }
  }

  class TogpuPool {
    const skbs: array<Addr>
    var next: nat
    var kva: Addr
    var running: bool

    ghost predicate Valid()
      reads this, skbs
    {
      View().WellFormed()
    }

    ghost function View(): Pool
      reads this, skbs
    {
      Pool(skbs[..], next, kva, running)
    }

    /** nfgpu_internal_init */
    constructor ()
      ensures Valid() && fresh(skbs)
      ensures View() == Pool(seq(MAX_SKBS, _ => 0), 1, 0, false)
    {
      skbs := new Addr[MAX_SKBS](_ => 0);
      next, kva, running := 1, 0, false;
      new;
      assert skbs[..] == seq(MAX_SKBS, _ => 0);
    }

    /** The loop of __netdev_alloc_skb_togpu: it ends because a slot is free. */
    method FindFreeSlot()
      requires Valid() && Search(View()).Some?
      modifies this`next
      ensures View() == old(View()).(next := Search(old(View())).value)
    {
      ghost var p, k := View(), 0;
      ghost var last := StepsFrom(p, 0, MAX_SKBS - 1).value;
      while skbs[next] != 0
        invariant View() == p.(next := Probe(p.next, k)) && 1 <= next < MAX_SKBS
        invariant k <= last
        decreases last - k
      {
        assert !p.Free(Probe(p.next, k));
        next := next + 1;
        if next >= MAX_SKBS {
          next := 1;
        }
        k := k + 1;
      }
      assert p.Free(Probe(p.next, k));
    }

    /** __netdev_alloc_skb_togpu, from the return of the native allocator on. */
    method NetdevAllocSkb(ret: SkBuff)
      requires Valid() && Allocated(View(), ret.View()).Some?
      modifies this`next, skbs, ret
      ensures Valid() && (View(), ret.View()) == Allocated(old(View()), old(ret.View())).value
    {
      if running {
        var skblength := Minus(ret.end, ret.head);
        var headtodata := Minus(ret.data, ret.head);
        if ret.frags == 0 && skblength <= SKB_SIZE {
          SearchEnds(View());
          FindFreeSlot();
          skbs[next] := ret.head;
          var newhead := Plus(kva, next * SKB_SIZE);
          ret.head := newhead;
          ret.data := Plus(newhead, headtodata);
          ret.tail := ret.data;
          ret.end := Plus(newhead, skblength);
        }
      }
    }

    /** skb_release_data_togpu, up to the call of the native release. */
    method SkbReleaseData(skb: SkBuff)
      requires Valid()
      modifies skbs, skb
      ensures Valid() && (View(), skb.View()) == Released(old(View()), old(skb.View()))
    {
      var oldhead := skb.head;
      if kva != 0 && oldhead / MAX_MEMORY == kva / MAX_MEMORY {
        var ddata, dtail, dend := Minus(skb.data, oldhead), Minus(skb.tail, oldhead), Minus(skb.end, oldhead);
        var index := Minus(oldhead / SKB_SIZE, kva / SKB_SIZE);
        if index < MAX_SKBS {
          var newhead := skbs[index];
          if newhead != 0 {
            skb.head := newhead;
            skb.data := Plus(newhead, ddata);
            skb.tail := Plus(newhead, dtail);
            skb.end := Plus(newhead, dend);
            skbs[index] := 0;
          }
        }
      }
    }

    /** TOGPU_IOCTL_START */
    method Start()
      requires Valid()
      modifies this`running
      ensures Valid() && View() == old(View()).(running := true)
    {
      running := true;
    }

    /** TOGPU_IOCTL_STOP: the address stays, so that live buffers can still be released. */
    method Stop()
      requires Valid()
      modifies this`running
      ensures Valid() && View() == old(View()).(running := false)
    {
      running := false;
    }

    /** TOGPU_IOCTL_SET_BUFFERS, with the result of vmap. */
    method SetBuffers(mapped: Addr)
      requires Valid()
      modifies this`kva, skbs
      ensures Valid() && View() == Mapped(old(View()), mapped)
    {
      kva := mapped;
      if mapped == 0 {
        for i := 0 to MAX_SKBS
          invariant kva == mapped
          invariant forall j :: 0 <= j < i ==> skbs[j] == 0
        {
          skbs[i] := 0;
        }
        assert skbs[..] == seq(MAX_SKBS, _ => 0);
      }
    }

    /** What nfgpu_target publishes for a buffer, None when it lets the packet pass. */
    method NfgpuTarget(skb: SkBuff) returns (published: Option<Addr>)
      requires Valid()
      ensures published == TargetIndex(View(), skb.head)
      ensures !running ==> published.None?
      ensures running ==> forall i: nat :: published == Some(i) <==> SlotOf(kva, skb.head, i)
    {
      TargetLaw(View(), skb.head);
      if !running {
        return None;
      }
      var index := Minus(skb.head / SKB_SIZE, kva / SKB_SIZE);
      if skb.head / MAX_MEMORY != kva / MAX_MEMORY || index >= MAX_SKBS {
        return None;
      }
      return Some(index);
    }
  }
}
