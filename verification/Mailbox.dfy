/**
 * The handshake over the first word of the shared memory: nfgpu_target writes
 * the index of a slot and polls until the word is 0; the loop of aes_test polls
 * until it is not, reads it, works on the slot and writes 0. Every step below
 * is one access to the word, and the two sides interleave freely.
 */
module Mailbox {
  import opened Wrappers
  import opened Slots
  import opened SkbPool
  import opened SlotRuns
  import opened SlotLeaks

  datatype Producer = Idle | Writing(index: nat) | Waiting(index: nat)

  datatype Consumer = Polling | Reading | Processing(index: nat)

  /** The word, where both sides are, and what they have done so far. */
  datatype State = State(word: nat, producer: Producer, consumer: Consumer,
                         published: seq<nat>, taken: seq<nat>, done: seq<nat>, returned: seq<nat>)

  datatype Step = Submit(index: nat) | Publish | Await | See | Take | Clear

  const EMPTY := State(0, Idle, Polling, [], [], [], [])

  /** nfgpu_target is called by one packet at a time, for a slot other than 0. */
  predicate Enabled(s: State, step: Step) {
    match step
    case Submit(index) => s.producer.Idle? && 1 <= index < MAX_SKBS
    case Publish => s.producer.Writing?
    case Await => s.producer.Waiting?
    case See => s.consumer.Polling?
    case Take => s.consumer.Reading?
    case Clear => s.consumer.Processing?
  }

  function Next(s: State, step: Step): State
    requires Enabled(s, step)
  {
    match step
    case Submit(index) => s.(producer := Writing(index))
    case Publish => s.(word := s.producer.index, producer := Waiting(s.producer.index), published := s.published + [s.producer.index])
    case Await => if s.word == 0 then s.(producer := Idle, returned := s.returned + [s.producer.index]) else s
    case See => if s.word == 0 then s else s.(consumer := Reading)
    case Take => s.(consumer := Processing(s.word), taken := s.taken + [s.word])
    case Clear => s.(word := 0, consumer := Polling, done := s.done + [s.consumer.index])
  }

  function Run(s: State, steps: seq<Step>): Option<State>
    decreases |steps|
  {
    if steps == [] then Some(s)
    else if Enabled(s, steps[0]) then Run(Next(s, steps[0]), steps[1..])
    else None
  }

  /** Where the two sides can be together, and what each of them has then done. */
  predicate Consistent(s: State) {
    match s.producer
    case Idle => AllServed(s) && s.returned == s.done
    case Writing(index) => AllServed(s) && s.returned == s.done && 1 <= index < MAX_SKBS
    case Waiting(index) =>
      && 1 <= index < MAX_SKBS && s.published == s.returned + [index]
      && if s.word == 0 then AllServed(s)
         else
           && s.word == index && s.done == s.returned
           && match s.consumer
              case Processing(taken) => taken == index && s.taken == s.published
              case _ => s.taken == s.done
  }

  predicate AllServed(s: State) {
    s.word == 0 && s.consumer.Polling? && s.published == s.taken == s.done
  }

  predicate InRange(s: seq<nat>) {
    forall k :: 0 <= k < |s| ==> 1 <= s[k] < MAX_SKBS
  }

  lemma NextConsistent(s: State, step: Step)
    requires Consistent(s) && InRange(s.published) && Enabled(s, step)
    ensures Consistent(Next(s, step)) && InRange(Next(s, step).published)
  {
  }

  lemma {:induction false} RunConsistent(s: State, steps: seq<Step>)
    requires Consistent(s) && InRange(s.published) && Run(s, steps).Some?
    ensures Consistent(Run(s, steps).value) && InRange(Run(s, steps).value.published)
    decreases |steps|
  {
    if steps != [] {
      NextConsistent(s, steps[0]);
      RunConsistent(Next(s, steps[0]), steps[1..]);
    }
  }

  /**
   * Whatever the interleaving: what was taken is what was published, in order
   * and each once, but for at most the last one; so for what was worked on and
   * taken, and for what returned and was worked on; and every index is one of a slot.
   */
  lemma ConsumedInOrder(steps: seq<Step>)
    requires Run(EMPTY, steps).Some?
    ensures var s := Run(EMPTY, steps).value;
      && InRange(s.published)
      && s.taken <= s.published && |s.published| <= |s.taken| + 1
      && s.done <= s.taken && |s.taken| <= |s.done| + 1
      && s.returned <= s.done && |s.done| <= |s.returned| + 1
  {
    RunConsistent(EMPTY, steps);
  }

  /** When nfgpu_target returns, its own index is the last one taken and worked on. */
  lemma ReturnsWhenServed(steps: seq<Step>)
    requires Run(EMPTY, steps).Some?
    ensures var s := Run(EMPTY, steps).value;
      Enabled(s, Await) && Next(s, Await).producer.Idle? ==>
        s.done != [] && s.done[|s.done| - 1] == s.producer.index && s.done == s.published
  {
    RunConsistent(EMPTY, steps);
  }

  /** The consumer's next access to the word. */
  function Turn(s: State): State {
    match s.consumer
    case Polling => Next(s, See)
    case Reading => Next(s, Take)
    case Processing(_) => Next(s, Clear)
  }

  /** The two sides cannot block each other: three turns of the consumer let a waiting producer return. */
  lemma NoDeadlock(steps: seq<Step>)
    requires Run(EMPTY, steps).Some? && Run(EMPTY, steps).value.producer.Waiting?
    ensures var s := Run(EMPTY, steps).value;
      exists k: nat :: k <= 3 && Turns(s, k).word == 0 && Next(Turns(s, k), Await).producer.Idle?
        && Next(Turns(s, k), Await).returned == s.published
  {
    RunConsistent(EMPTY, steps);
    var s := Run(EMPTY, steps).value;
    var k := if s.word == 0 then 0 else match s.consumer case Polling => 3 case Reading => 2 case Processing(_) => 1;
    assert Turns(Turn(s), 1) == Turn(Turn(s));
    assert Turns(Turn(s), 2) == Turns(Turn(Turn(s)), 1) == Turn(Turn(Turn(s)));
    assert Turns(s, k).word == 0;
  }

  function Turns(s: State, k: nat): (r: State)
    ensures r.producer == s.producer
    decreases k
  {
    if k == 0 then s else Turns(Turn(s), k - 1)
  }

  /**
   * While running, and only then, nfgpu_target hands over the switched buffers in
   * slots below the next multiple of 32 MB, each with the index of its slot.
   */
  lemma PublishedIsSlot(w: World, id: nat)
    requires Kept(w) && id in w.live
    ensures var l := w.live[id];
      TargetIndex(w.pool, l.skb.head)
      == if w.pool.running && l.slot != 0 && w.pool.kva % 0x200_0000 + l.slot * 0x1000 < 0x200_0000 then Some(l.slot) else None
    ensures w.live[id].slot < 8192
  {
    assert BufferKept(w, id);
    TargetLaw(w.pool, w.live[id].skb.head);
    if w.pool.running {
      LiveInMemory(w.pool, w.live[id]);
    }
  }

  /** The method's result for any buffer in use. */
  method HandOver(pool: TogpuPool, skb: SkBuff, ghost w: World, ghost id: nat) returns (published: Option<Addr>)
    requires Kept(w) && id in w.live && pool.View() == w.pool && skb.View() == w.live[id].skb
    ensures published == if pool.running && w.live[id].slot != 0 && pool.kva % 0x200_0000 + w.live[id].slot * 0x1000 < 0x200_0000
                         then Some(w.live[id].slot) else None
  {
    PublishedIsSlot(w, id);
    published := pool.NfgpuTarget(skb);
  }

  lemma {:induction false} StaysStopped(w: World, events: seq<Event>)
    requires !w.pool.running && Start !in events && SlotRuns.Run(w, events).Some?
    ensures !SlotRuns.Run(w, events).value.pool.running
    decreases |events|
  {
    if events != [] {
      assert events[0] in events;
      StaysStopped(Apply(w, events[0]), events[1..]);
    }
  }

  /** After a Stop, and until there is a Start, no buffer in use is handed over, whatever happens before and after. */
  lemma NothingAfterStop(before: seq<Event>, after: seq<Event>, id: nat)
    requires Start !in after && SlotRuns.Run(INITIAL, before + ([Stop] + after)).Some?
    ensures var w := SlotRuns.Run(INITIAL, before + ([Stop] + after)).value;
      id in w.live ==> TargetIndex(w.pool, w.live[id].skb.head).None?
  {
    RunAppend(INITIAL, before, [Stop] + after);
    assert ([Stop] + after)[1..] == after;
    StoppedFrom(SlotRuns.Run(INITIAL, before).value, after, id);
  }

  lemma StoppedFrom(w: World, after: seq<Event>, id: nat)
    requires Start !in after && Allowed(w, Stop) && SlotRuns.Run(Apply(w, Stop), after).Some?
    ensures var r := SlotRuns.Run(Apply(w, Stop), after).value;
      id in r.live ==> TargetIndex(r.pool, r.live[id].skb.head).None?
  {
    StaysStopped(Apply(w, Stop), after);
    var r := SlotRuns.Run(Apply(w, Stop), after).value;
    if id in r.live {
      TargetLaw(r.pool, r.live[id].skb.head);
    }
  }
}
