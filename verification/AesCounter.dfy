/**
 * Counter blocks: the low 64 bits of the counter plus the index of the thread,
 * modulo 2^64; the high 64 bits are cleared.
 */
module AesCounter {
  import opened Bytes
  import opened AesSpec
  import opened AesWords
  import opened AesRounds
  import opened AesMemory

  // ---- 64-bit words ----

  function Plus(a: bv64, b: bv64): bv64 { a + b }
  function Inc(a: bv64): bv64 { a + 1 }
  function Join(high: bv32, low: bv32): bv64 { ((high as bv64) << 32) | (low as bv64) }
  function High(x: bv64): bv32 { (x >> 32) as bv32 }
  function Low(x: bv64): bv32 { (x & 0xffff_ffff) as bv32 }

  /** The thread index as a 64-bit word. */
  function Offset(thread: nat): bv64 {
    if thread == 0 then 0 else Inc(Offset(thread - 1))
  }

  /** The low 64 bits of the counter, which lies in memory big endian. */
  function Base(ctr: Words): bv64 {
    Join(Swap(ctr.w2), Swap(ctr.w3))
  }

  /** Eight zero bytes, then x big endian. */
  function NumberBlock(x: bv64): Block {
    ToBlock(Words(0, 0, High(x), Low(x)))
  }

  function CounterBlock(ctr: Words, offset: bv64): Block {
    NumberBlock(Plus(Base(ctr), offset))
  }

  lemma SwapZero()
    ensures Swap(0) == 0
  {
  }

  /** big_u128_add: the result is in memory order. */
  method BigAdd(ctr: Words, offset: bv64) returns (res: Words)
    ensures LittleBlock(res) == CounterBlock(ctr, offset)
  {
    var c := Plus(Join(Swap(ctr.w2), Swap(ctr.w3)), offset);
    res := Words(0, 0, Swap(High(c)), Swap(Low(c)));
    SwapZero();
    LittleSwap(Words(0, 0, High(c), Low(c)));
  }

  lemma HalvesDetermine(x: bv64, y: bv64)
    requires High(x) == High(y) && Low(x) == Low(y)
    ensures x == y
  {
  }

  lemma WordsOfBlock(w: Words)
    ensures ToWords(ToBlock(w)) == w
  {
    PackUnpack(w.w0);
    PackUnpack(w.w1);
    PackUnpack(w.w2);
    PackUnpack(w.w3);
  }

  lemma NumberBlockInjective(x: bv64, y: bv64)
    requires NumberBlock(x) == NumberBlock(y)
    ensures x == y
  {
    WordsOfBlock(Words(0, 0, High(x), Low(x)));
    WordsOfBlock(Words(0, 0, High(y), Low(y)));
    HalvesDetermine(x, y);
  }

  // ---- Counting up, for any representation of numbers ----

  /** n, but 0 for p. */
  function Wrapped(n: nat, p: nat): nat {
    if n == p then 0 else n
  }

  /** n modulo p by taking p away. */
  function Residue(n: nat, p: nat): nat
    requires p > 0
  {
    if n < p then n else Residue(n - p, p)
  }

  lemma {:induction false} ResidueStep(n: nat, p: nat)
    requires p > 0
    ensures Residue(n, p) < p && Residue(n + 1, p) == Wrapped(Residue(n, p) + 1, p)
  {
    if n >= p {
      ResidueStep(n - p, p);
    }
  }

  predicate Steps<T(!new)>(value: T -> nat, inc: T -> T, p: nat, x: T) {
    value(inc(x)) == Wrapped(value(x) + 1, p)
  }

  ghost predicate Next<T(!new)>(at: nat -> T, inc: T -> T, i: nat) {
    at(i + 1) == inc(at(i))
  }

  /** What is counted up from at(0) stands for the number counted, modulo p. */
  lemma {:induction false} CountsUp<T(!new)>(value: T -> nat, inc: T -> T, at: nat -> T, p: nat, n: nat)
    requires forall x :: Steps(value, inc, p, x)
    requires forall i :: Next(at, inc, i)
    requires value(at(0)) < p
    ensures value(at(n)) == Residue(value(at(0)) + n, p)
  {
    if n > 0 {
      CountsUp(value, inc, at, p, n - 1);
      assert Next(at, inc, n - 1) && Steps(value, inc, p, at(n - 1));
      ResidueStep(value(at(0)) + n - 1, p);
    }
  }

  // ---- The number that a binary word stands for ----

  /** Words as the shift by one, the low bit, the increment and the word of ones see them. */
  datatype Binary<!T> = Binary(half: T -> T, odd: T -> bool, inc: T -> T, all: T)

  function Power(k: nat): (r: nat)
    ensures r > 0
  {
    if k == 0 then 1 else 2 * Power(k - 1)
  }

  /** The number in the k low bits of x. */
  function Value<T>(b: Binary<T>, x: T, k: nat): (r: nat)
    ensures r < Power(k)
  {
    if k == 0 then 0 else 2 * Value(b, b.half(x), k - 1) + if b.odd(x) then 1 else 0
  }

  function Values<T>(b: Binary<T>, k: nat): T -> nat {
    (x: T) => Value(b, x, k)
  }

  predicate LowOnes<T>(b: Binary<T>, x: T, k: nat) {
    k == 0 || (b.odd(x) && LowOnes(b, b.half(x), k - 1))
  }

  ghost predicate LowZeros<T>(b: Binary<T>, x: T, k: nat) {
    k == 0 || (!b.odd(x) && LowZeros(b, b.half(x), k - 1))
  }

  /** How an increment carries. */
  ghost predicate Carries<T(!new)>(b: Binary<T>, x: T) {
    && b.half(x) != b.all
    && (x != b.all ==> b.odd(b.inc(x)) == !b.odd(x) && b.half(b.inc(x)) == if b.odd(x) then b.inc(b.half(x)) else b.half(x))
  }

  lemma {:induction false} ValueInc<T(!new)>(b: Binary<T>, x: T, k: nat)
    requires forall x :: Carries(b, x)
    requires x != b.all
    ensures Value(b, b.inc(x), k) == Wrapped(Value(b, x, k) + 1, Power(k))
  {
    if k > 0 {
      assert Carries(b, x);
      if b.odd(x) {
        ValueInc(b, b.half(x), k - 1);
      }
    }
  }

  lemma {:induction false} ValueOnes<T>(b: Binary<T>, x: T, k: nat)
    requires LowOnes(b, x, k)
    ensures Value(b, x, k) == Power(k) - 1
  {
    if k > 0 {
      ValueOnes(b, b.half(x), k - 1);
    }
  }

  lemma {:induction false} ValueZeros<T>(b: Binary<T>, x: T, k: nat)
    requires LowZeros(b, x, k)
    ensures Value(b, x, k) == 0
  {
    if k > 0 {
      ValueZeros(b, b.half(x), k - 1);
    }
  }

  /** Words of k bits: all ones wraps to zero. */
  ghost predicate Wraps<T(!new)>(b: Binary<T>, k: nat) {
    (forall x :: Carries(b, x)) && LowOnes(b, b.all, k) && LowZeros(b, b.inc(b.all), k)
  }

  lemma ValueSteps<T(!new)>(b: Binary<T>, x: T, k: nat)
    requires Wraps(b, k)
    ensures Steps(Values(b, k), b.inc, Power(k), x)
  {
    if x == b.all {
      ValueOnes(b, b.all, k);
      ValueZeros(b, b.inc(b.all), k);
    } else {
      ValueInc(b, x, k);
    }
  }

  // ---- 64-bit words are such words ----

  const ALL: bv64 := 0xffff_ffff_ffff_ffff

  function Half(x: bv64): bv64 { x >> 1 }
  predicate Odd(x: bv64) { x & 1 == 1 }

  const WORD64: Binary<bv64> := Binary(Half, Odd, Inc, ALL)

  lemma IncEven(x: bv64)
    requires !Odd(x)
    ensures Half(Inc(x)) == Half(x) && Odd(Inc(x))
  {
  }

  lemma IncOdd(x: bv64)
    requires Odd(x) && x != ALL
    ensures Half(Inc(x)) == Inc(Half(x)) && !Odd(Inc(x))
  {
  }

  lemma HalfSmall(x: bv64)
    ensures Half(x) != ALL
  {
  }

  lemma WordCarries(x: bv64)
    ensures Carries(WORD64, x)
  {
    HalfSmall(x);
    if !Odd(x) {
      IncEven(x);
    } else if x != ALL {
      IncOdd(x);
    }
  }

  lemma Shifts(x: bv64)
    ensures Half(x) == x >> 1 && Half(x >> 1) == x >> 2 && Half(x >> 2) == x >> 3 && Half(x >> 3) == x >> 4
    ensures x & 0xf == 0xf ==> Odd(x) && Odd(x >> 1) && Odd(x >> 2) && Odd(x >> 3)
  {
  }

  lemma OneMore(x: bv64, h: bv64, k: nat)
    requires Odd(x) && h == Half(x) && LowOnes(WORD64, h, k)
    ensures LowOnes(WORD64, x, k + 1)
  {
  }

  lemma FourOnes(x: bv64, k: nat)
    requires x & 0xf == 0xf && LowOnes(WORD64, x >> 4, k)
    ensures LowOnes(WORD64, x, k + 4)
  {
    Shifts(x);
    OneMore(x >> 3, x >> 4, k);
    OneMore(x >> 2, x >> 3, k + 1);
    OneMore(x >> 1, x >> 2, k + 2);
    OneMore(x, x >> 1, k + 3);
  }

  lemma AllOnes()
    ensures LowOnes(WORD64, ALL, 64)
  {
    FourOnes(0xf, 0);
    FourOnes(0xff, 4);
    FourOnes(0xfff, 8);
    FourOnes(0xffff, 12);
    FourOnes(0xfffff, 16);
    FourOnes(0xffffff, 20);
    FourOnes(0xfffffff, 24);
    FourOnes(0xffffffff, 28);
    FourOnes(0xfffffffff, 32);
    FourOnes(0xffffffffff, 36);
    FourOnes(0xfffffffffff, 40);
    FourOnes(0xffffffffffff, 44);
    FourOnes(0xfffffffffffff, 48);
    FourOnes(0xffffffffffffff, 52);
    FourOnes(0xfffffffffffffff, 56);
    FourOnes(0xffffffffffffffff, 60);
  }

  lemma {:induction false} AllZeros(k: nat)
    ensures LowZeros(WORD64, 0, k)
  {
    if k > 0 {
      AllZeros(k - 1);
    }
  }

  lemma WordWraps()
    ensures Wraps(WORD64, 64)
  {
    forall x
      ensures Carries(WORD64, x)
    {
      WordCarries(x);
    }
    AllOnes();
    AllZeros(64);
  }

  lemma PlusOffset(c: bv64, o: bv64)
    ensures Plus(c, Inc(o)) == Inc(Plus(c, o))
  {
    PlusOne(c, o);
    PlusUnfolds(c, o);
    IncUnfolds(o);
  }

  lemma PlusOne(c: bv64, o: bv64)
    ensures Inc(c + o) == Plus(c, o + 1)
  {
  }

  lemma PlusUnfolds(c: bv64, o: bv64)
    ensures Plus(c, o) == c + o
  {
  }

  lemma IncUnfolds(o: bv64)
    ensures Inc(o) == o + 1
  {
  }

  lemma PlusZero(c: bv64)
    ensures Plus(c, 0) == c
  {
  }

  /** Base plus thread, counted up. */
  lemma CounterCounts(value: bv64 -> nat, c: bv64, p: nat, thread: nat)
    requires forall x :: Steps(value, Inc, p, x)
    requires value(c) < p
    ensures value(Plus(c, Offset(thread))) == Residue(value(c) + thread, p)
  {
    var at := (i: nat) => Plus(c, Offset(i));
    forall i
      ensures Next(at, Inc, i)
    {
      PlusOffset(c, Offset(i));
    }
    PlusZero(c);
    CountsUp(value, Inc, at, p, thread);
  }

  lemma CounterValue(b: Binary<bv64>, c: bv64, k: nat, thread: nat)
    requires Wraps(b, k) && b.inc == Inc
    ensures Value(b, Plus(c, Offset(thread)), k) == Residue(Value(b, c, k) + thread, Power(k))
  {
    forall x
      ensures Steps(Values(b, k), Inc, Power(k), x)
    {
      ValueSteps(b, x, k);
    }
    CounterCounts(Values(b, k), c, Power(k), thread);
  }

  // ---- Distinct threads use distinct counter blocks ----

  lemma Power8(k: nat)
    ensures Power(k + 8) == 256 * Power(k)
  {
    assert Power(k + 4) == 2 * Power(k + 3) == 4 * Power(k + 2) == 8 * Power(k + 1) == 16 * Power(k);
    assert Power(k + 8) == 2 * Power(k + 7) == 4 * Power(k + 6) == 8 * Power(k + 5) == 16 * Power(k + 4);
  }

  lemma Power64()
    ensures Power(64) == TWO64
  {
    Power8(0);
    Power8(8);
    Power8(16);
    Power8(24);
    Power8(32);
    Power8(40);
    Power8(48);
    Power8(56);
  }

  lemma {:induction false} ResidueMod(n: nat)
    ensures Residue(n, TWO64) == n % TWO64
  {
    if n >= TWO64 {
      ResidueMod(n - TWO64);
    }
  }

  /** The number that the low 64 bits of the counter stand for. */
  function Number(x: bv64): nat {
    Value(WORD64, x, 64)
  }

  /** Thread i encrypts the block that stands for the counter plus i, modulo 2^64. */
  lemma CounterNumber(c: bv64, thread: nat)
    ensures Number(Plus(c, Offset(thread))) == (Number(c) + thread) % TWO64
  {
    WordWraps();
    CounterValue(WORD64, c, 64, thread);
    Power64();
    ResidueMod(Number(c) + thread);
  }

  /** k times half of x. */
  function Halved<T>(b: Binary<T>, x: T, k: nat): T {
    if k == 0 then x else Halved(b, b.half(x), k - 1)
  }

  ghost predicate Determined<T(!new)>(b: Binary<T>, x: T, y: T) {
    b.half(x) == b.half(y) && b.odd(x) == b.odd(y) ==> x == y
  }

  /** A number has only one word, when all bits count. */
  lemma {:induction false} ValueInjective<T(!new)>(b: Binary<T>, x: T, y: T, k: nat)
    requires forall x, y :: Determined(b, x, y)
    requires Halved(b, x, k) == Halved(b, y, k) && Value(b, x, k) == Value(b, y, k)
    ensures x == y
  {
    if k > 0 {
      ValueInjective(b, b.half(x), b.half(y), k - 1);
      assert Determined(b, x, y);
    }
  }

  lemma WordDetermined(x: bv64, y: bv64)
    requires Half(x) == Half(y) && Odd(x) == Odd(y)
    ensures x == y
  {
  }

  function Fourth(x: bv64): bv64 { x >> 4 }
  function Sixteenth(x: bv64): bv64 { x >> 16 }

  lemma FourHalves(x: bv64)
    ensures Fourth(x) == Half(Half(Half(Half(x))))
  {
  }

  lemma FourFourths(x: bv64)
    ensures Sixteenth(x) == Fourth(Fourth(Fourth(Fourth(x))))
  {
  }

  lemma FourSixteenths(x: bv64)
    ensures Sixteenth(Sixteenth(Sixteenth(Sixteenth(x)))) == 0
  {
  }

  lemma HalvedFour<T>(b: Binary<T>, x: T, k: nat)
    ensures Halved(b, x, k + 4) == Halved(b, b.half(b.half(b.half(b.half(x)))), k)
  {
    assert Halved(b, x, k + 4) == Halved(b, b.half(x), k + 3) == Halved(b, b.half(b.half(x)), k + 2);
  }

  lemma FourthHalved(x: bv64, k: nat)
    ensures Halved(WORD64, x, k + 4) == Halved(WORD64, Fourth(x), k)
  {
    HalvedFour(WORD64, x, k);
    FourHalves(x);
  }

  lemma SixteenthHalved(x: bv64, k: nat)
    ensures Halved(WORD64, x, k + 16) == Halved(WORD64, Sixteenth(x), k)
  {
    FourthHalved(x, k + 12);
    FourthHalved(Fourth(x), k + 8);
    FourthHalved(Fourth(Fourth(x)), k + 4);
    FourthHalved(Fourth(Fourth(Fourth(x))), k);
    FourFourths(x);
  }

  lemma AllHalved(x: bv64)
    ensures Halved(WORD64, x, 64) == 0
  {
    SixteenthHalved(x, 48);
    SixteenthHalved(Sixteenth(x), 32);
    SixteenthHalved(Sixteenth(Sixteenth(x)), 16);
    SixteenthHalved(Sixteenth(Sixteenth(Sixteenth(x))), 0);
    FourSixteenths(x);
  }

  lemma NumberInjective(x: bv64, y: bv64)
    requires Number(x) == Number(y)
    ensures x == y
  {
    forall x, y
      ensures Determined(WORD64, x, y)
    {
      if Half(x) == Half(y) && Odd(x) == Odd(y) {
        WordDetermined(x, y);
      }
    }
    AllHalved(x);
    AllHalved(y);
    ValueInjective(WORD64, x, y, 64);
  }

  lemma BlocksByNumber(x: bv64, y: bv64)
    ensures NumberBlock(x) == NumberBlock(y) <==> Number(x) == Number(y)
  {
    if Number(x) == Number(y) {
      NumberInjective(x, y);
    } else if NumberBlock(x) == NumberBlock(y) {
      NumberBlockInjective(x, y);
    }
  }

  lemma SameResidue(n: nat, i: nat, j: nat)
    ensures (n + i) % TWO64 == (n + j) % TWO64 <==> (i - j) % TWO64 == 0
  {
  }

  /** Counter blocks of two threads coincide exactly when their indexes are equal modulo 2^64. */
  lemma CounterBlocksDistinct(ctr: Words, i: nat, j: nat)
    ensures CounterBlock(ctr, Offset(i)) == CounterBlock(ctr, Offset(j)) <==> (i - j) % TWO64 == 0
  {
    var c := Base(ctr);
    CounterNumber(c, i);
    CounterNumber(c, j);
    SameResidue(Number(c), i, j);
    BlocksByNumber(Plus(c, Offset(i)), Plus(c, Offset(j)));
  }
}
