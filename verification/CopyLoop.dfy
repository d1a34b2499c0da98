/**
 * The decode-and-copy loop of symbol_hook, over what it learns about each
 * instruction: where it stops and what it writes.
 */
module CopyLoop {
  import opened Bytes
  import opened Relocation

  /** What the loop knows about the instruction at some offset; whole when its length is exact. */
  datatype Piece = Piece(length: nat, whole: bool, fix: Fix) {
    /** The rewrite goes past the end of the instruction. */
    predicate Spills() {
      fix.Fix? && fix.pos + 4 > length
    }

    /** The rewrite as far as it lies inside. */
    function Inner(): Fix {
      if Spills() then NoFix else fix
    }

    /** How many bytes are written from the start of the instruction on. */
    function Reach(): nat {
      if Spills() then fix.pos + 4 else length
    }

    /** A rewrite stays near the instruction, and if that is whole, inside it or right behind it. */
    predicate Sane() {
      && length < 256
      && (fix.Fix? ==> 0 <= fix.word < TWO32 && 0 <= fix.pos <= 267)
      && (whole ==> length > 0 && (Spills() ==> fix.pos == length))
    }
  }

  /** What the loop reads, and where in the memory it writes. */
  datatype Job = Job(text: seq<Byte>, base: nat, piece: nat -> Piece) {
    predicate SaneAt(off: nat) {
      piece(off).Sane()
    }

    ghost predicate Valid() {
      forall off: nat :: SaneAt(off)
    }
  }

  function From(text: seq<Byte>, off: nat): seq<Byte> {
    if off <= |text| then text[off..] else []
  }

  /** m with bs written from index at on. */
  function Store(m: seq<Byte>, at: nat, bs: seq<Byte>): (r: seq<Byte>)
    requires at + |bs| <= |m|
    ensures |r| == |m|
    ensures forall i :: 0 <= i < |m| ==> r[i] == if at <= i < at + |bs| then bs[i - at] else m[i]
  {
    m[..at] + bs + m[at + |bs|..]
  }

  /** Room that one copied instruction can touch, however malformed. */
  const SLACK := 512

  /** The raw bytes of an instruction, then its rewritten offset. */
  function StoreFixed(m: seq<Byte>, at: nat, raw: seq<Byte>, x: Fix): (r: seq<Byte>)
    requires at + |raw| <= |m| && (x.Fix? ==> 0 <= x.pos && at + x.pos + 4 <= |m|)
    ensures |r| == |m|
  {
    if x.NoFix? then Store(m, at, raw) else Store(Store(m, at, raw), at + x.pos, LE(x.word, 4))
  }

  /** One turn of the loop (copy_and_fixup_insn). */
  function CopyInsn(j: Job, m: seq<Byte>, off: nat): (r: seq<Byte>)
    requires j.SaneAt(off) && j.base + off + SLACK <= |m|
    ensures |r| == |m|
  {
    StoreFixed(m, j.base + off, Slice(From(j.text, off), 0, j.piece(off).length), j.piece(off).fix)
  }

  datatype Outcome = Failed(m: seq<Byte>) | Copied(m: seq<Byte>, stop: nat)

  /** The loop from offset off until end is reached or passed. */
  function CopyFrom(j: Job, m: seq<Byte>, off: nat, end: nat): (r: Outcome)
    requires j.Valid() && j.base + end + SLACK <= |m|
    ensures |r.m| == |m|
    decreases if off < end then end - off else 0
  {
    if off >= end then Copied(m, off)
    else if j.piece(off).length == 0 then Failed(m)
    else
      assert j.SaneAt(off);
      CopyFrom(j, CopyInsn(j, m, off), off + j.piece(off).length, end)
  }

  /** What the copy loop results in, by the memory and the offset it has come to. */
  type Running = (seq<Byte>, nat) -> Outcome

  predicate TurnsAs(run: Running, j: Job, end: nat, m: seq<Byte>, off: nat) {
    j.base + end + SLACK <= |m| && j.SaneAt(off) ==>
      run(m, off) == if off >= end then Copied(m, off)
                     else if j.piece(off).length == 0 then Failed(m)
                     else run(CopyInsn(j, m, off), off + j.piece(off).length)
  }

  /** run is the loop over memories of n bytes. */
  ghost predicate RunsAs(run: Running, j: Job, end: nat, n: nat) {
    forall m: seq<Byte>, off: nat :: |m| == n ==> TurnsAs(run, j, end, m, off)
  }

  ghost function RunningOf(j: Job, end: nat, n: nat): Running
    requires j.Valid() && j.base + end + SLACK <= n
  {
    (m: seq<Byte>, off: nat) => if |m| == n then CopyFrom(j, m, off, end) else Failed(m)
  }

  lemma RunningRuns(j: Job, end: nat, n: nat)
    requires j.Valid() && j.base + end + SLACK <= n
    ensures RunsAs(RunningOf(j, end, n), j, end, n)
  {
  }

  // ---- Where the walk stops ----

  /** The walk over instruction lengths from off meets offset b. */
  predicate Reaches(piece: nat -> Piece, off: nat, b: nat)
    decreases if off < b then b - off else 0
  {
    off == b || (off < b && piece(off).length > 0 && Reaches(piece, off + piece(off).length, b))
  }

  /** The walk succeeds, and stops at the first boundary at or after end. */
  lemma {:induction false} StopsAtFirst(j: Job, m: seq<Byte>, off: nat, end: nat, b: nat)
    requires j.Valid() && j.base + end + SLACK <= |m| && off <= b && end <= b
    requires Reaches(j.piece, off, b)
    ensures var r := CopyFrom(j, m, off, end);
      r.Copied? && r.stop <= b
    decreases if off < end then end - off else 0
  {
    if off < end {
      assert j.SaneAt(off);
      StopsAtFirst(j, CopyInsn(j, m, off), off + j.piece(off).length, end, b);
    }
  }

  lemma {:induction false} StopReached(j: Job, m: seq<Byte>, off: nat, end: nat)
    requires j.Valid() && j.base + end + SLACK <= |m|
    ensures var r := CopyFrom(j, m, off, end);
      r.Copied? ==> Reaches(j.piece, off, r.stop) && end <= r.stop && off <= r.stop
    decreases if off < end then end - off else 0
  {
    if off < end && j.piece(off).length > 0 {
      assert j.SaneAt(off);
      StopReached(j, CopyInsn(j, m, off), off + j.piece(off).length, end);
    }
  }

  /** Some instruction boundary of the walk from 0 lies between lo and hi. */
  ghost predicate BoundaryWithin(piece: nat -> Piece, lo: nat, hi: nat) {
    exists b: nat :: Reaches(piece, 0, b) && lo <= b <= hi
  }

  lemma WithinBoundary(piece: nat -> Piece, lo: nat, hi: nat, b: nat)
    requires Reaches(piece, 0, b) && lo <= b <= hi
    ensures BoundaryWithin(piece, lo, hi)
  {
  }

  // ---- What the loop writes ----

  /** Where the bytes written by the walk from off end. */
  function WriteExtent(piece: nat -> Piece, off: nat, end: nat): nat
    decreases if off < end then end - off else 0
  {
    if off >= end || piece(off).length == 0 then off
    else
      var rest, own := WriteExtent(piece, off + piece(off).length, end), off + piece(off).Reach();
      if own > rest then own else rest
  }

  /** The rewrite of the instruction at b, if any, stays below size. */
  predicate FixBelow(piece: nat -> Piece, b: nat, size: nat) {
    piece(b).fix.Fix? ==> b + piece(b).fix.pos + 4 <= size
  }

  /** So do those of all instructions that the walk from off copies. */
  ghost predicate FixesBelow(piece: nat -> Piece, off: nat, end: nat, size: nat) {
    forall b: nat :: Reaches(piece, off, b) && b < end ==> FixBelow(piece, b, size)
  }

  lemma FixesBelowStep(piece: nat -> Piece, off: nat, end: nat, size: nat)
    requires off < end && piece(off).length > 0
    ensures FixesBelow(piece, off, end, size)
       <==> FixBelow(piece, off, size) && FixesBelow(piece, off + piece(off).length, end, size)
  {
    var next := off + piece(off).length;
    assert Reaches(piece, off, off);
    forall b: nat | Reaches(piece, next, b)
      ensures Reaches(piece, off, b)
    {
      ReachesForward(piece, next, b);
    }
  }

  lemma {:induction false} ExtentBelow(j: Job, m: seq<Byte>, off: nat, end: nat, size: nat)
    requires j.Valid() && j.base + end + SLACK <= |m| && CopyFrom(j, m, off, end).Copied?
    ensures WriteExtent(j.piece, off, end) <= size
       <==> CopyFrom(j, m, off, end).stop <= size && FixesBelow(j.piece, off, end, size)
    ensures WriteExtent(j.piece, off, end) >= CopyFrom(j, m, off, end).stop
    decreases if off < end then end - off else 0
  {
    if off < end {
      assert j.SaneAt(off);
      var next := off + j.piece(off).length;
      StopReached(j, CopyInsn(j, m, off), next, end);
      ExtentBelow(j, CopyInsn(j, m, off), next, end, size);
      FixesBelowStep(j.piece, off, end, size);
    } else {
      forall b: nat | Reaches(j.piece, off, b)
        ensures b >= end
      {
        ReachesForward(j.piece, off, b);
      }
    }
  }

  /**
   * The loop writes nothing past the size bytes allocated for the copy iff some
   * instruction boundary lies between the end of the text and the size, and no
   * instruction has a rewrite past it.
   */
  lemma CopyFits(j: Job, m: seq<Byte>, end: nat, size: nat)
    requires j.Valid() && j.base + end + SLACK <= |m| && end <= size
    ensures var r := CopyFrom(j, m, 0, end);
      r.Copied? && WriteExtent(j.piece, 0, end) <= size
      <==> BoundaryWithin(j.piece, end, size) && FixesBelow(j.piece, 0, end, size)
  {
    StopReached(j, m, 0, end);
    var r := CopyFrom(j, m, 0, end);
    if r.Copied? {
      ExtentBelow(j, m, 0, end, size);
      if r.stop <= size {
        WithinBoundary(j.piece, end, size, r.stop);
      }
    }
    if BoundaryWithin(j.piece, end, size) {
      var b: nat :| Reaches(j.piece, 0, b) && end <= b <= size;
      StopsAtFirst(j, m, 0, end, b);
    }
  }

  /** Every instruction the walk copies is whole. */
  predicate AllWhole(piece: nat -> Piece, off: nat, end: nat)
    decreases if off < end then end - off else 0
  {
    off >= end || (piece(off).whole && piece(off).length > 0 && AllWhole(piece, off + piece(off).length, end))
  }

  /** m and r are the same from lo up to hi. */
  ghost predicate SameOn(m: seq<Byte>, r: seq<Byte>, lo: nat, hi: nat) {
    |r| == |m| && forall i :: lo <= i < hi && i < |m| ==> r[i] == m[i]
  }

  /** The memory at base + off holds the relocated form of the instruction at off. */
  ghost predicate HoldsAt(j: Job, m: seq<Byte>, off: nat) {
    Carries(From(j.text, off), From(m, j.base + off), j.piece(off).length, j.piece(off).Inner())
  }

  lemma AtFrom(m: seq<Byte>, at: nat, i: nat)
    requires at + i < |m|
    ensures At(From(m, at), i) == m[at + i]
  {
  }

  lemma CarriesBytes(c: seq<Byte>, d: seq<Byte>, n: nat, x: Fix)
    requires x.Fix? ==> 0 <= x.pos && x.pos + 4 <= n
    requires forall i: nat :: i < n ==> At(d, i) == if x.Fix? && x.pos <= i < x.pos + 4 then LE(x.word, 4)[i - x.pos] else At(c, i)
    ensures Carries(c, d, n, x)
  {
    if x.Fix? {
      forall i: nat | i < 4
        ensures Slice(d, x.pos, 4)[i] == LE(x.word, 4)[i]
      {
        assert At(d, x.pos + i) == LE(x.word, 4)[i];
      }
    }
  }

  /** Stored raw bytes with a rewrite carry the instruction. */
  lemma StoredCarries(m: seq<Byte>, at: nat, c: seq<Byte>, n: nat, x: Fix)
    requires at + n <= |m| && (x.Fix? ==> 0 <= x.pos && x.pos + 4 <= n)
    ensures Carries(c, From(StoreFixed(m, at, Slice(c, 0, n), x), at), n, x)
  {
    var r := StoreFixed(m, at, Slice(c, 0, n), x);
    forall i: nat | i < n
      ensures At(From(r, at), i) == if x.Fix? && x.pos <= i < x.pos + 4 then LE(x.word, 4)[i - x.pos] else At(c, i)
    {
      AtFrom(r, at, i);
    }
    CarriesBytes(c, From(r, at), n, x);
  }

  /** Writing the bytes of an instruction and its rewrite changes nothing but what it reaches. */
  lemma InsnKeeps(j: Job, m: seq<Byte>, off: nat, i: nat)
    requires j.SaneAt(off) && j.base + off + SLACK <= |m| && i < |m|
    requires i < j.base + off || i >= j.base + off + j.piece(off).Reach()
    ensures CopyInsn(j, m, off)[i] == m[i]
  {
  }

  lemma CarriesFrame(c: seq<Byte>, d: seq<Byte>, e: seq<Byte>, n: nat, x: Fix)
    requires Carries(c, d, n, x) && Agree(d, e, n) && (x.Fix? ==> x.pos + 4 <= n)
    ensures Carries(c, e, n, x)
  {
    if x.Fix? {
      forall i: nat | i < 4
        ensures Slice(e, x.pos, 4)[i] == LE(x.word, 4)[i]
      {
        assert Slice(d, x.pos, 4)[i] == At(d, x.pos + i);
      }
    }
  }

  lemma SameAgree(m: seq<Byte>, r: seq<Byte>, at: nat, n: nat)
    requires at + n <= |m| && SameOn(m, r, at, at + n)
    ensures Agree(From(m, at), From(r, at), n)
  {
    forall i: nat | i < n
      ensures At(From(m, at), i) == At(From(r, at), i)
    {
      AtFrom(m, at, i);
      AtFrom(r, at, i);
    }
  }

  /** Writing elsewhere leaves the relocated instruction in place. */
  lemma HoldsFrame(j: Job, m: seq<Byte>, r: seq<Byte>, off: nat)
    requires j.SaneAt(off) && j.piece(off).whole && HoldsAt(j, m, off)
    requires j.base + off + SLACK <= |m| && SameOn(m, r, j.base + off, j.base + off + j.piece(off).length)
    ensures HoldsAt(j, r, off)
  {
    var at, n := j.base + off, j.piece(off).length;
    SameAgree(m, r, at, n);
    CarriesFrame(From(j.text, off), From(m, at), From(r, at), n, j.piece(off).Inner());
  }

  /** The first turn of the loop, and the rest. */
  lemma CopyUnfold(j: Job, m: seq<Byte>, off: nat, end: nat)
    requires j.Valid() && j.base + end + SLACK <= |m| && off < end && j.piece(off).length > 0
    ensures j.SaneAt(off)
    ensures CopyFrom(j, m, off, end) == CopyFrom(j, CopyInsn(j, m, off), off + j.piece(off).length, end)
  {
    assert j.SaneAt(off);
  }

  /** ext bounds what is written from an offset on. */
  predicate Extends(ext: nat -> nat, piece: nat -> Piece, end: nat, off: nat) {
    off < end && piece(off).length > 0 ==> ext(off) >= off + piece(off).Reach() && ext(off) >= ext(off + piece(off).length)
  }

  lemma {:induction false} RunKeeps(run: Running, ext: nat -> nat, j: Job, end: nat, m: seq<Byte>, off: nat, i: nat)
    requires j.Valid() && j.base + end + SLACK <= |m| && RunsAs(run, j, end, |m|) && i < |m|
    requires forall o: nat :: Extends(ext, j.piece, end, o)
    requires i < j.base + off || i >= j.base + ext(off)
    ensures |run(m, off).m| == |m| && run(m, off).m[i] == m[i]
    decreases if off < end then end - off else 0
  {
    assert j.SaneAt(off) && TurnsAs(run, j, end, m, off) && Extends(ext, j.piece, end, off);
    if off < end && j.piece(off).length > 0 {
      InsnKeeps(j, m, off, i);
      RunKeeps(run, ext, j, end, CopyInsn(j, m, off), off + j.piece(off).length, i);
    }
  }

  lemma CopyKeeps(j: Job, m: seq<Byte>, off: nat, end: nat, i: nat)
    requires j.Valid() && j.base + end + SLACK <= |m| && i < |m|
    requires i < j.base + off || i >= j.base + WriteExtent(j.piece, off, end)
    ensures CopyFrom(j, m, off, end).m[i] == m[i]
  {
    RunningRuns(j, end, |m|);
    RunKeeps(RunningOf(j, end, |m|), (o: nat) => WriteExtent(j.piece, o, end), j, end, m, off, i);
  }

  lemma CopyBelow(j: Job, m: seq<Byte>, off: nat, end: nat, hi: nat)
    requires j.Valid() && j.base + end + SLACK <= |m| && WriteExtent(j.piece, off, end) <= hi
    ensures SameOn(m, CopyFrom(j, m, off, end).m, j.base + hi, |m|)
  {
    forall i: nat | j.base + hi <= i < |m|
      ensures CopyFrom(j, m, off, end).m[i] == m[i]
    {
      CopyKeeps(j, m, off, end, i);
    }
  }

  /** The loop writes only between where it starts and its write extent, whether it succeeds or not. */
  lemma CopyFrame(j: Job, m: seq<Byte>, off: nat, end: nat)
    requires j.Valid() && j.base + end + SLACK <= |m|
    ensures var r := CopyFrom(j, m, off, end);
      SameOn(m, r.m, 0, j.base + off) && SameOn(m, r.m, j.base + WriteExtent(j.piece, off, end), |m|)
  {
    forall i: nat | i < j.base + off && i < |m|
      ensures CopyFrom(j, m, off, end).m[i] == m[i]
    {
      CopyKeeps(j, m, off, end, i);
    }
    CopyBelow(j, m, off, end, WriteExtent(j.piece, off, end));
  }

  /** Whole instructions have a length, so that the loop over them succeeds. */
  lemma {:induction false} WholeSucceeds(j: Job, m: seq<Byte>, off: nat, end: nat)
    requires j.Valid() && j.base + end + SLACK <= |m| && AllWhole(j.piece, off, end)
    ensures CopyFrom(j, m, off, end).Copied?
    decreases if off < end then end - off else 0
  {
    if off < end {
      assert j.SaneAt(off);
      WholeSucceeds(j, CopyInsn(j, m, off), off + j.piece(off).length, end);
    }
  }

  /** Stored raw bytes whose rewrite goes past them are just the raw bytes. */
  lemma SpilledCarries(m: seq<Byte>, at: nat, c: seq<Byte>, n: nat, x: Fix)
    requires at + n <= |m| && x.Fix? && x.pos == n && at + n + 4 <= |m|
    ensures Carries(c, From(StoreFixed(m, at, Slice(c, 0, n), x), at), n, NoFix)
  {
    var r := StoreFixed(m, at, Slice(c, 0, n), x);
    forall i: nat | i < n
      ensures At(From(r, at), i) == At(c, i)
    {
      AtFrom(r, at, i);
    }
  }

  lemma PieceCarries(m: seq<Byte>, at: nat, c: seq<Byte>, p: Piece)
    requires p.Sane() && p.whole && at + SLACK <= |m|
    ensures Carries(c, From(StoreFixed(m, at, Slice(c, 0, p.length), p.fix), at), p.length, p.Inner())
  {
    if p.Spills() {
      SpilledCarries(m, at, c, p.length, p.fix);
    } else {
      StoredCarries(m, at, c, p.length, p.fix);
    }
  }

  lemma StoredHolds(j: Job, m: seq<Byte>, off: nat)
    requires j.SaneAt(off) && j.piece(off).whole && j.base + off + SLACK <= |m|
    ensures HoldsAt(j, CopyInsn(j, m, off), off)
  {
    PieceCarries(m, j.base + off, From(j.text, off), j.piece(off));
  }

  lemma TurnKeeps(run: Running, ext: nat -> nat, j: Job, end: nat, m: seq<Byte>, off: nat, i: nat)
    requires j.Valid() && j.base + end + SLACK <= |m| && RunsAs(run, j, end, |m|) && i < |m|
    requires forall o: nat :: Extends(ext, j.piece, end, o)
    requires off < end && j.piece(off).length > 0 && i < j.base + off + j.piece(off).length
    ensures j.SaneAt(off) && |run(m, off).m| == |m| && run(m, off).m[i] == CopyInsn(j, m, off)[i]
  {
    assert j.SaneAt(off) && TurnsAs(run, j, end, m, off);
    RunKeeps(run, ext, j, end, CopyInsn(j, m, off), off + j.piece(off).length, i);
  }

  /** One turn of the loop, and what is then still left alone. */
  lemma CopyTurn(j: Job, m: seq<Byte>, off: nat, end: nat, run: Running)
    requires j.Valid() && j.base + end + SLACK <= |m| && RunsAs(run, j, end, |m|)
    requires off < end && j.piece(off).whole
    ensures j.SaneAt(off) && SameOn(CopyInsn(j, m, off), run(m, off).m, 0, j.base + off + j.piece(off).length)
  {
    assert j.SaneAt(off);
    var ext := (o: nat) => WriteExtent(j.piece, o, end);
    TurnKeeps(run, ext, j, end, m, off, 0);
    forall i: nat | i < j.base + off + j.piece(off).length && i < |m|
      ensures run(m, off).m[i] == CopyInsn(j, m, off)[i]
    {
      TurnKeeps(run, ext, j, end, m, off, i);
    }
  }

  lemma FirstHolds(j: Job, m: seq<Byte>, off: nat, end: nat)
    requires j.Valid() && j.base + end + SLACK <= |m| && AllWhole(j.piece, off, end) && off < end
    ensures HoldsAt(j, CopyFrom(j, m, off, end).m, off)
  {
    RunningRuns(j, end, |m|);
    CopyTurn(j, m, off, end, RunningOf(j, end, |m|));
    StoredHolds(j, m, off);
    HoldsFrame(j, CopyInsn(j, m, off), CopyFrom(j, m, off, end).m, off);
  }

  lemma CopyNext(j: Job, m: seq<Byte>, off: nat, end: nat, b: nat)
    requires j.Valid() && j.base + end + SLACK <= |m| && AllWhole(j.piece, off, end)
    requires Reaches(j.piece, off, b) && b < end && off != b
    ensures off < b && j.SaneAt(off) && j.piece(off).length > 0
    ensures AllWhole(j.piece, off + j.piece(off).length, end) && Reaches(j.piece, off + j.piece(off).length, b)
    ensures CopyFrom(j, m, off, end) == CopyFrom(j, CopyInsn(j, m, off), off + j.piece(off).length, end)
  {
    assert j.SaneAt(off);
  }

  /** At every instruction boundary the copy holds the relocated instruction. */
  lemma {:induction false} CopyHolds(j: Job, m: seq<Byte>, off: nat, end: nat, b: nat)
    requires j.Valid() && j.base + end + SLACK <= |m| && AllWhole(j.piece, off, end)
    requires Reaches(j.piece, off, b) && b < end
    ensures j.piece(b).whole && HoldsAt(j, CopyFrom(j, m, off, end).m, b)
    decreases if off < end then end - off else 0
  {
    if off == b {
      FirstHolds(j, m, off, end);
    } else {
      CopyNext(j, m, off, end, b);
      CopyHolds(j, CopyInsn(j, m, off), off + j.piece(off).length, end, b);
    }
  }

  /** A boundary strictly before the stop is before the end. */
  lemma {:induction false} BeforeStop(j: Job, m: seq<Byte>, off: nat, end: nat, i: nat)
    requires j.Valid() && j.base + end + SLACK <= |m|
    requires var r := CopyFrom(j, m, off, end);
      r.Copied? && Reaches(j.piece, off, i) && i < r.stop
    ensures i < end
    decreases if off < end then end - off else 0
  {
    if off < end && off != i {
      assert j.SaneAt(off);
      BeforeStop(j, CopyInsn(j, m, off), off + j.piece(off).length, end, i);
    }
  }

  /** Two functions with the same instruction lengths along the walk have the same boundaries. */
  lemma {:induction false} SameWalk(p: nat -> Piece, q: nat -> Piece, off: nat, b: nat, n: nat)
    requires off <= n && b <= n
    requires forall i: nat :: Reaches(p, off, i) && i < n ==> q(i).length == p(i).length
    ensures Reaches(p, off, b) <==> Reaches(q, off, b)
    decreases if off < b then b - off else 0
  {
    assert Reaches(p, off, off);
    if off < b && p(off).length > 0 {
      var next := off + p(off).length;
      if next <= b {
        forall i: nat | Reaches(p, next, i) && i < n
          ensures q(i).length == p(i).length
        {
          ReachesForward(p, next, i);
          assert Reaches(p, off, i);
        }
        SameWalk(p, q, next, b, n);
      }
    }
  }

  lemma ReachesForward(p: nat -> Piece, i: nat, j: nat)
    requires Reaches(p, i, j)
    ensures i <= j
  {
  }

  /** Every instruction the walk meets is whole, and ends no later than any boundary after it. */
  lemma {:induction false} WholeAt(piece: nat -> Piece, off: nat, end: nat, b: nat)
    requires AllWhole(piece, off, end) && Reaches(piece, off, b) && b < end
    ensures piece(b).whole
    decreases if off < b then b - off else 0
  {
    if off < b {
      WholeAt(piece, off + piece(off).length, end, b);
    }
  }

  lemma {:induction false} NextBoundary(piece: nat -> Piece, off: nat, b: nat, later: nat)
    requires Reaches(piece, off, b) && Reaches(piece, off, later) && b < later
    ensures b + piece(b).length <= later
    decreases if off < b then b - off else 0
  {
    if off == b {
      ReachesForward(piece, b + piece(b).length, later);
    } else {
      NextBoundary(piece, off + piece(off).length, b, later);
    }
  }
}
