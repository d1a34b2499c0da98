/**
 * Relocation preserves meaning: the copy of a function has the original's
 * instruction boundaries and every relative operand in it refers to what it
 * should.
 */
module Relocated {
  import opened Bytes
  import opened Inat
  import opened Decode
  import opened Relocation
  import opened CopyLoop

  function DecodeAt(t: Tables, text: seq<Byte>, off: nat): State
    requires WellFormed(t)
  {
    FullDecode(t, From(text, off), true)
  }

  /** A function to move: its text, its place, and the buffer it is moved to. */
  datatype Move = Move(text: seq<Byte>, f: Func, newAddr: nat, base: nat) {
    function Src(off: nat): int { f.addr + off }
    function Dest(off: nat): int { newAddr + off }
  }

  function PieceOf(v: Move, s: State, off: nat): Piece {
    Piece(s.length, Whole(s), FixOf(s, v.Src(off), v.Dest(off), v.f))
  }

  /** What decoding tells the copy loop, in 64-bit code. */
  function JobOf(t: Tables, v: Move): Job
    requires WellFormed(t)
  {
    Job(v.text, v.base, (off: nat) => PieceOf(v, DecodeAt(t, v.text, off), off))
  }

  predicate DescribesAt(j: Job, t: Tables, v: Move, off: nat)
    requires WellFormed(t)
  {
    j.piece(off) == PieceOf(v, DecodeAt(t, v.text, off), off)
  }

  /** j is what decoding v's text says. */
  ghost predicate Describes(j: Job, t: Tables, v: Move)
    requires WellFormed(t)
  {
    j.Valid() && j.text == v.text && j.base == v.base && forall off: nat :: DescribesAt(j, t, v, off)
  }

  lemma JobDescribes(t: Tables, v: Move)
    requires WellFormed(t)
    ensures Describes(JobOf(t, v), t, v)
  {
    JobValid(t, v);
  }

  lemma TamePiece(v: Move, s: State, off: nat)
    requires Tame(s)
    ensures PieceOf(v, s, off).Sane()
    ensures Whole(s) ==> PieceOf(v, s, off).Inner() == InnerFix(s, FixOf(s, v.Src(off), v.Dest(off), v.f))
  {
  }

  lemma JobValid(t: Tables, v: Move)
    requires WellFormed(t)
    ensures JobOf(t, v).Valid()
  {
    forall off: nat
      ensures JobOf(t, v).SaneAt(off)
    {
      DecodeTame(t, From(v.text, off));
      TamePiece(v, DecodeAt(t, v.text, off), off);
    }
  }

  /** The memory after copying the first end bytes' worth of instructions into m. */
  function Copy(t: Tables, v: Move, m: seq<Byte>, end: nat): (r: Outcome)
    requires WellFormed(t) && v.base + end + SLACK <= |m|
    ensures |r.m| == |m|
  {
    JobValid(t, v);
    CopyFrom(JobOf(t, v), m, 0, end)
  }

  /** All instructions that the copy loop meets have an exact length. */
  predicate WholeFunction(t: Tables, v: Move, end: nat)
    requires WellFormed(t)
  {
    AllWhole(JobOf(t, v).piece, 0, end)
  }

  /** The walk over the function's instructions meets offset b. */
  predicate Boundary(t: Tables, v: Move, b: nat)
    requires WellFormed(t)
  {
    Reaches(JobOf(t, v).piece, 0, b)
  }

  lemma CopyCarries(t: Tables, v: Move, m: seq<Byte>, end: nat, b: nat)
    requires WellFormed(t) && v.base + end + SLACK <= |m| && WholeFunction(t, v, end) && Boundary(t, v, b) && b < end
    ensures var s := DecodeAt(t, v.text, b);
      && Whole(s)
      && Carries(From(v.text, b), From(Copy(t, v, m, end).m, v.base + b), s.length,
                 InnerFix(s, FixOf(s, v.Src(b), v.Dest(b), v.f)))
  {
    JobValid(t, v);
    WholeAt(JobOf(t, v).piece, 0, end, b);
    DecodeTame(t, From(v.text, b));
    TamePiece(v, DecodeAt(t, v.text, b), b);
    CopyHolds(JobOf(t, v), m, 0, end, b);
  }

  /** At every instruction boundary the copy decodes to the same instruction, its rewritten offset aside. */
  lemma CopyDecodes(t: Tables, v: Move, m: seq<Byte>, end: nat, b: nat)
    requires WellFormed(t) && v.base + end + SLACK <= |m| && WholeFunction(t, v, end) && Boundary(t, v, b) && b < end
    ensures var s := DecodeAt(t, v.text, b);
      DecodeAt(t, Copy(t, v, m, end).m, v.base + b) == Rewritten(s, InnerFix(s, FixOf(s, v.Src(b), v.Dest(b), v.f)))
  {
    CopyCarries(t, v, m, end, b);
    RewriteDecodes(t, From(v.text, b), From(Copy(t, v, m, end).m, v.base + b), v.Src(b), v.Dest(b), v.f);
  }

  /** Only the offset differs: length, prefixes, opcode, ModRM and SIB are the original's. */
  lemma RewrittenSame(s: State, x: Fix)
    ensures SameInsn(s, Rewritten(s, x))
  {
  }

  lemma FromFrom(m: seq<Byte>, base: nat, b: nat)
    requires base <= |m|
    ensures From(From(m, base), b) == From(m, base + b)
  {
  }

  /** The copy, seen as a function of its own. */
  function CopyAsMove(t: Tables, v: Move, m: seq<Byte>, end: nat): Move
    requires WellFormed(t) && v.base + end + SLACK <= |m|
  {
    v.(text := From(Copy(t, v, m, end).m, v.base))
  }

  lemma CopyLength(t: Tables, v: Move, m: seq<Byte>, end: nat, b: nat)
    requires WellFormed(t) && v.base + end + SLACK <= |m| && WholeFunction(t, v, end) && Boundary(t, v, b) && b < end
    ensures DecodeAt(t, CopyAsMove(t, v, m, end).text, b).length == DecodeAt(t, v.text, b).length
  {
    CopyDecodes(t, v, m, end, b);
    FromFrom(Copy(t, v, m, end).m, v.base, b);
    var s := DecodeAt(t, v.text, b);
    RewrittenSame(s, InnerFix(s, FixOf(s, v.Src(b), v.Dest(b), v.f)));
  }

  /** The copy has the original's instruction boundaries. */
  lemma SameBoundaries(t: Tables, v: Move, m: seq<Byte>, end: nat, b: nat)
    requires WellFormed(t) && v.base + end + SLACK <= |m| && WholeFunction(t, v, end)
    requires var r := Copy(t, v, m, end); r.Copied? && b <= r.stop
    ensures Boundary(t, v, b) <==> Boundary(t, CopyAsMove(t, v, m, end), b)
  {
    var r := Copy(t, v, m, end);
    var p, q := JobOf(t, v).piece, JobOf(t, CopyAsMove(t, v, m, end)).piece;
    JobValid(t, v);
    forall i: nat | Reaches(p, 0, i) && i < r.stop
      ensures q(i).length == p(i).length
    {
      BeforeStop(JobOf(t, v), m, 0, end, i);
      CopyLength(t, v, m, end, i);
    }
    SameWalk(p, q, 0, b, r.stop);
  }

  /**
   * Relocation preserves meaning: every relative operand in the copy refers to
   * what it should (the same address if that lies outside the function, the
   * address moved with the function if inside) exactly when the target is
   * inside, or the operand is one that gets rewritten and the target is within
   * reach of the copy.
   */
  lemma RelocationPreservesMeaning(t: Tables, v: Move, m: seq<Byte>, end: nat, b: nat)
    requires WellFormed(t) && v.base + end + SLACK <= |m| && WholeFunction(t, v, end) && Boundary(t, v, b) && b < end
    requires (v.newAddr - v.f.addr) % TWO64 != 0 && PcOperand(DecodeAt(t, v.text, b)).Relative?
    ensures var s, r := DecodeAt(t, v.text, b), DecodeAt(t, Copy(t, v, m, end).m, v.base + b);
      && PcOperand(r).Relative?
      && (OperandCorrect(s, r, v.Src(b), v.Dest(b), v.f) <==> OperandReachable(s, v.Src(b), v.Dest(b), v.f))
  {
    CopyDecodes(t, v, m, end, b);
    CopyCarries(t, v, m, end, b);
    OperandOfInstruction(t, From(v.text, b));
    OperandRelocated(DecodeAt(t, v.text, b), v.Src(b), v.Dest(b), v.f);
  }

  lemma OperandOfInstruction(t: Tables, c: seq<Byte>)
    requires WellFormed(t)
    ensures var s := FullDecode(t, c, true); IsCallJmp(s) && !IsAvx(s) ==> !RipRelative(s)
  {
    var s := FullDecode(t, c, true);
    if IsCallJmp(s) && !IsAvx(s) {
      CallJmpOperand(t, c);
    }
  }

  /** An internal target moves to the same offset in the copy. */
  lemma InternalTargetOffset(target: int, v: Move, b: nat)
    requires v.f.Contains(target) && v.newAddr + v.f.size <= TWO64
    ensures Intended(target, v.Src(b), v.Dest(b), v.f) == v.newAddr + (target - v.f.addr)
  {
  }

  // ---- The whole function ----

  /** The same instruction, its relative operand aside. */
  predicate SameInsn(s: State, r: State) {
    && r.length == s.length && r.opcode == s.opcode && r.modrm == s.modrm && r.sib == s.sib
    && r.prefixes == s.prefixes && r.rex == s.rex && r.vex == s.vex && r.attr == s.attr
  }

  /** Memory m holds the instruction at offset b of the function, referring to what it should if it can. */
  predicate FaithfulAt(t: Tables, v: Move, m: seq<Byte>, b: nat)
    requires WellFormed(t)
  {
    var s, r := DecodeAt(t, v.text, b), DecodeAt(t, m, v.base + b);
    && SameInsn(s, r)
    && (PcOperand(s).Relative? ==>
          PcOperand(r).Relative? && (OperandCorrect(s, r, v.Src(b), v.Dest(b), v.f) <==> OperandReachable(s, v.Src(b), v.Dest(b), v.f)))
  }

  /** It does so for all instructions of the function, and has boundaries at the same offsets. */
  ghost predicate Faithful(t: Tables, v: Move, m: seq<Byte>, end: nat, stop: nat)
    requires WellFormed(t)
  {
    && (forall b: nat :: Boundary(t, v, b) && b < end ==> FaithfulAt(t, v, m, b))
    && (forall b: nat :: b <= stop ==> (Boundary(t, v, b) <==> Boundary(t, v.(text := From(m, v.base)), b)))
  }

  /** Every function of whole instructions is copied faithfully. */
  lemma CopyFaithful(t: Tables, v: Move, m: seq<Byte>, end: nat)
    requires WellFormed(t) && v.base + end + SLACK <= |m| && WholeFunction(t, v, end)
    requires (v.newAddr - v.f.addr) % TWO64 != 0
    ensures var r := Copy(t, v, m, end); r.Copied? && Faithful(t, v, r.m, end, r.stop)
  {
    JobValid(t, v);
    WholeSucceeds(JobOf(t, v), m, 0, end);
    var r := Copy(t, v, m, end);
    forall b: nat | Boundary(t, v, b) && b < end
      ensures FaithfulAt(t, v, r.m, b)
    {
      CopyFaithfulAt(t, v, m, end, b);
    }
    forall b: nat | b <= r.stop
      ensures Boundary(t, v, b) <==> Boundary(t, v.(text := From(r.m, v.base)), b)
    {
      SameBoundaries(t, v, m, end, b);
    }
  }

  lemma CopyFaithfulAt(t: Tables, v: Move, m: seq<Byte>, end: nat, b: nat)
    requires WellFormed(t) && v.base + end + SLACK <= |m| && WholeFunction(t, v, end) && Boundary(t, v, b) && b < end
    requires (v.newAddr - v.f.addr) % TWO64 != 0
    ensures FaithfulAt(t, v, Copy(t, v, m, end).m, b)
  {
    var s := DecodeAt(t, v.text, b);
    CopyDecodes(t, v, m, end, b);
    RewrittenSame(s, InnerFix(s, FixOf(s, v.Src(b), v.Dest(b), v.f)));
    if PcOperand(s).Relative? {
      RelocationPreservesMeaning(t, v, m, end, b);
    }
  }

  // ---- What the copy writes ----

  /** Where the bytes written for the first end bytes' worth of instructions end. */
  function CopyExtent(t: Tables, v: Move, end: nat): nat
    requires WellFormed(t)
  {
    WriteExtent(JobOf(t, v).piece, 0, end)
  }

  /** Memory outside the bytes up to the write extent is as it was. */
  lemma CopyWritesOnlyCopy(t: Tables, v: Move, m: seq<Byte>, end: nat)
    requires WellFormed(t) && v.base + end + SLACK <= |m|
    ensures var r := Copy(t, v, m, end);
      SameOn(m, r.m, 0, v.base) && SameOn(m, r.m, v.base + CopyExtent(t, v, end), |m|)
  {
    JobValid(t, v);
    CopyFrame(JobOf(t, v), m, 0, end);
  }

  /** A mistaken instruction is the last one: its end is the end of the function. */
  ghost predicate MistakenAtEnd(t: Tables, v: Move, end: nat)
    requires WellFormed(t)
  {
    exists b: nat :: Boundary(t, v, b) && b < end && MistakenEnds(v, DecodeAt(t, v.text, b), b)
  }

  predicate MistakenEnds(v: Move, s: State, b: nat) {
    Mistaken(s) && b + s.length == v.f.size
  }

  /** A mistaken instruction gets a rewrite only there, and it begins right behind it. */
  lemma MistakenFix(v: Move, s: State, off: nat)
    requires Tame(s) && Whole(s) && Mistaken(s) && v.f.Valid() && off + s.length <= v.f.size
    ensures var x := FixOf(s, v.Src(off), v.Dest(off), v.f);
      (x.Fix? <==> off + s.length == v.f.size) && (x.Fix? ==> x.pos == s.length)
  {
  }

  /** In a function without a rewrite past its instruction, the writes end where the copy does. */
  lemma ExtentIsStop(t: Tables, v: Move, m: seq<Byte>, end: nat)
    requires WellFormed(t) && v.base + end + SLACK <= |m| && WholeFunction(t, v, end)
    requires forall b: nat :: Boundary(t, v, b) && b < end ==> !Mistaken(DecodeAt(t, v.text, b))
    ensures var r := Copy(t, v, m, end); r.Copied? && CopyExtent(t, v, end) == r.stop
  {
    JobValid(t, v);
    var j := JobOf(t, v);
    WholeSucceeds(j, m, 0, end);
    var stop := CopyFrom(j, m, 0, end).stop;
    StopReached(j, m, 0, end);
    forall b: nat | Reaches(j.piece, 0, b) && b < end
      ensures FixBelow(j.piece, b, stop)
    {
      assert Boundary(t, v, b);
      WholeAt(j.piece, 0, end, b);
      NextBoundary(j.piece, 0, b, stop);
      DecodeTame(t, From(v.text, b));
    }
    ExtentBelow(j, m, 0, end, stop);
  }

  /**
   * The copy writes nothing past the size bytes allocated for it iff an
   * instruction boundary lies between the trimmed end and the size, and no
   * mistaken instruction ends the function.
   */
  lemma CopyStaysInside(t: Tables, v: Move, m: seq<Byte>, end: nat)
    requires WellFormed(t) && v.base + end + SLACK <= |m| && WholeFunction(t, v, end) && v.f.Valid() && end <= v.f.size
    ensures var r := Copy(t, v, m, end);
      && (r.Copied? && CopyExtent(t, v, end) <= v.f.size
          <==> (exists b: nat :: Boundary(t, v, b) && end <= b <= v.f.size) && !MistakenAtEnd(t, v, end))
      && (CopyExtent(t, v, end) <= v.f.size ==> SameOn(m, r.m, v.base + v.f.size, |m|))
  {
    JobValid(t, v);
    var j := JobOf(t, v);
    CopyFits(j, m, end, v.f.size);
    if CopyExtent(t, v, end) <= v.f.size {
      CopyBelow(j, m, 0, end, v.f.size);
    }
    if BoundaryWithin(j.piece, end, v.f.size) {
      var b: nat :| Reaches(j.piece, 0, b) && end <= b <= v.f.size;
      assert Boundary(t, v, b);
      FixesInside(t, v, end, b);
    }
    if b: nat :| Boundary(t, v, b) && end <= b <= v.f.size {
      WithinBoundary(j.piece, end, v.f.size, b);
    }
  }

  /** With a boundary in reach of the size, only a mistaken instruction at the end has a rewrite past it. */
  lemma FixesInside(t: Tables, v: Move, end: nat, last: nat)
    requires WellFormed(t) && WholeFunction(t, v, end) && v.f.Valid() && Boundary(t, v, last) && end <= last <= v.f.size
    ensures FixesBelow(JobOf(t, v).piece, 0, end, v.f.size) <==> !MistakenAtEnd(t, v, end)
  {
    var piece := JobOf(t, v).piece;
    forall b: nat | Reaches(piece, 0, b) && b < end
      ensures FixBelow(piece, b, v.f.size) <==> !MistakenEnds(v, DecodeAt(t, v.text, b), b)
    {
      WholeAt(piece, 0, end, b);
      NextBoundary(piece, 0, b, last);
      FixInside(t, v, b);
    }
    forall b: nat | Boundary(t, v, b) && b < end && MistakenEnds(v, DecodeAt(t, v.text, b), b)
      ensures !FixesBelow(piece, 0, end, v.f.size)
    {
      assert Reaches(piece, 0, b);
    }
    forall b: nat | Reaches(piece, 0, b) && b < end && MistakenEnds(v, DecodeAt(t, v.text, b), b)
      ensures MistakenAtEnd(t, v, end)
    {
      assert Boundary(t, v, b);
    }
  }

  lemma FixInside(t: Tables, v: Move, b: nat)
    requires WellFormed(t) && v.f.Valid()
    requires var s := DecodeAt(t, v.text, b); Whole(s) && b + s.length <= v.f.size
    ensures FixBelow(JobOf(t, v).piece, b, v.f.size) <==> !MistakenEnds(v, DecodeAt(t, v.text, b), b)
  {
    var s := DecodeAt(t, v.text, b);
    DecodeTame(t, From(v.text, b));
    if Mistaken(s) {
      MistakenFix(v, s, b);
    }
  }
}
