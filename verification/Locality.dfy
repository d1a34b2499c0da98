/**
 * Decoding reads no byte past the end of the instruction: two memories that
 * agree on the bytes a decoding consumed decode to the same struct.
 */
module Locality {
  import opened Bytes
  import opened Inat
  import opened Decode

  lemma {:induction false} ScanLocal(t: Tables, c: seq<Byte>, d: seq<Byte>, x64: bool, k: Scan)
    requires t.primary[0].pfx == 0 && k.nb <= 4
    requires Agree(c, d, ScanFrom(t, c, x64, k).pos + 1)
    ensures ScanFrom(t, d, x64, k) == ScanFrom(t, c, x64, k)
    decreases if k.pos < |c| then |c| - k.pos else 0
  {
    assert At(d, k.pos) == At(c, k.pos);
    var step := ScanTurn(t, c, x64, k);
    if step.Go? {
      ScanLocal(t, c, d, x64, step.k);
    }
  }

  /** One past the last byte that prefix scanning looked at, given the state it produced. */
  function PrefixReach(t: Tables, c: seq<Byte>, r: State): nat {
    if r.vex.nbytes != 0 then r.next
    else if IsVexPrefix(t.primary[At(c, r.next)]) then r.next + 2
    else r.next + 1
  }

  lemma PrefixLocal(t: Tables, c: seq<Byte>, d: seq<Byte>, s: State)
    requires t.primary[0].pfx == 0 && s.vex.nbytes == 0
    requires Agree(c, d, PrefixReach(t, c, PrefixStage(t, c, s)))
    ensures PrefixStage(t, d, s) == PrefixStage(t, c, s)
  {
    var l := LegacyStage(t, c, s);
    ScanLocal(t, c, d, s.x64, ScanInit(s.opnd, s.addr));
    var r := RexStage(t, c, l);
    assert RexStage(t, d, l) == r;
    VexLocal(t, c, d, r);
  }

  lemma VexLocal(t: Tables, c: seq<Byte>, d: seq<Byte>, s: State)
    requires s.vex.nbytes == 0
    requires Agree(c, d, PrefixReach(t, c, VexStage(t, c, s)))
    ensures VexStage(t, d, s) == VexStage(t, c, s)
  {
    assert At(d, s.next) == At(c, s.next);
    if IsVexPrefix(t.primary[At(c, s.next)]) {
      assert At(d, s.next + 1) == At(c, s.next + 1);
      if TakesVex(t, c, s) && t.primary[At(c, s.next)].pfx == PFX_VEX3 {
        assert At(d, s.next + 2) == At(c, s.next + 2);
      }
    }
  }

  lemma {:induction false} EscapesLocal(t: Tables, c: seq<Byte>, d: seq<Byte>, s: State)
    requires EscapesRanked(t)
    requires s.opcode.nbytes + EscRank(s.attr.esc) <= 3
    requires Agree(c, d, Escapes(t, c, s).next)
    ensures Escapes(t, d, s) == Escapes(t, c, s)
    decreases EscRank(s.attr.esc)
  {
    if s.attr.esc != 0 {
      assert At(d, s.next) == At(c, s.next);
      EscapesLocal(t, c, d, EscapeStep(t, c, s));
    }
  }

  lemma FirstOpcodeLocal(t: Tables, c: seq<Byte>, d: seq<Byte>, s: State)
    requires EscapesRanked(t) && !IsAvx(s) && At(d, s.next) == At(c, s.next)
    requires Agree(c, d, Escapes(t, c, FirstOpcode(c, s).(attr := t.primary[At(c, s.next)])).next)
    ensures OpcodeStage(t, d, s) == OpcodeStage(t, c, s)
  {
    EscapesLocal(t, c, d, FirstOpcode(c, s).(attr := t.primary[At(c, s.next)]));
  }

  lemma OpcodeLocal(t: Tables, c: seq<Byte>, d: seq<Byte>, s: State)
    requires EscapesRanked(t)
    requires Agree(c, d, OpcodeStage(t, c, s).next)
    ensures OpcodeStage(t, d, s) == OpcodeStage(t, c, s)
  {
    assert At(d, s.next) == At(c, s.next);
    if !IsAvx(s) {
      FirstOpcodeLocal(t, c, d, s);
    }
  }

  lemma ModrmLocal(t: Tables, c: seq<Byte>, d: seq<Byte>, s: State)
    requires Agree(c, d, ModrmStage(t, c, s).next)
    ensures ModrmStage(t, d, s) == ModrmStage(t, c, s)
  {
  }

  lemma SignedLocal(c: seq<Byte>, d: seq<Byte>, i: nat, n: nat)
    requires AgreeOn(c, d, i, i + n) && (n == 1 || n == 2 || n == 4)
    ensures SignedAt(d, i, n) == SignedAt(c, i, n)
  {
    assert At(d, i) == At(c, i);
  }

  lemma DispLocal(c: seq<Byte>, d: seq<Byte>, s: State)
    requires AgreeOn(c, d, s.next, DispStage(c, s).next)
    ensures DispStage(d, s) == DispStage(c, s)
  {
    if DispSize(s) != 0 {
      SignedLocal(c, d, s.next, DispSize(s));
    }
  }

  lemma SecondLocal(c: seq<Byte>, d: seq<Byte>, i: nat, p: Plan)
    requires p.Sane() && p.n2 != 0 && AgreeOn(c, d, i, i + p.n2)
    ensures SecondAt(d, i, p) == SecondAt(c, i, p)
  {
    if p.segment {
      assert At(d, i) == At(c, i) && At(d, i + 1) == At(c, i + 1);
    } else {
      SignedLocal(c, d, i, p.n2);
    }
  }

  lemma ApplyLocal(c: seq<Byte>, d: seq<Byte>, s: State, p: Plan, n: nat)
    requires p.Sane() && Apply(c, s, p).next <= n && AgreeOn(c, d, s.next, n)
    ensures Apply(d, s, p) == Apply(c, s, p)
  {
    ApplyFrame(c, s, p);
    if p.n1 != 0 {
      SignedLocal(c, d, s.next, p.n1);
    }
    if p.n2 != 0 {
      SecondLocal(c, d, s.next + p.n1, p);
    }
  }

  lemma ApplyFrame(c: seq<Byte>, s: State, p: Plan)
    ensures var r := Apply(c, s, p);
      r == s.(imm1 := r.imm1, imm2 := r.imm2, next := s.next + p.n1 + p.n2)
  {
  }

  lemma ImmNext(c: seq<Byte>, s: State)
    ensures Apply(c, s, ImmPlan(s)).next == s.next + ImmPlan(s).n1 + ImmPlan(s).n2
    ensures ImmStage(c, s).next == s.next + ImmPlan(s).n1 + ImmPlan(s).n2 + if TrailingByte(s.attr) then 1 else 0
  {
    ApplyFrame(c, s, ImmPlan(s));
  }

  /** The immediate stage depends only on the bytes it consumes. */
  lemma ImmLocal(c: seq<Byte>, d: seq<Byte>, s: State)
    requires AgreeOn(c, d, s.next, ImmStage(c, s).next)
    ensures ImmStage(d, s) == ImmStage(c, s)
  {
    ImmNext(c, s);
    ApplyLocal(c, d, s, ImmPlan(s), ImmStage(c, s).next);
    var i := s.next + ImmPlan(s).n1 + ImmPlan(s).n2;
    if TrailingByte(s.attr) {
      assert At(c, i) == At(d, i);
    }
  }

  /** Later stages only move forward; the opcode stage consumes at least one byte. */
  lemma StageForward(t: Tables, c: seq<Byte>, k: nat, s: State)
    requires WellFormed(t) && 2 <= k
    ensures Stage(t, c, k, s).next >= s.next + if k == OPCODE then 1 else 0
  {
    if k == OPCODE {
      OpcodeForward(t, c, s);
    } else if k == MODRM {
      ModrmForward(t, c, s);
    } else if k == IMM {
      ImmNext(c, s);
    }
  }

  lemma OpcodeForward(t: Tables, c: seq<Byte>, s: State)
    requires EscapesRanked(t)
    ensures OpcodeStage(t, c, s).next >= s.next + 1
  {
  }

  lemma ModrmForward(t: Tables, c: seq<Byte>, s: State)
    ensures ModrmStage(t, c, s).next == s.next + if s.attr.modrm then 1 else 0
  {
  }

  lemma ChainUnfold(t: Tables, c: seq<Byte>, x64: bool, k: nat)
    requires WellFormed(t) && 0 < k
    ensures Chain(t, c, x64, k) == Stage(t, c, k, Chain(t, c, x64, k - 1))
  {
  }

  lemma {:induction false} ChainForward(t: Tables, c: seq<Byte>, x64: bool, j: nat, k: nat)
    requires WellFormed(t) && 1 <= j <= k
    ensures Chain(t, c, x64, j).next <= Chain(t, c, x64, k).next
    decreases k
  {
    if j < k {
      ChainForward(t, c, x64, j, k - 1);
      StageForward(t, c, k, Chain(t, c, x64, k - 1));
    }
  }

  lemma NoVexYet(t: Tables, c: seq<Byte>, s: State)
    requires t.primary[0].pfx == 0
    ensures RexStage(t, c, LegacyStage(t, c, s)).vex == s.vex
  {
  }

  lemma VexStageRecords(t: Tables, c: seq<Byte>, l: State)
    requires t.primary[0].pfx == 0 && l.vex == NO_BYTES
    ensures var r := VexStage(t, c, l); IsAvx(r) == (r.vex.nbytes != 0)
  {
    if TakesVex(t, c, l) {
      assert At(c, l.next) != 0;
      assert VexStage(t, c, l).vex.bytes[0] == At(c, l.next);
    }
  }

  /** VEX bytes are recorded in the struct exactly when they are consumed. */
  lemma VexRecorded(t: Tables, c: seq<Byte>, s: State)
    requires t.primary[0].pfx == 0 && s.vex == NO_BYTES
    ensures var r := PrefixStage(t, c, s); IsAvx(r) == (r.vex.nbytes != 0)
  {
    var l := RexStage(t, c, LegacyStage(t, c, s));
    NoVexYet(t, c, s);
    VexStageRecords(t, c, l);
  }

  /** What prefix scanning peeked at is consumed by the time ModRM has been read. */
  lemma ReachConsumed(t: Tables, c: seq<Byte>, x64: bool)
    requires WellFormed(t)
    ensures PrefixReach(t, c, Chain(t, c, x64, PREFIXES)) <= Chain(t, c, x64, MODRM).next
  {
    var p := Chain(t, c, x64, PREFIXES);
    ChainUnfold(t, c, x64, PREFIXES);
    ChainUnfold(t, c, x64, OPCODE);
    ChainUnfold(t, c, x64, MODRM);
    VexRecorded(t, c, Init(x64));
    var o := OpcodeStage(t, c, p);
    StageForward(t, c, OPCODE, p);
    StageForward(t, c, MODRM, o);
    if p.vex.nbytes == 0 && IsVexPrefix(t.primary[At(c, p.next)]) {
      assert PrefixSound(t, At(c, p.next));
      assert o.attr == t.primary[At(c, p.next)];
    }
  }

  lemma StageLocal(t: Tables, c: seq<Byte>, d: seq<Byte>, k: nat, s: State)
    requires WellFormed(t) && 2 <= k <= LENGTH
    requires Agree(c, d, Stage(t, c, k, s).next)
    ensures Stage(t, d, k, s) == Stage(t, c, k, s)
  {
    if k == OPCODE {
      OpcodeLocal(t, c, d, s);
    } else if k == MODRM {
      ModrmLocal(t, c, d, s);
    } else if k == DISP {
      DispLocal(c, d, s);
    } else if k == IMM {
      ImmLocal(c, d, s);
    }
  }

  lemma AgreePrefix(c: seq<Byte>, d: seq<Byte>, m: nat, n: nat)
    requires m <= n && Agree(c, d, n)
    ensures Agree(c, d, m)
  {
  }

  /** The cursor after k stages. */
  function Cursor(t: Tables, c: seq<Byte>, x64: bool, k: nat): nat
    requires WellFormed(t)
  {
    Chain(t, c, x64, k).next
  }

  /** How many bytes a full decoding consumes. */
  function Extent(t: Tables, c: seq<Byte>, x64: bool): nat
    requires WellFormed(t)
  {
    Cursor(t, c, x64, LENGTH)
  }

  lemma FirstStageLocal(t: Tables, c: seq<Byte>, d: seq<Byte>, x64: bool, last: nat)
    requires WellFormed(t) && MODRM <= last && Agree(c, d, Cursor(t, c, x64, last))
    ensures Chain(t, d, x64, PREFIXES) == Chain(t, c, x64, PREFIXES)
  {
    ReachConsumed(t, c, x64);
    ChainForward(t, c, x64, MODRM, last);
    ChainUnfold(t, c, x64, PREFIXES);
    ChainUnfold(t, d, x64, PREFIXES);
    AgreePrefix(c, d, PrefixReach(t, c, Chain(t, c, x64, PREFIXES)), Cursor(t, c, x64, last));
    PrefixLocal(t, c, d, Init(x64));
  }

  lemma StepLocal(t: Tables, c: seq<Byte>, d: seq<Byte>, x64: bool, k: nat, last: nat)
    requires WellFormed(t) && 2 <= k <= last && k <= LENGTH && Agree(c, d, Cursor(t, c, x64, last))
    requires Chain(t, d, x64, k - 1) == Chain(t, c, x64, k - 1)
    ensures Chain(t, d, x64, k) == Chain(t, c, x64, k)
  {
    ChainForward(t, c, x64, k, last);
    ChainUnfold(t, c, x64, k);
    ChainUnfold(t, d, x64, k);
    AgreePrefix(c, d, Chain(t, c, x64, k).next, Cursor(t, c, x64, last));
    StageLocal(t, c, d, k, Chain(t, c, x64, k - 1));
  }

  /** The struct before the displacement depends only on the bytes consumed by then. */
  lemma SibLocal(t: Tables, c: seq<Byte>, d: seq<Byte>, x64: bool, last: nat)
    requires WellFormed(t) && SIB <= last <= LENGTH && Agree(c, d, Cursor(t, c, x64, last))
    ensures Chain(t, d, x64, SIB) == Chain(t, c, x64, SIB)
  {
    FirstStageLocal(t, c, d, x64, last);
    StepLocal(t, c, d, x64, OPCODE, last);
    StepLocal(t, c, d, x64, MODRM, last);
    StepLocal(t, c, d, x64, SIB, last);
  }

  /** The struct before the immediates depends only on the bytes consumed by then. */
  lemma ChainDispLocal(t: Tables, c: seq<Byte>, d: seq<Byte>, x64: bool, last: nat)
    requires WellFormed(t) && DISP <= last <= LENGTH && Agree(c, d, Cursor(t, c, x64, last))
    ensures Chain(t, d, x64, DISP) == Chain(t, c, x64, DISP)
  {
    SibLocal(t, c, d, x64, last);
    StepLocal(t, c, d, x64, DISP, last);
  }

  /** Decoding depends only on the bytes of the instruction itself. */
  lemma DecodeLocal(t: Tables, c: seq<Byte>, d: seq<Byte>, x64: bool)
    requires WellFormed(t) && Agree(c, d, Extent(t, c, x64))
    ensures FullDecode(t, d, x64) == FullDecode(t, c, x64)
  {
    ChainDispLocal(t, c, d, x64, LENGTH);
    StepLocal(t, c, d, x64, IMM, LENGTH);
    StepLocal(t, c, d, x64, LENGTH, LENGTH);
  }
}
