/**
 * How long an instruction can be: the escape loop runs at most twice, what
 * follows the legacy prefixes takes 1 to 12 bytes, and so the 8-bit length
 * field is exact for up to 243 prefix bytes.
 */
module Lengths {
  import opened Bytes
  import opened Inat
  import opened Decode
  import opened Locality
  import opened RoundTrip

  /** Bytes that may still follow an opcode of n bytes. */
  function TailLimit(avx: bool, n: nat): nat {
    if avx then 7 else if n == 1 then 10 else 8
  }

  lemma NilWithin(t: Tables, n: nat)
    ensures TailWithin(t, NIL, n)
  {
  }

  /** Opcode bytes read so far, with an attribute that is either an escape or bounded. */
  ghost predicate Bounded(t: Tables, s: State) {
    1 <= s.opcode.nbytes && (s.attr.esc == 0 ==> TailWithin(t, s.attr, TailLimit(false, s.opcode.nbytes)))
  }

  lemma EscapeStepBounded(t: Tables, c: seq<Byte>, s: State)
    requires EscapesRanked(t) && TailsBounded(t) && s.attr.esc != 0
    requires s.opcode.nbytes + EscRank(s.attr.esc) <= 3 && 1 <= s.opcode.nbytes
    ensures Bounded(t, EscapeStep(t, c, s))
  {
    var op := At(c, s.next);
    assert EscapeBounded(t, s.attr.esc, 0, op);
    assert EscapeBounded(t, s.attr.esc, VariantId(t, LastPrefix(s)), op);
    NilWithin(t, 8);
  }

  lemma {:induction false} EscapesBounded(t: Tables, c: seq<Byte>, s: State)
    requires EscapesRanked(t) && TailsBounded(t) && Bounded(t, s)
    requires s.opcode.nbytes + EscRank(s.attr.esc) <= 3
    ensures Bounded(t, Escapes(t, c, s))
    decreases EscRank(s.attr.esc)
  {
    if s.attr.esc != 0 {
      EscapeStepBounded(t, c, s);
      EscapesBounded(t, c, EscapeStep(t, c, s));
    }
  }

  lemma OpcodeBounded(t: Tables, c: seq<Byte>, s: State)
    requires WellFormed(t)
    ensures var r := OpcodeStage(t, c, s);
      TailWithin(t, r.attr, TailLimit(IsAvx(s), r.opcode.nbytes))
  {
    var op := At(c, s.next);
    NilWithin(t, TailLimit(IsAvx(s), OpcodeStage(t, c, s).opcode.nbytes));
    if IsAvx(s) {
      assert AvxBounded(t, VexM(s), VexP(s), op);
    } else {
      assert PrimaryBounded(t, op);
      EscapesBounded(t, c, FirstOpcode(c, s).(attr := t.primary[op]));
    }
  }

  lemma ModrmWithin(t: Tables, c: seq<Byte>, s: State, n: nat)
    requires TailWithin(t, s.attr, n)
    ensures var r := ModrmStage(t, c, s);
      Within(r.attr, n) && (s.attr.modrm ==> r.attr.modrm)
  {
    if s.attr.grp != 0 {
      assert GroupWithin(t, s.attr, At(c, s.next), LastPrefix(s), n);
    }
  }

  lemma FirstPlanBound(a: Attr, opnd: bv8)
    requires !a.moffset && a.imm != 0
    ensures FirstPlan(a.imm, opnd).n1 + FirstPlan(a.imm, opnd).n2 + (if a.scndImm then 1 else 0) <= MaxImmediate(a)
  {
  }

  lemma ImmBound(c: seq<Byte>, s: State)
    ensures ImmStage(c, s).next - s.next <= MaxImmediate(s.attr)
  {
    ImmNext(c, s);
    if !s.attr.moffset && s.attr.imm != 0 {
      FirstPlanBound(s.attr, s.opnd);
    }
  }

  lemma AddressingBound(c: seq<Byte>, s: State)
    requires s.sib == NO_VALUE && s.disp == NO_VALUE
    ensures var b := SibStage(c, s); var d := DispStage(c, b);
      d.attr == s.attr && d.next - s.next <= if s.modrm.nbytes == 0 then 0 else 5
  {
  }

  /** From ModRM to the end, given the struct after the opcode. */
  lemma TailBound(t: Tables, c: seq<Byte>, s: State, n: nat)
    requires TailWithin(t, s.attr, n) && s.modrm == NO_VALUE && s.sib == NO_VALUE && s.disp == NO_VALUE
    ensures var m := ModrmStage(t, c, s); var d := DispStage(c, SibStage(c, m));
      ImmStage(c, d).next - s.next <= n && SecondImmFree(d.attr)
  {
    var m := ModrmStage(t, c, s);
    ModrmWithin(t, c, s, n);
    ModrmForward(t, c, s);
    assert m.sib == NO_VALUE && m.disp == NO_VALUE && m.modrm.nbytes == if s.attr.modrm then 1 else 0;
    AddressingBound(c, m);
    ImmBound(c, DispStage(c, SibStage(c, m)));
  }

  lemma ChainTail(t: Tables, c: seq<Byte>, x64: bool)
    requires WellFormed(t)
    ensures var o := Chain(t, c, x64, OPCODE);
      && Chain(t, c, x64, IMM).next - o.next <= TailLimit(IsAvx(Chain(t, c, x64, PREFIXES)), o.opcode.nbytes)
      && SecondImmFree(Chain(t, c, x64, DISP).attr)
  {
    var o := Chain(t, c, x64, OPCODE);
    ChainUnfold(t, c, x64, OPCODE);
    OpcodeBounded(t, c, Chain(t, c, x64, PREFIXES));
    ChainBlank(t, c, x64, MODRM, OPCODE);
    ChainBlank(t, c, x64, SIB, OPCODE);
    ChainBlank(t, c, x64, DISP, OPCODE);
    ChainUnfold(t, c, x64, MODRM);
    ChainUnfold(t, c, x64, SIB);
    ChainUnfold(t, c, x64, DISP);
    ChainUnfold(t, c, x64, IMM);
    TailBound(t, c, o, TailLimit(IsAvx(Chain(t, c, x64, PREFIXES)), o.opcode.nbytes));
  }

  lemma PrefixBound(t: Tables, c: seq<Byte>, x64: bool)
    requires t.primary[0].pfx == 0
    ensures var r := PrefixStage(t, c, Init(x64));
      0 <= r.next - PrefixCount(t, c, x64) <= 1 + r.vex.nbytes <= 4
  {
    var l := LegacyStage(t, c, Init(x64));
    var x := RexStage(t, c, l);
    assert x.vex == NO_BYTES && l.next <= x.next <= l.next + 1;
    VexOwn(t, c, x);
  }

  /**
   * Whatever the bytes, an instruction takes 1 to 12 bytes after its legacy
   * prefixes and has at most three opcode bytes.
   */
  lemma InstructionLength(t: Tables, c: seq<Byte>, x64: bool)
    requires WellFormed(t)
    ensures 1 <= Extent(t, c, x64) - PrefixCount(t, c, x64) <= 12
    ensures 1 <= Chain(t, c, x64, OPCODE).opcode.nbytes <= 3
  {
    var p, o := Chain(t, c, x64, PREFIXES), Chain(t, c, x64, OPCODE);
    ChainUnfold(t, c, x64, PREFIXES);
    ChainUnfold(t, c, x64, OPCODE);
    ChainUnfold(t, c, x64, LENGTH);
    PrefixBound(t, c, x64);
    VexRecorded(t, c, Init(x64));
    ChainBlank(t, c, x64, OPCODE, PREFIXES);
    OpcodeOwn(t, c, p);
    ChainTail(t, c, x64);
    ChainForward(t, c, x64, OPCODE, IMM);
    if IsAvx(p) {
      assert o.opcode.nbytes == 1;
    }
  }

  lemma LengthTruncated(t: Tables, c: seq<Byte>, x64: bool)
    requires WellFormed(t)
    ensures FullDecode(t, c, x64).length == Extent(t, c, x64) % 256
  {
    ChainUnfold(t, c, x64, LENGTH);
  }

  /** The 8-bit length field is exact and non-zero with up to 243 prefix bytes, and exact only below 256 bytes. */
  lemma LengthExact(t: Tables, c: seq<Byte>, x64: bool)
    requires WellFormed(t)
    ensures PrefixCount(t, c, x64) <= 243 ==> 0 < FullDecode(t, c, x64).length == Extent(t, c, x64)
    ensures FullDecode(t, c, x64).length == Extent(t, c, x64) <==> Extent(t, c, x64) < 256
  {
    InstructionLength(t, c, x64);
    LengthTruncated(t, c, x64);
  }
}
