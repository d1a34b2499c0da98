/**
 * Moving one instruction (copy_and_fixup_insn): the copy decodes to the same
 * instruction with one 32-bit field rewritten, and what the copy refers to is
 * what the original referred to.
 */
module Relocation {
  import opened Bytes
  import opened Inat
  import opened Decode
  import opened Locality
  import opened RoundTrip
  import opened Lengths
  import opened Reencoding
  import PrefixScan

  const OP_CALL: Byte := 0xe8
  const OP_JMP: Byte := 0xe9

  /** The part of struct kernsym that relocation looks at. */
  datatype Func = Func(addr: nat, size: nat) {
    /** It does not wrap around the address space. */
    predicate Valid() {
      addr + size < TWO64
    }

    /** The unsigned range test on a 64-bit address. */
    predicate Contains(a: int) {
      addr <= a < addr + size
    }
  }

  /** CODE_ADDR_FROM_OFFSET with 64-bit wrap-around. */
  function CodeAddr(insnAddr: int, len: int, offset: int): (a: int)
    ensures 0 <= a < TWO64
  {
    (insnAddr + len + offset) % TWO64
  }

  /** CODE_OFFSET_FROM_ADDR, truncated to 32 bits. */
  function CodeOffset(insnAddr: int, len: int, dest: int): (u: int)
    ensures 0 <= u < TWO32
  {
    (dest - (insnAddr + len)) % TWO32
  }

  /** A displacement from an instruction's end fits in 32 signed bits, modulo 2^64. */
  predicate InReach(insnAddr: int, len: int, dest: int) {
    var d := (dest - (insnAddr + len)) % TWO64;
    d < TWO31 || d >= TWO64 - TWO31
  }

  /** Splitting an integer below 2^64 into 32-bit halves. */
  lemma Halves(x: int)
    ensures x % TWO64 % TWO32 == x % TWO32
  {
    var q := x / TWO64;
    assert x == q * TWO64 + x % TWO64;
    var p := x % TWO64 / TWO32;
    assert x % TWO64 == p * TWO32 + x % TWO64 % TWO32;
    assert x == (q * TWO32 + p) * TWO32 + x % TWO64 % TWO32;
    ModUnique32(x, q * TWO32 + p, x % TWO64 % TWO32);
  }

  lemma ModUnique32(x: int, q: int, r: int)
    requires x == q * TWO32 + r && 0 <= r < TWO32
    ensures x % TWO32 == r
  {
  }

  lemma ModUnique64(x: int, q: int, r: int)
    requires x == q * TWO64 + r && 0 <= r < TWO64
    ensures x % TWO64 == r
  {
  }

  /** The rewritten offset leads back to the old target exactly when that is within reach. */
  lemma OffsetLeadsBack(insnAddr: int, len: int, target: int)
    requires 0 <= target < TWO64
    ensures CodeAddr(insnAddr, len, AsSigned32(CodeOffset(insnAddr, len, target))) == target <==> InReach(insnAddr, len, target)
  {
    var a := insnAddr + len;
    var x := target - a;
    var d, u := x % TWO64, x % TWO32;
    Halves(x);
    assert u == d % TWO32;
    var h := d / TWO32;
    assert d == h * TWO32 + u && 0 <= h < TWO32;
    var v := AsSigned32(u);
    var k := x / TWO64;
    assert x == k * TWO64 + d;
    // a + v == target - (d - v) - k * 2^64
    assert a + v == target - k * TWO64 - (d - v);
    if d < TWO31 {
      assert h == 0 && v == d;
      ModUnique64(a + v, -k, target);
    } else if d >= TWO64 - TWO31 {
      assert h == TWO32 - 1 && v == d - TWO64;
      ModUnique64(a + v, -k - 1, target);
    } else {
      assert 0 < d - v < TWO64;
      NotSame(a + v, target, d - v, k);
    }
  }

  lemma NotSame(y: int, target: int, e: int, k: int)
    requires 0 <= target < TWO64 && 0 < e < TWO64 && y == target - k * TWO64 - e
    ensures y % TWO64 != target
  {
    if target >= e {
      ModUnique64(y, -k, target - e);
    } else {
      ModUnique64(y, -k - 1, target - e + TWO64);
    }
  }

  /** Moving an instruction without changing its offset moves its target by the same distance. */
  lemma TargetShifts(src: int, dest: int, len: int, v: int)
    ensures CodeAddr(dest, len, v) == (CodeAddr(src, len, v) + dest - src) % TWO64
  {
    var x := src + len + v;
    var q := x / TWO64;
    assert x == q * TWO64 + x % TWO64;
    var y := x % TWO64 + dest - src;
    var p := y / TWO64;
    assert y == p * TWO64 + y % TWO64;
    assert dest + len + v == (q + p) * TWO64 + y % TWO64;
    ModUnique64(dest + len + v, q + p, y % TWO64);
  }

  /** A nonzero move does not leave the shifted target where it was. */
  lemma ShiftMoves(target: int, delta: int)
    requires 0 <= target < TWO64 && delta % TWO64 != 0
    ensures (target + delta) % TWO64 != target
  {
    var y := target + delta;
    if y % TWO64 == target {
      assert y == (y / TWO64) * TWO64 + target;
      ModUnique64(delta, y / TWO64, 0);
    }
  }

  // ---- What an instruction refers to ----

  predicate IsCallJmp(s: State) {
    s.opcode.bytes[0] == OP_CALL || s.opcode.bytes[0] == OP_JMP
  }

  /** jcc, loop, jcxz, jmp, call and xbegin with a relative operand, by opcode and ModRM bytes. */
  predicate IsRelativeBranch(s: State) {
    var b0, b1 := s.opcode.bytes[0], s.opcode.bytes[1];
    && !IsAvx(s)
    && (0x70 <= b0 <= 0x7f || 0xe0 <= b0 <= 0xe3 || b0 == 0xeb || IsCallJmp(s) || (b0 == 0x0f && 0x80 <= b1 <= 0x8f)
        || (b0 == 0xc7 && s.modrm.value == 0xf8))
  }

  datatype Operand = NoOperand | Relative(offset: int)

  /** The operand taken relative to the end of the instruction in 64-bit code, if there is one. */
  function PcOperand(s: State): Operand {
    if RipRelative(s) then Relative(s.disp.value)
    else if IsRelativeBranch(s) then Relative(s.imm1.value)
    else NoOperand
  }

  function Target(s: State, at: int): int
    requires PcOperand(s).Relative?
  {
    CodeAddr(at, s.length, PcOperand(s).offset)
  }

  // ---- The rewrite ----

  datatype Fix = NoFix | Fix(pos: int, word: int)

  /** Where and what copy_and_fixup_insn writes over the raw copy. */
  function FixOf(s: State, src: int, dest: int, f: Func): (x: Fix)
    ensures x.Fix? ==> 0 <= x.word < TWO32
  {
    if IsCallJmp(s) then
      var target := CodeAddr(src, s.length, s.imm1.value);
      if f.Contains(target) then NoFix else Fix(OffsetImm(s), CodeOffset(dest, s.length, target))
    else if !RipRelative(s) then NoFix
    else
      var target := CodeAddr(src, s.length, s.disp.value);
      if f.Contains(target) then NoFix else Fix(OffsetDisp(s), CodeOffset(dest, s.length, target))
  }

  /** The 8-bit length is that of the whole instruction. */
  predicate Whole(s: State) {
    s.length == s.next
  }

  /** A VEX instruction whose opcode byte the test for CALL and JMP takes for theirs. */
  predicate Mistaken(s: State) {
    IsAvx(s) && IsCallJmp(s)
  }

  /** The rewrite as far as the instruction itself is concerned: a mistaken one goes past its end. */
  function InnerFix(s: State, x: Fix): Fix {
    if Mistaken(s) then NoFix else x
  }

  /** Instructions whose relative operand copy_and_fixup_insn can rewrite. */
  predicate Fixable(s: State) {
    !Mistaken(s) && (IsCallJmp(s) || RipRelative(s))
  }

  /** What the copied instruction should refer to. */
  function Intended(target: int, src: int, dest: int, f: Func): int {
    if f.Contains(target) then (target + dest - src) % TWO64 else target
  }

  /** s with the offset that the rewrite stores. */
  function Rewritten(s: State, x: Fix): State {
    if x.NoFix? then s
    else if IsCallJmp(s) then s.(imm1 := s.imm1.(value := AsSigned32(x.word)))
    else s.(disp := s.disp.(value := AsSigned32(x.word)))
  }

  /** d holds the first n bytes of c with the rewrite x applied. */
  ghost predicate Carries(c: seq<Byte>, d: seq<Byte>, n: nat, x: Fix) {
    if x.NoFix? then Agree(c, d, n)
    else
      && 0 <= x.pos && Agree(c, d, x.pos) && Slice(d, x.pos, 4) == LE(x.word, 4)
      && AgreeOn(c, d, x.pos + 4, n)
  }

  // ---- The rewritten field is a whole 32-bit field of the instruction ----

  /** CALL and JMP rel32 have no ModRM and 64-bit operand size. */
  lemma CallJmpModrm(t: Tables, c: seq<Byte>)
    requires WellFormed(t)
    requires var s := FullDecode(t, c, true); IsCallJmp(s) && !IsAvx(s)
    ensures var m := Chain(t, c, true, MODRM);
      m.attr == t.primary[OP_JMP] && m.opnd == 8 && m.modrm.nbytes == 0
  {
    ChainFrame(t, c, true, OPCODE, OPCODE, LENGTH);
    ChainFrame(t, c, true, PREFIXES, PREFIXES, LENGTH);
    ChainUnfold(t, c, true, OPCODE);
    CallJmpOpcode(t, c, Chain(t, c, true, PREFIXES));
    ChainUnfold(t, c, true, MODRM);
    ChainBlank(t, c, true, MODRM, OPCODE);
    X64Kept(t, c, OPCODE);
    PlainModrm(t, c, Chain(t, c, true, OPCODE));
  }

  lemma PlainModrm(t: Tables, c: seq<Byte>, s: State)
    requires RelativeBranch32(s.attr) && s.x64 && s.modrm == NO_VALUE
    ensures var m := ModrmStage(t, c, s); m.attr == s.attr && m.opnd == 8 && m.modrm.nbytes == 0
  {
  }

  /** They end in a 32-bit immediate and have no displacement. */
  lemma CallJmpShape(t: Tables, c: seq<Byte>)
    requires WellFormed(t)
    requires var s := FullDecode(t, c, true); IsCallJmp(s) && !IsAvx(s)
    ensures var d := Chain(t, c, true, DISP);
      !RipRelative(d) && ImmPlan(d) == Plan(4, 0, false, false) && !TrailingByte(d.attr)
  {
    var m := Chain(t, c, true, MODRM);
    CallJmpModrm(t, c);
    ChainUnfold(t, c, true, SIB);
    ChainUnfold(t, c, true, DISP);
    NoAddressing(c, m);
  }

  lemma NoAddressing(c: seq<Byte>, m: State)
    requires m.modrm.nbytes == 0
    ensures var d := DispStage(c, SibStage(c, m)); d.modrm == m.modrm && d.attr == m.attr && d.opnd == m.opnd
  {
  }

  lemma CallJmpOpcode(t: Tables, c: seq<Byte>, s: State)
    requires WellFormed(t)
    requires var o := OpcodeStage(t, c, s); IsCallJmp(o) && !IsAvx(s)
    ensures OpcodeStage(t, c, s).attr == t.primary[OP_JMP]
  {
    EscapesFirstByte(t, c, FirstOpcode(c, s).(attr := t.primary[At(c, s.next)]));
  }

  lemma {:induction false} EscapesFirstByte(t: Tables, c: seq<Byte>, s: State)
    requires EscapesRanked(t)
    requires s.opcode.nbytes + EscRank(s.attr.esc) <= 3 && s.opcode.nbytes >= 1
    ensures Escapes(t, c, s).opcode.bytes[0] == s.opcode.bytes[0]
    decreases EscRank(s.attr.esc)
  {
    if s.attr.esc != 0 {
      EscapesFirstByte(t, c, EscapeStep(t, c, s));
    }
  }

  lemma X64Kept(t: Tables, c: seq<Byte>, k: nat)
    requires WellFormed(t) && k <= SIB
    ensures Chain(t, c, true, k).x64
  {
    X64Prefixes(t, c);
    ChainUnfold(t, c, true, OPCODE);
    OpcodeFrame(t, c, Chain(t, c, true, PREFIXES));
    ChainUnfold(t, c, true, MODRM);
    PrefixScan.ModrmSizes(t, c, Chain(t, c, true, OPCODE));
    ChainUnfold(t, c, true, SIB);
  }

  lemma X64Prefixes(t: Tables, c: seq<Byte>)
    requires WellFormed(t)
    ensures Chain(t, c, true, PREFIXES).x64 && Chain(t, c, true, 0).x64
  {
    ChainUnfold(t, c, true, PREFIXES);
    PrefixFrame(t, c, Init(true));
  }

  /** A RIP-relative instruction has a 32-bit displacement, also with an address-size prefix. */
  lemma RipShape(t: Tables, c: seq<Byte>)
    requires WellFormed(t) && RipRelative(FullDecode(t, c, true))
    ensures DispSize(Chain(t, c, true, SIB)) == 4
  {
    ChainFrame(t, c, true, MODRM, SIB, LENGTH);
    PrefixScan.SizesSane(t, c, true, SIB);
    X64Kept(t, c, SIB);
    RipDispSize(Chain(t, c, true, SIB));
  }

  lemma RipDispSize(s: State)
    requires RipRelative(s) && s.x64 && PrefixScan.SaneSizes(s)
    ensures DispSize(s) == 4
  {
  }

  lemma WholeIsShort(t: Tables, c: seq<Byte>)
    requires WellFormed(t) && Whole(FullDecode(t, c, true))
    ensures PrefixCount(t, c, true) < 256 && FullDecode(t, c, true).next == Extent(t, c, true)
    ensures FullDecode(t, c, true).length == Extent(t, c, true) > 0
  {
    InstructionLength(t, c, true);
    LengthTruncated(t, c, true);
  }

  lemma DispNext(c: seq<Byte>, s: State)
    ensures DispStage(c, s).next == s.next + DispSize(s)
  {
    var n := DispSize(s);
    if n != 0 {
      assert DispStage(c, s) == s.(disp := ValueField(SignedAt(c, s.next, n), true, n), next := s.next + n);
    }
  }

  /** A mistaken instruction has no immediate, so that its target is its own end. */
  lemma MistakenImmediate(t: Tables, c: seq<Byte>)
    requires WellFormed(t) && Mistaken(FullDecode(t, c, true))
    ensures var s := FullDecode(t, c, true);
      s.imm1.value == 0 && s.imm1.nbytes == 0 && s.next == Chain(t, c, true, DISP).next
  {
    var p, o, m := Chain(t, c, true, PREFIXES), Chain(t, c, true, OPCODE), Chain(t, c, true, MODRM);
    ChainFrame(t, c, true, OPCODE, OPCODE, LENGTH);
    ChainFrame(t, c, true, PREFIXES, PREFIXES, LENGTH);
    ChainUnfold(t, c, true, OPCODE);
    ChainUnfold(t, c, true, MODRM);
    ChainUnfold(t, c, true, SIB);
    ChainBlank(t, c, true, IMM, DISP);
    MistakenOpcode(t, c, p);
    MistakenModrm(t, c, o);
    LastStages(t, c);
    AddressingKeepsAttr(c, m);
    NoImmediate(c, Chain(t, c, true, DISP));
  }

  lemma MistakenOpcode(t: Tables, c: seq<Byte>, p: State)
    requires WellFormed(t) && IsAvx(p) && IsCallJmp(OpcodeStage(t, c, p))
    ensures var a := OpcodeStage(t, c, p).attr; a.imm == 0 && !a.moffset && a.grp == 0
  {
    assert VexCallShape(t, VexM(p), VexP(p), At(c, p.next));
  }

  lemma MistakenModrm(t: Tables, c: seq<Byte>, o: State)
    requires o.attr.grp == 0
    ensures ModrmStage(t, c, o).attr == o.attr
  {
  }

  lemma NoImmediate(c: seq<Byte>, d: State)
    requires d.attr.imm == 0 && !d.attr.moffset
    ensures LengthStage(ImmStage(c, d)) == LengthStage(d.(imm1 := d.imm1.(got := true)))
  {
    assert ImmPlan(d) == NOTHING;
  }

  lemma AddressingKeepsAttr(c: seq<Byte>, m: State)
    ensures DispStage(c, SibStage(c, m)).attr == m.attr
  {
  }

  /**
   * The field a rewrite replaces is the 32-bit immediate or displacement,
   * inside the instruction; for a mistaken instruction it begins at its end.
   */
  lemma FieldPositions(t: Tables, c: seq<Byte>)
    requires WellFormed(t) && Whole(FullDecode(t, c, true))
    ensures var s := FullDecode(t, c, true);
      && (Mistaken(s) ==> OffsetImm(s) == s.next)
      && (IsCallJmp(s) && !Mistaken(s) ==> OffsetImm(s) == Cursor(t, c, true, DISP) && OffsetImm(s) + 4 == s.next)
      && (RipRelative(s) && !IsCallJmp(s)
          ==> OffsetDisp(s) == Cursor(t, c, true, SIB) && OffsetDisp(s) + 4 == Cursor(t, c, true, DISP) <= s.next)
  {
    var s := FullDecode(t, c, true);
    WholeIsShort(t, c);
    if Mistaken(s) {
      OffsetIsCursor(t, c, true, IMM);
      MistakenImmediate(t, c);
    } else if IsCallJmp(s) {
      OffsetIsCursor(t, c, true, IMM);
      CallJmpShape(t, c);
      ChainUnfold(t, c, true, IMM);
      ImmNext(c, Chain(t, c, true, DISP));
      ExtentIsImm(t, c, true);
    } else if RipRelative(s) {
      OffsetIsCursor(t, c, true, DISP);
      RipShape(t, c);
      ChainUnfold(t, c, true, DISP);
      DispNext(c, Chain(t, c, true, SIB));
      ChainForward(t, c, true, DISP, LENGTH);
    }
  }

  /** The rewritten field lies inside the instruction, or begins at the end of a mistaken one. */
  predicate FieldPlaced(s: State) {
    && (Mistaken(s) ==> OffsetImm(s) == s.next && s.imm1.value == 0)
    && (IsCallJmp(s) && !Mistaken(s) ==> OffsetImm(s) + 4 <= s.next)
    && (RipRelative(s) && !IsCallJmp(s) ==> OffsetDisp(s) + 4 <= s.next)
  }

  /** What any decoded instruction guarantees about the bytes its copy writes. */
  predicate Tame(s: State) {
    s.length < 256 && OffsetImm(s) <= 267 && (Whole(s) ==> s.length > 0 && FieldPlaced(s))
  }

  lemma DecodeTame(t: Tables, c: seq<Byte>)
    requires WellFormed(t)
    ensures Tame(FullDecode(t, c, true))
  {
    var s := FullDecode(t, c, true);
    LengthTruncated(t, c, true);
    OffsetBound(t, c);
    if Whole(s) {
      WholeIsShort(t, c);
      FieldPositions(t, c);
      if Mistaken(s) {
        MistakenImmediate(t, c);
      }
    }
  }

  /** Offsets never exceed 255 prefix bytes plus the 12 bytes that can follow. */
  lemma OffsetBound(t: Tables, c: seq<Byte>)
    requires WellFormed(t)
    ensures OffsetImm(FullDecode(t, c, true)) <= 267
  {
    var s := FullDecode(t, c, true);
    FieldsShort(t, c, true);
    OffsetIsSum(s, IMM);
    EncodingUnfold(s, IMM);
    DecodeReencode(t, c, true);
    InstructionLength(t, c, true);
  }

  // ---- The rewritten bytes decode to the rewritten instruction ----

  lemma LastStages(t: Tables, c: seq<Byte>)
    requires WellFormed(t)
    ensures FullDecode(t, c, true) == LengthStage(ImmStage(c, Chain(t, c, true, DISP)))
    ensures Chain(t, c, true, DISP) == DispStage(c, Chain(t, c, true, SIB))
  {
    ChainUnfold(t, c, true, LENGTH);
    ChainUnfold(t, c, true, IMM);
    ChainUnfold(t, c, true, DISP);
  }

  lemma ImmRewrite(c: seq<Byte>, d: seq<Byte>, s: State, word: int)
    requires 0 <= word < TWO32 && Slice(d, s.next, 4) == LE(word, 4)
    requires ImmPlan(s) == Plan(4, 0, false, false) && !TrailingByte(s.attr)
    ensures ImmStage(d, s) == ImmStage(c, s).(imm1 := ImmStage(c, s).imm1.(value := AsSigned32(word)))
  {
    ReadBackWord(d, s.next, word);
  }

  lemma DispRewrite(c: seq<Byte>, d: seq<Byte>, s: State, word: int)
    requires 0 <= word < TWO32 && Slice(d, s.next, 4) == LE(word, 4)
    requires DispSize(s) == 4
    ensures DispStage(d, s) == DispStage(c, s).(disp := DispStage(c, s).disp.(value := AsSigned32(word)))
  {
    ReadBackWord(d, s.next, word);
  }

  /** The immediates do not depend on the displacement. */
  lemma ImmBlind(c: seq<Byte>, s: State, v: ValueField)
    ensures ImmStage(c, s.(disp := v)) == ImmStage(c, s).(disp := v)
  {
    ApplyBlind(c, s, ImmPlan(s), v);
    PlanBlind(s, v);
    TrailingBlind(c, s, Apply(c, s, ImmPlan(s)), v);
  }

  lemma PlanBlind(s: State, v: ValueField)
    ensures ImmPlan(s.(disp := v)) == ImmPlan(s)
  {
  }

  lemma TrailingBlind(c: seq<Byte>, s: State, s1: State, v: ValueField)
    ensures TakeImm2(s1.(disp := v), S8(At(c, s1.next)), 1) == TakeImm2(s1, S8(At(c, s1.next)), 1).(disp := v)
  {
  }

  lemma ApplyBlind(c: seq<Byte>, s: State, p: Plan, v: ValueField)
    ensures Apply(c, s.(disp := v), p) == Apply(c, s, p).(disp := v)
  {
    var s1 := if p.n1 == 0 then s else TakeImm1(c, s, p.n1);
    TakeBlind(c, s, p.n1, 0, 0, v);
    TakeBlind(c, s1, 0, SecondAt(c, s1.next, p), p.n2, v);
  }

  lemma TakeBlind(c: seq<Byte>, s: State, n1: nat, value: int, n2: nat, v: ValueField)
    ensures TakeImm1(c, s.(disp := v), n1) == TakeImm1(c, s, n1).(disp := v)
    ensures TakeImm2(s.(disp := v), value, n2) == TakeImm2(s, value, n2).(disp := v)
    ensures GotBoth(s.(disp := v)) == GotBoth(s).(disp := v)
  {
  }

  lemma CallJmpRewrite(t: Tables, c: seq<Byte>, d: seq<Byte>, x: Fix)
    requires WellFormed(t) && x.Fix? && 0 <= x.word < TWO32
    requires var s := FullDecode(t, c, true); IsCallJmp(s) && !IsAvx(s) && x.pos == Cursor(t, c, true, DISP) && Carries(c, d, s.next, x)
    ensures FullDecode(t, d, true) == Rewritten(FullDecode(t, c, true), x)
  {
    ChainDispLocal(t, c, d, true, DISP);
    LastStages(t, c);
    LastStages(t, d);
    CallJmpShape(t, c);
    ImmRewrite(c, d, Chain(t, c, true, DISP), x.word);
  }

  lemma RipRewrite(t: Tables, c: seq<Byte>, d: seq<Byte>, x: Fix)
    requires WellFormed(t) && x.Fix? && 0 <= x.word < TWO32
    requires var s := FullDecode(t, c, true);
      && !IsCallJmp(s) && RipRelative(s) && x.pos == Cursor(t, c, true, SIB) && Carries(c, d, s.next, x)
    ensures FullDecode(t, d, true) == Rewritten(FullDecode(t, c, true), x)
  {
    var s4, s5 := Chain(t, c, true, SIB), Chain(t, c, true, DISP);
    SibLocal(t, c, d, true, SIB);
    LastStages(t, c);
    LastStages(t, d);
    RipShape(t, c);
    DispRewrite(c, d, s4, x.word);
    var v := s5.disp.(value := AsSigned32(x.word));
    var s5' := s5.(disp := v);
    DispNext(c, s4);
    ImmBlind(c, s5, v);
    ImmLocal(c, d, s5');
    FinalDisp(t, c);
  }

  lemma FinalDisp(t: Tables, c: seq<Byte>)
    requires WellFormed(t)
    ensures FullDecode(t, c, true).disp == Chain(t, c, true, DISP).disp
  {
    ChainFrame(t, c, true, DISP, DISP, LENGTH);
  }

  /** Whatever carries the rewritten bytes decodes to the same instruction with the new offset. */
  lemma RewriteDecodes(t: Tables, c: seq<Byte>, d: seq<Byte>, src: int, dest: int, f: Func)
    requires WellFormed(t) && Whole(FullDecode(t, c, true))
    requires var s := FullDecode(t, c, true); Carries(c, d, s.next, InnerFix(s, FixOf(s, src, dest, f)))
    ensures var s := FullDecode(t, c, true);
      FullDecode(t, d, true) == Rewritten(s, InnerFix(s, FixOf(s, src, dest, f)))
  {
    var s := FullDecode(t, c, true);
    var x := InnerFix(s, FixOf(s, src, dest, f));
    WholeIsShort(t, c);
    if x.NoFix? {
      DecodeLocal(t, c, d, true);
    } else {
      FieldPositions(t, c);
      if IsCallJmp(s) {
        CallJmpRewrite(t, c, d, x);
      } else {
        RipRewrite(t, c, d, x);
      }
    }
  }

  // ---- Meaning ----

  /** The copy of a CALL or JMP is not RIP-relative, so its operand is its immediate. */
  lemma CallJmpOperand(t: Tables, c: seq<Byte>)
    requires WellFormed(t)
    requires var s := FullDecode(t, c, true); IsCallJmp(s) && !IsAvx(s)
    ensures !RipRelative(FullDecode(t, c, true))
  {
    CallJmpShape(t, c);
    ChainFrame(t, c, true, MODRM, DISP, LENGTH);
  }

  /** The moved instruction refers to what it should. */
  predicate OperandCorrect(s: State, r: State, src: int, dest: int, f: Func)
    requires PcOperand(s).Relative?
  {
    PcOperand(r).Relative? && Target(r, dest) == Intended(Target(s, src), src, dest, f)
  }

  /** The target is inside, or the operand is one that gets rewritten and the target is within reach of the copy. */
  predicate OperandReachable(s: State, src: int, dest: int, f: Func)
    requires PcOperand(s).Relative?
  {
    f.Contains(Target(s, src)) || (Fixable(s) && InReach(dest, s.length, Target(s, src)))
  }

  /**
   * An instruction moved from src to dest refers to what it should (the same
   * address if that lies outside the function, the moved address if inside)
   * exactly when its target is inside, or its operand is one that gets
   * rewritten and the target is within reach of the copy.
   */
  lemma OperandRelocated(s: State, src: int, dest: int, f: Func)
    requires (dest - src) % TWO64 != 0 && PcOperand(s).Relative?
    requires IsCallJmp(s) && !IsAvx(s) ==> !RipRelative(s)
    ensures var r := Rewritten(s, InnerFix(s, FixOf(s, src, dest, f)));
      PcOperand(r).Relative? && (OperandCorrect(s, r, src, dest, f) <==> OperandReachable(s, src, dest, f))
  {
    var target := Target(s, src);
    if InnerFix(s, FixOf(s, src, dest, f)).Fix? {
      OffsetLeadsBack(dest, s.length, target);
    } else {
      TargetShifts(src, dest, s.length, PcOperand(s).offset);
      ShiftMoves(target, dest - src);
    }
  }
}
