/**
 * Concrete instructions: the jump that a hook writes over a function's entry,
 * a VEX instruction that the relocator takes for a CALL, and functions whose
 * copies are written past the memory allocated for them.
 */
module EncodedExamples {
  import opened Bytes
  import opened Inat
  import opened InatTables
  import opened Decode
  import opened Locality
  import opened Relocation
  import opened CopyLoop
  import opened Relocated
  import opened SymbolHook

  /** Without prefixes the prefix stage only marks its fields. */
  lemma NoPrefixes(t: Tables, c: seq<Byte>)
    requires t.primary[0].pfx == 0 && t.primary[At(c, 0)].pfx == 0
    ensures PrefixStage(t, c, Init(true))
         == Init(true).(prefixes := ByteField(ZERO_QUAD, true, 0), rex := ValueField(0, true, 0), vex := ByteField(ZERO_QUAD, true, 0))
  {
    assert ScanTurn(t, c, true, ScanInit(4, 8)).Stop?;
  }

  lemma JumpOpcode(t: Tables, c: seq<Byte>, s: State)
    requires WellFormed(t) && At(c, 0) == OP_JMP && s.next == 0 && s.vex.bytes == ZERO_QUAD && s.x64
    requires s.modrm == NO_VALUE && s.sib == NO_VALUE && s.disp == NO_VALUE && s.opcode.bytes == ZERO_QUAD
    ensures var o := OpcodeStage(t, c, s);
      var d := DispStage(c, SibStage(c, ModrmStage(t, c, o)));
      && d.opcode.bytes[0] == OP_JMP && d.next == 1 && d.attr == t.primary[OP_JMP] && d.opnd == 8
      && d.modrm.nbytes == 0 && d.vex == s.vex
  {
    var o := OpcodeStage(t, c, s);
    assert o.attr == t.primary[OP_JMP] && o.next == 1 && o.modrm == NO_VALUE;
    PlainModrm(t, c, o);
    NoAddressing(c, ModrmStage(t, c, o));
  }

  lemma JumpImmediate(t: Tables, c: seq<Byte>, d: State, word: int)
    requires WellFormed(t) && d.attr == t.primary[OP_JMP] && d.opnd == 8 && d.next == 1
    requires 0 <= word < TWO32 && Slice(c, 1, 4) == LE(word, 4)
    ensures var s := LengthStage(ImmStage(c, d));
      s == d.(imm1 := ValueField(AsSigned32(word), true, 4), length := 5, next := 5)
  {
    ReadBackWord(c, 1, word);
    assert ImmPlan(d) == Plan(4, 0, false, false);
  }

  /** E9 and a 32-bit word decode to a jump of five bytes by that offset. */
  lemma JumpDecodes(t: Tables, c: seq<Byte>, word: int)
    requires WellFormed(t) && At(c, 0) == OP_JMP && 0 <= word < TWO32 && Slice(c, 1, 4) == LE(word, 4)
    ensures var s := FullDecode(t, c, true);
      s.length == s.next == 5 && IsCallJmp(s) && !IsAvx(s) && PcOperand(s) == Relative(AsSigned32(word))
  {
    var p := Chain(t, c, true, PREFIXES);
    ChainUnfold(t, c, true, PREFIXES);
    ChainUnfold(t, c, true, OPCODE);
    ChainUnfold(t, c, true, MODRM);
    ChainUnfold(t, c, true, SIB);
    LastStages(t, c);
    NoPrefixes(t, c);
    JumpOpcode(t, c, p);
    JumpImmediate(t, c, Chain(t, c, true, DISP), word);
  }

  /** The patched entry is a jump to the hook exactly when the hook is within reach of it. */
  lemma EntryJumpsToHook(t: Tables, text: seq<Byte>, addr: nat, code: nat)
    requires WellFormed(t) && |text| >= OP_JMP_SIZE && code < TWO64
    ensures var s := FullDecode(t, Entry(text, addr, code), true);
      && IsCallJmp(s) && s.length == OP_JMP_SIZE && PcOperand(s).Relative?
      && (Target(s, addr) == code <==> InReach(addr, OP_JMP_SIZE, code))
  {
    var c, word := Entry(text, addr, code), CodeOffset(addr, OP_JMP_SIZE, code);
    forall i: nat | i < 4
      ensures Slice(c, 1, 4)[i] == LE(word, 4)[i]
    {
      assert At(c, 1 + i) == c[1 + i];
    }
    JumpDecodes(t, c, word);
    OffsetLeadsBack(addr, OP_JMP_SIZE, code);
  }

  // ---- A VEX instruction that looks like a CALL ----

  /** vpsubsb xmm0, xmm0, [rip + 0x1000] */
  const VPSUBSB: seq<Byte> := [0xc5, 0xf9, 0xe8, 0x05, 0x00, 0x10, 0x00, 0x00]

  lemma VexTables()
    ensures TABLES.primary[0xc5] == NIL.(pfx := PFX_VEX2, modrm := true)
    ensures AvxAttribute(TABLES, 0xe8, 1, 1) == NIL.(modrm := true, vexOk := true)
  {
    assert TABLES.primary[0xc5] == PrimaryEntry(0xc5);
    assert AVX_TABLES[(1, 1)] == Opcodes(Escape1Variant1Entry);
    assert AVX_TABLES[(1, 1)][0xe8] == Escape1Variant1Entry(0xe8);
  }

  lemma VexPrefixStage(t: Tables, c: seq<Byte>)
    requires t.primary[0].pfx == 0 && t.primary[0xc5] == NIL.(pfx := PFX_VEX2, modrm := true)
    requires At(c, 0) == 0xc5 && At(c, 1) == 0xf9
    ensures PrefixStage(t, c, Init(true))
         == Init(true).(prefixes := ByteField(ZERO_QUAD, true, 0), rex := ValueField(0, true, 0),
                        vex := ByteField([0xc5, 0xf9, 0, 0], true, 2), next := 2)
  {
    assert ScanTurn(t, c, true, ScanInit(4, 8)).Stop?;
  }

  lemma VexOpcodeStage(t: Tables, c: seq<Byte>, p: State)
    requires EscapesRanked(t) && AvxAttribute(t, 0xe8, 1, 1) == NIL.(modrm := true, vexOk := true)
    requires p == Init(true).(prefixes := ByteField(ZERO_QUAD, true, 0), rex := ValueField(0, true, 0),
                              vex := ByteField([0xc5, 0xf9, 0, 0], true, 2), next := 2)
    requires At(c, 2) == 0xe8
    ensures OpcodeStage(t, c, p)
         == p.(opcode := ByteField([0xe8, 0, 0, 0], true, 1), next := 3, attr := NIL.(modrm := true, vexOk := true))
  {
    assert p.opcode.bytes[0 := 0xe8] == [0xe8, 0, 0, 0];
  }

  lemma VexOperand(t: Tables, c: seq<Byte>, o: State)
    requires o.attr == NIL.(modrm := true, vexOk := true) && o.next == 3 && o.addr == 8 && o.x64
    requires o.modrm == NO_VALUE && o.sib == NO_VALUE && o.disp == NO_VALUE && o.imm1 == NO_VALUE && o.imm2 == NO_VALUE
    requires At(c, 3) == 0x05 && S32(c, 4) == 0x1000
    ensures var d := DispStage(c, SibStage(c, ModrmStage(t, c, o)));
      d == o.(modrm := ValueField(5, true, 1), sib := ValueField(0, true, 0), disp := ValueField(0x1000, true, 4), next := 8)
  {
    var m := ModrmStage(t, c, o);
    assert m == o.(modrm := ValueField(5, true, 1), next := 4);
    var b := SibStage(c, m);
    assert b == m.(sib := ValueField(0, true, 0));
    assert DispSize(b) == 4;
  }

  predicate LikeCall(s: State) {
    && s.length == s.next == 8 && IsAvx(s) && IsCallJmp(s) && PcOperand(s) == Relative(0x1000)
    && s.imm1.value == 0 && OffsetImm(s) == 8
  }

  lemma VexDecodesIn(t: Tables, c: seq<Byte>)
    requires WellFormed(t) && t.primary[0xc5] == NIL.(pfx := PFX_VEX2, modrm := true)
    requires AvxAttribute(t, 0xe8, 1, 1) == NIL.(modrm := true, vexOk := true)
    requires At(c, 0) == 0xc5 && At(c, 1) == 0xf9 && At(c, 2) == 0xe8 && At(c, 3) == 0x05 && S32(c, 4) == 0x1000
    ensures LikeCall(FullDecode(t, c, true))
  {
    ChainUnfold(t, c, true, PREFIXES);
    ChainUnfold(t, c, true, OPCODE);
    ChainUnfold(t, c, true, MODRM);
    ChainUnfold(t, c, true, SIB);
    LastStages(t, c);
    VexPrefixStage(t, c);
    VexOpcodeStage(t, c, Chain(t, c, true, PREFIXES));
    VexOperand(t, c, Chain(t, c, true, OPCODE));
  }

  /** It decodes to eight bytes with a RIP-relative operand and no immediate. */
  lemma VexDecodes()
    ensures WellFormed(TABLES)
    ensures LikeCall(FullDecode(TABLES, VPSUBSB, true))
  {
    TablesWellFormed();
    VexTables();
    VexDecodesIn(TABLES, VPSUBSB);
  }

  /**
   * A RIP-relative operand of such an instruction is right in the copy exactly
   * when its target is inside the function: it is never rewritten.
   */
  lemma VexOperandLost(t: Tables, v: Move, m: seq<Byte>, end: nat, b: nat)
    requires WellFormed(t) && v.base + end + SLACK <= |m| && WholeFunction(t, v, end) && Boundary(t, v, b) && b < end
    requires var s := DecodeAt(t, v.text, b); Mistaken(s) && RipRelative(s)
    requires (v.newAddr - v.f.addr) % TWO64 != 0
    ensures var s, r := DecodeAt(t, v.text, b), DecodeAt(t, Copy(t, v, m, end).m, v.base + b);
      OperandCorrect(s, r, v.Src(b), v.Dest(b), v.f) <==> v.f.Contains(Target(s, v.Src(b)))
  {
    RelocationPreservesMeaning(t, v, m, end, b);
  }

  /** Where trailing zeros begin is where they are trimmed. */
  lemma TrimmedTo(text: seq<Byte>, size: nat, end: nat)
    requires end <= size <= |text| && (end > 0 ==> text[end - 1] != 0) && forall i :: end <= i < size ==> text[i] == 0
    ensures TrimEnd(text, size) == end
  {
    var r := TrimEnd(text, size);
    assert r > 0 ==> text[r - 1] != 0;
    assert end > 0 ==> text[end - 1] != 0;
  }

  /** A walk of one step, and what it writes. */
  lemma OneStep(j: Job, m: seq<Byte>, end: nat)
    requires j.Valid() && j.base + end + SLACK <= |m| && 0 < end <= j.piece(0).length && j.piece(0).whole
    ensures AllWhole(j.piece, 0, end) && Reaches(j.piece, 0, 0) && Reaches(j.piece, 0, j.piece(0).length)
    ensures j.SaneAt(0) && CopyFrom(j, m, 0, end) == Copied(CopyInsn(j, m, 0), j.piece(0).length)
    ensures WriteExtent(j.piece, 0, end) == j.piece(0).Reach()
  {
    var n := j.piece(0).length;
    CopyUnfold(j, m, 0, end);
    assert CopyFrom(j, CopyInsn(j, m, 0), n, end) == Copied(CopyInsn(j, m, 0), n);
    assert WriteExtent(j.piece, n, end) == n;
    assert AllWhole(j.piece, n, end) && Reaches(j.piece, n, n);
  }

  /** A walk of two steps: where its boundaries are, and what it writes. */
  lemma TwoSteps(j: Job, m: seq<Byte>, end: nat, n: nat)
    requires j.Valid() && j.base + end + SLACK <= |m| && n == j.piece(0).length && n < end <= n + j.piece(n).length
    requires j.piece(0).whole && j.piece(n).whole && j.piece(0).Reach() == n
    ensures AllWhole(j.piece, 0, end)
    ensures forall b: nat :: Reaches(j.piece, 0, b) && b >= end ==> b >= n + j.piece(n).length
    ensures j.SaneAt(0) && j.SaneAt(n)
    ensures CopyFrom(j, m, 0, end) == Copied(CopyInsn(j, CopyInsn(j, m, 0), n), n + j.piece(n).length)
    ensures WriteExtent(j.piece, 0, end) == n + j.piece(n).Reach()
  {
    assert j.SaneAt(0);
    var m1, stop := CopyInsn(j, m, 0), n + j.piece(n).length;
    CopyUnfold(j, m, 0, end);
    CopyUnfold(j, m1, n, end);
    assert CopyFrom(j, CopyInsn(j, m1, n), stop, end) == Copied(CopyInsn(j, m1, n), stop);
    assert WriteExtent(j.piece, stop, end) == stop;
    assert WriteExtent(j.piece, n, end) == n + j.piece(n).Reach();
    assert AllWhole(j.piece, stop, end) && AllWhole(j.piece, n, end);
    forall b: nat | Reaches(j.piece, 0, b) && b >= end
      ensures b >= stop
    {
      assert Reaches(j.piece, n, b);
      assert Reaches(j.piece, stop, b);
    }
  }

  /** A function of 0x100 bytes, zeros but for it. */
  const PADDED: seq<Byte> := VPSUBSB + seq<Byte>(0xf8, _ => 0)

  lemma PaddedDecodes()
    ensures WellFormed(TABLES) && LikeCall(FullDecode(TABLES, PADDED, true))
  {
    TablesWellFormed();
    VexTables();
    VexDecodesIn(TABLES, PADDED);
  }

  /** Moved by 0x10000, its operand at 0x2008 becomes 0x12008. */
  lemma VexCounterexample(m: seq<Byte>)
    requires |m| >= 0x100 + SLACK
    ensures WellFormed(TABLES) && TrimEnd(PADDED, 0x100) == 6
    ensures var v := Move(PADDED, Func(0x1000, 0x100), 0x11000, 0);
      var s, r := DecodeAt(TABLES, PADDED, 0), DecodeAt(TABLES, Copy(TABLES, v, m, 6).m, 0);
      && PcOperand(s).Relative? && Target(s, 0x1000) == 0x2008 && !v.f.Contains(0x2008)
      && PcOperand(r).Relative? && Target(r, 0x11000) == 0x12008
  {
    PaddedDecodes();
    TrimmedTo(PADDED, 0x100, 6);
    var v := Move(PADDED, Func(0x1000, 0x100), 0x11000, 0);
    assert From(PADDED, 0) == PADDED;
    JobValid(TABLES, v);
    OneStep(JobOf(TABLES, v), m, 6);
    CopyDecodes(TABLES, v, m, 6, 0);
  }

  // ---- Copies that are written past their memory ----

  lemma HighBytes(low: Byte, high: Byte)
    ensures LE(0xffff_0000 + 0x100 * high + low, 4) == [low, high, 0xff, 0xff]
  {
    LE4Digits(0xffff_0000 + 0x100 * high + low, 0, low, high, 0xff, 0xff);
  }

  /** The last byte of a rewrite. */
  lemma RewrittenByte(m: seq<Byte>, at: nat, raw: seq<Byte>, x: Fix, i: nat)
    requires at + |raw| <= |m| && x.Fix? && 0 <= x.pos && at + x.pos + 4 <= |m| && i < 4
    ensures StoreFixed(m, at, raw, x)[at + x.pos + i] == LE(x.word, 4)[i]
  {
  }

  /** A function that consists of it: a boundary at its size, and yet four bytes are written behind the copy. */
  lemma VexWritesPast(m: seq<Byte>, base: nat)
    requires base + 8 + SLACK <= |m|
    ensures WellFormed(TABLES) && TrimEnd(VPSUBSB, 8) == 6
    ensures var v := Move(VPSUBSB, Func(0x1000, 8), 0x11000, base);
      var r := Copy(TABLES, v, m, 6);
      && Boundary(TABLES, v, 8) && MistakenAtEnd(TABLES, v, 6)
      && r.Copied? && r.stop == 8 && CopyExtent(TABLES, v, 6) == 12 && r.m[base + 10] == 0xff
  {
    VexDecodes();
    TrimmedTo(VPSUBSB, 8, 6);
    var v := Move(VPSUBSB, Func(0x1000, 8), 0x11000, base);
    assert From(VPSUBSB, 0) == VPSUBSB;
    var s := DecodeAt(TABLES, VPSUBSB, 0);
    assert FixOf(s, 0x1000, 0x11000, v.f) == Fix(8, 0xffff_0000);
    JobValid(TABLES, v);
    var j := JobOf(TABLES, v);
    assert j.piece(0) == Piece(8, true, Fix(8, 0xffff_0000));
    OneStep(j, m, 6);
    HighBytes(0, 0);
    RewrittenByte(m, base, Slice(VPSUBSB, 0, 8), Fix(8, 0xffff_0000), 2);
    assert Boundary(TABLES, v, 0) && Boundary(TABLES, v, 8) && MistakenEnds(v, s, 0);
  }

  lemma NopStages(t: Tables, c: seq<Byte>, s: State)
    requires WellFormed(t) && t.primary[0x90] == NIL && At(c, s.next) == 0x90 && s.vex.bytes == ZERO_QUAD
    requires s.modrm == NO_VALUE && s.sib == NO_VALUE && s.disp == NO_VALUE && s.opcode.bytes == ZERO_QUAD
    ensures var o := OpcodeStage(t, c, s);
      var d := DispStage(c, SibStage(c, ModrmStage(t, c, o)));
      && d.opcode.bytes[0] == 0x90 && d.next == s.next + 1 && d.attr == NIL && d.modrm.value == 0 && d.vex == s.vex
  {
    var o := OpcodeStage(t, c, s);
    assert o.attr == NIL && o.next == s.next + 1 && o.modrm == NO_VALUE && o.opcode.bytes[0] == 0x90;
    NoAddressing(c, ModrmStage(t, c, o));
  }

  /** 0x90 decodes to an instruction of one byte without an operand to rewrite. */
  lemma NopDecodes(t: Tables, c: seq<Byte>)
    requires WellFormed(t) && t.primary[0x90] == NIL && At(c, 0) == 0x90
    ensures var s := FullDecode(t, c, true); s.length == s.next == 1 && !IsCallJmp(s) && !RipRelative(s)
  {
    ChainUnfold(t, c, true, PREFIXES);
    ChainUnfold(t, c, true, OPCODE);
    ChainUnfold(t, c, true, MODRM);
    ChainUnfold(t, c, true, SIB);
    LastStages(t, c);
    NoPrefixes(t, c);
    NopStages(t, c, Chain(t, c, true, PREFIXES));
    NoImmediate(c, Chain(t, c, true, DISP));
  }

  /** jmp with a 32-bit offset */
  const JMP: seq<Byte> := [0xe9, 0x00, 0x10, 0x00, 0x00]

  /** nop and that jump; a size of 5 ends one byte into its offset */
  const CUT: seq<Byte> := [0x90, 0xe9, 0x00, 0x10, 0x00, 0x00]

  lemma JmpDecodes()
    ensures WellFormed(TABLES)
    ensures var s := FullDecode(TABLES, JMP, true);
      && Whole(s) && s.length == 5 && IsCallJmp(s) && !Mistaken(s) && s.imm1.value == 0x1000 && OffsetImm(s) == 1
  {
    TablesWellFormed();
    LE4Digits(0x1000, 0, 0, 0x10, 0, 0);
    assert Slice(JMP, 1, 4) == LE(0x1000, 4);
    JumpDecodes(TABLES, JMP, 0x1000);
    CallJmpOperand(TABLES, JMP);
    FieldPositions(TABLES, JMP);
  }

  lemma NopEntry()
    ensures TABLES.primary[0x90] == NIL
  {
    assert TABLES.primary[0x90] == PrimaryEntry(0x90);
  }

  /** What the loop knows about the two instructions. */
  lemma CutPieces(base: nat)
    ensures WellFormed(TABLES)
    ensures var piece := JobOf(TABLES, Move(CUT, Func(0x1000, 5), 0x11000, base)).piece;
      piece(0) == Piece(1, true, NoFix) && piece(1) == Piece(5, true, Fix(1, 0xffff_1000))
  {
    JmpDecodes();
    NopEntry();
    NopDecodes(TABLES, CUT);
    var f := Func(0x1000, 5);
    assert From(CUT, 0) == CUT && From(CUT, 1) == JMP;
    assert FixOf(FullDecode(TABLES, JMP, true), 0x1001, 0x11001, f) == Fix(1, 0xffff_1000);
  }

  /**
   * A function whose size cuts its last instruction: no boundary between its end
   * and its size, and a byte of the rewritten offset is written behind the copy.
   */
  lemma CutWritesPast(m: seq<Byte>, base: nat)
    requires base + 5 + SLACK <= |m|
    ensures WellFormed(TABLES) && TrimEnd(CUT, 5) == 4
    ensures var v := Move(CUT, Func(0x1000, 5), 0x11000, base);
      var r := Copy(TABLES, v, m, 4);
      && v.text[0] != OP_JMP && v.f.size >= OP_JMP_SIZE
      && WholeFunction(TABLES, v, 4) && (forall b: nat :: Boundary(TABLES, v, b) && b >= 4 ==> b > 5)
      && r.Copied? && r.stop == 6 && CopyExtent(TABLES, v, 4) == 6 && r.m[base + 5] == 0xff
  {
    CutPieces(base);
    TrimmedTo(CUT, 5, 4);
    var v := Move(CUT, Func(0x1000, 5), 0x11000, base);
    JobValid(TABLES, v);
    var j := JobOf(TABLES, v);
    TwoSteps(j, m, 4, 1);
    HighBytes(0, 0x10);
    RewrittenByte(CopyInsn(j, m, 0), base + 1, Slice(From(CUT, 1), 0, 5), Fix(1, 0xffff_1000), 3);
  }

  /** Hooking that function succeeds, and leaves 0xff behind its copy, whatever was there. */
  method HookCut(sym: KernSym, base: nat, code: nat) returns (ret: int)
    requires sym.Valid() && sym.tables == TABLES && sym.addr == 0x1000 && sym.size == 5 && sym.text[..] == CUT
    requires base + 5 + SLACK <= sym.arena.Length
    modifies sym, sym.text, sym.arena
    ensures ret == 0 && sym.arena[base + 5] == 0xff
  {
    CutWritesPast(Store(sym.arena[..], base, Zeros(5)), base);
    ret := sym.Hook(0, 0x11000, base, code);
    assert sym.arena[..][base + 5] == 0xff;
  }

  /** So does hooking the function that is one VEX instruction. */
  method HookVex(sym: KernSym, base: nat, code: nat) returns (ret: int)
    requires sym.Valid() && sym.tables == TABLES && sym.addr == 0x1000 && sym.size == 8 && sym.text[..] == VPSUBSB
    requires base + 8 + SLACK <= sym.arena.Length
    modifies sym, sym.text, sym.arena
    ensures ret == 0 && sym.arena[base + 10] == 0xff
  {
    VexWritesPast(Store(sym.arena[..], base, Zeros(8)), base);
    ret := sym.Hook(0, 0x11000, base, code);
    assert sym.arena[..][base + 10] == 0xff;
  }
}
