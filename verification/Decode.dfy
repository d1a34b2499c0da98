/**
 * Instruction decoding as a staged function: struct insn as a value, and one
 * function per stage (prefixes, opcode, ModRM, SIB, displacement, immediates,
 * length) from the struct before the stage to the struct after it.
 * The class Insn in Insn.dfy is the lazy, in-place decoder proved against it.
 */
module Decode {
  import opened Bytes
  import opened Inat

  /** struct insn_field where the bytes[] half of the union is used. */
  datatype ByteField = ByteField(bytes: Quad, got: bool, nbytes: nat)

  /** struct insn_field where the signed value half of the union is used. */
  datatype ValueField = ValueField(value: int, got: bool, nbytes: nat)

  const NO_BYTES := ByteField(ZERO_QUAD, false, 0)
  const NO_VALUE := ValueField(0, false, 0)

  /**
   * struct insn. imm1 is immediate/immediate1/moffset1, imm2 is
   * immediate2/moffset2; next is next_byte - kaddr.
   */
  datatype State = State(
    prefixes: ByteField, rex: ValueField, vex: ByteField, opcode: ByteField,
    modrm: ValueField, sib: ValueField, disp: ValueField, imm1: ValueField, imm2: ValueField,
    attr: Attr, opnd: bv8, addr: bv8, length: nat, x64: bool, next: nat)

  function Init(x64: bool): State {
    State(NO_BYTES, NO_VALUE, NO_BYTES, NO_BYTES, NO_VALUE, NO_VALUE, NO_VALUE, NO_VALUE, NO_VALUE,
          NIL, 4, if x64 then 8 else 4, 0, x64, 0)
  }

  // ---- Prefixes ----

  /** Where the scan over legacy prefixes stands. */
  datatype Scan = Scan(pos: nat, bytes: Quad, nb: nat, last: Byte, opnd: bv8, addr: bv8)

  function ScanInit(opnd: bv8, addr: bv8): Scan {
    Scan(0, ZERO_QUAD, 0, 0, opnd, addr)
  }

  /** Records a prefix seen for the first time. */
  function Record(t: Tables, x64: bool, k: Scan, b: Byte): Scan
    requires k.nb < 4
  {
    var pfx := t.primary[b].pfx;
    k.(pos := k.pos + 1, bytes := k.bytes[k.nb := b], nb := k.nb + 1, last := b,
       addr := if pfx == PFX_ADDRSZ then k.addr ^ (if x64 then 12 else 6) else k.addr,
       opnd := if pfx == PFX_OPNDSZ then k.opnd ^ 6 else k.opnd)
  }

  /** One turn of the scan, or None when it stops. */
  datatype Turn = Stop | Go(k: Scan)

  function ScanTurn(t: Tables, c: seq<Byte>, x64: bool, k: Scan): (r: Turn)
    requires k.nb <= 4
    ensures r.Go? ==> r.k.nb <= 4 && r.k.pos == k.pos + 1
  {
    var b := At(c, k.pos);
    if !IsLegacyPrefix(t.primary[b]) then Stop
    else if b in k.bytes[..k.nb] then Go(k.(pos := k.pos + 1, last := b))
    else if k.nb == 4 then Stop
    else Go(Record(t, x64, k, b))
  }

  function ScanFrom(t: Tables, c: seq<Byte>, x64: bool, k: Scan): (r: Scan)
    requires t.primary[0].pfx == 0 && k.nb <= 4
    ensures k.nb <= r.nb <= 4 && k.pos <= r.pos
    decreases if k.pos < |c| then |c| - k.pos else 0
  {
    var step := ScanTurn(t, c, x64, k);
    if step.Stop? then k else ScanFrom(t, c, x64, step.k)
  }

  /** Puts the last prefix in bytes[3], swapping it with what was there. */
  function SetLast(q: Quad, nb: nat, last: Byte): Quad
    requires nb <= 4
  {
    if last == 0 || last == q[3] then q
    else if q[3] == 0 then q[3 := last]
    else Replace(q, nb, last, q[3])[3 := last]
  }

  /** The first nb bytes with every old replaced. */
  function Replace(q: Quad, nb: nat, old_: Byte, new_: Byte): (r: Quad)
    requires nb <= 4
    ensures forall i :: 0 <= i < 4 ==> r[i] == if i < nb && q[i] == old_ then new_ else q[i]
  {
    if nb == 0 then q
    else
      var r := Replace(q, nb - 1, old_, new_);
      if r[nb - 1] == old_ then r[nb - 1 := new_] else r
  }

  function LegacyStage(t: Tables, c: seq<Byte>, s: State): (r: State)
    requires t.primary[0].pfx == 0
  {
    var k := ScanFrom(t, c, s.x64, ScanInit(s.opnd, s.addr));
    s.(prefixes := ByteField(SetLast(k.bytes, k.nb, k.last), s.prefixes.got, k.pos % 256),
       opnd := k.opnd, addr := k.addr, next := k.pos)
  }

  function RexStage(t: Tables, c: seq<Byte>, s: State): State {
    var b := At(c, s.next);
    if s.x64 && IsRexPrefix(t.primary[b]) then
      s.(rex := ValueField(b, true, 1), next := s.next + 1, opnd := if b / 8 % 2 == 1 then 8 else s.opnd)
    else s.(rex := s.rex.(got := true))
  }

  /** In 32-bit code a C4/C5 byte is VEX only if the top bits of the next byte are 11. */
  predicate TakesVex(t: Tables, c: seq<Byte>, s: State) {
    IsVexPrefix(t.primary[At(c, s.next)]) && (s.x64 || At(c, s.next + 1) / 64 == 3)
  }

  function VexStage(t: Tables, c: seq<Byte>, s: State): State {
    var b, b1, b2 := At(c, s.next), At(c, s.next + 1), At(c, s.next + 2);
    if !TakesVex(t, c, s) then s.(vex := s.vex.(got := true), prefixes := s.prefixes.(got := true))
    else if t.primary[b].pfx == PFX_VEX3 then
      s.(vex := ByteField([b, b1, b2, 0], true, 3), prefixes := s.prefixes.(got := true),
         next := s.next + 3, opnd := if s.x64 && b2 >= 0x80 then 8 else s.opnd)
    else
      s.(vex := ByteField([b, b1, 0, 0], true, 2), prefixes := s.prefixes.(got := true), next := s.next + 2)
  }

  function PrefixStage(t: Tables, c: seq<Byte>, s: State): State
    requires t.primary[0].pfx == 0
  {
    VexStage(t, c, RexStage(t, c, LegacyStage(t, c, s)))
  }

  // ---- Opcode ----

  function LastPrefix(s: State): Byte {
    s.prefixes.bytes[3]
  }

  predicate IsAvx(s: State) {
    s.vex.bytes != ZERO_QUAD
  }

  function VexM(s: State): int {
    if s.vex.nbytes == 2 then 1 else s.vex.bytes[1] % 32
  }

  function VexP(s: State): int {
    if s.vex.nbytes == 2 then s.vex.bytes[1] % 4 else s.vex.bytes[2] % 4
  }

  /** Reads the next byte of an escaped opcode. */
  function EscapeStep(t: Tables, c: seq<Byte>, s: State): (r: State)
    requires EscapesRanked(t) && s.attr.esc != 0
    requires s.opcode.nbytes + EscRank(s.attr.esc) <= 3
    ensures EscRank(r.attr.esc) < EscRank(s.attr.esc)
    ensures r.opcode.nbytes == s.opcode.nbytes + 1 && r.next == s.next + 1
  {
    var op := At(c, s.next);
    EscapeRankDrops(t, op, LastPrefix(s), s.attr);
    s.(attr := EscapeAttribute(t, op, LastPrefix(s), s.attr), next := s.next + 1,
       opcode := s.opcode.(bytes := s.opcode.bytes[s.opcode.nbytes := op], nbytes := s.opcode.nbytes + 1))
  }

  /** Follows escapes from the state that has just read an opcode byte. */
  function Escapes(t: Tables, c: seq<Byte>, s: State): (r: State)
    requires EscapesRanked(t)
    requires s.opcode.nbytes + EscRank(s.attr.esc) <= 3
    ensures r.attr.esc == 0 && s.opcode.nbytes <= r.opcode.nbytes <= 3
    ensures r.next - s.next == r.opcode.nbytes - s.opcode.nbytes
    decreases EscRank(s.attr.esc)
  {
    if s.attr.esc == 0 then s else Escapes(t, c, EscapeStep(t, c, s))
  }

  function FirstOpcode(c: seq<Byte>, s: State): State {
    s.(opcode := ByteField(s.opcode.bytes[0 := At(c, s.next)], s.opcode.got, 1), next := s.next + 1)
  }

  function OpcodeStage(t: Tables, c: seq<Byte>, s: State): State
    requires EscapesRanked(t)
  {
    var op := At(c, s.next);
    var s1 := FirstOpcode(c, s);
    var s2 :=
      if IsAvx(s) then
        var a := AvxAttribute(t, op, VexM(s), VexP(s));
        s1.(attr := if a.vexOk then a else NIL)
      else
        var r := Escapes(t, c, s1.(attr := t.primary[op]));
        if r.attr.vexOnly then r.(attr := NIL) else r;
    s2.(opcode := s2.opcode.(got := true))
  }

  // ---- ModRM, SIB, displacement ----

  function ModrmStage(t: Tables, c: seq<Byte>, s: State): State {
    var b := At(c, s.next);
    var s1 :=
      if !s.attr.modrm then s
      else s.(modrm := ValueField(b, s.modrm.got, 1), next := s.next + 1,
              attr := if s.attr.grp != 0 then GroupAttribute(t, b, LastPrefix(s), s.attr) else s.attr);
    s1.(modrm := s1.modrm.(got := true), opnd := if s1.x64 && s1.attr.force64 then 8 else s1.opnd)
  }

  function Mod(modrm: int): int { modrm / 64 % 4 }
  function Rm(modrm: int): int { modrm % 8 }

  /** mod 0 and r/m 5: RIP-relative addressing in 64-bit code. */
  predicate RipRelative(s: State) {
    s.modrm.nbytes != 0 && Mod(s.modrm.value) == 0 && Rm(s.modrm.value) == 5
  }

  predicate HasSib(s: State) {
    s.modrm.nbytes != 0 && s.addr != 2 && Mod(s.modrm.value) != 3 && Rm(s.modrm.value) == 4
  }

  function SibStage(c: seq<Byte>, s: State): State {
    if HasSib(s) then s.(sib := ValueField(At(c, s.next), true, 1), next := s.next + 1)
    else s.(sib := s.sib.(got := true))
  }

  /** How many displacement bytes the ModRM and SIB bytes call for. */
  function DispSize(s: State): (n: nat)
    ensures n <= 4
  {
    var mod, rm, base := Mod(s.modrm.value), Rm(s.modrm.value), s.sib.value % 8;
    if s.modrm.nbytes == 0 || mod == 3 then 0
    else if mod == 1 then 1
    else if s.addr == 2 then (if (mod == 0 && rm == 6) || mod == 2 then 2 else 0)
    else if (mod == 0 && rm == 5) || mod == 2 || (mod == 0 && base == 5) then 4
    else 0
  }

  /** The signed little-endian value of n bytes. */
  function SignedAt(c: seq<Byte>, i: nat, n: nat): int {
    if n == 1 then S8(At(c, i)) else if n == 2 then S16(c, i) else S32(c, i)
  }

  function DispStage(c: seq<Byte>, s: State): State {
    var n := DispSize(s);
    if n == 0 then s.(disp := s.disp.(got := true))
    else s.(disp := ValueField(SignedAt(c, s.next, n), true, n), next := s.next + n)
  }

  // ---- Immediates ----

  /**
   * What an immediate class reads: n1 signed bytes into immediate1, then n2
   * bytes into immediate2 (unsigned for a segment). both tells whether the
   * reader marks both fields got.
   */
  datatype Plan = Plan(n1: nat, n2: nat, segment: bool, both: bool) {
    predicate Sane() {
      n1 in {0, 1, 2, 4} && n2 in {0, 2, 4} && (segment ==> n2 == 2) && (!segment ==> n2 != 2)
    }
  }

  const NOTHING := Plan(0, 0, false, false)

  /** moffset16/32/64 */
  function MoffsetPlan(addr: bv8): Plan {
    Plan(if addr == 2 then 2 else if addr == 4 || addr == 8 then 4 else 0, if addr == 8 then 4 else 0, false, true)
  }

  /** Iz */
  function V32Plan(opnd: bv8): Plan {
    Plan(if opnd == 2 then 2 else if opnd == 4 || opnd == 8 then 4 else 0, 0, false, false)
  }

  /** Iv: a 64-bit immediate is two signed halves. */
  function VPlan(opnd: bv8): Plan {
    Plan(if opnd == 2 then 2 else if opnd == 4 || opnd == 8 then 4 else 0, if opnd == 8 then 4 else 0, false, true)
  }

  /** Ap: ptr16:16 or ptr16:32; there is no ptr16:64. */
  function PtrPlan(opnd: bv8): Plan {
    if opnd == 8 then NOTHING else Plan(if opnd == 2 then 2 else if opnd == 4 then 4 else 0, 2, true, true)
  }

  function FirstPlan(imm: bv3, opnd: bv8): (p: Plan)
    ensures p.Sane()
  {
    if imm == IMM_BYTE then Plan(1, 0, false, false)
    else if imm == IMM_WORD then Plan(2, 0, false, false)
    else if imm == IMM_DWORD then Plan(4, 0, false, false)
    else if imm == IMM_QWORD then Plan(4, 4, false, false)
    else if imm == IMM_PTR then PtrPlan(opnd)
    else if imm == IMM_VWORD32 then V32Plan(opnd)
    else VPlan(opnd)
  }

  function TakeImm1(c: seq<Byte>, s: State, n: nat): State {
    s.(imm1 := ValueField(SignedAt(c, s.next, n), s.imm1.got, n), next := s.next + n)
  }

  function TakeImm2(s: State, value: int, n: nat): State {
    s.(imm2 := ValueField(value, s.imm2.got, n), next := s.next + n)
  }

  function GotBoth(s: State): State {
    s.(imm1 := s.imm1.(got := true), imm2 := s.imm2.(got := true))
  }

  function SecondAt(c: seq<Byte>, i: nat, p: Plan): int {
    if p.segment then U16(c, i) else SignedAt(c, i, p.n2)
  }

  function Apply(c: seq<Byte>, s: State, p: Plan): State {
    var s1 := if p.n1 == 0 then s else TakeImm1(c, s, p.n1);
    var s2 := if p.n2 == 0 then s1 else TakeImm2(s1, SecondAt(c, s1.next, p), p.n2);
    if p.both then GotBoth(s2) else s2
  }

  /** The plan of an instruction's immediates, a trailing second byte immediate aside. */
  function ImmPlan(s: State): (p: Plan)
    ensures p.Sane()
  {
    if s.attr.moffset then MoffsetPlan(s.addr)
    else if s.attr.imm == 0 then NOTHING
    else FirstPlan(s.attr.imm, s.opnd)
  }

  predicate TrailingByte(a: Attr) {
    a.scndImm && !a.moffset && a.imm != 0
  }

  function Immediates(c: seq<Byte>, s: State): State {
    var s1 := Apply(c, s, ImmPlan(s));
    if TrailingByte(s.attr) then TakeImm2(s1, S8(At(c, s1.next)), 1) else s1
  }

  function ImmStage(c: seq<Byte>, s: State): State {
    var s1 := Immediates(c, s);
    s1.(imm1 := s1.imm1.(got := true))
  }

  function LengthStage(s: State): State {
    s.(length := s.next % 256)
  }

  // ---- The chain of stages ----

  const PREFIXES := 1
  const OPCODE := 2
  const MODRM := 3
  const SIB := 4
  const DISP := 5
  const IMM := 6
  const LENGTH := 7

  function Stage(t: Tables, c: seq<Byte>, k: int, s: State): State
    requires WellFormed(t)
  {
    if k == PREFIXES then PrefixStage(t, c, s)
    else if k == OPCODE then OpcodeStage(t, c, s)
    else if k == MODRM then ModrmStage(t, c, s)
    else if k == SIB then SibStage(c, s)
    else if k == DISP then DispStage(c, s)
    else if k == IMM then ImmStage(c, s)
    else LengthStage(s)
  }

  /** The struct after the first k stages. */
  function Chain(t: Tables, c: seq<Byte>, x64: bool, k: nat): State
    requires WellFormed(t)
  {
    if k == 0 then Init(x64) else Stage(t, c, k, Chain(t, c, x64, k - 1))
  }

  function FullDecode(t: Tables, c: seq<Byte>, x64: bool): State
    requires WellFormed(t)
  {
    Chain(t, c, x64, LENGTH)
  }

  /** Number of legacy prefix bytes, before prefixes.nbytes truncates it to 8 bits. */
  function PrefixCount(t: Tables, c: seq<Byte>, x64: bool): nat
    requires t.primary[0].pfx == 0
  {
    ScanFrom(t, c, x64, ScanInit(4, if x64 then 8 else 4)).pos
  }

  // ---- Where each field starts (insn.h) ----

  function OffsetRex(s: State): int { s.prefixes.nbytes }
  function OffsetVex(s: State): int { OffsetRex(s) + s.rex.nbytes }
  function OffsetOpcode(s: State): int { OffsetVex(s) + s.vex.nbytes }
  function OffsetModrm(s: State): int { OffsetOpcode(s) + s.opcode.nbytes }
  function OffsetSib(s: State): int { OffsetModrm(s) + s.modrm.nbytes }
  function OffsetDisp(s: State): int { OffsetSib(s) + s.sib.nbytes }
  function OffsetImm(s: State): int { OffsetDisp(s) + s.disp.nbytes }
}
