/**
 * Instruction attributes (inat.h) and the attribute searches over the opcode
 * tables (inat.c). An attribute word is modelled by its bit fields; Pack gives
 * the 32-bit word, and the lemmas after it show that the masks and shifts of
 * inat.h read exactly those fields.
 */
module Inat {
  import opened Bytes

  datatype Attr = Attr(
    pfx: bv4, esc: bv2, grp: bv5, imm: bv3,
    modrm: bool, force64: bool, scndImm: bool, moffset: bool,
    variant: bool, vexOk: bool, vexOnly: bool)

  const NIL := Attr(0, 0, 0, 0, false, false, false, false, false, false, false)

  // Prefix numbers. 1..3 select a variant table, 1..11 are legacy prefixes.
  const PFX_OPNDSZ: bv4 := 1
  const PFX_REPE: bv4 := 2
  const PFX_REPNE: bv4 := 3
  const LSTPFX_MAX: bv4 := 3
  const PFX_ADDRSZ: bv4 := 11
  const LGCPFX_MAX: bv4 := 11
  const PFX_REX: bv4 := 12
  const PFX_VEX2: bv4 := 13
  const PFX_VEX3: bv4 := 14

  // Immediate classes
  const IMM_BYTE: bv3 := 1
  const IMM_WORD: bv3 := 2
  const IMM_DWORD: bv3 := 3
  const IMM_QWORD: bv3 := 4
  const IMM_PTR: bv3 := 5
  const IMM_VWORD32: bv3 := 6
  const IMM_VWORD: bv3 := 7

  predicate IsLegacyPrefix(a: Attr) {
    a.pfx != 0 && a.pfx <= LGCPFX_MAX
  }

  predicate IsRexPrefix(a: Attr) {
    a.pfx == PFX_REX
  }

  predicate IsVexPrefix(a: Attr) {
    a.pfx == PFX_VEX2 || a.pfx == PFX_VEX3
  }

  function LastPrefixId(a: Attr): bv4 {
    if a.pfx > LSTPFX_MAX then 0 else a.pfx
  }

  function GroupCommon(a: Attr): Attr {
    a.(grp := 0)
  }

  /** Bitwise or of two attribute words. */
  function Or(a: Attr, b: Attr): Attr {
    Attr(a.pfx | b.pfx, a.esc | b.esc, a.grp | b.grp, a.imm | b.imm,
         a.modrm || b.modrm, a.force64 || b.force64, a.scndImm || b.scndImm, a.moffset || b.moffset,
         a.variant || b.variant, a.vexOk || b.vexOk, a.vexOnly || b.vexOnly)
  }

  lemma OrZeros(p: bv4, e: bv2, g: bv5, i: bv3)
    ensures p | 0 == p && e | 0 == e && g | 0 == g && i | 0 == i
    ensures 0 | p == p && 0 | e == e && 0 | g == g && 0 | i == i
  {
  }

  lemma OrNil(a: Attr)
    ensures Or(a, NIL) == a == Or(NIL, a)
  {
    OrZeros(a.pfx, a.esc, a.grp, a.imm);
  }

  // ---- The 32-bit layout ----

  function Bit(b: bool, k: bv32): bv32 {
    if b then k else 0
  }

  function PackNumbers(pfx: bv4, esc: bv2, grp: bv5, imm: bv3): bv32 {
    (pfx as bv32) | ((esc as bv32) << 4) | ((grp as bv32) << 6) | ((imm as bv32) << 11)
  }

  /** The seven flag bits, INAT_MODRM first. */
  function PackFlags(m: bool, f: bool, s: bool, o: bool, v: bool, k: bool, y: bool): bv32 {
    Bit(m, 0x4000) | Bit(f, 0x8000) | Bit(s, 0x1_0000) | Bit(o, 0x2_0000) | Bit(v, 0x4_0000) | Bit(k, 0x8_0000) | Bit(y, 0x10_0000)
  }

  /** The attribute word that the INAT_MAKE_* macros build. */
  function Pack(a: Attr): bv32 {
    PackNumbers(a.pfx, a.esc, a.grp, a.imm)
    | PackFlags(a.modrm, a.force64, a.scndImm, a.moffset, a.variant, a.vexOk, a.vexOnly)
  }

  lemma LayoutFields(a: Attr)
    ensures Pack(a) & 0xf == a.pfx as bv32
    ensures (Pack(a) & 0x30) >> 4 == a.esc as bv32
    ensures (Pack(a) & 0x7c0) >> 6 == a.grp as bv32
    ensures (Pack(a) & 0x3800) >> 11 == a.imm as bv32
  {
  }

  lemma LayoutFlags(a: Attr)
    ensures (Pack(a) & 0x4000 != 0) == a.modrm && (Pack(a) & 0x8000 != 0) == a.force64
    ensures (Pack(a) & 0x1_0000 != 0) == a.scndImm && (Pack(a) & 0x2_0000 != 0) == a.moffset
    ensures (Pack(a) & 0x4_0000 != 0) == a.variant && (Pack(a) & 0x8_0000 != 0) == a.vexOk
    ensures (Pack(a) & 0x10_0000 != 0) == a.vexOnly
  {
  }

  lemma OrMasked(x: bv32, y: bv32, mask: bv32)
    ensures (x | y) & mask == (x & mask) | (y & mask)
    ensures ((x | y) & mask != 0) == (x & mask != 0 || y & mask != 0)
  {
  }

  lemma OrShifted(x: bv32, y: bv32)
    ensures (x | y) >> 4 == (x >> 4) | (y >> 4) && (x | y) >> 6 == (x >> 6) | (y >> 6)
    ensures (x | y) >> 11 == (x >> 11) | (y >> 11)
  {
  }

  /** Reading the numbers out of the machine's or of two words gives the numbers of Or. */
  lemma LayoutOrNumbers(a: Attr, b: Attr)
    ensures (Pack(a) | Pack(b)) & 0xf == Or(a, b).pfx as bv32
    ensures ((Pack(a) | Pack(b)) & 0x30) >> 4 == Or(a, b).esc as bv32
    ensures ((Pack(a) | Pack(b)) & 0x7c0) >> 6 == Or(a, b).grp as bv32
    ensures ((Pack(a) | Pack(b)) & 0x3800) >> 11 == Or(a, b).imm as bv32
  {
    var x, y := Pack(a), Pack(b);
    LayoutFields(a);
    LayoutFields(b);
    OrMasked(x, y, 0xf);
    OrMasked(x, y, 0x30);
    OrMasked(x, y, 0x7c0);
    OrMasked(x, y, 0x3800);
    OrShifted(x & 0x30, y & 0x30);
    OrShifted(x & 0x7c0, y & 0x7c0);
    OrShifted(x & 0x3800, y & 0x3800);
  }

  /** And reading its flags gives the flags of Or. */
  lemma LayoutOrFlags(a: Attr, b: Attr)
    ensures var w, o := Pack(a) | Pack(b), Or(a, b);
      && (w & 0x4000 != 0) == o.modrm && (w & 0x8000 != 0) == o.force64
      && (w & 0x1_0000 != 0) == o.scndImm && (w & 0x2_0000 != 0) == o.moffset
      && (w & 0x4_0000 != 0) == o.variant && (w & 0x8_0000 != 0) == o.vexOk
      && (w & 0x10_0000 != 0) == o.vexOnly
  {
    var x, y := Pack(a), Pack(b);
    LayoutFlags(a);
    LayoutFlags(b);
    OrMasked(x, y, 0x4000);
    OrMasked(x, y, 0x8000);
    OrMasked(x, y, 0x1_0000);
    OrMasked(x, y, 0x2_0000);
    OrMasked(x, y, 0x4_0000);
    OrMasked(x, y, 0x8_0000);
    OrMasked(x, y, 0x10_0000);
  }

  /** No two attributes share a word, so nothing is lost by working on fields. */
  lemma LayoutInjective(a: Attr, b: Attr)
    requires Pack(a) == Pack(b)
    ensures a == b
  {
    LayoutFields(a);
    LayoutFields(b);
    LayoutFlags(a);
    LayoutFlags(b);
  }

  // ---- Tables and searches ----

  type OpTable = t: seq<Attr> | |t| == 256 witness seq(256, _ => NIL)
  type GrpTable = t: seq<Attr> | |t| == 8 witness seq(8, _ => NIL)

  /**
   * All opcode tables. A key missing from escape, group or avx is a NULL
   * pointer in the corresponding array of arrays.
   */
  datatype Tables = Tables(
    primary: OpTable,
    escape: map<(bv2, bv4), OpTable>,
    group: map<(bv5, bv4), GrpTable>,
    avx: map<(int, int), OpTable>)

  function VariantId(t: Tables, lastPfx: Byte): bv4 {
    if lastPfx != 0 then LastPrefixId(t.primary[lastPfx]) else 0
  }

  function EscapeAttribute(t: Tables, op: Byte, lastPfx: Byte, escAttr: Attr): Attr {
    var n, m := escAttr.esc, VariantId(t, lastPfx);
    if (n, 0) !in t.escape then NIL
    else if !(t.escape[(n, 0)][op].variant && m != 0) then t.escape[(n, 0)][op]
    else if (n, m) !in t.escape then NIL
    else t.escape[(n, m)][op]
  }

  function GroupAttribute(t: Tables, modrm: Byte, lastPfx: Byte, grpAttr: Attr): Attr {
    var n, m, reg := grpAttr.grp, VariantId(t, lastPfx), modrm / 8 % 8;
    if (n, 0) !in t.group then GroupCommon(grpAttr)
    else if !(t.group[(n, 0)][reg].variant && m != 0) then Or(t.group[(n, 0)][reg], GroupCommon(grpAttr))
    else if (n, m) !in t.group then GroupCommon(grpAttr)
    else Or(t.group[(n, m)][reg], GroupCommon(grpAttr))
  }

  function AvxAttribute(t: Tables, op: Byte, vexM: int, vexP: int): Attr {
    if vexM > 0x1f || vexP > 3 || (vexM, vexP) !in t.avx then NIL else t.avx[(vexM, vexP)][op]
  }

  // ---- What the decoder relies on in the tables ----

  /** How many more opcode bytes an escape can still ask for. */
  function EscRank(esc: bv2): nat {
    if esc == 0 then 0 else if esc == 1 then 2 else 1
  }

  predicate RankDrops(t: Tables, n: bv2, m: bv4, b: Byte) {
    n != 0 && (n, m) in t.escape ==> EscRank(t.escape[(n, m)][b].esc) < EscRank(n)
  }

  ghost predicate EscapesRanked(t: Tables) {
    forall n, m, b: Byte :: RankDrops(t, n, m, b)
  }

  lemma EscapeRankDrops(t: Tables, op: Byte, lastPfx: Byte, escAttr: Attr)
    requires EscapesRanked(t) && escAttr.esc != 0
    ensures EscRank(EscapeAttribute(t, op, lastPfx, escAttr).esc) < EscRank(escAttr.esc)
  {
    assert RankDrops(t, escAttr.esc, 0, op);
    assert RankDrops(t, escAttr.esc, VariantId(t, lastPfx), op);
  }

  /** 66 and 67 are the only size prefixes; a VEX byte is LDS/LES, with ModRM, in 32-bit code. */
  predicate PrefixSound(t: Tables, b: Byte) {
    var a := t.primary[b];
    && (a.pfx == PFX_OPNDSZ) == (b == 0x66) && (a.pfx == PFX_ADDRSZ) == (b == 0x67)
    && (IsVexPrefix(a) ==> a.modrm && a.esc == 0 && !a.vexOnly)
  }

  ghost predicate PrefixesSound(t: Tables) {
    t.primary[0].pfx == 0 && forall b: Byte :: PrefixSound(t, b)
  }

  /** Most bytes the immediate stage reads for an attribute. */
  function MaxImmediate(a: Attr): nat {
    if a.moffset then 8
    else if a.imm == 0 then 0
    else (if a.imm == IMM_BYTE then 1 else if a.imm == IMM_WORD then 2
          else if a.imm == IMM_DWORD || a.imm == IMM_VWORD32 then 4
          else if a.imm == IMM_PTR then 6 else 8)
         + if a.scndImm then 1 else 0
  }

  /** Most bytes from ModRM to the end: ModRM, SIB and four displacement bytes, then immediates. */
  function MaxTail(a: Attr): nat {
    (if a.modrm then 6 else 0) + MaxImmediate(a)
  }

  /** A second immediate goes with a first one that leaves the second field free. */
  predicate SecondImmFree(a: Attr) {
    a.scndImm ==> a.imm != IMM_QWORD && a.imm != IMM_PTR && a.imm != IMM_VWORD
  }

  predicate Within(a: Attr, n: nat) {
    MaxTail(a) <= n && SecondImmFree(a)
  }

  predicate GroupWithin(t: Tables, a: Attr, modrm: Byte, pfx: Byte, n: nat) {
    Within(GroupAttribute(t, modrm, pfx, a), n)
  }

  /** The bound also holds for every attribute a group opcode can be refined to. */
  ghost predicate TailWithin(t: Tables, a: Attr, n: nat) {
    Within(a, n) && (a.grp != 0 ==> a.modrm && forall modrm: Byte, pfx: Byte :: GroupWithin(t, a, modrm, pfx, n))
  }

  ghost predicate PrimaryBounded(t: Tables, b: Byte) {
    t.primary[b].esc == 0 ==> TailWithin(t, t.primary[b], 10)
  }

  ghost predicate EscapeBounded(t: Tables, n: bv2, m: bv4, b: Byte) {
    n != 0 && (n, m) in t.escape && t.escape[(n, m)][b].esc == 0 ==> TailWithin(t, t.escape[(n, m)][b], 8)
  }

  ghost predicate AvxBounded(t: Tables, m: int, p: int, b: Byte) {
    (m, p) in t.avx && t.avx[(m, p)][b].vexOk ==> TailWithin(t, t.avx[(m, p)][b], 7)
  }

  ghost predicate TailsBounded(t: Tables) {
    && (forall b: Byte :: PrimaryBounded(t, b))
    && (forall n, m, b: Byte :: EscapeBounded(t, n, m, b))
    && (forall m, p, b: Byte :: AvxBounded(t, m, p, b))
  }

  /** CALL and JMP rel32: a 32-bit immediate, forced to 64-bit operand size, and nothing else. */
  predicate RelativeBranch32(a: Attr) {
    a == NIL.(imm := IMM_VWORD32, force64 := true)
  }

  /** VEX instructions with the opcode byte of CALL or JMP have no immediate. */
  predicate VexCallShape(t: Tables, m: int, p: int, b: Byte) {
    (b == 0xe8 || b == 0xe9) && (m, p) in t.avx && t.avx[(m, p)][b].vexOk ==>
      t.avx[(m, p)][b].imm == 0 && !t.avx[(m, p)][b].moffset && t.avx[(m, p)][b].grp == 0
  }

  ghost predicate VexCallsShaped(t: Tables) {
    forall m, p, b: Byte :: VexCallShape(t, m, p, b)
  }

  ghost predicate WellFormed(t: Tables) {
    VexCallsShaped(t) && EscapesRanked(t) && PrefixesSound(t) && TailsBounded(t)
    && RelativeBranch32(t.primary[0xe8]) && RelativeBranch32(t.primary[0xe9])
  }
}
