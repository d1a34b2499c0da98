/**
 * The instruction format on byte values: which bytes an instruction has, by the
 * values of those before them, as section 2.1 of the Intel SDM volume 2 and, for
 * VEX, section 2.3 lay them down. None of it speaks of the decoder's stages.
 */
module DecodeLaws {
  import opened Bytes
  import opened Inat
  import opened InatTables
  import opened Decode
  import opened Locality
  import opened RoundTrip
  import opened Lengths
  import PrefixScan

  // ---- What later stages leave of the struct ----

  /** From the opcode on: the struct at the end, by what each stage fills in. */
  lemma LateStages(t: Tables, c: seq<Byte>, x64: bool)
    requires WellFormed(t)
    ensures var m, b, d, s := Chain(t, c, x64, MODRM), Chain(t, c, x64, SIB), Chain(t, c, x64, DISP), FullDecode(t, c, x64);
      && b == m.(sib := b.sib, next := b.next) && d == b.(disp := d.disp, next := d.next)
      && s == d.(imm1 := s.imm1, imm2 := s.imm2, next := s.next, length := s.length)
      && b == SibStage(c, m) && d == DispStage(c, b) && s.imm1 == ImmStage(c, d).imm1 && s.imm2 == ImmStage(c, d).imm2
      && s.next == ImmStage(c, d).next
  {
    ChainUnfold(t, c, x64, SIB);
    ChainUnfold(t, c, x64, DISP);
    ChainUnfold(t, c, x64, IMM);
    ChainUnfold(t, c, x64, LENGTH);
    SibFrame(c, Chain(t, c, x64, MODRM));
    DispFrame(c, Chain(t, c, x64, SIB));
    ImmStageFrame(c, Chain(t, c, x64, DISP));
  }

  lemma SibFrame(c: seq<Byte>, s: State)
    ensures var r := SibStage(c, s); r == s.(sib := r.sib, next := r.next)
  {
  }

  lemma DispFrame(c: seq<Byte>, s: State)
    ensures var r := DispStage(c, s); r == s.(disp := r.disp, next := r.next)
  {
  }

  lemma ImmStageFrame(c: seq<Byte>, s: State)
    ensures var r := ImmStage(c, s); r == s.(imm1 := r.imm1, imm2 := r.imm2, next := r.next)
  {
    ApplyFrame(c, s, ImmPlan(s));
  }

  // ---- SIB and displacement ----

  /** A SIB byte, by the ModRM byte, in 32-bit and 64-bit addressing. */
  predicate SibCalledFor(modrm: int) {
    modrm < 0xc0 && modrm % 8 == 4
  }

  /** Displacement bytes in 32-bit and 64-bit addressing, by the ModRM byte and the SIB byte, 0 without one. */
  function DispBytes(modrm: int, sib: int): nat {
    if modrm < 0x40 then
      if modrm % 8 == 5 then 4 else if modrm % 8 == 4 && sib % 8 == 5 then 4 else 0
    else if modrm < 0x80 then 1
    else if modrm < 0xc0 then 4
    else 0
  }

  /** And in 16-bit addressing. */
  function DispBytes16(modrm: int): nat {
    if modrm < 0x40 then (if modrm % 8 == 6 then 2 else 0)
    else if modrm < 0x80 then 1
    else if modrm < 0xc0 then 2
    else 0
  }

  lemma SibCall(modrm: int)
    requires 0 <= modrm < 256
    ensures SibCalledFor(modrm) == (Mod(modrm) != 3 && Rm(modrm) == 4)
  {
  }

  lemma SibStageByte(c: seq<Byte>, m: State)
    requires 0 <= m.modrm.value < 256 && m.sib == NO_VALUE
    ensures var b := SibStage(c, m);
      && b.sib.nbytes == (if m.modrm.nbytes != 0 && m.addr != 2 && SibCalledFor(m.modrm.value) then 1 else 0)
      && b.sib.value == if b.sib.nbytes == 0 then 0 else At(c, m.next)
  {
    SibCall(m.modrm.value);
  }

  lemma ModIs(modrm: int)
    requires 0 <= modrm < 256
    ensures Mod(modrm) == if modrm < 0x40 then 0 else if modrm < 0x80 then 1 else if modrm < 0xc0 then 2 else 3
  {
  }

  lemma DispSizeBytes(s: State)
    requires 0 <= s.modrm.value < 256 && 0 <= s.sib.value < 256
    requires s.sib.nbytes == 0 ==> s.sib.value == 0
    requires s.sib.nbytes != 0 ==> SibCalledFor(s.modrm.value)
    ensures DispSize(s) == if s.modrm.nbytes == 0 then 0
                           else if s.addr == 2 then DispBytes16(s.modrm.value)
                           else DispBytes(s.modrm.value, s.sib.value)
  {
    ModIs(s.modrm.value);
  }

  lemma DispStageBytes(c: seq<Byte>, s: State)
    requires s.disp == NO_VALUE
    ensures DispStage(c, s).disp.nbytes == DispSize(s)
    ensures DispStage(c, s).disp.value == if DispSize(s) == 0 then 0 else SignedAt(c, s.next, DispSize(s))
  {
  }

  lemma ModrmByte(t: Tables, c: seq<Byte>, s: State)
    requires s.modrm == NO_VALUE
    ensures var m := ModrmStage(t, c, s);
      m.modrm.nbytes == (if s.attr.modrm then 1 else 0) && m.modrm.value == if s.attr.modrm then At(c, s.next) else 0
  {
  }

  /**
   * Which ModRM and SIB bytes call for a SIB byte and how many displacement bytes,
   * for any instruction in 32-bit and 64-bit code.
   */
  lemma AddressingBytes(t: Tables, c: seq<Byte>, x64: bool)
    requires WellFormed(t)
    ensures var s := FullDecode(t, c, x64);
      && 0 <= s.modrm.value < 256 && s.modrm.nbytes <= 1
      && s.sib.nbytes == (if s.modrm.nbytes != 0 && s.addr != 2 && SibCalledFor(s.modrm.value) then 1 else 0)
      && s.disp.nbytes == (if s.modrm.nbytes == 0 then 0
                           else if s.addr == 2 then DispBytes16(s.modrm.value)
                           else DispBytes(s.modrm.value, s.sib.value))
  {
    LateStages(t, c, x64);
    ChainUnfold(t, c, x64, MODRM);
    ChainBlank(t, c, x64, MODRM, OPCODE);
    ChainBlank(t, c, x64, SIB, MODRM);
    ChainBlank(t, c, x64, DISP, MODRM);
    ModrmByte(t, c, Chain(t, c, x64, OPCODE));
    var m, b := Chain(t, c, x64, MODRM), Chain(t, c, x64, SIB);
    SibStageByte(c, m);
    DispSizeBytes(b);
    DispStageBytes(c, b);
  }

  // ---- Immediates ----

  /** Bytes of the first and the second immediate. */
  datatype Sizes = Sizes(first: nat, second: nat)

  /** By the class of the operand, the operand size and the address size. */
  function ImmBytes(a: Attr, opnd: bv8, addr: bv8): Sizes {
    if a.moffset then Sizes(if addr == 2 then 2 else if addr == 4 || addr == 8 then 4 else 0, if addr == 8 then 4 else 0)
    else if a.imm == 0 then Sizes(0, 0)
    else
      var s :=
        if a.imm == 1 then Sizes(1, 0)
        else if a.imm == 2 then Sizes(2, 0)
        else if a.imm == 3 then Sizes(4, 0)
        else if a.imm == 4 then Sizes(4, 4)
        else if a.imm == 5 then (if opnd == 2 then Sizes(2, 2) else if opnd == 4 then Sizes(4, 2) else Sizes(0, 0))
        else if a.imm == 6 then Sizes(if opnd == 2 then 2 else 4, 0)
        else Sizes(if opnd == 2 then 2 else 4, if opnd == 8 then 4 else 0);
      if a.scndImm then s.(second := 1) else s
  }

  lemma PlanBytes(d: State)
    requires d.opnd == 2 || d.opnd == 4 || d.opnd == 8
    ensures var p := ImmPlan(d);
      Sizes(p.n1, if TrailingByte(d.attr) then 1 else p.n2) == ImmBytes(d.attr, d.opnd, d.addr)
  {
  }

  lemma StageSizes(c: seq<Byte>, d: State)
    requires d.imm1 == NO_VALUE && d.imm2 == NO_VALUE
    ensures var s, p := ImmStage(c, d), ImmPlan(d);
      s.imm1.nbytes == p.n1 && s.imm2.nbytes == if TrailingByte(d.attr) then 1 else p.n2
  {
  }

  /** How many bytes the immediates of any instruction take. */
  lemma ImmediateBytes(t: Tables, c: seq<Byte>, x64: bool)
    requires WellFormed(t)
    ensures var s := FullDecode(t, c, x64);
      Sizes(s.imm1.nbytes, s.imm2.nbytes) == ImmBytes(s.attr, s.opnd, s.addr)
  {
    LateStages(t, c, x64);
    ChainBlank(t, c, x64, IMM, DISP);
    PrefixScan.SizesSane(t, c, x64, DISP);
    StageSizes(c, Chain(t, c, x64, DISP));
    PlanBytes(Chain(t, c, x64, DISP));
  }

  // ---- Where the fields are ----

  /** The signed value of n little-endian bytes at i, written out. */
  function Number(c: seq<Byte>, i: nat, n: nat): int {
    var b0, b1, b2, b3 := At(c, i), At(c, i + 1), At(c, i + 2), At(c, i + 3);
    if n == 0 then 0
    else if n == 1 then b0 - (if b0 >= 0x80 then 0x100 else 0)
    else if n == 2 then b0 + 0x100 * b1 - (if b1 >= 0x80 then 0x1_0000 else 0)
    else b0 + 0x100 * b1 + 0x1_0000 * b2 + 0x100_0000 * b3 - if b3 >= 0x80 then 0x1_0000_0000 else 0
  }

  lemma SignedIsNumber(c: seq<Byte>, i: nat, n: nat)
    requires n == 1 || n == 2 || n == 4
    ensures SignedAt(c, i, n) == Number(c, i, n)
  {
  }

  /** The second half of an immediate: a segment is unsigned. */
  function SecondNumber(c: seq<Byte>, i: nat, n: nat, segment: bool): int {
    if segment && n == 2 then At(c, i) + 0x100 * At(c, i + 1) else Number(c, i, n)
  }

  lemma FirstNumber(c: seq<Byte>, d: State)
    requires d.imm1 == NO_VALUE && d.imm2 == NO_VALUE
    ensures var s := ImmStage(c, d);
      s.imm1.value == Number(c, d.next, s.imm1.nbytes)
  {
    var n := ImmPlan(d).n1;
    if n != 0 {
      SignedIsNumber(c, d.next, n);
    }
  }

  lemma PlanNumber(c: seq<Byte>, d: State, p: Plan)
    requires d.imm2 == NO_VALUE && p.Sane()
    ensures var s := Apply(c, d, p);
      s.imm2.nbytes == p.n2 && s.imm2.value == SecondNumber(c, d.next + p.n1, p.n2, p.segment)
  {
    if p.n2 != 0 {
      SignedIsNumber(c, d.next + p.n1, p.n2);
    }
  }

  lemma PlanSegment(d: State)
    ensures ImmPlan(d).segment ==> !d.attr.moffset && d.attr.imm == 5
    ensures ImmPlan(d).n2 == 2 ==> ImmPlan(d).segment
  {
  }

  lemma FirstSize(c: seq<Byte>, d: State)
    requires d.imm1 == NO_VALUE
    ensures ImmStage(c, d).imm1.nbytes == ImmPlan(d).n1
  {
  }

  lemma SecondOf(c: seq<Byte>, d: State)
    ensures var a := Apply(c, d, ImmPlan(d)); var s := ImmStage(c, d);
      s.imm2 == if TrailingByte(d.attr) then ValueField(S8(At(c, a.next)), a.imm2.got, 1) else a.imm2
  {
  }

  lemma SecondIs(c: seq<Byte>, d: State)
    requires d.imm1 == NO_VALUE && d.imm2 == NO_VALUE && SecondImmFree(d.attr)
    ensures var s := ImmStage(c, d);
      && s.imm2.value == SecondNumber(c, d.next + s.imm1.nbytes, s.imm2.nbytes, !d.attr.moffset && d.attr.imm == 5)
      && s.next == d.next + s.imm1.nbytes + s.imm2.nbytes
  {
    var p := ImmPlan(d);
    PlanNumber(c, d, p);
    PlanSegment(d);
    FirstSize(c, d);
    SecondOf(c, d);
    ImmNext(c, d);
    if TrailingByte(d.attr) {
      PlanFree(d);
      SignedIsNumber(c, d.next + p.n1, 1);
    }
  }

  /** Bytes that follow the prefixes, REX and VEX of an instruction that starts at them. */
  datatype Places = Places(opcode: nat, modrm: nat, sib: nat, disp: nat, imm1: nat, imm2: nat, end: nat)

  /** Each field behind the one before. */
  function PlacesOf(from: nat, s: State): Places {
    var modrm := from + s.opcode.nbytes;
    var sib := modrm + s.modrm.nbytes;
    var disp := sib + s.sib.nbytes;
    var imm1 := disp + s.disp.nbytes;
    var imm2 := imm1 + s.imm1.nbytes;
    Places(from, modrm, sib, disp, imm1, imm2, imm2 + s.imm2.nbytes)
  }

  lemma EarlyCursors(t: Tables, c: seq<Byte>, x64: bool)
    requires WellFormed(t)
    ensures var p := PlacesOf(Chain(t, c, x64, PREFIXES).next, FullDecode(t, c, x64));
      Chain(t, c, x64, OPCODE).next == p.modrm && Chain(t, c, x64, MODRM).next == p.sib
  {
    LateStages(t, c, x64);
    ChainUnfold(t, c, x64, OPCODE);
    ChainUnfold(t, c, x64, MODRM);
    ChainBlank(t, c, x64, OPCODE, PREFIXES);
    ChainBlank(t, c, x64, MODRM, OPCODE);
    ChainFrame(t, c, x64, OPCODE, OPCODE, LENGTH);
    OpcodeOwn(t, c, Chain(t, c, x64, PREFIXES));
    ModrmOwn(t, c, Chain(t, c, x64, OPCODE));
  }

  lemma Cursors(t: Tables, c: seq<Byte>, x64: bool)
    requires WellFormed(t)
    ensures var p := PlacesOf(Chain(t, c, x64, PREFIXES).next, FullDecode(t, c, x64));
      && Chain(t, c, x64, OPCODE).next == p.modrm && Chain(t, c, x64, MODRM).next == p.sib
      && Chain(t, c, x64, SIB).next == p.disp && Chain(t, c, x64, DISP).next == p.imm1
  {
    EarlyCursors(t, c, x64);
    LateStages(t, c, x64);
    ChainBlank(t, c, x64, SIB, MODRM);
    ChainBlank(t, c, x64, DISP, SIB);
    SibOwn(c, Chain(t, c, x64, MODRM));
    DispOwn(c, Chain(t, c, x64, SIB));
  }

  lemma AddressingNumbers(t: Tables, c: seq<Byte>, x64: bool)
    requires WellFormed(t)
    ensures var s := FullDecode(t, c, x64); var p := PlacesOf(Chain(t, c, x64, PREFIXES).next, s);
      && (s.modrm.nbytes != 0 ==> s.modrm.value == At(c, p.modrm))
      && (s.sib.nbytes != 0 ==> s.sib.value == At(c, p.sib))
      && s.disp.value == Number(c, p.disp, s.disp.nbytes)
  {
    Cursors(t, c, x64);
    LateStages(t, c, x64);
    ChainUnfold(t, c, x64, MODRM);
    ChainBlank(t, c, x64, MODRM, OPCODE);
    ChainBlank(t, c, x64, SIB, MODRM);
    ChainBlank(t, c, x64, DISP, SIB);
    ModrmByte(t, c, Chain(t, c, x64, OPCODE));
    AddressingBytes(t, c, x64);
    SibStageByte(c, Chain(t, c, x64, MODRM));
    DispNumber(c, Chain(t, c, x64, SIB));
  }

  lemma LastFieldsOf(c: seq<Byte>, d: State, s: State)
    requires d.imm1 == NO_VALUE && d.imm2 == NO_VALUE && SecondImmFree(d.attr)
    requires s.attr == d.attr
    requires s.imm1 == ImmStage(c, d).imm1 && s.imm2 == ImmStage(c, d).imm2 && s.next == ImmStage(c, d).next
    ensures s.imm1.value == Number(c, d.next, s.imm1.nbytes)
    ensures s.imm2.value == SecondNumber(c, d.next + s.imm1.nbytes, s.imm2.nbytes, !s.attr.moffset && s.attr.imm == 5)
    ensures s.next == d.next + s.imm1.nbytes + s.imm2.nbytes
  {
    FirstNumber(c, d);
    SecondIs(c, d);
  }

  lemma LastStage(t: Tables, c: seq<Byte>, x64: bool)
    requires WellFormed(t)
    ensures var d, s := Chain(t, c, x64, DISP), FullDecode(t, c, x64); var r := ImmStage(c, d);
      s.attr == d.attr && s.imm1 == r.imm1 && s.imm2 == r.imm2 && s.next == r.next
  {
    LateStages(t, c, x64);
  }

  lemma DispReady(t: Tables, c: seq<Byte>, x64: bool)
    requires WellFormed(t)
    ensures var d := Chain(t, c, x64, DISP); d.imm1 == NO_VALUE && d.imm2 == NO_VALUE && SecondImmFree(d.attr)
  {
    ChainBlank(t, c, x64, IMM, DISP);
    ChainTail(t, c, x64);
  }

  lemma LastFields(t: Tables, c: seq<Byte>, x64: bool)
    requires WellFormed(t)
    ensures var d, s := Chain(t, c, x64, DISP), FullDecode(t, c, x64);
      && s.imm1.value == Number(c, d.next, s.imm1.nbytes)
      && s.imm2.value == SecondNumber(c, d.next + s.imm1.nbytes, s.imm2.nbytes, !s.attr.moffset && s.attr.imm == 5)
      && s.next == d.next + s.imm1.nbytes + s.imm2.nbytes
  {
    LastStage(t, c, x64);
    DispReady(t, c, x64);
    LastFieldsOf(c, Chain(t, c, x64, DISP), FullDecode(t, c, x64));
  }

  lemma ImmediateNumbers(t: Tables, c: seq<Byte>, x64: bool)
    requires WellFormed(t)
    ensures var s := FullDecode(t, c, x64); var p := PlacesOf(Chain(t, c, x64, PREFIXES).next, s);
      && s.imm1.value == Number(c, p.imm1, s.imm1.nbytes)
      && s.imm2.value == SecondNumber(c, p.imm2, s.imm2.nbytes, !s.attr.moffset && s.attr.imm == 5)
      && Extent(t, c, x64) == p.end
  {
    LastFields(t, c, x64);
    Cursors(t, c, x64);
  }

  /** The value of every field is the little-endian number at its place, and the last place is the end. */
  lemma FieldNumbers(t: Tables, c: seq<Byte>, x64: bool)
    requires WellFormed(t)
    ensures var s := FullDecode(t, c, x64); var p := PlacesOf(Chain(t, c, x64, PREFIXES).next, s);
      && (s.modrm.nbytes != 0 ==> s.modrm.value == At(c, p.modrm))
      && (s.sib.nbytes != 0 ==> s.sib.value == At(c, p.sib))
      && s.disp.value == Number(c, p.disp, s.disp.nbytes) && s.imm1.value == Number(c, p.imm1, s.imm1.nbytes)
      && s.imm2.value == SecondNumber(c, p.imm2, s.imm2.nbytes, !s.attr.moffset && s.attr.imm == 5)
      && Extent(t, c, x64) == p.end
  {
    AddressingNumbers(t, c, x64);
    ImmediateNumbers(t, c, x64);
  }

  lemma DispNumber(c: seq<Byte>, s: State)
    requires s.disp == NO_VALUE
    ensures var d := DispStage(c, s); d.disp.value == Number(c, s.next, d.disp.nbytes)
  {
    DispStageBytes(c, s);
    if DispSize(s) != 0 {
      SignedIsNumber(c, s.next, DispSize(s));
    }
  }

  // ---- Prefixes ----

  /** The legacy prefix bytes. */
  predicate Legacy(b: Byte) {
    b in {0x26, 0x2e, 0x36, 0x3e, 0x64, 0x65, 0x66, 0x67, 0xf0, 0xf2, 0xf3}
  }

  lemma PrefixBytesLow(b: Byte)
    requires b < 0x80
    ensures var a := PrimaryLow(b);
      IsLegacyPrefix(a) == Legacy(b) && IsRexPrefix(a) == (0x40 <= b < 0x50) && !IsVexPrefix(a)
  {
  }

  lemma PrefixBytesHigh(b: Byte)
    requires b >= 0x80
    ensures var a := PrimaryHigh(b);
      && IsLegacyPrefix(a) == Legacy(b) && !IsRexPrefix(a) && IsVexPrefix(a) == (b == 0xc4 || b == 0xc5)
      && (a.pfx == PFX_VEX3) == (b == 0xc4)
  {
  }

  /** Which bytes are prefixes in the listed tables. */
  lemma PrefixBytes(b: Byte)
    ensures var a := TABLES.primary[b];
      && IsLegacyPrefix(a) == Legacy(b) && IsRexPrefix(a) == (0x40 <= b < 0x50) && IsVexPrefix(a) == (b == 0xc4 || b == 0xc5)
      && (a.pfx == PFX_VEX3) == (b == 0xc4)
  {
    assert TABLES.primary[b] == PrimaryEntry(b);
    if b < 0x80 {
      PrefixBytesLow(b);
    } else {
      PrefixBytesHigh(b);
    }
  }

  /** One byte of REX in 64-bit code. */
  function RexLength(c: seq<Byte>, n: nat, x64: bool): nat {
    if x64 && 0x40 <= At(c, n) < 0x50 then 1 else 0
  }

  /** Three bytes of VEX from c4 and two from c5; in 32-bit code only before a byte with its top bits set. */
  function VexLength(c: seq<Byte>, n: nat, x64: bool): nat {
    if !x64 && At(c, n + 1) < 0xc0 then 0
    else if At(c, n) == 0xc4 then 3
    else if At(c, n) == 0xc5 then 2
    else 0
  }

  /** REX.W, and VEX.W of a three-byte VEX in 64-bit code. */
  predicate Wide(c: seq<Byte>, n: nat, x64: bool) {
    var v := n + RexLength(c, n, x64);
    (x64 && 0x48 <= At(c, n) < 0x50) || (x64 && VexLength(c, v, x64) == 3 && At(c, v + 2) >= 0x80)
  }

  lemma {:induction false} RunTaken(c: seq<Byte>, x64: bool, k: Scan, n: nat)
    requires k.nb <= k.pos <= n <= 4 && !Legacy(At(c, n)) && forall i: nat :: k.pos <= i < n ==> Legacy(At(c, i))
    requires TABLES.primary[0].pfx == 0
    ensures ScanFrom(TABLES, c, x64, k).pos == n
    decreases n - k.pos
  {
    PrefixBytes(At(c, k.pos));
    if k.pos < n {
      assert Legacy(At(c, k.pos));
      RunTaken(c, x64, ScanTurn(TABLES, c, x64, k).k, n);
    }
  }

  /** Up to four legacy prefix bytes are all taken for prefixes. */
  lemma PrefixesTaken(c: seq<Byte>, x64: bool, n: nat)
    requires n <= 4 && !Legacy(At(c, n)) && forall i: nat :: i < n ==> Legacy(At(c, i))
    ensures PrefixesSound(TABLES) && PrefixCount(TABLES, c, x64) == n
  {
    PrefixesAreSound();
    RunTaken(c, x64, ScanInit(4, if x64 then 8 else 4), n);
  }

  lemma RexLaw(c: seq<Byte>, l: State)
    requires l.rex == NO_VALUE
    ensures var r := RexStage(TABLES, c, l);
      && r.rex.nbytes == RexLength(c, l.next, l.x64) && r.next == l.next + r.rex.nbytes && r.x64 == l.x64 && r.addr == l.addr
      && r.opnd == if l.x64 && 0x48 <= At(c, l.next) < 0x50 then 8 else l.opnd
  {
    PrefixBytes(At(c, l.next));
  }

  lemma VexLaw(c: seq<Byte>, r: State)
    requires r.vex == NO_BYTES
    ensures var v := VexStage(TABLES, c, r);
      && v.vex.nbytes == VexLength(c, r.next, r.x64) && v.next == r.next + v.vex.nbytes && v.rex == r.rex && v.addr == r.addr
      && v.prefixes.bytes == r.prefixes.bytes
      && v.opnd == if r.x64 && v.vex.nbytes == 3 && At(c, r.next + 2) >= 0x80 then 8 else r.opnd
  {
    PrefixBytes(At(c, r.next));
  }

  /** Sizes of operands and addresses after n legacy prefixes. */
  ghost predicate SizedBy(c: seq<Byte>, x64: bool, n: nat, s: State) {
    && s.opnd == (if Wide(c, n, x64) then 8 else if PrefixScan.Seen(c, n, 0x66) then 2 else 4)
    && s.addr == (if PrefixScan.Seen(c, n, 0x67) then (if x64 then 4 else 2) else (if x64 then 8 else 4))
  }

  lemma RexVexLaw(c: seq<Byte>, l: State)
    requires l.rex == NO_VALUE && l.vex == NO_BYTES
    ensures var v, n := VexStage(TABLES, c, RexStage(TABLES, c, l)), l.next;
      && v.rex.nbytes == RexLength(c, n, l.x64) && v.vex.nbytes == VexLength(c, n + v.rex.nbytes, l.x64)
      && v.next == n + v.rex.nbytes + v.vex.nbytes && v.opnd == (if Wide(c, n, l.x64) then 8 else l.opnd)
      && v.addr == l.addr && v.prefixes.bytes == l.prefixes.bytes
  {
    RexLaw(c, l);
    RexFrame(TABLES, c, l);
    VexLaw(c, RexStage(TABLES, c, l));
  }

  lemma LegacyBlank(t: Tables, c: seq<Byte>, x64: bool)
    requires t.primary[0].pfx == 0
    ensures var l := LegacyStage(t, c, Init(x64)); l.rex == NO_VALUE && l.vex == NO_BYTES && l.x64 == x64
  {
  }

  lemma PrefixStageLaw(c: seq<Byte>, x64: bool)
    requires PrefixesSound(TABLES)
    ensures var n, p := PrefixCount(TABLES, c, x64), PrefixStage(TABLES, c, Init(x64));
      && p.rex.nbytes == RexLength(c, n, x64) && p.vex.nbytes == VexLength(c, n + p.rex.nbytes, x64)
      && p.next == n + p.rex.nbytes + p.vex.nbytes && SizedBy(c, x64, n, p)
      && p.prefixes.bytes[3] == if n == 0 then 0 else At(c, n - 1)
  {
    PrefixScan.LegacyPrefixes(TABLES, c, x64);
    LegacyBlank(TABLES, c, x64);
    RexVexLaw(c, LegacyStage(TABLES, c, Init(x64)));
  }

  lemma PrefixesKept(t: Tables, c: seq<Byte>, x64: bool)
    requires WellFormed(t)
    ensures var p, s := Chain(t, c, x64, PREFIXES), FullDecode(t, c, x64);
      && s.prefixes.bytes == p.prefixes.bytes && s.rex == p.rex && s.vex == p.vex && s.addr == p.addr && s.x64 == x64
      && s.opnd == if x64 && s.attr.force64 then 8 else p.opnd
  {
    LateStages(t, c, x64);
    ChainFrame(t, c, x64, PREFIXES, PREFIXES, LENGTH);
    ChainUnfold(t, c, x64, PREFIXES);
    ChainUnfold(t, c, x64, OPCODE);
    ChainUnfold(t, c, x64, MODRM);
    PrefixFrame(t, c, Init(x64));
    OpcodeKeepsSizesToo(t, c, Chain(t, c, x64, PREFIXES));
    ModrmSizes(t, c, Chain(t, c, x64, OPCODE));
  }

  lemma OpcodeKeepsSizesToo(t: Tables, c: seq<Byte>, s: State)
    requires WellFormed(t)
    ensures var r := OpcodeStage(t, c, s); r.opnd == s.opnd && r.addr == s.addr && r.x64 == s.x64
  {
    PrefixScan.OpcodeKeepsSizes(t, c, s);
  }

  lemma ModrmSizes(t: Tables, c: seq<Byte>, s: State)
    ensures var r := ModrmStage(t, c, s);
      r.addr == s.addr && r.x64 == s.x64 && r.opnd == if s.x64 && r.attr.force64 then 8 else s.opnd
  {
  }

  /**
   * What the bytes after n legacy prefixes are: REX, VEX, then the opcode; and
   * the sizes of operands and addresses.
   */
  lemma PrefixLaw(c: seq<Byte>, x64: bool)
    ensures WellFormed(TABLES)
    ensures var n, s := PrefixCount(TABLES, c, x64), FullDecode(TABLES, c, x64);
      && (forall i: nat :: i < n ==> Legacy(At(c, i)))
      && s.prefixes.bytes[3] == (if n == 0 then 0 else At(c, n - 1))
      && s.rex.nbytes == RexLength(c, n, x64) && s.vex.nbytes == VexLength(c, n + s.rex.nbytes, x64)
      && Chain(TABLES, c, x64, PREFIXES).next == n + s.rex.nbytes + s.vex.nbytes
      && s.opnd == (if Wide(c, n, x64) || (x64 && s.attr.force64) then 8 else if PrefixScan.Seen(c, n, 0x66) then 2 else 4)
      && s.addr == (if PrefixScan.Seen(c, n, 0x67) then (if x64 then 4 else 2) else (if x64 then 8 else 4))
  {
    TablesWellFormed();
    PrefixStageLaw(c, x64);
    PrefixesKept(TABLES, c, x64);
    ChainUnfold(TABLES, c, x64, PREFIXES);
    LegacyRun(c, x64);
  }

  lemma LegacyRun(c: seq<Byte>, x64: bool)
    requires PrefixesSound(TABLES)
    ensures forall i: nat :: i < PrefixCount(TABLES, c, x64) ==> Legacy(At(c, i))
  {
    PrefixScan.LegacyPrefixes(TABLES, c, x64);
    forall i: nat | i < PrefixCount(TABLES, c, x64)
      ensures Legacy(At(c, i))
    {
      PrefixBytes(At(c, i));
    }
  }

  // ---- Opcode and attribute ----

  /** A map's entry after 66, f3 or f2, for opcodes with variants. */
  function VariantEntry(level: int, last: Byte, op: Byte): Attr {
    if last == 0x66 then
      (if level == 1 then Escape1Variant1Entry(op) else if level == 2 then Escape2Variant1Entry(op) else Escape3Variant1Entry(op))
    else if last == 0xf3 then (if level == 1 then Escape1Variant2Entry(op) else NIL)
    else if level == 1 then Escape1Variant3Entry(op)
    else if level == 2 then Escape2Variant3Entry(op)
    else NIL
  }

  function PlainEntry(level: int, op: Byte): Attr {
    if level == 1 then Escape1Entry(op) else if level == 2 then Escape2Entry(op) else Escape3Entry(op)
  }

  /** The entry for op in the maps of 0f, 0f 38 and 0f 3a, by the last legacy prefix. */
  function MapEntry(level: int, last: Byte, op: Byte): Attr {
    if PlainEntry(level, op).variant && last in {0x66, 0xf2, 0xf3} then VariantEntry(level, last, op)
    else PlainEntry(level, op)
  }

  /** The entry that VEX selects by its map and prefix fields. */
  function VexEntry(m: int, p: int, op: Byte): Attr {
    if !(1 <= m <= 3) then NIL
    else if p == 0 then PlainEntry(m, op)
    else VariantEntry(m, if p == 1 then 0x66 else if p == 2 then 0xf3 else 0xf2, op)
  }

  function Unless(bad: bool, a: Attr): Attr {
    if bad then NIL else a
  }

  /** Opcode bytes at o: 0f asks for a second one, and 38 and 3a behind it for a third. */
  function OpcodeLength(c: seq<Byte>, o: nat): nat {
    if At(c, o) != 0x0f then 1 else if At(c, o + 1) == 0x38 || At(c, o + 1) == 0x3a then 3 else 2
  }

  /** The attribute of the opcode at o without VEX. What needs VEX is bad. */
  function PlainAttr(c: seq<Byte>, o: nat, last: Byte): Attr {
    var a :=
      if At(c, o) != 0x0f then PrimaryEntry(At(c, o))
      else if At(c, o + 1) == 0x38 then MapEntry(2, last, At(c, o + 2))
      else if At(c, o + 1) == 0x3a then MapEntry(3, last, At(c, o + 2))
      else MapEntry(1, last, At(c, o + 1));
    Unless(a.vexOnly, a)
  }

  /** The attribute of the opcode at o behind n bytes of VEX. What does not take VEX is bad. */
  function VexAttr(c: seq<Byte>, o: nat, n: nat): Attr
    requires 2 <= n <= 3 && n <= o
  {
    var a := if n == 2 then VexEntry(1, At(c, o - 1) % 4, At(c, o)) else VexEntry(At(c, o - 2) % 32, At(c, o - 1) % 4, At(c, o));
    Unless(!a.vexOk, a)
  }

  /** Number of the variant that a last prefix selects. */
  function VariantOf(last: Byte): bv4 {
    if last == 0x66 then 1 else if last == 0xf3 then 2 else if last == 0xf2 then 3 else 0
  }

  lemma VariantLow(b: Byte)
    requires b < 0x80
    ensures LastPrefixId(PrimaryLow(b)) == VariantOf(b)
  {
  }

  lemma VariantHigh(b: Byte)
    requires b >= 0x80
    ensures LastPrefixId(PrimaryHigh(b)) == VariantOf(b)
  {
  }

  lemma VariantNumber(last: Byte)
    ensures VariantId(TABLES, last) == VariantOf(last)
  {
    assert TABLES.primary[last] == PrimaryEntry(last);
    if last < 0x80 {
      VariantLow(last);
    } else {
      VariantHigh(last);
    }
  }

  lemma FirstMap(n: bv4, op: Byte)
    requires n <= 3
    ensures (1 as bv2, n) in TABLES.escape
    ensures TABLES.escape[(1 as bv2, n)][op] == if n == 0 then Escape1Entry(op) else VariantEntry(1, if n == 1 then 0x66 else if n == 2 then 0xf3 else 0xf2, op)
  {
  }

  lemma SecondMap(n: bv4, op: Byte)
    requires n <= 3
    ensures ((2 as bv2, n) in TABLES.escape) == (n != 2)
    ensures n != 2 ==> TABLES.escape[(2 as bv2, n)][op] == if n == 0 then Escape2Entry(op) else VariantEntry(2, if n == 1 then 0x66 else 0xf2, op)
  {
  }

  lemma ThirdMap(n: bv4, op: Byte)
    requires n <= 3
    ensures ((3 as bv2, n) in TABLES.escape) == (n <= 1)
    ensures n <= 1 ==> TABLES.escape[(3 as bv2, n)][op] == if n == 0 then Escape3Entry(op) else VariantEntry(3, 0x66, op)
  {
  }

  lemma EscapeLaw(op: Byte, last: Byte, a: Attr)
    requires a.esc != 0
    ensures EscapeAttribute(TABLES, op, last, a) == MapEntry(if a.esc == 1 then 1 else if a.esc == 2 then 2 else 3, last, op)
  {
    VariantNumber(last);
    var n := VariantOf(last);
    if a.esc == 1 {
      FirstMap(0, op);
      FirstMap(n, op);
    } else if a.esc == 2 {
      SecondMap(0, op);
      SecondMap(n, op);
    } else {
      ThirdMap(0, op);
      ThirdMap(n, op);
    }
  }

  lemma AvxLaw(op: Byte, m: int, p: int)
    requires 0 <= m < 32 && 0 <= p < 4
    ensures AvxAttribute(TABLES, op, m, p) == VexEntry(m, p, op)
  {
  }

  lemma PrimaryEscapesLow(op: Byte)
    requires op < 0x80
    ensures PrimaryLow(op).esc == if op == 0x0f then 1 else 0
  {
  }

  lemma PrimaryEscapesHigh(op: Byte)
    requires op >= 0x80
    ensures PrimaryHigh(op).esc == 0
  {
  }

  lemma PrimaryEscapes(op: Byte)
    ensures TABLES.primary[op] == PrimaryEntry(op) && PrimaryEntry(op).esc == if op == 0x0f then 1 else 0
  {
    assert TABLES.primary[op] == PrimaryEntry(op);
    if op < 0x80 {
      PrimaryEscapesLow(op);
    } else {
      PrimaryEscapesHigh(op);
    }
  }

  lemma FirstMapEscapes(last: Byte, op: Byte)
    ensures MapEntry(1, last, op).esc == if op == 0x38 then 2 else if op == 0x3a then 3 else 0
  {
  }

  lemma OtherMapsEnd(level: int, last: Byte, op: Byte)
    requires level == 2 || level == 3
    ensures MapEntry(level, last, op).esc == 0
  {
  }

  /** The escape loop from behind the first opcode byte at o. */
  lemma EscapesLaw(c: seq<Byte>, s: State, o: nat)
    requires EscapesRanked(TABLES) && s.next == o + 1 && s.opcode.nbytes == 1 && s.attr == PrimaryEntry(At(c, o))
    requires s.opcode.nbytes + EscRank(s.attr.esc) <= 3
    ensures var r := Escapes(TABLES, c, s);
      r.opcode.nbytes == OpcodeLength(c, o) && Unless(r.attr.vexOnly, r.attr) == PlainAttr(c, o, LastPrefix(s))
  {
    PrimaryEscapes(At(c, o));
    if s.attr.esc != 0 {
      var op, last := At(c, o + 1), LastPrefix(s);
      EscapeLaw(op, last, s.attr);
      FirstMapEscapes(last, op);
      SecondByte(c, EscapeStep(TABLES, c, s), o, last);
    }
  }

  /** The same loop from behind the second. */
  lemma SecondByte(c: seq<Byte>, s: State, o: nat, last: Byte)
    requires EscapesRanked(TABLES) && s.next == o + 2 && s.opcode.nbytes == 2 && s.attr == MapEntry(1, last, At(c, o + 1))
    requires s.opcode.nbytes + EscRank(s.attr.esc) <= 3 && LastPrefix(s) == last && At(c, o) == 0x0f
    ensures var r := Escapes(TABLES, c, s);
      r.opcode.nbytes == OpcodeLength(c, o) && Unless(r.attr.vexOnly, r.attr) == PlainAttr(c, o, last)
  {
    var op := At(c, o + 1);
    FirstMapEscapes(last, op);
    if s.attr.esc != 0 {
      EscapeLaw(At(c, o + 2), last, s.attr);
      OtherMapsEnd(if op == 0x38 then 2 else 3, last, At(c, o + 2));
      var r := EscapeStep(TABLES, c, s);
      assert Escapes(TABLES, c, r) == r;
    }
  }

  lemma PlainOpcode(c: seq<Byte>, p: State)
    requires EscapesRanked(TABLES) && !IsAvx(p)
    ensures var r := OpcodeStage(TABLES, c, p);
      r.opcode.nbytes == OpcodeLength(c, p.next) && r.attr == PlainAttr(c, p.next, LastPrefix(p))
  {
    var op := At(c, p.next);
    PrimaryEscapes(op);
    EscapesLaw(c, FirstOpcode(c, p).(attr := TABLES.primary[op]), p.next);
  }

  /** The bytes that VEX leaves in the struct are the ones before the opcode. */
  predicate VexBehind(c: seq<Byte>, p: State) {
    && p.vex.nbytes <= p.next
    && (p.vex.nbytes == 2 ==> p.vex.bytes[1] == At(c, p.next - 1))
    && (p.vex.nbytes == 3 ==> p.vex.bytes[1] == At(c, p.next - 2) && p.vex.bytes[2] == At(c, p.next - 1))
  }

  lemma VexOpcode(c: seq<Byte>, p: State)
    requires EscapesRanked(TABLES) && IsAvx(p) && 2 <= p.vex.nbytes <= 3 && VexBehind(c, p)
    ensures var r := OpcodeStage(TABLES, c, p);
      r.opcode.nbytes == 1 && r.attr == VexAttr(c, p.next, p.vex.nbytes)
  {
    AvxLaw(At(c, p.next), VexM(p), VexP(p));
  }

  lemma VexStageBehind(c: seq<Byte>, r: State)
    requires r.vex == NO_BYTES
    ensures VexBehind(c, VexStage(TABLES, c, r))
  {
  }

  lemma PrefixStageBehind(c: seq<Byte>, x64: bool)
    requires PrefixesSound(TABLES)
    ensures var p := PrefixStage(TABLES, c, Init(x64)); VexBehind(c, p) && IsAvx(p) == (p.vex.nbytes != 0)
  {
    NoVexYet(TABLES, c, Init(x64));
    VexStageBehind(c, RexStage(TABLES, c, LegacyStage(TABLES, c, Init(x64))));
    VexRecorded(TABLES, c, Init(x64));
  }

  /** The bytes of the opcode and the attribute the maps give it, before a group refines it. */
  lemma OpcodeLaw(c: seq<Byte>, x64: bool)
    ensures WellFormed(TABLES)
    ensures var s, p, a := FullDecode(TABLES, c, x64), Chain(TABLES, c, x64, PREFIXES), Chain(TABLES, c, x64, OPCODE).attr;
      && s.opcode.nbytes == (if s.vex.nbytes != 0 then 1 else OpcodeLength(c, p.next))
      && s.vex.nbytes <= p.next && s.vex.nbytes != 1 && s.vex.nbytes <= 3
      && a == if s.vex.nbytes != 0 then VexAttr(c, p.next, s.vex.nbytes) else PlainAttr(c, p.next, LastPrefix(s))
  {
    TablesWellFormed();
    PrefixStageBehind(c, x64);
    PrefixStageLaw(c, x64);
    PrefixesKept(TABLES, c, x64);
    ChainUnfold(TABLES, c, x64, PREFIXES);
    ChainUnfold(TABLES, c, x64, OPCODE);
    ChainFrame(TABLES, c, x64, OPCODE, OPCODE, LENGTH);
    var p := Chain(TABLES, c, x64, PREFIXES);
    if p.vex.nbytes != 0 {
      VexOpcode(c, p);
    } else {
      PlainOpcode(c, p);
    }
  }

  /** A ModRM byte goes with the opcode's attribute, and refines the attribute of a group. */
  lemma ModrmLaw(t: Tables, c: seq<Byte>, x64: bool)
    requires WellFormed(t)
    ensures var s, a := FullDecode(t, c, x64), Chain(t, c, x64, OPCODE).attr;
      && s.modrm.nbytes == (if a.modrm then 1 else 0) && 0 <= s.modrm.value < 256
      && s.attr == if a.modrm && a.grp != 0 then GroupAttribute(t, s.modrm.value, LastPrefix(s), a) else a
  {
    LateStages(t, c, x64);
    ChainUnfold(t, c, x64, MODRM);
    ChainBlank(t, c, x64, MODRM, OPCODE);
    ChainFrame(t, c, x64, PREFIXES, OPCODE, LENGTH);
    ModrmByte(t, c, Chain(t, c, x64, OPCODE));
    AttrBehindModrm(t, c, Chain(t, c, x64, OPCODE));
  }

  lemma AttrBehindModrm(t: Tables, c: seq<Byte>, s: State)
    requires s.modrm == NO_VALUE
    ensures var m := ModrmStage(t, c, s);
      && 0 <= m.modrm.value < 256
      && m.attr == (if s.attr.modrm && s.attr.grp != 0 then GroupAttribute(t, m.modrm.value, LastPrefix(s), s.attr) else s.attr)
      && LastPrefix(m) == LastPrefix(s)
  {
  }

  /** The eight ModRM bytes that address by the instruction pointer, always with four bytes of displacement. */
  lemma RipRelativeBytes(t: Tables, c: seq<Byte>)
    requires WellFormed(t)
    ensures var s := FullDecode(t, c, true);
      && (RipRelative(s) <==> s.modrm.nbytes != 0 && s.modrm.value in {0x05, 0x0d, 0x15, 0x1d, 0x25, 0x2d, 0x35, 0x3d})
      && (RipRelative(s) ==> s.sib.nbytes == 0 && s.disp.nbytes == 4)
  {
    AddressingBytes(t, c, true);
    PrefixScan.SizesSane(t, c, true, LENGTH);
    PrefixesKept(t, c, true);
    RipBytes(FullDecode(t, c, true).modrm.value);
  }

  lemma RipBytes(b: int)
    requires 0 <= b < 256
    ensures (Mod(b) == 0 && Rm(b) == 5) == (b in {0x05, 0x0d, 0x15, 0x1d, 0x25, 0x2d, 0x35, 0x3d})
    ensures Mod(b) == 0 && Rm(b) == 5 ==> b < 0x40 && b % 8 == 5
  {
  }
}
