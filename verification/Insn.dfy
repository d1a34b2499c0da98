/**
 * The lazy decoder: struct insn with getters that decode as much as is asked
 * for and remember it. Whatever getters run, in whatever order and however
 * often, the struct is always the one after the first k stages, where k is the
 * furthest stage requested so far.
 */
module InsnDecoder {
  import opened Bytes
  import opened Inat
  import opened Decode
  import opened Locality
  import RoundTrip

  /** The fields that exist at stage k are marked got, the others are not. */
  ghost predicate GotFlags(s: State, k: nat) {
    && s.prefixes.got == (k >= PREFIXES) && s.opcode.got == (k >= OPCODE) && s.modrm.got == (k >= MODRM)
    && s.sib.got == (k >= SIB) && s.disp.got == (k >= DISP) && s.imm1.got == (k >= IMM)
    && (k < LENGTH ==> s.length == 0)
  }

  lemma PrefixFlags(t: Tables, c: seq<Byte>, s: State)
    requires t.primary[0].pfx == 0 && GotFlags(s, 0)
    ensures GotFlags(PrefixStage(t, c, s), 1)
  {
    RoundTrip.PrefixFrame(t, c, s);
    RoundTrip.VexFrame(t, c, RexStage(t, c, LegacyStage(t, c, s)));
    assert PrefixStage(t, c, s).prefixes.got;
  }

  lemma StageFlags(t: Tables, c: seq<Byte>, s: State, k: nat)
    requires WellFormed(t) && 2 <= k <= LENGTH && GotFlags(s, k - 1)
    ensures GotFlags(Stage(t, c, k, s), k)
  {
    if k == OPCODE {
      RoundTrip.OpcodeFrame(t, c, s);
    } else if k == MODRM {
      ModrmFlags(t, c, s);
    } else if k == DISP {
      assert DispStage(c, s) == s.(disp := DispStage(c, s).disp, next := DispStage(c, s).next);
    } else if k == IMM {
      RoundTrip.ImmFrame(c, s);
    }
  }

  lemma ModrmFlags(t: Tables, c: seq<Byte>, s: State)
    ensures var r := ModrmStage(t, c, s);
      r == s.(modrm := r.modrm, attr := r.attr, opnd := r.opnd, next := r.next) && r.modrm.got
  {
  }

  lemma ChainFlags(t: Tables, c: seq<Byte>, x64: bool, k: nat)
    requires WellFormed(t) && k <= LENGTH
    ensures GotFlags(Chain(t, c, x64, k), k)
  {
    var j := 0;
    while j < k
      invariant 0 <= j <= k && GotFlags(Chain(t, c, x64, j), j)
    {
      j := j + 1;
      ChainUnfold(t, c, x64, j);
      if j == 1 {
        PrefixFlags(t, c, Chain(t, c, x64, 0));
      } else {
        StageFlags(t, c, Chain(t, c, x64, j - 1), j);
      }
    }
  }

  function Max(a: nat, b: nat): nat {
    if a < b then b else a
  }

  class Insn {
    const tables: Tables
    const code: seq<Byte>
    const x64: bool
    var prefixes: ByteField
    var rex: ValueField
    var vex: ByteField
    var opcode: ByteField
    var modrm: ValueField
    var sib: ValueField
    var disp: ValueField
    var imm1: ValueField
    var imm2: ValueField
    var attr: Attr
    var opnd: bv8
    var addr: bv8
    var length: nat
    var next: nat
    ghost var stage: nat

    ghost function View(): State
      reads this
    {
      State(prefixes, rex, vex, opcode, modrm, sib, disp, imm1, imm2, attr, opnd, addr, length, x64, next)
    }

    ghost predicate Valid()
      reads this
    {
      WellFormed(tables) && stage <= LENGTH && View() == Chain(tables, code, x64, stage)
    }

    /** insn_init: code is the memory from kaddr on. */
    constructor (t: Tables, c: seq<Byte>, mode64: bool)
      requires WellFormed(t)
      ensures Valid() && stage == 0 && tables == t && code == c && x64 == mode64
    {
      tables, code, x64 := t, c, mode64;
      prefixes, rex, vex, opcode := NO_BYTES, NO_VALUE, NO_BYTES, NO_BYTES;
      modrm, sib, disp, imm1, imm2 := NO_VALUE, NO_VALUE, NO_VALUE, NO_VALUE, NO_VALUE;
      attr, opnd, addr, length, next := NIL, 4, if mode64 then 8 else 4, 0, 0;
      stage := 0;
    }

    /** The struct while k is the state of the prefix scan. */
    ghost predicate Scanning(k: Scan)
      reads this
    {
      prefixes == ByteField(k.bytes, false, k.pos % 256) && opnd == k.opnd && addr == k.addr && next == k.pos
    }

    method IsStored(b: Byte, nb: nat) returns (found: bool)
      requires nb <= 4
      ensures found == (b in prefixes.bytes[..nb])
    {
      var i := 0;
      while i < nb
        invariant i <= nb && b !in prefixes.bytes[..i]
      {
        if prefixes.bytes[i] == b {
          return true;
        }
        i := i + 1;
      }
      found := false;
    }

    method StorePrefix(b: Byte, nb: nat)
      requires nb < 4
      modifies this`prefixes, this`opnd, this`addr
      ensures prefixes == old(prefixes).(bytes := old(prefixes).bytes[nb := b])
      ensures addr == if tables.primary[b].pfx == PFX_ADDRSZ then old(addr) ^ (if x64 then 12 else 6) else old(addr)
      ensures opnd == if tables.primary[b].pfx == PFX_OPNDSZ then old(opnd) ^ 6 else old(opnd)
    {
      prefixes := prefixes.(bytes := prefixes.bytes[nb := b]);
      if tables.primary[b].pfx == PFX_ADDRSZ {
        addr := addr ^ (if x64 then 12 else 6);
      } else if tables.primary[b].pfx == PFX_OPNDSZ {
        opnd := opnd ^ 6;
      }
    }

    method SkipPrefix(ghost k: Scan)
      requires Scanning(k)
      modifies this`prefixes, this`next
      ensures Scanning(k.(pos := k.pos + 1))
    {
      prefixes := prefixes.(nbytes := (prefixes.nbytes + 1) % 256);
      next := next + 1;
    }

    /** The scan over legacy prefixes, storing each distinct one. */
    method ScanLegacy() returns (nb: nat, last: Byte)
      requires tables.primary[0].pfx == 0
      requires Scanning(ScanInit(4, if x64 then 8 else 4))
      modifies this`prefixes, this`opnd, this`addr, this`next
      ensures var k := ScanFrom(tables, code, x64, ScanInit(4, if x64 then 8 else 4));
        nb == k.nb && last == k.last && Scanning(k)
    {
      ghost var k := ScanInit(opnd, addr);
      ghost var end := ScanFrom(tables, code, x64, k);
      nb, last := 0, 0;
      var b := At(code, next);
      while IsLegacyPrefix(tables.primary[b])
        invariant k.nb == nb <= 4 && k.last == last && b == At(code, k.pos)
        invariant Scanning(k) && ScanFrom(tables, code, x64, k) == end
        decreases if k.pos < |code| then |code| - k.pos else 0
      {
        ghost var j := ScanTurn(tables, code, x64, k);
        var found := IsStored(b, nb);
        if !found {
          if nb == 4 {
            break;
          }
          StorePrefix(b, nb);
          k := Record(tables, x64, k, b).(pos := k.pos);
          nb := nb + 1;
        }
        SkipPrefix(k);
        last := b;
        k := k.(pos := k.pos + 1, last := b);
        assert j == Go(k);
        b := At(code, next);
      }
    }

    /** Moves the last prefix into bytes[3], swapping if that slot is taken. */
    method SwapLast(nb: nat, last: Byte)
      requires nb <= 4
      modifies this`prefixes
      ensures prefixes == old(prefixes).(bytes := SetLast(old(prefixes).bytes, nb, last))
    {
      if last != 0 && last != prefixes.bytes[3] {
        if prefixes.bytes[3] != 0 {
          var b := prefixes.bytes[3];
          var i := 0;
          while i < nb
            invariant i <= nb
            invariant prefixes == old(prefixes).(bytes := Replace(old(prefixes).bytes, i, last, b))
          {
            if prefixes.bytes[i] == last {
              prefixes := prefixes.(bytes := prefixes.bytes[i := b]);
            }
            i := i + 1;
          }
        }
        prefixes := prefixes.(bytes := prefixes.bytes[3 := last]);
      }
    }

    method ReadRex()
      modifies this`rex, this`opnd, this`next
      ensures View() == RexStage(tables, code, old(View()))
    {
      if x64 {
        var b := At(code, next);
        if IsRexPrefix(tables.primary[b]) {
          rex := rex.(value := b, nbytes := 1);
          next := next + 1;
          if b / 8 % 2 == 1 {
            opnd := 8;
          }
        }
      }
      rex := rex.(got := true);
    }

    method ReadVex()
      requires vex.bytes == ZERO_QUAD
      modifies this`prefixes, this`vex, this`opnd, this`next
      ensures View() == VexStage(tables, code, old(View()))
    {
      var b := At(code, next);
      if IsVexPrefix(tables.primary[b]) {
        var b1 := At(code, next + 1);
        if x64 || b1 / 64 == 3 {
          TakeVex(b, b1);
        }
      }
      vex := vex.(got := true);
      prefixes := prefixes.(got := true);
    }

    method TakeVex(b: Byte, b1: Byte)
      requires vex.bytes == ZERO_QUAD
      modifies this`vex, this`opnd, this`next
      ensures var b2 := At(code, old(next) + 2);
        if tables.primary[b].pfx == PFX_VEX3 then
          && vex == ByteField([b, b1, b2, 0], old(vex).got, 3) && next == old(next) + 3
          && opnd == if x64 && b2 >= 0x80 then 8 else old(opnd)
        else vex == ByteField([b, b1, 0, 0], old(vex).got, 2) && next == old(next) + 2 && opnd == old(opnd)
    {
      vex := vex.(bytes := vex.bytes[0 := b][1 := b1]);
      if tables.primary[b].pfx == PFX_VEX3 {
        var b2 := At(code, next + 2);
        vex := vex.(bytes := vex.bytes[2 := b2], nbytes := 3);
        next := next + 3;
        if x64 && b2 >= 0x80 {
          opnd := 8;
        }
      } else {
        vex := vex.(nbytes := 2);
        next := next + 2;
      }
    }

    method ReadLegacy()
      requires tables.primary[0].pfx == 0 && View() == Init(x64)
      modifies this`prefixes, this`opnd, this`addr, this`next
      ensures View() == LegacyStage(tables, code, Init(x64))
    {
      var nb, last := ScanLegacy();
      SwapLast(nb, last);
    }

    method GetPrefixes()
      requires Valid()
      modifies this
      ensures Valid() && stage == Max(old(stage), PREFIXES)
    {
      ChainFlags(tables, code, x64, stage);
      if prefixes.got {
        return;
      }
      ReadLegacy();
      ReadRex();
      ReadVex();
      stage := PREFIXES;
      ChainUnfold(tables, code, x64, PREFIXES);
    }

    method ReadEscape()
      requires EscapesRanked(tables) && attr.esc != 0 && opcode.nbytes + EscRank(attr.esc) <= 3
      modifies this`opcode, this`attr, this`next
      ensures View() == EscapeStep(tables, code, old(View()))
    {
      var op := At(code, next);
      next := next + 1;
      opcode := opcode.(bytes := opcode.bytes[opcode.nbytes := op], nbytes := opcode.nbytes + 1);
      attr := EscapeAttribute(tables, op, prefixes.bytes[3], attr);
    }

    /** Reads the remaining opcode bytes, following escapes. */
    method ReadEscapes()
      requires EscapesRanked(tables) && opcode.nbytes + EscRank(attr.esc) <= 3
      modifies this`opcode, this`attr, this`next
      ensures View() == Escapes(tables, code, old(View()))
    {
      while attr.esc != 0
        invariant opcode.nbytes + EscRank(attr.esc) <= 3
        invariant Escapes(tables, code, View()) == Escapes(tables, code, old(View()))
        decreases EscRank(attr.esc)
      {
        ReadEscape();
      }
    }

    method ReadFirstOpcode() returns (op: Byte)
      modifies this`opcode, this`next
      ensures op == old(At(code, next)) && View() == FirstOpcode(code, old(View()))
    {
      op := At(code, next);
      next := next + 1;
      opcode := opcode.(bytes := opcode.bytes[0 := op], nbytes := 1);
    }

    /** VEX has one opcode byte, looked up by the m and p bits. */
    method ReadAvx(op: Byte)
      modifies this`attr
      ensures var a := AvxAttribute(tables, op, VexM(View()), VexP(View()));
        View() == old(View()).(attr := if a.vexOk then a else NIL)
    {
      var m := if vex.nbytes == 2 then 1 else vex.bytes[1] % 32;
      var p := if vex.nbytes == 2 then vex.bytes[1] % 4 else vex.bytes[2] % 4;
      attr := AvxAttribute(tables, op, m, p);
      if !attr.vexOk {
        attr := NIL;
      }
    }

    method ReadOpcode()
      requires EscapesRanked(tables)
      modifies this`opcode, this`attr, this`next
      ensures View() == OpcodeStage(tables, code, old(View()))
    {
      var op := ReadFirstOpcode();
      if vex.bytes != ZERO_QUAD {
        ReadAvx(op);
      } else {
        attr := tables.primary[op];
        ReadEscapes();
        if attr.vexOnly {
          attr := NIL;
        }
      }
      opcode := opcode.(got := true);
    }

    method GetOpcode()
      requires Valid()
      modifies this
      ensures Valid() && stage == Max(old(stage), OPCODE)
    {
      ChainFlags(tables, code, x64, stage);
      if opcode.got {
        return;
      }
      if !prefixes.got {
        GetPrefixes();
      }
      ReadOpcode();
      stage := OPCODE;
      ChainUnfold(tables, code, x64, OPCODE);
    }

    method ReadModrm()
      modifies this`modrm, this`attr, this`opnd, this`next
      ensures View() == ModrmStage(tables, code, old(View()))
    {
      if attr.modrm {
        var b := At(code, next);
        next := next + 1;
        modrm := modrm.(value := b, nbytes := 1);
        if attr.grp != 0 {
          attr := GroupAttribute(tables, b, prefixes.bytes[3], attr);
        }
      }
      if x64 && attr.force64 {
        opnd := 8;
      }
      modrm := modrm.(got := true);
    }

    method GetModrm()
      requires Valid()
      modifies this
      ensures Valid() && stage == Max(old(stage), MODRM)
    {
      ChainFlags(tables, code, x64, stage);
      if modrm.got {
        return;
      }
      if !opcode.got {
        GetOpcode();
      }
      ReadModrm();
      stage := MODRM;
      ChainUnfold(tables, code, x64, MODRM);
    }

    /** insn_rip_relative: in 64-bit code, ModRM with mod 0 and r/m 5. */
    method IsRipRelative() returns (r: bool)
      requires Valid()
      modifies this
      ensures Valid() && stage == if x64 then Max(old(stage), MODRM) else old(stage)
      ensures r == (x64 && RipRelative(View()))
      ensures old(stage) >= MODRM ==> View() == old(View())
    {
      if !x64 {
        return false;
      }
      ChainFlags(tables, code, x64, stage);
      if !modrm.got {
        GetModrm();
      }
      r := modrm.nbytes != 0 && Mod(modrm.value) == 0 && Rm(modrm.value) == 5;
    }

    method ReadSib()
      modifies this`sib, this`next
      ensures View() == SibStage(code, old(View()))
    {
      if modrm.nbytes != 0 {
        if addr != 2 && Mod(modrm.value) != 3 && Rm(modrm.value) == 4 {
          sib := sib.(value := At(code, next), nbytes := 1);
          next := next + 1;
        }
      }
      sib := sib.(got := true);
    }

    method GetSib()
      requires Valid()
      modifies this
      ensures Valid() && stage == Max(old(stage), SIB)
    {
      ChainFlags(tables, code, x64, stage);
      if sib.got {
        return;
      }
      if !modrm.got {
        GetModrm();
      }
      ReadSib();
      stage := SIB;
      ChainUnfold(tables, code, x64, SIB);
    }

    method ReadDisp()
      modifies this`disp, this`next
      ensures View() == DispStage(code, old(View()))
    {
      if modrm.nbytes != 0 {
        var mod, rm, base := Mod(modrm.value), Rm(modrm.value), sib.value % 8;
        if mod == 3 {
        } else if mod == 1 {
          disp := disp.(value := S8(At(code, next)), nbytes := 1);
          next := next + 1;
        } else if addr == 2 {
          if (mod == 0 && rm == 6) || mod == 2 {
            disp := disp.(value := S16(code, next), nbytes := 2);
            next := next + 2;
          }
        } else if (mod == 0 && rm == 5) || mod == 2 || (mod == 0 && base == 5) {
          disp := disp.(value := S32(code, next), nbytes := 4);
          next := next + 4;
        }
      }
      disp := disp.(got := true);
    }

    method GetDisplacement()
      requires Valid()
      modifies this
      ensures Valid() && stage == Max(old(stage), DISP)
    {
      ChainFlags(tables, code, x64, stage);
      if disp.got {
        return;
      }
      if !sib.got {
        GetSib();
      }
      ReadDisp();
      stage := DISP;
      ChainUnfold(tables, code, x64, DISP);
    }

    method ReadImm1(n: nat)
      requires n == 1 || n == 2 || n == 4
      modifies this`imm1, this`next
      ensures View() == TakeImm1(code, old(View()), n)
    {
      imm1 := imm1.(value := SignedAt(code, next, n), nbytes := n);
      next := next + n;
    }

    method ReadImm2(value: int, n: nat)
      modifies this`imm2, this`next
      ensures View() == TakeImm2(old(View()), value, n)
    {
      imm2 := imm2.(value := value, nbytes := n);
      next := next + n;
    }

    /** __get_moffset */
    method ReadMoffset()
      modifies this`imm1, this`imm2, this`next
      ensures View() == Apply(code, old(View()), MoffsetPlan(addr))
    {
      if addr == 2 {
        ReadImm1(2);
      } else if addr == 4 {
        ReadImm1(4);
      } else if addr == 8 {
        ReadImm1(4);
        ReadImm2(S32(code, next), 4);
      }
      imm1, imm2 := imm1.(got := true), imm2.(got := true);
    }

    /** __get_immv32 */
    method ReadImmV32()
      modifies this`imm1, this`next
      ensures View() == Apply(code, old(View()), V32Plan(opnd))
    {
      if opnd == 2 {
        ReadImm1(2);
      } else if opnd == 4 || opnd == 8 {
        ReadImm1(4);
      }
    }

    /** __get_immv */
    method ReadImmV()
      modifies this`imm1, this`imm2, this`next
      ensures View() == Apply(code, old(View()), VPlan(opnd))
    {
      if opnd == 2 {
        ReadImm1(2);
      } else if opnd == 4 {
        ReadImm1(4);
      } else if opnd == 8 {
        ReadImm1(4);
        ReadImm2(S32(code, next), 4);
      }
      imm1, imm2 := imm1.(got := true), imm2.(got := true);
    }

    /** __get_immptr */
    method ReadImmPtr()
      modifies this`imm1, this`imm2, this`next
      ensures View() == Apply(code, old(View()), PtrPlan(opnd))
    {
      if opnd == 2 {
        ReadImm1(2);
      } else if opnd == 4 {
        ReadImm1(4);
      } else if opnd == 8 {
        return;
      }
      ReadImm2(U16(code, next), 2);
      imm1, imm2 := imm1.(got := true), imm2.(got := true);
    }

    method ReadFirstImm()
      requires attr.imm != 0
      modifies this`imm1, this`imm2, this`next
      ensures View() == Apply(code, old(View()), FirstPlan(attr.imm, opnd))
    {
      var k := attr.imm;
      if k == IMM_BYTE {
        ReadImm1(1);
      } else if k == IMM_WORD {
        ReadImm1(2);
      } else if k == IMM_DWORD {
        ReadImm1(4);
      } else if k == IMM_QWORD {
        ReadImm1(4);
        ReadImm2(S32(code, next), 4);
      } else if k == IMM_PTR {
        ReadImmPtr();
      } else if k == IMM_VWORD32 {
        ReadImmV32();
      } else {
        ReadImmV();
      }
    }

    method ReadImmediates()
      modifies this`imm1, this`imm2, this`next
      ensures View() == ImmStage(code, old(View()))
    {
      if attr.moffset {
        ReadMoffset();
      } else if attr.imm != 0 {
        ReadFirstImm();
        if attr.scndImm {
          ReadImm2(S8(At(code, next)), 1);
        }
      }
      imm1 := imm1.(got := true);
    }

    method GetImmediate()
      requires Valid()
      modifies this
      ensures Valid() && stage == Max(old(stage), IMM)
    {
      ChainFlags(tables, code, x64, stage);
      if imm1.got {
        return;
      }
      if !disp.got {
        GetDisplacement();
      }
      ReadImmediates();
      stage := IMM;
      ChainUnfold(tables, code, x64, IMM);
    }

    /** A length of 0 (mod 256) is recomputed, to the same value. */
    method GetLength()
      requires Valid()
      modifies this
      ensures Valid() && stage == LENGTH && View() == FullDecode(tables, code, x64)
    {
      ChainFlags(tables, code, x64, stage);
      if length != 0 {
        return;
      }
      if !imm1.got {
        GetImmediate();
      }
      ghost var s := View();
      length := next % 256;
      ChainUnfold(tables, code, x64, LENGTH);
      assert View() == if stage == LENGTH then s else LengthStage(s);
      stage := LENGTH;
    }
  }

  // ---- Any getters, in any order ----

  datatype Getter = Prefixes | Avx | Opcode | Modrm | Attribute | RipRel | Sib | Displacement | Immediate | Length

  /** The stage a getter asks for. insn_rip_relative asks for nothing in 32-bit code. */
  function Wants(g: Getter, x64: bool): nat {
    match g
    case Prefixes => PREFIXES
    case Avx => PREFIXES
    case Opcode => OPCODE
    case Modrm => MODRM
    case Attribute => MODRM
    case RipRel => if x64 then MODRM else 0
    case Sib => SIB
    case Displacement => DISP
    case Immediate => IMM
    case Length => LENGTH
  }

  function Furthest(gs: seq<Getter>, x64: bool): nat {
    if gs == [] then 0 else Max(Furthest(gs[..|gs| - 1], x64), Wants(gs[|gs| - 1], x64))
  }

  method Call(insn: Insn, g: Getter)
    requires insn.Valid()
    modifies insn
    ensures insn.Valid() && insn.stage == Max(old(insn.stage), Wants(g, insn.x64))
  {
    match g
    case Prefixes => insn.GetPrefixes();
    case Avx => insn.GetPrefixes();
    case Opcode => insn.GetOpcode();
    case Modrm => insn.GetModrm();
    case Attribute => insn.GetModrm();
    case RipRel => var _ := insn.IsRipRelative();
    case Sib => insn.GetSib();
    case Displacement => insn.GetDisplacement();
    case Immediate => insn.GetImmediate();
    case Length => insn.GetLength();
  }

  /** Lazy decoding is confluent: the struct after any calls is the chain up to the furthest stage asked for. */
  method CallAll(insn: Insn, gs: seq<Getter>)
    requires insn.Valid() && insn.stage == 0
    modifies insn
    ensures insn.Valid()
    ensures insn.View() == Chain(insn.tables, insn.code, insn.x64, Furthest(gs, insn.x64))
  {
    for i := 0 to |gs|
      invariant insn.Valid() && insn.stage == Furthest(gs[..i], insn.x64)
    {
      Call(insn, gs[i]);
      assert gs[..i + 1][..i] == gs[..i] && gs[..i + 1][i] == gs[i];
    }
    assert gs[..|gs|] == gs;
  }

  /** Order and repetition do not matter: only which getters were called. */
  lemma FurthestIsMax(gs: seq<Getter>, x64: bool)
    ensures forall g :: g in gs ==> Wants(g, x64) <= Furthest(gs, x64)
    ensures Furthest(gs, x64) == 0 || exists g :: g in gs && Wants(g, x64) == Furthest(gs, x64)
  {
    if gs != [] {
      FurthestIsMax(gs[..|gs| - 1], x64);
      assert gs == gs[..|gs| - 1] + [gs[|gs| - 1]];
    }
  }

  lemma {:induction false} FurthestOrderFree(gs: seq<Getter>, hs: seq<Getter>, x64: bool)
    requires forall g :: g in gs <==> g in hs
    ensures Furthest(gs, x64) == Furthest(hs, x64)
  {
    FurthestIsMax(gs, x64);
    FurthestIsMax(hs, x64);
  }

  /** Whatever was called before, a final insn_get_length gives the struct it gives when called alone. */
  lemma {:induction false} LengthLast(gs: seq<Getter>, x64: bool)
    ensures Furthest(gs + [Length], x64) == LENGTH == Furthest([Length], x64)
  {
    FurthestIsMax(gs + [Length], x64);
    assert Length in gs + [Length];
  }
}
