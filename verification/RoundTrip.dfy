/**
 * Re-encoding a decoded instruction gives back its bytes, and every
 * insn_offset_* sum is the position where its field starts.
 */
module RoundTrip {
  import opened Bytes
  import opened Inat
  import opened Decode
  import opened Locality

  function Take(q: Quad, n: nat): (r: seq<Byte>)
    ensures n <= 4 ==> |r| == n
  {
    if n <= 4 then q[..n] else q
  }

  /** The bytes that the fields of stage k stand for. */
  function Own(s: State, k: nat): seq<Byte> {
    if k == PREFIXES then LE(s.rex.value, s.rex.nbytes) + Take(s.vex.bytes, s.vex.nbytes)
    else if k == OPCODE then Take(s.opcode.bytes, s.opcode.nbytes)
    else if k == MODRM then LE(s.modrm.value, s.modrm.nbytes)
    else if k == SIB then LE(s.sib.value, s.sib.nbytes)
    else if k == DISP then LE(s.disp.value, s.disp.nbytes)
    else if k == IMM then LE(s.imm1.value, s.imm1.nbytes) + LE(s.imm2.value, s.imm2.nbytes)
    else []
  }

  /** REX, VEX, opcode, ModRM, SIB, displacement and immediates, up to stage k. */
  function Encoding(s: State, k: nat): seq<Byte> {
    if k == 0 then [] else Encoding(s, k - 1) + Own(s, k)
  }

  function Reencode(s: State): seq<Byte> {
    Encoding(s, IMM)
  }

  // ---- Each stage writes its own fields and no others ----

  predicate SameField(s: State, r: State, k: nat) {
    if k == PREFIXES then s.prefixes == r.prefixes && s.rex == r.rex && s.vex == r.vex
    else if k == OPCODE then s.opcode == r.opcode
    else if k == MODRM then s.modrm == r.modrm
    else if k == SIB then s.sib == r.sib
    else if k == DISP then s.disp == r.disp
    else s.imm1 == r.imm1 && s.imm2 == r.imm2
  }

  predicate Blank(s: State, k: nat) {
    if k == PREFIXES then s.prefixes == NO_BYTES && s.rex == NO_VALUE && s.vex == NO_BYTES
    else if k == OPCODE then s.opcode == NO_BYTES
    else if k == MODRM then s.modrm == NO_VALUE
    else if k == SIB then s.sib == NO_VALUE
    else if k == DISP then s.disp == NO_VALUE
    else s.imm1 == NO_VALUE && s.imm2 == NO_VALUE
  }

  lemma {:induction false} EscapesFrame(t: Tables, c: seq<Byte>, s: State)
    requires EscapesRanked(t)
    requires s.opcode.nbytes + EscRank(s.attr.esc) <= 3
    ensures var r := Escapes(t, c, s);
      r == s.(opcode := r.opcode, attr := r.attr, next := r.next)
    decreases EscRank(s.attr.esc)
  {
    if s.attr.esc != 0 {
      EscapesFrame(t, c, EscapeStep(t, c, s));
    }
  }

  lemma OpcodeFrame(t: Tables, c: seq<Byte>, s: State)
    requires EscapesRanked(t)
    ensures var r := OpcodeStage(t, c, s);
      r == s.(opcode := r.opcode, attr := r.attr, next := r.next)
  {
    if !IsAvx(s) {
      EscapesFrame(t, c, FirstOpcode(c, s).(attr := t.primary[At(c, s.next)]));
    }
  }

  lemma ImmFrame(c: seq<Byte>, s: State)
    ensures var r := ImmStage(c, s);
      r == s.(imm1 := r.imm1, imm2 := r.imm2, next := r.next)
  {
    ApplyFrame(c, s, ImmPlan(s));
  }

  lemma StageFrame(t: Tables, c: seq<Byte>, k: nat, s: State, j: nat)
    requires WellFormed(t) && 2 <= k && 1 <= j <= IMM && j != k
    ensures SameField(s, Stage(t, c, k, s), j)
  {
    if k == OPCODE {
      OpcodeFrame(t, c, s);
    } else if k == IMM {
      ImmFrame(c, s);
    }
  }

  lemma PrefixFrame(t: Tables, c: seq<Byte>, s: State)
    requires t.primary[0].pfx == 0
    ensures var r := PrefixStage(t, c, s);
      r == s.(prefixes := r.prefixes, rex := r.rex, vex := r.vex, opnd := r.opnd, addr := r.addr, next := r.next)
  {
    var l := LegacyStage(t, c, s);
    assert l == s.(prefixes := l.prefixes, opnd := l.opnd, addr := l.addr, next := l.next);
    RexFrame(t, c, l);
    VexFrame(t, c, RexStage(t, c, l));
  }

  lemma RexFrame(t: Tables, c: seq<Byte>, s: State)
    ensures var r := RexStage(t, c, s); r == s.(rex := r.rex, opnd := r.opnd, next := r.next)
  {
  }

  lemma VexFrame(t: Tables, c: seq<Byte>, s: State)
    ensures var r := VexStage(t, c, s); r == s.(prefixes := r.prefixes, vex := r.vex, opnd := r.opnd, next := r.next)
  {
  }

  lemma StepFrame(t: Tables, c: seq<Byte>, x64: bool, k: nat, j: nat)
    requires WellFormed(t) && 1 <= k && 1 <= j <= IMM && j != k
    ensures SameField(Chain(t, c, x64, k - 1), Chain(t, c, x64, k), j)
  {
    ChainUnfold(t, c, x64, k);
    if k == 1 {
      PrefixFrame(t, c, Chain(t, c, x64, 0));
    } else {
      StageFrame(t, c, k, Chain(t, c, x64, k - 1), j);
    }
  }

  lemma SameFieldTransitive(s: State, r: State, q: State, j: nat)
    requires SameField(s, r, j) && SameField(r, q, j)
    ensures SameField(s, q, j)
  {
  }

  /** Fields filled by stage i are still there after any later stage. */
  lemma {:induction false} ChainFrame(t: Tables, c: seq<Byte>, x64: bool, i: nat, j: nat, k: nat)
    requires WellFormed(t) && 1 <= i <= j <= k && i <= IMM
    ensures SameField(Chain(t, c, x64, j), Chain(t, c, x64, k), i)
    decreases k
  {
    if j < k {
      ChainFrame(t, c, x64, i, j, k - 1);
      StepFrame(t, c, x64, k, i);
      SameFieldTransitive(Chain(t, c, x64, j), Chain(t, c, x64, k - 1), Chain(t, c, x64, k), i);
    }
  }

  lemma BlankSame(s: State, r: State, j: nat)
    requires Blank(s, j) && SameField(s, r, j)
    ensures Blank(r, j)
  {
  }

  /** Fields of stages not reached yet are blank. */
  lemma {:induction false} ChainBlank(t: Tables, c: seq<Byte>, x64: bool, j: nat, k: nat)
    requires WellFormed(t) && k < j <= IMM
    ensures Blank(Chain(t, c, x64, k), j)
    decreases k
  {
    if k > 0 {
      ChainBlank(t, c, x64, j, k - 1);
      StepFrame(t, c, x64, k, j);
      BlankSame(Chain(t, c, x64, k - 1), Chain(t, c, x64, k), j);
    }
  }

  lemma {:induction false} EncodingSame(s: State, r: State, k: nat)
    requires k <= IMM && forall j | 1 <= j <= k :: SameField(s, r, j)
    ensures Encoding(s, k) == Encoding(r, k)
  {
    if k > 0 {
      EncodingSame(s, r, k - 1);
      assert SameField(s, r, k);
    }
  }

  // ---- What a stage writes is what it read ----

  lemma SliceSplit(c: seq<Byte>, from: nat, n: nat, m: nat)
    ensures Slice(c, from, n) + Slice(c, from + n, m) == Slice(c, from, n + m)
  {
    var l, r := Slice(c, from, n) + Slice(c, from + n, m), Slice(c, from, n + m);
    forall i | 0 <= i < n + m
      ensures l[i] == r[i]
    {
    }
  }

  lemma SignedEncodes(c: seq<Byte>, i: nat, n: nat)
    requires n == 1 || n == 2 || n == 4
    ensures LE(SignedAt(c, i, n), n) == Slice(c, i, n)
  {
    if n == 1 {
      LE1(c, i);
    } else if n == 2 {
      LE2(c, i);
    } else {
      LE4(c, i);
    }
  }

  lemma PrefixOwn(t: Tables, c: seq<Byte>, x64: bool)
    requires t.primary[0].pfx == 0
    ensures var n, r := PrefixCount(t, c, x64), PrefixStage(t, c, Init(x64));
      r.next >= n && Own(r, PREFIXES) == Slice(c, n, r.next - n)
  {
    var l := LegacyStage(t, c, Init(x64));
    var x := RexStage(t, c, l);
    assert l.rex == NO_VALUE && l.vex == NO_BYTES && x.vex == NO_BYTES;
    assert LE(x.rex.value, x.rex.nbytes) == Slice(c, l.next, x.next - l.next) by {
      LE1(c, l.next);
    }
    VexOwn(t, c, x);
    var r := VexStage(t, c, x);
    SliceSplit(c, l.next, x.next - l.next, r.next - x.next);
  }

  lemma VexOwn(t: Tables, c: seq<Byte>, s: State)
    requires s.vex == NO_BYTES
    ensures var r := VexStage(t, c, s);
      && r.rex == s.rex && r.next == s.next + r.vex.nbytes && r.vex.nbytes <= 3
      && Take(r.vex.bytes, r.vex.nbytes) == Slice(c, s.next, r.vex.nbytes)
  {
    VexBytes(At(c, s.next), At(c, s.next + 1), At(c, s.next + 2), c, s.next);
  }

  lemma VexBytes(b: Byte, b1: Byte, b2: Byte, c: seq<Byte>, i: nat)
    requires b == At(c, i) && b1 == At(c, i + 1) && b2 == At(c, i + 2)
    ensures Take([b, b1, b2, 0], 3) == Slice(c, i, 3) && Take([b, b1, 0, 0], 2) == Slice(c, i, 2)
  {
    assert [b, b1, b2, 0][..3] == Slice(c, i, 3);
    assert [b, b1, 0, 0][..2] == Slice(c, i, 2);
  }

  lemma {:induction false} EscapesOwn(t: Tables, c: seq<Byte>, s: State, start: nat)
    requires EscapesRanked(t)
    requires s.opcode.nbytes + EscRank(s.attr.esc) <= 3
    requires start + s.opcode.nbytes == s.next && s.opcode.bytes[..s.opcode.nbytes] == Slice(c, start, s.opcode.nbytes)
    ensures var r := Escapes(t, c, s);
      r.opcode.bytes[..r.opcode.nbytes] == Slice(c, start, r.opcode.nbytes)
    decreases EscRank(s.attr.esc)
  {
    if s.attr.esc != 0 {
      var op, n, s1 := At(c, s.next), s.opcode.nbytes, EscapeStep(t, c, s);
      SliceSplit(c, start, n, 1);
      assert s1.opcode.bytes[..n + 1] == s.opcode.bytes[..n] + [op];
      assert Slice(c, start + n, 1) == [op];
      EscapesOwn(t, c, s1, start);
    }
  }

  lemma OpcodeOwn(t: Tables, c: seq<Byte>, s: State)
    requires EscapesRanked(t) && s.opcode == NO_BYTES
    ensures var r := OpcodeStage(t, c, s);
      && s.next < r.next && r.next == s.next + r.opcode.nbytes && r.opcode.nbytes <= 3
      && Own(r, OPCODE) == Slice(c, s.next, r.next - s.next)
  {
    var s1 := FirstOpcode(c, s);
    assert s1.opcode.bytes[..1] == Slice(c, s.next, 1);
    if !IsAvx(s) {
      EscapesOwn(t, c, s1.(attr := t.primary[At(c, s.next)]), s.next);
    }
  }

  lemma ModrmOwn(t: Tables, c: seq<Byte>, s: State)
    requires s.modrm == NO_VALUE
    ensures var r := ModrmStage(t, c, s);
      r.next == s.next + r.modrm.nbytes && Own(r, MODRM) == Slice(c, s.next, r.next - s.next)
  {
    LE1(c, s.next);
  }

  lemma SibOwn(c: seq<Byte>, s: State)
    requires s.sib == NO_VALUE
    ensures var r := SibStage(c, s);
      r.next == s.next + r.sib.nbytes && Own(r, SIB) == Slice(c, s.next, r.next - s.next)
  {
    LE1(c, s.next);
  }

  lemma DispOwn(c: seq<Byte>, s: State)
    requires s.disp == NO_VALUE
    ensures var r := DispStage(c, s);
      r.next == s.next + r.disp.nbytes && Own(r, DISP) == Slice(c, s.next, r.next - s.next)
  {
    if DispSize(s) != 0 {
      SignedEncodes(c, s.next, DispSize(s));
    }
  }

  lemma ApplyOwn(c: seq<Byte>, s: State, p: Plan)
    requires s.imm1 == NO_VALUE && s.imm2 == NO_VALUE && p.Sane()
    ensures var r := Apply(c, s, p);
      && r.imm1.nbytes == p.n1 && LE(r.imm1.value, p.n1) == Slice(c, s.next, p.n1)
      && r.imm2.nbytes == p.n2 && LE(r.imm2.value, p.n2) == Slice(c, s.next + p.n1, p.n2)
  {
    if p.n1 != 0 {
      SignedEncodes(c, s.next, p.n1);
    }
    if p.n2 == 4 {
      SignedEncodes(c, s.next + p.n1, 4);
    } else if p.n2 == 2 {
      LE2(c, s.next + p.n1);
    }
  }

  lemma PlanFree(s: State)
    requires SecondImmFree(s.attr) && TrailingByte(s.attr)
    ensures ImmPlan(s).n2 == 0
  {
  }

  /** Immediates with a trailing byte in the second field. */
  lemma TrailingOwn(c: seq<Byte>, s: State)
    requires s.imm1 == NO_VALUE && s.imm2 == NO_VALUE && SecondImmFree(s.attr) && TrailingByte(s.attr)
    ensures var r := Immediates(c, s);
      r.next >= s.next && LE(r.imm1.value, r.imm1.nbytes) + LE(r.imm2.value, r.imm2.nbytes) == Slice(c, s.next, r.next - s.next)
  {
    var p := ImmPlan(s);
    ApplyOwn(c, s, p);
    ImmNext(c, s);
    PlanFree(s);
    LE1(c, s.next + p.n1);
    SliceSplit(c, s.next, p.n1, 1);
  }

  lemma PlainOwn(c: seq<Byte>, s: State)
    requires s.imm1 == NO_VALUE && s.imm2 == NO_VALUE && !TrailingByte(s.attr)
    ensures var r := Immediates(c, s);
      r.next >= s.next && LE(r.imm1.value, r.imm1.nbytes) + LE(r.imm2.value, r.imm2.nbytes) == Slice(c, s.next, r.next - s.next)
  {
    var p := ImmPlan(s);
    ApplyOwn(c, s, p);
    ImmNext(c, s);
    SliceSplit(c, s.next, p.n1, p.n2);
  }

  lemma ImmOwn(c: seq<Byte>, s: State)
    requires s.imm1 == NO_VALUE && s.imm2 == NO_VALUE && SecondImmFree(s.attr)
    ensures var r := ImmStage(c, s);
      r.next >= s.next && Own(r, IMM) == Slice(c, s.next, r.next - s.next)
  {
    if TrailingByte(s.attr) {
      TrailingOwn(c, s);
    } else {
      PlainOwn(c, s);
    }
  }
}
