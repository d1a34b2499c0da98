/**
 * Instructions spelled out byte by byte, with the fields that the listed tables
 * give them, in any memory that starts with them.
 */
module KnownDecodings {
  import opened Bytes
  import opened Inat
  import opened InatTables
  import opened Decode
  import opened Locality
  import opened DecodeLaws
  import opened Lengths
  import PrefixScan

  predicate Starts(c: seq<Byte>, b: seq<Byte>) {
    |b| <= |c| && c[..|b|] == b
  }

  lemma StartsAt(c: seq<Byte>, b: seq<Byte>)
    requires Starts(c, b)
    ensures forall i: nat :: i < |b| ==> At(c, i) == b[i]
  {
    assert forall i: nat :: i < |b| ==> c[i] == c[..|b|][i];
  }

  /** Bytes of each field: REX, VEX, opcode, ModRM, SIB, displacement and the two immediates. */
  datatype Shape = Shape(rex: nat, vex: nat, opcode: nat, modrm: nat, sib: nat, disp: nat, imm1: nat, imm2: nat)

  function ShapeOf(s: State): Shape {
    Shape(s.rex.nbytes, s.vex.nbytes, s.opcode.nbytes, s.modrm.nbytes, s.sib.nbytes, s.disp.nbytes, s.imm1.nbytes, s.imm2.nbytes)
  }

  lemma OneSeen(c: seq<Byte>, n: nat, b: Byte)
    requires n <= 1
    ensures PrefixScan.Seen(c, n, b) == (n == 1 && At(c, 0) == b)
  {
    assert n == 1 && At(c, 0) == b ==> 0 < n && At(c, 0) == b;
  }

  /** With at most one legacy prefix: the sizes, and how far REX and VEX go. */
  lemma Front(c: seq<Byte>, x64: bool, n: nat)
    requires n <= 1 && !Legacy(At(c, n)) && (n == 1 ==> Legacy(At(c, 0)))
    ensures WellFormed(TABLES) && PrefixCount(TABLES, c, x64) == n
    ensures var s := FullDecode(TABLES, c, x64); var last := if n == 0 then 0 else At(c, 0);
      && s.rex.nbytes == RexLength(c, n, x64) && s.vex.nbytes == VexLength(c, n + s.rex.nbytes, x64)
      && Chain(TABLES, c, x64, PREFIXES).next == n + s.rex.nbytes + s.vex.nbytes && LastPrefix(s) == last
      && s.opnd == (if Wide(c, n, x64) || (x64 && s.attr.force64) then 8 else if last == 0x66 then 2 else 4)
      && s.addr == (if last == 0x67 then (if x64 then 4 else 2) else (if x64 then 8 else 4))
  {
    PrefixesTaken(c, x64, n);
    PrefixLaw(c, x64);
    OneSeen(c, n, 0x66);
    OneSeen(c, n, 0x67);
  }

  /** Without VEX and without a group: the attribute is the opcode's. */
  lemma PlainDecoding(c: seq<Byte>, x64: bool, n: nat, o: nat, a: Attr)
    requires n <= 1 && !Legacy(At(c, n)) && (n == 1 ==> Legacy(At(c, 0)))
    requires o == n + RexLength(c, n, x64) && VexLength(c, o, x64) == 0
    requires a == PlainAttr(c, o, if n == 0 then 0 else At(c, 0)) && a.grp == 0
    ensures WellFormed(TABLES)
    ensures var s := FullDecode(TABLES, c, x64);
      && s.attr == a && s.rex.nbytes == o - n && s.vex.nbytes == 0 && s.opcode.nbytes == OpcodeLength(c, o)
      && s.modrm.nbytes == (if a.modrm then 1 else 0) && Chain(TABLES, c, x64, PREFIXES).next == o
      && s.opnd == (if Wide(c, n, x64) || (x64 && a.force64) then 8 else if n == 1 && At(c, 0) == 0x66 then 2 else 4)
      && s.addr == (if n == 1 && At(c, 0) == 0x67 then (if x64 then 4 else 2) else (if x64 then 8 else 4))
  {
    Front(c, x64, n);
    OpcodeLaw(c, x64);
    ModrmLaw(TABLES, c, x64);
  }

  /** The fields behind the opcode at o, by the attribute and the sizes. */
  predicate FieldsBehind(c: seq<Byte>, o: nat, s: State) {
    && s.modrm.nbytes <= 1
    && Sizes(s.imm1.nbytes, s.imm2.nbytes) == ImmBytes(s.attr, s.opnd, s.addr)
    && (s.modrm.nbytes != 0 ==> s.modrm.value == At(c, o + s.opcode.nbytes))
    && s.sib.nbytes == (if s.modrm.nbytes != 0 && s.addr != 2 && SibCalledFor(s.modrm.value) then 1 else 0)
    && (s.sib.nbytes != 0 ==> s.sib.value == At(c, o + s.opcode.nbytes + s.modrm.nbytes))
    && s.disp.nbytes == (if s.modrm.nbytes == 0 then 0
                         else if s.addr == 2 then DispBytes16(s.modrm.value)
                         else DispBytes(s.modrm.value, s.sib.value))
    && NumbersAt(c, o, s, s.attr)
  }

  lemma Behind(c: seq<Byte>, x64: bool, o: nat)
    requires WellFormed(TABLES) && Chain(TABLES, c, x64, PREFIXES).next == o
    ensures var s := FullDecode(TABLES, c, x64);
      FieldsBehind(c, o, s) && Extent(TABLES, c, x64) == PlacesOf(o, s).end && s.length == Extent(TABLES, c, x64) % 256
  {
    AddressingBytes(TABLES, c, x64);
    ImmediateBytes(TABLES, c, x64);
    FieldNumbers(TABLES, c, x64);
    LengthTruncated(TABLES, c, x64);
  }

  /** Everything but the ModRM and SIB bytes follows from the opcode's attribute. */
  lemma Known(c: seq<Byte>, b: seq<Byte>, x64: bool, n: nat, o: nat, a: Attr)
    requires Starts(c, b) && n <= o < |b| && (At(c, o) == 0x0f ==> o + 2 < |b|)
    requires n <= 1 && !Legacy(At(c, n)) && (n == 1 ==> Legacy(At(c, 0)))
    requires o == n + RexLength(c, n, x64) && VexLength(c, o, x64) == 0
    requires a == PlainAttr(c, o, if n == 0 then 0 else At(c, 0)) && a.grp == 0
    ensures WellFormed(TABLES)
    ensures var s := FullDecode(TABLES, c, x64);
      && s.attr == a && s.rex.nbytes == o - n && s.vex.nbytes == 0 && s.opcode.nbytes == OpcodeLength(c, o)
      && s.modrm.nbytes == (if a.modrm then 1 else 0)
      && s.opnd == (if Wide(c, n, x64) || (x64 && a.force64) then 8 else if n == 1 && At(c, 0) == 0x66 then 2 else 4)
      && s.addr == (if n == 1 && At(c, 0) == 0x67 then (if x64 then 4 else 2) else (if x64 then 8 else 4))
      && FieldsBehind(c, o, s) && Extent(TABLES, c, x64) == PlacesOf(o, s).end && s.length == Extent(TABLES, c, x64) % 256
  {
    PlainDecoding(c, x64, n, o, a);
    Behind(c, x64, o);
  }

  predicate NumbersAt(c: seq<Byte>, o: nat, s: State, a: Attr) {
    var p := PlacesOf(o, s);
    && s.disp.value == Number(c, p.disp, s.disp.nbytes) && s.imm1.value == Number(c, p.imm1, s.imm1.nbytes)
    && s.imm2.value == SecondNumber(c, p.imm2, s.imm2.nbytes, !a.moffset && a.imm == 5)
  }

  /** What the instruction at the start of memory decodes to: its fields, the three numbers and its length. */
  ghost predicate Reads(c: seq<Byte>, x64: bool, shape: Shape, disp: int, imm1: int, imm2: int, length: nat) {
    && WellFormed(TABLES)
    && var s := FullDecode(TABLES, c, x64);
      && ShapeOf(s) == shape && s.disp.value == disp && s.imm1.value == imm1 && s.imm2.value == imm2
      && s.length == length && Extent(TABLES, c, x64) == length
  }

  /** mov rax, gs:[0x28]: no base and no index, and so four bytes of displacement. */
  lemma GsLoad(c: seq<Byte>)
    requires Starts(c, [0x65, 0x48, 0x8b, 0x04, 0x25, 0x28, 0x00, 0x00, 0x00])
    ensures Reads(c, true, Shape(1, 0, 1, 1, 1, 4, 0, 0), 0x28, 0, 0, 9)
  {
    StartsAt(c, [0x65, 0x48, 0x8b, 0x04, 0x25, 0x28, 0x00, 0x00, 0x00]);
    Known(c, [0x65, 0x48, 0x8b, 0x04, 0x25, 0x28, 0x00, 0x00, 0x00], true, 1, 2, NIL.(modrm := true));
  }

  /** movabs rax, 0x8877665544332211: REX.W makes it two halves, each of them signed. */
  lemma MovAbs(c: seq<Byte>)
    requires Starts(c, [0x48, 0xb8, 0x11, 0x22, 0x33, 0x44, 0x55, 0x66, 0x77, 0x88])
    ensures Reads(c, true, Shape(1, 0, 1, 0, 0, 0, 4, 4), 0, 0x4433_2211, 0x8877_6655 - 0x1_0000_0000, 10)
  {
    StartsAt(c, [0x48, 0xb8, 0x11, 0x22, 0x33, 0x44, 0x55, 0x66, 0x77, 0x88]);
    Known(c, [0x48, 0xb8, 0x11, 0x22, 0x33, 0x44, 0x55, 0x66, 0x77, 0x88], true, 0, 1, NIL.(imm := 7));
  }

  /** mov ax, 0x1234: 66 halves the immediate. */
  lemma MovWord(c: seq<Byte>)
    requires Starts(c, [0x66, 0xb8, 0x34, 0x12])
    ensures Reads(c, true, Shape(0, 0, 1, 0, 0, 0, 2, 0), 0, 0x1234, 0, 4)
  {
    StartsAt(c, [0x66, 0xb8, 0x34, 0x12]);
    Known(c, [0x66, 0xb8, 0x34, 0x12], true, 1, 1, NIL.(imm := 7));
  }

  /** add rax, -1: REX.W leaves four bytes. */
  lemma AddWide(c: seq<Byte>)
    requires Starts(c, [0x48, 0x05, 0xff, 0xff, 0xff, 0xff])
    ensures Reads(c, true, Shape(1, 0, 1, 0, 0, 0, 4, 0), 0, -1, 0, 6)
  {
    StartsAt(c, [0x48, 0x05, 0xff, 0xff, 0xff, 0xff]);
    Known(c, [0x48, 0x05, 0xff, 0xff, 0xff, 0xff], true, 0, 1, NIL.(imm := 6));
  }

  /** add ax, -2 */
  lemma AddWord(c: seq<Byte>)
    requires Starts(c, [0x66, 0x05, 0xfe, 0xff])
    ensures Reads(c, true, Shape(0, 0, 1, 0, 0, 0, 2, 0), 0, -2, 0, 4)
  {
    StartsAt(c, [0x66, 0x05, 0xfe, 0xff]);
    Known(c, [0x66, 0x05, 0xfe, 0xff], true, 1, 1, NIL.(imm := 6));
  }

  /** mov eax, [0x200000001]: eight bytes of address in 64-bit code. */
  lemma LoadOffset(c: seq<Byte>)
    requires Starts(c, [0xa1, 0x01, 0x00, 0x00, 0x00, 0x02, 0x00, 0x00, 0x00])
    ensures Reads(c, true, Shape(0, 0, 1, 0, 0, 0, 4, 4), 0, 1, 2, 9)
  {
    StartsAt(c, [0xa1, 0x01, 0x00, 0x00, 0x00, 0x02, 0x00, 0x00, 0x00]);
    Known(c, [0xa1, 0x01, 0x00, 0x00, 0x00, 0x02, 0x00, 0x00, 0x00], true, 0, 0, NIL.(moffset := true));
  }

  /** And two after 67 in 32-bit code. */
  lemma LoadShortOffset(c: seq<Byte>)
    requires Starts(c, [0x67, 0xa1, 0x01, 0x00])
    ensures Reads(c, false, Shape(0, 0, 1, 0, 0, 0, 2, 0), 0, 1, 0, 4)
  {
    StartsAt(c, [0x67, 0xa1, 0x01, 0x00]);
    Known(c, [0x67, 0xa1, 0x01, 0x00], false, 1, 1, NIL.(moffset := true));
  }

  /** jmp to itself */
  lemma JumpToItself(c: seq<Byte>, x64: bool)
    requires Starts(c, [0xeb, 0xfe])
    ensures Reads(c, x64, Shape(0, 0, 1, 0, 0, 0, 1, 0), 0, -2, 0, 2)
  {
    StartsAt(c, [0xeb, 0xfe]);
    Known(c, [0xeb, 0xfe], x64, 0, 0, NIL.(imm := 1, force64 := true));
  }

  /** enter with a word and a second immediate of a byte */
  lemma Enter(c: seq<Byte>, x64: bool)
    requires Starts(c, [0xc8, 0x00, 0x80, 0xff])
    ensures Reads(c, x64, Shape(0, 0, 1, 0, 0, 0, 2, 1), 0, -0x8000, -1, 4)
  {
    StartsAt(c, [0xc8, 0x00, 0x80, 0xff]);
    Known(c, [0xc8, 0x00, 0x80, 0xff], x64, 0, 0, NIL.(imm := 2, scndImm := true));
  }

  /** A far call in 32-bit code: a signed offset and an unsigned segment. */
  lemma FarCall(c: seq<Byte>)
    requires Starts(c, [0x9a, 0xff, 0xff, 0xff, 0xff, 0xff, 0xff])
    ensures Reads(c, false, Shape(0, 0, 1, 0, 0, 0, 4, 2), 0, -1, 0xffff, 7)
  {
    StartsAt(c, [0x9a, 0xff, 0xff, 0xff, 0xff, 0xff, 0xff]);
    Known(c, [0x9a, 0xff, 0xff, 0xff, 0xff, 0xff, 0xff], false, 0, 0, NIL.(imm := 5));
  }

  /** mov eax, [bp - 2] in 32-bit code: 16-bit addressing. */
  lemma LoadBp(c: seq<Byte>)
    requires Starts(c, [0x67, 0x8b, 0x46, 0xfe])
    ensures Reads(c, false, Shape(0, 0, 1, 1, 0, 1, 0, 0), -2, 0, 0, 4)
  {
    StartsAt(c, [0x67, 0x8b, 0x46, 0xfe]);
    Known(c, [0x67, 0x8b, 0x46, 0xfe], false, 1, 1, NIL.(modrm := true));
  }

  /** And mov eax, [0x8000]. */
  lemma LoadWord(c: seq<Byte>)
    requires Starts(c, [0x67, 0x8b, 0x06, 0x00, 0x80])
    ensures Reads(c, false, Shape(0, 0, 1, 1, 0, 2, 0, 0), -0x8000, 0, 0, 5)
  {
    StartsAt(c, [0x67, 0x8b, 0x06, 0x00, 0x80]);
    Known(c, [0x67, 0x8b, 0x06, 0x00, 0x80], false, 1, 1, NIL.(modrm := true));
  }

  /** rsqrtss xmm0, xmm1: f3 selects the entry, and so the ModRM byte. */
  lemma Rsqrtss(c: seq<Byte>)
    requires Starts(c, [0xf3, 0x0f, 0x52, 0xc1])
    ensures Reads(c, true, Shape(0, 0, 2, 1, 0, 0, 0, 0), 0, 0, 0, 4)
  {
    StartsAt(c, [0xf3, 0x0f, 0x52, 0xc1]);
    Known(c, [0xf3, 0x0f, 0x52, 0xc1], true, 1, 1, NIL.(modrm := true, vexOk := true));
  }

  /** pshufb xmm0, [rip + 4]: three bytes of opcode. */
  lemma Pshufb(c: seq<Byte>)
    requires Starts(c, [0x66, 0x0f, 0x38, 0x00, 0x05, 0x04, 0x00, 0x00, 0x00])
    ensures Reads(c, true, Shape(0, 0, 3, 1, 0, 4, 0, 0), 4, 0, 0, 9)
  {
    StartsAt(c, [0x66, 0x0f, 0x38, 0x00, 0x05, 0x04, 0x00, 0x00, 0x00]);
    Known(c, [0x66, 0x0f, 0x38, 0x00, 0x05, 0x04, 0x00, 0x00, 0x00], true, 1, 1, NIL.(modrm := true, vexOk := true));
  }
}
