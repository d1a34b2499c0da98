/**
 * The opcode tables themselves (inat-tables.h), entry by entry, and the proof
 * that they meet everything the decoder relies on.
 */
module InatTables {
  import opened Bytes
  import opened Inat

  function PrimaryLow(b: int): Attr {
    if 0x00 <= b <= 0x03 || 0x08 <= b <= 0x0b || 0x10 <= b <= 0x13 || 0x18 <= b <= 0x1b || 0x20 <= b <= 0x23
            || 0x28 <= b <= 0x2b || 0x30 <= b <= 0x33 || 0x38 <= b <= 0x3b || 0x62 <= b <= 0x63
    then NIL.(modrm := true)
    else if b == 0x04 || b == 0x0c || b == 0x14 || b == 0x1c || b == 0x24 || b == 0x2c || b == 0x34 || b == 0x3c
            || 0x70 <= b <= 0x7f then NIL.(imm := IMM_BYTE)
    else if b == 0x05 || b == 0x0d || b == 0x15 || b == 0x1d || b == 0x25 || b == 0x2d || b == 0x35 || b == 0x3d
    then NIL.(imm := IMM_VWORD32)
    else if b == 0x0f then NIL.(esc := 1)
    else if b == 0x26 then NIL.(pfx := 7)
    else if b == 0x2e then NIL.(pfx := 5)
    else if b == 0x36 then NIL.(pfx := 10)
    else if b == 0x3e then NIL.(pfx := 6)
    else if 0x40 <= b <= 0x4f then NIL.(pfx := 12)
    else if 0x50 <= b <= 0x5f then NIL.(force64 := true)
    else if b == 0x64 then NIL.(pfx := 8)
    else if b == 0x65 then NIL.(pfx := 9)
    else if b == 0x66 then NIL.(pfx := 1)
    else if b == 0x67 then NIL.(pfx := 11)
    else if b == 0x68 then NIL.(imm := IMM_VWORD32, force64 := true)
    else if b == 0x69 then NIL.(imm := IMM_VWORD32, modrm := true)
    else if b == 0x6a then NIL.(imm := IMM_BYTE, force64 := true)
    else if b == 0x6b then NIL.(imm := IMM_BYTE, modrm := true)
    else NIL
  }

  function PrimaryHigh(b: int): Attr {
    if b == 0x80 || 0x82 <= b <= 0x83 then NIL.(grp := 1, imm := IMM_BYTE, modrm := true)
    else if b == 0x81 then NIL.(grp := 1, imm := IMM_VWORD32, modrm := true)
    else if 0x84 <= b <= 0x8e || 0xd8 <= b <= 0xdf then NIL.(modrm := true)
    else if b == 0x8f then NIL.(grp := 2, modrm := true, force64 := true)
    else if b == 0x9a || b == 0xea then NIL.(imm := IMM_PTR)
    else if 0x9c <= b <= 0x9d || b == 0xc9 then NIL.(force64 := true)
    else if 0xa0 <= b <= 0xa3 then NIL.(moffset := true)
    else if b == 0xa8 || 0xb0 <= b <= 0xb7 || b == 0xcd || 0xd4 <= b <= 0xd5 || 0xe4 <= b <= 0xe7
    then NIL.(imm := IMM_BYTE)
    else if b == 0xa9 then NIL.(imm := IMM_VWORD32)
    else if 0xb8 <= b <= 0xbf then NIL.(imm := IMM_VWORD)
    else if 0xc0 <= b <= 0xc1 then NIL.(grp := 3, imm := IMM_BYTE, modrm := true)
    else if b == 0xc2 then NIL.(imm := IMM_WORD, force64 := true)
    else if b == 0xc4 then NIL.(pfx := 14, modrm := true)
    else if b == 0xc5 then NIL.(pfx := 13, modrm := true)
    else if b == 0xc6 then NIL.(grp := 4, imm := IMM_BYTE, modrm := true)
    else if b == 0xc7 then NIL.(grp := 4, imm := IMM_VWORD32, modrm := true)
    else if b == 0xc8 then NIL.(imm := IMM_WORD, scndImm := true)
    else if b == 0xca then NIL.(imm := IMM_WORD)
    else if 0xd0 <= b <= 0xd3 then NIL.(grp := 3, modrm := true)
    else if 0xe0 <= b <= 0xe3 || b == 0xeb then NIL.(imm := IMM_BYTE, force64 := true)
    else if 0xe8 <= b <= 0xe9 then NIL.(imm := IMM_VWORD32, force64 := true)
    else if b == 0xf0 then NIL.(pfx := 4)
    else if b == 0xf2 then NIL.(pfx := 3)
    else if b == 0xf3 then NIL.(pfx := 2)
    else if b == 0xf6 then NIL.(grp := 5, modrm := true)
    else if b == 0xf7 then NIL.(grp := 6, modrm := true)
    else if b == 0xfe then NIL.(grp := 7, modrm := true)
    else if b == 0xff then NIL.(grp := 8, modrm := true)
    else NIL
  }

  function PrimaryEntry(b: int): Attr {
    if b < 0x80 then PrimaryLow(b) else PrimaryHigh(b)
  }

  function Escape1Low(b: int): Attr {
    if b == 0x00 then NIL.(grp := 9, modrm := true)
    else if b == 0x01 then NIL.(grp := 10, modrm := true)
    else if 0x02 <= b <= 0x03 || 0x1f <= b <= 0x23 || 0x40 <= b <= 0x4f || 0x78 <= b <= 0x79 then NIL.(modrm := true)
    else if b == 0x0d then NIL.(grp := 11, modrm := true)
    else if b == 0x0f then NIL.(imm := IMM_BYTE, modrm := true)
    else if 0x10 <= b <= 0x17 || 0x28 <= b <= 0x29 || b == 0x2b || 0x2e <= b <= 0x2f || 0x50 <= b <= 0x5f
    then NIL.(modrm := true, variant := true, vexOk := true)
    else if b == 0x18 then NIL.(grp := 12, modrm := true)
    else if b == 0x2a || 0x2c <= b <= 0x2d || 0x60 <= b <= 0x6b || 0x6e <= b <= 0x6f || 0x74 <= b <= 0x76
            || 0x7e <= b <= 0x7f then NIL.(modrm := true, variant := true)
    else if b == 0x38 then NIL.(esc := 2)
    else if b == 0x3a then NIL.(esc := 3)
    else if 0x6c <= b <= 0x6d || 0x7c <= b <= 0x7d then NIL.(variant := true)
    else if b == 0x70 then NIL.(imm := IMM_BYTE, modrm := true, variant := true)
    else if b == 0x71 then NIL.(grp := 13, modrm := true)
    else if b == 0x72 then NIL.(grp := 14, modrm := true)
    else if b == 0x73 then NIL.(grp := 15, modrm := true)
    else if b == 0x77 then NIL.(vexOk := true)
    else NIL
  }

  function Escape1High(b: int): Attr {
    if 0x80 <= b <= 0x8f then NIL.(imm := IMM_VWORD32, force64 := true)
    else if 0x90 <= b <= 0x9f || b == 0xa3 || b == 0xa5 || b == 0xab || b == 0xad || 0xaf <= b <= 0xb7
            || 0xbb <= b <= 0xc1 || b == 0xc3 then NIL.(modrm := true)
    else if 0xa0 <= b <= 0xa1 || 0xa8 <= b <= 0xa9 then NIL.(force64 := true)
    else if b == 0xa4 || b == 0xac then NIL.(imm := IMM_BYTE, modrm := true)
    else if b == 0xa6 then NIL.(grp := 16, modrm := true)
    else if b == 0xa7 then NIL.(grp := 17, modrm := true)
    else if b == 0xae then NIL.(grp := 18, modrm := true)
    else if b == 0xb8 || b == 0xd0 || b == 0xd6 || b == 0xe6 || b == 0xf0 then NIL.(variant := true)
    else if b == 0xb9 then NIL.(grp := 19, modrm := true)
    else if b == 0xba then NIL.(grp := 20, imm := IMM_BYTE, modrm := true)
    else if b == 0xc2 || b == 0xc6 then NIL.(imm := IMM_BYTE, modrm := true, variant := true, vexOk := true)
    else if 0xc4 <= b <= 0xc5 then NIL.(imm := IMM_BYTE, modrm := true, variant := true)
    else if b == 0xc7 then NIL.(grp := 21, modrm := true)
    else if 0xd1 <= b <= 0xd5 || 0xd7 <= b <= 0xe5 || 0xe7 <= b <= 0xef || 0xf1 <= b <= 0xfe
    then NIL.(modrm := true, variant := true)
    else NIL
  }

  function Escape1Entry(b: int): Attr {
    if b < 0x80 then Escape1Low(b) else Escape1High(b)
  }

  function Escape1Variant1Entry(b: int): Attr {
    if 0x10 <= b <= 0x17 || 0x28 <= b <= 0x29 || b == 0x2b || 0x2e <= b <= 0x2f || 0x50 <= b <= 0x51
            || 0x54 <= b <= 0x6f || 0x74 <= b <= 0x76 || 0x7c <= b <= 0x7f || 0xd0 <= b <= 0xef
            || 0xf1 <= b <= 0xfe then NIL.(modrm := true, vexOk := true)
    else if b == 0x2a || 0x2c <= b <= 0x2d then NIL.(modrm := true)
    else if b == 0x70 || b == 0xc2 || 0xc4 <= b <= 0xc6 then NIL.(imm := IMM_BYTE, modrm := true, vexOk := true)
    else NIL
  }

  function Escape1Variant2Entry(b: int): Attr {
    if 0x10 <= b <= 0x12 || b == 0x16 || b == 0x2a || 0x2c <= b <= 0x2d || 0x51 <= b <= 0x53
            || 0x58 <= b <= 0x5f || b == 0x6f || 0x7e <= b <= 0x7f || b == 0xe6
    then NIL.(modrm := true, vexOk := true)
    else if b == 0x70 || b == 0xc2 then NIL.(imm := IMM_BYTE, modrm := true, vexOk := true)
    else if b == 0xb8 || b == 0xd6 then NIL.(modrm := true)
    else NIL
  }

  function Escape1Variant3Entry(b: int): Attr {
    if 0x10 <= b <= 0x12 || b == 0x2a || 0x2c <= b <= 0x2d || b == 0x51 || 0x58 <= b <= 0x5a
            || 0x5c <= b <= 0x5f || 0x7c <= b <= 0x7d || b == 0xd0 || b == 0xe6 || b == 0xf0
    then NIL.(modrm := true, vexOk := true)
    else if b == 0x70 || b == 0xc2 then NIL.(imm := IMM_BYTE, modrm := true, vexOk := true)
    else if b == 0xd6 then NIL.(modrm := true)
    else NIL
  }

  function Escape2Entry(b: int): Attr {
    if 0x00 <= b <= 0x0b || 0x1c <= b <= 0x1e || 0xf0 <= b <= 0xf1 then NIL.(modrm := true, variant := true)
    else if 0x0c <= b <= 0x10 || 0x14 <= b <= 0x15 || 0x17 <= b <= 0x1a || 0x20 <= b <= 0x25 || 0x28 <= b <= 0x35
            || 0x37 <= b <= 0x41 || 0x80 <= b <= 0x81 || 0x96 <= b <= 0x9f || 0xa6 <= b <= 0xaf
            || 0xb6 <= b <= 0xbf || 0xdb <= b <= 0xdf then NIL.(variant := true)
    else NIL
  }

  function Escape2Variant1Entry(b: int): Attr {
    if 0x00 <= b <= 0x0b || b == 0x17 || 0x1c <= b <= 0x1e || 0x20 <= b <= 0x25 || 0x28 <= b <= 0x2b
            || 0x30 <= b <= 0x35 || 0x37 <= b <= 0x41 || 0x96 <= b <= 0x9f || 0xa6 <= b <= 0xaf
            || 0xb6 <= b <= 0xbf || 0xdb <= b <= 0xdf then NIL.(modrm := true, vexOk := true)
    else if 0x0c <= b <= 0x0f || 0x18 <= b <= 0x1a || 0x2c <= b <= 0x2f
    then NIL.(modrm := true, vexOk := true, vexOnly := true)
    else if b == 0x10 || 0x14 <= b <= 0x15 || 0x80 <= b <= 0x81 then NIL.(modrm := true)
    else NIL
  }

  function Escape2Variant3Entry(b: int): Attr {
    if 0xf0 <= b <= 0xf1 then NIL.(modrm := true)
    else NIL
  }

  function Escape3Entry(b: int): Attr {
    if 0x04 <= b <= 0x06 || 0x08 <= b <= 0x0e || 0x14 <= b <= 0x19 || 0x20 <= b <= 0x22 || 0x40 <= b <= 0x42
            || b == 0x44 || 0x4a <= b <= 0x4c || 0x60 <= b <= 0x63 || b == 0xdf then NIL.(variant := true)
    else if b == 0x0f then NIL.(imm := IMM_BYTE, modrm := true, variant := true)
    else NIL
  }

  function Escape3Variant1Entry(b: int): Attr {
    if 0x04 <= b <= 0x06 || 0x18 <= b <= 0x19 || 0x4a <= b <= 0x4c
    then NIL.(imm := IMM_BYTE, modrm := true, vexOk := true, vexOnly := true)
    else if 0x08 <= b <= 0x0f || 0x14 <= b <= 0x17 || 0x20 <= b <= 0x22 || 0x40 <= b <= 0x42 || b == 0x44
            || 0x60 <= b <= 0x63 || b == 0xdf then NIL.(imm := IMM_BYTE, modrm := true, vexOk := true)
    else NIL
  }

  function Group5Entry(b: int): Attr {
    if b == 0x00 then NIL.(imm := IMM_BYTE, modrm := true)
    else if 0x02 <= b <= 0x07 then NIL.(modrm := true)
    else NIL
  }

  function Group6Entry(b: int): Attr {
    if b == 0x00 then NIL.(imm := IMM_VWORD32, modrm := true)
    else if 0x02 <= b <= 0x07 then NIL.(modrm := true)
    else NIL
  }

  function Group7Entry(b: int): Attr {
    if 0x00 <= b <= 0x01 then NIL.(modrm := true)
    else NIL
  }

  function Group8Entry(b: int): Attr {
    if 0x00 <= b <= 0x01 || b == 0x03 || b == 0x05 then NIL.(modrm := true)
    else if b == 0x02 || b == 0x04 || b == 0x06 then NIL.(modrm := true, force64 := true)
    else NIL
  }

  function Group9Entry(b: int): Attr {
    if 0x00 <= b <= 0x05 then NIL.(modrm := true)
    else NIL
  }

  function Group10Entry(b: int): Attr {
    if 0x00 <= b <= 0x04 || 0x06 <= b <= 0x07 then NIL.(modrm := true)
    else NIL
  }

  function Group21Entry(b: int): Attr {
    if b == 0x01 || b == 0x07 then NIL.(modrm := true)
    else if b == 0x06 then NIL.(modrm := true, variant := true)
    else NIL
  }

  function Group21Variant1Entry(b: int): Attr {
    if b == 0x06 then NIL.(modrm := true)
    else NIL
  }

  function Group21Variant2Entry(b: int): Attr {
    if b == 0x06 then NIL.(modrm := true)
    else NIL
  }

  function Group13Entry(b: int): Attr {
    if b == 0x02 || b == 0x04 || b == 0x06 then NIL.(imm := IMM_BYTE, modrm := true, variant := true)
    else NIL
  }

  function Group13Variant1Entry(b: int): Attr {
    if b == 0x02 || b == 0x04 || b == 0x06 then NIL.(imm := IMM_BYTE, modrm := true, vexOk := true)
    else NIL
  }

  function Group14Entry(b: int): Attr {
    if b == 0x02 || b == 0x04 || b == 0x06 then NIL.(imm := IMM_BYTE, modrm := true, variant := true)
    else NIL
  }

  function Group14Variant1Entry(b: int): Attr {
    if b == 0x02 || b == 0x04 || b == 0x06 then NIL.(imm := IMM_BYTE, modrm := true, vexOk := true)
    else NIL
  }

  function Group15Entry(b: int): Attr {
    if b == 0x02 || b == 0x06 then NIL.(imm := IMM_BYTE, modrm := true, variant := true)
    else if b == 0x03 || b == 0x07 then NIL.(variant := true)
    else NIL
  }

  function Group15Variant1Entry(b: int): Attr {
    if 0x02 <= b <= 0x03 || 0x06 <= b <= 0x07 then NIL.(imm := IMM_BYTE, modrm := true, vexOk := true)
    else NIL
  }

  function Group18Entry(b: int): Attr {
    if 0x02 <= b <= 0x03 then NIL.(vexOk := true)
    else NIL
  }

  function Group12Entry(b: int): Attr {
    if 0x00 <= b <= 0x03 then NIL.(modrm := true)
    else NIL
  }

  function Opcodes(entry: int -> Attr): OpTable {
    seq(256, entry)
  }

  function Registers(entry: int -> Attr): GrpTable {
    seq(8, entry)
  }

  const ESCAPE_TABLES: map<(bv2, bv4), OpTable> := map[
    (1, 0) := Opcodes(Escape1Entry),
    (1, 1) := Opcodes(Escape1Variant1Entry),
    (1, 2) := Opcodes(Escape1Variant2Entry),
    (1, 3) := Opcodes(Escape1Variant3Entry),
    (2, 0) := Opcodes(Escape2Entry),
    (2, 1) := Opcodes(Escape2Variant1Entry),
    (2, 3) := Opcodes(Escape2Variant3Entry),
    (3, 0) := Opcodes(Escape3Entry),
    (3, 1) := Opcodes(Escape3Variant1Entry)
  ]

  const GROUP_TABLES: map<(bv5, bv4), GrpTable> := map[
    (5, 0) := Registers(Group5Entry),
    (6, 0) := Registers(Group6Entry),
    (7, 0) := Registers(Group7Entry),
    (8, 0) := Registers(Group8Entry),
    (9, 0) := Registers(Group9Entry),
    (10, 0) := Registers(Group10Entry),
    (12, 0) := Registers(Group12Entry),
    (13, 0) := Registers(Group13Entry),
    (13, 1) := Registers(Group13Variant1Entry),
    (14, 0) := Registers(Group14Entry),
    (14, 1) := Registers(Group14Variant1Entry),
    (15, 0) := Registers(Group15Entry),
    (15, 1) := Registers(Group15Variant1Entry),
    (18, 0) := Registers(Group18Entry),
    (21, 0) := Registers(Group21Entry),
    (21, 1) := Registers(Group21Variant1Entry),
    (21, 2) := Registers(Group21Variant2Entry)
  ]

  const AVX_TABLES: map<(int, int), OpTable> := map[
    (1, 0) := Opcodes(Escape1Entry),
    (1, 1) := Opcodes(Escape1Variant1Entry),
    (1, 2) := Opcodes(Escape1Variant2Entry),
    (1, 3) := Opcodes(Escape1Variant3Entry),
    (2, 0) := Opcodes(Escape2Entry),
    (2, 1) := Opcodes(Escape2Variant1Entry),
    (2, 3) := Opcodes(Escape2Variant3Entry),
    (3, 0) := Opcodes(Escape3Entry),
    (3, 1) := Opcodes(Escape3Variant1Entry)
  ]

  const TABLES := Tables(Opcodes(PrimaryEntry), ESCAPE_TABLES, GROUP_TABLES, AVX_TABLES)

  // ---- The tables meet the decoder's assumptions ----

  predicate PrefixShape(a: Attr, b: Byte) {
    && (a.pfx == PFX_OPNDSZ) == (b == 0x66) && (a.pfx == PFX_ADDRSZ) == (b == 0x67)
    && (IsVexPrefix(a) ==> a.modrm && a.esc == 0 && !a.vexOnly)
  }

  lemma PrimaryLowPrefixes(b: Byte)
    requires b < 0x80
    ensures PrefixShape(PrimaryLow(b), b)
  {
  }

  lemma PrimaryHighPrefixes(b: Byte)
    requires b >= 0x80
    ensures PrefixShape(PrimaryHigh(b), b)
  {
  }

  lemma PrefixesAreSound()
    ensures PrefixesSound(TABLES)
  {
    forall b: Byte
      ensures PrefixSound(TABLES, b)
    {
      assert TABLES.primary[b] == PrimaryEntry(b);
      if b < 0x80 {
        PrimaryLowPrefixes(b);
      } else {
        PrimaryHighPrefixes(b);
      }
    }
    assert TABLES.primary[0] == PrimaryEntry(0);
  }

  /** Group entries carry at most a byte immediate, except Grp3_2, which may carry a word. */
  predicate GroupShape(e: Attr, g: bv5) {
    !e.moffset && !e.scndImm && (e.imm == 0 || e.imm == IMM_BYTE || (g == 6 && e.imm == IMM_VWORD32))
  }

  lemma GroupEntryShape(g: bv5, m: bv4, reg: int)
    requires (g, m) in GROUP_TABLES && 0 <= reg < 8
    ensures g >= 5 && g != 11 && g != 20 && GroupShape(GROUP_TABLES[(g, m)][reg], g)
  {
  }

  lemma OrWithin(e: Attr, a: Attr, n: nat)
    requires GroupShape(e, a.grp) && a.imm == 0 && !a.moffset && !a.scndImm
    requires 7 <= n && (a.grp == 6 ==> 10 <= n)
    ensures Within(Or(e, GroupCommon(a)), n)
  {
    assert Or(e, GroupCommon(a)).imm == e.imm;
  }

  /** A group attribute is bounded as soon as its own and its entries' immediates are. */
  lemma GroupTail(t: Tables, a: Attr, modrm: Byte, pfx: Byte, n: nat)
    requires a.modrm && Within(a, n) && 7 <= n && !a.scndImm
    requires forall m, reg :: (a.grp, m) in t.group && 0 <= reg < 8
               ==> GroupShape(t.group[(a.grp, m)][reg], a.grp) && a.imm == 0 && !a.moffset && !a.scndImm
    requires a.grp == 6 ==> 10 <= n
    ensures GroupWithin(t, a, modrm, pfx, n)
  {
    var m, reg := VariantId(t, pfx), modrm / 8 % 8;
    if (a.grp, 0) in t.group {
      OrWithin(t.group[(a.grp, 0)][reg], a, n);
    }
    if (a.grp, m) in t.group {
      OrWithin(t.group[(a.grp, m)][reg], a, n);
    }
  }

  lemma BoundedGroup(a: Attr, n: nat)
    requires a.grp != 0 ==> a.modrm
    requires Within(a, n) && 7 <= n && (a.grp == 6 ==> 10 <= n)
    requires a.grp >= 5 && a.grp != 11 && a.grp != 20 ==> a.imm == 0
    requires a.grp != 0 ==> !a.moffset && !a.scndImm
    ensures TailWithin(TABLES, a, n)
  {
    forall m, reg | a.grp != 0 && (a.grp, m) in TABLES.group && 0 <= reg < 8
      ensures GroupShape(TABLES.group[(a.grp, m)][reg], a.grp) && a.imm == 0 && !a.moffset && !a.scndImm
    {
      GroupEntryShape(a.grp, m, reg);
    }
    forall modrm: Byte, pfx: Byte | a.grp != 0
      ensures GroupWithin(TABLES, a, modrm, pfx, n)
    {
      GroupTail(TABLES, a, modrm, pfx, n);
    }
  }

  predicate PrimaryShape(a: Attr) {
    && (a.grp != 0 ==> a.modrm && !a.moffset && !a.scndImm) && Within(a, 10)
    && (a.grp >= 5 && a.grp != 11 && a.grp != 20 ==> a.imm == 0)
  }

  lemma PrimaryLowShape(b: Byte)
    requires b < 0x80
    ensures PrimaryShape(PrimaryLow(b))
  {
  }

  lemma PrimaryHighShape(b: Byte)
    requires b >= 0x80
    ensures PrimaryShape(PrimaryHigh(b))
  {
  }

  predicate EscapeShape(a: Attr) {
    && Within(a, 7) && (a.grp != 0 ==> a.modrm && a.grp >= 9 && !a.vexOk)
    && (a.grp != 0 && a.grp != 11 && a.grp != 20 ==> a.imm == 0) && !a.moffset && !a.scndImm
  }

  lemma Escape1LowShape(b: Byte)
    requires b < 0x80
    ensures EscapeShape(Escape1Low(b)) && EscRank(Escape1Low(b).esc) < 2
  {
  }

  lemma Escape1HighShape(b: Byte)
    requires b >= 0x80
    ensures EscapeShape(Escape1High(b)) && Escape1High(b).esc == 0
  {
  }

  lemma Escape1Shape(b: Byte)
    ensures EscapeShape(Escape1Entry(b)) && EscRank(Escape1Entry(b).esc) < 2
  {
    if b < 0x80 {
      Escape1LowShape(b);
    } else {
      Escape1HighShape(b);
    }
  }

  lemma Escape1VariantShapes(b: Byte)
    ensures EscapeShape(Escape1Variant1Entry(b)) && Escape1Variant1Entry(b).esc == 0
    ensures EscapeShape(Escape1Variant2Entry(b)) && Escape1Variant2Entry(b).esc == 0
    ensures EscapeShape(Escape1Variant3Entry(b)) && Escape1Variant3Entry(b).esc == 0
  {
  }

  lemma Escape2Shapes(b: Byte)
    ensures EscapeShape(Escape2Entry(b)) && Escape2Entry(b).esc == 0
    ensures EscapeShape(Escape2Variant1Entry(b)) && Escape2Variant1Entry(b).esc == 0
    ensures EscapeShape(Escape2Variant3Entry(b)) && Escape2Variant3Entry(b).esc == 0
  {
  }

  lemma Escape3Shapes(b: Byte)
    ensures EscapeShape(Escape3Entry(b)) && Escape3Entry(b).esc == 0
    ensures EscapeShape(Escape3Variant1Entry(b)) && Escape3Variant1Entry(b).esc == 0
  {
  }

  lemma EscapeEntryShape(n: bv2, m: bv4, b: Byte)
    requires (n, m) in ESCAPE_TABLES
    ensures EscapeShape(ESCAPE_TABLES[(n, m)][b])
    ensures n != 0 && EscRank(ESCAPE_TABLES[(n, m)][b].esc) < EscRank(n)
  {
    Escape1Shape(b);
    Escape1VariantShapes(b);
    Escape2Shapes(b);
    Escape3Shapes(b);
  }

  lemma AvxEntryShape(m: int, p: int, b: Byte)
    requires (m, p) in AVX_TABLES
    ensures EscapeShape(AVX_TABLES[(m, p)][b])
  {
    Escape1Shape(b);
    Escape1VariantShapes(b);
    Escape2Shapes(b);
    Escape3Shapes(b);
  }

  lemma TailsAreBounded()
    ensures TailsBounded(TABLES)
  {
    forall b: Byte
      ensures PrimaryBounded(TABLES, b)
    {
      if b < 0x80 {
        PrimaryLowShape(b);
      } else {
        PrimaryHighShape(b);
      }
      BoundedGroup(PrimaryEntry(b), 10);
      assert TABLES.primary[b] == PrimaryEntry(b);
    }
    forall n, m, b: Byte
      ensures EscapeBounded(TABLES, n, m, b)
    {
      if (n, m) in ESCAPE_TABLES {
        EscapeEntryShape(n, m, b);
        BoundedGroup(ESCAPE_TABLES[(n, m)][b], 8);
      }
    }
    forall m, p, b: Byte
      ensures AvxBounded(TABLES, m, p, b)
    {
      if (m, p) in AVX_TABLES {
        AvxEntryShape(m, p, b);
        BoundedGroup(AVX_TABLES[(m, p)][b], 7);
      }
    }
  }

  lemma EscapesAreRanked()
    ensures EscapesRanked(TABLES)
  {
    forall n, m, b: Byte
      ensures RankDrops(TABLES, n, m, b)
    {
      if (n, m) in ESCAPE_TABLES {
        EscapeEntryShape(n, m, b);
      }
    }
  }

  lemma VexCallEntries(b: Byte)
    requires b == 0xe8 || b == 0xe9
    ensures Escape1Entry(b).imm == 0 && Escape1Variant1Entry(b).imm == 0
    ensures Escape1Variant2Entry(b) == NIL == Escape1Variant3Entry(b)
    ensures Escape2Entry(b) == Escape2Variant1Entry(b) == Escape2Variant3Entry(b) == NIL
    ensures Escape3Entry(b) == Escape3Variant1Entry(b) == NIL
  {
  }

  lemma VexCallsAreShaped()
    ensures VexCallsShaped(TABLES)
  {
    forall m, p, b: Byte
      ensures VexCallShape(TABLES, m, p, b)
    {
      if (b == 0xe8 || b == 0xe9) && (m, p) in AVX_TABLES {
        AvxEntryShape(m, p, b);
        VexCallEntries(b);
      }
    }
  }

  /** The tables of inat-tables.h meet everything the decoder relies on. */
  lemma TablesWellFormed()
    ensures WellFormed(TABLES)
  {
    VexCallsAreShaped();
    EscapesAreRanked();
    PrefixesAreSound();
    TailsAreBounded();
    assert TABLES.primary[0xe8] == PrimaryEntry(0xe8) && TABLES.primary[0xe9] == PrimaryEntry(0xe9);
  }
}
