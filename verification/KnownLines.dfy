/**
 * Lines of x86-opcode-map.txt spelled out, with the flags that they stand for and
 * what a lookup through the emitted tables answers for one of them.
 */
module KnownLines {
  import opened Bytes
  import opened Wrappers
  import opened Inat
  import opened OpcodeText
  import opened OpcodeLines
  import opened MapRuns
  import opened MapText
  import T = MapTables

  // ---- Operands ----

  lemma OneOperand(flag: string -> Attr, op: string)
    ensures Converted(flag, [op])
         == if !IsImm(op) then Some(NIL.(modrm := IsModrm(op)))
            else if flag(op) == NIL then None
            else Some(flag(op).(scndImm := false, modrm := false))
  {
    ImmsOne([], op);
    HasModrmOne([], op);
    assert [] + [op] == [op];
  }

  /** A first operand that is no immediate, and a second. */
  lemma TwoOperands(flag: string -> Attr, a: string, b: string)
    requires !IsImm(a)
    ensures Converted(flag, [a, b])
         == if !IsImm(b) then Some(NIL.(modrm := IsModrm(a) || IsModrm(b)))
            else if flag(b) == NIL then None
            else Some(flag(b).(scndImm := false, modrm := IsModrm(a)))
  {
    ImmsOne([], a);
    HasModrmOne([], a);
    assert [] + [a] == [a] && [a] + [b] == [a, b];
    ImmsOne([a], b);
    HasModrmOne([a], b);
  }

  lemma TwoImmediates(flag: string -> Attr, a: string, b: string)
    requires IsImm(a) && IsImm(b)
    ensures Converted(flag, [a, b])
         == if flag(a) == NIL || flag(b) == NIL || b != "Ib" then None else Some(flag(a).(scndImm := true, modrm := false))
  {
    ImmsOne([], a);
    HasModrmOne([], a);
    assert [] + [a] == [a] && [a] + [b] == [a, b];
    ImmsOne([a], b);
    HasModrmOne([a], b);
  }

  /** Relative and absolute bytes: class 1. */
  lemma ByteOperands()
    ensures Converted(ImmFlag, ["Jb"]) == Some(NIL.(imm := 1))
    ensures Converted(ImmFlag, ["AL", "Ib"]) == Some(NIL.(imm := 1))
  {
    OneOperand(ImmFlag, "Jb");
    TwoOperands(ImmFlag, "AL", "Ib");
  }

  /** Words: class 2, here with a second immediate; doublewords: class 3. */
  lemma WordOperands()
    ensures Converted(ImmFlag, ["Iw", "Ib"]) == Some(NIL.(imm := 2, scndImm := true))
    ensures Converted(ImmFlag, ["Id"]) == Some(NIL.(imm := 3))
  {
    TwoImmediates(ImmFlag, "Iw", "Ib");
    OneOperand(ImmFlag, "Id");
  }

  /** Quadwords: class 4; far pointers: class 5. */
  lemma WideOperands()
    ensures Converted(ImmFlag, ["Iq"]) == Some(NIL.(imm := 4))
    ensures Converted(ImmFlag, ["Ap"]) == Some(NIL.(imm := 5))
  {
    OneOperand(ImmFlag, "Iq");
    OneOperand(ImmFlag, "Ap");
  }

  /** Up to 32 bits: class 6. */
  lemma SizedOperands()
    ensures Converted(ImmFlag, ["Iz"]) == Some(NIL.(imm := 6))
    ensures Converted(ImmFlag, ["Jz"]) == Some(NIL.(imm := 6))
  {
    OneOperand(ImmFlag, "Iz");
    OneOperand(ImmFlag, "Jz");
  }

  /** Up to 64 bits: class 7. */
  lemma LongOperands()
    ensures Converted(ImmFlag, ["rAX/r8", "Iv"]) == Some(NIL.(imm := 7))
  {
    TwoOperands(ImmFlag, "rAX/r8", "Iv");
  }

  /** Memory offsets. */
  lemma OffsetOperands()
    ensures Converted(ImmFlag, ["AL", "Ob"]) == Some(NIL.(moffset := true))
    ensures Converted(ImmFlag, ["Ov"]) == Some(NIL.(moffset := true))
  {
    TwoOperands(ImmFlag, "AL", "Ob");
    OneOperand(ImmFlag, "Ov");
  }

  /** Operands in ModRM. */
  lemma ModrmOperands()
    ensures Converted(ImmFlag, ["Eb", "Ib"]) == Some(NIL.(imm := 1, modrm := true))
    ensures Converted(ImmFlag, ["Vps", "Wps"]) == Some(NIL.(modrm := true))
  {
    TwoOperands(ImmFlag, "Eb", "Ib");
    TwoOperands(ImmFlag, "Vps", "Wps");
  }

  /** A word after a byte, and an immediate that is in no class, are errors. */
  lemma BadOperands()
    ensures Converted(ImmFlag, ["Ib", "Iw"]) == None && Converted(ImmFlag, ["Ix"]) == None
  {
    TwoImmediates(ImmFlag, "Ib", "Iw");
    OneOperand(ImmFlag, "Ix");
  }

  // ---- Extras ----

  /** A single extra, in its parentheses. */
  predicate Solo(ext: string) {
    |ext| >= 4 && ext[0] == '(' && forall k :: 0 < k < |ext| ==> ext[k] != '('
  }

  lemma SoloAbsent(ext: string, p: string)
    requires Solo(ext) && |p| >= 3 && p[0] == '(' && (ext[1] != p[1] || ext[2] != p[2])
    ensures !Contains(ext, p)
  {
    forall i: nat
      ensures !Begins(ext, p, i)
    {
    }
    Absent(ext, p);
  }

  /** What a single extra does not say, by its first characters. */
  lemma SoloSays(ext: string)
    requires Solo(ext)
    ensures ext[1] != 'd' && ext[1] != 'f' ==> !IsForce64(ext)
    ensures ext[1] != 'V' ==> !IsVexOk(ext)
    ensures ext[1] != 'o' || ext[2] != 'V' ==> !IsVexOnly(ext)
    ensures ext[1] != 'P' ==> !IsPrefix(ext)
    ensures ext[1] != '6' && ext[1] != 'F' ==> ForAny(ext)
  {
    if ext[1] != 'd' && ext[1] != 'f' {
      SoloAbsent(ext, "(d64)");
      SoloAbsent(ext, "(f64)");
    }
    if ext[1] != 'V' {
      SoloAbsent(ext, "(VEX)");
    }
    if ext[1] != 'o' || ext[2] != 'V' {
      SoloAbsent(ext, "(oVEX)");
    }
    if ext[1] != 'P' {
      SoloAbsent(ext, "(Prefix)");
    }
    if ext[1] != '6' && ext[1] != 'F' {
      SoloAbsent(ext, "(66)");
      SoloAbsent(ext, "(F3)");
      SoloAbsent(ext, "(F2)");
    }
  }

  /** A piece without commas is found in one of the pieces that a comma divides. */
  lemma {:induction false} ContainsPieces(a: string, b: string, p: string)
    requires p != "" && NoComma(p)
    ensures Contains(a + "," + b, p) <==> Contains(a, p) || Contains(b, p)
  {
    var s := a + "," + b;
    StartsPiece(a, b, p);
    if a == "" {
      assert s[1..] == b;
    } else {
      assert s[1..] == a[1..] + "," + b;
      ContainsPieces(a[1..], b, p);
    }
  }

  lemma StartsPiece(a: string, b: string, p: string)
    requires p != "" && NoComma(p)
    ensures StartsWith(a + "," + b, p) <==> StartsWith(a, p)
  {
    var s := a + "," + b;
    if |p| <= |a| {
      assert s[..|p|] == a[..|p|];
    } else if |p| <= |s| {
      assert s[..|p|][|a|] == ',';
    }
  }

  /** What two extras say together. */
  lemma ExtrasTogether(a: string, b: string)
    ensures var ext := a + "," + b;
      && IsForce64(ext) == (IsForce64(a) || IsForce64(b)) && IsVexOk(ext) == (IsVexOk(a) || IsVexOk(b))
      && IsVexOnly(ext) == (IsVexOnly(a) || IsVexOnly(b)) && IsPrefix(ext) == (IsPrefix(a) || IsPrefix(b))
  {
    ContainsPieces(a, b, "(d64)");
    ContainsPieces(a, b, "(f64)");
    ContainsPieces(a, b, "(VEX)");
    ContainsPieces(a, b, "(oVEX)");
    ContainsPieces(a, b, "(Prefix)");
  }

  lemma TagTogether(a: string, b: string)
    requires ForAny(b)
    ensures Tag(a + "," + b) == Tag(a)
  {
    ContainsPieces(a, b, "(66)");
    ContainsPieces(a, b, "(F3)");
    ContainsPieces(a, b, "(F2)");
  }

  lemma ForAnyTogether(a: string, b: string)
    requires ForAny(a) && ForAny(b)
    ensures ForAny(a + "," + b)
  {
    ContainsPieces(a, b, "(66)");
    ContainsPieces(a, b, "(F3)");
    ContainsPieces(a, b, "(F2)");
  }

  lemma MandatoryExtras()
    ensures Tag("(66)") == 1 && Tag("(F3)") == 2 && Tag("(F2)") == 3
  {
    Present("(66)", "(66)", 0);
    Present("(F3)", "(F3)", 0);
    Present("(F2)", "(F2)", 0);
    SoloAbsent("(F3)", "(66)");
    SoloAbsent("(F2)", "(66)");
    SoloAbsent("(F2)", "(F3)");
  }

  lemma MandatoryAlone()
    ensures !IsForce64("(66)") && !IsVexOk("(66)") && !IsVexOnly("(66)") && !IsPrefix("(66)")
    ensures !IsForce64("(F3)") && !IsVexOk("(F3)") && !IsVexOnly("(F3)") && !IsPrefix("(F3)")
  {
    SoloSays("(66)");
    SoloSays("(F3)");
  }

  /** Extras that say nothing but perhaps that the operand size is 64 bits. */
  predicate Sized(ext: string, force64: bool) {
    IsForce64(ext) == force64 && !IsVexOk(ext) && !IsVexOnly(ext) && !IsPrefix(ext) && ForAny(ext)
  }

  lemma ForcedExtras()
    ensures Sized("(f64)", true)
  {
    SoloSays("(f64)");
    Present("(f64)", "(f64)", 0);
  }

  lemma DefaultExtras()
    ensures Sized("(d64)", true)
  {
    SoloSays("(d64)");
    Present("(d64)", "(d64)", 0);
  }

  lemma EmptyExtras()
    ensures Sized("", false)
  {
    NoExtras();
  }

  lemma ModeExtras()
    ensures Sized("(i64)", false) && Sized("(o64)", false) && Sized("(1A)", false)
  {
    SoloSays("(i64)");
    SoloSays("(o64)");
    SoloSays("(1A)");
  }

  /** The flags of an alternative with an ordinary name and no named prefix. */
  lemma OrdinaryFlags(flag: string -> Attr, alt: Alternative, c: Attr)
    requires OrdinaryName(alt.opcode) && !IsPrefix(alt.ext) && Converted(flag, alt.operands) == Some(c)
    ensures Described(flag, alt, 0)
         == Some(c.(force64 := c.force64 || IsForce64(alt.ext), vexOk := c.vexOk || IsVexOnly(alt.ext) || IsVexOk(alt.ext),
                    vexOnly := c.vexOnly || IsVexOnly(alt.ext)))
  {
  }

  // ---- Alternatives ----

  lemma OrdinaryNames()
    ensures OrdinaryName("CALL") && OrdinaryName("PUSH") && OrdinaryName("DEC") && OrdinaryName("2bytes-VEX") && OrdinaryName("NOP")
  {
    Ordinary("CALL");
    Ordinary("PUSH");
    Ordinary("DEC");
    Ordinary("2bytes-VEX");
    Ordinary("NOP");
  }

  /** Of line e8: forced to 64 bits. */
  lemma CallLine()
    ensures Described(ImmFlag, Alternative("CALL", ["Jz"], "(f64)"), 0) == Some(NIL.(imm := 6, force64 := true))
  {
    OrdinaryNames();
    SizedOperands();
    ForcedExtras();
    OrdinaryFlags(ImmFlag, Alternative("CALL", ["Jz"], "(f64)"), NIL.(imm := 6));
  }

  lemma RegisterOperands()
    ensures Converted(ImmFlag, ["rAX/r8"]) == Some(NIL) && Converted(ImmFlag, ["eAX"]) == Some(NIL)
  {
    OneOperand(ImmFlag, "rAX/r8");
    OneOperand(ImmFlag, "eAX");
  }

  /** Of line 50: 64 bits by default. */
  lemma PushLine()
    ensures Described(ImmFlag, Alternative("PUSH", ["rAX/r8"], "(d64)"), 0) == Some(NIL.(force64 := true))
  {
    OrdinaryNames();
    RegisterOperands();
    DefaultExtras();
    OrdinaryFlags(ImmFlag, Alternative("PUSH", ["rAX/r8"], "(d64)"), NIL);
  }

  lemma OtherNames()
    ensures IsRex("REX.W") && !IsGroup("REX.W") && !IsFpu("REX.W")
    ensures IsFpu("ESC") && !IsGroup("ESC") && !IsRex("ESC")
    ensures IsGroup("Grp1") && !IsRex("Grp1") && !IsFpu("Grp1")
  {
    StartBegins("REX.W", "Grp");
    StartBegins("REX.W", "ESC");
    StartBegins("ESC", "Grp");
    StartBegins("ESC", "REX");
    StartBegins("Grp1", "REX");
    StartBegins("Grp1", "ESC");
  }

  lemma NoOperands(flag: string -> Attr)
    ensures Converted(flag, []) == Some(NIL)
  {
  }

  /** The flags of an alternative without VEX or a named prefix. */
  lemma NamedFlags(flag: string -> Attr, alt: Alternative, c: Attr, group: bv5)
    requires Sized(alt.ext, false) && Converted(flag, alt.operands) == Some(c) && c.pfx == 0 && c.grp == 0
    ensures Described(flag, alt, group)
         == Some(c.(pfx := if IsRex(alt.opcode) then 12 else 0, grp := if IsGroup(alt.opcode) then group else 0,
                    modrm := c.modrm || IsGroup(alt.opcode) || IsFpu(alt.opcode)))
  {
    OrZeros(12, 0, group, 0);
  }

  /** Line 48: a REX prefix in 64-bit code, and nothing else. */
  lemma RexLine()
    ensures Described(ImmFlag, Alternative("DEC", ["eAX"], "(i64)"), 0) == Some(NIL)
    ensures Described(ImmFlag, Alternative("REX.W", [], "(o64)"), 0) == Some(NIL.(pfx := 12))
  {
    OrdinaryNames();
    OtherNames();
    RegisterOperands();
    NoOperands(ImmFlag);
    ModeExtras();
    NamedFlags(ImmFlag, Alternative("DEC", ["eAX"], "(i64)"), NIL, 0);
    NamedFlags(ImmFlag, Alternative("REX.W", [], "(o64)"), NIL, 0);
  }

  /** Line d8: an escape to the coprocessor has a ModRM byte. */
  lemma EscLine()
    ensures Described(ImmFlag, Alternative("ESC", [], ""), 0) == Some(NIL.(modrm := true))
  {
    OtherNames();
    NoOperands(ImmFlag);
    EmptyExtras();
    NamedFlags(ImmFlag, Alternative("ESC", [], ""), NIL, 0);
  }

  /** Line 80: the number of the group, a ModRM byte and the operands of all its members. */
  lemma GroupLine(group: bv5)
    ensures Described(ImmFlag, Alternative("Grp1", ["Eb", "Ib"], "(1A)"), group) == Some(NIL.(grp := group, imm := 1, modrm := true))
  {
    OtherNames();
    ModrmOperands();
    ModeExtras();
    NamedFlags(ImmFlag, Alternative("Grp1", ["Eb", "Ib"], "(1A)"), NIL.(imm := 1, modrm := true), group);
  }

  /** The other named prefixes, with the numbers of inat.h. */
  lemma PrefixNumbersListed()
    ensures PrefixNumber("LOCK") == 4 && PrefixNumber("Address-Size") == 11
    ensures PrefixNumber("2bytes-VEX") == 13 && PrefixNumber("3bytes-VEX") == 14 && PrefixNumber("NOP") == 0
  {
  }

  lemma SegmentNumbersListed()
    ensures PrefixNumber("SEG=CS") == 5 && PrefixNumber("SEG=DS") == 6 && PrefixNumber("SEG=ES") == 7
    ensures PrefixNumber("SEG=FS") == 8 && PrefixNumber("SEG=GS") == 9 && PrefixNumber("SEG=SS") == 10
  {
  }

  /** Of line c5, and a prefix that the script does not know. */
  lemma VexPrefixLine()
    ensures Described(ImmFlag, Alternative("2bytes-VEX", [], "(Prefix)"), 0) == Some(NIL.(pfx := 13))
    ensures Described(ImmFlag, Alternative("NOP", [], "(Prefix)"), 0) == None
  {
    OrdinaryNames();
    PrefixNumbersListed();
    PrefixFlags(ImmFlag, "2bytes-VEX");
    PrefixForAny();
  }

  lemma OnlyExtras()
    ensures IsVexOnly("(oVEX)") && !IsVexOk("(oVEX)") && !IsForce64("(oVEX)") && !IsPrefix("(oVEX)") && ForAny("(oVEX)")
  {
    SoloSays("(oVEX)");
    Present("(oVEX)", "(oVEX)", 0);
  }

  /** (66),(oVEX) */
  const ONLY_66 := "(66)" + "," + "(oVEX)"

  lemma VexOnlyExtras()
    ensures IsVexOnly(ONLY_66) && !IsForce64(ONLY_66) && !IsPrefix(ONLY_66) && Tag(ONLY_66) == 1
  {
    OnlyExtras();
    MandatoryExtras();
    MandatoryAlone();
    ExtrasTogether("(66)", "(oVEX)");
    TagTogether("(66)", "(oVEX)");
  }

  lemma VexOnlyOperands()
    ensures Converted(ImmFlag, ["/r"]) == Some(NIL.(modrm := true)) && OrdinaryName("Vpermilps")
  {
    Ordinary("Vpermilps");
    OneOperand(ImmFlag, "/r");
  }

  /** Line 0f 38 0c: only with VEX, after 66. */
  lemma VexOnlyLine()
    ensures Described(ImmFlag, Alternative("Vpermilps", ["/r"], ONLY_66), 0) == Some(NIL.(modrm := true, vexOk := true, vexOnly := true))
  {
    VexOnlyOperands();
    VexOnlyExtras();
    OrdinaryFlags(ImmFlag, Alternative("Vpermilps", ["/r"], ONLY_66), NIL.(modrm := true));
  }

  // ---- Line 0f 52 ----

  /** (F3),(VEX),(o128) */
  const SCALAR_EXTRAS := "(F3)" + "," + ("(VEX)" + "," + "(o128)")

  const PACKED := Alternative("rsqrtps", ["Vps", "Wps"], "(VEX)")
  const SCALAR := Alternative("rsqrtss", ["Vss", "Wss"], SCALAR_EXTRAS)

  /** rsqrtps Vps,Wps (VEX) | rsqrtss Vss,Wss (F3),(VEX),(o128) */
  const LINE_52: seq<string> := ["rsqrtps", "Vps,Wps", "(VEX)", "|", "rsqrtss", "Vss,Wss", "(F3),(VEX),(o128)"]

  lemma JoinTwo(a: string, b: string)
    ensures Join([a, b]) == a + "," + b
  {
    assert [a, b][1..] == [b];
  }

  lemma FieldTexts()
    ensures "Vps" + "," + "Wps" == "Vps,Wps" && "Vss" + "," + "Wss" == "Vss,Wss" && SCALAR_EXTRAS == "(F3),(VEX),(o128)"
  {
  }

  lemma PackedFields()
    ensures Writable(PACKED) && Fields(PACKED) == ["rsqrtps", "Vps,Wps", "(VEX)"]
  {
    JoinTwo("Vps", "Wps");
    FieldTexts();
  }

  lemma ScalarFields()
    ensures Writable(SCALAR) && Fields(SCALAR) == ["rsqrtss", "Vss,Wss", "(F3),(VEX),(o128)"]
  {
    JoinTwo("Vss", "Wss");
    FieldTexts();
  }

  lemma RenderTwo(a: Alternative, b: Alternative)
    ensures Render([a, b]) == Fields(a) + ["|"] + Fields(b)
  {
    assert [a, b][1..] == [b];
  }

  lemma ParseTwo(fields: seq<string>, a: Alternative, b: Alternative)
    requires Writable(a) && Writable(b) && fields == Fields(a) + ["|"] + Fields(b)
    ensures Parse(fields) == Some([a, b])
  {
    RenderTwo(a, b);
    ParseRender([a, b]);
  }

  lemma LineParsed()
    ensures Parse(LINE_52) == Some([PACKED, SCALAR])
  {
    PackedFields();
    ScalarFields();
    ParseTwo(LINE_52, PACKED, SCALAR);
  }

  lemma VexExtras()
    ensures IsVexOk("(VEX)") && !IsForce64("(VEX)") && !IsVexOnly("(VEX)") && !IsPrefix("(VEX)") && ForAny("(VEX)")
  {
    SoloSays("(VEX)");
    Present("(VEX)", "(VEX)", 0);
  }

  lemma ScalarExtras()
    ensures IsVexOk(SCALAR_EXTRAS) && !IsForce64(SCALAR_EXTRAS) && !IsVexOnly(SCALAR_EXTRAS) && !IsPrefix(SCALAR_EXTRAS)
    ensures Tag(SCALAR_EXTRAS) == 2
  {
    VexExtras();
    SoloSays("(o128)");
    MandatoryExtras();
    MandatoryAlone();
    ExtrasTogether("(VEX)", "(o128)");
    ForAnyTogether("(VEX)", "(o128)");
    ExtrasTogether("(F3)", "(VEX)" + "," + "(o128)");
    TagTogether("(F3)", "(VEX)" + "," + "(o128)");
  }

  const WITH_VEX: Attr := NIL.(modrm := true, vexOk := true)

  lemma PackedFlags()
    ensures Described(ImmFlag, PACKED, 0) == Some(WITH_VEX) && OrdinaryName("rsqrtps")
  {
    Ordinary("rsqrtps");
    ModrmOperands();
    VexExtras();
    OrdinaryFlags(ImmFlag, PACKED, NIL.(modrm := true));
  }

  lemma ScalarOperands()
    ensures Converted(ImmFlag, ["Vss", "Wss"]) == Some(NIL.(modrm := true))
  {
    TwoOperands(ImmFlag, "Vss", "Wss");
  }

  lemma ScalarFlags()
    ensures Described(ImmFlag, SCALAR, 0) == Some(WITH_VEX) && OrdinaryName("rsqrtss")
  {
    Ordinary("rsqrtss");
    ScalarOperands();
    ScalarExtras();
    OrdinaryFlags(ImmFlag, SCALAR, NIL.(modrm := true));
  }

  lemma DescribeTwo(flag: string -> Attr, groups: map<string, nat>, ggid: nat, a: Alternative, b: Alternative)
    requires ggid <= GROUPS && !IsGroup(a.opcode) && !IsGroup(b.opcode)
    requires Described(flag, a, 0).Some? && Described(flag, b, 0).Some? && Described(flag, a, 0).value != NIL && Described(flag, b, 0).value != NIL
    ensures DescribeAll(flag, groups, ggid, [a, b])
         == Some(Gathered(groups, ggid, [T.Alt(Described(flag, a, 0).value, Tag(a.ext), a.ext),
                                         T.Alt(Described(flag, b, 0).value, Tag(b.ext), b.ext)]))
  {
    DescribeOne(flag, groups, ggid, a);
    assert [a, b][..1] == [a];
    var x, y := T.Alt(Described(flag, a, 0).value, Tag(a.ext), a.ext), T.Alt(Described(flag, b, 0).value, Tag(b.ext), b.ext);
    assert DescribeMore(flag, Gathered(groups, ggid, []), a) == Some(Gathered(groups, ggid, [] + [x]));
    assert [] + [x] == [x] && [x] + [y] == [x, y];
    assert DescribeMore(flag, Gathered(groups, ggid, [x]), b) == Some(Gathered(groups, ggid, [x] + [y]));
  }

  const ALTS_52: seq<T.Alt> := [T.Alt(WITH_VEX, 0, "(VEX)"), T.Alt(WITH_VEX, 2, SCALAR_EXTRAS)]

  lemma LineSays52()
    ensures Says(ImmFlag, LINE_52, ALTS_52)
  {
    LineParsed();
    PackedFlags();
    ScalarFlags();
    VexExtras();
    ScalarExtras();
    forall groups, ggid
      ensures SaysWith(ImmFlag, LINE_52, ALTS_52, groups, ggid)
    {
      Gathers52(groups, ggid);
    }
  }

  lemma Gathers52(groups: map<string, nat>, ggid: nat)
    requires Parse(LINE_52) == Some([PACKED, SCALAR]) && OrdinaryName("rsqrtps") && OrdinaryName("rsqrtss")
    requires Described(ImmFlag, PACKED, 0) == Some(WITH_VEX) && Described(ImmFlag, SCALAR, 0) == Some(WITH_VEX)
    requires Tag("(VEX)") == 0 && Tag(SCALAR_EXTRAS) == 2
    ensures SaysWith(ImmFlag, LINE_52, ALTS_52, groups, ggid)
  {
    if ggid <= GROUPS {
      DescribeTwo(ImmFlag, groups, ggid, PACKED, SCALAR);
    } else {
      DescribeOne(ImmFlag, groups, ggid, PACKED);
      assert [PACKED, SCALAR][..1] == [PACKED];
    }
  }

  /** An untagged alternative and one for F3: without a prefix, and after 66, f3 and f2. */
  lemma ReadTwo(a: T.Alt, b: T.Alt)
    requires a.tag == 0 && b.tag == 2
    ensures T.Reading([a, b], 0) == a.flags.(variant := true)
    ensures T.Reading([a, b], 1) == NIL && T.Reading([a, b], 2) == b.flags && T.Reading([a, b], 3) == NIL
  {
    UnionTwo(a, b, 0);
    UnionTwo(a, b, 1);
    UnionTwo(a, b, 2);
    UnionTwo(a, b, 3);
    assert [a, b][1].tag != 0;
    assert T.AnyTagged([a, b]);
    OrVariant(a.flags);
  }

  lemma UnionTwo(a: T.Alt, b: T.Alt, m: bv4)
    requires !(a.tag == m && b.tag == m)
    ensures T.Union([a, b], m) == if a.tag == m then a.flags else if b.tag == m then b.flags else NIL
  {
    assert [a, b][..1] == [a] && [a][..0] == [];
    assert T.Union([a], m) == Or(T.Union([], m), if a.tag == m then a.flags else NIL);
    OrNil(a.flags);
    OrNil(b.flags);
    OrNil(NIL);
  }

  /**
   * In the tables emitted from any accepted file with the three prefix lines and
   * this line in the table of an escape, f3 0f 52 has a ModRM byte and takes VEX,
   * and 66 0f 52 and f2 0f 52 are no instructions.
   */
  lemma LookupOf52(p: Place, plines: seq<MapLine>, at: Place, name: seq<string>, lines: seq<MapLine>, last: Byte)
    requires PrimaryPlaced(ImmFlag, p, plines) && PrefixLines(plines) && last in {0x66, 0xf2, 0xf3}
    requires Placed(ImmFlag, at, TableText(Referrer(name), lines)) && name != [] && Concat(name) in at.w.s.escapes
    requires FileOf(at, TableText(Referrer(name), lines)) == FileOf(p, TableText(AvxCode(None), plines))
    requires AllInside(lines) && Opcode(0x52, LINE_52) in lines
    ensures var end := End(ImmFlag, at, TableText(Referrer(name), lines));
      && Concat(name) in end.s.escapes
      && EscapeAttribute(Emitted(end.s), 0x52, last, NIL.(esc := EscId(end.s.escapes[Concat(name)])))
           == if last == 0xf3 then NIL.(modrm := true, vexOk := true) else NIL
  {
    ImmFlagsPlain();
    LineSays52();
    EscapeTableAnswers(ImmFlag, at.before, at.w, name, lines, at.rest, 0x52, last);
    SameNumbers(ImmFlag, p, plines, at, TableText(Referrer(name), lines), last);
    FileKept(ImmFlag, at.before, at.w, TableText(Referrer(name), lines), at.rest);
    NextKeeps(ImmFlag, at.w, Referrer(name));
    TableRead(ImmFlag, at.w, Referrer(name), lines);
    ReadOnce(ImmFlag, Next(ImmFlag, at.w, Referrer(name)), lines, 0x52, LINE_52, ALTS_52);
    ReadTwo(ALTS_52[0], ALTS_52[1]);
    assert ALTS_52 == [ALTS_52[0], ALTS_52[1]];
  }
}
