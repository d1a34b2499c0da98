/**
 * One line of the opcode map: its fields into alternatives, and an alternative
 * into flags and the mandatory prefix it is for.
 */
module OpcodeLines {
  import opened Wrappers
  import opened Inat
  import opened OpcodeText

  /** mnemonic or group, operands, extras; without extras ext is empty. */
  datatype Alternative = Alternative(opcode: string, operands: seq<string>, ext: string)

  // ---- Operands in one field ----

  /** split(s, a, ",") for a field that is not empty. */
  function Split(s: string): (r: seq<string>)
    ensures |r| > 0
  {
    if s == "" then [""]
    else
      var r := Split(s[1..]);
      if s[0] == ',' then [""] + r else [[s[0]] + r[0]] + r[1..]
  }

  function Join(ops: seq<string>): string
    requires ops != []
  {
    if |ops| == 1 then ops[0] else ops[0] + "," + Join(ops[1..])
  }

  predicate NoComma(s: string) { forall k :: 0 <= k < |s| ==> s[k] != ',' }

  lemma {:induction false} SplitPiece(s: string, rest: string)
    requires NoComma(s)
    ensures Split(s) == [s]
    ensures Split(s + "," + rest) == [s] + Split(rest)
  {
    if s != "" {
      SplitPiece(s[1..], rest);
      assert (s + "," + rest)[1..] == s[1..] + "," + rest;
      assert [s[0]] + s[1..] == s;
      assert ([s[1..]] + Split(rest))[1..] == Split(rest);
    } else {
      assert ("" + "," + rest)[1..] == rest;
    }
  }

  lemma {:induction false} SplitJoin(ops: seq<string>)
    requires ops != [] && forall k :: 0 <= k < |ops| ==> NoComma(ops[k])
    ensures Split(Join(ops)) == ops
  {
    if |ops| == 1 {
      SplitPiece(ops[0], "");
    } else {
      SplitJoin(ops[1..]);
      SplitPiece(ops[0], Join(ops[1..]));
    }
  }

  // ---- Alternatives in a line ----

  /** The fields after an alternative's mnemonic: its operands and extras, and what is left. */
  function TakeAlternative(fields: seq<string>): (r: (Alternative, seq<string>))
    requires fields != []
    ensures |r.1| < |fields|
  {
    var opcode, rest := fields[0], fields[1..];
    var (operands, rest) := if rest != [] && IsOperands(rest[0]) then (Split(rest[0]), rest[1..]) else ([], rest);
    var (ext, rest) := if rest != [] && IsExt(rest[0]) then (rest[0], rest[1..]) else ("", rest);
    (Alternative(opcode, operands, ext), rest)
  }

  function Prepend(alts: seq<Alternative>, more: Option<seq<Alternative>>): Option<seq<Alternative>> {
    if more.None? then None else Some(alts + more.value)
  }

  /** Where the next alternative starts; None when something else than a separator follows. */
  function SkipSeparator(rest: seq<string>): Option<seq<string>> {
    if rest != [] && rest[0] == "|" then Some(rest[1..]) else if |rest| > 1 then None else Some(rest)
  }

  /** All alternatives; None is a semantic error. A single left-over field is taken for a mnemonic. */
  function Parse(fields: seq<string>): Option<seq<Alternative>>
    decreases |fields|
  {
    if fields == [] then Some([])
    else
      var (alt, rest) := TakeAlternative(fields);
      var next := SkipSeparator(rest);
      if next.None? then None else Prepend([alt], Parse(next.value))
  }

  lemma PrependNothing(more: Option<seq<Alternative>>)
    ensures Prepend([], more) == more
  {
    if more.Some? {
      assert [] + more.value == more.value;
    }
  }

  lemma PrependTwice(alts: seq<Alternative>, alt: Alternative, more: Option<seq<Alternative>>)
    ensures Prepend(alts, Prepend([alt], more)) == Prepend(alts + [alt], more)
  {
    if more.Some? {
      assert alts + ([alt] + more.value) == alts + [alt] + more.value;
    }
  }

  /** The fields of one alternative, by position. */
  method ScanAlternative(fields: seq<string>, start: nat) returns (alt: Alternative, i: nat)
    requires start < |fields|
    ensures start < i <= |fields| && TakeAlternative(fields[start..]) == (alt, fields[i..])
  {
    var operands, ext := [], "";
    i := start + 1;
    assert fields[start..][1..] == fields[i..];
    if i < |fields| && IsOperands(fields[i]) {
      operands := Split(fields[i]);
      assert fields[i..][1..] == fields[i + 1..];
      i := i + 1;
    }
    if i < |fields| && IsExt(fields[i]) {
      ext := fields[i];
      assert fields[i..][1..] == fields[i + 1..];
      i := i + 1;
    }
    alt := Alternative(fields[start], operands, ext);
  }

  /** The loop over the fields of a line. */
  method ParseLine(fields: seq<string>) returns (r: Option<seq<Alternative>>)
    ensures r == Parse(fields)
  {
    var i, alts := 0, [];
    assert fields[0..] == fields;
    PrependNothing(Parse(fields));
    while i < |fields|
      invariant i <= |fields|
      invariant Parse(fields) == Prepend(alts, Parse(fields[i..]))
    {
      ghost var before := fields[i..];
      var alt, next := ScanAlternative(fields, i);
      i := next;
      if i < |fields| && fields[i] == "|" {
        assert fields[i..][1..] == fields[i + 1..];
        i := i + 1;
      } else if i < |fields| - 1 {
        return None;
      }
      assert Parse(before) == Prepend([alt], Parse(fields[i..]));
      PrependTwice(alts, alt, Parse(fields[i..]));
      alts := alts + [alt];
    }
    assert fields[i..] == [] && alts + [] == alts;
    return Some(alts);
  }

  /** An alternative that can be written in a line. */
  predicate Writable(alt: Alternative) {
    && (forall k :: 0 <= k < |alt.operands| ==> NoComma(alt.operands[k]))
    && (alt.operands != [] ==> IsOperands(Join(alt.operands)))
    && (alt.ext != "" ==> IsExt(alt.ext))
  }

  function Fields(alt: Alternative): seq<string> {
    [alt.opcode] + (if alt.operands != [] then [Join(alt.operands)] else []) + if alt.ext != "" then [alt.ext] else []
  }

  function Render(alts: seq<Alternative>): seq<string> {
    if alts == [] then []
    else if |alts| == 1 then Fields(alts[0])
    else Fields(alts[0]) + ["|"] + Render(alts[1..])
  }

  lemma TakeFields(alt: Alternative, rest: seq<string>)
    requires Writable(alt) && (rest != [] ==> rest[0] == "|")
    ensures TakeAlternative(Fields(alt) + rest) == (alt, rest)
  {
    var fields := Fields(alt) + rest;
    var operands := if alt.operands != [] then [Join(alt.operands)] else [];
    var ext := if alt.ext != "" then [alt.ext] else [];
    assert fields[1..] == operands + ext + rest;
    assert fields[1..][|operands|..] == ext + rest;
    assert (ext + rest)[|ext|..] == rest;
    if alt.operands != [] {
      SplitJoin(alt.operands);
    }
  }

  /** Parsing undoes rendering. */
  lemma {:induction false} ParseRender(alts: seq<Alternative>)
    requires forall k :: 0 <= k < |alts| ==> Writable(alts[k])
    ensures Parse(Render(alts)) == Some(alts)
  {
    if |alts| == 1 {
      TakeFields(alts[0], []);
      assert Fields(alts[0]) + [] == Fields(alts[0]);
      assert Parse([]) == Some([]) && [alts[0]] + [] == alts;
    } else if alts != [] {
      var more := Render(alts[1..]);
      TakeFields(alts[0], ["|"] + more);
      assert Fields(alts[0]) + ["|"] + more == Fields(alts[0]) + (["|"] + more);
      assert (["|"] + more)[1..] == more;
      ParseRender(alts[1..]);
      assert [alts[0]] + alts[1..] == alts;
    }
  }

  // ---- Flags of an alternative ----

  /** prefix_num; 0 for a name that it does not have. */
  function PrefixNumber(opcode: string): bv4 {
    if opcode == "Operand-Size" then PFX_OPNDSZ else if opcode == "REPNE" then PFX_REPNE
    else if opcode == "REP/REPE" then PFX_REPE else if opcode == "LOCK" then 4
    else if opcode == "SEG=CS" then 5 else if opcode == "SEG=DS" then 6 else if opcode == "SEG=ES" then 7
    else if opcode == "SEG=FS" then 8 else if opcode == "SEG=GS" then 9 else if opcode == "SEG=SS" then 10
    else if opcode == "Address-Size" then PFX_ADDRSZ
    else if opcode == "2bytes-VEX" then PFX_VEX2 else if opcode == "3bytes-VEX" then PFX_VEX3 else 0
  }

  predicate IsRex(opcode: string) { StartsWith(opcode, "REX") }
  predicate IsFpu(opcode: string) { StartsWith(opcode, "ESC") }
  predicate IsForce64(ext: string) { Contains(ext, "(d64)") || Contains(ext, "(f64)") }
  predicate IsVexOnly(ext: string) { Contains(ext, "(oVEX)") }
  predicate IsVexOk(ext: string) { Contains(ext, "(VEX)") }
  predicate IsPrefix(ext: string) { Contains(ext, "(Prefix)") }

  /** The mandatory prefix that an alternative is for: 66, then F3, then F2. */
  function Tag(ext: string): bv4 {
    if Contains(ext, "(66)") then 1 else if Contains(ext, "(F3)") then 2 else if Contains(ext, "(F2)") then 3 else 0
  }

  /** One number put over another by a bitwise or. */
  function Over4(p: bv4, q: bv4): bv4 { if q == 0 then p else p | q }
  function Over5(p: bv5, q: bv5): bv5 { if q == 0 then p else p | q }

  /** Flags with more flags, of which the escape and immediate numbers are 0. */
  function Added(flags: Attr, more: Attr): Attr {
    Attr(Over4(flags.pfx, more.pfx), flags.esc, Over5(flags.grp, more.grp), flags.imm,
         flags.modrm || more.modrm, flags.force64 || more.force64, flags.scndImm || more.scndImm, flags.moffset || more.moffset,
         flags.variant || more.variant, flags.vexOk || more.vexOk, flags.vexOnly || more.vexOnly)
  }

  /** add_flags, when a flag applies. */
  method AddFlags(flags: Attr, on: bool, more: Attr) returns (r: Attr)
    requires more.esc == 0 && more.imm == 0
    ensures r == if on then Added(flags, more) else flags
  {
    OrZeros(flags.pfx, flags.esc, flags.grp, flags.imm);
    r := if on then Or(flags, more) else flags;
  }

  /** What the mnemonic and the extras say. */
  datatype Traits = Traits(group: bool, force64: bool, rex: bool, fpu: bool, vexOnly: bool, vexOk: bool, prefix: bool)

  function TraitsOf(alt: Alternative): Traits {
    Traits(IsGroup(alt.opcode), IsForce64(alt.ext), IsRex(alt.opcode), IsFpu(alt.opcode),
           IsVexOnly(alt.ext), IsVexOk(alt.ext), IsPrefix(alt.ext))
  }

  /** Flags of the operands with those of the traits, field by field. */
  function WithTraits(c: Attr, t: Traits, group: bv5, number: bv4): Attr {
    c.(pfx := Over4(Over4(c.pfx, if t.rex then PFX_REX else 0), if t.prefix then number else 0),
       grp := Over5(c.grp, if t.group then group else 0),
       modrm := c.modrm || t.group || t.fpu,
       force64 := c.force64 || t.force64,
       vexOk := c.vexOk || t.vexOnly || t.vexOk,
       vexOnly := c.vexOnly || t.vexOnly)
  }

  /** The flags of an alternative; group is the number of the group it names. None is a semantic error. */
  ghost function Described(flag: string -> Attr, alt: Alternative, group: bv5): Option<Attr> {
    var converted := Converted(flag, alt.operands);
    if converted.None? || (IsPrefix(alt.ext) && PrefixNumber(alt.opcode) == 0) then None
    else Some(WithTraits(converted.value, TraitsOf(alt), group, PrefixNumber(alt.opcode)))
  }

  /** Group, force64 and REX. */
  method AddFirstTraits(c: Attr, t: Traits, group: bv5) returns (flags: Attr)
    ensures flags == c.(pfx := Over4(c.pfx, if t.rex then PFX_REX else 0), grp := Over5(c.grp, if t.group then group else 0),
                        modrm := c.modrm || t.group, force64 := c.force64 || t.force64)
  {
    flags := AddFlags(c, t.group, NIL.(grp := group, modrm := true));
    flags := AddFlags(flags, t.force64, NIL.(force64 := true));
    flags := AddFlags(flags, t.rex, NIL.(pfx := PFX_REX));
  }

  /** FPU escape, VEX and named prefixes. */
  method AddLastTraits(c: Attr, t: Traits, number: bv4) returns (flags: Attr)
    ensures flags == c.(pfx := Over4(c.pfx, if t.prefix then number else 0), modrm := c.modrm || t.fpu,
                        vexOk := c.vexOk || t.vexOnly || t.vexOk, vexOnly := c.vexOnly || t.vexOnly)
  {
    flags := AddFlags(c, t.fpu, NIL.(modrm := true));
    flags := AddFlags(flags, t.vexOnly, NIL.(vexOk := true, vexOnly := true));
    flags := AddFlags(flags, t.vexOk, NIL.(vexOk := true));
    flags := AddFlags(flags, t.prefix, NIL.(pfx := number));
  }

  method AlternativeFlags(flag: string -> Attr, alt: Alternative, group: bv5) returns (r: Option<Attr>)
    requires forall op :: Plain(flag, op)
    ensures r == Described(flag, alt, group)
  {
    var converted := ConvertOperands(flag, alt.operands);
    if converted.None? || (IsPrefix(alt.ext) && PrefixNumber(alt.opcode) == 0) {
      return None;
    }
    var flags := AddFirstTraits(converted.value, TraitsOf(alt), group);
    flags := AddLastTraits(flags, TraitsOf(alt), PrefixNumber(alt.opcode));
    return Some(flags);
  }
}
