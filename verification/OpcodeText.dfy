/**
 * The text of the opcode map, as gen-insn-attr-x86.awk reads it: the fields of
 * a line into alternatives, and the operands of an alternative into flags. The
 * regular expressions of the script are written out as tests on strings.
 */
module OpcodeText {
  import opened Wrappers
  import opened Inat

  // ---- Strings ----

  predicate StartsWith(s: string, p: string) {
    |p| <= |s| && s[..|p|] == p
  }

  predicate Contains(s: string, p: string) {
    StartsWith(s, p) || (s != "" && Contains(s[1..], p))
  }

  predicate Lower(c: char) { 'a' <= c <= 'z' }
  predicate Letter(c: char) { Lower(c) || 'A' <= c <= 'Z' }
  predicate Digit(c: char) { '0' <= c <= '9' }

  /** opnd_expr */
  predicate IsOperands(f: string) { f != "" && (Letter(f[0]) || f[0] == '/') }

  /** ext_expr */
  predicate IsExt(f: string) { f != "" && f[0] == '(' }

  /** imm_expr */
  predicate IsImm(op: string) { |op| >= 2 && op[0] in "IJAO" && Lower(op[1]) }

  /** modrm_expr */
  predicate IsModrm(op: string) {
    || (|op| >= 2 && op[0] in "CDEGMNPQRSUVW/" && Lower(op[1]))
    || StartsWith(op, "NTA") || (|op| >= 2 && op[0] == 'T' && op[1] in "012")
  }

  /** group_expr */
  predicate IsGroup(opcode: string) {
    StartsWith(opcode, "Grp") && |opcode| >= 4 && (Letter(opcode[3]) || Digit(opcode[3]))
  }

  // ---- Operands ----

  const MODRM: Attr := NIL.(modrm := true)
  const SCNDIMM: Attr := NIL.(scndImm := true)
  const VARIANT: Attr := NIL.(variant := true)

  /** imm_flag; NIL for an operand that it does not have. */
  function ImmFlag(op: string): Attr {
    if op == "Ib" || op == "Jb" then NIL.(imm := IMM_BYTE)
    else if op == "Iw" then NIL.(imm := IMM_WORD)
    else if op == "Id" then NIL.(imm := IMM_DWORD)
    else if op == "Iq" then NIL.(imm := IMM_QWORD)
    else if op == "Ap" then NIL.(imm := IMM_PTR)
    else if op == "Iz" || op == "Jz" then NIL.(imm := IMM_VWORD32)
    else if op == "Iv" then NIL.(imm := IMM_VWORD)
    else if op == "Ob" || op == "Ov" then NIL.(moffset := true)
    else NIL
  }

  /** The immediate operands, in order. */
  function Imms(ops: seq<string>): seq<string> {
    if ops == [] then []
    else Imms(ops[..|ops| - 1]) + if IsImm(ops[|ops| - 1]) then [ops[|ops| - 1]] else []
  }

  ghost predicate HasModrm(ops: seq<string>) {
    exists op :: op in ops && !IsImm(op) && IsModrm(op)
  }

  /** Every immediate is a known one, and all but the first are Ib. */
  predicate ImmsAccepted(flag: string -> Attr, imms: seq<string>) {
    && (forall k :: 0 <= k < |imms| ==> flag(imms[k]) != NIL)
    && forall k :: 0 < k < |imms| ==> imms[k] == "Ib"
  }

  /** The class of the first immediate, and whether there is a second. */
  function ImmsFlags(flag: string -> Attr, imms: seq<string>): Attr {
    if imms == [] then NIL else flag(imms[0]).(scndImm := |imms| > 1)
  }

  /** What operands convert to, given the table of immediates: None when they are not accepted. */
  ghost function Converted(flag: string -> Attr, ops: seq<string>): Option<Attr> {
    if !ImmsAccepted(flag, Imms(ops)) then None else Some(ImmsFlags(flag, Imms(ops)).(modrm := HasModrm(ops)))
  }

  predicate Plain(flag: string -> Attr, op: string) {
    !flag(op).scndImm && !flag(op).modrm && !flag(op).variant
  }

  lemma ImmFlagPlain(op: string)
    ensures Plain(ImmFlag, op)
  {
  }

  /** The script's own table is one that the proofs below are about. */
  lemma ImmFlagsPlain()
    ensures forall op :: Plain(ImmFlag, op)
  {
    forall op
      ensures Plain(ImmFlag, op)
    {
      ImmFlagPlain(op);
    }
  }

  lemma OrScndImm(a: Attr)
    ensures Or(a, SCNDIMM) == a.(scndImm := true)
  {
    OrZeros(a.pfx, a.esc, a.grp, a.imm);
  }

  lemma OrModrm(a: Attr)
    ensures Or(a, MODRM) == a.(modrm := true)
  {
    OrZeros(a.pfx, a.esc, a.grp, a.imm);
  }

  lemma ImmsFlagsMore(flag: string -> Attr, imms: seq<string>, op: string)
    requires imms != [] && ImmsAccepted(flag, imms) && Plain(flag, imms[0])
    ensures ImmsFlags(flag, imms) != NIL && ImmsFlags(flag, imms + [op]) == Or(ImmsFlags(flag, imms), SCNDIMM)
  {
    OrScndImm(ImmsFlags(flag, imms));
  }

  lemma ImmsOne(ops: seq<string>, op: string)
    ensures Imms(ops + [op]) == Imms(ops) + if IsImm(op) then [op] else []
  {
    assert (ops + [op])[..|ops|] == ops;
  }

  lemma HasModrmOne(ops: seq<string>, op: string)
    ensures HasModrm(ops + [op]) <==> HasModrm(ops) || (!IsImm(op) && IsModrm(op))
  {
    if HasModrm(ops) {
      var o :| o in ops && !IsImm(o) && IsModrm(o);
      assert o in ops + [op];
    }
    if !IsImm(op) && IsModrm(op) {
      assert op in ops + [op];
    }
  }

  lemma {:induction false} ImmsPrefix(ops: seq<string>, k: nat)
    requires k <= |ops|
    ensures Imms(ops[..k]) <= Imms(ops)
    decreases |ops|
  {
    if k < |ops| {
      assert ops[..|ops| - 1][..k] == ops[..k];
      ImmsPrefix(ops[..|ops| - 1], k);
    } else {
      assert ops[..k] == ops;
    }
  }

  /** A list of operands is rejected with any longer one. */
  lemma RejectedEarly(flag: string -> Attr, ops: seq<string>, k: nat)
    requires k <= |ops| && !ImmsAccepted(flag, Imms(ops[..k]))
    ensures Converted(flag, ops) == None
  {
    ImmsPrefix(ops, k);
    var imms, all := Imms(ops[..k]), Imms(ops);
    assert forall i :: 0 <= i < |imms| ==> imms[i] == all[i];
  }

  /** One more immediate after those before: rejected, or the new flags. */
  function ImmStep(flag: string -> Attr, imm: Attr, op: string): Option<Attr> {
    if flag(op) == NIL then None
    else if imm == NIL then Some(flag(op))
    else if op != "Ib" then None
    else Some(Or(imm, SCNDIMM))
  }

  lemma ImmStepMeaning(flag: string -> Attr, imms: seq<string>, op: string)
    requires ImmsAccepted(flag, imms) && Plain(flag, op) && (imms != [] ==> Plain(flag, imms[0]))
    ensures ImmStep(flag, ImmsFlags(flag, imms), op)
         == if ImmsAccepted(flag, imms + [op]) then Some(ImmsFlags(flag, imms + [op])) else None
  {
    assert (imms + [op])[|imms|] == op;
    assert forall k :: 0 <= k < |imms| ==> (imms + [op])[k] == imms[k];
    if imms != [] {
      ImmsFlagsMore(flag, imms, op);
    }
  }

  /** The operands up to j, and what operand j does to their flags. */
  ghost predicate Converting(flag: string -> Attr, ops: seq<string>, j: nat, imm: Attr, mod: bool)
    requires j <= |ops|
  {
    ImmsAccepted(flag, Imms(ops[..j])) && imm == ImmsFlags(flag, Imms(ops[..j])) && mod == HasModrm(ops[..j])
  }

  lemma ConvertingStep(flag: string -> Attr, ops: seq<string>, j: nat, imm: Attr, mod: bool)
    requires (forall op :: Plain(flag, op)) && j < |ops| && Converting(flag, ops, j, imm, mod)
    ensures !IsImm(ops[j]) ==> Converting(flag, ops, j + 1, imm, mod || IsModrm(ops[j]))
    ensures IsImm(ops[j]) ==> var next := ImmStep(flag, imm, ops[j]);
      if next.None? then Converted(flag, ops) == None else Converting(flag, ops, j + 1, next.value, mod)
  {
    var op, imms := ops[j], Imms(ops[..j]);
    assert ops[..j] + [op] == ops[..j + 1];
    ImmsOne(ops[..j], op);
    HasModrmOne(ops[..j], op);
    if IsImm(op) {
      assert Plain(flag, op) && (imms != [] ==> Plain(flag, imms[0]));
      ImmStepMeaning(flag, imms, op);
      if ImmStep(flag, imm, op).None? {
        RejectedEarly(flag, ops, j + 1);
      }
    }
  }

  /** convert_operands; None is a semantic error. */
  method ConvertOperands(flag: string -> Attr, ops: seq<string>) returns (r: Option<Attr>)
    requires forall op :: Plain(flag, op)
    ensures r == Converted(flag, ops)
  {
    var imm, mod := NIL, false;
    var j := 0;
    while j < |ops|
      invariant j <= |ops| && Converting(flag, ops, j, imm, mod)
    {
      ConvertingStep(flag, ops, j, imm, mod);
      if IsImm(ops[j]) {
        var next := ImmStep(flag, imm, ops[j]);
        if next.None? {
          return None;
        }
        imm := next.value;
      } else if IsModrm(ops[j]) {
        mod := true;
      }
      j := j + 1;
    }
    assert ops[..j] == ops;
    ImmsPlain(flag, Imms(ops));
    OrModrm(imm);
    return Some(if mod then Or(imm, MODRM) else imm);
  }

  lemma ImmsPlain(flag: string -> Attr, imms: seq<string>)
    requires forall op :: Plain(flag, op)
    ensures !ImmsFlags(flag, imms).modrm
  {
    if imms != [] {
      assert Plain(flag, imms[0]);
    }
  }
}
