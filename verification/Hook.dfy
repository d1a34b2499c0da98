/**
 * Hooking a kernel symbol (symbol_hook, symbol_restore): the function is moved
 * to a buffer instruction by instruction, and its entry is overwritten by a
 * jump to the hook.
 */
module SymbolHook {
  import opened Bytes
  import opened Inat
  import opened Decode
  import opened Relocation
  import opened CopyLoop
  import opened Relocated
  import opened InsnDecoder

  const OP_JMP_SIZE := 5
  const EFAULT := 14
  const ENOMEM := 12
  const EILSEQ := 84

  /** The end of the text with trailing zero bytes cut off. */
  function TrimEnd(text: seq<Byte>, end: nat): (r: nat)
    requires end <= |text|
    ensures r <= end && (r > 0 ==> text[r - 1] != 0) && forall i :: r <= i < end ==> text[i] == 0
  {
    if end > 0 && text[end - 1] == 0 then TrimEnd(text, end - 1) else end
  }

  /** The entry overwritten by a jump to code. */
  function Entry(text: seq<Byte>, addr: nat, code: nat): seq<Byte>
    requires |text| >= OP_JMP_SIZE
  {
    Store(text, 0, [OP_JMP] + LE(CodeOffset(addr, OP_JMP_SIZE, code), 4))
  }

  function Zeros(n: nat): seq<Byte> {
    seq<Byte>(n, _ => 0)
  }

  /**
   * struct kernsym with the memory it stands for: text is the memory from
   * sym->addr on, arena the memory that buffers are allocated from, with
   * enough behind them to show where a copy would run over.
   */
  class KernSym {
    const tables: Tables
    const addr: nat
    const size: nat
    const text: array<Byte>
    const arena: array<Byte>
    var newAddr: nat
    var newSize: nat
    var origStart: seq<Byte>
    var hijacked: bool

    ghost predicate Valid()
      reads this
    {
      && WellFormed(tables) && text != arena && addr + size < TWO64
      && size <= text.Length && OP_JMP_SIZE <= text.Length
      && (hijacked ==> |origStart| == OP_JMP_SIZE)
    }

    constructor (t: Tables, a: nat, n: nat, code: array<Byte>, memory: array<Byte>)
      requires WellFormed(t) && code != memory && a + n < TWO64 && n <= code.Length && OP_JMP_SIZE <= code.Length
      ensures Valid() && tables == t && addr == a && size == n && text == code && arena == memory && !hijacked
    {
      tables, addr, size, text, arena := t, a, n, code, memory;
      newAddr, newSize, origStart, hijacked := 0, 0, [], false;
    }

    /** memcpy into the arena. */
    method Write(at: nat, bs: seq<Byte>)
      requires at + |bs| <= arena.Length
      modifies arena
      ensures arena[..] == Store(old(arena[..]), at, bs)
    {
      for i := 0 to |bs|
        invariant arena[..] == Store(old(arena[..]), at, bs[..i])
      {
        arena[at + i] := bs[i];
      }
      assert bs[..|bs|] == bs;
    }

    /** The move that newAddr and base describe. */
    ghost function Moved(base: nat): Move
      reads this, text
    {
      Move(text[..], Func(addr, size), newAddr, base)
    }

    /** Where and what to rewrite in the copy of a decoded instruction at offset off. */
    method Fixup(insn: Insn, off: nat) returns (x: Fix)
      requires Valid() && insn.Valid() && insn.x64 && insn.stage == LENGTH
      modifies insn
      ensures insn.Valid() && insn.stage == LENGTH && insn.View() == old(insn.View())
      ensures x == FixOf(insn.View(), addr + off, newAddr + off, Func(addr, size))
    {
      if insn.opcode.bytes[0] == OP_CALL || insn.opcode.bytes[0] == OP_JMP {
        var target := CodeAddr(addr + off, insn.length, insn.imm1.value);
        if addr <= target < addr + size {
          return NoFix;
        }
        var pos := insn.prefixes.nbytes + insn.rex.nbytes + insn.vex.nbytes + insn.opcode.nbytes
                   + insn.modrm.nbytes + insn.sib.nbytes + insn.disp.nbytes;
        return Fix(pos, CodeOffset(newAddr + off, insn.length, target));
      }
      var rip := insn.IsRipRelative();
      if !rip {
        return NoFix;
      }
      var target := CodeAddr(addr + off, insn.length, insn.disp.value);
      if addr <= target < addr + size {
        return NoFix;
      }
      var pos := insn.prefixes.nbytes + insn.rex.nbytes + insn.vex.nbytes + insn.opcode.nbytes
                 + insn.modrm.nbytes + insn.sib.nbytes;
      x := Fix(pos, CodeOffset(newAddr + off, insn.length, target));
    }

    method DecodeText(off: nat) returns (insn: Insn)
      requires Valid()
      ensures fresh(insn) && insn.Valid() && insn.x64 && insn.stage == LENGTH
      ensures insn.View() == DecodeAt(tables, text[..], off) && insn.code == From(text[..], off)
    {
      var code := if off <= text.Length then text[off..] else [];
      assert code == From(text[..], off);
      insn := new Insn(tables, code, true);
      insn.GetLength();
    }

    /** Decodes the instruction at off: its bytes, and how to rewrite its copy. */
    method Examine(off: nat, ghost v: Move) returns (n: nat, raw: seq<Byte>, x: Fix)
      requires Valid() && v.text == text[..] && v.f == Func(addr, size) && v.newAddr == newAddr
      ensures var p := PieceOf(v, DecodeAt(tables, v.text, off), off);
        n == p.length && raw == Slice(From(v.text, off), 0, n) && (n != 0 ==> x == p.fix)
    {
      var insn := DecodeText(off);
      n, raw, x := insn.length, Slice(insn.code, 0, insn.length), NoFix;
      if n != 0 {
        x := Fixup(insn, off);
      }
    }

    method StoreBytes(at: nat, raw: seq<Byte>, x: Fix)
      requires at + |raw| <= arena.Length && (x.Fix? ==> 0 <= x.pos && at + x.pos + 4 <= arena.Length)
      modifies arena
      ensures arena[..] == StoreFixed(old(arena[..]), at, raw, x)
    {
      Write(at, raw);
      if x.Fix? {
        Write(at + x.pos, LE(x.word, 4));
      }
    }

    /** Decodes the instruction at off and copies it unless it has length 0. */
    method CopyPiece(base: nat, off: nat, ghost j: Job, ghost v: Move) returns (n: nat)
      requires Valid() && base + off + SLACK <= arena.Length
      requires v == Moved(base) && j.SaneAt(off) && DescribesAt(j, tables, v, off) && j.text == v.text && j.base == base
      modifies arena
      ensures n == j.piece(off).length
      ensures arena[..] == if n == 0 then old(arena[..]) else CopyInsn(j, old(arena[..]), off)
    {
      var raw, x;
      n, raw, x := Examine(off, v);
      if n != 0 {
        StoreBytes(base + off, raw, x);
      }
    }

    /** One turn of the loop, seen from what the whole loop results in. */
    method CopyTurnAt(base: nat, off: nat, end: nat, ghost j: Job, ghost v: Move, ghost run: Running) returns (n: nat)
      requires Valid() && base + end + SLACK <= arena.Length && off < end
      requires v == Moved(base) && Describes(j, tables, v) && RunsAs(run, j, end, arena.Length)
      modifies arena
      ensures n == 0 ==> run(old(arena[..]), off) == Failed(arena[..])
      ensures n != 0 ==> run(old(arena[..]), off) == run(arena[..], off + n)
    {
      assert j.SaneAt(off) && DescribesAt(j, tables, v, off);
      assert TurnsAs(run, j, end, arena[..], off);
      n := CopyPiece(base, off, j, v);
    }

    /** The decode-and-copy loop; run says what it results in from any offset. */
    method CopyPieces(base: nat, end: nat, ghost j: Job, ghost v: Move, ghost run: Running) returns (ok: bool, stop: nat)
      requires Valid() && base + end + SLACK <= arena.Length
      requires v == Moved(base) && Describes(j, tables, v) && RunsAs(run, j, end, arena.Length)
      modifies arena
      ensures var r := run(old(arena[..]), 0);
        arena[..] == r.m && ok == r.Copied? && (ok ==> stop == r.stop)
    {
      ghost var r := run(arena[..], 0);
      var off := 0;
      while off < end
        invariant Moved(base) == v && run(arena[..], off) == r
        decreases if off < end then end - off else 0
      {
        var n := CopyTurnAt(base, off, end, j, v, run);
        if n == 0 {
          return false, 0;
        }
        off := off + n;
      }
      assert TurnsAs(run, j, end, arena[..], off);
      ok, stop := true, off;
    }

    /** The decode-and-copy loop; stop is where it ended if it succeeded. */
    method CopyFunction(base: nat, end: nat) returns (ok: bool, stop: nat)
      requires Valid() && base + end + SLACK <= arena.Length
      modifies arena
      ensures var r := Copy(tables, Moved(base), old(arena[..]), end);
        arena[..] == r.m && ok == r.Copied? && (ok ==> stop == r.stop)
    {
      JobDescribes(tables, Moved(base));
      ghost var j := JobOf(tables, Moved(base));
      RunningRuns(j, end, arena.Length);
      ok, stop := CopyPieces(base, end, j, Moved(base), RunningOf(j, end, arena.Length));
    }

    /** How far the text reaches without its trailing zeros. */
    method Trim() returns (end: nat)
      requires Valid()
      ensures end == TrimEnd(text[..], size)
    {
      end := size;
      while end > 0 && text[end - 1] == 0
        invariant end <= size && TrimEnd(text[..], end) == TrimEnd(text[..], size)
      {
        end := end - 1;
      }
    }

    method PatchEntry(code: nat)
      requires Valid()
      modifies text
      ensures text[..] == Entry(old(text[..]), addr, code)
    {
      text[0] := OP_JMP;
      var word := LE(CodeOffset(addr, OP_JMP_SIZE, code), 4);
      text[1], text[2], text[3], text[4] := word[0], word[1], word[2], word[3];
      assert text[..] == Entry(old(text[..]), addr, code);
    }

    /**
     * symbol_hook. found is what looking the symbol up returned, buffer the
     * address malloc returned (0 for NULL), base where that is in the arena.
     */
    method Hook(found: int, buffer: nat, base: nat, code: nat) returns (ret: int)
      requires Valid() && base + size + SLACK <= arena.Length
      modifies this, text, arena
      ensures Valid()
      ensures ret != 0 ==> text[..] == old(text[..]) && hijacked == old(hijacked) && origStart == old(origStart)
      ensures found < 0 ==> ret == found && arena[..] == old(arena[..])
      ensures found >= 0 && old(text[0]) == 0xe9 ==> ret == -14 && arena[..] == old(arena[..])
      ensures found >= 0 && old(text[0]) != 0xe9 && buffer == 0 ==> ret == -12 && arena[..] == old(arena[..])
      ensures found >= 0 && old(text[0]) != 0xe9 && buffer != 0 ==>
        var end := TrimEnd(old(text[..]), size);
        if size < 5 then ret == -14
        else if end == 0 then ret == -84
        else
          var v := Move(old(text[..]), Func(addr, size), buffer, base);
          var r := Copy(tables, v, Store(old(arena[..]), base, Zeros(size)), end);
          && arena[..] == r.m
          && (r.Failed? ==> ret == -84)
          && (r.Copied? ==>
              && ret == 0 && hijacked && newAddr == buffer && newSize == r.stop
              && origStart == old(text[..5]) && text[..] == Entry(old(text[..]), addr, code))
    {
      if found < 0 {
        return found;
      }
      if text[0] == OP_JMP {
        return -EFAULT;
      }
      newAddr := buffer;
      if buffer == 0 {
        return -ENOMEM;
      }
      Write(base, Zeros(size));
      if size < OP_JMP_SIZE {
        return -EFAULT;
      }
      var end := Trim();
      if end == 0 {
        return -EILSEQ;
      }
      var ok, stop := CopyFunction(base, end);
      if !ok {
        return -EILSEQ;
      }
      newSize := stop;
      origStart := text[..OP_JMP_SIZE];
      PatchEntry(code);
      hijacked := true;
      ret := 0;
    }

    /** symbol_restore puts the saved entry back. */
    method Restore()
      requires Valid()
      modifies this, text
      ensures Valid() && !hijacked
      ensures text[..] == if old(hijacked) then old(origStart) + old(text[5..]) else old(text[..])
    {
      if hijacked {
        text[0], text[1], text[2], text[3], text[4] := origStart[0], origStart[1], origStart[2], origStart[3], origStart[4];
        hijacked := false;
        assert text[..] == origStart + old(text[OP_JMP_SIZE..]);
      }
    }
  }

  /**
   * What a successful hook makes of the arena: the buffer holds a faithful copy of
   * the function, if its instructions are whole; nothing before the buffer changes,
   * and nothing behind it, if a boundary reaches the size allocated and no mistaken
   * instruction ends there.
   */
  ghost predicate WellCopied(t: Tables, v: Move, was: seq<Byte>, now: seq<Byte>, end: nat, stop: nat)
    requires WellFormed(t)
  {
    && (WholeFunction(t, v, end) && (v.newAddr - v.f.addr) % TWO64 != 0 ==> Faithful(t, v, now, end, stop))
    && SameOn(was, now, 0, v.base)
    && (WholeFunction(t, v, end) && !MistakenAtEnd(t, v, end)
        && (exists b: nat :: Boundary(t, v, b) && end <= b <= v.f.size)
        ==> SameOn(was, now, v.base + v.f.size, |was|))
  }

  lemma CopiedFrames(v: Move, was: seq<Byte>, m: seq<Byte>, r: seq<Byte>)
    requires v.base + v.f.size <= |was| && m == Store(was, v.base, Zeros(v.f.size))
    ensures SameOn(m, r, 0, v.base) ==> SameOn(was, r, 0, v.base)
    ensures SameOn(m, r, v.base + v.f.size, |m|) ==> SameOn(was, r, v.base + v.f.size, |was|)
  {
  }

  lemma CopiedWell(t: Tables, v: Move, was: seq<Byte>, m: seq<Byte>, end: nat)
    requires WellFormed(t) && v.f.Valid() && end <= v.f.size && v.base + v.f.size + SLACK <= |was| == |m|
    requires m == Store(was, v.base, Zeros(v.f.size))
    ensures var r := Copy(t, v, m, end); r.Copied? ==> WellCopied(t, v, was, r.m, end, r.stop)
  {
    var r := Copy(t, v, m, end);
    if WholeFunction(t, v, end) {
      if (v.newAddr - v.f.addr) % TWO64 != 0 {
        CopyFaithful(t, v, m, end);
      }
      CopyStaysInside(t, v, m, end);
    }
    CopyWritesOnlyCopy(t, v, m, end);
    CopiedFrames(v, was, m, r.m);
  }

  /** After success the entry jumps to the hook, and the function as it was is well copied. */
  method HookFaithfully(sym: KernSym, found: int, buffer: nat, base: nat, code: nat) returns (ret: int)
    requires sym.Valid() && base + sym.size + SLACK <= sym.arena.Length
    modifies sym, sym.text, sym.arena
    ensures ret == 0 && found >= 0 ==>
      var v := Move(old(sym.text[..]), Func(sym.addr, sym.size), buffer, base);
      && sym.text[..] == Entry(v.text, sym.addr, code)
      && WellCopied(sym.tables, v, old(sym.arena[..]), sym.arena[..], TrimEnd(v.text, sym.size), sym.newSize)
  {
    ghost var v, was := Move(sym.text[..], Func(sym.addr, sym.size), buffer, base), sym.arena[..];
    ret := sym.Hook(found, buffer, base, code);
    if ret == 0 && found >= 0 {
      CopiedWell(sym.tables, v, was, Store(was, base, Zeros(sym.size)), TrimEnd(v.text, sym.size));
    }
  }

  /** Hooking and then restoring leaves the function as it was, whatever the hook's outcome. */
  method HookAndRestore(sym: KernSym, found: int, buffer: nat, base: nat, code: nat)
    requires sym.Valid() && !sym.hijacked && base + sym.size + SLACK <= sym.arena.Length
    modifies sym, sym.text, sym.arena
    ensures sym.Valid() && !sym.hijacked && sym.text[..] == old(sym.text[..])
  {
    var ret := sym.Hook(found, buffer, base, code);
    ghost var hooked := sym.text[..];
    sym.Restore();
    if ret == 0 && found >= 0 {
      EntryRestored(old(sym.text[..]), sym.addr, code);
    }
  }

  lemma EntryRestored(text: seq<Byte>, addr: nat, code: nat)
    requires |text| >= OP_JMP_SIZE
    ensures text[..OP_JMP_SIZE] + Entry(text, addr, code)[OP_JMP_SIZE..] == text
  {
  }
}
