/**
 * The decode round trip: re-encoding every field of a decoded instruction gives
 * back exactly the bytes after its legacy prefixes, and every insn_offset_* sum
 * is the position where its field starts.
 */
module Reencoding {
  import opened Bytes
  import opened Inat
  import opened Decode
  import opened Locality
  import opened RoundTrip
  import opened Lengths

  lemma StageOwn(t: Tables, c: seq<Byte>, k: nat, s: State)
    requires WellFormed(t) && 2 <= k <= IMM && Blank(s, k)
    requires k == IMM ==> SecondImmFree(s.attr)
    ensures var r := Stage(t, c, k, s);
      r.next >= s.next && Own(r, k) == Slice(c, s.next, r.next - s.next)
  {
    if k == OPCODE {
      OpcodeOwn(t, c, s);
    } else if k == MODRM {
      ModrmOwn(t, c, s);
    } else if k == SIB {
      SibOwn(c, s);
    } else if k == DISP {
      DispOwn(c, s);
    } else {
      ImmOwn(c, s);
    }
  }

  /** The fields up to stage k stand for the bytes from the end of the prefixes to the cursor. */
  predicate Encoded(c: seq<Byte>, from: nat, s: State, k: nat) {
    s.next >= from && Encoding(s, k) == Slice(c, from, s.next - from)
  }

  lemma EncodingUnfold(s: State, k: nat)
    requires k > 0
    ensures Encoding(s, k) == Encoding(s, k - 1) + Own(s, k)
  {
  }

  lemma FirstEncoded(t: Tables, c: seq<Byte>, x64: bool)
    requires WellFormed(t)
    ensures Encoded(c, PrefixCount(t, c, x64), Chain(t, c, x64, PREFIXES), PREFIXES)
  {
    ChainUnfold(t, c, x64, PREFIXES);
    PrefixOwn(t, c, x64);
    var r := PrefixStage(t, c, Init(x64));
    assert Encoding(r, PREFIXES) == [] + Own(r, PREFIXES);
  }

  lemma AppendSlices(c: seq<Byte>, from: nat, i: nat, j: nat, a: seq<Byte>, b: seq<Byte>)
    requires from <= i <= j && a == Slice(c, from, i - from) && b == Slice(c, i, j - i)
    ensures a + b == Slice(c, from, j - from)
  {
    SliceSplit(c, from, i - from, j - i);
  }

  /** A stage leaves the encoding of the earlier fields alone. */
  lemma StageKeepsEncoding(t: Tables, c: seq<Byte>, k: nat, s: State)
    requires WellFormed(t) && 2 <= k <= IMM
    ensures Encoding(Stage(t, c, k, s), k - 1) == Encoding(s, k - 1)
  {
    var r := Stage(t, c, k, s);
    forall j | 1 <= j <= k - 1
      ensures SameField(s, r, j)
    {
      StageFrame(t, c, k, s, j);
    }
    EncodingSame(s, r, k - 1);
  }

  lemma EncodedOn(c: seq<Byte>, from: nat, s: State, r: State, k: nat)
    requires k > 0 && Encoded(c, from, s, k - 1) && Encoding(r, k - 1) == Encoding(s, k - 1)
    requires r.next >= s.next && Own(r, k) == Slice(c, s.next, r.next - s.next)
    ensures Encoded(c, from, r, k)
  {
    AppendSlices(c, from, s.next, r.next, Encoding(s, k - 1), Own(r, k));
    EncodingUnfold(r, k);
  }

  lemma StageEncoded(t: Tables, c: seq<Byte>, k: nat, s: State, from: nat)
    requires WellFormed(t) && 2 <= k <= IMM && Blank(s, k) && Encoded(c, from, s, k - 1)
    requires k == IMM ==> SecondImmFree(s.attr)
    ensures Encoded(c, from, Stage(t, c, k, s), k)
  {
    StageOwn(t, c, k, s);
    StageKeepsEncoding(t, c, k, s);
    EncodedOn(c, from, s, Stage(t, c, k, s), k);
  }

  lemma StepEncoded(t: Tables, c: seq<Byte>, x64: bool, k: nat, from: nat)
    requires WellFormed(t) && 2 <= k <= IMM
    requires Encoded(c, from, Chain(t, c, x64, k - 1), k - 1)
    ensures Encoded(c, from, Chain(t, c, x64, k), k)
  {
    ChainUnfold(t, c, x64, k);
    ChainBlank(t, c, x64, k, k - 1);
    ChainTail(t, c, x64);
    StageEncoded(t, c, k, Chain(t, c, x64, k - 1), from);
  }

  lemma ChainEncoded(t: Tables, c: seq<Byte>, x64: bool, k: nat)
    requires WellFormed(t) && 1 <= k <= IMM
    ensures Encoded(c, PrefixCount(t, c, x64), Chain(t, c, x64, k), k)
  {
    FirstEncoded(t, c, x64);
    var j := 1;
    while j < k
      invariant 1 <= j <= k && Encoded(c, PrefixCount(t, c, x64), Chain(t, c, x64, j), j)
    {
      j := j + 1;
      StepEncoded(t, c, x64, j, PrefixCount(t, c, x64));
    }
  }

  /** What stage k put in the struct is still encoded by the final struct. */
  lemma FinalEncoding(t: Tables, c: seq<Byte>, x64: bool, k: nat)
    requires WellFormed(t) && 1 <= k <= IMM
    ensures Encoding(FullDecode(t, c, x64), k) == Encoding(Chain(t, c, x64, k), k)
  {
    forall j | 1 <= j <= k
      ensures SameField(Chain(t, c, x64, k), FullDecode(t, c, x64), j)
    {
      ChainFrame(t, c, x64, j, k, LENGTH);
    }
    EncodingSame(Chain(t, c, x64, k), FullDecode(t, c, x64), k);
  }

  /** Re-encoding a decoded instruction gives the bytes from the end of its prefixes to its end. */
  lemma DecodeReencode(t: Tables, c: seq<Byte>, x64: bool)
    requires WellFormed(t)
    ensures var n, e := PrefixCount(t, c, x64), Extent(t, c, x64);
      n <= e && Reencode(FullDecode(t, c, x64)) == Slice(c, n, e - n)
  {
    ChainEncoded(t, c, x64, IMM);
    FinalEncoding(t, c, x64, IMM);
    ExtentIsImm(t, c, x64);
  }

  lemma ExtentIsImm(t: Tables, c: seq<Byte>, x64: bool)
    requires WellFormed(t)
    ensures Extent(t, c, x64) == Chain(t, c, x64, IMM).next
  {
    ChainUnfold(t, c, x64, LENGTH);
  }

  /** insn_offset_* for the fields of stage k, with stage 7 standing for the end of the immediates. */
  function OffsetOf(s: State, k: nat): int {
    if k == PREFIXES then OffsetRex(s)
    else if k == OPCODE then OffsetOpcode(s)
    else if k == MODRM then OffsetModrm(s)
    else if k == SIB then OffsetSib(s)
    else if k == DISP then OffsetDisp(s)
    else if k == IMM then OffsetImm(s)
    else OffsetImm(s) + s.imm1.nbytes + s.imm2.nbytes
  }

  predicate ShortFields(s: State) {
    s.vex.nbytes <= 4 && s.opcode.nbytes <= 4
  }

  lemma {:induction false} OffsetIsSum(s: State, k: nat)
    requires 1 <= k <= LENGTH && ShortFields(s)
    ensures OffsetOf(s, k) == s.prefixes.nbytes + |Encoding(s, k - 1)|
  {
    if k > 1 {
      OffsetIsSum(s, k - 1);
      assert |Encoding(s, k - 1)| == |Encoding(s, k - 2)| + |Own(s, k - 1)|;
    }
  }

  lemma FieldsShort(t: Tables, c: seq<Byte>, x64: bool)
    requires WellFormed(t)
    ensures ShortFields(FullDecode(t, c, x64))
    ensures FullDecode(t, c, x64).prefixes.nbytes == PrefixCount(t, c, x64) % 256
  {
    InstructionLength(t, c, x64);
    ChainFrame(t, c, x64, OPCODE, OPCODE, LENGTH);
    ChainFrame(t, c, x64, PREFIXES, PREFIXES, LENGTH);
    ChainUnfold(t, c, x64, PREFIXES);
    PrefixBound(t, c, x64);
    PrefixNbytes(t, c, x64);
  }

  lemma PrefixNbytes(t: Tables, c: seq<Byte>, x64: bool)
    requires t.primary[0].pfx == 0
    ensures PrefixStage(t, c, Init(x64)).prefixes.nbytes == PrefixCount(t, c, x64) % 256
  {
    var l := LegacyStage(t, c, Init(x64));
    RexFrame(t, c, l);
    VexPrefixes(t, c, RexStage(t, c, l));
  }

  lemma VexPrefixes(t: Tables, c: seq<Byte>, s: State)
    ensures VexStage(t, c, s).prefixes.nbytes == s.prefixes.nbytes
  {
  }

  lemma CursorIsLength(t: Tables, c: seq<Byte>, x64: bool, k: nat)
    requires WellFormed(t) && 1 <= k <= IMM
    ensures Chain(t, c, x64, k).next == PrefixCount(t, c, x64) + |Encoding(FullDecode(t, c, x64), k)|
  {
    FinalEncoding(t, c, x64, k);
    ChainEncoded(t, c, x64, k);
  }

  lemma OffsetIsLength(t: Tables, c: seq<Byte>, x64: bool, k: nat)
    requires WellFormed(t) && 1 <= k <= LENGTH && PrefixCount(t, c, x64) < 256
    ensures OffsetOf(FullDecode(t, c, x64), k) == PrefixCount(t, c, x64) + |Encoding(FullDecode(t, c, x64), k - 1)|
  {
    FieldsShort(t, c, x64);
    OffsetIsSum(FullDecode(t, c, x64), k);
  }

  /** With less than 256 prefix bytes, the offset of stage k's fields is the cursor before that stage. */
  lemma OffsetIsCursor(t: Tables, c: seq<Byte>, x64: bool, k: nat)
    requires WellFormed(t) && 2 <= k <= LENGTH && PrefixCount(t, c, x64) < 256
    ensures OffsetOf(FullDecode(t, c, x64), k) == Chain(t, c, x64, k - 1).next
  {
    OffsetIsLength(t, c, x64, k);
    CursorIsLength(t, c, x64, k - 1);
  }

  lemma OwnInPlace(c: seq<Byte>, from: nat, s: State, r: State, k: nat)
    requires 1 <= k <= IMM && Encoded(c, from, r, k) && Encoding(s, k) == Encoding(r, k)
    ensures Own(s, k) == Slice(c, from + |Encoding(s, k - 1)|, |Own(s, k)|)
  {
    EncodingUnfold(s, k);
    PartOfSlice(c, from, r.next - from, Encoding(s, k - 1), Own(s, k));
  }

  predicate FieldInPlace(c: seq<Byte>, s: State, k: nat) {
    OffsetOf(s, k) >= 0 && Own(s, k) == Slice(c, OffsetOf(s, k), |Own(s, k)|)
  }

  lemma FieldAtOffset(c: seq<Byte>, from: nat, s: State, r: State, k: nat)
    requires 1 <= k <= IMM && Encoded(c, from, r, k) && Encoding(s, k) == Encoding(r, k)
    requires OffsetOf(s, k) == from + |Encoding(s, k - 1)|
    ensures FieldInPlace(c, s, k)
  {
    OwnInPlace(c, from, s, r, k);
  }

  /** Each field's bytes are found at its offset. */
  lemma OffsetsTrue(t: Tables, c: seq<Byte>, x64: bool, k: nat)
    requires WellFormed(t) && 1 <= k <= IMM && PrefixCount(t, c, x64) < 256
    ensures FieldInPlace(c, FullDecode(t, c, x64), k)
  {
    OffsetIsLength(t, c, x64, k);
    FinalEncoding(t, c, x64, k);
    ChainEncoded(t, c, x64, k);
    FieldAtOffset(c, PrefixCount(t, c, x64), FullDecode(t, c, x64), Chain(t, c, x64, k), k);
  }

  /** The fields lie end to end, and the last one ends where the instruction ends. */
  lemma OffsetsAdjacent(t: Tables, c: seq<Byte>, x64: bool, k: nat)
    requires WellFormed(t) && 1 <= k <= IMM && PrefixCount(t, c, x64) < 256
    ensures var s := FullDecode(t, c, x64);
      OffsetOf(s, k) + |Own(s, k)| == OffsetOf(s, k + 1) && OffsetOf(s, LENGTH) == Extent(t, c, x64)
  {
    OffsetIsLength(t, c, x64, k);
    OffsetIsLength(t, c, x64, k + 1);
    EncodingUnfold(FullDecode(t, c, x64), k);
    OffsetIsCursor(t, c, x64, LENGTH);
    ExtentIsImm(t, c, x64);
  }

  lemma PartOfSlice(c: seq<Byte>, from: nat, n: nat, a: seq<Byte>, b: seq<Byte>)
    requires a + b == Slice(c, from, n)
    ensures b == Slice(c, from + |a|, |b|)
  {
    forall i | 0 <= i < |b|
      ensures b[i] == Slice(c, from + |a|, |b|)[i]
    {
      assert b[i] == (a + b)[|a| + i] == Slice(c, from, n)[|a| + i];
    }
  }
}
