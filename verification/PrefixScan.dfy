/**
 * What the scan over legacy prefixes computes: which bytes it consumes, what it
 * stores, and how it leaves the operand and address sizes.
 */
module PrefixScan {
  import opened Bytes
  import opened Inat
  import opened Decode

  /** b occurs among the first n bytes of memory. */
  ghost predicate Seen(c: seq<Byte>, n: nat, b: Byte) {
    exists i: nat :: i < n && At(c, i) == b
  }

  /** The stored bytes are the distinct prefixes consumed so far, in order of first appearance. */
  ghost predicate Stored(t: Tables, c: seq<Byte>, k: Scan) {
    && k.nb <= 4
    && (forall i: nat :: i < k.pos ==> IsLegacyPrefix(t.primary[At(c, i)]) && At(c, i) in k.bytes[..k.nb])
    && (forall j :: 0 <= j < k.nb ==> k.bytes[j] != 0 && Seen(c, k.pos, k.bytes[j]))
    && (forall i, j :: 0 <= i < j < k.nb ==> k.bytes[i] != k.bytes[j])
    && (forall j :: k.nb <= j < 4 ==> k.bytes[j] == 0)
    && k.last == if k.pos == 0 then 0 else At(c, k.pos - 1)
  }

  ghost predicate Sized(x64: bool, k: Scan)
    requires k.nb <= 4
  {
    && k.opnd == (if 0x66 in k.bytes[..k.nb] then 2 else 4)
    && k.addr == (if 0x67 in k.bytes[..k.nb] then (if x64 then 4 else 2) else (if x64 then 8 else 4))
  }

  lemma TurnStores(t: Tables, c: seq<Byte>, x64: bool, k: Scan)
    requires PrefixesSound(t) && Stored(t, c, k)
    requires ScanTurn(t, c, x64, k).Go?
    ensures Stored(t, c, ScanTurn(t, c, x64, k).k)
  {
    var b := At(c, k.pos);
    var r := ScanTurn(t, c, x64, k).k;
    assert b != 0;
    assert r.bytes[..r.nb] == k.bytes[..k.nb] + (if b in k.bytes[..k.nb] then [] else [b]);
    forall j | 0 <= j < r.nb
      ensures r.bytes[j] != 0 && Seen(c, r.pos, r.bytes[j])
    {
      if j < k.nb {
        var i: nat :| i < k.pos && At(c, i) == k.bytes[j];
        assert i < r.pos && At(c, i) == r.bytes[j];
      } else {
        assert k.pos < r.pos && At(c, k.pos) == r.bytes[j];
      }
    }
    forall i, j | 0 <= i < j < r.nb
      ensures r.bytes[i] != r.bytes[j]
    {
      if j == k.nb {
        assert k.bytes[i] in k.bytes[..k.nb];
      }
    }
  }

  lemma TurnSizes(t: Tables, c: seq<Byte>, x64: bool, k: Scan)
    requires PrefixesSound(t) && k.nb <= 4 && Sized(x64, k)
    requires ScanTurn(t, c, x64, k).Go?
    ensures Sized(x64, ScanTurn(t, c, x64, k).k)
  {
    var b := At(c, k.pos);
    assert PrefixSound(t, b);
    var r := ScanTurn(t, c, x64, k).k;
    assert r.bytes[..r.nb] == k.bytes[..k.nb] + (if b in k.bytes[..k.nb] then [] else [b]);
  }

  lemma {:induction false} ScanKeeps(t: Tables, c: seq<Byte>, x64: bool, k: Scan)
    requires PrefixesSound(t) && Stored(t, c, k) && Sized(x64, k)
    ensures var r := ScanFrom(t, c, x64, k);
      Stored(t, c, r) && Sized(x64, r) && ScanTurn(t, c, x64, r).Stop?
    decreases if k.pos < |c| then |c| - k.pos else 0
  {
    if ScanTurn(t, c, x64, k).Go? {
      TurnStores(t, c, x64, k);
      TurnSizes(t, c, x64, k);
      ScanKeeps(t, c, x64, ScanTurn(t, c, x64, k).k);
    }
  }

  /** Moving the last prefix to bytes[3] keeps the set of stored prefixes. */
  lemma SetLastKeeps(q: Quad, nb: nat, last: Byte)
    requires nb <= 4 && (forall i, j :: 0 <= i < j < nb ==> q[i] != q[j])
    requires (forall j :: 0 <= j < nb ==> q[j] != 0) && (forall j :: nb <= j < 4 ==> q[j] == 0)
    requires last in q[..nb] || (nb == 0 && last == 0)
    ensures SetLast(q, nb, last)[3] == last
    ensures forall b: Byte :: b != 0 ==> (b in SetLast(q, nb, last) <==> b in q)
  {
    var r := SetLast(q, nb, last);
    assert last != 0 ==> exists j :: 0 <= j < nb && q[j] == last;
    forall b: Byte | b != 0
      ensures b in r <==> b in q
    {
      if r != q && q[3] != 0 {
        var j :| 0 <= j < nb && q[j] == last;
        assert r[j] == q[3];
        assert forall i :: 0 <= i < 3 && i != j ==> r[i] == q[i];
      }
      assert b in r <==> b == r[0] || b == r[1] || b == r[2] || b == r[3];
      assert b in q <==> b == q[0] || b == q[1] || b == q[2] || b == q[3];
    }
  }

  /** The bytes stored: the last prefix, and the set of all of them. */
  lemma LegacyBytes(t: Tables, c: seq<Byte>, x64: bool)
    requires PrefixesSound(t)
    ensures var n := PrefixCount(t, c, x64);
      var s := LegacyStage(t, c, Init(x64));
      && s.prefixes.bytes[3] == (if n == 0 then 0 else At(c, n - 1))
      && (forall b: Byte :: b != 0 ==> (b in s.prefixes.bytes <==> Seen(c, n, b)))
  {
    var k := ScanResult(t, c, x64);
    SetLastKeeps(k.bytes, k.nb, k.last);
    StoredIsSeen(t, c, k);
    PaddingIsZero(k.bytes, k.nb);
  }

  /** Where the scan stops. */
  lemma LegacyStop(t: Tables, c: seq<Byte>, x64: bool)
    requires PrefixesSound(t)
    ensures var n := PrefixCount(t, c, x64);
      var s := LegacyStage(t, c, Init(x64));
      IsLegacyPrefix(t.primary[At(c, n)]) ==> !Seen(c, n, At(c, n)) && forall j :: 0 <= j < 4 ==> s.prefixes.bytes[j] != 0
  {
    var k := ScanResult(t, c, x64);
    SetLastKeeps(k.bytes, k.nb, k.last);
    StoredIsSeen(t, c, k);
    if IsLegacyPrefix(t.primary[At(c, k.pos)]) {
      FourStored(k.bytes, k.last);
    }
  }

  /**
   * The prefixes of any instruction: the n bytes consumed are all legacy
   * prefixes; bytes[3] is the last of them (0 if none); the non-zero stored
   * bytes are exactly the set consumed; the scan stops at a byte that is no
   * prefix or would be a fifth distinct one; and the sizes are toggled once if
   * 66 or 67 occurs, however often.
   */
  lemma LegacyPrefixes(t: Tables, c: seq<Byte>, x64: bool)
    requires PrefixesSound(t)
    ensures var n := PrefixCount(t, c, x64);
      var s := LegacyStage(t, c, Init(x64));
      && s.next == n && s.prefixes.nbytes == n % 256
      && (forall i: nat :: i < n ==> IsLegacyPrefix(t.primary[At(c, i)]))
      && s.prefixes.bytes[3] == (if n == 0 then 0 else At(c, n - 1))
      && (forall b: Byte :: b != 0 ==> (b in s.prefixes.bytes <==> Seen(c, n, b)))
      && (IsLegacyPrefix(t.primary[At(c, n)]) ==> !Seen(c, n, At(c, n)) && forall j :: 0 <= j < 4 ==> s.prefixes.bytes[j] != 0)
      && s.opnd == (if Seen(c, n, 0x66) then 2 else 4)
      && s.addr == (if Seen(c, n, 0x67) then (if x64 then 4 else 2) else (if x64 then 8 else 4))
  {
    var k := ScanResult(t, c, x64);
    LegacyBytes(t, c, x64);
    LegacyStop(t, c, x64);
  }

  lemma ScanResult(t: Tables, c: seq<Byte>, x64: bool) returns (k: Scan)
    requires PrefixesSound(t)
    ensures k == ScanFrom(t, c, x64, ScanInit(4, if x64 then 8 else 4))
    ensures Stored(t, c, k) && Sized(x64, k) && ScanTurn(t, c, x64, k).Stop?
    ensures k.last in k.bytes[..k.nb] || (k.nb == 0 && k.last == 0)
  {
    var k0 := ScanInit(4, if x64 then 8 else 4);
    ScanKeeps(t, c, x64, k0);
    k := ScanFrom(t, c, x64, k0);
    assert k.nb > 0 ==> Seen(c, k.pos, k.bytes[0]);
  }

  lemma PaddingIsZero(q: Quad, nb: nat)
    requires nb <= 4 && forall j :: nb <= j < 4 ==> q[j] == 0
    ensures forall b: Byte :: b != 0 ==> (b in q <==> b in q[..nb])
  {
    assert q == q[..nb] + q[nb..];
  }

  lemma FourStored(q: Quad, last: Byte)
    requires (forall j :: 0 <= j < 4 ==> q[j] != 0) && last != 0
    ensures forall j :: 0 <= j < 4 ==> SetLast(q, 4, last)[j] != 0
  {
  }

  lemma StoredIsSeen(t: Tables, c: seq<Byte>, k: Scan)
    requires Stored(t, c, k)
    ensures forall b: Byte :: b in k.bytes[..k.nb] <==> Seen(c, k.pos, b)
  {
    forall b: Byte
      ensures b in k.bytes[..k.nb] <==> Seen(c, k.pos, b)
    {
      if b in k.bytes[..k.nb] {
        var j :| 0 <= j < k.nb && k.bytes[j] == b;
      }
      if Seen(c, k.pos, b) {
        var i: nat :| i < k.pos && At(c, i) == b;
      }
    }
  }

  /** Operand and address sizes are 2, 4 or 8 after every stage. */
  ghost predicate SaneSizes(s: State) {
    && (s.opnd == 2 || s.opnd == 4 || s.opnd == 8)
    && s.addr in (if s.x64 then {4 as bv8, 8} else {2 as bv8, 4})
  }

  lemma LegacySizes(t: Tables, c: seq<Byte>, x64: bool)
    requires PrefixesSound(t)
    ensures SaneSizes(LegacyStage(t, c, Init(x64)))
  {
    var k := ScanResult(t, c, x64);
  }

  lemma RexVexSizes(t: Tables, c: seq<Byte>, s: State)
    requires SaneSizes(s)
    ensures SaneSizes(RexStage(t, c, s)) && SaneSizes(VexStage(t, c, s))
  {
  }

  lemma SizesFromPrefixes(t: Tables, c: seq<Byte>, x64: bool)
    requires PrefixesSound(t)
    ensures SaneSizes(PrefixStage(t, c, Init(x64)))
  {
    LegacySizes(t, c, x64);
    var l := LegacyStage(t, c, Init(x64));
    RexVexSizes(t, c, l);
    RexVexSizes(t, c, RexStage(t, c, l));
  }

  lemma OpcodeKeepsSizes(t: Tables, c: seq<Byte>, s: State)
    requires EscapesRanked(t)
    ensures var r := OpcodeStage(t, c, s); r.opnd == s.opnd && r.addr == s.addr && r.x64 == s.x64
  {
    if !IsAvx(s) {
      EscapesKeepSizes(t, c, FirstOpcode(c, s).(attr := t.primary[At(c, s.next)]));
    }
  }

  lemma StageKeepsSizes(t: Tables, c: seq<Byte>, k: nat, s: State)
    requires WellFormed(t) && 2 <= k && SaneSizes(s)
    ensures SaneSizes(Stage(t, c, k, s))
  {
    if k == OPCODE {
      OpcodeKeepsSizes(t, c, s);
    } else if k == MODRM {
      ModrmSizes(t, c, s);
    } else if k == IMM {
      ImmKeepsSizes(c, s);
    } else if k == DISP {
      assert DispStage(c, s).opnd == s.opnd;
    }
  }

  lemma ModrmSizes(t: Tables, c: seq<Byte>, s: State)
    ensures var r := ModrmStage(t, c, s); (r.opnd == s.opnd || r.opnd == 8) && r.addr == s.addr && r.x64 == s.x64
  {
  }

  lemma ImmKeepsSizes(c: seq<Byte>, s: State)
    ensures var r := ImmStage(c, s); r.opnd == s.opnd && r.addr == s.addr && r.x64 == s.x64
  {
  }

  lemma {:induction false} EscapesKeepSizes(t: Tables, c: seq<Byte>, s: State)
    requires EscapesRanked(t)
    requires s.opcode.nbytes + EscRank(s.attr.esc) <= 3
    ensures var r := Escapes(t, c, s);
      r.opnd == s.opnd && r.addr == s.addr && r.x64 == s.x64
    decreases EscRank(s.attr.esc)
  {
    if s.attr.esc != 0 {
      EscapesKeepSizes(t, c, EscapeStep(t, c, s));
    }
  }

  lemma {:induction false} SizesSane(t: Tables, c: seq<Byte>, x64: bool, k: nat)
    requires WellFormed(t)
    ensures SaneSizes(Chain(t, c, x64, k))
  {
    if k == 1 {
      SizesFromPrefixes(t, c, x64);
      assert Chain(t, c, x64, 1) == Stage(t, c, 1, Chain(t, c, x64, 0));
    } else if k > 1 {
      SizesSane(t, c, x64, k - 1);
      StageKeepsSizes(t, c, k, Chain(t, c, x64, k - 1));
    }
  }
}
