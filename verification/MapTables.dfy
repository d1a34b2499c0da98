/**
 * From the lines of one table of the opcode map to base and variant tables,
 * and why looking an opcode up in them is reading its lines.
 */
module MapTables {
  import opened Bytes
  import opened Inat

  /** An alternative with flags; tag 1 to 3 when it needs the last prefix 66, F3 or F2. ext are its extras. */
  datatype Alt = Alt(flags: Attr, tag: bv4, ext: string) {
    predicate Proper() {
      flags != NIL && !flags.variant && tag <= LSTPFX_MAX
    }
  }

  /** A line of a table: an opcode (or a ModRM reg value) and its alternatives with flags. */
  datatype Line = Line(idx: nat, alts: seq<Alt>)

  // ---- Reading the lines directly ----

  function AltsOf(body: seq<Line>, idx: nat): seq<Alt> {
    if body == [] then []
    else
      var last := body[|body| - 1];
      AltsOf(body[..|body| - 1], idx) + if last.idx == idx then last.alts else []
  }

  /** The flags of all alternatives with a tag. */
  function Union(alts: seq<Alt>, tag: bv4): Attr {
    if alts == [] then NIL
    else
      var last := alts[|alts| - 1];
      Or(Union(alts[..|alts| - 1], tag), if last.tag == tag then last.flags else NIL)
  }

  predicate AnyTagged(alts: seq<Alt>) {
    exists k :: 0 <= k < |alts| && alts[k].tag != 0
  }

  const VARIANT: Attr := NIL.(variant := true)

  /** Without a mandatory prefix: the untagged alternatives, marked when there are tagged ones. */
  function BaseReading(alts: seq<Alt>): Attr {
    Or(Union(alts, 0), if AnyTagged(alts) then VARIANT else NIL)
  }

  /** What the lines say of an opcode after last prefix number m, 0 for none of the mandatory ones. */
  function Reading(alts: seq<Alt>, m: bv4): Attr {
    if m != 0 && AnyTagged(alts) then Union(alts, m) else BaseReading(alts)
  }

  // ---- Building the tables ----

  type Row = map<nat, Attr>

  /** table, lptable1, lptable2 and lptable3. */
  datatype Rows = Rows(base: Row, lp1: Row, lp2: Row, lp3: Row) {
    function At(m: bv4): Row {
      if m == 0 then base else if m == 1 then lp1 else if m == 2 then lp2 else lp3
    }
  }

  const EMPTY := Rows(map[], map[], map[], map[])

  function Get(row: Row, idx: nat): Attr {
    if idx in row then row[idx] else NIL
  }

  /** row[idx] = add_flags(row[idx], flags) */
  function AddTo(row: Row, idx: nat, flags: Attr): Row {
    row[idx := Or(Get(row, idx), flags)]
  }

  function AddAlt(rows: Rows, idx: nat, alt: Alt): Rows {
    if alt.tag == 0 then rows.(base := AddTo(rows.base, idx, alt.flags))
    else if alt.tag == 1 then rows.(lp1 := AddTo(rows.lp1, idx, alt.flags))
    else if alt.tag == 2 then rows.(lp2 := AddTo(rows.lp2, idx, alt.flags))
    else rows.(lp3 := AddTo(rows.lp3, idx, alt.flags))
  }

  function AddAlts(rows: Rows, idx: nat, alts: seq<Alt>): Rows {
    if alts == [] then rows else AddAlt(AddAlts(rows, idx, alts[..|alts| - 1]), idx, alts[|alts| - 1])
  }

  /** The variant mark goes to the base table, at the end of the line. */
  function AddLine(rows: Rows, line: Line): Rows {
    var r := AddAlts(rows, line.idx, line.alts);
    if AnyTagged(line.alts) then r.(base := AddTo(r.base, line.idx, VARIANT)) else r
  }

  // ---- The tables hold the lines ----

  predicate AllProper(alts: seq<Alt>) {
    forall k :: 0 <= k < |alts| ==> alts[k].Proper()
  }

  predicate Holds(rows: Rows, alts: seq<Alt>, idx: nat) {
    && (idx in rows.base <==> alts != [])
    && Get(rows.base, idx) == BaseReading(alts)
    && Get(rows.lp1, idx) == Union(alts, 1) && Get(rows.lp2, idx) == Union(alts, 2) && Get(rows.lp3, idx) == Union(alts, 3)
    && AllProper(alts)
  }

  ghost predicate Built(rows: Rows, body: seq<Line>) {
    forall idx: nat :: Holds(rows, AltsOf(body, idx), idx)
  }

  /** During a line: row m holds the alternatives so far, before the variant mark. */
  predicate Filled(row: Row, alts: seq<Alt>, idx: nat, m: bv4) {
    Get(row, idx) == Union(alts, m)
  }

  predicate Filling(rows: Rows, alts: seq<Alt>, idx: nat) {
    Filled(rows.base, alts, idx, 0) && Filled(rows.lp1, alts, idx, 1) && Filled(rows.lp2, alts, idx, 2) && Filled(rows.lp3, alts, idx, 3)
  }

  lemma FillRow(row: Row, idx: nat, alts: seq<Alt>, alt: Alt, m: bv4)
    requires Filled(row, alts, idx, m)
    ensures Filled(if alt.tag == m then AddTo(row, idx, alt.flags) else row, alts + [alt], idx, m)
  {
    assert (alts + [alt])[..|alts|] == alts;
    OrNil(Union(alts, m));
  }

  lemma FillOne(rows: Rows, idx: nat, alts: seq<Alt>, alt: Alt)
    requires Filling(rows, alts, idx) && alt.tag <= LSTPFX_MAX
    ensures Filling(AddAlt(rows, idx, alt), alts + [alt], idx)
  {
    FillRow(rows.base, idx, alts, alt, 0);
    FillRow(rows.lp1, idx, alts, alt, 1);
    FillRow(rows.lp2, idx, alts, alt, 2);
    FillRow(rows.lp3, idx, alts, alt, 3);
  }

  lemma {:induction false} FillAll(rows: Rows, idx: nat, alts: seq<Alt>)
    requires Filling(rows, [], idx) && AllProper(alts)
    ensures Filling(AddAlts(rows, idx, alts), alts, idx)
  {
    if alts != [] {
      var rest, last := alts[..|alts| - 1], alts[|alts| - 1];
      FillAll(rows, idx, rest);
      assert last.Proper();
      FillOne(AddAlts(rows, idx, rest), idx, rest, last);
      assert rest + [last] == alts;
    }
  }

  /** Only entries of the line's own index change. */
  predicate SameAt(r: Rows, rows: Rows, other: nat) {
    && (other in r.base <==> other in rows.base) && Get(r.base, other) == Get(rows.base, other)
    && Get(r.lp1, other) == Get(rows.lp1, other) && Get(r.lp2, other) == Get(rows.lp2, other)
    && Get(r.lp3, other) == Get(rows.lp3, other)
  }

  lemma {:induction false} AddAltsElsewhere(rows: Rows, idx: nat, alts: seq<Alt>, other: nat)
    requires other != idx
    ensures SameAt(AddAlts(rows, idx, alts), rows, other)
  {
    if alts != [] {
      AddAltsElsewhere(rows, idx, alts[..|alts| - 1], other);
    }
  }

  /** The base table gets an entry from an untagged alternative. */
  lemma {:induction false} AddAltsBase(rows: Rows, idx: nat, alts: seq<Alt>)
    requires idx !in rows.base
    ensures idx in AddAlts(rows, idx, alts).base <==> exists k :: 0 <= k < |alts| && alts[k].tag == 0
  {
    if alts != [] {
      var rest, last := alts[..|alts| - 1], alts[|alts| - 1];
      AddAltsBase(rows, idx, rest);
      assert forall k :: 0 <= k < |rest| ==> alts[k] == rest[k];
      assert last.tag == 0 ==> alts[|alts| - 1].tag == 0;
    }
  }

  lemma AltsOfOne(body: seq<Line>, line: Line, idx: nat)
    ensures AltsOf(body + [line], idx) == AltsOf(body, idx) + if line.idx == idx then line.alts else []
  {
    assert (body + [line])[..|body|] == body;
  }

  /** An accepted line adds what it says and nothing else. */
  lemma LineBuilt(rows: Rows, body: seq<Line>, line: Line)
    requires Built(rows, body) && line.idx !in rows.base && AllProper(line.alts)
    ensures Built(AddLine(rows, line), body + [line])
  {
    var r := AddLine(rows, line);
    forall idx: nat
      ensures Holds(r, AltsOf(body + [line], idx), idx)
    {
      AltsOfOne(body, line, idx);
      assert Holds(rows, AltsOf(body, idx), idx);
      if idx == line.idx {
        assert AltsOf(body, idx) == [];
        LineHolds(rows, line);
        assert [] + line.alts == line.alts;
      } else {
        LineElsewhere(rows, line, AltsOf(body, idx), idx);
        assert AltsOf(body, idx) + [] == AltsOf(body, idx);
      }
    }
  }

  lemma LineElsewhere(rows: Rows, line: Line, alts: seq<Alt>, idx: nat)
    requires Holds(rows, alts, idx) && idx != line.idx
    ensures Holds(AddLine(rows, line), alts, idx)
  {
    AddAltsElsewhere(rows, line.idx, line.alts, idx);
  }

  lemma LineHolds(rows: Rows, line: Line)
    requires Holds(rows, [], line.idx) && AllProper(line.alts)
    ensures Holds(AddLine(rows, line), line.alts, line.idx)
  {
    var idx, alts := line.idx, line.alts;
    OrNil(NIL);
    assert Filling(rows, [], idx);
    FillAll(rows, idx, alts);
    AddAltsBase(rows, idx, alts);
    OrNil(Union(alts, 0));
    if alts != [] && alts[0].tag != 0 {
      assert AnyTagged(alts);
    }
  }

  // ---- Looking up is reading ----

  lemma {:induction false} UnionPlain(alts: seq<Alt>, m: bv4)
    requires AllProper(alts)
    ensures !Union(alts, m).variant
  {
    if alts != [] {
      UnionPlain(alts[..|alts| - 1], m);
      assert alts[|alts| - 1].Proper();
    }
  }

  lemma BaseVariant(rows: Rows, alts: seq<Alt>, idx: nat)
    requires Holds(rows, alts, idx)
    ensures Get(rows.base, idx).variant == AnyTagged(alts)
  {
    UnionPlain(alts, 0);
  }

  function PrintedOpcodes(row: Row): OpTable { seq(256, i requires 0 <= i => Get(row, i)) }
  function PrintedGroup(row: Row): GrpTable { seq(8, i requires 0 <= i => Get(row, i)) }

  /** A table array is emitted only when it has entries. */
  ghost predicate EscapePlaced(t: Tables, n: bv2, rows: Rows) {
    forall m: bv4 :: m <= LSTPFX_MAX ==>
      && ((n, m) in t.escape <==> rows.At(m) != map[])
      && ((n, m) in t.escape ==> t.escape[(n, m)] == PrintedOpcodes(rows.At(m)))
  }

  ghost predicate GroupPlaced(t: Tables, n: bv5, rows: Rows) {
    forall m: bv4 :: m <= LSTPFX_MAX ==>
      && ((n, m) in t.group <==> rows.At(m) != map[])
      && ((n, m) in t.group ==> t.group[(n, m)] == PrintedGroup(rows.At(m)))
  }

  lemma RowReads(rows: Rows, alts: seq<Alt>, idx: nat, m: bv4)
    requires Holds(rows, alts, idx) && m <= LSTPFX_MAX
    ensures m != 0 ==> Get(rows.At(m), idx) == Union(alts, m)
    ensures rows.base == map[] ==> alts == []
  {
  }

  lemma NothingRead(m: bv4)
    ensures Reading([], m) == NIL
  {
    OrNil(NIL);
  }

  /** inat_get_escape_attribute on the compiled tables is the direct reading of the lines. */
  lemma EscapeReads(t: Tables, n: bv2, rows: Rows, body: seq<Line>, op: Byte, lastPfx: Byte, escAttr: Attr)
    requires Built(rows, body) && EscapePlaced(t, n, rows) && escAttr.esc == n
    ensures EscapeAttribute(t, op, lastPfx, escAttr) == Reading(AltsOf(body, op), VariantId(t, lastPfx))
  {
    var m, alts := VariantId(t, lastPfx), AltsOf(body, op);
    assert Holds(rows, alts, op);
    BaseVariant(rows, alts, op);
    RowReads(rows, alts, op, m);
    NothingRead(m);
    assert rows.At(0) == rows.base;
  }

  /** inat_get_group_attribute also adds what the referring opcode says, apart from the group number. */
  lemma GroupReads(t: Tables, n: bv5, rows: Rows, body: seq<Line>, modrm: Byte, lastPfx: Byte, grpAttr: Attr)
    requires Built(rows, body) && GroupPlaced(t, n, rows) && grpAttr.grp == n
    ensures GroupAttribute(t, modrm, lastPfx, grpAttr)
         == Or(Reading(AltsOf(body, modrm / 8 % 8), VariantId(t, lastPfx)), GroupCommon(grpAttr))
  {
    var m, alts := VariantId(t, lastPfx), AltsOf(body, modrm / 8 % 8);
    assert Holds(rows, alts, modrm / 8 % 8);
    BaseVariant(rows, alts, modrm / 8 % 8);
    RowReads(rows, alts, modrm / 8 % 8, m);
    NothingRead(m);
    OrNil(GroupCommon(grpAttr));
    assert rows.At(0) == rows.base;
  }

  /** VEX.pp is the prefix number itself. */
  function PrefixNumberOf(p: int): bv4 {
    if p == 1 then 1 else if p == 2 then 2 else if p == 3 then 3 else 0
  }

  predicate AvxPlacedAt(avx: map<(int, int), OpTable>, a: nat, p: nat, row: Row) {
    ((a, p) in avx <==> row != map[]) && ((a, p) in avx ==> avx[(a, p)] == PrintedOpcodes(row))
  }

  ghost predicate AvxPlaced(t: Tables, a: nat, rows: Rows) {
    forall p: nat :: p < 4 ==> AvxPlacedAt(t.avx, a, p, rows.At(PrefixNumberOf(p)))
  }

  /** inat_get_avx_attribute on the compiled tables. */
  lemma AvxReads(t: Tables, a: nat, rows: Rows, body: seq<Line>, op: Byte, p: nat)
    requires Built(rows, body) && AvxPlaced(t, a, rows) && a < 32 && p < 4
    ensures var alts := AltsOf(body, op);
      AvxAttribute(t, op, a, p) == if p == 0 then BaseReading(alts) else Union(alts, PrefixNumberOf(p))
  {
    var alts := AltsOf(body, op);
    assert Holds(rows, alts, op);
    RowReads(rows, alts, op, PrefixNumberOf(p));
    assert AvxPlacedAt(t.avx, a, p, rows.At(PrefixNumberOf(p)));
  }
}
