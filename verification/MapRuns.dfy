/**
 * The whole script over a map file: what each line does to the working
 * variables, and what the emitted tables then answer for every opcode and
 * ModRM reg value of every table in the file.
 */
module MapRuns {
  import opened Bytes
  import opened Wrappers
  import opened Inat
  import opened OpcodeText
  import opened OpcodeLines
  import T = MapTables

  /** A line of the file, told by its first field; idx is the number before the colon. */
  datatype MapLine =
    | TableLine
    | Referrer(name: seq<string>)
    | AvxCode(code: Option<nat>)
    | GrpTable(group: string)
    | EndTable
    | Opcode(idx: nat, fields: seq<string>)

  /** table and lptable1 to 3 of every table emitted, by its number and the prefix number. */
  type Stored = map<(int, bv4), T.Row>

  /** tname, but for the number in it. */
  datatype TableName = Unnamed | PrimaryTable | EscapeTable | AvxTable | GroupTable

  /**
   * The script's variables. The array escape has an entry for every name in escapes
   * and, made by looking it up and without a number, for every one in mentioned.
   * primary is what was printed under the name of the primary table.
   */
  datatype State = State(escapes: map<string, nat>, mentioned: set<string>, groups: map<string, nat>, geid: nat, ggid: nat,
                         rows: T.Rows, eid: int, gid: int, aid: int, tname: TableName,
                         primary: T.Row, etable: Stored, gtable: Stored, atable: Stored)

  const START := State(map[], {}, map[], 1, 1, T.EMPTY, -1, -1, -1, Unnamed, map[], map[], map[], map[])

  // Room for numbers in an attribute, and for tables in the emitted arrays.
  const ESCAPES: nat := 4
  const GROUPS: nat := 32

  /** eid after a referrer that names no escape: such a table is not emitted. */
  const NOWHERE := -2

  function Concat(fields: seq<string>): string {
    if fields == [] then "" else Concat(fields[..|fields| - 1]) + fields[|fields| - 1]
  }

  /** clear_vars */
  function Cleared(s: State): State {
    s.(rows := T.EMPTY, eid := -1, gid := -1, aid := -1, tname := Unnamed)
  }

  // ---- Numbers in attributes ----

  function EscId(n: nat): bv2 {
    if n == 1 then 1 else if n == 2 then 2 else if n == 3 then 3 else 0
  }

  function EscNumber(e: bv2): nat {
    if e == 1 then 1 else if e == 2 then 2 else if e == 3 then 3 else 0
  }

  lemma EscNumberId(n: nat)
    requires n < ESCAPES
    ensures EscNumber(EscId(n)) == n
  {
  }

  function GrpId(n: nat): bv5 {
    if n == 0 then 0
    else if n == 1 then 1
    else if n == 2 then 2
    else if n == 3 then 3
    else if n == 4 then 4
    else if n == 5 then 5
    else if n == 6 then 6
    else if n == 7 then 7
    else if n == 8 then 8
    else if n == 9 then 9
    else if n == 10 then 10
    else if n == 11 then 11
    else if n == 12 then 12
    else if n == 13 then 13
    else if n == 14 then 14
    else if n == 15 then 15
    else if n == 16 then 16
    else if n == 17 then 17
    else if n == 18 then 18
    else if n == 19 then 19
    else if n == 20 then 20
    else if n == 21 then 21
    else if n == 22 then 22
    else if n == 23 then 23
    else if n == 24 then 24
    else if n == 25 then 25
    else if n == 26 then 26
    else if n == 27 then 27
    else if n == 28 then 28
    else if n == 29 then 29
    else if n == 30 then 30
    else 31
  }

  function GrpNumber(g: bv5): nat {
    if g == 0 then 0
    else if g == 1 then 1
    else if g == 2 then 2
    else if g == 3 then 3
    else if g == 4 then 4
    else if g == 5 then 5
    else if g == 6 then 6
    else if g == 7 then 7
    else if g == 8 then 8
    else if g == 9 then 9
    else if g == 10 then 10
    else if g == 11 then 11
    else if g == 12 then 12
    else if g == 13 then 13
    else if g == 14 then 14
    else if g == 15 then 15
    else if g == 16 then 16
    else if g == 17 then 17
    else if g == 18 then 18
    else if g == 19 then 19
    else if g == 20 then 20
    else if g == 21 then 21
    else if g == 22 then 22
    else if g == 23 then 23
    else if g == 24 then 24
    else if g == 25 then 25
    else if g == 26 then 26
    else if g == 27 then 27
    else if g == 28 then 28
    else if g == 29 then 29
    else if g == 30 then 30
    else 31
  }

  lemma GrpNumberId(n: nat)
    requires n < GROUPS
    ensures GrpNumber(GrpId(n)) == n
  {
  }

  // ---- One line ----

  /** The number of the group that an alternative names, made when it is new; 0 when it names none. */
  datatype Grouped = Grouped(groups: map<string, nat>, ggid: nat, number: nat)

  function GroupOf(groups: map<string, nat>, ggid: nat, opcode: string): Grouped {
    if !IsGroup(opcode) then Grouped(groups, ggid, 0)
    else if opcode in groups then Grouped(groups, ggid, groups[opcode])
    else Grouped(groups[opcode := ggid], ggid + 1, ggid)
  }

  /** Alternatives with flags, and the groups known after them. */
  datatype Gathered = Gathered(groups: map<string, nat>, ggid: nat, alts: seq<T.Alt>)

  /** The alternatives of a line that have flags; None is a semantic error, or a group too many. */
  ghost function DescribeAll(flag: string -> Attr, groups: map<string, nat>, ggid: nat, alts: seq<Alternative>): Option<Gathered> {
    if alts == [] then Some(Gathered(groups, ggid, []))
    else
      var rest, last := DescribeAll(flag, groups, ggid, alts[..|alts| - 1]), alts[|alts| - 1];
      if rest.None? then None
      else DescribeMore(flag, rest.value, last)
  }

  ghost function DescribeMore(flag: string -> Attr, d: Gathered, alt: Alternative): Option<Gathered> {
    var g := GroupOf(d.groups, d.ggid, alt.opcode);
    var flags := Described(flag, alt, GrpId(g.number));
    if flags.None? || g.ggid > GROUPS then None
    else if flags.value == NIL then Some(Gathered(g.groups, g.ggid, d.alts))
    else Some(Gathered(g.groups, g.ggid, d.alts + [T.Alt(flags.value, Tag(alt.ext), alt.ext)]))
  }

  /** A line naming an escape. */
  function EscapeLine(s: State, idx: nat, fields: seq<string>): Option<State>
    requires fields != []
  {
    if |fields| < 2 || fields[1] != "#" then None
    else
      var name := Concat(fields[2..]);
      if name in s.escapes || name in s.mentioned || s.geid >= ESCAPES then None
      else
        var line := T.Line(idx, [T.Alt(NIL.(esc := EscId(s.geid)), 0, "")]);
        Some(s.(escapes := s.escapes[name := s.geid], geid := s.geid + 1, rows := T.AddLine(s.rows, line)))
  }

  ghost function OpcodeLine(flag: string -> Attr, s: State, idx: nat, fields: seq<string>): Option<State> {
    if idx in s.rows.base then None
    else if fields != [] && fields[0] == "escape" then EscapeLine(s, idx, fields)
    else
      var parsed := Parse(fields);
      if parsed.None? then None
      else
        var d := DescribeAll(flag, s.groups, s.ggid, parsed.value);
        if d.None? then None
        else
          Some(s.(groups := d.value.groups, ggid := d.value.ggid, rows := T.AddLine(s.rows, T.Line(idx, d.value.alts))))
  }

  /** The tables that have entries, stored under number n. */
  function StoreRow(stored: Stored, n: int, m: bv4, row: T.Row): Stored {
    if row == map[] then stored else stored[(n, m) := row]
  }

  function Store(stored: Stored, n: int, rows: T.Rows): Stored {
    StoreRow(StoreRow(StoreRow(StoreRow(stored, n, 0, rows.base), n, 1, rows.lp1), n, 2, rows.lp2), n, 3, rows.lp3)
  }

  function Stowed(s: State): State {
    if s.gid != -1 then s.(gtable := Store(s.gtable, s.gid, s.rows))
    else
      s.(etable := Store(s.etable, s.eid, s.rows),
         atable := if s.aid >= 0 then Store(s.atable, s.aid, s.rows) else s.atable,
         primary := if s.tname.PrimaryTable? then s.rows.base else s.primary)
  }

  function EndLine(s: State): State {
    Cleared(Stowed(s))
  }

  /** Looking a name up makes an entry for it. */
  function ReferrerLine(s: State, name: string): State {
    if name in s.escapes then s.(eid := s.escapes[name], tname := EscapeTable)
    else s.(eid := NOWHERE, mentioned := s.mentioned + {name}, tname := EscapeTable)
  }

  function AvxCodeLine(s: State, code: Option<nat>): State {
    var aid := if code.Some? then code.value else s.aid;
    s.(aid := aid,
       tname := if aid == -1 && s.eid == -1 then PrimaryTable else if code.Some? && s.tname.Unnamed? then AvxTable else s.tname)
  }

  /** What a line does; None is a semantic error. */
  ghost function Step(flag: string -> Attr, s: State, line: MapLine): Option<State> {
    match line
    case TableLine => if s.tname.Unnamed? then Some(s) else None
    case Referrer(name) => Some(if name == [] then s else ReferrerLine(s, Concat(name)))
    case AvxCode(code) => Some(AvxCodeLine(s, code))
    case GrpTable(group) =>
      if group !in s.groups then None else Some(s.(gid := s.groups[group], tname := GroupTable))
    case EndTable => Some(EndLine(s))
    case Opcode(idx, fields) => OpcodeLine(flag, s, idx, fields)
  }

  // ---- Runs, with the lines of each table remembered ----

  datatype Key = PrimaryKey | EscapeKey(n: int) | GroupKey(n: int) | AvxKey(n: int)

  datatype Section = Section(rows: T.Rows, body: seq<T.Line>)

  /** body holds the lines of the table being read, sections those of the tables read. */
  datatype World = World(s: State, body: seq<T.Line>, sections: map<Key, Section>)

  const BEGIN := World(START, [], map[])

  /** The line that an opcode line adds to its table. */
  ghost function LineOf(flag: string -> Attr, s: State, idx: nat, fields: seq<string>): T.Line
    requires OpcodeLine(flag, s, idx, fields).Some?
  {
    if fields != [] && fields[0] == "escape" then T.Line(idx, [T.Alt(NIL.(esc := EscId(s.geid)), 0, "")])
    else T.Line(idx, DescribeAll(flag, s.groups, s.ggid, Parse(fields).value).value.alts)
  }

  /**
   * A line that the script accepts. No table comes twice, and a group table has no
   * AVXcode line, which would give it the name of the primary table: the emitted C
   * code would define an array twice.
   */
  ghost predicate Accepted(flag: string -> Attr, w: World, line: MapLine) {
    Step(flag, w.s, line).Some? && (line.EndTable? ==> NewTable(w))
  }

  predicate NewTable(w: World) {
    if w.s.gid != -1 then w.s.tname.GroupTable? && GroupKey(w.s.gid) !in w.sections
    else
      && (w.s.tname.PrimaryTable? ==> PrimaryKey !in w.sections)
      && (w.s.eid >= 0 ==> EscapeKey(w.s.eid) !in w.sections)
      && (w.s.aid >= 0 ==> AvxKey(w.s.aid) !in w.sections)
  }

  /** The tables read, with the one that ends: it can be both an escape's and one for a VEX map. */
  function WithSection(w: World): map<Key, Section> {
    var section := Section(w.s.rows, w.body);
    if w.s.gid != -1 then w.sections[GroupKey(w.s.gid) := section]
    else
      var a := if w.s.tname.PrimaryTable? then w.sections[PrimaryKey := section] else w.sections;
      var b := if w.s.eid >= 0 then a[EscapeKey(w.s.eid) := section] else a;
      if w.s.aid >= 0 then b[AvxKey(w.s.aid) := section] else b
  }

  ghost function Next(flag: string -> Attr, w: World, line: MapLine): World
    requires Accepted(flag, w, line)
  {
    var s := Step(flag, w.s, line).value;
    match line
    case Opcode(idx, fields) => World(s, w.body + [LineOf(flag, w.s, idx, fields)], w.sections)
    case EndTable => World(s, [], WithSection(w))
    case _ => w.(s := s)
  }

  // ---- The invariant ----

  ghost predicate SectionBuilt(sections: map<Key, Section>, key: Key) {
    key in sections ==> T.Built(sections[key].rows, sections[key].body)
  }

  /** Row m of table n is stored when the table was read and the row has entries. */
  predicate RowStored(stored: Stored, sections: map<Key, Section>, key: Key, n: int, m: bv4) {
    if key in sections && sections[key].rows.At(m) != map[] then (n, m) in stored && stored[(n, m)] == sections[key].rows.At(m)
    else (n, m) !in stored
  }

  /** Tables without a number, those of eid -1 and NOWHERE, are not emitted. */
  ghost predicate AllRowsStored(w: World, n: int, m: bv4) {
    && (n >= 0 ==> RowStored(w.s.etable, w.sections, EscapeKey(n), n, m)) && RowStored(w.s.gtable, w.sections, GroupKey(n), n, m)
    && RowStored(w.s.atable, w.sections, AvxKey(n), n, m)
  }

  ghost predicate AllStored(w: World) {
    && (forall n: int, m: bv4 :: m <= LSTPFX_MAX ==> AllRowsStored(w, n, m))
    && w.s.primary == if PrimaryKey in w.sections then w.sections[PrimaryKey].rows.base else map[]
  }

  /** Different names have different numbers, from 1 up. */
  ghost predicate Numbered(names: map<string, nat>, next: nat) {
    && (forall a :: a in names ==> 1 <= names[a] < next)
    && forall a, b :: a in names && b in names && a != b ==> names[a] != names[b]
  }

  ghost predicate Kept(w: World) {
    && T.Built(w.s.rows, w.body)
    && (forall key :: SectionBuilt(w.sections, key))
    && AllStored(w)
    && Numbered(w.s.escapes, w.s.geid) && 0 < w.s.geid <= ESCAPES && Numbered(w.s.groups, w.s.ggid) && 0 < w.s.ggid <= GROUPS
  }

  lemma {:induction false} DescribeProper(flag: string -> Attr, groups: map<string, nat>, ggid: nat, alts: seq<Alternative>)
    requires forall op :: Plain(flag, op)
    requires Numbered(groups, ggid) && 0 < ggid <= GROUPS
    ensures var d := DescribeAll(flag, groups, ggid, alts);
      d.Some? ==> T.AllProper(d.value.alts) && Numbered(d.value.groups, d.value.ggid) && 0 < d.value.ggid <= GROUPS
    decreases alts
  {
    if alts != [] {
      var rest := alts[..|alts| - 1];
      DescribeProper(flag, groups, ggid, rest);
      var d := DescribeAll(flag, groups, ggid, rest);
      if d.Some? {
        MoreProper(flag, d.value, alts[|alts| - 1]);
      }
    }
  }

  lemma GroupNumbered(groups: map<string, nat>, ggid: nat, opcode: string)
    requires Numbered(groups, ggid) && ggid > 0
    ensures var g := GroupOf(groups, ggid, opcode); Numbered(g.groups, g.ggid) && g.ggid >= ggid
  {
  }

  lemma TagSmall(ext: string)
    ensures Tag(ext) <= LSTPFX_MAX
  {
  }

  lemma MoreProper(flag: string -> Attr, d: Gathered, alt: Alternative)
    requires forall op :: Plain(flag, op)
    requires T.AllProper(d.alts) && Numbered(d.groups, d.ggid) && d.ggid > 0
    ensures var more := DescribeMore(flag, d, alt);
      more.Some? ==>
        T.AllProper(more.value.alts) && Numbered(more.value.groups, more.value.ggid) && d.ggid <= more.value.ggid <= GROUPS
  {
    var g := GroupOf(d.groups, d.ggid, alt.opcode);
    GroupNumbered(d.groups, d.ggid, alt.opcode);
    NoVariant(flag, alt, GrpId(g.number));
    TagSmall(alt.ext);
    var flags := Described(flag, alt, GrpId(g.number));
    if flags.Some? && flags.value != NIL {
      assert T.Alt(flags.value, Tag(alt.ext), alt.ext).Proper();
    }
  }

  lemma NoVariant(flag: string -> Attr, alt: Alternative, group: bv5)
    requires forall op :: Plain(flag, op)
    ensures Described(flag, alt, group).Some? ==> !Described(flag, alt, group).value.variant
  {
    var imms := Imms(alt.operands);
    if imms != [] {
      assert Plain(flag, imms[0]);
    }
  }

  /** Storing a table that was not stored yet. */
  lemma StoreFresh(stored: Stored, sections: map<Key, Section>, key: Key, n: int, rows: T.Rows, other: Key, i: int, m: bv4, body: seq<T.Line>)
    requires m <= LSTPFX_MAX && (key == other <==> n == i)
    requires RowStored(stored, sections, other, i, m) && (n == i ==> other !in sections)
    ensures RowStored(Store(stored, n, rows), sections[key := Section(rows, body)], other, i, m)
  {
    assert m == 0 || m == 1 || m == 2 || m == 3;
  }

  lemma EmptyBuilt()
    ensures T.Built(T.EMPTY, [])
  {
    forall idx: nat
      ensures T.Holds(T.EMPTY, T.AltsOf([], idx), idx)
    {
      OrNil(NIL);
    }
  }

  /** Only rows with the number of the table change. */
  lemma StoreElsewhere(stored: Stored, n: int, rows: T.Rows, i: int, m: bv4)
    requires i != n
    ensures (i, m) in Store(stored, n, rows) <==> (i, m) in stored
    ensures (i, m) in stored ==> Store(stored, n, rows)[(i, m)] == stored[(i, m)]
  {
  }

  /** r is what the end of a table leaves of w. */
  ghost predicate Ended(w: World, r: World) {
    r.s == EndLine(w.s) && r.body == [] && r.sections == WithSection(w)
  }

  lemma EndedGroup(w: World, r: World, n: int, m: bv4)
    requires Ended(w, r) && NewTable(w) && AllRowsStored(w, n, m) && m <= LSTPFX_MAX && w.s.gid != -1
    ensures AllRowsStored(r, n, m)
  {
    StoreFresh(w.s.gtable, w.sections, GroupKey(w.s.gid), w.s.gid, w.s.rows, GroupKey(n), n, m, w.body);
  }

  lemma EndedEscape(w: World, r: World, n: int, m: bv4)
    requires Ended(w, r) && NewTable(w) && m <= LSTPFX_MAX && w.s.gid == -1 && n >= 0
    requires RowStored(w.s.etable, w.sections, EscapeKey(n), n, m)
    ensures RowStored(r.s.etable, r.sections, EscapeKey(n), n, m)
  {
    if w.s.eid == n {
      StoreFresh(w.s.etable, w.sections, EscapeKey(n), n, w.s.rows, EscapeKey(n), n, m, w.body);
    } else {
      StoreElsewhere(w.s.etable, w.s.eid, w.s.rows, n, m);
    }
  }

  lemma EndedAvx(w: World, r: World, n: int, m: bv4)
    requires Ended(w, r) && NewTable(w) && m <= LSTPFX_MAX && w.s.gid == -1
    requires RowStored(w.s.atable, w.sections, AvxKey(n), n, m)
    ensures RowStored(r.s.atable, r.sections, AvxKey(n), n, m)
  {
    if w.s.aid >= 0 {
      StoreFresh(w.s.atable, w.sections, AvxKey(w.s.aid), w.s.aid, w.s.rows, AvxKey(n), n, m, w.body);
    }
  }

  lemma EndedKeeps(w: World, r: World)
    requires Kept(w) && Ended(w, r) && NewTable(w)
    ensures Kept(r)
  {
    EmptyBuilt();
    forall n: int, m: bv4 | m <= LSTPFX_MAX
      ensures AllRowsStored(r, n, m)
    {
      assert AllRowsStored(w, n, m);
      if w.s.gid != -1 {
        EndedGroup(w, r, n, m);
      } else {
        if n >= 0 {
          EndedEscape(w, r, n, m);
        }
        EndedAvx(w, r, n, m);
      }
    }
    forall key
      ensures SectionBuilt(r.sections, key)
    {
      assert SectionBuilt(w.sections, key);
    }
  }

  lemma EndKeeps(flag: string -> Attr, w: World)
    requires Kept(w) && Accepted(flag, w, EndTable)
    ensures Kept(Next(flag, w, EndTable))
  {
    EndedKeeps(w, Next(flag, w, EndTable));
  }

  lemma LineKeeps(w: World, r: World)
    requires Kept(w) && r.sections == w.sections
    requires r.s.etable == w.s.etable && r.s.gtable == w.s.gtable && r.s.atable == w.s.atable && r.s.primary == w.s.primary
    requires T.Built(r.s.rows, r.body) && Numbered(r.s.escapes, r.s.geid) && 0 < r.s.geid <= ESCAPES
    requires Numbered(r.s.groups, r.s.ggid) && 0 < r.s.ggid <= GROUPS
    ensures Kept(r)
  {
    forall n: int, m: bv4 | m <= LSTPFX_MAX
      ensures AllRowsStored(r, n, m)
    {
      assert AllRowsStored(w, n, m);
    }
  }

  lemma OpcodeBuilds(flag: string -> Attr, w: World, idx: nat, fields: seq<string>)
    requires forall op :: Plain(flag, op)
    requires Kept(w) && OpcodeLine(flag, w.s, idx, fields).Some?
    ensures var r := OpcodeLine(flag, w.s, idx, fields).value;
      && T.Built(r.rows, w.body + [LineOf(flag, w.s, idx, fields)])
      && Numbered(r.escapes, r.geid) && 0 < r.geid <= ESCAPES && Numbered(r.groups, r.ggid) && 0 < r.ggid <= GROUPS
      && r.etable == w.s.etable && r.gtable == w.s.gtable && r.atable == w.s.atable && r.primary == w.s.primary
  {
    var line := LineOf(flag, w.s, idx, fields);
    if fields != [] && fields[0] == "escape" {
      EscapeProper(w.s.geid);
    } else {
      DescribeProper(flag, w.s.groups, w.s.ggid, Parse(fields).value);
    }
    T.LineBuilt(w.s.rows, w.body, line);
  }

  lemma OpcodeKeeps(flag: string -> Attr, w: World, idx: nat, fields: seq<string>)
    requires forall op :: Plain(flag, op)
    requires Kept(w) && Accepted(flag, w, Opcode(idx, fields))
    ensures Kept(Next(flag, w, Opcode(idx, fields)))
  {
    OpcodeBuilds(flag, w, idx, fields);
    LineKeeps(w, Next(flag, w, Opcode(idx, fields)));
  }

  lemma EscapeProper(n: nat)
    requires 0 < n < ESCAPES
    ensures T.Alt(NIL.(esc := EscId(n)), 0, "").Proper()
  {
  }

  lemma NextKeeps(flag: string -> Attr, w: World, line: MapLine)
    requires forall op :: Plain(flag, op)
    requires Kept(w) && Accepted(flag, w, line)
    ensures Kept(Next(flag, w, line))
  {
    match line
    case Opcode(idx, fields) => OpcodeKeeps(flag, w, idx, fields);
    case EndTable => EndKeeps(flag, w);
    case _ => HeaderKeeps(flag, w, line);
  }

  lemma HeaderKeeps(flag: string -> Attr, w: World, line: MapLine)
    requires Kept(w) && Accepted(flag, w, line) && !line.Opcode? && !line.EndTable?
    ensures Kept(Next(flag, w, line))
  {
    HeaderFrame(flag, w.s, line);
    LineKeeps(w, Next(flag, w, line));
  }

  /** Header lines change only the numbers and the name of the table, and mention names. */
  predicate HeaderChange(s: State, r: State) {
    r == s.(mentioned := r.mentioned, eid := r.eid, gid := r.gid, aid := r.aid, tname := r.tname)
  }

  lemma ReferrerFrame(s: State, name: string)
    ensures HeaderChange(s, ReferrerLine(s, name))
  {
  }

  lemma AvxCodeFrame(s: State, code: Option<nat>)
    ensures HeaderChange(s, AvxCodeLine(s, code))
  {
  }

  lemma HeaderFrame(flag: string -> Attr, s: State, line: MapLine)
    requires !line.Opcode? && !line.EndTable? && Step(flag, s, line).Some?
    ensures HeaderChange(s, Step(flag, s, line).value)
  {
    match line
    case Referrer(name) => ReferrerFrame(s, Concat(name));
    case AvxCode(code) => AvxCodeFrame(s, code);
    case _ =>
  }

  /** The world after a file; None when a line is not accepted. */
  ghost function Run(flag: string -> Attr, w: World, file: seq<MapLine>): Option<World>
    decreases |file|
  {
    if file == [] then Some(w)
    else if Accepted(flag, w, file[0]) then Run(flag, Next(flag, w, file[0]), file[1..])
    else None
  }

  lemma {:induction false} RunKeeps(flag: string -> Attr, w: World, file: seq<MapLine>)
    requires forall op :: Plain(flag, op)
    requires Kept(w) && Run(flag, w, file).Some?
    ensures Kept(Run(flag, w, file).value)
    decreases |file|
  {
    if file != [] {
      NextKeeps(flag, w, file[0]);
      RunKeeps(flag, Next(flag, w, file[0]), file[1..]);
    }
  }

  lemma BeginKept()
    ensures Kept(BEGIN)
  {
    EmptyBuilt();
  }

  // ---- The emitted arrays ----

  const ESCAPE_NUMBERS: set<bv2> := {0, 1, 2, 3}
  const PREFIX_NUMBERS: set<bv4> := {0, 1, 2, 3}
  const GROUP_NUMBERS: set<bv5> :=
    {0, 1, 2, 3, 4, 5, 6, 7, 8, 9, 10, 11, 12, 13, 14, 15, 16, 17, 18, 19, 20, 21, 22, 23, 24, 25, 26, 27, 28, 29, 30, 31}

  /** Tables of numbers that no escape has are not among those printed at the end. */
  function EmittedEscapes(s: State): map<(bv2, bv4), OpTable> {
    map e: bv2, m: bv4 | e in ESCAPE_NUMBERS && m in PREFIX_NUMBERS && EscNumber(e) < s.geid && (EscNumber(e), m) in s.etable
      :: (e, m) := T.PrintedOpcodes(s.etable[(EscNumber(e), m)])
  }

  function EmittedGroups(s: State): map<(bv5, bv4), GrpTable> {
    map g: bv5, m: bv4 | g in GROUP_NUMBERS && m in PREFIX_NUMBERS && GrpNumber(g) < s.ggid && (GrpNumber(g), m) in s.gtable
      :: (g, m) := T.PrintedGroup(s.gtable[(GrpNumber(g), m)])
  }

  function EmittedAvx(s: State): map<(int, int), OpTable> {
    map a: int, p: int | 0 <= a < 32 && 0 <= p < 4 && (a, T.PrefixNumberOf(p)) in s.atable
      :: (a, p) := T.PrintedOpcodes(s.atable[(a, T.PrefixNumberOf(p))])
  }

  function Emitted(s: State): Tables {
    Tables(T.PrintedOpcodes(s.primary), EmittedEscapes(s), EmittedGroups(s), EmittedAvx(s))
  }

  lemma EmittedEscape(s: State, n: nat, m: bv4)
    requires n < s.geid <= ESCAPES && m <= LSTPFX_MAX
    ensures var t := EmittedEscapes(s);
      && ((EscId(n), m) in t <==> (n, m) in s.etable)
      && ((EscId(n), m) in t ==> t[(EscId(n), m)] == T.PrintedOpcodes(s.etable[(n, m)]))
  {
    EscNumberId(n);
    InEscapes(EscId(n));
    InPrefixes(m);
  }

  lemma EmittedGroupAt(s: State, g: bv5, m: bv4)
    requires g in GROUP_NUMBERS && m in PREFIX_NUMBERS && GrpNumber(g) < s.ggid
    ensures var t := EmittedGroups(s);
      && ((g, m) in t <==> (GrpNumber(g), m) in s.gtable)
      && ((g, m) in t ==> t[(g, m)] == T.PrintedGroup(s.gtable[(GrpNumber(g), m)]))
  {
  }

  lemma EmittedGroup(s: State, n: nat, m: bv4)
    requires n < s.ggid <= GROUPS && m <= LSTPFX_MAX
    ensures var t := EmittedGroups(s);
      && ((GrpId(n), m) in t <==> (n, m) in s.gtable)
      && ((GrpId(n), m) in t ==> t[(GrpId(n), m)] == T.PrintedGroup(s.gtable[(n, m)]))
  {
    GrpNumberId(n);
    InGroups(GrpId(n));
    InPrefixes(m);
    EmittedGroupAt(s, GrpId(n), m);
  }

  lemma InEscapes(e: bv2)
    ensures e in ESCAPE_NUMBERS
  {
  }

  lemma InGroups(g: bv5)
    ensures g in GROUP_NUMBERS
  {
  }

  lemma InPrefixes(m: bv4)
    requires m <= LSTPFX_MAX
    ensures m in PREFIX_NUMBERS
  {
  }

  /** The lines of the table with a key; none when the file has no such table. */
  ghost function BodyOf(w: World, key: Key): seq<T.Line> {
    if key in w.sections then w.sections[key].body else []
  }

  ghost function RowsOf(w: World, key: Key): T.Rows {
    if key in w.sections then w.sections[key].rows else T.EMPTY
  }

  lemma KeyBuilt(w: World, key: Key)
    requires Kept(w)
    ensures T.Built(RowsOf(w, key), BodyOf(w, key))
  {
    assert SectionBuilt(w.sections, key);
    EmptyBuilt();
  }

  lemma StoredRows(w: World, stored: Stored, key: Key, n: nat, m: bv4)
    requires RowStored(stored, w.sections, key, n, m)
    ensures (n, m) in stored <==> RowsOf(w, key).At(m) != map[]
    ensures (n, m) in stored ==> stored[(n, m)] == RowsOf(w, key).At(m)
  {
  }

  lemma EscapeArrays(w: World, n: nat)
    requires Kept(w) && n < w.s.geid
    ensures T.EscapePlaced(Emitted(w.s), EscId(n), RowsOf(w, EscapeKey(n)))
  {
    forall m: bv4 | m <= LSTPFX_MAX
      ensures (EscId(n), m) in EmittedEscapes(w.s) <==> RowsOf(w, EscapeKey(n)).At(m) != map[]
      ensures (EscId(n), m) in EmittedEscapes(w.s) ==>
        EmittedEscapes(w.s)[(EscId(n), m)] == T.PrintedOpcodes(RowsOf(w, EscapeKey(n)).At(m))
    {
      EmittedEscape(w.s, n, m);
      assert AllRowsStored(w, n, m);
      StoredRows(w, w.s.etable, EscapeKey(n), n, m);
    }
  }

  lemma GroupArrays(w: World, n: nat)
    requires Kept(w) && n < w.s.ggid
    ensures T.GroupPlaced(Emitted(w.s), GrpId(n), RowsOf(w, GroupKey(n)))
  {
    forall m: bv4 | m <= LSTPFX_MAX
      ensures (GrpId(n), m) in EmittedGroups(w.s) <==> RowsOf(w, GroupKey(n)).At(m) != map[]
      ensures (GrpId(n), m) in EmittedGroups(w.s) ==>
        EmittedGroups(w.s)[(GrpId(n), m)] == T.PrintedGroup(RowsOf(w, GroupKey(n)).At(m))
    {
      EmittedGroup(w.s, n, m);
      assert AllRowsStored(w, n, m);
      StoredRows(w, w.s.gtable, GroupKey(n), n, m);
    }
  }

  // ---- From the text of a table to its answers ----

  predicate Inside(line: MapLine) {
    line.Opcode? || line.AvxCode? || line.TableLine?
  }

  /** The lines that the opcode lines of a table stand for, groups numbered as they come. */
  ghost function ReadLines(flag: string -> Attr, w: World, lines: seq<MapLine>): seq<T.Line>
    decreases |lines|
  {
    if lines == [] || !Accepted(flag, w, lines[0]) then []
    else
      (if lines[0].Opcode? then [LineOf(flag, w.s, lines[0].idx, lines[0].fields)] else [])
        + ReadLines(flag, Next(flag, w, lines[0]), lines[1..])
  }

  /** A line inside a table adds its own line and keeps the header's numbers. */
  lemma InsideNext(flag: string -> Attr, w: World, line: MapLine)
    requires Accepted(flag, w, line) && Inside(line)
    ensures var r := Next(flag, w, line);
      && r.body == w.body + (if line.Opcode? then [LineOf(flag, w.s, line.idx, line.fields)] else [])
      && r.s.eid == w.s.eid && r.s.gid == w.s.gid
  {
  }

  lemma Rebracket(a: seq<T.Line>, b: seq<T.Line>, c: seq<T.Line>)
    ensures a + b + c == a + (b + c)
  {
  }

  lemma {:induction false} InsideTable(flag: string -> Attr, w: World, lines: seq<MapLine>)
    requires Run(flag, w, lines).Some? && forall k :: 0 <= k < |lines| ==> Inside(lines[k])
    ensures var r := Run(flag, w, lines).value;
      && r.body == w.body + ReadLines(flag, w, lines) && r.s.eid == w.s.eid && r.s.gid == w.s.gid
    decreases |lines|, 1
  {
    if lines != [] {
      var next, line := Next(flag, w, lines[0]), lines[0];
      InsideNext(flag, w, line);
      InsideRest(flag, next, lines);
      Rebracket(w.body, if line.Opcode? then [LineOf(flag, w.s, line.idx, line.fields)] else [], ReadLines(flag, next, lines[1..]));
    }
  }

  predicate OpcodesOnly(lines: seq<MapLine>) {
    forall k :: 0 <= k < |lines| ==> lines[k].Opcode?
  }

  /** Opcode lines leave the name of the table and the number of its VEX map as they are. */
  lemma {:induction false} OpcodesKeepName(flag: string -> Attr, w: World, lines: seq<MapLine>)
    requires Run(flag, w, lines).Some? && OpcodesOnly(lines)
    ensures var r := Run(flag, w, lines).value; r.s.aid == w.s.aid && r.s.tname == w.s.tname
    decreases |lines|
  {
    if lines != [] {
      assert lines[0].Opcode?;
      OpcodesKeepName(flag, Next(flag, w, lines[0]), lines[1..]);
    }
  }

  lemma {:induction false} InsideRest(flag: string -> Attr, next: World, lines: seq<MapLine>)
    requires lines != [] && Run(flag, next, lines[1..]).Some? && forall k :: 0 <= k < |lines| ==> Inside(lines[k])
    ensures var r := Run(flag, next, lines[1..]).value;
      && r.body == next.body + ReadLines(flag, next, lines[1..]) && r.s.eid == next.s.eid && r.s.gid == next.s.gid
    decreases |lines|, 0
  {
    InsideTable(flag, next, lines[1..]);
  }

  lemma {:induction false} RunAppend(flag: string -> Attr, w: World, a: seq<MapLine>, b: seq<MapLine>)
    ensures Run(flag, w, a + b) == if Run(flag, w, a).None? then None else Run(flag, Run(flag, w, a).value, b)
    decreases |a|
  {
    if a == [] {
      assert a + b == b;
    } else {
      assert (a + b)[1..] == a[1..] + b;
      if Accepted(flag, w, a[0]) {
        RunAppend(flag, Next(flag, w, a[0]), a[1..], b);
      }
    }
  }

  /** Names keep their numbers, and tables that were read stay. */
  ghost predicate Grows(before: World, after: World) {
    && (forall a :: a in before.s.escapes ==> a in after.s.escapes && after.s.escapes[a] == before.s.escapes[a])
    && (forall a :: a in before.s.groups ==> a in after.s.groups && after.s.groups[a] == before.s.groups[a])
    && forall key :: key in before.sections ==> key in after.sections && after.sections[key] == before.sections[key]
  }

  lemma {:induction false} GroupsGrow(flag: string -> Attr, groups: map<string, nat>, ggid: nat, alts: seq<Alternative>)
    requires DescribeAll(flag, groups, ggid, alts).Some?
    ensures var r := DescribeAll(flag, groups, ggid, alts).value.groups;
      forall a :: a in groups ==> a in r && r[a] == groups[a]
  {
    if alts != [] {
      GroupsGrow(flag, groups, ggid, alts[..|alts| - 1]);
    }
  }

  lemma OpcodeGrows(flag: string -> Attr, s: State, idx: nat, fields: seq<string>)
    requires OpcodeLine(flag, s, idx, fields).Some?
    ensures var r := OpcodeLine(flag, s, idx, fields).value;
      && (forall a :: a in s.escapes ==> a in r.escapes && r.escapes[a] == s.escapes[a])
      && (forall a :: a in s.groups ==> a in r.groups && r.groups[a] == s.groups[a])
  {
    if !(fields != [] && fields[0] == "escape") {
      GroupsGrow(flag, s.groups, s.ggid, Parse(fields).value);
    }
  }

  lemma NextGrows(flag: string -> Attr, w: World, line: MapLine)
    requires Accepted(flag, w, line)
    ensures Grows(w, Next(flag, w, line))
  {
    match line
    case Opcode(idx, fields) => OpcodeGrows(flag, w.s, idx, fields);
    case EndTable =>
    case _ => HeaderFrame(flag, w.s, line);
  }

  lemma {:induction false} RunGrows(flag: string -> Attr, w: World, file: seq<MapLine>)
    requires Run(flag, w, file).Some?
    ensures Grows(w, Run(flag, w, file).value)
    decreases |file|
  {
    if file != [] {
      NextGrows(flag, w, file[0]);
      RunGrows(flag, Next(flag, w, file[0]), file[1..]);
    }
  }

  /** A header line, the lines of a table, and its end. */
  function TableText(header: MapLine, lines: seq<MapLine>): seq<MapLine> {
    [header] + lines + [EndTable]
  }

  lemma TableSteps(flag: string -> Attr, w: World, header: MapLine, lines: seq<MapLine>)
    requires Run(flag, w, TableText(header, lines)).Some?
    ensures Accepted(flag, w, header) && Run(flag, Next(flag, w, header), lines).Some?
    ensures var end := Run(flag, Next(flag, w, header), lines).value;
      Accepted(flag, end, EndTable) && Run(flag, w, TableText(header, lines)) == Some(Next(flag, end, EndTable))
  {
    var h := Next(flag, w, header);
    assert TableText(header, lines)[1..] == lines + [EndTable];
    RunAppend(flag, h, lines, [EndTable]);
    var end := Run(flag, h, lines).value;
    assert [EndTable][1..] == [];
    assert Run(flag, end, [EndTable]) == Run(flag, Next(flag, end, EndTable), []);
  }

  /** What reading a whole table leaves: its lines, under all keys that the table has at its end. */
  lemma TableRead(flag: string -> Attr, w: World, header: MapLine, lines: seq<MapLine>)
    requires w.body == [] && !header.Opcode? && !header.EndTable? && forall k :: 0 <= k < |lines| ==> Inside(lines[k])
    requires Run(flag, w, TableText(header, lines)).Some?
    ensures Accepted(flag, w, header) && Run(flag, Next(flag, w, header), lines).Some?
    ensures var h, r := Next(flag, w, header), Run(flag, w, TableText(header, lines)).value;
      var end := Run(flag, h, lines).value;
      && end.body == ReadLines(flag, h, lines) && end.s.gid == h.s.gid && end.s.eid == h.s.eid
      && r.sections == WithSection(end)
  {
    TableSteps(flag, w, header, lines);
    InsideTable(flag, Next(flag, w, header), lines);
  }

  lemma EscapesAnswered(w: World, name: string, op: Byte, lastPfx: Byte)
    requires Kept(w) && name in w.s.escapes
    ensures var n, t := w.s.escapes[name], Emitted(w.s);
      EscapeAttribute(t, op, lastPfx, NIL.(esc := EscId(n)))
        == T.Reading(T.AltsOf(BodyOf(w, EscapeKey(n)), op), VariantId(t, lastPfx))
  {
    var n := w.s.escapes[name];
    EscapeArrays(w, n);
    KeyBuilt(w, EscapeKey(n));
    T.EscapeReads(Emitted(w.s), EscId(n), RowsOf(w, EscapeKey(n)), BodyOf(w, EscapeKey(n)), op, lastPfx, NIL.(esc := EscId(n)));
  }

  lemma GroupsAnswered(w: World, name: string, modrm: Byte, lastPfx: Byte, attr: Attr)
    requires Kept(w) && name in w.s.groups && attr.grp == GrpId(w.s.groups[name])
    ensures var n, t := w.s.groups[name], Emitted(w.s);
      GroupAttribute(t, modrm, lastPfx, attr)
        == Or(T.Reading(T.AltsOf(BodyOf(w, GroupKey(n)), modrm / 8 % 8), VariantId(t, lastPfx)), GroupCommon(attr))
  {
    var n := w.s.groups[name];
    GroupArrays(w, n);
    KeyBuilt(w, GroupKey(n));
    T.GroupReads(Emitted(w.s), GrpId(n), RowsOf(w, GroupKey(n)), BodyOf(w, GroupKey(n)), modrm, lastPfx, attr);
  }

  /** Table (a, p) of the emitted array is the stored one. */
  predicate AvxEmitted(avx: map<(int, int), OpTable>, atable: Stored, a: nat, p: nat) {
    var m := T.PrefixNumberOf(p);
    && ((a, p) in avx <==> (a, m) in atable)
    && ((a, p) in avx ==> avx[(a, p)] == T.PrintedOpcodes(atable[(a, m)]))
  }

  lemma EmittedAvxAt(s: State, a: nat, p: nat)
    requires a < 32 && p < 4
    ensures AvxEmitted(EmittedAvx(s), s.atable, a, p)
  {
  }

  lemma AvxArray(w: World, avx: map<(int, int), OpTable>, a: nat, p: nat)
    requires Kept(w) && AvxEmitted(avx, w.s.atable, a, p)
    ensures T.AvxPlacedAt(avx, a, p, RowsOf(w, AvxKey(a)).At(T.PrefixNumberOf(p)))
  {
    assert AllRowsStored(w, a, T.PrefixNumberOf(p));
    StoredRows(w, w.s.atable, AvxKey(a), a, T.PrefixNumberOf(p));
  }

  lemma AvxArrays(w: World, a: nat)
    requires Kept(w) && a < 32
    ensures T.AvxPlaced(Emitted(w.s), a, RowsOf(w, AvxKey(a)))
  {
    forall p: nat | p < 4
      ensures T.AvxPlacedAt(EmittedAvx(w.s), a, p, RowsOf(w, AvxKey(a)).At(T.PrefixNumberOf(p)))
    {
      EmittedAvxAt(w.s, a, p);
      AvxArray(w, EmittedAvx(w.s), a, p);
    }
  }

  /** VEX opcodes are looked up by map and prefix field alone, so that they never fall back to the base table. */
  lemma AvxAnswered(w: World, a: nat, p: nat, op: Byte)
    requires Kept(w) && a < 32 && p < 4
    ensures var alts := T.AltsOf(BodyOf(w, AvxKey(a)), op);
      AvxAttribute(Emitted(w.s), op, a, p) == if p == 0 then T.BaseReading(alts) else T.Union(alts, T.PrefixNumberOf(p))
  {
    AvxArrays(w, a);
    KeyBuilt(w, AvxKey(a));
    T.AvxReads(Emitted(w.s), a, RowsOf(w, AvxKey(a)), BodyOf(w, AvxKey(a)), op, p);
  }

  lemma PrimaryAnswered(w: World, op: Byte)
    requires Kept(w)
    ensures Emitted(w.s).primary[op] == T.BaseReading(T.AltsOf(BodyOf(w, PrimaryKey), op))
  {
    KeyBuilt(w, PrimaryKey);
    assert T.Holds(RowsOf(w, PrimaryKey), T.AltsOf(BodyOf(w, PrimaryKey), op), op);
  }

  /** Reached after some lines, between two tables. */
  ghost predicate Between(flag: string -> Attr, before: seq<MapLine>, w: World) {
    Run(flag, BEGIN, before) == Some(w) && w.body == [] && w.s.gid == -1
  }

  /** A table, accepted after w, then the rest of the file. */
  ghost function AfterTable(flag: string -> Attr, w: World, table: seq<MapLine>, rest: seq<MapLine>): Option<World> {
    var r := Run(flag, w, table);
    if r.None? then None else Run(flag, r.value, rest)
  }

  lemma FileKept(flag: string -> Attr, before: seq<MapLine>, w: World, table: seq<MapLine>, rest: seq<MapLine>)
    requires forall op :: Plain(flag, op)
    requires Between(flag, before, w) && AfterTable(flag, w, table, rest).Some?
    ensures Kept(w) && Kept(AfterTable(flag, w, table, rest).value)
    ensures Grows(Run(flag, w, table).value, AfterTable(flag, w, table, rest).value) && Grows(w, Run(flag, w, table).value)
  {
    BeginKept();
    RunKeeps(flag, BEGIN, before);
    RunKeeps(flag, w, table);
    var r := Run(flag, w, table).value;
    RunKeeps(flag, r, rest);
    RunGrows(flag, w, table);
    RunGrows(flag, r, rest);
  }

  /**
   * Wherever a table of an escape stands in an accepted file: a lookup through
   * the arrays emitted at the end, with the attribute that the line naming the
   * escape got, is the direct reading of the lines of that table.
   */
  lemma EscapeTableAnswers(flag: string -> Attr, before: seq<MapLine>, w: World, name: seq<string>, lines: seq<MapLine>,
                           rest: seq<MapLine>, op: Byte, lastPfx: Byte)
    requires forall op :: Plain(flag, op)
    requires Between(flag, before, w) && name != [] && Concat(name) in w.s.escapes
    requires forall k :: 0 <= k < |lines| ==> Inside(lines[k])
    requires AfterTable(flag, w, TableText(Referrer(name), lines), rest).Some?
    ensures Accepted(flag, w, Referrer(name))
    ensures var end := AfterTable(flag, w, TableText(Referrer(name), lines), rest).value;
      var t := Emitted(end.s);
      && Concat(name) in end.s.escapes
      && EscapeAttribute(t, op, lastPfx, NIL.(esc := EscId(end.s.escapes[Concat(name)])))
           == T.Reading(T.AltsOf(ReadLines(flag, Next(flag, w, Referrer(name)), lines), op), VariantId(t, lastPfx))
  {
    var table := TableText(Referrer(name), lines);
    FileKept(flag, before, w, table, rest);
    var end := AfterTable(flag, w, table, rest).value;
    EscapeTableRead(flag, w, name, lines, end);
    EscapesAnswered(end, Concat(name), op, lastPfx);
  }

  lemma EscapeSection(w: World, n: int)
    requires w.s.gid == -1 && w.s.eid == n >= 0
    ensures EscapeKey(n) in WithSection(w) && WithSection(w)[EscapeKey(n)].body == w.body
  {
  }

  lemma EscapeTableRead(flag: string -> Attr, w: World, name: seq<string>, lines: seq<MapLine>, end: World)
    requires Kept(w) && w.body == [] && w.s.gid == -1 && name != [] && Concat(name) in w.s.escapes
    requires forall k :: 0 <= k < |lines| ==> Inside(lines[k])
    requires var r := Run(flag, w, TableText(Referrer(name), lines)); r.Some? && Grows(w, r.value) && Grows(r.value, end)
    ensures Accepted(flag, w, Referrer(name))
    ensures Concat(name) in end.s.escapes && end.s.escapes[Concat(name)] == w.s.escapes[Concat(name)]
    ensures BodyOf(end, EscapeKey(w.s.escapes[Concat(name)])) == ReadLines(flag, Next(flag, w, Referrer(name)), lines)
  {
    TableRead(flag, w, Referrer(name), lines);
    EscapeSection(Run(flag, Next(flag, w, Referrer(name)), lines).value, w.s.escapes[Concat(name)]);
  }

  lemma GroupTableRead(flag: string -> Attr, w: World, name: string, lines: seq<MapLine>, end: World)
    requires Kept(w) && w.body == [] && name in w.s.groups && forall k :: 0 <= k < |lines| ==> Inside(lines[k])
    requires var r := Run(flag, w, TableText(GrpTable(name), lines)); r.Some? && Grows(w, r.value) && Grows(r.value, end)
    ensures Accepted(flag, w, GrpTable(name))
    ensures name in end.s.groups && end.s.groups[name] == w.s.groups[name]
    ensures BodyOf(end, GroupKey(w.s.groups[name])) == ReadLines(flag, Next(flag, w, GrpTable(name)), lines)
  {
    TableRead(flag, w, GrpTable(name), lines);
  }

  /** The same for the table of a group, with any attribute that refers to the group. */
  lemma GroupTableAnswers(flag: string -> Attr, before: seq<MapLine>, w: World, name: string, lines: seq<MapLine>,
                          rest: seq<MapLine>, modrm: Byte, lastPfx: Byte, attr: Attr)
    requires forall op :: Plain(flag, op)
    requires Between(flag, before, w) && name in w.s.groups && attr.grp == GrpId(w.s.groups[name])
    requires forall k :: 0 <= k < |lines| ==> Inside(lines[k])
    requires AfterTable(flag, w, TableText(GrpTable(name), lines), rest).Some?
    ensures Accepted(flag, w, GrpTable(name))
    ensures var t := Emitted(AfterTable(flag, w, TableText(GrpTable(name), lines), rest).value.s);
      GroupAttribute(t, modrm, lastPfx, attr)
        == Or(T.Reading(T.AltsOf(ReadLines(flag, Next(flag, w, GrpTable(name)), lines), modrm / 8 % 8), VariantId(t, lastPfx)),
              GroupCommon(attr))
  {
    var table := TableText(GrpTable(name), lines);
    FileKept(flag, before, w, table, rest);
    var end := AfterTable(flag, w, table, rest).value;
    GroupTableRead(flag, w, name, lines, end);
    GroupsAnswered(end, name, modrm, lastPfx, attr);
  }

  /** The same for a table with an AVXcode line, by VEX map and prefix field, whether or not it is also an escape's. */
  lemma AvxTableAnswers(flag: string -> Attr, before: seq<MapLine>, w: World, a: nat, lines: seq<MapLine>,
                        rest: seq<MapLine>, op: Byte, p: nat)
    requires forall op :: Plain(flag, op)
    requires Between(flag, before, w) && a < 32 && p < 4 && OpcodesOnly(lines)
    requires AfterTable(flag, w, TableText(AvxCode(Some(a)), lines), rest).Some?
    ensures Accepted(flag, w, AvxCode(Some(a)))
    ensures var alts := T.AltsOf(ReadLines(flag, Next(flag, w, AvxCode(Some(a))), lines), op);
      AvxAttribute(Emitted(AfterTable(flag, w, TableText(AvxCode(Some(a)), lines), rest).value.s), op, a, p)
        == if p == 0 then T.BaseReading(alts) else T.Union(alts, T.PrefixNumberOf(p))
  {
    var table := TableText(AvxCode(Some(a)), lines);
    FileKept(flag, before, w, table, rest);
    var end := AfterTable(flag, w, table, rest).value;
    AvxTableRead(flag, w, a, lines, end);
    AvxAnswered(end, a, p, op);
  }

  lemma AvxTableRead(flag: string -> Attr, w: World, a: nat, lines: seq<MapLine>, end: World)
    requires w.body == [] && w.s.gid == -1 && OpcodesOnly(lines)
    requires var r := Run(flag, w, TableText(AvxCode(Some(a)), lines)); r.Some? && Grows(r.value, end)
    ensures Accepted(flag, w, AvxCode(Some(a)))
    ensures BodyOf(end, AvxKey(a)) == ReadLines(flag, Next(flag, w, AvxCode(Some(a))), lines)
  {
    TableRead(flag, w, AvxCode(Some(a)), lines);
    OpcodesKeepName(flag, Next(flag, w, AvxCode(Some(a))), lines);
  }

  /** And for the primary table, which has neither a referrer nor a VEX map. */
  lemma PrimaryTableAnswers(flag: string -> Attr, before: seq<MapLine>, w: World, lines: seq<MapLine>, rest: seq<MapLine>, op: Byte)
    requires forall op :: Plain(flag, op)
    requires Between(flag, before, w) && w.s.eid == -1 && w.s.aid == -1 && OpcodesOnly(lines)
    requires AfterTable(flag, w, TableText(AvxCode(None), lines), rest).Some?
    ensures Accepted(flag, w, AvxCode(None))
    ensures Emitted(AfterTable(flag, w, TableText(AvxCode(None), lines), rest).value.s).primary[op]
         == T.BaseReading(T.AltsOf(ReadLines(flag, Next(flag, w, AvxCode(None)), lines), op))
  {
    var table := TableText(AvxCode(None), lines);
    FileKept(flag, before, w, table, rest);
    var end := AfterTable(flag, w, table, rest).value;
    PrimaryTableRead(flag, w, lines, end);
    PrimaryAnswered(end, op);
  }

  lemma PrimaryTableRead(flag: string -> Attr, w: World, lines: seq<MapLine>, end: World)
    requires w.body == [] && w.s.gid == -1 && w.s.eid == -1 && w.s.aid == -1 && OpcodesOnly(lines)
    requires var r := Run(flag, w, TableText(AvxCode(None), lines)); r.Some? && Grows(r.value, end)
    ensures Accepted(flag, w, AvxCode(None))
    ensures BodyOf(end, PrimaryKey) == ReadLines(flag, Next(flag, w, AvxCode(None)), lines)
  {
    TableRead(flag, w, AvxCode(None), lines);
    OpcodesKeepName(flag, Next(flag, w, AvxCode(None)), lines);
  }
}
