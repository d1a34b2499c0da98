/**
 * What a lookup through the emitted tables answers, in terms of the text of the
 * map: which extras select an alternative after the prefix bytes 66, f3 and f2.
 */
module MapText {
  import opened Bytes
  import opened Wrappers
  import opened Inat
  import opened OpcodeText
  import opened OpcodeLines
  import opened MapRuns
  import T = MapTables

  // ---- Substrings ----

  /** The first three characters of p are found at i. */
  predicate Begins(s: string, p: string, i: nat)
    requires |p| >= 3
  {
    i + 2 < |s| && s[i] == p[0] && s[i + 1] == p[1] && s[i + 2] == p[2]
  }

  lemma StartBegins(s: string, p: string)
    requires |p| >= 3
    ensures StartsWith(s, p) ==> Begins(s, p, 0)
  {
    if StartsWith(s, p) {
      assert s[0] == s[..|p|][0] && s[1] == s[..|p|][1] && s[2] == s[..|p|][2];
    }
  }

  lemma {:induction false} Absent(s: string, p: string)
    requires |p| >= 3 && forall i: nat :: !Begins(s, p, i)
    ensures !Contains(s, p)
  {
    StartBegins(s, p);
    if s != "" {
      forall i: nat
        ensures !Begins(s[1..], p, i)
      {
        assert !Begins(s, p, i + 1);
      }
      Absent(s[1..], p);
    }
  }

  lemma {:induction false} Present(s: string, p: string, i: nat)
    requires i + |p| <= |s| && s[i..i + |p|] == p
    ensures Contains(s, p)
  {
    if i > 0 {
      assert s[1..][i - 1..i - 1 + |p|] == p;
      Present(s[1..], p, i - 1);
    } else {
      assert s[..|p|] == p;
    }
  }

  // ---- Alternatives by their extras ----

  /** The extras say that the alternative is the one for prefix byte last: 66 goes before F3, and F3 before F2. */
  predicate For(ext: string, last: int) {
    if last == 0x66 then Contains(ext, "(66)")
    else if last == 0xf3 then Contains(ext, "(F3)") && !Contains(ext, "(66)")
    else last == 0xf2 && Contains(ext, "(F2)") && !Contains(ext, "(F3)") && !Contains(ext, "(66)")
  }

  /** They name none of the three. */
  predicate ForAny(ext: string) {
    !Contains(ext, "(66)") && !Contains(ext, "(F3)") && !Contains(ext, "(F2)")
  }

  /** The flags of all alternatives whose extras are as wanted. */
  function UnionWhere(alts: seq<T.Alt>, wanted: string -> bool): Attr {
    if alts == [] then NIL
    else
      var last := alts[|alts| - 1];
      Or(UnionWhere(alts[..|alts| - 1], wanted), if wanted(last.ext) then last.flags else NIL)
  }

  /** The flags of the alternatives for a prefix byte. */
  function UnionFor(alts: seq<T.Alt>, last: int): Attr {
    UnionWhere(alts, ext => For(ext, last))
  }

  ghost predicate SomeSpecial(alts: seq<T.Alt>) {
    exists k :: 0 <= k < |alts| && !ForAny(alts[k].ext)
  }

  /** Without a prefix: the alternatives that name none, marked when there are others. */
  ghost function BaseText(alts: seq<T.Alt>): Attr {
    var plain := UnionWhere(alts, ext => ForAny(ext));
    if SomeSpecial(alts) then plain.(variant := true) else plain
  }

  /** After prefix byte 66, f3 or f2: the alternatives for it, if any are for one of the three; otherwise as without. */
  ghost function TextReading(alts: seq<T.Alt>, last: int): Attr {
    if SomeSpecial(alts) then UnionFor(alts, last) else BaseText(alts)
  }

  // ---- The compiler's tags are about the extras ----

  predicate TagFits(alt: T.Alt) {
    alt.tag == if For(alt.ext, 0x66) then 1 else if For(alt.ext, 0xf3) then 2 else if For(alt.ext, 0xf2) then 3 else 0
  }

  ghost predicate TagsFit(alts: seq<T.Alt>) {
    forall k :: 0 <= k < |alts| ==> TagFits(alts[k])
  }

  lemma NoExtras()
    ensures ForAny("")
  {
    Absent("", "(66)");
    Absent("", "(F3)");
    Absent("", "(F2)");
  }

  lemma MoreFit(flag: string -> Attr, d: Gathered, alt: Alternative)
    requires TagsFit(d.alts)
    ensures var more := DescribeMore(flag, d, alt); more.Some? ==> TagsFit(more.value.alts)
  {
  }

  lemma {:induction false} DescribedFit(flag: string -> Attr, groups: map<string, nat>, ggid: nat, alts: seq<Alternative>)
    requires DescribeAll(flag, groups, ggid, alts).Some?
    ensures TagsFit(DescribeAll(flag, groups, ggid, alts).value.alts)
  {
    if alts != [] {
      DescribedFit(flag, groups, ggid, alts[..|alts| - 1]);
      MoreFit(flag, DescribeAll(flag, groups, ggid, alts[..|alts| - 1]).value, alts[|alts| - 1]);
    }
  }

  lemma LineFits(flag: string -> Attr, s: State, idx: nat, fields: seq<string>)
    requires OpcodeLine(flag, s, idx, fields).Some?
    ensures TagsFit(LineOf(flag, s, idx, fields).alts)
  {
    if fields != [] && fields[0] == "escape" {
      NoExtras();
    } else {
      DescribedFit(flag, s.groups, s.ggid, Parse(fields).value);
    }
  }

  ghost predicate LinesFit(body: seq<T.Line>) {
    forall k :: 0 <= k < |body| ==> TagsFit(body[k].alts)
  }

  lemma {:induction false} ReadLinesFit(flag: string -> Attr, w: World, lines: seq<MapLine>)
    ensures LinesFit(ReadLines(flag, w, lines))
    decreases |lines|
  {
    if lines != [] && Accepted(flag, w, lines[0]) {
      ReadLinesFit(flag, Next(flag, w, lines[0]), lines[1..]);
      if lines[0].Opcode? {
        LineFits(flag, w.s, lines[0].idx, lines[0].fields);
      }
    }
  }

  lemma {:induction false} AltsFit(body: seq<T.Line>, idx: nat)
    requires LinesFit(body)
    ensures TagsFit(T.AltsOf(body, idx))
  {
    if body != [] {
      AltsFit(body[..|body| - 1], idx);
      assert TagsFit(body[|body| - 1].alts);
    }
  }

  lemma {:induction false} UnionByTag(alts: seq<T.Alt>, m: bv4, wanted: string -> bool)
    requires forall k :: 0 <= k < |alts| ==> (alts[k].tag == m <==> wanted(alts[k].ext))
    ensures T.Union(alts, m) == UnionWhere(alts, wanted)
  {
    if alts != [] {
      UnionByTag(alts[..|alts| - 1], m, wanted);
    }
  }

  lemma TagIs(alt: T.Alt)
    requires TagFits(alt)
    ensures alt.tag == 1 <==> For(alt.ext, 0x66)
    ensures alt.tag == 2 <==> For(alt.ext, 0xf3)
    ensures alt.tag == 3 <==> For(alt.ext, 0xf2)
    ensures alt.tag == 0 <==> ForAny(alt.ext)
  {
  }

  /** The variant number of a prefix byte. */
  function Number(last: int): bv4 {
    if last == 0x66 then 1 else if last == 0xf3 then 2 else if last == 0xf2 then 3 else 0
  }

  lemma ReadingIsText(alts: seq<T.Alt>, last: int)
    requires TagsFit(alts)
    ensures last in {0x66, 0xf2, 0xf3} ==> T.Reading(alts, Number(last)) == TextReading(alts, last)
    ensures T.BaseReading(alts) == BaseText(alts)
    ensures last in {0x66, 0xf2, 0xf3} ==> T.Union(alts, Number(last)) == UnionFor(alts, last)
  {
    forall k | 0 <= k < |alts|
      ensures alts[k].tag == 0 <==> ForAny(alts[k].ext)
      ensures last in {0x66, 0xf2, 0xf3} ==> (alts[k].tag == Number(last) <==> For(alts[k].ext, last))
    {
      assert TagFits(alts[k]);
      TagIs(alts[k]);
    }
    UnionByTag(alts, 0, ext => ForAny(ext));
    if last in {0x66, 0xf2, 0xf3} {
      UnionByTag(alts, Number(last), ext => For(ext, last));
    }
    OrNil(T.Union(alts, 0));
    OrVariant(T.Union(alts, 0));
  }

  lemma OrVariant(a: Attr)
    ensures Or(a, T.VARIANT) == a.(variant := true)
  {
    OrZeros(a.pfx, a.esc, a.grp, a.imm);
  }

  // ---- Lines of an index ----

  /** A line that says the same whatever groups there are. */
  ghost predicate Says(flag: string -> Attr, fields: seq<string>, alts: seq<T.Alt>) {
    && fields != [] && fields[0] != "escape" && Parse(fields).Some?
    && forall groups, ggid :: SaysWith(flag, fields, alts, groups, ggid)
  }

  ghost predicate SaysWith(flag: string -> Attr, fields: seq<string>, alts: seq<T.Alt>, groups: map<string, nat>, ggid: nat)
    requires Parse(fields).Some?
  {
    var d := DescribeAll(flag, groups, ggid, Parse(fields).value);
    d.Some? ==> d.value.alts == alts
  }

  predicate AllInside(lines: seq<MapLine>) {
    forall k :: 0 <= k < |lines| ==> Inside(lines[k])
  }

  /** Lines that are no opcode lines leave the table as it is. */
  lemma HeaderInside(flag: string -> Attr, w: World, line: MapLine)
    requires Accepted(flag, w, line) && Inside(line) && !line.Opcode?
    ensures var r := Next(flag, w, line); r.body == w.body && r.s.rows == w.s.rows
  {
  }

  lemma ListedIff(w: World, idx: nat)
    requires Kept(w)
    ensures idx in w.s.rows.base <==> T.AltsOf(w.body, idx) != []
  {
    assert T.Holds(w.s.rows, T.AltsOf(w.body, idx), idx);
  }

  /** What an accepted line says of an index. */
  ghost function MoreOf(flag: string -> Attr, w: World, line: MapLine, idx: nat): seq<T.Alt>
    requires Accepted(flag, w, line)
  {
    if line.Opcode? && line.idx == idx then LineOf(flag, w.s, idx, line.fields).alts else []
  }

  lemma OpcodeListed(flag: string -> Attr, w: World, line: MapLine, idx: nat)
    requires Accepted(flag, w, line) && line.Opcode?
    ensures T.AltsOf(Next(flag, w, line).body, idx) == T.AltsOf(w.body, idx) + MoreOf(flag, w, line, idx)
    ensures line.idx == idx ==> idx !in w.s.rows.base
  {
    T.AltsOfOne(w.body, LineOf(flag, w.s, line.idx, line.fields), idx);
  }

  /** It adds that, and is the first to say something. */
  lemma NextListed(flag: string -> Attr, w: World, line: MapLine, idx: nat)
    requires (forall op :: Plain(flag, op)) && Kept(w) && Accepted(flag, w, line) && Inside(line)
    ensures Kept(Next(flag, w, line))
    ensures T.AltsOf(Next(flag, w, line).body, idx) == T.AltsOf(w.body, idx) + MoreOf(flag, w, line, idx)
    ensures line.Opcode? && line.idx == idx ==> T.AltsOf(w.body, idx) == []
  {
    NextKeeps(flag, w, line);
    if line.Opcode? {
      OpcodeListed(flag, w, line, idx);
      ListedIff(w, idx);
    } else {
      HeaderInside(flag, w, line);
    }
  }

  lemma LineSays(flag: string -> Attr, s: State, idx: nat, fields: seq<string>, alts: seq<T.Alt>)
    requires OpcodeLine(flag, s, idx, fields).Some? && Says(flag, fields, alts)
    ensures LineOf(flag, s, idx, fields).alts == alts
  {
    assert SaysWith(flag, fields, alts, s.groups, s.ggid);
  }

  /** Of an index that has alternatives no more lines are accepted. */
  lemma {:induction false} ListedStays(flag: string -> Attr, w: World, lines: seq<MapLine>, idx: nat)
    requires (forall op :: Plain(flag, op)) && Kept(w) && Run(flag, w, lines).Some? && AllInside(lines) && T.AltsOf(w.body, idx) != []
    ensures forall k :: 0 <= k < |lines| && lines[k].Opcode? ==> lines[k].idx != idx
    ensures T.AltsOf(Run(flag, w, lines).value.body, idx) == T.AltsOf(w.body, idx)
    decreases |lines|
  {
    if lines != [] {
      NextStays(flag, w, lines[0], idx);
      ListedStays(flag, Next(flag, w, lines[0]), lines[1..], idx);
    }
  }

  lemma NextStays(flag: string -> Attr, w: World, line: MapLine, idx: nat)
    requires (forall op :: Plain(flag, op)) && Kept(w) && Accepted(flag, w, line) && Inside(line) && T.AltsOf(w.body, idx) != []
    ensures Kept(Next(flag, w, line)) && T.AltsOf(Next(flag, w, line).body, idx) == T.AltsOf(w.body, idx)
    ensures line.Opcode? ==> line.idx != idx
  {
    NextListed(flag, w, line, idx);
  }

  /** When the first line says something of an index, that is all that the table says of it. */
  lemma ListedFirst(flag: string -> Attr, w: World, lines: seq<MapLine>, idx: nat)
    requires (forall op :: Plain(flag, op)) && Kept(w) && Run(flag, w, lines).Some? && AllInside(lines)
    requires lines != [] && MoreOf(flag, w, lines[0], idx) != []
    ensures T.AltsOf(Run(flag, w, lines).value.body, idx) == MoreOf(flag, w, lines[0], idx)
  {
    NextListed(flag, w, lines[0], idx);
    ListedStays(flag, Next(flag, w, lines[0]), lines[1..], idx);
  }

  /** When a line of an index follows, the first line says nothing of it. */
  lemma NotListedYet(flag: string -> Attr, w: World, lines: seq<MapLine>, idx: nat, fields: seq<string>)
    requires (forall op :: Plain(flag, op)) && Kept(w) && Run(flag, w, lines).Some? && AllInside(lines)
    requires lines != [] && Opcode(idx, fields) in lines[1..] && T.AltsOf(w.body, idx) == []
    ensures T.AltsOf(Next(flag, w, lines[0]).body, idx) == [] && Kept(Next(flag, w, lines[0]))
  {
    var r := Next(flag, w, lines[0]);
    NextListed(flag, w, lines[0], idx);
    if T.AltsOf(r.body, idx) != [] {
      ListedStays(flag, r, lines[1..], idx);
    }
  }

  lemma ListedHere(flag: string -> Attr, w: World, lines: seq<MapLine>, idx: nat, fields: seq<string>, alts: seq<T.Alt>)
    requires (forall op :: Plain(flag, op)) && Kept(w) && Run(flag, w, lines).Some? && AllInside(lines)
    requires lines != [] && lines[0] == Opcode(idx, fields) && Says(flag, fields, alts) && alts != []
    ensures T.AltsOf(Run(flag, w, lines).value.body, idx) == alts
  {
    LineSays(flag, w.s, idx, fields, alts);
    ListedFirst(flag, w, lines, idx);
  }

  lemma InRest(lines: seq<MapLine>, line: MapLine)
    requires line in lines && lines[0] != line
    ensures line in lines[1..]
  {
  }

  lemma RunRest(flag: string -> Attr, w: World, lines: seq<MapLine>)
    requires lines != [] && Run(flag, w, lines).Some? && AllInside(lines)
    ensures Accepted(flag, w, lines[0]) && Run(flag, w, lines) == Run(flag, Next(flag, w, lines[0]), lines[1..]) && AllInside(lines[1..])
  {
  }

  /** What a line says of an index, if anything, is all that the table says of it. */
  lemma {:induction false} ListedOnce(flag: string -> Attr, w: World, lines: seq<MapLine>, idx: nat, fields: seq<string>, alts: seq<T.Alt>)
    requires (forall op :: Plain(flag, op)) && Kept(w) && Run(flag, w, lines).Some? && AllInside(lines)
    requires Opcode(idx, fields) in lines && Says(flag, fields, alts) && alts != [] && T.AltsOf(w.body, idx) == []
    ensures T.AltsOf(Run(flag, w, lines).value.body, idx) == alts
    decreases |lines|
  {
    RunRest(flag, w, lines);
    if lines[0] == Opcode(idx, fields) {
      ListedHere(flag, w, lines, idx, fields, alts);
    } else {
      InRest(lines, Opcode(idx, fields));
      NotListedYet(flag, w, lines, idx, fields);
      ListedOnce(flag, Next(flag, w, lines[0]), lines[1..], idx, fields, alts);
    }
  }

  /** So it is what the lines of the table, read on their own, say of it. */
  lemma ReadOnce(flag: string -> Attr, w: World, lines: seq<MapLine>, idx: nat, fields: seq<string>, alts: seq<T.Alt>)
    requires (forall op :: Plain(flag, op)) && Kept(w) && Run(flag, w, lines).Some? && AllInside(lines)
    requires Opcode(idx, fields) in lines && Says(flag, fields, alts) && alts != [] && w.body == []
    ensures T.AltsOf(ReadLines(flag, w, lines), idx) == alts
  {
    NothingListed(idx);
    ListedOnce(flag, w, lines, idx, fields, alts);
    FromNothing(flag, w, lines);
  }

  lemma NothingListed(idx: nat)
    ensures T.AltsOf([], idx) == []
  {
  }

  lemma FromNothing(flag: string -> Attr, w: World, lines: seq<MapLine>)
    requires Run(flag, w, lines).Some? && AllInside(lines) && w.body == []
    ensures Run(flag, w, lines).value.body == ReadLines(flag, w, lines)
  {
    InsideTable(flag, w, lines);
    assert [] + ReadLines(flag, w, lines) == ReadLines(flag, w, lines);
  }

  // ---- The lines of the three prefixes ----

  lemma PrefixForAny()
    ensures ForAny("(Prefix)") && IsPrefix("(Prefix)")
  {
    Absent("(Prefix)", "(66)");
    Absent("(Prefix)", "(F3)");
    Absent("(Prefix)", "(F2)");
    Present("(Prefix)", "(Prefix)", 0);
  }

  lemma PrefixForce64()
    ensures !IsForce64("(Prefix)")
  {
    Absent("(Prefix)", "(d64)");
    Absent("(Prefix)", "(f64)");
  }

  lemma PrefixVex()
    ensures !IsVexOnly("(Prefix)") && !IsVexOk("(Prefix)")
  {
    Absent("(Prefix)", "(oVEX)");
    Absent("(Prefix)", "(VEX)");
  }

  /** A mnemonic that is neither a group nor REX nor an escape to the coprocessor. */
  predicate OrdinaryName(name: string) {
    name != "escape" && !IsGroup(name) && !IsRex(name) && !IsFpu(name)
  }

  lemma ParseOne(name: string, ext: string)
    requires IsExt(ext)
    ensures Parse([name, ext]) == Some([Alternative(name, [], ext)])
  {
    var fields := [name, ext];
    assert fields[1..] == [ext] && [ext][1..] == [];
    assert Parse([]) == Some([]) && [Alternative(name, [], ext)] + [] == [Alternative(name, [], ext)];
  }

  lemma DescribeOne(flag: string -> Attr, groups: map<string, nat>, ggid: nat, alt: Alternative)
    ensures DescribeAll(flag, groups, ggid, [alt]) == DescribeMore(flag, Gathered(groups, ggid, []), alt)
  {
    assert [alt][..0] == [];
  }

  lemma NamedPrefix(flag: string -> Attr, name: string, ext: string)
    requires OrdinaryName(name) && PrefixNumber(name) != 0
    requires IsPrefix(ext) && !IsForce64(ext) && !IsVexOnly(ext) && !IsVexOk(ext)
    ensures Described(flag, Alternative(name, [], ext), 0) == Some(NIL.(pfx := PrefixNumber(name)))
  {
    OrZeros(PrefixNumber(name), 0, 0, 0);
  }

  lemma PrefixFlags(flag: string -> Attr, name: string)
    requires OrdinaryName(name) && PrefixNumber(name) != 0
    ensures Described(flag, Alternative(name, [], "(Prefix)"), 0) == Some(NIL.(pfx := PrefixNumber(name)))
  {
    PrefixForce64();
    PrefixVex();
    PrefixForAny();
    NamedPrefix(flag, name, "(Prefix)");
  }

  lemma PrefixSaysWith(flag: string -> Attr, name: string, alt: T.Alt, groups: map<string, nat>, ggid: nat)
    requires OrdinaryName(name) && PrefixNumber(name) != 0 && Parse([name, "(Prefix)"]) == Some([Alternative(name, [], "(Prefix)")])
    requires alt == T.Alt(NIL.(pfx := PrefixNumber(name)), Tag("(Prefix)"), "(Prefix)")
    ensures SaysWith(flag, [name, "(Prefix)"], [alt], groups, ggid)
  {
    DescribeOne(flag, groups, ggid, Alternative(name, [], "(Prefix)"));
    PrefixFlags(flag, name);
  }

  lemma PrefixSays(flag: string -> Attr, name: string)
    requires OrdinaryName(name) && PrefixNumber(name) != 0
    ensures Says(flag, [name, "(Prefix)"], [T.Alt(NIL.(pfx := PrefixNumber(name)), 0, "(Prefix)")])
  {
    ParseOne(name, "(Prefix)");
    PrefixForAny();
    var alt := T.Alt(NIL.(pfx := PrefixNumber(name)), 0, "(Prefix)");
    forall groups, ggid
      ensures SaysWith(flag, [name, "(Prefix)"], [alt], groups, ggid)
    {
      PrefixSaysWith(flag, name, alt, groups, ggid);
    }
  }

  lemma Ordinary(name: string)
    requires name != "escape" && !Begins(name, "Grp", 0) && !Begins(name, "REX", 0) && !Begins(name, "ESC", 0)
    ensures OrdinaryName(name)
  {
    StartBegins(name, "Grp");
    StartBegins(name, "REX");
    StartBegins(name, "ESC");
  }

  lemma PrefixNames()
    ensures OrdinaryName("Operand-Size") && PrefixNumber("Operand-Size") == 1
    ensures OrdinaryName("REP/REPE") && PrefixNumber("REP/REPE") == 2
    ensures OrdinaryName("REPNE") && PrefixNumber("REPNE") == 3
  {
    Ordinary("Operand-Size");
    Ordinary("REP/REPE");
    Ordinary("REPNE");
  }

  /** The lines of 66, f3 and f2 in the primary table. */
  predicate PrefixLines(lines: seq<MapLine>) {
    && Opcode(0x66, ["Operand-Size", "(Prefix)"]) in lines
    && Opcode(0xf3, ["REP/REPE", "(Prefix)"]) in lines
    && Opcode(0xf2, ["REPNE", "(Prefix)"]) in lines
  }

  /** A table stands in a file after some lines, which lead to w, and before others. */
  datatype Place = Place(before: seq<MapLine>, w: World, rest: seq<MapLine>)

  ghost predicate Placed(flag: string -> Attr, at: Place, table: seq<MapLine>) {
    Between(flag, at.before, at.w) && AfterTable(flag, at.w, table, at.rest).Some?
  }

  /** The state after the whole file. */
  ghost function End(flag: string -> Attr, at: Place, table: seq<MapLine>): World
    requires Placed(flag, at, table)
  {
    AfterTable(flag, at.w, table, at.rest).value
  }

  ghost predicate PrimaryPlaced(flag: string -> Attr, at: Place, lines: seq<MapLine>) {
    Placed(flag, at, TableText(AvxCode(None), lines)) && at.w.s.eid == -1 && at.w.s.aid == -1 && OpcodesOnly(lines)
  }

  lemma PrefixAnswer(flag: string -> Attr, at: Place, lines: seq<MapLine>, b: Byte, name: string)
    requires (forall op :: Plain(flag, op)) && PrimaryPlaced(flag, at, lines)
    requires Opcode(b, [name, "(Prefix)"]) in lines && OrdinaryName(name) && PrefixNumber(name) != 0
    ensures Emitted(End(flag, at, TableText(AvxCode(None), lines)).s).primary[b].pfx == PrefixNumber(name)
  {
    var w := at.w;
    PrimaryTableAnswers(flag, at.before, w, lines, at.rest, b);
    FileKept(flag, at.before, w, TableText(AvxCode(None), lines), at.rest);
    TableRead(flag, w, AvxCode(None), lines);
    NextKeeps(flag, w, AvxCode(None));
    PrefixSays(flag, name);
    var alt := T.Alt(NIL.(pfx := PrefixNumber(name)), 0, "(Prefix)");
    ReadOnce(flag, Next(flag, w, AvxCode(None)), lines, b, [name, "(Prefix)"], [alt]);
    OneReading(alt);
  }

  lemma OneReading(alt: T.Alt)
    requires alt.tag == 0
    ensures T.BaseReading([alt]) == alt.flags
  {
    assert [alt][..|[alt]| - 1] == [];
    assert T.Union([alt], 0) == Or(T.Union([], 0), alt.flags);
    OrNil(alt.flags);
  }

  /** In the emitted tables 66, f3 and f2 select the first, second and third variant. */
  lemma PrefixNumbers(flag: string -> Attr, at: Place, lines: seq<MapLine>, last: Byte)
    requires (forall op :: Plain(flag, op)) && PrimaryPlaced(flag, at, lines) && PrefixLines(lines)
    requires last in {0x66, 0xf2, 0xf3}
    ensures VariantId(Emitted(End(flag, at, TableText(AvxCode(None), lines)).s), last) == Number(last)
  {
    PrefixNames();
    if last == 0x66 {
      PrefixAnswer(flag, at, lines, 0x66, "Operand-Size");
    } else if last == 0xf3 {
      PrefixAnswer(flag, at, lines, 0xf3, "REP/REPE");
    } else {
      PrefixAnswer(flag, at, lines, 0xf2, "REPNE");
    }
  }

  /** The whole file, put together. */
  function FileOf(at: Place, table: seq<MapLine>): seq<MapLine> {
    at.before + (table + at.rest)
  }

  lemma EndIsRun(flag: string -> Attr, at: Place, table: seq<MapLine>)
    requires Placed(flag, at, table)
    ensures Run(flag, BEGIN, FileOf(at, table)) == Some(End(flag, at, table))
  {
    RunAppend(flag, BEGIN, at.before, table + at.rest);
    RunAppend(flag, at.w, table, at.rest);
  }

  lemma SameNumbers(flag: string -> Attr, p: Place, plines: seq<MapLine>, at: Place, table: seq<MapLine>, last: Byte)
    requires (forall op :: Plain(flag, op)) && PrimaryPlaced(flag, p, plines) && PrefixLines(plines) && last in {0x66, 0xf2, 0xf3}
    requires Placed(flag, at, table) && FileOf(at, table) == FileOf(p, TableText(AvxCode(None), plines))
    ensures VariantId(Emitted(End(flag, at, table).s), last) == Number(last)
  {
    PrefixNumbers(flag, p, plines, last);
    EndIsRun(flag, p, TableText(AvxCode(None), plines));
    EndIsRun(flag, at, table);
  }

  /**
   * In an accepted file whose primary table has the three prefix lines, a lookup of
   * an escape's opcode after f3 unites exactly the flags of the alternatives whose
   * extras have "(F3)" and not "(66)", if any alternative has one of the three, and
   * reads the line as without a prefix otherwise; so for 66 and f2.
   */
  lemma PrefixSelects(flag: string -> Attr, p: Place, plines: seq<MapLine>, at: Place, name: seq<string>, lines: seq<MapLine>,
                      op: Byte, last: Byte)
    requires (forall op :: Plain(flag, op)) && PrimaryPlaced(flag, p, plines) && PrefixLines(plines) && last in {0x66, 0xf2, 0xf3}
    requires Placed(flag, at, TableText(Referrer(name), lines)) && name != [] && Concat(name) in at.w.s.escapes
    requires FileOf(at, TableText(Referrer(name), lines)) == FileOf(p, TableText(AvxCode(None), plines))
    requires forall k :: 0 <= k < |lines| ==> Inside(lines[k])
    ensures Accepted(flag, at.w, Referrer(name))
    ensures var end := End(flag, at, TableText(Referrer(name), lines));
      && Concat(name) in end.s.escapes
      && EscapeAttribute(Emitted(end.s), op, last, NIL.(esc := EscId(end.s.escapes[Concat(name)])))
           == TextReading(T.AltsOf(ReadLines(flag, Next(flag, at.w, Referrer(name)), lines), op), last)
  {
    EscapeTableAnswers(flag, at.before, at.w, name, lines, at.rest, op, last);
    SameNumbers(flag, p, plines, at, TableText(Referrer(name), lines), last);
    var body := ReadLines(flag, Next(flag, at.w, Referrer(name)), lines);
    ReadLinesFit(flag, Next(flag, at.w, Referrer(name)), lines);
    AltsFit(body, op);
    ReadingIsText(T.AltsOf(body, op), last);
  }

  /** The same for a group's table. */
  lemma PrefixSelectsInGroup(flag: string -> Attr, p: Place, plines: seq<MapLine>, at: Place, name: string, lines: seq<MapLine>,
                             modrm: Byte, last: Byte, attr: Attr)
    requires (forall op :: Plain(flag, op)) && PrimaryPlaced(flag, p, plines) && PrefixLines(plines) && last in {0x66, 0xf2, 0xf3}
    requires Placed(flag, at, TableText(GrpTable(name), lines)) && name in at.w.s.groups && attr.grp == GrpId(at.w.s.groups[name])
    requires FileOf(at, TableText(GrpTable(name), lines)) == FileOf(p, TableText(AvxCode(None), plines))
    requires forall k :: 0 <= k < |lines| ==> Inside(lines[k])
    ensures Accepted(flag, at.w, GrpTable(name))
    ensures GroupAttribute(Emitted(End(flag, at, TableText(GrpTable(name), lines)).s), modrm, last, attr)
         == Or(TextReading(T.AltsOf(ReadLines(flag, Next(flag, at.w, GrpTable(name)), lines), modrm / 8 % 8), last), attr.(grp := 0))
  {
    GroupTableAnswers(flag, at.before, at.w, name, lines, at.rest, modrm, last, attr);
    SameNumbers(flag, p, plines, at, TableText(GrpTable(name), lines), last);
    var body := ReadLines(flag, Next(flag, at.w, GrpTable(name)), lines);
    ReadLinesFit(flag, Next(flag, at.w, GrpTable(name)), lines);
    AltsFit(body, modrm / 8 % 8);
    ReadingIsText(T.AltsOf(body, modrm / 8 % 8), last);
  }

  /** What a VEX map says: prefix field 1 stands for 66, 2 for f3 and 3 for f2. */
  ghost function VexText(alts: seq<T.Alt>, p: nat): Attr {
    if p == 0 then BaseText(alts)
    else if p == 1 then UnionFor(alts, 0x66)
    else if p == 2 then UnionFor(alts, 0xf3)
    else UnionFor(alts, 0xf2)
  }

  lemma VexIsText(alts: seq<T.Alt>, p: nat)
    requires TagsFit(alts) && p < 4
    ensures (if p == 0 then T.BaseReading(alts) else T.Union(alts, T.PrefixNumberOf(p))) == VexText(alts, p)
  {
    ReadingIsText(alts, if p == 1 then 0x66 else if p == 2 then 0xf3 else 0xf2);
  }

  lemma VexSelects(flag: string -> Attr, at: Place, a: nat, lines: seq<MapLine>, op: Byte, p: nat)
    requires (forall op :: Plain(flag, op)) && a < 32 && p < 4 && OpcodesOnly(lines)
    requires Placed(flag, at, TableText(AvxCode(Some(a)), lines))
    ensures Accepted(flag, at.w, AvxCode(Some(a)))
    ensures AvxAttribute(Emitted(End(flag, at, TableText(AvxCode(Some(a)), lines)).s), op, a, p)
         == VexText(T.AltsOf(ReadLines(flag, Next(flag, at.w, AvxCode(Some(a))), lines), op), p)
  {
    AvxTableAnswers(flag, at.before, at.w, a, lines, at.rest, op, p);
    var body := ReadLines(flag, Next(flag, at.w, AvxCode(Some(a))), lines);
    ReadLinesFit(flag, Next(flag, at.w, AvxCode(Some(a))), lines);
    AltsFit(body, op);
    VexIsText(T.AltsOf(body, op), p);
  }
}
