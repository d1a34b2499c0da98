/**
 * gen-insn-attr-x86.awk: its variables, updated line by line. Every rule is
 * tied to the step on values in module MapRuns; ok is false when the script
 * stops with a semantic error.
 */
module MapCompiler {
  import opened Wrappers
  import opened Inat
  import opened OpcodeText
  import opened OpcodeLines
  import opened MapRuns
  import T = MapTables

  class Compiler {
    const immFlag: string -> Attr
    var escape: map<string, nat>
    var mentioned: set<string>
    var group: map<string, nat>
    var geid: nat
    var ggid: nat
    var table: T.Row
    var lptable1: T.Row
    var lptable2: T.Row
    var lptable3: T.Row
    var eid: int
    var gid: int
    var aid: int
    var tname: TableName
    var primary: T.Row
    var etable: Stored
    var gtable: Stored
    var atable: Stored

    /** BEGIN */
    constructor (immFlag: string -> Attr)
      ensures this.immFlag == immFlag && View() == START
    {
      this.immFlag := immFlag;
      escape, mentioned, group, geid, ggid := map[], {}, map[], 1, 1;
      table, lptable1, lptable2, lptable3 := map[], map[], map[], map[];
      eid, gid, aid, tname, primary := -1, -1, -1, Unnamed, map[];
      etable, gtable, atable := map[], map[], map[];
    }

    ghost function Rows(): T.Rows
      reads this
    {
      T.Rows(table, lptable1, lptable2, lptable3)
    }

    ghost function View(): State
      reads this
    {
      State(escape, mentioned, group, geid, ggid, Rows(), eid, gid, aid, tname, primary, etable, gtable, atable)
    }

    method ClearVars()
      modifies this`table, this`lptable1, this`lptable2, this`lptable3, this`eid, this`gid, this`aid, this`tname
      ensures Rows() == T.EMPTY && eid == -1 && gid == -1 && aid == -1 && tname == Unnamed
    {
      table, lptable1, lptable2, lptable3 := map[], map[], map[], map[];
      eid, gid, aid, tname := -1, -1, -1, Unnamed;
    }

    method TableRule() returns (ok: bool)
      ensures ok <==> Step(immFlag, View(), TableLine).Some?
    {
      ok := tname == Unnamed;
    }

    method ReferrerRule(name: seq<string>)
      modifies this
      ensures View() == if name == [] then old(View()) else ReferrerLine(old(View()), Concat(name))
    {
      if name != [] {
        var ref := Concat(name);
        if ref in escape {
          eid := escape[ref];
        } else {
          mentioned := mentioned + {ref};
          eid := NOWHERE;
        }
        tname := EscapeTable;
      }
    }

    method AvxCodeRule(code: Option<nat>)
      modifies this
      ensures View() == AvxCodeLine(old(View()), code)
    {
      if code.Some? {
        aid := code.value;
        if tname == Unnamed {
          tname := AvxTable;
        }
      }
      if aid == -1 && eid == -1 {
        tname := PrimaryTable;
      }
    }

    method GrpTableRule(name: string) returns (ok: bool)
      modifies this
      ensures ok <==> Step(immFlag, old(View()), GrpTable(name)).Some?
      ensures ok ==> Step(immFlag, old(View()), GrpTable(name)) == Some(View())
    {
      if name !in group {
        return false;
      }
      gid := group[name];
      tname := GroupTable;
      return true;
    }

    /** Keeps the tables that have entries, for the arrays printed at the end. */
    method StowTables()
      modifies this`etable, this`gtable, this`atable, this`primary
      ensures View() == Stowed(old(View()))
    {
      var rows := T.Rows(table, lptable1, lptable2, lptable3);
      if gid != -1 {
        gtable := Store(gtable, gid, rows);
      } else {
        etable := Store(etable, eid, rows);
        if aid >= 0 {
          atable := Store(atable, aid, rows);
        }
        if tname == PrimaryTable {
          primary := table;
        }
      }
    }

    method EndTableRule()
      modifies this`table, this`lptable1, this`lptable2, this`lptable3, this`eid, this`gid, this`aid, this`tname
      modifies this`etable, this`gtable, this`atable, this`primary
      ensures View() == EndLine(old(View()))
    {
      StowTables();
      ghost var s := View();
      ClearVars();
      assert View() == Cleared(s);
    }

    /** lptable and table entries grow by the flags of one alternative. */
    method AddAlternative(idx: nat, flags: Attr, tag: bv4, ghost ext: string)
      requires tag <= LSTPFX_MAX
      modifies this`table, this`lptable1, this`lptable2, this`lptable3
      ensures Rows() == T.AddAlt(old(Rows()), idx, T.Alt(flags, tag, ext))
    {
      if tag == 1 {
        lptable1 := T.AddTo(lptable1, idx, flags);
      } else if tag == 2 {
        lptable2 := T.AddTo(lptable2, idx, flags);
      } else if tag == 3 {
        lptable3 := T.AddTo(lptable3, idx, flags);
      } else {
        table := T.AddTo(table, idx, flags);
      }
    }

    /** The group number of a mnemonic, made when it is new. */
    method GroupNumber(opcode: string) returns (number: nat)
      modifies this`group, this`ggid
      ensures GroupOf(old(group), old(ggid), opcode) == Grouped(group, ggid, number)
    {
      if !IsGroup(opcode) {
        return 0;
      }
      if opcode !in group {
        group := group[opcode := ggid];
        ggid := ggid + 1;
      }
      number := group[opcode];
    }

    /** An opcode line. */
    method OpcodeRule(idx: nat, fields: seq<string>) returns (ok: bool)
      requires forall op :: Plain(immFlag, op)
      modifies this`table, this`lptable1, this`lptable2, this`lptable3, this`group, this`ggid, this`escape, this`geid
      ensures ok <==> OpcodeLine(immFlag, old(View()), idx, fields).Some?
      ensures ok ==> OpcodeLine(immFlag, old(View()), idx, fields) == Some(View())
    {
      if idx in table {
        return false;
      }
      if fields != [] && fields[0] == "escape" {
        ok := EscapeRule(idx, fields);
        return;
      }
      var parsed := ParseLine(fields);
      if parsed.None? {
        return false;
      }
      ok := AlternativesRule(idx, parsed.value);
    }

    /** A line that names an escape. */
    method EscapeRule(idx: nat, fields: seq<string>) returns (ok: bool)
      requires fields != [] && idx !in table
      modifies this`table, this`escape, this`geid
      ensures ok <==> EscapeLine(old(View()), idx, fields).Some?
      ensures ok ==> EscapeLine(old(View()), idx, fields) == Some(View())
    {
      if |fields| < 2 || fields[1] != "#" {
        return false;
      }
      var ref := Concat(fields[2..]);
      if ref in escape || ref in mentioned || geid >= ESCAPES {
        return false;
      }
      escape := escape[ref := geid];
      table := table[idx := NIL.(esc := EscId(geid))];
      OrNil(NIL.(esc := EscId(geid)));
      OneUntagged(old(Rows()), idx, NIL.(esc := EscId(geid)));
      geid := geid + 1;
      return true;
    }

    /** The alternatives of a line, then the mark of a line with tagged ones. */
    method AlternativesRule(idx: nat, alts: seq<Alternative>) returns (ok: bool)
      requires forall op :: Plain(immFlag, op)
      modifies this`table, this`lptable1, this`lptable2, this`lptable3, this`group, this`ggid
      ensures ok <==> DescribeAll(immFlag, old(group), old(ggid), alts).Some?
      ensures ok ==> var d := DescribeAll(immFlag, old(group), old(ggid), alts).value;
        View() == old(View()).(groups := d.groups, ggid := d.ggid, rows := T.AddLine(old(Rows()), T.Line(idx, d.alts)))
    {
      var variant;
      ok, variant := AlternativesLoop(idx, alts);
      if ok && variant {
        table := T.AddTo(table, idx, T.VARIANT);
      }
    }

    method AlternativesLoop(idx: nat, alts: seq<Alternative>) returns (ok: bool, variant: bool)
      requires forall op :: Plain(immFlag, op)
      modifies this`table, this`lptable1, this`lptable2, this`lptable3, this`group, this`ggid
      ensures ok <==> DescribeAll(immFlag, old(group), old(ggid), alts).Some?
      ensures ok ==> var d := DescribeAll(immFlag, old(group), old(ggid), alts).value;
        d.groups == group && d.ggid == ggid && Rows() == T.AddAlts(old(Rows()), idx, d.alts) && variant == T.AnyTagged(d.alts)
    {
      ghost var rows, groups, next := Rows(), group, ggid;
      ghost var d := Gathered(group, ggid, []);
      variant := false;
      var i := 0;
      while i < |alts|
        invariant i <= |alts| && DescribeAll(immFlag, groups, next, alts[..i]) == Some(d)
        invariant d.groups == group && d.ggid == ggid && Rows() == T.AddAlts(rows, idx, d.alts)
        invariant variant == T.AnyTagged(d.alts)
      {
        DescribeStep(immFlag, groups, next, alts, i, d);
        var tagged;
        ok, tagged := AlternativeRule(idx, alts[i], d, rows);
        if !ok {
          return;
        }
        d := DescribeMore(immFlag, d, alts[i]).value;
        variant := variant || tagged;
        i := i + 1;
      }
      assert alts[..i] == alts;
      ok := true;
    }

    /** One turn of the loop over the alternatives of a line. */
    method AlternativeRule(idx: nat, alt: Alternative, ghost d: Gathered, ghost rows: T.Rows) returns (ok: bool, tagged: bool)
      requires forall op :: Plain(immFlag, op)
      requires d.groups == group && d.ggid == ggid && Rows() == T.AddAlts(rows, idx, d.alts)
      modifies this`table, this`lptable1, this`lptable2, this`lptable3, this`group, this`ggid
      ensures ok <==> DescribeMore(immFlag, d, alt).Some?
      ensures ok ==> var r := DescribeMore(immFlag, d, alt).value;
        && r.groups == group && r.ggid == ggid && Rows() == T.AddAlts(rows, idx, r.alts)
        && T.AnyTagged(r.alts) == (T.AnyTagged(d.alts) || tagged)
    {
      tagged := false;
      var number := GroupNumber(alt.opcode);
      if ggid > GROUPS {
        return false, false;
      }
      var flags := AlternativeFlags(immFlag, alt, GrpId(number));
      if flags.None? {
        return false, false;
      }
      if flags.value != NIL {
        TagSmall(alt.ext);
        AddAlternative(idx, flags.value, Tag(alt.ext), alt.ext);
        ghost var more := T.Alt(flags.value, Tag(alt.ext), alt.ext);
        assert (d.alts + [more])[..|d.alts|] == d.alts;
        tagged := Tag(alt.ext) != 0;
        TaggedMore(d.alts, more);
      }
      return true, tagged;
    }
  }

  lemma TaggedMore(alts: seq<T.Alt>, alt: T.Alt)
    ensures T.AnyTagged(alts + [alt]) == (T.AnyTagged(alts) || alt.tag != 0)
  {
    var more := alts + [alt];
    if T.AnyTagged(alts) {
      var k :| 0 <= k < |alts| && alts[k].tag != 0;
      assert more[k].tag != 0;
    }
    assert more[|alts|] == alt;
  }

  lemma OneUntagged(rows: T.Rows, idx: nat, flags: Attr)
    requires idx !in rows.base
    ensures T.AddLine(rows, T.Line(idx, [T.Alt(flags, 0, "")])) == rows.(base := rows.base[idx := flags])
  {
    OrNil(flags);
    var alts := [T.Alt(flags, 0, "")];
    assert alts[..0] == [];
    assert T.AddAlts(rows, idx, alts) == T.AddAlt(rows, idx, T.Alt(flags, 0, ""));
  }

  lemma DescribeStep(flag: string -> Attr, groups: map<string, nat>, ggid: nat, alts: seq<Alternative>, i: nat, d: Gathered)
    requires i < |alts| && DescribeAll(flag, groups, ggid, alts[..i]) == Some(d)
    ensures DescribeAll(flag, groups, ggid, alts[..i + 1]) == DescribeMore(flag, d, alts[i])
    ensures DescribeMore(flag, d, alts[i]).None? ==> DescribeAll(flag, groups, ggid, alts).None?
  {
    assert alts[..i + 1][..i] == alts[..i];
    if DescribeMore(flag, d, alts[i]).None? {
      RejectedLater(flag, groups, ggid, alts, i + 1);
    }
  }

  lemma {:induction false} RejectedLater(flag: string -> Attr, groups: map<string, nat>, ggid: nat, alts: seq<Alternative>, k: nat)
    requires k <= |alts| && DescribeAll(flag, groups, ggid, alts[..k]).None?
    ensures DescribeAll(flag, groups, ggid, alts).None?
    decreases |alts|
  {
    if k < |alts| {
      assert alts[..|alts| - 1][..k] == alts[..k];
      RejectedLater(flag, groups, ggid, alts[..|alts| - 1], k);
    } else {
      assert alts[..k] == alts;
    }
  }
}
