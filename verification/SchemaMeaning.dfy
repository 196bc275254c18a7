/** What the diff of two schemas lists, and what it delivers, field by field. */
module SchemaMeaning {
  import opened Wrappers
  import opened Schemas
  import SchemaDiff

  /** An absent field counts as an empty one. */
  predicate SameText(a: Option<string>, b: Option<string>) {
    match (a, b)
    case (None, None) => true
    case (None, Some(t)) => t == ""
    case (Some(s), None) => s == ""
    case (Some(s), Some(t)) => s == t
  }

  function Part(s: Option<string>): string {
    match s
    case None => ""
    case Some(t) => t
  }

  function ForeignKey(r: Option<Reference>): string {
    match r
    case None => ""
    case Some(Reference(table, column, onDelete, onUpdate)) => table + "." + column + Part(onDelete) + Part(onUpdate)
  }

  /** The values with commas between them. */
  function Commas(values: seq<string>): string {
    if values == [] then ""
    else (if |values| == 1 then "" else Commas(values[..|values| - 1]) + ",") + values[|values| - 1]
  }

  function EnumList(c: Column): string {
    match c.enumValues
    case None => ""
    case Some(values) => if c.ty == "enum" then Commas(values) else ""
  }

  /** The columns agree in everything but their names and their being primary keys. */
  predicate Agree(a: Column, b: Column) {
    && a.ty == b.ty && a.nullable == b.nullable && a.unique == b.unique
    && SameText(a.def, b.def) && SameText(a.defaultExpr, b.defaultExpr) && SameText(a.onUpdate, b.onUpdate)
    && SameText(a.check_, b.check_)
    && ForeignKey(a.references) == ForeignKey(b.references) && EnumList(a) == EnumList(b)
  }

  lemma {:induction false} JoinLast(values: seq<string>, last: string)
    ensures Join(values + [last], ",") == if values == [] then last else Join(values, ",") + "," + last
  {
    var all := values + [last];
    if |values| > 0 {
      assert all[1..] == values[1..] + [last] && all[0] == values[0];
      JoinLast(values[1..], last);
    }
  }

  lemma {:induction false} JoinIsCommas(values: seq<string>)
    ensures Join(values, ",") == Commas(values)
  {
    if values != [] {
      var front, last := values[..|values| - 1], values[|values| - 1];
      assert values == front + [last];
      JoinIsCommas(front);
      JoinLast(front, last);
    }
  }

  lemma EnumSame(c: Column)
    ensures EnumText(c) == EnumList(c)
  {
    if c.enumValues.Some? {
      JoinIsCommas(c.enumValues.value);
    }
  }

  lemma KeySame(r: Option<Reference>)
    ensures ReferenceText(r) == ForeignKey(r)
  {
  }

  lemma SameIsAgree(a: Column, b: Column)
    ensures SameColumn(a, b) <==> Agree(a, b)
  {
    EnumSame(a);
    EnumSame(b);
    KeySame(a.references);
    KeySame(b.references);
    hide EnumText, EnumList, ReferenceText, ForeignKey;
  }

  // ---- what the diff delivers ----

  /** The columns of a table after the diff: those of the new definition, agreeing field by field. */
  ghost predicate Delivers(cols: seq<Column>, wanted: seq<Column>) {
    |cols| == |wanted| && forall j | 0 <= j < |wanted| :: Present(cols, wanted[j])
  }

  ghost predicate Present(cols: seq<Column>, c: Column) {
    exists k | 0 <= k < |cols| :: cols[k].name == c.name && Agree(cols[k], c)
  }

  lemma MatchesDelivers(cols: seq<Column>, wanted: seq<Column>)
    requires SchemaDiff.MatchesColumns(cols, wanted) && DistinctColumns(wanted)
    ensures Delivers(cols, wanted)
  {
    forall j | 0 <= j < |wanted| ensures Present(cols, wanted[j]) {
      assert HasColumn(wanted, wanted[j].name);
      var k :| 0 <= k < |cols| && cols[k].name == wanted[j].name;
      LastSpot(wanted, wanted[j].name, j);
      SameIsAgree(cols[k], wanted[j]);
      assert SchemaDiff.SameAsIn(cols[k], wanted);
    }
  }

  /** Carrying out the diff on the old schema never fails, and leaves the tables of the new one, with
      columns that agree with the new definitions field by field. */
  lemma DiffDelivers(before: seq<TableDef>, after: seq<TableDef>)
    requires DistinctTables(before) && DistinctTables(after) && WellFormed(before) && WellFormed(after)
    ensures var ts := ApplyAll(ToTables(before), Diff(before, after));
            && ts.Some?
            && (forall n :: n in ts.value <==> exists i :: 0 <= i < |after| && after[i].name == n)
            && (forall i | 0 <= i < |after| ::
                  after[i].name in ts.value && Delivers(ts.value[after[i].name], after[i].columns))
  {
    SchemaDiff.DiffCarries(before, after);
    var ts := SchemaDiff.Delivered(before, after);
    forall i | 0 <= i < |after| ensures after[i].name in ts && Delivers(ts[after[i].name], after[i].columns) {
      MatchesDelivers(ts[after[i].name], after[i].columns);
    }
  }

  // ---- what the diff lists ----

  /** The column of the name in the table of the name. */
  predicate Defined(ts: seq<TableDef>, table: string, c: Column) {
    exists i, j | 0 <= i < |ts| && 0 <= j < |ts[i].columns| :: ts[i].name == table && ts[i].columns[j] == c
  }

  predicate Named(ts: seq<TableDef>, table: string, column: string) {
    exists i, j | 0 <= i < |ts| && 0 <= j < |ts[i].columns| :: ts[i].name == table && ts[i].columns[j].name == column
  }

  predicate Known(ts: seq<TableDef>, table: string) {
    exists i | 0 <= i < |ts| :: ts[i].name == table
  }

  /** When a change belongs to the difference of the schemas. */
  predicate Called(before: seq<TableDef>, after: seq<TableDef>, c: Change) {
    match c
    case CreateTable(t) => t in after && !Known(before, t.name)
    case DropTable(t) => Known(before, t) && !Known(after, t)
    case AddColumn(t, column) => Known(before, t) && Defined(after, t, column) && !Named(before, t, column.name)
    case DropColumn(t, name) => Known(after, t) && Named(before, t, name) && !Named(after, t, name)
    case AlterColumn(t, name, from, to) =>
      && Defined(before, t, from) && Defined(after, t, to) && from.name == name && to.name == name
      && !Agree(from, to)
    case AddIndex(t, columns) =>
      Known(before, t) && |columns| == 1 &&
      (exists i, j | 0 <= i < |after| && 0 <= j < |after[i].columns| ::
         after[i].name == t && after[i].columns[j].name == columns[0] && after[i].columns[j].unique &&
         !after[i].columns[j].primaryKey) &&
      !exists i, j | 0 <= i < |before| && 0 <= j < |before[i].columns| ::
         before[i].name == t && before[i].columns[j].name == columns[0] && before[i].columns[j].unique &&
         !before[i].columns[j].primaryKey
    case DropIndex(_, _) => false
  }

  /** The table stands at `i`, and none of its name behind it. */
  predicate LastOf(ts: seq<TableDef>, i: nat, t: TableDef) {
    i < |ts| && ts[i] == t && forall j | i < j < |ts| :: ts[j].name != t.name
  }

  /** Of tables with one name the last definition counts. */
  lemma {:induction false} LatestIs(ts: seq<TableDef>, t: TableDef)
    ensures t in Latest(ts) <==> exists i: nat :: LastOf(ts, i, t)
  {
    if ts != [] {
      var front, last := ts[..|ts| - 1], ts[|ts| - 1];
      LatestIs(front, t);
      LatestDistinct(front);
      LatestStep(ts, t);
      if t == last {
        assert LastOf(ts, |front|, t);
      } else {
        forall i: nat ensures LastOf(ts, i, t) <==> LastOf(front, i, t) && last.name != t.name {
          LastStep(ts, i, t);
        }
      }
    }
  }

  lemma LastStep(ts: seq<TableDef>, i: nat, t: TableDef)
    requires ts != [] && t != ts[|ts| - 1]
    ensures LastOf(ts, i, t) <==> LastOf(ts[..|ts| - 1], i, t) && ts[|ts| - 1].name != t.name
  {
    var front := ts[..|ts| - 1];
    assert forall j | 0 <= j < |front| :: front[j] == ts[j];
  }

  lemma LatestStep(ts: seq<TableDef>, t: TableDef)
    requires ts != [] && DistinctTables(Latest(ts[..|ts| - 1]))
    ensures var front, last := ts[..|ts| - 1], ts[|ts| - 1];
            t in Latest(ts) <==> t == last || (t in Latest(front) && t.name != last.name)
  {
    var before, last := Latest(ts[..|ts| - 1]), ts[|ts| - 1];
    if HasTable(before, last.name) {
      ReplacedIn(before, TableAt(before, last.name), last, t);
    } else {
      AppendedIn(before, last, t);
    }
    hide TableAt, HasTable, DistinctTables;
  }

  lemma ReplacedIn(ts: seq<TableDef>, k: nat, last: TableDef, t: TableDef)
    requires DistinctTables(ts) && k < |ts| && ts[k].name == last.name
    ensures t in ts[k := last] <==> t == last || (t in ts && t.name != last.name)
  {
    var us := ts[k := last];
    assert us[k] == last;
    if t in ts && t.name != last.name {
      var i :| 0 <= i < |ts| && ts[i] == t;
      assert us[i] == t;
    }
    if t in us && t != last {
      var i :| 0 <= i < |us| && us[i] == t;
      assert ts[i] == t && i != k;
    }
  }

  lemma AppendedIn(ts: seq<TableDef>, last: TableDef, t: TableDef)
    requires !HasTable(ts, last.name)
    ensures t in ts + [last] <==> t == last || (t in ts && t.name != last.name)
  {
  }

  // what the lists for one table contain

  lemma {:induction false} AddedIs(table: string, before: seq<Column>, after: seq<Column>, c: Change)
    ensures c in Added(table, before, after) <==>
            c.AddColumn? && c.table == table && c.column in after && !HasColumn(before, c.column.name)
  {
    if after != [] {
      AddedIs(table, before, after[..|after| - 1], c);
      assert after == after[..|after| - 1] + [after[|after| - 1]];
    }
  }

  lemma {:induction false} DroppedIs(table: string, before: seq<Column>, after: seq<Column>, c: Change)
    ensures c in Dropped(table, before, after) <==>
            c.DropColumn? && c.table == table && HasColumn(before, c.name) && !HasColumn(after, c.name)
  {
    if before != [] {
      var front, last := before[..|before| - 1], before[|before| - 1];
      DroppedIs(table, front, after, c);
      if c.DropColumn? {
        OneMore(front, last, c.name);
        assert before == front + [last];
      }
    }
  }

  lemma OneMore(cols: seq<Column>, last: Column, name: string)
    ensures HasColumn(cols + [last], name) <==> HasColumn(cols, name) || last.name == name
  {
    if HasColumn(cols, name) {
      var i :| 0 <= i < |cols| && cols[i].name == name;
      assert (cols + [last])[i].name == name;
    }
    if last.name == name {
      assert (cols + [last])[|cols|].name == name;
    }
  }

  lemma {:induction false} AlteredIs(table: string, before: seq<Column>, after: seq<Column>, c: Change)
    requires DistinctColumns(before)
    ensures c in Altered(table, before, after) <==>
            c.AlterColumn? && c.table == table && c.from in before && c.to in after &&
            c.from.name == c.name == c.to.name && !Agree(c.from, c.to)
  {
    if after != [] {
      var front, last := after[..|after| - 1], after[|after| - 1];
      AlteredIs(table, before, front, c);
      assert after == front + [last];
      if c.AlterColumn? {
        SameIsAgree(c.from, c.to);
        if c.from in before && c.from.name == last.name {
          var i :| 0 <= i < |before| && before[i] == c.from;
          LastSpot(before, last.name, i);
        }
      }
    }
  }

  lemma {:induction false} NewlyUniqueIs(table: string, before: seq<Column>, after: seq<Column>, c: Change)
    ensures c in NewlyUnique(table, before, after) <==>
            c.AddIndex? && c.table == table && |c.columns| == 1 && !WasUnique(before, c.columns[0]) &&
            exists j | 0 <= j < |after| :: after[j].name == c.columns[0] && after[j].unique && !after[j].primaryKey
  {
    if after != [] {
      var front, last := after[..|after| - 1], after[|after| - 1];
      NewlyUniqueIs(table, before, front, c);
      assert c.AddIndex? && |c.columns| == 1 ==> c.columns == [c.columns[0]];
      assert forall j | 0 <= j < |front| :: after[j] == front[j];
    }
  }

  lemma {:induction false} KeptIs(before: seq<TableDef>, after: seq<TableDef>, c: Change)
    ensures c in KeptOrCreated(before, after) <==> exists i | 0 <= i < |after| :: c in OneTable(before, after[i])
  {
    hide OneTable;
    if after != [] {
      var front, last := after[..|after| - 1], after[|after| - 1];
      KeptIs(before, front, c);
      assert forall i | 0 <= i < |front| :: after[i] == front[i];
    }
  }

  lemma {:induction false} GoneIs(before: seq<TableDef>, after: seq<TableDef>, c: Change)
    ensures c in DroppedTables(before, after) <==> c.DropTable? && Known(before, c.table) && !Known(after, c.table)
  {
    if before != [] {
      var front, last := before[..|before| - 1], before[|before| - 1];
      GoneIs(front, after, c);
      if c.DropTable? {
        assert Known(before, c.table) <==> Known(front, c.table) || last.name == c.table by {
          assert forall i | 0 <= i < |front| :: before[i] == front[i];
          if last.name == c.table {
            assert before[|front|].name == c.table;
          }
        }
        assert HasTable(after, last.name) <==> Known(after, last.name);
      }
    }
  }

  lemma OneTableIs(before: seq<TableDef>, t: TableDef, c: Change)
    requires WellFormed(before)
    ensures c in OneTable(before, t) <==>
            if HasTable(before, t.name) then
              var cols := before[TableAt(before, t.name)].columns;
              || c in Added(t.name, cols, t.columns) || c in Dropped(t.name, cols, t.columns)
              || c in Altered(t.name, cols, t.columns) || c in NewlyUnique(t.name, cols, t.columns)
            else c == CreateTable(t)
  {
    hide Added, Dropped, Altered, NewlyUnique;
  }

  /** The old table of a name is the only one. */
  lemma TheTable(ts: seq<TableDef>, name: string, i: nat)
    requires DistinctTables(ts) && i < |ts| && ts[i].name == name
    ensures HasTable(ts, name) && TableAt(ts, name) == i
  {
    var k := TableAt(ts, name);
  }

  lemma CalledHere(before: seq<TableDef>, after: seq<TableDef>, i: nat, c: Change)
    requires DistinctTables(before) && DistinctTables(after) && WellFormed(before) && i < |after|
    requires c in OneTable(before, after[i])
    ensures Called(before, after, c)
  {
    var t := after[i];
    OneTableIs(before, t, c);
    if HasTable(before, t.name) {
      var b := TableAt(before, t.name);
      var cols := before[b].columns;
      AddedIs(t.name, cols, t.columns, c);
      DroppedIs(t.name, cols, t.columns, c);
      AlteredIs(t.name, cols, t.columns, c);
      NewlyUniqueIs(t.name, cols, t.columns, c);
      hide Added, Dropped, Altered, NewlyUnique, Agree, OneTable;
      OnlyThere(before, b);
      OnlyThere(after, i);
    }
  }

  /** Tables have their names to themselves. */
  lemma OnlyThere(ts: seq<TableDef>, i: nat)
    requires DistinctTables(ts) && i < |ts|
    ensures Known(ts, ts[i].name)
    ensures forall k | 0 <= k < |ts| && ts[k].name == ts[i].name :: k == i
    ensures forall c :: c in ts[i].columns ==> Defined(ts, ts[i].name, c)
    ensures forall n :: HasColumn(ts[i].columns, n) <==> Named(ts, ts[i].name, n)
  {
    forall c | c in ts[i].columns ensures Defined(ts, ts[i].name, c) {
      var j :| 0 <= j < |ts[i].columns| && ts[i].columns[j] == c;
    }
  }

  lemma ListedHere(before: seq<TableDef>, after: seq<TableDef>, c: Change) returns (i: nat)
    requires DistinctTables(before) && DistinctTables(after) && WellFormed(before)
    requires Called(before, after, c) && !c.DropTable?
    ensures i < |after| && c in OneTable(before, after[i])
  {
    if c.CreateTable? {
      i :| 0 <= i < |after| && after[i] == c.def;
      OneTableIs(before, after[i], c);
    } else {
      i :| 0 <= i < |after| && after[i].name == c.table;
      var t := after[i];
      var b :| 0 <= b < |before| && before[b].name == c.table;
      TheTable(before, c.table, b);
      var cols := before[b].columns;
      OnlyThere(before, b);
      OnlyThere(after, i);
      OneTableIs(before, t, c);
      AddedIs(t.name, cols, t.columns, c);
      DroppedIs(t.name, cols, t.columns, c);
      AlteredIs(t.name, cols, t.columns, c);
      NewlyUniqueIs(t.name, cols, t.columns, c);
    }
  }

  /** The diff lists a change exactly when it belongs to the difference: among others it alters a
      column exactly when the two definitions disagree in some field. */
  lemma DiffIs(before: seq<TableDef>, after: seq<TableDef>, c: Change)
    requires DistinctTables(before) && DistinctTables(after) && WellFormed(before) && WellFormed(after)
    ensures c in Diff(before, after) <==> Called(before, after, c)
  {
    LatestOfDistinct(before);
    LatestOfDistinct(after);
    KeptIs(before, after, c);
    GoneIs(before, after, c);
    if c in KeptOrCreated(before, after) {
      var i :| 0 <= i < |after| && c in OneTable(before, after[i]);
      CalledHere(before, after, i, c);
    }
    if Called(before, after, c) && !c.DropTable? {
      var i := ListedHere(before, after, c);
    }
  }

  /** A change is singled out for review exactly when it drops a table or a column or alters one. */
  lemma {:induction false} ReviewIs(cs: seq<Change>, c: Change)
    ensures c in SchemaDiff.Filtered(cs) <==> c in cs && (c.DropTable? || c.DropColumn? || c.AlterColumn?)
  {
    if cs != [] {
      ReviewIs(cs[..|cs| - 1], c);
      assert cs == cs[..|cs| - 1] + [cs[|cs| - 1]];
    }
  }
}
