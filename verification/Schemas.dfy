/** Table definitions, the changes between two schemas, and what each change does to a schema. */
module Schemas {
  import opened Wrappers

  datatype Reference = Reference(table: string, column: string, onDelete: Option<string>, onUpdate: Option<string>)

  /** `def` is the default written as text; an absent or null default is `None`. */
  datatype Column = Column(name: string, ty: string, nullable: bool, primaryKey: bool, unique: bool,
                           def: Option<string>, defaultExpr: Option<string>, onUpdate: Option<string>,
                           references: Option<Reference>, check_: Option<string>, enumValues: Option<seq<string>>)

  datatype TableDef = TableDef(name: string, columns: seq<Column>)

  datatype Change =
    | CreateTable(def: TableDef)
    | DropTable(table: string)
    | AddColumn(table: string, column: Column)
    | DropColumn(table: string, name: string)
    | AlterColumn(table: string, name: string, from: Column, to: Column)
    | AddIndex(table: string, columns: seq<string>)
    | DropIndex(table: string, columns: seq<string>)

  datatype DiffResult = DiffResult(changes: seq<Change>, destructive: seq<Change>)

  predicate Destructive(c: Change) {
    c.DropTable? || c.DropColumn? || c.AlterColumn?
  }

  // ---- columns ----

  function OrEmpty(s: Option<string>): string {
    if s.Some? then s.value else ""
  }

  function ReferenceText(r: Option<Reference>): string {
    if r.None? then "" else r.value.table + "." + r.value.column + OrEmpty(r.value.onDelete) + OrEmpty(r.value.onUpdate)
  }

  function Join(parts: seq<string>, separator: string): string {
    if parts == [] then "" else if |parts| == 1 then parts[0] else parts[0] + separator + Join(parts[1..], separator)
  }

  function EnumText(c: Column): string {
    if c.ty == "enum" && c.enumValues.Some? then Join(c.enumValues.value, ",") else ""
  }

  /** Whether the diff sees no difference; it does not look at `primaryKey`. */
  predicate SameColumn(a: Column, b: Column) {
    && a.ty == b.ty && a.nullable == b.nullable && a.unique == b.unique
    && OrEmpty(a.def) == OrEmpty(b.def) && OrEmpty(a.defaultExpr) == OrEmpty(b.defaultExpr)
    && OrEmpty(a.onUpdate) == OrEmpty(b.onUpdate) && ReferenceText(a.references) == ReferenceText(b.references)
    && OrEmpty(a.check_) == OrEmpty(b.check_) && EnumText(a) == EnumText(b)
  }

  predicate HasColumn(cols: seq<Column>, name: string) {
    exists i | 0 <= i < |cols| :: cols[i].name == name
  }

  function ColumnAt(cols: seq<Column>, name: string): (i: nat)
    requires HasColumn(cols, name)
    ensures i < |cols| && cols[i].name == name
  {
    if cols[|cols| - 1].name == name then |cols| - 1
    else
      assert HasColumn(cols[..|cols| - 1], name) by {
        var i :| 0 <= i < |cols| && cols[i].name == name;
        assert cols[..|cols| - 1][i] == cols[i];
      }
      ColumnAt(cols[..|cols| - 1], name)
  }

  /** Lookup goes for the last column of the name. */
  lemma {:induction false} LastSpot(cols: seq<Column>, name: string, i: nat)
    requires HasColumn(cols, name) && i < |cols| && cols[i].name == name
    ensures ColumnAt(cols, name) >= i
    ensures ColumnAt(cols, name) == i <==> forall j | i < j < |cols| :: cols[j].name != name
  {
    if cols[|cols| - 1].name != name {
      assert cols[..|cols| - 1][i] == cols[i];
      LastSpot(cols[..|cols| - 1], name, i);
    }
  }

  predicate DistinctColumns(cols: seq<Column>) {
    forall i, j | 0 <= i < j < |cols| :: cols[i].name != cols[j].name
  }

  predicate DistinctTables(ts: seq<TableDef>) {
    forall i, j | 0 <= i < j < |ts| :: ts[i].name != ts[j].name
  }

  /** Columns come from the keys of an object, so no table has a name twice. */
  predicate WellFormed(ts: seq<TableDef>) {
    forall i | 0 <= i < |ts| :: DistinctColumns(ts[i].columns)
  }

  // ---- tables by name ----

  predicate HasTable(ts: seq<TableDef>, name: string) {
    exists i | 0 <= i < |ts| :: ts[i].name == name
  }

  function TableAt(ts: seq<TableDef>, name: string): (i: nat)
    requires HasTable(ts, name)
    ensures i < |ts| && ts[i].name == name
  {
    if ts[|ts| - 1].name == name then |ts| - 1
    else
      assert HasTable(ts[..|ts| - 1], name) by {
        var i :| 0 <= i < |ts| && ts[i].name == name;
        assert ts[..|ts| - 1][i] == ts[i];
      }
      TableAt(ts[..|ts| - 1], name)
  }

  /** The entries of a map filled in list order: a repeated name keeps its place and takes the last definition. */
  function Latest(ts: seq<TableDef>): seq<TableDef> {
    if ts == [] then []
    else
      var before, last := Latest(ts[..|ts| - 1]), ts[|ts| - 1];
      if HasTable(before, last.name) then before[TableAt(before, last.name) := last] else before + [last]
  }

  lemma {:induction false} LatestDistinct(ts: seq<TableDef>)
    ensures DistinctTables(Latest(ts))
    ensures forall name :: HasTable(Latest(ts), name) <==> HasTable(ts, name)
    ensures WellFormed(ts) ==> WellFormed(Latest(ts))
  {
    if ts != [] {
      var front, last := ts[..|ts| - 1], ts[|ts| - 1];
      LatestDistinct(front);
      var before := Latest(front);
      forall name ensures HasTable(ts, name) <==> HasTable(front, name) || last.name == name {
        OneMoreTable(front, last, name);
        assert front + [last] == ts;
      }
      if HasTable(before, last.name) {
        ReplacedTable(before, TableAt(before, last.name), last);
      } else {
        forall name ensures HasTable(before + [last], name) <==> HasTable(before, name) || last.name == name {
          OneMoreTable(before, last, name);
        }
      }
    }
  }

  lemma OneMoreTable(ts: seq<TableDef>, last: TableDef, name: string)
    ensures HasTable(ts + [last], name) <==> HasTable(ts, name) || last.name == name
  {
    assert (ts + [last])[|ts|] == last;
    forall i | 0 <= i < |ts| ensures (ts + [last])[i] == ts[i] {
    }
  }

  lemma ReplacedTable(ts: seq<TableDef>, i: nat, t: TableDef)
    requires i < |ts| && ts[i].name == t.name
    ensures forall name :: HasTable(ts[i := t], name) <==> HasTable(ts, name)
    ensures DistinctTables(ts) ==> DistinctTables(ts[i := t])
  {
    assert forall j | 0 <= j < |ts| :: ts[i := t][j].name == ts[j].name;
  }

  /** Nothing changes when no name is repeated. */
  lemma {:induction false} LatestOfDistinct(ts: seq<TableDef>)
    requires DistinctTables(ts)
    ensures Latest(ts) == ts
  {
    if ts != [] {
      LatestOfDistinct(ts[..|ts| - 1]);
    }
  }

  // ---- the diff ----

  function Added(table: string, before: seq<Column>, after: seq<Column>): seq<Change> {
    if after == [] then []
    else
      var c, rest := after[|after| - 1], Added(table, before, after[..|after| - 1]);
      if HasColumn(before, c.name) then rest else rest + [AddColumn(table, c)]
  }

  function Dropped(table: string, before: seq<Column>, after: seq<Column>): seq<Change> {
    if before == [] then []
    else
      var c, rest := before[|before| - 1], Dropped(table, before[..|before| - 1], after);
      if HasColumn(after, c.name) then rest else rest + [DropColumn(table, c.name)]
  }

  function Altered(table: string, before: seq<Column>, after: seq<Column>): seq<Change> {
    if after == [] then []
    else
      var c, rest := after[|after| - 1], Altered(table, before, after[..|after| - 1]);
      if HasColumn(before, c.name) && !SameColumn(before[ColumnAt(before, c.name)], c)
      then rest + [AlterColumn(table, c.name, before[ColumnAt(before, c.name)], c)] else rest
  }

  /** A column that is unique without being the primary key. */
  predicate UniqueColumn(c: Column) {
    c.unique && !c.primaryKey
  }

  predicate WasUnique(before: seq<Column>, name: string) {
    exists i | 0 <= i < |before| :: UniqueColumn(before[i]) && before[i].name == name
  }

  function NewlyUnique(table: string, before: seq<Column>, after: seq<Column>): seq<Change> {
    if after == [] then []
    else
      var c, rest := after[|after| - 1], NewlyUnique(table, before, after[..|after| - 1]);
      if UniqueColumn(c) && !WasUnique(before, c.name) then rest + [AddIndex(table, [c.name])] else rest
  }

  function TableChanges(table: string, before: seq<Column>, after: seq<Column>): seq<Change> {
    Added(table, before, after) + Dropped(table, before, after) + Altered(table, before, after) +
        NewlyUnique(table, before, after)
  }

  function OneTable(before: seq<TableDef>, t: TableDef): seq<Change> {
    if HasTable(before, t.name) then TableChanges(t.name, before[TableAt(before, t.name)].columns, t.columns)
    else [CreateTable(t)]
  }

  function KeptOrCreated(before: seq<TableDef>, after: seq<TableDef>): seq<Change> {
    if after == [] then []
    else KeptOrCreated(before, after[..|after| - 1]) + OneTable(before, after[|after| - 1])
  }

  function DroppedTables(before: seq<TableDef>, after: seq<TableDef>): seq<Change> {
    if before == [] then []
    else
      var t, rest := before[|before| - 1], DroppedTables(before[..|before| - 1], after);
      if HasTable(after, t.name) then rest else rest + [DropTable(t.name)]
  }

  function Diff(before: seq<TableDef>, after: seq<TableDef>): seq<Change> {
    KeptOrCreated(Latest(before), Latest(after)) + DroppedTables(Latest(before), Latest(after))
  }

  // ---- what a change does ----

  type Tables = map<string, seq<Column>>

  function ToTables(ts: seq<TableDef>): Tables {
    if ts == [] then map[] else ToTables(ts[..|ts| - 1])[ts[|ts| - 1].name := ts[|ts| - 1].columns]
  }

  /** What a change to one table does to its columns; `None` when it cannot be carried out. */
  function ApplyToColumns(cols: seq<Column>, c: Change): Option<seq<Column>> {
    match c
    case AddColumn(_, column) => if HasColumn(cols, column.name) then None else Some(cols + [column])
    case DropColumn(_, name) => if HasColumn(cols, name) then Some(RemoveAt(cols, ColumnAt(cols, name))) else None
    case AlterColumn(_, name, from, to) =>
      if HasColumn(cols, name) && cols[ColumnAt(cols, name)] == from then Some(cols[ColumnAt(cols, name) := to])
      else None
    case AddIndex(_, names) => if forall n | n in names :: HasColumn(cols, n) then Some(cols) else None
    case DropIndex(_, _) => Some(cols)
    case _ => None
  }

  function Apply(ts: Tables, c: Change): Option<Tables> {
    match c
    case CreateTable(t) => if t.name in ts then None else Some(ts[t.name := t.columns])
    case DropTable(name) => if name in ts then Some(ts - {name}) else None
    case _ =>
      if c.table !in ts then None
      else
        var cols := ApplyToColumns(ts[c.table], c);
        if cols.None? then None else Some(ts[c.table := cols.value])
  }

  function ApplyAll(ts: Tables, cs: seq<Change>): Option<Tables> {
    if cs == [] then Some(ts)
    else
      var before := ApplyAll(ts, cs[..|cs| - 1]);
      if before.None? then None else Apply(before.value, cs[|cs| - 1])
  }
}
