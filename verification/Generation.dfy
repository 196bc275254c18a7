/** The DDL that a diff is turned into, up and down, and when down undoes up. */
module Generation {
  import opened Wrappers
  import opened Schemas
  import SchemaDiff

  datatype Statement =
    | SqlCreateTable(def: TableDef)
    | SqlDropTable(table: string)
    | SqlAddColumn(table: string, column: Column)
    | SqlDropColumn(table: string, name: string)
    | SqlAlterType(table: string, name: string, ty: string)
    | SqlSetNotNull(table: string, name: string)
    | SqlCreateIndex(index: string, unique: bool, table: string, columns: seq<string>)
    | SqlDropIndex(index: string)
    | SqlComment(text: string)

  datatype Generated = Generated(up: seq<Statement>, down: seq<Statement>, requiresReview: bool)

  function IndexName(table: string, columns: seq<string>): string {
    "uq_" + table + "_" + Join(columns, "_")
  }

  function Ups(c: Change): seq<Statement> {
    match c
    case CreateTable(t) => [SqlCreateTable(t)]
    case DropTable(table) => [SqlDropTable(table)]
    case AddColumn(table, column) => [SqlAddColumn(table, column)]
    case DropColumn(table, name) => [SqlDropColumn(table, name)]
    case AlterColumn(table, name, _, to) =>
      if to.nullable then [SqlAlterType(table, name, to.ty)]
      else [SqlAlterType(table, name, to.ty), SqlSetNotNull(table, name)]
    case AddIndex(table, columns) => [SqlCreateIndex(IndexName(table, columns), true, table, columns)]
    case DropIndex(table, columns) => [SqlDropIndex(IndexName(table, columns))]
  }

  /** Dropped tables and columns only leave a comment; a dropped index comes back without UNIQUE. */
  function Down(c: Change): Statement {
    match c
    case CreateTable(t) => SqlDropTable(t.name)
    case DropTable(table) => SqlComment("UNDO drop_table " + table)
    case AddColumn(table, column) => SqlDropColumn(table, column.name)
    case DropColumn(table, name) => SqlComment("UNDO drop_column " + table + "." + name)
    case AlterColumn(table, name, from, _) => SqlAlterType(table, name, from.ty)
    case AddIndex(table, columns) => SqlDropIndex(IndexName(table, columns))
    case DropIndex(table, columns) => SqlCreateIndex(IndexName(table, columns), false, table, columns)
  }

  function UpAll(cs: seq<Change>): seq<Statement> {
    if cs == [] then [] else UpAll(cs[..|cs| - 1]) + Ups(cs[|cs| - 1])
  }

  /** The undo of the last change comes first. */
  function DownAll(cs: seq<Change>): seq<Statement> {
    if cs == [] then [] else [Down(cs[|cs| - 1])] + DownAll(cs[..|cs| - 1])
  }

  function Reversed<T>(s: seq<T>): seq<T> {
    if s == [] then [] else [s[|s| - 1]] + Reversed(s[..|s| - 1])
  }

  method GenerateMigrationSql(diff: DiffResult) returns (g: Generated)
    ensures g == Generated(UpAll(diff.changes), DownAll(diff.changes), diff.destructive != [])
  {
    var up, down := [], [];
    for i := 0 to |diff.changes|
      invariant up == UpAll(diff.changes[..i]) && Reversed(down) == DownAll(diff.changes[..i])
    {
      assert diff.changes[..i + 1][..i] == diff.changes[..i];
      up, down := ApplyChange(diff.changes[i], up, down);
    }
    assert diff.changes[..|diff.changes|] == diff.changes;
    g := Generated(up, Reversed(down), diff.destructive != []);
  }

  /** Pushes the statements of one change. */
  method ApplyChange(c: Change, up: seq<Statement>, down: seq<Statement>)
      returns (up': seq<Statement>, down': seq<Statement>)
    ensures up' == up + Ups(c) && down' == down + [Down(c)]
    ensures Reversed(down') == [Down(c)] + Reversed(down)
  {
    up', down' := up, down;
    match c {
      case CreateTable(t) =>
        up' := up' + [SqlCreateTable(t)];
        down' := down' + [SqlDropTable(t.name)];
      case DropTable(table) =>
        up' := up' + [SqlDropTable(table)];
        down' := down' + [SqlComment("UNDO drop_table " + table)];
      case AddColumn(table, column) =>
        up' := up' + [SqlAddColumn(table, column)];
        down' := down' + [SqlDropColumn(table, column.name)];
      case DropColumn(table, name) =>
        up' := up' + [SqlDropColumn(table, name)];
        down' := down' + [SqlComment("UNDO drop_column " + table + "." + name)];
      case AlterColumn(table, name, from, to) =>
        up' := up' + [SqlAlterType(table, name, to.ty)];
        if !to.nullable {
          up' := up' + [SqlSetNotNull(table, name)];
        }
        down' := down' + [SqlAlterType(table, name, from.ty)];
      case AddIndex(table, columns) =>
        up' := up' + [SqlCreateIndex(IndexName(table, columns), true, table, columns)];
        down' := down' + [SqlDropIndex(IndexName(table, columns))];
      case DropIndex(table, columns) =>
        up' := up' + [SqlDropIndex(IndexName(table, columns))];
        down' := down' + [SqlCreateIndex(IndexName(table, columns), false, table, columns)];
    }
    assert down'[..|down|] == down;
  }

  // ---- running the statements ----

  datatype Index = Index(table: string, columns: seq<string>, unique: bool)

  /** A live database: the columns of each table in order, and the named indexes. */
  datatype Live = Live(tables: Tables, indexes: map<string, Index>)

  predicate Indexed(db: Live, table: string, name: string) {
    exists i | i in db.indexes :: db.indexes[i].table == table && name in db.indexes[i].columns
  }

  function TableIndexes(db: Live, table: string): set<string> {
    set i | i in db.indexes && db.indexes[i].table == table
  }

  /** `None` is the database refusing the statement. A column cannot be dropped while it is indexed;
      a dropped table takes its indexes along. */
  function Exec(db: Live, st: Statement): Option<Live> {
    match st
    case SqlCreateTable(t) => if t.name in db.tables then None else Some(db.(tables := db.tables[t.name := t.columns]))
    case SqlDropTable(t) =>
      if t !in db.tables then None else Some(Live(db.tables - {t}, db.indexes - TableIndexes(db, t)))
    case SqlAddColumn(t, c) =>
      if t !in db.tables || HasColumn(db.tables[t], c.name) then None
      else Some(db.(tables := db.tables[t := db.tables[t] + [c]]))
    case SqlDropColumn(t, name) =>
      if t !in db.tables || !HasColumn(db.tables[t], name) || Indexed(db, t, name) then None
      else Some(db.(tables := db.tables[t := RemoveAt(db.tables[t], ColumnAt(db.tables[t], name))]))
    case SqlAlterType(t, name, ty) =>
      if t !in db.tables || !HasColumn(db.tables[t], name) then None
      else Some(WithColumn(db, t, name, db.tables[t][ColumnAt(db.tables[t], name)].(ty := ty)))
    case SqlSetNotNull(t, name) =>
      if t !in db.tables || !HasColumn(db.tables[t], name) then None
      else Some(WithColumn(db, t, name, db.tables[t][ColumnAt(db.tables[t], name)].(nullable := false)))
    case SqlCreateIndex(index, unique, t, columns) =>
      if index in db.indexes || t !in db.tables || exists n | n in columns :: !HasColumn(db.tables[t], n) then None
      else Some(db.(indexes := db.indexes[index := Index(t, columns, unique)]))
    case SqlDropIndex(index) => if index in db.indexes then Some(db.(indexes := db.indexes - {index})) else None
    case SqlComment(_) => Some(db)
  }

  function WithColumn(db: Live, t: string, name: string, c: Column): Live
    requires t in db.tables && HasColumn(db.tables[t], name)
  {
    db.(tables := db.tables[t := db.tables[t][ColumnAt(db.tables[t], name) := c]])
  }

  function ExecAll(db: Live, sts: seq<Statement>): Option<Live> {
    if sts == [] then Some(db)
    else
      var before := ExecAll(db, sts[..|sts| - 1]);
      if before.None? then None else Exec(before.value, sts[|sts| - 1])
  }

  /** Every index stands on existing columns of an existing table; no table has a column twice. */
  ghost predicate Sound(db: Live) {
    && (forall t | t in db.tables :: DistinctColumns(db.tables[t]))
    && (forall i | i in db.indexes :: IndexSound(db, db.indexes[i]))
  }

  predicate IndexSound(db: Live, i: Index) {
    i.table in db.tables && forall n | n in i.columns :: HasColumn(db.tables[i.table], n)
  }

  // ---- one change, up and down ----

  /** What the caller can check beforehand to know that down will undo up. */
  predicate Undoable(db: Live, c: Change) {
    match c
    case CreateTable(_) => true
    case DropTable(_) => false
    case AddColumn(_, _) => true
    case DropColumn(_, _) => false
    case AlterColumn(t, name, from, to) =>
      t in db.tables && HasColumn(db.tables[t], name) &&
      var now := db.tables[t][ColumnAt(db.tables[t], name)];
      from.ty == now.ty && (to.nullable || !now.nullable)
    case AddIndex(_, _) => true
    case DropIndex(t, columns) =>
      var index := IndexName(t, columns);
      index in db.indexes && db.indexes[index] == Index(t, columns, false)
  }

  lemma ExecOne(db: Live, st: Statement)
    ensures ExecAll(db, [st]) == Exec(db, st)
  {
    assert [st][..0] == [];
  }

  lemma ExecTwo(db: Live, a: Statement, b: Statement)
    ensures ExecAll(db, [a, b]) == if Exec(db, a).None? then None else Exec(Exec(db, a).value, b)
  {
    assert [a, b][..1] == [a];
    ExecOne(db, a);
  }

  lemma {:induction false} ExecAllSplit(db: Live, a: seq<Statement>, b: seq<Statement>)
    ensures ExecAll(db, a + b) == if ExecAll(db, a).None? then None else ExecAll(ExecAll(db, a).value, b)
  {
    if b == [] {
      assert a + b == a;
    } else {
      ExecAllSplit(db, a, b[..|b| - 1]);
      assert (a + b)[..|a + b| - 1] == a + b[..|b| - 1];
    }
  }

  /** Running the down of a change right after its up restores the database, column order and
      indexes included, exactly when the change is undoable. */
  lemma UndoesExactly(db: Live, c: Change, done: Live)
    requires Sound(db) && ExecAll(db, Ups(c)) == Some(done)
    ensures Exec(done, Down(c)) == Some(db) <==> Undoable(db, c)
  {
    hide Sound, HasColumn, ColumnAt;
    match c {
      case CreateTable(t) =>
        ExecOne(db, SqlCreateTable(t));
        CreateUndone(db, t);
      case DropTable(t) =>
        TableLost(db, t, done);
      case AddColumn(t, column) =>
        ExecOne(db, SqlAddColumn(t, column));
        AddUndone(db, t, column);
      case DropColumn(t, name) =>
        ColumnLost(db, t, name, done);
      case AlterColumn(t, name, from, to) => AlterUndone(db, t, name, from, to, done);
      case AddIndex(t, columns) =>
        IndexGone(db, t, columns, done);
      case DropIndex(t, columns) =>
        ExecOne(db, SqlDropIndex(IndexName(t, columns)));
        IndexUndone(db, t, columns);
    }
  }

  lemma TableLost(db: Live, t: string, done: Live)
    requires ExecAll(db, [SqlDropTable(t)]) == Some(done)
    ensures done != db
  {
    ExecOne(db, SqlDropTable(t));
    assert t in db.tables && t !in done.tables;
  }

  lemma ColumnLost(db: Live, t: string, name: string, done: Live)
    requires ExecAll(db, [SqlDropColumn(t, name)]) == Some(done)
    ensures done != db
  {
    ExecOne(db, SqlDropColumn(t, name));
    assert |done.tables[t]| != |db.tables[t]|;
  }

  lemma IndexGone(db: Live, t: string, columns: seq<string>, done: Live)
    requires ExecAll(db, [SqlCreateIndex(IndexName(t, columns), true, t, columns)]) == Some(done)
    ensures Exec(done, SqlDropIndex(IndexName(t, columns))) == Some(db)
  {
    ExecOne(db, SqlCreateIndex(IndexName(t, columns), true, t, columns));
    assert db.indexes[IndexName(t, columns) := Index(t, columns, true)] - {IndexName(t, columns)} == db.indexes;
  }

  lemma CreateUndone(db: Live, t: TableDef)
    requires Sound(db) && t.name !in db.tables
    ensures Exec(db.(tables := db.tables[t.name := t.columns]), SqlDropTable(t.name)) == Some(db)
  {
    var made := db.(tables := db.tables[t.name := t.columns]);
    assert made.tables - {t.name} == db.tables;
    forall i | i in made.indexes ensures i !in TableIndexes(made, t.name) {
      assert IndexSound(db, db.indexes[i]);
    }
    assert made.indexes - TableIndexes(made, t.name) == db.indexes;
  }

  lemma AddUndone(db: Live, t: string, column: Column)
    requires Sound(db) && t in db.tables && !HasColumn(db.tables[t], column.name)
    ensures Exec(db.(tables := db.tables[t := db.tables[t] + [column]]), SqlDropColumn(t, column.name)) == Some(db)
  {
    var cols := db.tables[t] + [column];
    var made := db.(tables := db.tables[t := cols]);
    assert cols[|cols| - 1] == column;
    assert RemoveAt(cols, |cols| - 1) == db.tables[t];
    forall i | i in made.indexes ensures !(made.indexes[i].table == t && column.name in made.indexes[i].columns) {
      assert IndexSound(db, db.indexes[i]);
    }
    assert db.tables[t := cols][t := db.tables[t]] == db.tables;
  }

  lemma AlterUndone(db: Live, t: string, name: string, from: Column, to: Column, done: Live)
    requires ExecAll(db, Ups(AlterColumn(t, name, from, to))) == Some(done)
    ensures Exec(done, SqlAlterType(t, name, from.ty)) == Some(db) <==> Undoable(db, AlterColumn(t, name, from, to))
  {
    AlterDone(db, t, name, from, to, done);
    var now, i := db.tables[t][ColumnAt(db.tables[t], name)], ColumnAt(db.tables[t], name);
    var revised := Retyped(now, to);
    RetypedBack(now, from, to);
    SameSpot(db.tables[t], name, revised);
    hide ColumnAt, HasColumn, Ups, ExecAll, Retyped;
    Restored(db.tables, t, i, revised, revised.(ty := from.ty));
  }

  /** What the up of an alteration makes of the column it finds. */
  function Retyped(now: Column, to: Column): (c: Column)
    ensures c.name == now.name
  {
    if to.nullable then now.(ty := to.ty) else now.(ty := to.ty, nullable := false)
  }

  lemma RetypedBack(now: Column, from: Column, to: Column)
    ensures Retyped(now, to).(ty := from.ty) == now <==> from.ty == now.ty && (to.nullable || !now.nullable)
  {
  }

  lemma Restored(ts: Tables, t: string, i: nat, revised: Column, undone: Column)
    requires t in ts && i < |ts[t]|
    ensures ts[t := ts[t][i := revised]][t := ts[t][i := revised][i := undone]] == ts <==> undone == ts[t][i]
  {
    var cols := ts[t];
    assert cols[i := revised][i := undone] == cols[i := undone];
    var back := ts[t := cols[i := revised]][t := cols[i := undone]];
    if undone == cols[i] {
      assert cols[i := undone] == cols;
      assert back == ts;
    } else {
      assert back[t][i] != cols[i];
    }
  }

  lemma AlterDone(db: Live, t: string, name: string, from: Column, to: Column, done: Live)
    requires ExecAll(db, Ups(AlterColumn(t, name, from, to))) == Some(done)
    ensures t in db.tables && HasColumn(db.tables[t], name)
    ensures var cols, i := db.tables[t], ColumnAt(db.tables[t], name);
            done == db.(tables := db.tables[t := cols[i := Retyped(cols[i], to)]])
  {
    hide ColumnAt, HasColumn;
    ExecOne(db, SqlAlterType(t, name, to.ty));
    ExecTwo(db, SqlAlterType(t, name, to.ty), SqlSetNotNull(t, name));
    hide ExecAll;
    if !to.nullable {
      TypedThenFilled(db, t, name, to.ty);
    }
  }

  /** The new type and then NOT NULL, at the same column. */
  lemma TypedThenFilled(db: Live, t: string, name: string, ty: string)
    requires t in db.tables && HasColumn(db.tables[t], name)
    ensures var cols, i := db.tables[t], ColumnAt(db.tables[t], name);
            var once := WithColumn(db, t, name, cols[i].(ty := ty));
            && Exec(db, SqlAlterType(t, name, ty)) == Some(once)
            && Exec(once, SqlSetNotNull(t, name)) ==
               Some(db.(tables := db.tables[t := cols[i := cols[i].(ty := ty, nullable := false)]]))
  {
    var cols, i := db.tables[t], ColumnAt(db.tables[t], name);
    SameSpot(cols, name, cols[i].(ty := ty));
    hide ColumnAt, HasColumn;
    var once, revised := cols[i := cols[i].(ty := ty)], cols[i].(ty := ty, nullable := false);
    assert once[i := revised] == cols[i := revised];
    assert db.tables[t := once][t := cols[i := revised]] == db.tables[t := cols[i := revised]];
  }

  lemma SameSpot(cols: seq<Column>, name: string, c: Column)
    requires HasColumn(cols, name) && c.name == name
    ensures var more := cols[ColumnAt(cols, name) := c];
            HasColumn(more, name) && ColumnAt(more, name) == ColumnAt(cols, name)
  {
    var i := ColumnAt(cols, name);
    assert cols[i := c][i].name == name;
    LastSpot(cols, name, i);
    LastSpot(cols[i := c], name, i);
  }

  lemma IndexUndone(db: Live, t: string, columns: seq<string>)
    requires Sound(db) && IndexName(t, columns) in db.indexes
    ensures var done := db.(indexes := db.indexes - {IndexName(t, columns)});
            Exec(done, SqlCreateIndex(IndexName(t, columns), false, t, columns)) == Some(db) <==>
                Undoable(db, DropIndex(t, columns))
  {
    var index := IndexName(t, columns);
    var done := db.(indexes := db.indexes - {index});
    if Undoable(db, DropIndex(t, columns)) {
      assert IndexSound(db, db.indexes[index]);
      assert done.indexes[index := Index(t, columns, false)] == db.indexes;
    } else {
      assert done.indexes[index := Index(t, columns, false)][index] != db.indexes[index];
    }
  }

  // ---- whole migrations ----

  lemma ExecSound(db: Live, st: Statement)
    requires Sound(db) && Exec(db, st).Some?
    requires st.SqlCreateTable? ==> DistinctColumns(st.def.columns)
    ensures Sound(Exec(db, st).value)
  {
    var done := Exec(db, st).value;
    match st {
      case SqlAddColumn(t, c) =>
        forall n | HasColumn(db.tables[t], n) ensures HasColumn(done.tables[t], n) {
          SchemaDiff.HasLast(db.tables[t], c, n);
        }
      case SqlDropColumn(t, name) => DropSound(db, t, name);
      case SqlAlterType(t, name, ty) =>
        ReplaceSound(db, t, name, db.tables[t][ColumnAt(db.tables[t], name)].(ty := ty));
      case SqlSetNotNull(t, name) =>
        ReplaceSound(db, t, name, db.tables[t][ColumnAt(db.tables[t], name)].(nullable := false));
      case _ =>
    }
  }

  lemma DropSound(db: Live, t: string, name: string)
    requires Sound(db) && t in db.tables && HasColumn(db.tables[t], name) && !Indexed(db, t, name)
    ensures Sound(db.(tables := db.tables[t := RemoveAt(db.tables[t], ColumnAt(db.tables[t], name))]))
  {
    var cols, i := db.tables[t], ColumnAt(db.tables[t], name);
    var rest := RemoveAt(cols, i);
    forall n | n != name && HasColumn(cols, n) ensures HasColumn(rest, n) {
      var j :| 0 <= j < |cols| && cols[j].name == n;
      assert rest[if j < i then j else j - 1] == cols[j];
    }
    var done := db.(tables := db.tables[t := rest]);
    forall x | x in done.indexes ensures IndexSound(done, done.indexes[x]) {
      assert IndexSound(db, db.indexes[x]);
    }
  }

  lemma ReplaceSound(db: Live, t: string, name: string, c: Column)
    requires Sound(db) && t in db.tables && HasColumn(db.tables[t], name) && c.name == name
    ensures Sound(WithColumn(db, t, name, c))
  {
    var cols, i := db.tables[t], ColumnAt(db.tables[t], name);
    var more := cols[i := c];
    forall n | HasColumn(cols, n) ensures HasColumn(more, n) {
      var j :| 0 <= j < |cols| && cols[j].name == n;
      assert more[j].name == n;
    }
    var done := WithColumn(db, t, name, c);
    forall x | x in done.indexes ensures IndexSound(done, done.indexes[x]) {
      assert IndexSound(db, db.indexes[x]);
    }
  }

  /** The tables that the changes create have no column twice. */
  predicate ProperTables(cs: seq<Change>) {
    forall i | 0 <= i < |cs| && cs[i].CreateTable? :: DistinctColumns(cs[i].def.columns)
  }

  lemma {:induction false} UpAllSound(db: Live, cs: seq<Change>)
    requires Sound(db) && ProperTables(cs) && ExecAll(db, UpAll(cs)).Some?
    ensures Sound(ExecAll(db, UpAll(cs)).value)
  {
    if cs != [] {
      var front, c := cs[..|cs| - 1], cs[|cs| - 1];
      ExecAllSplit(db, UpAll(front), Ups(c));
      UpAllSound(db, front);
      UpsSound(ExecAll(db, UpAll(front)).value, c);
    }
  }

  lemma UpsSound(db: Live, c: Change)
    requires Sound(db) && (c.CreateTable? ==> DistinctColumns(c.def.columns)) && ExecAll(db, Ups(c)).Some?
    ensures Sound(ExecAll(db, Ups(c)).value)
  {
    var sts := Ups(c);
    ExecOne(db, sts[0]);
    ExecSound(db, sts[0]);
    if |sts| == 2 {
      ExecTwo(db, sts[0], sts[1]);
      ExecSound(Exec(db, sts[0]).value, sts[1]);
    }
  }

  /** Every change is undoable at the point where the migration reaches it. */
  predicate AllUndoable(db: Live, cs: seq<Change>) {
    cs == [] ||
      var front, c := cs[..|cs| - 1], cs[|cs| - 1];
      && AllUndoable(db, front) && ExecAll(db, UpAll(front)).Some?
      && Undoable(ExecAll(db, UpAll(front)).value, c)
  }

  /** A migration of undoable changes is undone, statement by statement, by its generated down. */
  lemma {:induction false} MigrationUndone(db: Live, cs: seq<Change>)
    requires Sound(db) && ProperTables(cs) && AllUndoable(db, cs) && ExecAll(db, UpAll(cs)).Some?
    ensures ExecAll(ExecAll(db, UpAll(cs)).value, DownAll(cs)) == Some(db)
  {
    if cs != [] {
      var front, c := cs[..|cs| - 1], cs[|cs| - 1];
      var mid := ExecAll(db, UpAll(front)).value;
      ExecAllSplit(db, UpAll(front), Ups(c));
      UpAllSound(db, front);
      MigrationUndone(db, front);
      var done := ExecAll(mid, Ups(c)).value;
      UndoesExactly(mid, c, done);
      ExecOne(done, Down(c));
      ExecAllSplit(done, [Down(c)], DownAll(front));
    }
  }

  // ---- migrations generated from a diff ----

  /** Creates tables, adds columns and indexes, and nothing else. */
  predicate Additive(c: Change) {
    c.CreateTable? || c.AddColumn? || c.AddIndex?
  }

  predicate AllAdditive(cs: seq<Change>) {
    forall i | 0 <= i < |cs| :: Additive(cs[i])
  }

  function IndexNames(cs: seq<Change>): seq<string> {
    if cs == [] then []
    else
      var c, rest := cs[|cs| - 1], IndexNames(cs[..|cs| - 1]);
      if c.AddIndex? then rest + [IndexName(c.table, c.columns)] else rest
  }

  /** No two new indexes share a name, and none has the name of an existing one. */
  predicate FreshNames(used: set<string>, names: seq<string>) {
    && (forall i, j | 0 <= i < j < |names| :: names[i] != names[j])
    && (forall i | 0 <= i < |names| :: names[i] !in used)
  }

  /** On the tables an additive statement does what the change stands for; only the name of an index
      can get in its way. */
  lemma AdditiveExec(db: Live, c: Change)
    requires Additive(c)
    ensures ExecAll(db, Ups(c)).Some? <==>
            Apply(db.tables, c).Some? && (c.AddIndex? ==> IndexName(c.table, c.columns) !in db.indexes)
    ensures ExecAll(db, Ups(c)).Some? ==>
              && ExecAll(db, Ups(c)).value.tables == Apply(db.tables, c).value
              && ExecAll(db, Ups(c)).value.indexes.Keys ==
                 db.indexes.Keys + if c.AddIndex? then {IndexName(c.table, c.columns)} else {}
  {
    ExecOne(db, Ups(c)[0]);
    if c.AddIndex? && c.table in db.tables {
      assert db.tables[c.table := db.tables[c.table]] == db.tables;
    }
  }

  lemma {:induction false} AdditiveRun(db: Live, cs: seq<Change>)
    requires AllAdditive(cs)
    ensures ExecAll(db, UpAll(cs)).Some? <==>
            ApplyAll(db.tables, cs).Some? && FreshNames(db.indexes.Keys, IndexNames(cs))
    ensures ExecAll(db, UpAll(cs)).Some? ==>
              && ExecAll(db, UpAll(cs)).value.tables == ApplyAll(db.tables, cs).value
              && ExecAll(db, UpAll(cs)).value.indexes.Keys == db.indexes.Keys + set n | n in IndexNames(cs)
  {
    if cs != [] {
      var front, c := cs[..|cs| - 1], cs[|cs| - 1];
      AdditiveRun(db, front);
      ExecAllSplit(db, UpAll(front), Ups(c));
      FreshStep(db.indexes.Keys, front, c);
      if ExecAll(db, UpAll(front)).Some? {
        AdditiveExec(ExecAll(db, UpAll(front)).value, c);
      }
    }
  }

  lemma FreshStep(used: set<string>, front: seq<Change>, c: Change)
    ensures var names := IndexNames(front);
            FreshNames(used, IndexNames(front + [c])) <==>
            FreshNames(used, names) && (c.AddIndex? ==> IndexName(c.table, c.columns) !in used + set n | n in names)
  {
    var names := IndexNames(front);
    assert (front + [c])[..|front|] == front;
    if c.AddIndex? {
      var more, name := names + [IndexName(c.table, c.columns)], IndexName(c.table, c.columns);
      assert forall i | 0 <= i < |names| :: more[i] == names[i];
      if FreshNames(used, more) {
        assert more[|names|] == name;
        assert name !in names;
      }
    }
  }

  lemma {:induction false} AdditiveUndoable(db: Live, cs: seq<Change>)
    requires AllAdditive(cs) && ExecAll(db, UpAll(cs)).Some?
    ensures AllUndoable(db, cs)
  {
    if cs != [] {
      ExecAllSplit(db, UpAll(cs[..|cs| - 1]), Ups(cs[|cs| - 1]));
      AdditiveUndoable(db, cs[..|cs| - 1]);
    }
  }

  /** The changes of a diff that nothing has to review are additive. */
  lemma DiffAdditive(before: seq<TableDef>, after: seq<TableDef>)
    requires SchemaDiff.Filtered(Diff(before, after)) == []
    ensures AllAdditive(Diff(before, after))
  {
    NoIndexDropped(before, after);
  }

  lemma NoIndexDropped(before: seq<TableDef>, after: seq<TableDef>)
    ensures forall c | c in Diff(before, after) :: !c.DropIndex?
  {
    var b, a := Latest(before), Latest(after);
    KeptDropsNoIndex(b, a);
    TablesDropNoIndex(b, a);
    assert Diff(before, after) == KeptOrCreated(b, a) + DroppedTables(b, a);
  }

  lemma {:induction false} TablesDropNoIndex(before: seq<TableDef>, after: seq<TableDef>)
    ensures forall c | c in DroppedTables(before, after) :: !c.DropIndex?
  {
    if before != [] {
      TablesDropNoIndex(before[..|before| - 1], after);
    }
  }

  lemma {:induction false} KeptDropsNoIndex(before: seq<TableDef>, after: seq<TableDef>)
    ensures forall c | c in KeptOrCreated(before, after) :: !c.DropIndex?
  {
    if after != [] {
      var t := after[|after| - 1];
      KeptDropsNoIndex(before, after[..|after| - 1]);
      hide TableChanges;
      if HasTable(before, t.name) {
        TableDropsNoIndex(t.name, before[TableAt(before, t.name)].columns, t.columns);
      }
    }
  }

  lemma TableDropsNoIndex(table: string, before: seq<Column>, after: seq<Column>)
    ensures forall c | c in TableChanges(table, before, after) :: !c.DropIndex?
  {
    FromAfter(table, before, after);
    FromBefore(table, before, after);
    hide Added, Altered, NewlyUnique, Dropped;
  }

  lemma {:induction false} FromAfter(table: string, before: seq<Column>, after: seq<Column>)
    ensures forall c | c in Added(table, before, after) :: !c.DropIndex?
    ensures forall c | c in Altered(table, before, after) :: !c.DropIndex?
    ensures forall c | c in NewlyUnique(table, before, after) :: !c.DropIndex?
    decreases after
  {
    if after != [] {
      FromAfter(table, before, after[..|after| - 1]);
    }
  }

  lemma {:induction false} FromBefore(table: string, before: seq<Column>, after: seq<Column>)
    ensures forall c | c in Dropped(table, before, after) :: !c.DropIndex?
  {
    if before != [] {
      FromBefore(table, before[..|before| - 1], after);
    }
  }

  /** The tables a diff creates are those of the new schema. */
  lemma {:induction false} CreatedAreNew(before: seq<TableDef>, after: seq<TableDef>)
    requires WellFormed(after)
    ensures forall c | c in KeptOrCreated(before, after) && c.CreateTable? :: DistinctColumns(c.def.columns)
  {
    if after != [] {
      var t := after[|after| - 1];
      CreatedAreNew(before, after[..|after| - 1]);
      hide TableChanges;
      if HasTable(before, t.name) {
        SchemaDiff.TableChangesConcern(t.name, before[TableAt(before, t.name)].columns, t.columns);
      }
    }
  }

  lemma DiffProper(before: seq<TableDef>, after: seq<TableDef>)
    requires WellFormed(after) && AllAdditive(Diff(before, after))
    ensures ProperTables(Diff(before, after))
  {
    LatestDistinct(after);
    CreatedAreNew(Latest(before), Latest(after));
    var d := Diff(before, after);
    forall i | 0 <= i < |d| && d[i].CreateTable? ensures DistinctColumns(d[i].def.columns) {
      OnlyKeptCreates(Latest(before), Latest(after));
      assert d[i] in d;
    }
  }

  lemma {:induction false} OnlyKeptCreates(before: seq<TableDef>, after: seq<TableDef>)
    ensures forall c | c in DroppedTables(before, after) :: c.DropTable?
  {
    if before != [] {
      OnlyKeptCreates(before[..|before| - 1], after);
    }
  }

  /** The migration of a diff without destructive changes runs through exactly when the names of its
      indexes are free; then it leaves the new schema, and its down restores the database exactly. */
  lemma DiffMigration(before: seq<TableDef>, after: seq<TableDef>, db: Live)
    requires DistinctTables(before) && DistinctTables(after) && WellFormed(before) && WellFormed(after)
    requires Sound(db) && db.tables == ToTables(before) && SchemaDiff.Filtered(Diff(before, after)) == []
    ensures ExecAll(db, UpAll(Diff(before, after))).Some? <==>
            FreshNames(db.indexes.Keys, IndexNames(Diff(before, after)))
    ensures ExecAll(db, UpAll(Diff(before, after))).Some? ==>
              var done := ExecAll(db, UpAll(Diff(before, after))).value;
              && done.tables == SchemaDiff.Delivered(before, after)
              && ExecAll(done, DownAll(Diff(before, after))) == Some(db)
  {
    var cs := Diff(before, after);
    SchemaDiff.DiffCarries(before, after);
    DiffAdditive(before, after);
    DiffProper(before, after);
    hide Diff;
    AdditiveRun(db, cs);
    if ExecAll(db, UpAll(cs)).Some? {
      AdditiveUndoable(db, cs);
      MigrationUndone(db, cs);
    }
  }

  /** Two different unique columns can ask for the same index name; one of the two statements then fails. */
  lemma NamesCollide(db: Live)
    ensures IndexName("a_b", ["c"]) == IndexName("a", ["b_c"])
    ensures ExecAll(db, UpAll([AddIndex("a_b", ["c"]), AddIndex("a", ["b_c"])])).None?
  {
    var name := IndexName("a_b", ["c"]);
    assert Join(["c"], "_") == "c" && Join(["b_c"], "_") == "b_c";
    assert "uq_" + "a_b" + "_" + "c" == "uq_" + "a" + "_" + "b_c";
    var cs := [AddIndex("a_b", ["c"]), AddIndex("a", ["b_c"])];
    assert cs[..1] == [AddIndex("a_b", ["c"])];
    AdditiveRun(db, cs);
    assert IndexNames(cs[..1]) == [name] by {
      assert cs[..1][..0] == [];
    }
    assert IndexNames(cs)[0] == IndexNames(cs)[1];
  }
}
