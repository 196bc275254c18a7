/** When the generated down of a whole diff takes the database back to where it was. */
module Undoing {
  import opened Wrappers
  import opened Schemas
  import opened Generation
  import SchemaDiff

  /** Nothing is dropped, and no column that admitted NULL is made NOT NULL. */
  predicate Reversible(c: Change) {
    !c.DropTable? && !c.DropColumn? && !c.DropIndex? && (c.AlterColumn? ==> c.to.nullable || !c.from.nullable)
  }

  predicate AllReversible(cs: seq<Change>) {
    forall i | 0 <= i < |cs| :: Reversible(cs[i])
  }

  // ---- what a diff consists of ----

  /** Where a change that drops or alters comes from. */
  predicate Grounded(before: seq<TableDef>, after: seq<TableDef>, c: Change) {
    match c
    case DropTable(t) => HasTable(before, t) && !HasTable(after, t)
    case DropColumn(t, n) =>
      && HasTable(before, t) && HasTable(after, t)
      && HasColumn(Columns(before, t), n) && !HasColumn(Columns(after, t), n)
    case AlterColumn(t, n, from, to) =>
      && HasTable(before, t) && HasTable(after, t) && to.name == n && to in Columns(after, t)
      && HasColumn(Columns(before, t), n) && Columns(before, t)[ColumnAt(Columns(before, t), n)] == from
      && !SameColumn(from, to)
    case CreateTable(t) => DistinctColumns(t.columns) && !HasTable(before, t.name)
    case AddColumn(t, c) => HasTable(before, t) && !HasColumn(Columns(before, t), c.name)
    case AddIndex(_, _) => true
    case DropIndex(_, _) => false
  }

  function Columns(ts: seq<TableDef>, t: string): seq<Column>
    requires HasTable(ts, t)
  {
    ts[TableAt(ts, t)].columns
  }

  lemma {:induction false} AfterGrounded(before: seq<TableDef>, after: seq<TableDef>, t: string, front: seq<Column>)
    requires HasTable(before, t) && HasTable(after, t) && forall c | c in front :: c in Columns(after, t)
    ensures forall c | c in Added(t, Columns(before, t), front) :: Grounded(before, after, c)
    ensures forall c | c in Altered(t, Columns(before, t), front) :: Grounded(before, after, c)
    ensures forall c | c in NewlyUnique(t, Columns(before, t), front) :: Grounded(before, after, c)
    decreases front
  {
    if front != [] {
      AfterGrounded(before, after, t, front[..|front| - 1]);
      assert front[|front| - 1] in front;
    }
  }

  lemma {:induction false} BeforeGrounded(before: seq<TableDef>, after: seq<TableDef>, t: string, front: seq<Column>)
    requires HasTable(before, t) && HasTable(after, t) && forall c | c in front :: c in Columns(before, t)
    ensures forall c | c in Dropped(t, front, Columns(after, t)) :: Grounded(before, after, c)
    decreases front
  {
    if front != [] {
      var last := front[|front| - 1];
      BeforeGrounded(before, after, t, front[..|front| - 1]);
      assert last in front && last in Columns(before, t);
      SchemaDiff.HasMember(Columns(before, t), last);
    }
  }

  lemma OneGrounded(before: seq<TableDef>, after: seq<TableDef>, t: TableDef)
    requires HasTable(after, t.name) && after[TableAt(after, t.name)] == t && DistinctColumns(t.columns)
    ensures forall c | c in OneTable(before, t) :: Grounded(before, after, c)
  {
    if HasTable(before, t.name) {
      AfterGrounded(before, after, t.name, t.columns);
      BeforeGrounded(before, after, t.name, Columns(before, t.name));
      hide Added, Altered, NewlyUnique, Dropped, Grounded;
      assert OneTable(before, t) == TableChanges(t.name, Columns(before, t.name), t.columns);
    }
  }

  lemma {:induction false} KeptGrounded(before: seq<TableDef>, after: seq<TableDef>, n: nat)
    requires n <= |after| && DistinctTables(after) && WellFormed(after)
    ensures forall c | c in KeptOrCreated(before, after[..n]) :: Grounded(before, after, c)
  {
    if n > 0 {
      var front, t := after[..n - 1], after[n - 1];
      KeptGrounded(before, after, n - 1);
      assert after[..n][..n - 1] == front;
      OwnPlace(after, n - 1);
      OneGrounded(before, after, t);
      hide OneTable, Grounded;
    }
  }

  lemma {:induction false} OwnPlace(ts: seq<TableDef>, i: nat)
    requires i < |ts| && DistinctTables(ts)
    ensures HasTable(ts, ts[i].name) && TableAt(ts, ts[i].name) == i
  {
    assert ts[TableAt(ts, ts[i].name)].name == ts[i].name;
  }

  lemma {:induction false} DroppedGrounded(before: seq<TableDef>, after: seq<TableDef>, n: nat)
    requires n <= |before|
    ensures forall c | c in DroppedTables(before[..n], after) :: Grounded(before, after, c)
  {
    if n > 0 {
      DroppedGrounded(before, after, n - 1);
      assert before[..n][..n - 1] == before[..n - 1];
      assert HasTable(before, before[n - 1].name);
    }
  }

  lemma DiffGrounded(before: seq<TableDef>, after: seq<TableDef>)
    requires DistinctTables(before) && DistinctTables(after) && WellFormed(after)
    ensures forall c | c in Diff(before, after) :: Grounded(before, after, c)
  {
    LatestOfDistinct(before);
    LatestOfDistinct(after);
    KeptGrounded(before, after, |after|);
    DroppedGrounded(before, after, |before|);
    assert after[..|after|] == after && before[..|before|] == before;
    hide Grounded, KeptOrCreated, DroppedTables;
  }

  // ---- the live tables beside the tables of the diff ----

  /** A new column is in the database as defined; a kept one as it was, but for its type and for NOT NULL,
      which is all that DDL changes. */
  predicate Follows(live: Column, told: Column, original: Tables, t: string) {
    && live.name == told.name
    && live == if t in original && HasColumn(original[t], told.name)
               then Retyped(original[t][ColumnAt(original[t], told.name)], told) else told
  }

  ghost predicate AllFollow(live: Tables, told: Tables, original: Tables) {
    && live.Keys == told.Keys
    && forall t | t in told :: ColumnsFollow(live[t], told[t], original, t)
  }

  predicate ColumnsFollow(live: seq<Column>, told: seq<Column>, original: Tables, t: string) {
    |live| == |told| && forall i | 0 <= i < |told| :: Follows(live[i], told[i], original, t)
  }

  lemma SameSpots(live: seq<Column>, told: seq<Column>, name: string)
    requires |live| == |told| && forall i | 0 <= i < |told| :: live[i].name == told[i].name
    ensures HasColumn(live, name) <==> HasColumn(told, name)
    ensures HasColumn(live, name) ==> ColumnAt(live, name) == ColumnAt(told, name)
  {
    if HasColumn(told, name) {
      var i := ColumnAt(told, name);
      assert live[i].name == name;
      LastSpot(told, name, i);
      LastSpot(live, name, i);
    }
    if HasColumn(live, name) {
      var i := ColumnAt(live, name);
      assert told[i].name == name;
    }
  }

  /** An alteration starts from the original column of the name; what is added was not there. */
  predicate FromOriginal(original: Tables, c: Change) {
    match c
    case AlterColumn(t, n, from, to) =>
      && to.name == n && t in original && HasColumn(original[t], n)
      && original[t][ColumnAt(original[t], n)] == from
    case AddColumn(t, column) => t in original && !HasColumn(original[t], column.name)
    case CreateTable(t) => t.name !in original
    case _ => true
  }

  lemma AlterFollows(live: seq<Column>, told: seq<Column>, original: Tables, c: Change)
    requires c.AlterColumn? && FromOriginal(original, c) && ColumnsFollow(live, told, original, c.table)
    requires HasColumn(told, c.name) && told[ColumnAt(told, c.name)] == c.from
    ensures HasColumn(live, c.name) && ColumnAt(live, c.name) == ColumnAt(told, c.name)
    ensures var i := ColumnAt(told, c.name);
            ColumnsFollow(live[i := Retyped(live[i], c.to)], told[i := c.to], original, c.table)
  {
    SameSpots(live, told, c.name);
  }

  lemma DropFollows(live: seq<Column>, told: seq<Column>, original: Tables, t: string, name: string)
    requires ColumnsFollow(live, told, original, t) && HasColumn(told, name)
    ensures HasColumn(live, name)
    ensures ColumnsFollow(RemoveAt(live, ColumnAt(live, name)), RemoveAt(told, ColumnAt(told, name)), original, t)
  {
    SameSpots(live, told, name);
    var i := ColumnAt(told, name);
    forall k | 0 <= k < |told| - 1 ensures Follows(RemoveAt(live, i)[k], RemoveAt(told, i)[k], original, t) {
      assert Follows(live[if k < i then k else k + 1], told[if k < i then k else k + 1], original, t);
    }
  }

  lemma PlainFollows(db: Live, told: Tables, original: Tables, c: Change, done: Live, next: Tables)
    requires AllFollow(db.tables, told, original) && !c.AlterColumn? && !c.DropColumn? && FromOriginal(original, c)
    requires ExecAll(db, Ups(c)) == Some(done) && Apply(told, c) == Some(next)
    ensures AllFollow(done.tables, next, original)
  {
    ExecOne(db, Ups(c)[0]);
    hide ExecAll;
  }

  /** One change, carried out in the database and on the tables of the diff. */
  lemma StepFollows(db: Live, told: Tables, original: Tables, c: Change, done: Live, next: Tables)
    requires AllFollow(db.tables, told, original) && FromOriginal(original, c)
    requires ExecAll(db, Ups(c)) == Some(done) && Apply(told, c) == Some(next)
    ensures AllFollow(done.tables, next, original)
  {
    if c.AlterColumn? {
      AlterDone(db, c.table, c.name, c.from, c.to, done);
      AlterFollows(db.tables[c.table], told[c.table], original, c);
      hide Ups, ExecAll, FromOriginal, ColumnsFollow, HasColumn;
    } else if c.DropColumn? {
      DroppedFollows(db, told, original, c, done, next);
    } else {
      PlainFollows(db, told, original, c, done, next);
    }
  }

  lemma DroppedFollows(db: Live, told: Tables, original: Tables, c: Change, done: Live, next: Tables)
    requires AllFollow(db.tables, told, original) && c.DropColumn?
    requires ExecAll(db, Ups(c)) == Some(done) && Apply(told, c) == Some(next)
    ensures AllFollow(done.tables, next, original)
  {
    ExecOne(db, SqlDropColumn(c.table, c.name));
    DropFollows(db.tables[c.table], told[c.table], original, c.table, c.name);
    hide ExecAll, ColumnsFollow, HasColumn;
  }

  /** At the start nothing has changed. */
  lemma OriginalFollows(ts: Tables)
    requires forall t | t in ts :: DistinctColumns(ts[t])
    ensures AllFollow(ts, ts, ts)
  {
    forall t, i | t in ts && 0 <= i < |ts[t]| ensures Follows(ts[t][i], ts[t][i], ts, t) {
      LastSpot(ts[t], ts[t][i].name, i);
    }
  }

  lemma {:induction false} RunFollows(db: Live, cs: seq<Change>)
    requires Sound(db)
    requires forall c | c in cs :: FromOriginal(db.tables, c)
    requires ExecAll(db, UpAll(cs)).Some? && ApplyAll(db.tables, cs).Some?
    ensures AllFollow(ExecAll(db, UpAll(cs)).value.tables, ApplyAll(db.tables, cs).value, db.tables)
  {
    if cs == [] {
      OriginalFollows(db.tables);
    } else {
      var front, c := cs[..|cs| - 1], cs[|cs| - 1];
      ExecAllSplit(db, UpAll(front), Ups(c));
      assert c in cs && forall d | d in front :: d in cs;
      RunFollows(db, front);
      hide AllFollow, FromOriginal;
      StepFollows(ExecAll(db, UpAll(front)).value, ApplyAll(db.tables, front).value, db.tables, c,
                  ExecAll(db, UpAll(cs)).value, ApplyAll(db.tables, cs).value);
    }
  }

  // ---- reversible changes are undoable where they stand ----

  lemma ReversibleHere(db: Live, told: Tables, original: Tables, c: Change)
    requires AllFollow(db.tables, told, original) && FromOriginal(original, c) && Reversible(c)
    requires Apply(told, c).Some?
    requires c.AlterColumn? ==> c.table in original && c.from in original[c.table]
    ensures Undoable(db, c)
  {
    if c.AlterColumn? {
      SameSpots(db.tables[c.table], told[c.table], c.name);
      var i := ColumnAt(told[c.table], c.name);
      assert Follows(db.tables[c.table][i], told[c.table][i], original, c.table);
    }
  }

  lemma {:induction false} ReversibleUndoable(db: Live, cs: seq<Change>)
    requires Sound(db)
    requires AllReversible(cs) && forall c | c in cs :: FromOriginal(db.tables, c)
    requires forall c | c in cs && c.AlterColumn? :: c.table in db.tables && c.from in db.tables[c.table]
    requires ExecAll(db, UpAll(cs)).Some? && ApplyAll(db.tables, cs).Some?
    ensures AllUndoable(db, cs)
  {
    if cs != [] {
      var front, c := cs[..|cs| - 1], cs[|cs| - 1];
      ExecAllSplit(db, UpAll(front), Ups(c));
      assert c in cs && forall d | d in front :: d in cs;
      ReversibleUndoable(db, front);
      RunFollows(db, front);
      hide AllFollow, FromOriginal, Undoable;
      ReversibleHere(ExecAll(db, UpAll(front)).value, ApplyAll(db.tables, front).value, db.tables, c);
    }
  }

  // ---- what down cannot bring back ----

  /** `a` has every table, every column and every NULL-admitting column of `b`. */
  ghost predicate AtLeast(a: Live, b: Live) {
    forall t | t in b.tables ::
      t in a.tables && forall c | c in b.tables[t] :: HasLike(a.tables[t], c)
  }

  predicate HasLike(cols: seq<Column>, c: Column) {
    exists d | d in cols :: d.name == c.name && (c.nullable ==> d.nullable)
  }

  lemma LikeThrough(a: seq<Column>, b: seq<Column>, c: Column)
    requires HasLike(b, c) && forall d | d in b :: HasLike(a, d)
    ensures HasLike(a, c)
  {
  }

  lemma AtLeastThrough(a: Live, b: Live, c: Live)
    requires AtLeast(a, b) && AtLeast(b, c)
    ensures AtLeast(a, c)
  {
    forall t | t in c.tables ensures t in a.tables && forall x | x in c.tables[t] :: HasLike(a.tables[t], x) {
      forall x | x in c.tables[t] ensures HasLike(a.tables[t], x) {
        LikeThrough(a.tables[t], b.tables[t], x);
      }
    }
  }

  predicate Shrinking(st: Statement) {
    st.SqlDropTable? || st.SqlDropColumn? || st.SqlAlterType? || st.SqlCreateIndex? || st.SqlDropIndex? ||
        st.SqlComment?
  }

  lemma ExecShrinks(db: Live, st: Statement)
    requires Shrinking(st) && Exec(db, st).Some?
    ensures AtLeast(db, Exec(db, st).value)
  {
    var done := Exec(db, st).value;
    forall t | t in done.tables ensures t in db.tables && forall c | c in done.tables[t] :: HasLike(db.tables[t], c) {
      forall c | c in done.tables[t] ensures HasLike(db.tables[t], c) {
        if st.SqlAlterType? && t == st.table {
          var i :| 0 <= i < |done.tables[t]| && done.tables[t][i] == c;
          assert db.tables[t][i] in db.tables[t];
        }
      }
    }
  }

  lemma {:induction false} DownShrinks(db: Live, cs: seq<Change>)
    requires ExecAll(db, DownAll(cs)).Some?
    ensures AtLeast(db, ExecAll(db, DownAll(cs)).value)
    decreases |cs|
  {
    if cs == [] {
      forall t, c | t in db.tables && c in db.tables[t] ensures HasLike(db.tables[t], c) {
      }
    } else {
      var front, st := cs[..|cs| - 1], Down(cs[|cs| - 1]);
      ExecAllSplit(db, [st], DownAll(front));
      ExecOne(db, st);
      hide AtLeast;
      ExecShrinks(db, st);
      DownShrinks(Exec(db, st).value, front);
      AtLeastThrough(db, Exec(db, st).value, ExecAll(db, DownAll(cs)).value);
    }
  }

  /** A kept table before the diff, in the diff, and in the database. */
  lemma TableSeen(before: seq<TableDef>, after: seq<TableDef>, db: Live, done: Live, t: string)
    requires DistinctTables(before) && DistinctTables(after) && WellFormed(before) && WellFormed(after)
    requires db.tables == ToTables(before) && AllFollow(done.tables, SchemaDiff.Delivered(before, after), db.tables)
    requires HasTable(before, t) && HasTable(after, t)
    ensures t in db.tables && db.tables[t] == Columns(before, t) && DistinctColumns(Columns(after, t))
    ensures t in done.tables && t in SchemaDiff.Delivered(before, after)
    ensures var told := SchemaDiff.Delivered(before, after)[t];
            ColumnsFollow(done.tables[t], told, db.tables, t) && SchemaDiff.MatchesColumns(told, Columns(after, t))
  {
    SchemaDiff.DiffCarries(before, after);
    SchemaDiff.ToTablesNames(before);
    hide Diff, ToTables, SchemaDiff.Delivered, ColumnsFollow, SchemaDiff.MatchesColumns;
  }

  lemma TableTaken(before: seq<TableDef>, after: seq<TableDef>, db: Live, done: Live, t: string)
    requires DistinctTables(before) && DistinctTables(after) && WellFormed(before) && WellFormed(after)
    requires db.tables == ToTables(before) && AllFollow(done.tables, SchemaDiff.Delivered(before, after), db.tables)
    requires HasTable(before, t) && !HasTable(after, t)
    ensures t in db.tables && t !in done.tables
  {
    SchemaDiff.DiffCarries(before, after);
    SchemaDiff.ToTablesNames(before);
    hide Diff, ToTables, SchemaDiff.Delivered, ColumnsFollow, SchemaDiff.MatchesColumns;
  }

  /** What an irreversible change of a diff took away is missing once up has run. */
  lemma TakenAway(before: seq<TableDef>, after: seq<TableDef>, db: Live, done: Live, c: Change)
    requires DistinctTables(before) && DistinctTables(after) && WellFormed(before) && WellFormed(after)
    requires db.tables == ToTables(before) && AllFollow(done.tables, SchemaDiff.Delivered(before, after), db.tables)
    requires Grounded(before, after, c) && !Reversible(c)
    ensures !AtLeast(done, db)
  {
    hide ToTables, SchemaDiff.Delivered, ColumnsFollow, AtLeast, AllFollow, SchemaDiff.MatchesColumns, WellFormed,
      DistinctTables, HasTable, SameColumn, Columns;
    if c.DropTable? {
      TableTaken(before, after, db, done, c.table);
      TableMissing(done, db, c.table);
    } else {
      var t, told := c.table, SchemaDiff.Delivered(before, after);
      TableSeen(before, after, db, done, t);
      var lost := if c.DropColumn? then Columns(before, t)[ColumnAt(Columns(before, t), c.name)] else c.from;
      if c.DropColumn? {
        LostColumn(done.tables[t], told[t], Columns(after, t), db.tables, t, lost);
      } else {
        LostNull(done.tables[t], told[t], Columns(after, t), db.tables, t, c.from, c.to);
      }
      ColumnMissing(done, db, t, lost);
    }
  }

  lemma TableMissing(a: Live, b: Live, t: string)
    requires t in b.tables && t !in a.tables
    ensures !AtLeast(a, b)
  {
  }

  lemma ColumnMissing(a: Live, b: Live, t: string, c: Column)
    requires t in b.tables && t in a.tables && c in b.tables[t] && !HasLike(a.tables[t], c)
    ensures !AtLeast(a, b)
  {
  }

  lemma LostColumn(live: seq<Column>, told: seq<Column>, after: seq<Column>, original: Tables, t: string, c: Column)
    requires ColumnsFollow(live, told, original, t) && SchemaDiff.MatchesColumns(told, after) &&
             !HasColumn(after, c.name)
    ensures !HasLike(live, c)
  {
    forall i | 0 <= i < |live| ensures HasColumn(after, live[i].name) {
      assert Follows(live[i], told[i], original, t);
      assert SchemaDiff.SameAsIn(told[i], after);
    }
  }

  lemma LostNull(live: seq<Column>, told: seq<Column>, after: seq<Column>, original: Tables, t: string, from: Column,
                 to: Column)
    requires ColumnsFollow(live, told, original, t) && SchemaDiff.MatchesColumns(told, after)
    requires DistinctColumns(after) && to in after && from.name == to.name && from.nullable && !to.nullable
    ensures !HasLike(live, from)
  {
    forall i | 0 <= i < |live| && live[i].name == from.name ensures !live[i].nullable {
      assert Follows(live[i], told[i], original, t);
      assert SchemaDiff.SameAsIn(told[i], after);
      assert after[ColumnAt(after, to.name)] == to;
    }
  }

  /** Once the up of a diff has run, its generated down restores the database exactly when the diff
      drops nothing and makes no column NOT NULL that admitted NULL. */
  lemma DiffUndone(before: seq<TableDef>, after: seq<TableDef>, db: Live, done: Live)
    requires DistinctTables(before) && DistinctTables(after) && WellFormed(before) && WellFormed(after)
    requires Sound(db) && db.tables == ToTables(before) && ExecAll(db, UpAll(Diff(before, after))) == Some(done)
    ensures ExecAll(done, DownAll(Diff(before, after))) == Some(db) <==> AllReversible(Diff(before, after))
  {
    var cs := Diff(before, after);
    SchemaDiff.DiffCarries(before, after);
    DiffGrounded(before, after);
    DiffFromOriginal(before, after, cs, db.tables);
    hide Diff, SchemaDiff.Delivered, Grounded, Reversible, FromOriginal, AllFollow, AtLeast, Sound;
    RunFollows(db, cs);
    if AllReversible(cs) {
      ReversibleUndoable(db, cs);
      GroundedProper(before, after, cs);
      MigrationUndone(db, cs);
    } else if ExecAll(done, DownAll(cs)) == Some(db) {
      var i :| 0 <= i < |cs| && !Reversible(cs[i]);
      assert cs[i] in cs;
      DownShrinks(done, cs);
      TakenAway(before, after, db, done, cs[i]);
    }
  }

  lemma GroundedProper(before: seq<TableDef>, after: seq<TableDef>, cs: seq<Change>)
    requires forall c | c in cs :: Grounded(before, after, c)
    ensures ProperTables(cs)
  {
    forall i | 0 <= i < |cs| && cs[i].CreateTable? ensures DistinctColumns(cs[i].def.columns) {
      assert cs[i] in cs;
    }
  }

  lemma DiffFromOriginal(before: seq<TableDef>, after: seq<TableDef>, cs: seq<Change>, original: Tables)
    requires DistinctTables(before) && WellFormed(before) && original == ToTables(before)
    requires forall c | c in cs :: Grounded(before, after, c)
    ensures forall c | c in cs :: FromOriginal(original, c)
    ensures forall c | c in cs && c.AlterColumn? :: c.table in original && c.from in original[c.table]
  {
    SchemaDiff.ToTablesNames(before);
    forall c | c in cs && c.AlterColumn?
      ensures FromOriginal(original, c) && c.table in original && c.from in original[c.table]
    {
      assert Grounded(before, after, c);
      assert original[c.table] == Columns(before, c.table);
    }
  }
}
