/** What the generated up of a whole diff leaves in the database, and when that is the new schema. */
module Reaching {
  import opened Wrappers
  import opened Schemas
  import opened Generation
  import opened SchemaMeaning
  import opened Undoing
  import SchemaDiff

  /** What up makes of a column on the way to another: the type, and NOT NULL when it is asked for. */
  function Retold(from: Column, to: Column): Column {
    from.(ty := to.ty, nullable := from.nullable && to.nullable)
  }

  /** The column of the database for a column of the new schema: the old one retold, or, when there was
      none of the name, one that agrees with it field by field. */
  ghost predicate Left(before: seq<TableDef>, t: string, live: Column, wanted: Column) {
    && live.name == wanted.name
    && (forall o | Defined(before, t, o) && o.name == wanted.name :: live == Retold(o, wanted))
    && (!Named(before, t, wanted.name) ==> Agree(live, wanted))
  }

  ghost predicate LeftIn(before: seq<TableDef>, t: string, live: seq<Column>, wanted: Column) {
    exists k | 0 <= k < |live| :: Left(before, t, live[k], wanted)
  }

  /** A column of the database beside the column of the diff it follows, and that of the new schema. */
  lemma OneLeft(before: seq<TableDef>, t: string, live: Column, told: Column, wanted: Column)
    requires DistinctTables(before) && WellFormed(before)
    requires Follows(live, told, ToTables(before), t) && told.name == wanted.name && Agree(told, wanted)
    ensures Left(before, t, live, wanted)
  {
    SchemaDiff.ToTablesNames(before);
    var original := ToTables(before);
    hide ToTables, Agree;
    if t in original {
      var b := TableAt(before, t);
      OnlyThere(before, b);
      forall o | Defined(before, t, o) && o.name == wanted.name ensures live == Retold(o, wanted) {
        SchemaDiff.MemberIsItself(original[t], o);
        RetoldSame(o, told, wanted);
      }
    }
  }

  lemma RetoldSame(o: Column, told: Column, wanted: Column)
    requires Agree(told, wanted)
    ensures Retyped(o, told) == Retold(o, wanted)
  {
  }

  /** Once the up of a diff has run, the database has the tables of the new schema, and in each of them its
      columns and no others: the new ones as defined, the kept ones with the new type, NOT NULL if they
      were or the new schema says so, and otherwise as they were. */
  lemma UpLeaves(before: seq<TableDef>, after: seq<TableDef>, db: Live, done: Live)
    requires DistinctTables(before) && DistinctTables(after) && WellFormed(before) && WellFormed(after)
    requires Sound(db) && db.tables == ToTables(before) && ExecAll(db, UpAll(Diff(before, after))) == Some(done)
    ensures forall n :: n in done.tables <==> HasTable(after, n)
    ensures forall i | 0 <= i < |after| ::
              && after[i].name in done.tables && |done.tables[after[i].name]| == |after[i].columns|
              && DistinctColumns(done.tables[after[i].name])
              && forall j | 0 <= j < |after[i].columns| ::
                   LeftIn(before, after[i].name, done.tables[after[i].name], after[i].columns[j])
  {
    var cs := Diff(before, after);
    SchemaDiff.DiffCarries(before, after);
    DiffGrounded(before, after);
    DiffFromOriginal(before, after, cs, db.tables);
    hide Diff, SchemaDiff.Delivered, Grounded, FromOriginal, Sound, ToTables, SchemaDiff.MatchesColumns, LeftIn,
      ColumnsFollow, ExecAll, ApplyAll;
    RunFollows(db, cs);
    forall i | 0 <= i < |after|
      ensures && |done.tables[after[i].name]| == |after[i].columns|
              && DistinctColumns(done.tables[after[i].name])
              && forall j | 0 <= j < |after[i].columns| ::
                   LeftIn(before, after[i].name, done.tables[after[i].name], after[i].columns[j])
    {
      var t := after[i].name;
      TableLeft(before, t, done.tables[t], SchemaDiff.Delivered(before, after)[t], after[i].columns);
    }
  }

  lemma TableLeft(before: seq<TableDef>, t: string, live: seq<Column>, told: seq<Column>, wanted: seq<Column>)
    requires DistinctTables(before) && WellFormed(before) && DistinctColumns(wanted)
    requires ColumnsFollow(live, told, ToTables(before), t) && SchemaDiff.MatchesColumns(told, wanted)
    ensures |live| == |wanted| && DistinctColumns(live)
    ensures forall j | 0 <= j < |wanted| :: LeftIn(before, t, live, wanted[j])
  {
    MatchesDelivers(told, wanted);
    assert forall k | 0 <= k < |live| :: live[k].name == told[k].name;
    hide Agree, ToTables, Follows;
    forall j | 0 <= j < |wanted| ensures LeftIn(before, t, live, wanted[j]) {
      assert Present(told, wanted[j]);
      var k :| 0 <= k < |told| && told[k].name == wanted[j].name && Agree(told[k], wanted[j]);
      assert Follows(live[k], told[k], ToTables(before), t);
      OneLeft(before, t, live[k], told[k], wanted[j]);
    }
  }

  /** What up leaves is the new schema, field by field, exactly when every altered column differs from its
      new definition in its type and in becoming NOT NULL only. */
  lemma UpReachesExactly(before: seq<TableDef>, after: seq<TableDef>, db: Live, done: Live)
    requires DistinctTables(before) && DistinctTables(after) && WellFormed(before) && WellFormed(after)
    requires Sound(db) && db.tables == ToTables(before) && ExecAll(db, UpAll(Diff(before, after))) == Some(done)
    ensures (forall i | 0 <= i < |after| ::
               after[i].name in done.tables && Delivers(done.tables[after[i].name], after[i].columns)) <==>
            forall c | c in Diff(before, after) && c.AlterColumn? :: Agree(Retold(c.from, c.to), c.to)
  {
    UpLeaves(before, after, db, done);
    hide Diff, Agree, LeftIn, Delivers, Sound, ToTables, ExecAll, UpAll, WellFormed;
    if forall c | c in Diff(before, after) && c.AlterColumn? :: Agree(Retold(c.from, c.to), c.to) {
      forall i | 0 <= i < |after| ensures Delivers(done.tables[after[i].name], after[i].columns) {
        TableReached(before, after, i, done.tables[after[i].name]);
      }
    }
    if forall i | 0 <= i < |after| ::
        after[i].name in done.tables && Delivers(done.tables[after[i].name], after[i].columns) {
      forall c | c in Diff(before, after) && c.AlterColumn? ensures Agree(Retold(c.from, c.to), c.to) {
        DiffIs(before, after, c);
        AlteredReached(before, after, c, done.tables);
      }
    }
  }

  lemma TableReached(before: seq<TableDef>, after: seq<TableDef>, i: nat, live: seq<Column>)
    requires DistinctTables(before) && DistinctTables(after) && WellFormed(before) && WellFormed(after) && i < |after|
    requires |live| == |after[i].columns|
    requires forall j | 0 <= j < |after[i].columns| :: LeftIn(before, after[i].name, live, after[i].columns[j])
    requires forall c | c in Diff(before, after) && c.AlterColumn? :: Agree(Retold(c.from, c.to), c.to)
    ensures Delivers(live, after[i].columns)
  {
    var t, wanted := after[i].name, after[i].columns;
    hide Diff, Agree, WellFormed;
    forall j | 0 <= j < |wanted| ensures Present(live, wanted[j]) {
      var k :| 0 <= k < |live| && Left(before, t, live[k], wanted[j]);
      assert Defined(after, t, wanted[j]);
      ColumnReached(before, after, t, live[k], wanted[j]);
    }
  }

  lemma ColumnReached(before: seq<TableDef>, after: seq<TableDef>, t: string, live: Column, wanted: Column)
    requires DistinctTables(before) && DistinctTables(after) && WellFormed(before) && WellFormed(after)
    requires Defined(after, t, wanted) && Left(before, t, live, wanted)
    requires forall c | c in Diff(before, after) && c.AlterColumn? :: Agree(Retold(c.from, c.to), c.to)
    ensures Agree(live, wanted)
  {
    hide Diff, Agree, WellFormed, DistinctTables;
    if Named(before, t, wanted.name) {
      var b, j :| 0 <= b < |before| && 0 <= j < |before[b].columns| &&
        before[b].name == t && before[b].columns[j].name == wanted.name;
      var o := before[b].columns[j];
      assert Defined(before, t, o);
      if Agree(o, wanted) {
        RetoldAgrees(o, wanted);
      } else {
        var c := AlterColumn(t, wanted.name, o, wanted);
        DiffIs(before, after, c);
      }
    }
  }

  lemma RetoldAgrees(o: Column, wanted: Column)
    requires Agree(o, wanted)
    ensures Agree(Retold(o, wanted), wanted)
  {
    assert Retold(o, wanted) == o;
  }

  lemma AlteredReached(before: seq<TableDef>, after: seq<TableDef>, c: Change, live: Tables)
    requires DistinctTables(after) && c.AlterColumn? && Called(before, after, c)
    requires forall i | 0 <= i < |after| ::
               && after[i].name in live && DistinctColumns(live[after[i].name])
               && Delivers(live[after[i].name], after[i].columns)
               && forall j | 0 <= j < |after[i].columns| ::
                    LeftIn(before, after[i].name, live[after[i].name], after[i].columns[j])
    ensures Agree(Retold(c.from, c.to), c.to)
  {
    hide Agree;
    var i, j :| 0 <= i < |after| && 0 <= j < |after[i].columns| &&
      after[i].name == c.table && after[i].columns[j] == c.to;
    var cols := live[c.table];
    assert Present(cols, after[i].columns[j]);
    assert LeftIn(before, after[i].name, live[after[i].name], after[i].columns[j]);
    var k :| 0 <= k < |cols| && cols[k].name == c.to.name && Agree(cols[k], c.to);
    var m :| 0 <= m < |cols| && Left(before, c.table, cols[m], c.to);
    assert k == m;
  }
}
