/** `diffSchemas` as it loops, and the proof that its changes carry one schema to the other. */
module SchemaDiff {
  import opened Wrappers
  import opened Schemas

  // ---- the loops ----

  method ByName(ts: seq<TableDef>) returns (latest: seq<TableDef>)
    ensures latest == Latest(ts)
  {
    latest := [];
    for i := 0 to |ts|
      invariant latest == Latest(ts[..i])
    {
      assert ts[..i + 1][..i] == ts[..i];
      if HasTable(latest, ts[i].name) {
        latest := latest[TableAt(latest, ts[i].name) := ts[i]];
      } else {
        latest := latest + [ts[i]];
      }
    }
    assert ts[..|ts|] == ts;
  }

  method ColumnChanges(table: string, before: seq<Column>, after: seq<Column>) returns (changes: seq<Change>)
    ensures changes == TableChanges(table, before, after)
  {
    changes := PushAdded(table, before, after, []);
    changes := PushDropped(table, before, after, changes);
    changes := PushAltered(table, before, after, changes);
    changes := PushNewlyUnique(table, before, after, changes);
  }

  method PushAdded(table: string, before: seq<Column>, after: seq<Column>, pushed: seq<Change>)
      returns (changes: seq<Change>)
    ensures changes == pushed + Added(table, before, after)
  {
    changes := pushed;
    for i := 0 to |after|
      invariant changes == pushed + Added(table, before, after[..i])
    {
      assert after[..i + 1][..i] == after[..i];
      if !HasColumn(before, after[i].name) {
        changes := changes + [AddColumn(table, after[i])];
      }
    }
    assert after[..|after|] == after;
  }

  method PushDropped(table: string, before: seq<Column>, after: seq<Column>, pushed: seq<Change>)
      returns (changes: seq<Change>)
    ensures changes == pushed + Dropped(table, before, after)
  {
    changes := pushed;
    for i := 0 to |before|
      invariant changes == pushed + Dropped(table, before[..i], after)
    {
      assert before[..i + 1][..i] == before[..i];
      if !HasColumn(after, before[i].name) {
        changes := changes + [DropColumn(table, before[i].name)];
      }
    }
    assert before[..|before|] == before;
  }

  method PushAltered(table: string, before: seq<Column>, after: seq<Column>, pushed: seq<Change>)
      returns (changes: seq<Change>)
    ensures changes == pushed + Altered(table, before, after)
  {
    changes := pushed;
    for i := 0 to |after|
      invariant changes == pushed + Altered(table, before, after[..i])
    {
      hide SameColumn;
      assert after[..i + 1][..i] == after[..i];
      if HasColumn(before, after[i].name) {
        var from := before[ColumnAt(before, after[i].name)];
        if !SameColumn(from, after[i]) {
          changes := changes + [AlterColumn(table, after[i].name, from, after[i])];
        }
      }
    }
    assert after[..|after|] == after;
  }

  method PushNewlyUnique(table: string, before: seq<Column>, after: seq<Column>, pushed: seq<Change>)
      returns (changes: seq<Change>)
    ensures changes == pushed + NewlyUnique(table, before, after)
  {
    changes := pushed;
    for i := 0 to |after|
      invariant changes == pushed + NewlyUnique(table, before, after[..i])
    {
      assert after[..i + 1][..i] == after[..i];
      if UniqueColumn(after[i]) && !WasUnique(before, after[i].name) {
        changes := changes + [AddIndex(table, [after[i].name])];
      }
    }
    assert after[..|after|] == after;
  }

  method DiffSchemas(before: seq<TableDef>, after: seq<TableDef>) returns (d: DiffResult)
    ensures d.changes == Diff(before, after)
    ensures d.destructive == Filtered(d.changes)
  {
    var beforeTables := ByName(before);
    var afterTables := ByName(after);
    var changes := PushKeptOrCreated(beforeTables, afterTables);
    for i := 0 to |beforeTables|
      invariant changes == KeptOrCreated(beforeTables, afterTables) + DroppedTables(beforeTables[..i], afterTables)
    {
      hide KeptOrCreated, HasTable;
      assert beforeTables[..i + 1][..i] == beforeTables[..i];
      if !HasTable(afterTables, beforeTables[i].name) {
        changes := changes + [DropTable(beforeTables[i].name)];
      }
    }
    assert beforeTables[..|beforeTables|] == beforeTables;
    var destructive := Select(changes);
    d := DiffResult(changes, destructive);
  }

  method PushKeptOrCreated(before: seq<TableDef>, after: seq<TableDef>) returns (changes: seq<Change>)
    ensures changes == KeptOrCreated(before, after)
  {
    changes := [];
    for i := 0 to |after|
      invariant changes == KeptOrCreated(before, after[..i])
    {
      hide TableChanges;
      assert after[..i + 1][..i] == after[..i];
      var t := after[i];
      if !HasTable(before, t.name) {
        changes := changes + [CreateTable(t)];
      } else {
        var more := ColumnChanges(t.name, before[TableAt(before, t.name)].columns, t.columns);
        changes := changes + more;
      }
    }
    assert after[..|after|] == after;
  }

  method Select(changes: seq<Change>) returns (destructive: seq<Change>)
    ensures destructive == Filtered(changes)
  {
    destructive := [];
    for i := 0 to |changes|
      invariant destructive == Filtered(changes[..i])
    {
      assert changes[..i + 1][..i] == changes[..i];
      if Destructive(changes[i]) {
        destructive := destructive + [changes[i]];
      }
    }
    assert changes[..|changes|] == changes;
  }

  function Filtered(cs: seq<Change>): (r: seq<Change>)
    ensures r == [] <==> forall i | 0 <= i < |cs| :: !Destructive(cs[i])
  {
    if cs == [] then []
    else
      var c, rest := cs[|cs| - 1], Filtered(cs[..|cs| - 1]);
      if Destructive(c) then rest + [c] else rest
  }

  // ---- the columns of one table ----

  function ColumnsAfter(cols: seq<Column>, cs: seq<Change>): Option<seq<Column>> {
    if cs == [] then Some(cols)
    else
      var before := ColumnsAfter(cols, cs[..|cs| - 1]);
      if before.None? then None else ApplyToColumns(before.value, cs[|cs| - 1])
  }

  lemma {:induction false} ColumnsAfterSplit(cols: seq<Column>, a: seq<Change>, b: seq<Change>)
    ensures ColumnsAfter(cols, a + b) ==
            if ColumnsAfter(cols, a).None? then None else ColumnsAfter(ColumnsAfter(cols, a).value, b)
  {
    if b == [] {
      assert a + b == a;
    } else {
      ColumnsAfterSplit(cols, a, b[..|b| - 1]);
      assert (a + b)[..|a + b| - 1] == a + b[..|b| - 1];
    }
  }

  function NewColumns(before: seq<Column>, after: seq<Column>): seq<Column> {
    if after == [] then []
    else
      var c, rest := after[|after| - 1], NewColumns(before, after[..|after| - 1]);
      if HasColumn(before, c.name) then rest else rest + [c]
  }

  function KeptColumns(before: seq<Column>, after: seq<Column>): seq<Column> {
    if before == [] then []
    else
      var c, rest := before[|before| - 1], KeptColumns(before[..|before| - 1], after);
      if HasColumn(after, c.name) then rest + [c] else rest
  }

  /** The new definition where it differs from the old one. */
  function Revised(c: Column, after: seq<Column>): Column {
    if HasColumn(after, c.name) && !SameColumn(c, after[ColumnAt(after, c.name)]) then after[ColumnAt(after, c.name)]
    else c
  }

  function AllRevised(cols: seq<Column>, after: seq<Column>): seq<Column> {
    seq(|cols|, i requires 0 <= i < |cols| => Revised(cols[i], after))
  }

  /** The kept columns in their old order, revised where they differ, then the new ones in their new order. */
  function Carried(before: seq<Column>, after: seq<Column>): seq<Column> {
    AllRevised(KeptColumns(before, after), after) + NewColumns(before, after)
  }

  lemma HasIn(cols: seq<Column>, i: nat)
    requires i < |cols|
    ensures HasColumn(cols, cols[i].name)
  {
  }

  lemma HasLast(cols: seq<Column>, c: Column, name: string)
    ensures HasColumn(cols + [c], name) <==> HasColumn(cols, name) || c.name == name
  {
    assert (cols + [c])[|cols|] == c;
    if HasColumn(cols, name) {
      var i :| 0 <= i < |cols| && cols[i].name == name;
      assert (cols + [c])[i].name == name;
    }
  }

  lemma HasEither(a: seq<Column>, b: seq<Column>, name: string)
    ensures HasColumn(a + b, name) <==> HasColumn(a, name) || HasColumn(b, name)
  {
    if HasColumn(a, name) {
      var i :| 0 <= i < |a| && a[i].name == name;
      assert (a + b)[i].name == name;
    }
    if HasColumn(b, name) {
      var i :| 0 <= i < |b| && b[i].name == name;
      assert (a + b)[|a| + i].name == name;
    }
  }

  lemma DistinctAt(cols: seq<Column>, i: nat)
    requires DistinctColumns(cols) && i < |cols|
    ensures HasColumn(cols, cols[i].name) && ColumnAt(cols, cols[i].name) == i
  {
  }

  lemma {:induction false} NewNames(before: seq<Column>, after: seq<Column>)
    ensures forall n :: HasColumn(NewColumns(before, after), n) <==> HasColumn(after, n) && !HasColumn(before, n)
    ensures DistinctColumns(after) ==> DistinctColumns(NewColumns(before, after))
    ensures forall c | c in NewColumns(before, after) :: c in after
  {
    if after != [] {
      var front, c := after[..|after| - 1], after[|after| - 1];
      NewNames(before, front);
      assert after == front + [c];
      if DistinctColumns(after) {
        assert !HasColumn(front, c.name);
      }
      var rest := NewColumns(before, front);
      assert NewColumns(before, after) == if HasColumn(before, c.name) then rest else rest + [c];
      forall n ensures HasColumn(NewColumns(before, after), n) <==> HasColumn(after, n) && !HasColumn(before, n) {
        HasLast(front, c, n);
        HasLast(rest, c, n);
      }
    }
  }

  lemma {:induction false} KeptNames(before: seq<Column>, after: seq<Column>)
    ensures forall n :: HasColumn(KeptColumns(before, after), n) <==> HasColumn(before, n) && HasColumn(after, n)
    ensures DistinctColumns(before) ==> DistinctColumns(KeptColumns(before, after))
    ensures forall c | c in KeptColumns(before, after) :: c in before && HasColumn(after, c.name)
  {
    if before != [] {
      var front, c := before[..|before| - 1], before[|before| - 1];
      KeptNames(front, after);
      assert before == front + [c];
      if DistinctColumns(before) {
        assert !HasColumn(front, c.name);
      }
      var rest := KeptColumns(front, after);
      assert KeptColumns(before, after) == if HasColumn(after, c.name) then rest + [c] else rest;
      forall n ensures HasColumn(KeptColumns(before, after), n) <==> HasColumn(before, n) && HasColumn(after, n) {
        HasLast(front, c, n);
        HasLast(rest, c, n);
      }
    }
  }

  lemma {:induction false} AddPhase(table: string, before: seq<Column>, after: seq<Column>)
    requires DistinctColumns(after)
    ensures ColumnsAfter(before, Added(table, before, after)) == Some(before + NewColumns(before, after))
  {
    if after == [] {
      assert before + NewColumns(before, after) == before;
    } else {
      var front, c := after[..|after| - 1], after[|after| - 1];
      AddPhase(table, before, front);
      AddOne(table, before, front, c);
      assert after == front + [c];
    }
  }

  lemma AddOne(table: string, before: seq<Column>, front: seq<Column>, c: Column)
    requires DistinctColumns(front + [c])
    requires ColumnsAfter(before, Added(table, before, front)) == Some(before + NewColumns(before, front))
    ensures ColumnsAfter(before, Added(table, before, front + [c])) == Some(before + NewColumns(before, front + [c]))
  {
    var cols := before + NewColumns(before, front);
    assert (front + [c])[..|front|] == front;
    if !HasColumn(before, c.name) {
      NewNames(before, front);
      HasEither(before, NewColumns(before, front), c.name);
      NotBefore(front, c);
      hide HasColumn, DistinctColumns, ColumnAt, ColumnsAfter;
      OneMoreChange(before, Added(table, before, front), AddColumn(table, c));
      assert cols + [c] == before + (NewColumns(before, front) + [c]);
    }
  }

  lemma NotBefore(front: seq<Column>, c: Column)
    requires DistinctColumns(front + [c])
    ensures !HasColumn(front, c.name)
  {
    forall i | 0 <= i < |front| ensures front[i].name != c.name {
      assert (front + [c])[i].name != (front + [c])[|front|].name;
    }
  }

  lemma NothingDroppedYet(table: string, before: seq<Column>, after: seq<Column>, extra: seq<Column>)
    ensures ColumnsAfter(before + extra, Dropped(table, before[..0], after)) ==
            Some(KeptColumns(before[..0], after) + (before[0..] + extra))
  {
    assert before[0..] == before && before[..0] == [];
    assert KeptColumns([], after) + (before + extra) == before + extra;
  }

  /** The next column of the old schema can be found and taken out. */
  lemma NextGoes(before: seq<Column>, j: nat, after: seq<Column>, extra: seq<Column>)
    requires 0 < j <= |before| && DistinctColumns(before + extra)
    ensures var kept, rest := KeptColumns(before[..j - 1], after), before[j..] + extra;
            var all := kept + [before[j - 1]] + rest;
            HasColumn(all, before[j - 1].name) && RemoveAt(all, ColumnAt(all, before[j - 1].name)) == kept + rest
  {
    KeptNames(before[..j - 1], after);
    hide DistinctColumns, HasColumn, ColumnAt, KeptColumns, RemoveAt;
    OneDropped(before, j, KeptColumns(before[..j - 1], after), before[j..] + extra, extra);
  }

  lemma {:induction false} DropPhase(table: string, before: seq<Column>, j: nat, after: seq<Column>, extra: seq<Column>)
    requires j <= |before| && DistinctColumns(before + extra)
    ensures ColumnsAfter(before + extra, Dropped(table, before[..j], after)) ==
            Some(KeptColumns(before[..j], after) + (before[j..] + extra))
  {
    if j == 0 {
      NothingDroppedYet(table, before, after, extra);
    } else {
      hide *;
      DropPhase(table, before, j - 1, after, extra);
      NextGoes(before, j, after, extra);
      DropStep(table, before, j, after, extra);
    }
  }

  lemma DropStep(table: string, before: seq<Column>, j: nat, after: seq<Column>, extra: seq<Column>)
    requires 0 < j <= |before|
    requires ColumnsAfter(before + extra, Dropped(table, before[..j - 1], after)) ==
             Some(KeptColumns(before[..j - 1], after) + (before[j - 1..] + extra))
    requires var kept, rest := KeptColumns(before[..j - 1], after), before[j..] + extra;
             var all := kept + [before[j - 1]] + rest;
             HasColumn(all, before[j - 1].name) && RemoveAt(all, ColumnAt(all, before[j - 1].name)) == kept + rest
    ensures ColumnsAfter(before + extra, Dropped(table, before[..j], after)) ==
            Some(KeptColumns(before[..j], after) + (before[j..] + extra))
  {
    var c := before[j - 1];
    var changes, kept := Dropped(table, before[..j - 1], after), KeptColumns(before[..j - 1], after);
    NextDropped(table, before, j, after);
    Pulled(before, j, kept, extra);
    DropOne(before + extra, changes, table, kept, c, before[j..] + extra);
  }

  lemma DropOne(cols: seq<Column>, changes: seq<Change>, table: string, kept: seq<Column>, c: Column, rest: seq<Column>)
    requires ColumnsAfter(cols, changes) == Some(kept + [c] + rest)
    requires var all := kept + [c] + rest;
             HasColumn(all, c.name) && RemoveAt(all, ColumnAt(all, c.name)) == kept + rest
    ensures ColumnsAfter(cols, changes + [DropColumn(table, c.name)]) == Some(kept + rest)
  {
    hide ColumnAt, ColumnsAfter, HasColumn, RemoveAt;
    OneMoreChange(cols, changes, DropColumn(table, c.name));
  }

  lemma Pulled(before: seq<Column>, j: nat, kept: seq<Column>, extra: seq<Column>)
    requires 0 < j <= |before|
    ensures kept + (before[j - 1..] + extra) == kept + [before[j - 1]] + (before[j..] + extra)
  {
  }

  lemma NextDropped(table: string, before: seq<Column>, j: nat, after: seq<Column>)
    requires 0 < j <= |before|
    ensures var c, changes, kept := before[j - 1], Dropped(table, before[..j - 1], after),
            KeptColumns(before[..j - 1], after);
            && Dropped(table, before[..j], after) ==
               (if HasColumn(after, c.name) then changes else changes + [DropColumn(table, c.name)])
            && KeptColumns(before[..j], after) == (if HasColumn(after, c.name) then kept + [c] else kept)
  {
    assert before[..j][..j - 1] == before[..j - 1];
  }

  lemma OneMoreChange(cols: seq<Column>, cs: seq<Change>, c: Change)
    ensures ColumnsAfter(cols, cs + [c]) ==
            if ColumnsAfter(cols, cs).None? then None else ApplyToColumns(ColumnsAfter(cols, cs).value, c)
  {
    assert (cs + [c])[..|cs|] == cs;
  }

  lemma OneDropped(before: seq<Column>, j: nat, kept: seq<Column>, rest: seq<Column>, extra: seq<Column>)
    requires 0 < j <= |before| && DistinctColumns(before + extra) && rest == before[j..] + extra
    requires forall i | 0 <= i < |kept| :: kept[i] in before[..j - 1]
    ensures var all := kept + [before[j - 1]] + rest;
            && HasColumn(all, before[j - 1].name)
            && RemoveAt(all, ColumnAt(all, before[j - 1].name)) == kept + rest
  {
    var all, c := kept + [before[j - 1]] + rest, before[j - 1];
    assert all[|kept|] == c;
    var full := before + extra;
    forall i | |kept| < i < |all| ensures all[i].name != c.name {
      assert all[i] == rest[i - |kept| - 1] == full[j + (i - |kept| - 1)] && full[j - 1] == c;
    }
    HasIn(all, |kept|);
    LastSpot(all, c.name, |kept|);
  }

  /** The first `j` of the new definitions have replaced the old ones where they differ. */
  lemma {:induction false} AlterPhase(table: string, before: seq<Column>, after: seq<Column>, j: nat,
                                      extra: seq<Column>)
    requires DistinctColumns(before) && DistinctColumns(after) && j <= |after|
    requires forall c | c in extra :: !HasColumn(before, c.name)
    ensures var kept := KeptColumns(before, after);
            ColumnsAfter(kept + extra, Altered(table, before, after[..j])) == Some(AllRevised(kept, after[..j]) + extra)
  {
    var kept := KeptColumns(before, after);
    KeptNames(before, after);
    if j == 0 {
      assert AllRevised(kept, []) == kept;
    } else {
      AlterPhase(table, before, after, j - 1, extra);
      var c := after[j - 1];
      assert after[..j] == after[..j - 1] + [c];
      NotBefore(after[..j - 1], c);
      AlterStep(table, before, kept, after[..j - 1], c, extra);
    }
  }

  lemma AlterStep(table: string, before: seq<Column>, kept: seq<Column>, front: seq<Column>, c: Column,
                  extra: seq<Column>)
    requires DistinctColumns(before) && DistinctColumns(kept) && !HasColumn(front, c.name)
    requires forall k | k in kept :: k in before
    requires HasColumn(before, c.name) ==> HasColumn(kept, c.name)
    requires forall k | k in extra :: !HasColumn(before, k.name)
    requires ColumnsAfter(kept + extra, Altered(table, before, front)) == Some(AllRevised(kept, front) + extra)
    ensures ColumnsAfter(kept + extra, Altered(table, before, front + [c])) ==
            Some(AllRevised(kept, front + [c]) + extra)
  {
    assert (front + [c])[..|front|] == front;
    forall i | 0 <= i < |kept|
      ensures Revised(kept[i], front + [c]) == if kept[i].name == c.name && !SameColumn(kept[i], c) then c
              else Revised(kept[i], front)
    {
      RevisedStep(kept[i], front, c);
    }
    if HasColumn(before, c.name) {
      var p := ColumnAt(kept, c.name);
      var old_ := before[ColumnAt(before, c.name)];
      SameByName(before, kept[p], old_);
      if !SameColumn(old_, c) {
        Located(kept, front, extra, before, p);
        assert AllRevised(kept, front + [c]) == AllRevised(kept, front)[p := c];
        ReplaceStep(table, before, kept, front, c, extra, p);
      } else {
        assert AllRevised(kept, front + [c]) == AllRevised(kept, front);
      }
    } else {
      assert forall i | 0 <= i < |kept| :: kept[i] in before;
      assert AllRevised(kept, front + [c]) == AllRevised(kept, front);
    }
  }

  lemma ReplaceStep(table: string, before: seq<Column>, kept: seq<Column>, front: seq<Column>, c: Column,
                    extra: seq<Column>, p: nat)
    requires HasColumn(before, c.name) && !SameColumn(before[ColumnAt(before, c.name)], c)
    requires p < |kept| && kept[p] == before[ColumnAt(before, c.name)]
    requires var all := AllRevised(kept, front) + extra;
             HasColumn(all, c.name) && ColumnAt(all, c.name) == p && all[p] == kept[p]
    requires AllRevised(kept, front + [c]) == AllRevised(kept, front)[p := c]
    requires ColumnsAfter(kept + extra, Altered(table, before, front)) == Some(AllRevised(kept, front) + extra)
    ensures ColumnsAfter(kept + extra, Altered(table, before, front + [c])) ==
            Some(AllRevised(kept, front + [c]) + extra)
  {
    assert (front + [c])[..|front|] == front;
    var all := AllRevised(kept, front) + extra;
    assert all[p := c] == AllRevised(kept, front)[p := c] + extra;
    hide HasColumn, DistinctColumns, ColumnAt, ColumnsAfter, AllRevised, SameColumn;
    OneMoreChange(kept + extra, Altered(table, before, front), AlterColumn(table, c.name, kept[p], c));
  }

  lemma RevisedStep(k: Column, front: seq<Column>, c: Column)
    requires !HasColumn(front, c.name)
    ensures Revised(k, front + [c]) == if k.name == c.name && !SameColumn(k, c) then c else Revised(k, front)
  {
    HasLast(front, c, k.name);
    assert (front + [c])[..|front|] == front;
  }

  lemma SameByName(cols: seq<Column>, a: Column, b: Column)
    requires DistinctColumns(cols) && a in cols && b in cols && a.name == b.name
    ensures a == b
  {
    var i :| 0 <= i < |cols| && cols[i] == a;
    var j :| 0 <= j < |cols| && cols[j] == b;
  }

  /** A column not yet revised stands where it stood. */
  lemma Located(kept: seq<Column>, front: seq<Column>, extra: seq<Column>, before: seq<Column>, p: nat)
    requires p < |kept| && DistinctColumns(kept) && !HasColumn(front, kept[p].name) && kept[p] in before
    requires forall k | k in extra :: !HasColumn(before, k.name)
    ensures var all := AllRevised(kept, front) + extra;
            HasColumn(all, kept[p].name) && ColumnAt(all, kept[p].name) == p && all[p] == kept[p]
  {
    var all := AllRevised(kept, front) + extra;
    assert all[p] == kept[p];
    assert forall i | 0 <= i < |kept| :: all[i].name == kept[i].name;
    HasIn(all, p);
    HasMember(before, kept[p]);
    forall i | p < i < |all| ensures all[i].name != kept[p].name {
      if i >= |kept| {
        assert all[i] == extra[i - |kept|] && extra[i - |kept|] in extra;
      }
    }
    LastSpot(all, kept[p].name, p);
  }

  lemma {:induction false} IndexPhase(table: string, before: seq<Column>, after: seq<Column>, cols: seq<Column>)
    requires forall c | c in after :: HasColumn(cols, c.name)
    ensures ColumnsAfter(cols, NewlyUnique(table, before, after)) == Some(cols)
  {
    if after != [] {
      var front, c := after[..|after| - 1], after[|after| - 1];
      IndexPhase(table, before, front, cols);
      assert c in after;
      hide ColumnsAfter;
      if UniqueColumn(c) && !WasUnique(before, c.name) {
        OneMoreChange(cols, NewlyUnique(table, before, front), AddIndex(table, [c.name]));
      }
    }
  }

  /** The changes of one table can all be carried out, and give exactly the carried columns. */
  lemma TableCarried(table: string, before: seq<Column>, after: seq<Column>)
    requires DistinctColumns(before) && DistinctColumns(after)
    ensures ColumnsAfter(before, TableChanges(table, before, after)) == Some(Carried(before, after))
  {
    var news := NewColumns(before, after);
    AddPhase(table, before, after);
    NewNames(before, after);
    DistinctTogether(before, news);
    DropPhase(table, before, |before|, after, news);
    assert before[..|before|] == before && before[|before|..] + news == news;
    forall c | c in news ensures !HasColumn(before, c.name) {
      HasMember(news, c);
    }
    AlterPhase(table, before, after, |after|, news);
    assert after[..|after|] == after;
    CarriedMatches(before, after);
    forall c | c in after ensures HasColumn(Carried(before, after), c.name) {
      HasMember(after, c);
    }
    IndexPhase(table, before, after, Carried(before, after));
    FourPhases(before, Added(table, before, after), Dropped(table, before, after), Altered(table, before, after),
               NewlyUnique(table, before, after));
  }

  lemma FourPhases(cols: seq<Column>, a: seq<Change>, b: seq<Change>, c: seq<Change>, d: seq<Change>)
    requires ColumnsAfter(cols, a).Some? && ColumnsAfter(ColumnsAfter(cols, a).value, b).Some?
    requires ColumnsAfter(ColumnsAfter(ColumnsAfter(cols, a).value, b).value, c).Some?
    ensures ColumnsAfter(cols, a + b + c + d) ==
            ColumnsAfter(ColumnsAfter(ColumnsAfter(ColumnsAfter(cols, a).value, b).value, c).value, d)
  {
    hide ColumnsAfter;
    ColumnsAfterSplit(cols, a, b);
    ColumnsAfterSplit(cols, a + b, c);
    ColumnsAfterSplit(cols, a + b + c, d);
  }

  lemma HasMember(cols: seq<Column>, c: Column)
    requires c in cols
    ensures HasColumn(cols, c.name)
  {
  }

  lemma DistinctTogether(a: seq<Column>, b: seq<Column>)
    requires DistinctColumns(a) && DistinctColumns(b) && forall n :: HasColumn(b, n) ==> !HasColumn(a, n)
    ensures DistinctColumns(a + b)
  {
    forall i, j | 0 <= i < j < |a + b| ensures (a + b)[i].name != (a + b)[j].name {
      if i < |a| <= j {
        HasIn(a, i);
        HasIn(b, j - |a|);
      }
    }
  }

  /** Same names, and under each name a column in which the diff sees no difference. */
  ghost predicate MatchesColumns(cols: seq<Column>, after: seq<Column>) {
    && DistinctColumns(cols) && |cols| == |after|
    && (forall n :: HasColumn(cols, n) <==> HasColumn(after, n))
    && (forall i | 0 <= i < |cols| :: SameAsIn(cols[i], after))
  }

  predicate SameAsIn(c: Column, after: seq<Column>) {
    HasColumn(after, c.name) && SameColumn(c, after[ColumnAt(after, c.name)])
  }

  lemma CarriedMatches(before: seq<Column>, after: seq<Column>)
    requires DistinctColumns(before) && DistinctColumns(after)
    ensures MatchesColumns(Carried(before, after), after)
  {
    var kept, news := KeptColumns(before, after), NewColumns(before, after);
    KeptNames(before, after);
    NewNames(before, after);
    RevisedNames(kept, after);
    DistinctTogether(AllRevised(kept, after), news);
    forall n ensures HasColumn(Carried(before, after), n) <==> HasColumn(after, n) {
      HasEither(AllRevised(kept, after), news, n);
    }
    forall i | 0 <= i < |Carried(before, after)| ensures SameAsIn(Carried(before, after)[i], after) {
      if i >= |kept| {
        MemberIsItself(after, news[i - |kept|]);
      } else {
        assert kept[i] in kept;
        HasIn(kept, i);
      }
    }
    SameCount(Carried(before, after), after);
  }

  lemma MemberIsItself(cols: seq<Column>, c: Column)
    requires DistinctColumns(cols) && c in cols
    ensures HasColumn(cols, c.name) && cols[ColumnAt(cols, c.name)] == c
  {
    HasMember(cols, c);
    SameByName(cols, c, cols[ColumnAt(cols, c.name)]);
  }

  lemma RevisedNames(cols: seq<Column>, after: seq<Column>)
    ensures forall n :: HasColumn(AllRevised(cols, after), n) <==> HasColumn(cols, n)
    ensures DistinctColumns(cols) ==> DistinctColumns(AllRevised(cols, after))
  {
    var r := AllRevised(cols, after);
    assert forall i | 0 <= i < |cols| :: r[i].name == cols[i].name;
    assert |r| == |cols|;
  }

  function Names(cols: seq<Column>): set<string> {
    set i | 0 <= i < |cols| :: cols[i].name
  }

  lemma {:induction false} NameCount(cols: seq<Column>)
    requires DistinctColumns(cols)
    ensures |Names(cols)| == |cols|
  {
    if cols != [] {
      var front, c := cols[..|cols| - 1], cols[|cols| - 1];
      NameCount(front);
      assert cols == front + [c];
      NotBefore(front, c);
      ColumnNamesStep(front, c);
      assert c.name !in Names(front);
    }
  }

  lemma ColumnNamesStep(front: seq<Column>, c: Column)
    ensures Names(front + [c]) == Names(front) + {c.name}
  {
    var all := front + [c];
    assert all[|front|] == c && forall i | 0 <= i < |front| :: all[i] == front[i];
  }

  lemma SameCount(a: seq<Column>, b: seq<Column>)
    requires DistinctColumns(a) && DistinctColumns(b) && forall n :: HasColumn(a, n) <==> HasColumn(b, n)
    ensures |a| == |b|
  {
    NameCount(a);
    NameCount(b);
    assert forall n :: n in Names(a) <==> HasColumn(a, n);
    assert Names(a) == Names(b);
  }

  // ---- whole schemas ----

  predicate Concerns(c: Change, table: string) {
    !c.CreateTable? && c.table == table && !c.DropTable?
  }

  lemma {:induction false} ApplyAllSplit(ts: Tables, a: seq<Change>, b: seq<Change>)
    ensures ApplyAll(ts, a + b) == if ApplyAll(ts, a).None? then None else ApplyAll(ApplyAll(ts, a).value, b)
  {
    if b == [] {
      assert a + b == a;
    } else {
      ApplyAllSplit(ts, a, b[..|b| - 1]);
      assert (a + b)[..|a + b| - 1] == a + b[..|b| - 1];
    }
  }

  lemma {:induction false} OnOneTable(ts: Tables, table: string, cs: seq<Change>)
    requires table in ts && forall i | 0 <= i < |cs| :: Concerns(cs[i], table)
    ensures ColumnsAfter(ts[table], cs).Some? ==>
            ApplyAll(ts, cs) == Some(ts[table := ColumnsAfter(ts[table], cs).value])
  {
    if cs == [] {
      assert ts[table := ts[table]] == ts;
    } else {
      var front, c := cs[..|cs| - 1], cs[|cs| - 1];
      OnOneTable(ts, table, front);
      assert Concerns(c, table);
      if ColumnsAfter(ts[table], cs).Some? {
        var now := ts[table := ColumnsAfter(ts[table], front).value];
        assert now[table := ColumnsAfter(ts[table], cs).value] == ts[table := ColumnsAfter(ts[table], cs).value];
      }
    }
  }

  lemma {:induction false} AllConcern(table: string, before: seq<Column>, after: seq<Column>)
    ensures forall c | c in Added(table, before, after) :: Concerns(c, table)
    ensures forall c | c in Altered(table, before, after) :: Concerns(c, table)
    ensures forall c | c in NewlyUnique(table, before, after) :: Concerns(c, table)
    decreases after
  {
    if after != [] {
      AllConcern(table, before, after[..|after| - 1]);
    }
  }

  lemma {:induction false} DropsConcern(table: string, before: seq<Column>, after: seq<Column>)
    ensures forall c | c in Dropped(table, before, after) :: Concerns(c, table)
  {
    if before != [] {
      DropsConcern(table, before[..|before| - 1], after);
    }
  }

  lemma TableChangesConcern(table: string, before: seq<Column>, after: seq<Column>)
    ensures forall i | 0 <= i < |TableChanges(table, before, after)| ::
            Concerns(TableChanges(table, before, after)[i], table)
  {
    AllConcern(table, before, after);
    DropsConcern(table, before, after);
    var cs := TableChanges(table, before, after);
    hide Added, Altered, NewlyUnique, Dropped;
    forall i | 0 <= i < |cs| ensures Concerns(cs[i], table) {
      assert cs[i] in cs;
    }
  }

  lemma {:induction false} ToTablesNames(ts: seq<TableDef>)
    requires DistinctTables(ts)
    ensures forall n :: n in ToTables(ts) <==> HasTable(ts, n)
    ensures forall i | 0 <= i < |ts| :: ts[i].name in ToTables(ts) && ToTables(ts)[ts[i].name] == ts[i].columns
  {
    if ts != [] {
      var front, t := ts[..|ts| - 1], ts[|ts| - 1];
      ToTablesNames(front);
      assert ts == front + [t];
      forall n ensures HasTable(ts, n) <==> HasTable(front, n) || t.name == n {
        OneMoreTable(front, t, n);
      }
      forall i | 0 <= i < |ts| ensures ts[i].name in ToTables(ts) && ToTables(ts)[ts[i].name] == ts[i].columns {
        if i < |front| {
          assert front[i] == ts[i];
        }
      }
    }
  }

  /** What the diff makes of each table of the new schema. */
  function DeliveredColumns(before: seq<TableDef>, t: TableDef): seq<Column> {
    if HasTable(before, t.name) then Carried(before[TableAt(before, t.name)].columns, t.columns) else t.columns
  }

  function Delivered(before: seq<TableDef>, after: seq<TableDef>): Tables {
    if after == [] then map[]
    else
      var t := after[|after| - 1];
      Delivered(before, after[..|after| - 1])[t.name := DeliveredColumns(before, t)]
  }

  lemma {:induction false} DeliveredNames(before: seq<TableDef>, after: seq<TableDef>)
    requires DistinctTables(after)
    ensures forall n :: n in Delivered(before, after) <==> HasTable(after, n)
    ensures forall i | 0 <= i < |after| ::
              after[i].name in Delivered(before, after) && Delivered(before, after)[after[i].name] ==
                  DeliveredColumns(before, after[i])
  {
    if after != [] {
      var front, t := after[..|after| - 1], after[|after| - 1];
      DeliveredNames(before, front);
      assert after == front + [t];
      forall n ensures HasTable(after, n) <==> HasTable(front, n) || t.name == n {
        OneMoreTable(front, t, n);
      }
      forall i | 0 <= i < |after| ensures after[i].name in Delivered(before, after) &&
                Delivered(before, after)[after[i].name] == DeliveredColumns(before, after[i]) {
        if i < |front| {
          assert front[i] == after[i];
        }
      }
    }
  }

  lemma {:induction false} KeepPhase(before: seq<TableDef>, after: seq<TableDef>)
    requires DistinctTables(before) && DistinctTables(after) && WellFormed(before) && WellFormed(after)
    ensures ApplyAll(ToTables(before), KeptOrCreated(before, after)) ==
            Some(ToTables(before) + Delivered(before, after))
  {
    if after == [] {
      assert ToTables(before) + map[] == ToTables(before);
    } else {
      var front, t := after[..|after| - 1], after[|after| - 1];
      KeepPhase(before, front);
      var now := ToTables(before) + Delivered(before, front);
      TableStep(before, front, t, now);
      hide OneTable, DeliveredColumns, ToTables, HasTable, DistinctTables, WellFormed, ApplyAll;
      ApplyAllSplit(ToTables(before), KeptOrCreated(before, front), OneTable(before, t));
      Overlay(ToTables(before), Delivered(before, front), t.name, DeliveredColumns(before, t));
    }
  }

  lemma Overlay(a: Tables, b: Tables, name: string, cols: seq<Column>)
    ensures (a + b)[name := cols] == a + b[name := cols]
  {
  }

  lemma TableStep(before: seq<TableDef>, front: seq<TableDef>, t: TableDef, now: Tables)
    requires DistinctTables(before) && DistinctTables(front) && WellFormed(before) && DistinctColumns(t.columns)
    requires now == ToTables(before) + Delivered(before, front)
    requires forall i | 0 <= i < |front| :: front[i].name != t.name
    ensures ApplyAll(now, OneTable(before, t)) == Some(now[t.name := DeliveredColumns(before, t)])
  {
    ToTablesNames(before);
    DeliveredNames(before, front);
    assert !HasTable(front, t.name);
    if HasTable(before, t.name) {
      var b := before[TableAt(before, t.name)].columns;
      TableCarried(t.name, b, t.columns);
      TableChangesConcern(t.name, b, t.columns);
      hide ColumnsAfter, TableChanges, Carried;
      OnOneTable(now, t.name, TableChanges(t.name, b, t.columns));
    } else {
      assert [CreateTable(t)][..0] == [];
    }
  }

  function DroppedNames(before: seq<TableDef>, after: seq<TableDef>): set<string> {
    set i | 0 <= i < |before| && !HasTable(after, before[i].name) :: before[i].name
  }

  lemma {:induction false} DropTablesPhase(ts: Tables, before: seq<TableDef>, after: seq<TableDef>)
    requires DistinctTables(before) && forall i | 0 <= i < |before| :: before[i].name in ts
    ensures ApplyAll(ts, DroppedTables(before, after)) == Some(ts - DroppedNames(before, after))
  {
    if before == [] {
      assert DroppedNames(before, after) == {} && ts - {} == ts;
    } else {
      var front, t := before[..|before| - 1], before[|before| - 1];
      DropTablesPhase(ts, front, after);
      assert before == front + [t];
      NamesStep(front, t, after);
      var gone := DroppedNames(front, after);
      assert t.name !in gone;
      hide DroppedNames, HasTable, DistinctTables;
      DropTableStep(ts, DroppedTables(front, after), gone, t.name);
    }
  }

  lemma DropTableStep(ts: Tables, cs: seq<Change>, gone: set<string>, name: string)
    requires ApplyAll(ts, cs) == Some(ts - gone) && name in ts && name !in gone
    ensures ApplyAll(ts, cs + [DropTable(name)]) == Some(ts - (gone + {name}))
    ensures gone + {} == gone
  {
    assert (cs + [DropTable(name)])[..|cs|] == cs;
    assert ts - gone - {name} == ts - (gone + {name});
  }

  lemma NamesStep(front: seq<TableDef>, t: TableDef, after: seq<TableDef>)
    ensures DroppedNames(front + [t], after) == DroppedNames(front, after) + if HasTable(after, t.name) then {}
            else {t.name}
  {
    var all := front + [t];
    forall n ensures n in DroppedNames(all, after) <==>
        n in DroppedNames(front, after) || (!HasTable(after, t.name) && n == t.name) {
      if n in DroppedNames(front, after) {
        var i :| 0 <= i < |front| && !HasTable(after, front[i].name) && front[i].name == n;
        assert all[i].name == n;
      }
      if !HasTable(after, t.name) {
        assert all[|front|].name == t.name;
      }
    }
  }

  /** Applying the diff in order never fails, and leaves exactly the tables of the new schema: new
      ones as defined, kept ones with their columns carried over. */
  lemma DiffCarries(before: seq<TableDef>, after: seq<TableDef>)
    requires DistinctTables(before) && DistinctTables(after) && WellFormed(before) && WellFormed(after)
    ensures ApplyAll(ToTables(before), Diff(before, after)) == Some(Delivered(before, after))
    ensures forall n :: n in Delivered(before, after) <==> HasTable(after, n)
    ensures forall i | 0 <= i < |after| ::
              after[i].name in Delivered(before, after) &&
                  MatchesColumns(Delivered(before, after)[after[i].name], after[i].columns)
  {
    LatestOfDistinct(before);
    LatestOfDistinct(after);
    ToTablesNames(before);
    DeliveredNames(before, after);
    KeepPhase(before, after);
    var grown := ToTables(before) + Delivered(before, after);
    DropTablesPhase(grown, before, after);
    ApplyAllSplit(ToTables(before), KeptOrCreated(before, after), DroppedTables(before, after));
    RestIsDelivered(before, after, grown);
    forall i | 0 <= i < |after| ensures after[i].name in Delivered(before, after) &&
              MatchesColumns(Delivered(before, after)[after[i].name], after[i].columns) {
      DeliveredMatches(before, after[i]);
    }
  }

  lemma RestIsDelivered(before: seq<TableDef>, after: seq<TableDef>, grown: Tables)
    requires DistinctTables(before) && DistinctTables(after) && grown == ToTables(before) + Delivered(before, after)
    ensures grown - DroppedNames(before, after) == Delivered(before, after)
  {
    ToTablesNames(before);
    DeliveredNames(before, after);
    forall n ensures n in grown - DroppedNames(before, after) <==> n in Delivered(before, after) {
      if HasTable(before, n) && !HasTable(after, n) {
        assert before[TableAt(before, n)].name in DroppedNames(before, after);
      }
    }
  }

  lemma DeliveredMatches(before: seq<TableDef>, t: TableDef)
    requires WellFormed(before) && DistinctColumns(t.columns)
    ensures MatchesColumns(DeliveredColumns(before, t), t.columns)
  {
    if HasTable(before, t.name) {
      CarriedMatches(before[TableAt(before, t.name)].columns, t.columns);
    } else {
      forall i | 0 <= i < |t.columns| ensures SameAsIn(t.columns[i], t.columns) {
        MemberIsItself(t.columns, t.columns[i]);
      }
    }
  }

  // ---- diffing again ----

  /** A unique column that the diff finds unchanged although it was the primary key and no longer is. */
  predicate KeyLost(before: seq<Column>, c: Column) {
    && UniqueColumn(c) && HasColumn(before, c.name)
    && SameColumn(before[ColumnAt(before, c.name)], c) && before[ColumnAt(before, c.name)].primaryKey
  }

  predicate TableKeyLost(before: seq<TableDef>, t: TableDef) {
    HasTable(before, t.name) && exists i | 0 <= i < |t.columns| ::
        KeyLost(before[TableAt(before, t.name)].columns, t.columns[i])
  }

  lemma {:induction false} NothingAdded(table: string, cols: seq<Column>, after: seq<Column>)
    requires forall i | 0 <= i < |after| :: HasColumn(cols, after[i].name)
    ensures Added(table, cols, after) == []
  {
    if after != [] {
      NothingAdded(table, cols, after[..|after| - 1]);
    }
  }

  lemma {:induction false} NothingDropped(table: string, cols: seq<Column>, after: seq<Column>)
    requires forall i | 0 <= i < |cols| :: HasColumn(after, cols[i].name)
    ensures Dropped(table, cols, after) == []
  {
    if cols != [] {
      NothingDropped(table, cols[..|cols| - 1], after);
    }
  }

  lemma {:induction false} NothingAltered(table: string, cols: seq<Column>, after: seq<Column>)
    requires forall i | 0 <= i < |after| :: HasColumn(cols, after[i].name) ==>
             SameColumn(cols[ColumnAt(cols, after[i].name)], after[i])
    ensures Altered(table, cols, after) == []
  {
    if after != [] {
      NothingAltered(table, cols, after[..|after| - 1]);
    }
  }

  lemma {:induction false} NoNewIndex(table: string, cols: seq<Column>, after: seq<Column>)
    ensures NewlyUnique(table, cols, after) == [] <==>
            forall i | 0 <= i < |after| :: UniqueColumn(after[i]) ==> WasUnique(cols, after[i].name)
  {
    if after != [] {
      var front, c := after[..|after| - 1], after[|after| - 1];
      NoNewIndex(table, cols, front);
      assert after == front + [c];
      assert forall i | 0 <= i < |front| :: front[i] == after[i];
    }
  }

  lemma MatchedChanges(table: string, cols: seq<Column>, after: seq<Column>)
    requires MatchesColumns(cols, after) && DistinctColumns(after)
    ensures TableChanges(table, cols, after) == NewlyUnique(table, cols, after)
  {
    forall i | 0 <= i < |after| ensures HasColumn(cols, after[i].name) &&
        SameColumn(cols[ColumnAt(cols, after[i].name)], after[i]) {
      HasIn(after, i);
      assert SameAsIn(cols[ColumnAt(cols, after[i].name)], after);
      DistinctAt(after, i);
    }
    forall i | 0 <= i < |cols| ensures HasColumn(after, cols[i].name) {
      HasIn(cols, i);
    }
    NothingAdded(table, cols, after);
    NothingDropped(table, cols, after);
    NothingAltered(table, cols, after);
  }

  lemma UniqueHere(cols: seq<Column>, p: nat)
    requires DistinctColumns(cols) && p < |cols|
    ensures WasUnique(cols, cols[p].name) <==> UniqueColumn(cols[p])
  {
  }

  /** Where the carried columns hold the one of a given name. */
  lemma CarriedColumn(before: seq<Column>, after: seq<Column>, c: Column) returns (p: nat)
    requires DistinctColumns(before) && DistinctColumns(after) && c in after
    ensures p < |Carried(before, after)| && Carried(before, after)[p].name == c.name
    ensures Carried(before, after)[p] == if HasColumn(before, c.name) && SameColumn(before[ColumnAt(before, c.name)], c)
                                         then before[ColumnAt(before, c.name)] else c
  {
    var kept, news := KeptColumns(before, after), NewColumns(before, after);
    KeptNames(before, after);
    NewNames(before, after);
    MemberIsItself(after, c);
    if HasColumn(before, c.name) {
      p := ColumnAt(kept, c.name);
      assert kept[p] in kept;
      SameByName(before, kept[p], before[ColumnAt(before, c.name)]);
    } else {
      var q := ColumnAt(news, c.name);
      assert news[q] in news;
      SameByName(after, news[q], c);
      p := |kept| + q;
    }
  }

  lemma TableRediff(table: string, before: seq<Column>, after: seq<Column>)
    requires DistinctColumns(before) && DistinctColumns(after)
    ensures TableChanges(table, Carried(before, after), after) == [] <==>
            !exists i | 0 <= i < |after| :: KeyLost(before, after[i])
  {
    var cols := Carried(before, after);
    CarriedMatches(before, after);
    MatchedChanges(table, cols, after);
    NoNewIndex(table, cols, after);
    forall i | 0 <= i < |after|
      ensures UniqueColumn(after[i]) && !WasUnique(cols, after[i].name) <==> KeyLost(before, after[i])
    {
      var p := CarriedColumn(before, after, after[i]);
      UniqueHere(cols, p);
    }
  }

  lemma SameColumnsRediff(table: string, cols: seq<Column>)
    requires DistinctColumns(cols)
    ensures TableChanges(table, cols, cols) == []
  {
    forall i | 0 <= i < |cols| ensures SameAsIn(cols[i], cols) {
      MemberIsItself(cols, cols[i]);
    }
    MatchedChanges(table, cols, cols);
    NoNewIndex(table, cols, cols);
  }

  predicate Unchanged(now: seq<TableDef>, t: TableDef) {
    OneTable(now, t) == []
  }

  lemma NothingJoined(a: seq<Change>, b: seq<Change>)
    ensures a + b == [] <==> a == [] && b == []
  {
    assert |a + b| == |a| + |b|;
  }

  ghost predicate AllUnchanged(now: seq<TableDef>, after: seq<TableDef>) {
    forall t | t in after :: Unchanged(now, t)
  }

  lemma LastUnchanged(now: seq<TableDef>, front: seq<TableDef>, t: TableDef)
    ensures AllUnchanged(now, front + [t]) <==> AllUnchanged(now, front) && Unchanged(now, t)
  {
    hide Unchanged;
    assert forall u :: u in front + [t] <==> u in front || u == t;
  }

  lemma {:induction false} NoKeptChange(now: seq<TableDef>, after: seq<TableDef>)
    ensures KeptOrCreated(now, after) == [] <==> AllUnchanged(now, after)
  {
    hide AllUnchanged, OneTable;
    if after == [] {
      NoneChanged(now);
    } else {
      var front, t := after[..|after| - 1], after[|after| - 1];
      NoKeptChange(now, front);
      NothingJoined(KeptOrCreated(now, front), OneTable(now, t));
      LastUnchanged(now, front, t);
      assert front + [t] == after;
    }
  }

  lemma NoneChanged(now: seq<TableDef>)
    ensures AllUnchanged(now, [])
  {
  }

  lemma {:induction false} NoDroppedTable(now: seq<TableDef>, after: seq<TableDef>)
    requires forall i | 0 <= i < |now| :: HasTable(after, now[i].name)
    ensures DroppedTables(now, after) == []
  {
    if now != [] {
      NoDroppedTable(now[..|now| - 1], after);
    }
  }

  /** Diffing the result of a diff against its target finds nothing, unless a unique column that
      counts as unchanged has ceased to be the primary key; then it goes on asking for an index. */
  lemma RediffEmpty(before: seq<TableDef>, after: seq<TableDef>, now: seq<TableDef>)
    requires DistinctTables(before) && DistinctTables(after) && WellFormed(before) && WellFormed(after)
    requires DistinctTables(now) && Some(ToTables(now)) == ApplyAll(ToTables(before), Diff(before, after))
    ensures Diff(now, after) == [] <==> !exists i | 0 <= i < |after| :: TableKeyLost(before, after[i])
  {
    DiffCarries(before, after);
    DeliveredNames(before, after);
    ToTablesNames(now);
    forall i | 0 <= i < |now| ensures HasTable(after, now[i].name) {
      assert HasTable(now, now[i].name);
    }
    forall i | 0 <= i < |after| ensures Unchanged(now, after[i]) <==> !TableKeyLost(before, after[i]) {
      OneRediff(before, after[i], now);
    }
    EmptyDiff(now, after);
  }

  lemma EmptyDiff(now: seq<TableDef>, after: seq<TableDef>)
    requires DistinctTables(now) && DistinctTables(after) && forall i | 0 <= i < |now| :: HasTable(after, now[i].name)
    ensures Diff(now, after) == [] <==> AllUnchanged(now, after)
  {
    LatestOfDistinct(now);
    LatestOfDistinct(after);
    NoDroppedTable(now, after);
    NoKeptChange(now, after);
    NothingJoined(KeptOrCreated(now, after), DroppedTables(now, after));
  }

  lemma OneRediff(before: seq<TableDef>, t: TableDef, now: seq<TableDef>)
    requires WellFormed(before) && DistinctColumns(t.columns) && DistinctTables(now) && HasTable(now, t.name)
    requires forall i | 0 <= i < |now| :: now[i].name in ToTables(now) && ToTables(now)[now[i].name] == now[i].columns
    requires t.name in ToTables(now) && ToTables(now)[t.name] == DeliveredColumns(before, t)
    ensures OneTable(now, t) == [] <==> !TableKeyLost(before, t)
  {
    assert now[TableAt(now, t.name)].columns == DeliveredColumns(before, t);
    if HasTable(before, t.name) {
      TableRediff(t.name, before[TableAt(before, t.name)].columns, t.columns);
    } else {
      SameColumnsRediff(t.name, t.columns);
    }
  }
}
