/** `compilePlan` as the program runs it: closures that push into one shared parameter list while
    they print. Every method is proved to push and print what module Emission says. */
module Compiler {
  import opened Wrappers
  import opened Plans
  import opened Emission

  class Compilation {
    const dialect: Dialect
    var params: seq<Value>

    constructor (d: Dialect)
      ensures dialect == d && params == []
    {
      dialect := d;
      params := [];
    }

    method Push(v: Value) returns (hole: Tok)
      modifies this
      ensures params == old(params) + [v]
      ensures hole == Param(dialect, |old(params)| + 1)
    {
      params := params + [v];
      hole := Param(dialect, |params|);
    }

    method CompileFilter(f: Filter) returns (ts: seq<Tok>)
      modifies this
      ensures params == old(params) + FilterValues(f)
      ensures ts == FilterTokens(f, |old(params)|, dialect)
      decreases f, 0
    {
      match f {
        case And(fs) =>
          var subs := JoinFilters(fs, AND);
          ts := [LP] + subs + [RP];
        case Or(fs) =>
          var subs := JoinFilters(fs, OR);
          ts := [LP] + subs + [RP];
        case Subquery(column, op, plan) =>
          var sub, subParams := CompilePlan(plan, [], dialect);
          params := params + subParams;
          if op.Exists? || op.NotExists? {
            ts := [SubqueryText(op), LP] + sub + [RP];
            assert [] + [SubqueryText(op), LP] == [SubqueryText(op), LP];
          } else {
            var col := if column != "" then [Ident(column)] else [];
            ts := col + [SubqueryText(op), LP] + sub + [RP];
          }
        case Compare(column, op, value) =>
          if op.In? {
            var arr := if value.Arr? then value.elems else [value];
            var start := |params|;
            params := params + arr;
            var holes := seq(|arr|, i requires 0 <= i < |arr| => Param(dialect, start + 1 + i));
            assert holes == Holes(|arr|, start, dialect);
            ts := [Ident(column), OpText(In), LP] + Separated(holes, COMMA, false) + [RP];
          } else if op.Between? {
            var arr := if value.Arr? then value.elems else [value, value];
            var low := Push(At(arr, 0));
            var high := Push(At(arr, 1));
            ts := [Ident(column), OpText(Between), low, AND, high];
          } else {
            var hole := Push(value);
            ts := [Ident(column), OpText(op), hole];
          }
      }
    }

    /** `fs.map(compileFilter).join(sep)` */
    method JoinFilters(fs: seq<Filter>, sep: Tok) returns (ts: seq<Tok>)
      modifies this
      ensures params == old(params) + FiltersValues(fs)
      ensures ts == FiltersTokens(fs, sep, false, |old(params)|, dialect)
      decreases fs, 0
    {
      ts := [];
      for i := 0 to |fs|
        invariant params + FiltersValues(fs[i..]) == old(params) + FiltersValues(fs)
        invariant ts + FiltersTokens(fs[i..], sep, i > 0, |params|, dialect) ==
                  FiltersTokens(fs, sep, false, |old(params)|, dialect)
      {
        ghost var before, printed := params, ts;
        var part := CompileFilter(fs[i]);
        ts := ts + (if i > 0 then [sep] else []) + part;
        FiltersStep(fs, i, sep, before, printed, dialect);
      }
      assert fs[|fs|..] == [];
    }

    method BuildWhere(fs: seq<Filter>, raws: seq<RawFilter>) returns (ts: seq<Tok>)
      modifies this
      ensures params == old(params) + FiltersValues(fs) + RawValues(raws)
      ensures ts == WhereTokens(fs, raws, |old(params)|, dialect)
      decreases fs, 1
    {
      var parts := JoinFilters(fs, AND);
      ghost var before := params;
      hide FiltersValues, FiltersTokens, RawTokens;
      for i := 0 to |raws|
        invariant params + RawValues(raws[i..]) == before + RawValues(raws)
        invariant parts + RawClauses(raws[i..], fs != [] || i > 0, dialect) ==
                  FiltersTokens(fs, AND, false, |old(params)|, dialect) + RawClauses(raws, fs != [], dialect)
      {
        RawStep(raws, i, fs != [] || i > 0, params, parts, dialect);
        params := params + raws[i].params;
        parts := parts + (if fs != [] || i > 0 then [AND] else []) + RawTokens(raws[i].expr, PrintedHole(dialect));
      }
      assert raws[|raws|..] == [];
      ts := if fs == [] && raws == [] then [] else [Text(" WHERE ")] + parts;
      WhereAssembled(fs, raws, |old(params)|, parts, dialect);
    }

    method CompileFts(table: string, fts: Fts) returns (ts: seq<Tok>)
      modifies this
      ensures params == old(params) + [fts.query]
      ensures ts == FtsCondition(table, fts, Param(dialect, |old(params)| + 1))
    {
      var hole := Push(fts.query);
      ts := FtsCondition(table, fts, hole);
    }

    method CompileJsonOp(op: JsonOp) returns (ts: seq<Tok>)
      modifies this
      ensures params == old(params) + JsonOpValues(op)
      ensures ts == JsonOpTokens(op, |old(params)|, dialect)
    {
      match op {
        case JsonSet(column, path, value, alias) =>
          var hole := Push(value);
          ts := JsonSetCall(column, path, hole, alias);
        case JsonText(text) => ts := [Opaque(text)];
      }
    }

    method CompileJsonOps(ops: seq<JsonOp>, lead: bool) returns (ts: seq<Tok>)
      modifies this
      ensures params == old(params) + JsonValues(ops)
      ensures ts == JsonTokens(ops, lead, |old(params)|, dialect)
    {
      ts := [];
      for i := 0 to |ops|
        invariant params + JsonValues(ops[i..]) == old(params) + JsonValues(ops)
        invariant ts + JsonTokens(ops[i..], lead || i > 0, |params|, dialect) ==
                  JsonTokens(ops, lead, |old(params)|, dialect)
      {
        ghost var before, printed := params, ts;
        var part := CompileJsonOp(ops[i]);
        ts := ts + (if lead || i > 0 then [COMMA] else []) + part;
        JsonStep(ops, i, lead, before, printed, dialect);
      }
      assert ops[|ops|..] == [];
    }

    /** UNION branches are renumbered after the parameters pushed so far; WITH queries are not. */
    method CompileBranch(b: Branch, inherited: seq<string>) returns (ts: seq<Tok>)
      modifies this
      ensures params == old(params) + BranchValues(b)
      ensures ts == BranchTokens(b, |old(params)|, inherited, dialect)
      decreases b, 0
    {
      match b {
        case UnionBranch(op, query) =>
          var sub, subParams := CompilePlan(query, inherited, dialect);
          var offset := |params|;
          // `dialect.param(0) !== "?"` asks for numbered placeholders
          if dialect.Postgres? {
            sub := Renumber(sub, offset);
          }
          params := params + subParams;
          ts := [SetOpText(op), LP] + sub + [RP];
        case WithQuery(_, _, query) =>
          var sub, subParams := CompilePlan(query, [], dialect);
          params := params + subParams;
          ts := WithHead(b) + sub + [RP];
      }
    }

    method CompileBranches(bs: seq<Branch>, sep: seq<Tok>, inherited: seq<string>) returns (ts: seq<Tok>)
      modifies this
      ensures params == old(params) + BranchesValues(bs)
      ensures ts == BranchesTokens(bs, sep, false, |old(params)|, inherited, dialect)
      decreases bs, 0
    {
      ts := [];
      for i := 0 to |bs|
        invariant params + BranchesValues(bs[i..]) == old(params) + BranchesValues(bs)
        invariant ts + BranchesTokens(bs[i..], sep, i > 0, |params|, inherited, dialect) ==
                  BranchesTokens(bs, sep, false, |old(params)|, inherited, dialect)
      {
        ghost var before, printed := params, ts;
        var part := CompileBranch(bs[i], inherited);
        ts := ts + (if i > 0 then sep else []) + part;
        BranchesStep(bs, i, sep, before, printed, inherited, dialect);
      }
      assert bs[|bs|..] == [];
    }

    /** Pushes the values of a SET list one by one. */
    method CompileAssignments(r: Record) returns (ts: seq<Tok>)
      modifies this
      ensures params == old(params) + Values(r)
      ensures ts == AssignmentTokens(r, false, |old(params)|, dialect)
    {
      ts := [];
      for i := 0 to |r|
        invariant params + Values(r[i..]) == old(params) + Values(r)
        invariant ts + AssignmentTokens(r[i..], i > 0, |params|, dialect) ==
                  AssignmentTokens(r, false, |old(params)|, dialect)
      {
        ghost var before, printed := params, ts;
        var hole := Push(r[i].1);
        ts := ts + (if i > 0 then [COMMA] else []) + [Ident(r[i].0), EQUALS, hole];
        AssignmentStep(r, i, before, printed, dialect);
      }
      assert r[|r|..] == [] && Values([]) == [];
    }

    /** Pushes every row first, then prints one tuple of placeholders a row. */
    method CompileRows(rows: seq<Record>, keys: seq<string>) returns (ts: seq<Tok>)
      modifies this
      ensures params == old(params) + RowsValues(rows, keys)
      ensures ts == RowsTokens(|rows|, |keys|, false, |old(params)|, dialect)
    {
      var start := |params|;
      for i := 0 to |rows|
        invariant params + RowsValues(rows[i..], keys) == old(params) + RowsValues(rows, keys)
      {
        ghost var before := params;
        PushRow(rows[i], keys);
        RowsStep(rows, i, keys, before);
      }
      assert rows[|rows|..] == [];
      ts := Tuples(|rows|, |keys|, start, dialect);
    }

    method PushRow(row: Record, keys: seq<string>)
      modifies this
      ensures params == old(params) + RowValues(row, keys)
    {
      for j := 0 to |keys|
        invariant params == old(params) + RowValues(row, keys[..j])
      {
        params := params + [Lookup(row, keys[j])];
        assert RowValues(row, keys[..j + 1]) == RowValues(row, keys[..j]) + [Lookup(row, keys[j])];
      }
      assert keys[..|keys|] == keys;
    }

    method CompileConflict(oc: Option<OnConflict>) returns (ts: seq<Tok>)
      modifies this
      ensures params == old(params) + Values(ConflictRecord(oc))
      ensures ts == ConflictTokens(oc, |old(params)|, dialect)
    {
      ts := [];
      assert Values([]) == [];
      if oc.Some? {
        match oc.value.target {
          case None =>
            if oc.value.action.DoNothing? {
              ts := [Text(" ON CONFLICT DO NOTHING")];
            }
          case Some(target) =>
            if oc.value.action.DoNothing? {
              ts := [Text(" ON CONFLICT "), LP] + ColumnList(target, COMMA) + [RP, Text(" DO NOTHING")];
            } else if oc.value.assignments.Some? {
              var sets := CompileAssignments(oc.value.assignments.value);
              ts := [Text(" ON CONFLICT "), LP] + ColumnList(target, COMMA) + [RP, Text(" DO UPDATE SET ")] + sets;
            }
        }
      }
    }

    method CompileItems(p: Plan, columns: seq<string>) returns (ts: seq<Tok>)
      requires p.Select? && params == []
      modifies this
      ensures params == JsonValues(p.jsonOps) && ts == ItemTokens(p, columns, dialect)
    {
      var lead := columns != [] || p.windows != [];
      var jsonParts := CompileJsonOps(p.jsonOps, lead);
      if columns == [] && p.windows == [] && p.jsonOps == [] && p.expressions == [] {
        ts := [Text("*")];
      } else {
        ts := Separated(Idents(columns), COMMA, false) + Separated(Opaques(p.windows), COMMA, columns != []) +
              jsonParts + Separated(Opaques(p.expressions), COMMA, lead || p.jsonOps != []);
      }
    }

    /** The source before full-text search is looked at. */
    method CompileSource(table: string, from: FromSource) returns (ts: seq<Tok>)
      modifies this
      ensures params == old(params) + FromValues(from)
      ensures ts == match from
                    case FromPlan(q, alias) => [LP] + PlanTokens(q, [], dialect) + [RP, Text(" AS "), Ident(alias)]
                    case FromTable => [Ident(table)]
      decreases from, 0
    {
      ts := [Ident(table)];
      if from.FromPlan? {
        var sub, subParams := CompilePlan(from.query, [], dialect);
        params := params + subParams;
        ts := [LP] + sub + [RP, Text(" AS "), Ident(from.alias)];
      }
    }

    /** The FROM clause, and the search condition with the keyword that joins it. */
    method CompileFrom(p: Plan) returns (ts: seq<Tok>, ftsFilter: seq<Tok>)
      requires p.Select?
      modifies this
      ensures params == old(params) + FromValues(p.from) + FtsValues(p.fts)
      ensures ts == FromTokens(p, dialect)
      ensures ftsFilter == FtsTokens(p, |old(params)| + |FromValues(p.from)|, dialect)
      decreases p, -1
    {
      ts := CompileSource(p.table, p.from);
      ftsFilter := [];
      hide PlanTokens, FtsCondition, Fts5Source;
      if p.fts.Some? {
        if p.fts.value.mode.Fts5? {
          ts := Fts5Source(p.table, p.fts.value);
        }
        var condition := CompileFts(p.table, p.fts.value);
        ftsFilter := [if p.filters == [] then Text(" WHERE ") else AND] + condition;
      }
    }

    method CompileSelect(p: Plan, inherited: seq<string>) returns (ts: seq<Tok>)
      requires p.Select? && params == []
      modifies this
      ensures (if p.deny then [] else params) == PlanValues(p)
      ensures ts == PlanTokens(p, inherited, dialect)
      decreases p, 2
    {
      var columns := if p.columns == [] then inherited else p.columns;
      var items := CompileItems(p, columns);
      var distinct := DistinctClause(p.distinct, p.distinctOn);
      if p.deny {
        ts := [Text("SELECT ")] + distinct + items + [Text(" FROM ")] + [Ident(p.table)] + [Text(" WHERE 1=0")];
      } else {
        ts := CompileServed(p, inherited, columns, distinct, items);
      }
    }

    /** A SELECT that is not denied, once its items are compiled. */
    method CompileServed(p: Plan, inherited: seq<string>, columns: seq<string>, distinct: seq<Tok>, items: seq<Tok>)
        returns (ts: seq<Tok>)
      requires p.Select? && !p.deny && params == JsonValues(p.jsonOps)
      requires columns == EffectiveColumns(p, inherited) && items == ItemTokens(p, columns, dialect)
      requires distinct == DistinctClause(p.distinct, p.distinctOn)
      modifies this
      ensures params == PlanValues(p) && ts == PlanTokens(p, inherited, dialect)
      decreases p, 1
    {
      hide PlanTokens, ItemTokens, DistinctClause, JsonValues;
      var body, unionClause := CompileBody(p, columns);
      var withClause := CompileWith(p.ctes);
      ts := withClause + ([Text("SELECT ")] + distinct + items + [Text(" FROM ")] + body) + unionClause;
      SelectAssembled(p, inherited, body, withClause, unionClause, dialect);
    }

    method CompileInsert(p: Plan) returns (ts: seq<Tok>)
      requires p.Insert? && params == []
      modifies this
      ensures params == PlanValues(p) && ts == PlanTokens(p, [], dialect)
    {
      var keys := InsertKeys(p.rows);
      var tuples := CompileRows(p.rows, keys);
      var conflict := CompileConflict(p.onConflict);
      ts := [Text("INSERT INTO "), Ident(p.table), Text(" "), LP] + ColumnList(keys, COMMA) + [RP, Text(" VALUES ")] +
            tuples + conflict + ReturningClause(p.returning, SupportsReturning(dialect));
    }

    method CompileUpdate(p: Plan) returns (ts: seq<Tok>)
      requires p.Update? && params == []
      modifies this
      ensures params == PlanValues(p) && ts == PlanTokens(p, [], dialect)
      decreases p, 1
    {
      var sets := CompileAssignments(p.assignments);
      var where := BuildWhere(p.filters, p.rawFilters);
      ts := [Text("UPDATE "), Ident(p.table), Text(" SET ")] + sets + where +
            ReturningClause(p.returning, SupportsReturning(dialect));
    }

    method CompileDelete(p: Plan) returns (ts: seq<Tok>)
      requires p.Delete? && params == []
      modifies this
      ensures params == PlanValues(p) && ts == PlanTokens(p, [], dialect)
      decreases p, 1
    {
      var where := BuildWhere(p.filters, p.rawFilters);
      ts := [Text("DELETE FROM "), Ident(p.table)] + where + ReturningClause(p.returning, SupportsReturning(dialect));
    }

    /** The FROM clause up to the set operations, and these. */
    method CompileBody(p: Plan, columns: seq<string>) returns (ts: seq<Tok>, unionClause: seq<Tok>)
      requires p.Select? && params == JsonValues(p.jsonOps)
      modifies this
      ensures params == MainValues(p)
      ensures ts == FromTokens(p, dialect) + MiddleTokens(p, dialect)
      ensures unionClause == BranchesTokens(p.unions, [], false, UnionStart(p), columns, dialect)
      decreases p, 0
    {
      var source, ftsFilter := CompileFrom(p);
      var middle := CompileMiddle(p, ftsFilter);
      unionClause := CompileBranches(p.unions, [], columns);
      ts := source + middle;
    }

    method CompileMiddle(p: Plan, ftsFilter: seq<Tok>) returns (ts: seq<Tok>)
      requires p.Select? && |params| == WhereStart(p)
      requires ftsFilter == FtsTokens(p, |JsonValues(p.jsonOps)| + |FromValues(p.from)|, dialect)
      modifies this
      ensures params == old(params) + FiltersValues(p.filters) + RawValues(p.rawFilters) + FiltersValues(p.having)
      ensures ts == MiddleTokens(p, dialect)
      decreases p, -1
    {
      hide FilterValues, FiltersValues, PlanValues, FiltersTokens, WhereTokens, HavingTokens, FtsTokens, RawClauses;
      var where := BuildWhere(p.filters, p.rawFilters);
      var having := CompileHaving(p.having);
      ts := JoinClause(p.joins) + where + ftsFilter + GroupClause(p.groupBy) + having + TailClause(p.tail);
    }

    method CompileHaving(having: seq<Filter>) returns (ts: seq<Tok>)
      modifies this
      ensures params == old(params) + FiltersValues(having)
      ensures ts == HavingTokens(having, |old(params)|, dialect)
      decreases having, 1
    {
      ts := [];
      if having != [] {
        var conditions := JoinFilters(having, AND);
        ts := [Text(" HAVING ")] + conditions;
      }
    }

    method CompileWith(ctes: seq<Branch>) returns (ts: seq<Tok>)
      modifies this
      ensures params == old(params) + BranchesValues(ctes)
      ensures ts == WithTokens(ctes, |old(params)|, dialect)
      decreases ctes, 1
    {
      ts := [];
      if ctes != [] {
        var parts := CompileBranches(ctes, [COMMA], []);
        ts := [Text("WITH ")] + parts + [Text(" ")];
      }
    }
  }

  lemma SelectAssembled(p: Plan, inherited: seq<string>, body: seq<Tok>, withClause: seq<Tok>, unionClause: seq<Tok>,
                        d: Dialect)
    requires p.Select? && !p.deny
    requires body == FromTokens(p, d) + MiddleTokens(p, d)
    requires withClause == WithTokens(p.ctes, WithStart(p), d)
    requires unionClause == BranchesTokens(p.unions, [], false, UnionStart(p), EffectiveColumns(p, inherited), d)
    ensures var items := ItemTokens(p, EffectiveColumns(p, inherited), d);
            withClause + ([Text("SELECT ")] + DistinctClause(p.distinct, p.distinctOn) + items + [Text(" FROM ")] +
                          body) +
            unionClause == PlanTokens(p, inherited, d)
  {
    var columns := EffectiveColumns(p, inherited);
    var head := [Text("SELECT ")] + DistinctClause(p.distinct, p.distinctOn) + ItemTokens(p, columns, d) +
      [Text(" FROM ")];
    var source, middle := FromTokens(p, d), MiddleTokens(p, d);
    Regroup(head, source, middle);
    Regroup(withClause, head + source, middle);
    assert SelectHead(p, columns, source, d) == head + source;
  }

  lemma WhereAssembled(fs: seq<Filter>, raws: seq<RawFilter>, k: nat, parts: seq<Tok>, d: Dialect)
    requires parts == FiltersTokens(fs, AND, false, k, d) + RawClauses(raws, fs != [], d)
    ensures (if fs == [] && raws == [] then [] else [Text(" WHERE ")] + parts) == WhereTokens(fs, raws, k, d)
  {
    hide FiltersTokens, RawClauses;
    Regroup([Text(" WHERE ")], FiltersTokens(fs, AND, false, k, d), RawClauses(raws, fs != [], d));
  }

  /** One parenthesised list of `colCount` placeholders a row, numbered on from `start`. */
  method Tuples(rowCount: nat, colCount: nat, start: nat, d: Dialect) returns (ts: seq<Tok>)
    ensures ts == RowsTokens(rowCount, colCount, false, start, d)
  {
    ts := [];
    var paramIdx: nat := start;
    for i := 0 to rowCount
      invariant ts + RowsTokens(rowCount - i, colCount, i > 0, paramIdx, d) ==
                RowsTokens(rowCount, colCount, false, start, d)
    {
      ghost var printed := ts;
      var holes := seq(colCount, c requires 0 <= c < colCount => Param(d, paramIdx + 1 + c));
      assert holes == Holes(colCount, paramIdx, d);
      ts := ts + ((if i > 0 then [COMMA] else []) + [LP] + Separated(holes, COMMA, false) + [RP]);
      Regroup(printed, (if i > 0 then [COMMA] else []) + [LP] + Separated(holes, COMMA, false) + [RP],
              RowsTokens(rowCount - i - 1, colCount, true, paramIdx + colCount, d));
      paramIdx := paramIdx + colCount;
    }
  }

  lemma Regroup<T>(a: seq<T>, b: seq<T>, c: seq<T>)
    ensures a + (b + c) == a + b + c
  {
  }

  lemma AssignmentStep(r: Record, i: nat, before: seq<Value>, printed: seq<Tok>, d: Dialect)
    requires i < |r|
    ensures before + Values(r[i..]) == (before + [r[i].1]) + Values(r[i + 1..])
    ensures printed + AssignmentTokens(r[i..], i > 0, |before|, d) ==
            printed + (if i > 0 then [COMMA] else []) + [Ident(r[i].0), EQUALS, Param(d, |before| + 1)] +
            AssignmentTokens(r[i + 1..], true, |before| + 1, d)
  {
    assert r[i..][0] == r[i] && r[i..][1..] == r[i + 1..];
    assert Values(r[i..]) == [r[i].1] + Values(r[i + 1..]);
    var sep, part := if i > 0 then [COMMA] else [], [Ident(r[i].0), EQUALS, Param(d, |before| + 1)];
    Regroup(printed, sep + part, AssignmentTokens(r[i + 1..], true, |before| + 1, d));
    Regroup(printed, sep, part);
  }

  lemma RowsStep(rows: seq<Record>, i: nat, keys: seq<string>, before: seq<Value>)
    requires i < |rows|
    ensures before + RowsValues(rows[i..], keys) == (before + RowValues(rows[i], keys)) +
            RowsValues(rows[i + 1..], keys)
  {
    assert rows[i..][0] == rows[i] && rows[i..][1..] == rows[i + 1..];
  }

  lemma RawStep(raws: seq<RawFilter>, i: nat, lead: bool, before: seq<Value>, printed: seq<Tok>, d: Dialect)
    requires i < |raws|
    ensures before + RawValues(raws[i..]) == (before + raws[i].params) + RawValues(raws[i + 1..])
    ensures printed + RawClauses(raws[i..], lead, d) ==
            printed + (if lead then [AND] else []) + RawTokens(raws[i].expr, PrintedHole(d)) +
            RawClauses(raws[i + 1..], true, d)
  {
    assert raws[i..][0] == raws[i] && raws[i..][1..] == raws[i + 1..];
    var sep, part := if lead then [AND] else [], RawTokens(raws[i].expr, PrintedHole(d));
    Regroup(printed, sep + part, RawClauses(raws[i + 1..], true, d));
    Regroup(printed, sep, part);
    Regroup(before, raws[i].params, RawValues(raws[i + 1..]));
  }

  lemma FiltersStep(fs: seq<Filter>, i: nat, sep: Tok, before: seq<Value>, printed: seq<Tok>, d: Dialect)
    requires i < |fs|
    ensures before + FiltersValues(fs[i..]) == (before + FilterValues(fs[i])) + FiltersValues(fs[i + 1..])
    ensures printed + FiltersTokens(fs[i..], sep, i > 0, |before|, d) ==
            printed + (if i > 0 then [sep] else []) + FilterTokens(fs[i], |before|, d) +
            FiltersTokens(fs[i + 1..], sep, true, |before + FilterValues(fs[i])|, d)
  {
    hide *;
    var lead, part := if i > 0 then [sep] else [], FilterTokens(fs[i], |before|, d);
    var rest := FiltersTokens(fs[i + 1..], sep, true, |before + FilterValues(fs[i])|, d);
    FiltersHead(fs, i, sep, i > 0, |before|, d);
    assert |before| + |FilterValues(fs[i])| == |before + FilterValues(fs[i])|;
    Regroup(printed, lead + part, rest);
    Regroup(printed, lead, part);
    Regroup(before, FilterValues(fs[i]), FiltersValues(fs[i + 1..]));
  }

  lemma FiltersHead(fs: seq<Filter>, i: nat, sep: Tok, lead: bool, k: nat, d: Dialect)
    requires i < |fs|
    ensures FiltersValues(fs[i..]) == FilterValues(fs[i]) + FiltersValues(fs[i + 1..])
    ensures FiltersTokens(fs[i..], sep, lead, k, d) ==
            (if lead then [sep] else []) + FilterTokens(fs[i], k, d) +
            FiltersTokens(fs[i + 1..], sep, true, k + |FilterValues(fs[i])|, d)
  {
    hide FilterValues, FilterTokens;
    assert fs[i..][0] == fs[i] && fs[i..][1..] == fs[i + 1..];
  }

  lemma JsonStep(ops: seq<JsonOp>, i: nat, lead: bool, before: seq<Value>, printed: seq<Tok>, d: Dialect)
    requires i < |ops|
    ensures before + JsonValues(ops[i..]) == (before + JsonOpValues(ops[i])) + JsonValues(ops[i + 1..])
    ensures printed + JsonTokens(ops[i..], lead || i > 0, |before|, d) ==
            printed + (if lead || i > 0 then [COMMA] else []) + JsonOpTokens(ops[i], |before|, d) +
            JsonTokens(ops[i + 1..], true, |before + JsonOpValues(ops[i])|, d)
  {
    hide JsonOpTokens, JsonOpValues;
    assert ops[i..][0] == ops[i] && ops[i..][1..] == ops[i + 1..];
    var sep, part := if lead || i > 0 then [COMMA] else [], JsonOpTokens(ops[i], |before|, d);
    var rest := JsonTokens(ops[i + 1..], true, |before| + |JsonOpValues(ops[i])|, d);
    Regroup(printed, sep + part, rest);
    Regroup(printed, sep, part);
    Regroup(before, JsonOpValues(ops[i]), JsonValues(ops[i + 1..]));
  }

  lemma BranchesStep(bs: seq<Branch>, i: nat, sep: seq<Tok>, before: seq<Value>, printed: seq<Tok>,
                     inherited: seq<string>, d: Dialect)
    requires i < |bs|
    ensures before + BranchesValues(bs[i..]) == (before + BranchValues(bs[i])) + BranchesValues(bs[i + 1..])
    ensures printed + BranchesTokens(bs[i..], sep, i > 0, |before|, inherited, d) ==
            printed + (if i > 0 then sep else []) + BranchTokens(bs[i], |before|, inherited, d) +
            BranchesTokens(bs[i + 1..], sep, true, |before + BranchValues(bs[i])|, inherited, d)
  {
    assert bs[i..][0] == bs[i] && bs[i..][1..] == bs[i + 1..];
    var lead, part := if i > 0 then sep else [], BranchTokens(bs[i], |before|, inherited, d);
    var rest := BranchesTokens(bs[i + 1..], sep, true, |before| + |BranchValues(bs[i])|, inherited, d);
    Regroup(printed, lead + part, rest);
    Regroup(printed, lead, part);
    Regroup(before, BranchValues(bs[i]), BranchesValues(bs[i + 1..]));
  }

  /** Compiles a plan with a fresh parameter list; `inherited` are the columns a UNION parent lends. */
  method CompilePlan(p: Plan, inherited: seq<string>, d: Dialect) returns (ts: seq<Tok>, params: seq<Value>)
    ensures ts == PlanTokens(p, inherited, d) && params == PlanValues(p)
    decreases p, 3
  {
    var c := new Compilation(d);
    if p.Select? {
      ts := c.CompileSelect(p, inherited);
      params := if p.deny then [] else c.params;
    } else if p.Insert? {
      ts := c.CompileInsert(p);
      params := c.params;
    } else if p.Update? {
      ts := c.CompileUpdate(p);
      params := c.params;
    } else {
      ts := c.CompileDelete(p);
      params := c.params;
    }
  }
}
