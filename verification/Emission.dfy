/** What `compilePlan` writes: the values it pushes, in push order, and the tokens it prints.
    `k` is the number of parameters already pushed when a fragment is printed. */
module Emission {
  import opened Wrappers
  import opened Rewriting
  import opened Plans

  // ---- pushed values ----

  function JsonValues(ops: seq<JsonOp>): seq<Value> {
    if ops == [] then [] else JsonOpValues(ops[0]) + JsonValues(ops[1..])
  }

  function JsonOpValues(op: JsonOp): seq<Value> {
    if op.JsonSet? then [op.value] else []
  }

  function RawValues(raws: seq<RawFilter>): seq<Value> {
    if raws == [] then [] else raws[0].params + RawValues(raws[1..])
  }

  function FilterValues(f: Filter): seq<Value> {
    match f
    case Compare(_, In, v) => InList(v)
    case Compare(_, Between, v) => [BetweenLow(v), BetweenHigh(v)]
    case Compare(_, _, v) => [v]
    case And(fs) => FiltersValues(fs)
    case Or(fs) => FiltersValues(fs)
    case Subquery(_, _, p) => PlanValues(p)
  }

  function FiltersValues(fs: seq<Filter>): seq<Value> {
    if fs == [] then [] else FilterValues(fs[0]) + FiltersValues(fs[1..])
  }

  function BranchValues(b: Branch): seq<Value> {
    PlanValues(b.query)
  }

  function BranchesValues(bs: seq<Branch>): seq<Value> {
    if bs == [] then [] else BranchValues(bs[0]) + BranchesValues(bs[1..])
  }

  function FromValues(from: FromSource): seq<Value> {
    if from.FromPlan? then PlanValues(from.query) else []
  }

  function FtsValues(fts: Option<Fts>): seq<Value> {
    if fts.Some? then [fts.value.query] else []
  }

  /** Everything a SELECT pushes before its WITH clause. */
  function MainValues(p: Plan): seq<Value>
    requires p.Select?
    decreases p, 0
  {
    JsonValues(p.jsonOps) + FromValues(p.from) + FtsValues(p.fts) +
    FiltersValues(p.filters) + RawValues(p.rawFilters) + FiltersValues(p.having) + BranchesValues(p.unions)
  }

  function RowsValues(rows: seq<Record>, keys: seq<string>): seq<Value> {
    if rows == [] then [] else RowValues(rows[0], keys) + RowsValues(rows[1..], keys)
  }

  function RowValues(row: Record, keys: seq<string>): seq<Value> {
    seq(|keys|, i requires 0 <= i < |keys| => Lookup(row, keys[i]))
  }

  function InsertKeys(rows: seq<Record>): seq<string> {
    if rows == [] then [] else Keys(rows[0])
  }

  /** The SET list of an upsert, when one is printed. */
  function ConflictRecord(oc: Option<OnConflict>): Record {
    if oc.Some? && oc.value.target.Some? && oc.value.action.DoUpdate? && oc.value.assignments.Some?
    then oc.value.assignments.value else []
  }

  function PlanValues(p: Plan): seq<Value>
    decreases p, 1
  {
    match p
    case Select(_, _, _, _, _, _, _, _, _, _, _, _, _, _, _, _, _, _) =>
      if p.deny then [] else MainValues(p) + BranchesValues(p.ctes)
    case Insert(_, rows, oc, _) => RowsValues(rows, InsertKeys(rows)) + Values(ConflictRecord(oc))
    case Update(_, sets, fs, raws, _) => Values(sets) + FiltersValues(fs) + RawValues(raws)
    case Delete(_, fs, raws, _) => FiltersValues(fs) + RawValues(raws)
  }

  // ---- printed tokens ----

  /** `count` placeholders, numbered after the first k parameters. */
  function Holes(count: nat, k: nat, d: Dialect): seq<Tok> {
    seq(count, i requires 0 <= i < count => Param(d, k + 1 + i))
  }

  function FilterTokens(f: Filter, k: nat, d: Dialect): seq<Tok> {
    match f
    case Compare(c, In, v) =>
      [Ident(c), OpText(In), LP] + Separated(Holes(|InList(v)|, k, d), COMMA, false) + [RP]
    case Compare(c, Between, v) =>
      [Ident(c), OpText(Between), Param(d, k + 1), AND, Param(d, k + 2)]
    case Compare(c, op, v) => [Ident(c), OpText(op), Param(d, k + 1)]
    case And(fs) => [LP] + FiltersTokens(fs, AND, false, k, d) + [RP]
    case Or(fs) => [LP] + FiltersTokens(fs, OR, false, k, d) + [RP]
    case Subquery(c, op, p) =>
      // the nested statement keeps the numbering it was compiled with
      (if (op.InPlan? || op.NotInPlan?) && c != "" then [Ident(c)] else []) +
      [SubqueryText(op), LP] + PlanTokens(p, [], d) + [RP]
  }

  function FiltersTokens(fs: seq<Filter>, sep: Tok, lead: bool, k: nat, d: Dialect): seq<Tok>
    decreases fs, 0
  {
    if fs == [] then []
    else (if lead then [sep] else []) + FilterTokens(fs[0], k, d) +
         FiltersTokens(fs[1..], sep, true, k + |FilterValues(fs[0])|, d)
  }

  /** A placeholder that the author of a raw filter wrote is printed as it is. */
  function PrintedHole(d: Dialect): nat -> Tok {
    (n: nat) => Param(d, n)
  }

  function RawClauses(raws: seq<RawFilter>, lead: bool, d: Dialect): seq<Tok> {
    if raws == [] then []
    else (if lead then [AND] else []) + RawTokens(raws[0].expr, PrintedHole(d)) + RawClauses(raws[1..], true, d)
  }

  function WhereTokens(fs: seq<Filter>, raws: seq<RawFilter>, k: nat, d: Dialect): seq<Tok>
    decreases fs, 1
  {
    if fs == [] && raws == [] then []
    else [Text(" WHERE ")] + FiltersTokens(fs, AND, false, k, d) + RawClauses(raws, fs != [], d)
  }

  function FtsTokens(p: Plan, k: nat, d: Dialect): seq<Tok>
    requires p.Select?
  {
    if p.fts.None? then []
    else [if p.filters == [] then Text(" WHERE ") else AND] + FtsCondition(p.table, p.fts.value, Param(d, k + 1))
  }

  function HavingTokens(having: seq<Filter>, k: nat, d: Dialect): seq<Tok>
    decreases having, 1
  {
    if having == [] then [] else [Text(" HAVING ")] + FiltersTokens(having, AND, false, k, d)
  }

  function JsonTokens(ops: seq<JsonOp>, lead: bool, k: nat, d: Dialect): seq<Tok> {
    if ops == [] then []
    else (if lead then [COMMA] else []) + JsonOpTokens(ops[0], k, d) +
         JsonTokens(ops[1..], true, k + |JsonOpValues(ops[0])|, d)
  }

  function JsonOpTokens(op: JsonOp, k: nat, d: Dialect): seq<Tok> {
    match op
    case JsonSet(c, path, _, alias) => JsonSetCall(c, path, Param(d, k + 1), alias)
    case JsonText(text) => [Opaque(text)]
  }

  function ItemTokens(p: Plan, columns: seq<string>, d: Dialect): seq<Tok>
    requires p.Select?
  {
    if columns == [] && p.windows == [] && p.jsonOps == [] && p.expressions == [] then [Text("*")]
    else
      Separated(Idents(columns), COMMA, false) +
      Separated(Opaques(p.windows), COMMA, columns != []) +
      JsonTokens(p.jsonOps, columns != [] || p.windows != [], 0, d) +
      Separated(Opaques(p.expressions), COMMA, columns != [] || p.windows != [] || p.jsonOps != [])
  }

  function FromTokens(p: Plan, d: Dialect): seq<Tok>
    requires p.Select?
    decreases p, 0
  {
    if IsFts5(p.fts) then Fts5Source(p.table, p.fts.value)
    else if p.from.FromPlan? then
      [LP] + PlanTokens(p.from.query, [], d) + [RP, Text(" AS "), Ident(p.from.alias)]
    else [Ident(p.table)]
  }

  function RenumberTok(t: Tok, offset: nat): Tok {
    match t
    case Dollar(n) => Dollar(n + offset)
    case Opaque(s) => Opaque(ReplaceDollars(s, Renumbered(offset)))
    case Ident(id) => Ident(ReplaceDollars(id, Renumbered(offset)))
    case _ => t
  }

  /** The statement of a UNION branch after `replace(/\$(\d+)/g, ...)`. The expression goes over the
      whole text, so that it also finds numbers behind a `$` inside names and raw text; module
      Lexical proves that this is what it does on every plan. */
  function Renumber(ts: seq<Tok>, offset: nat): seq<Tok> {
    seq(|ts|, i requires 0 <= i < |ts| => RenumberTok(ts[i], offset))
  }

  function BranchTokens(b: Branch, k: nat, inherited: seq<string>, d: Dialect): seq<Tok> {
    match b
    case UnionBranch(op, q) =>
      var sub := PlanTokens(q, inherited, d);
      [SetOpText(op), LP] + (if d.Postgres? then Renumber(sub, k) else sub) + [RP]
    case WithQuery(_, _, q) => WithHead(b) + PlanTokens(q, [], d) + [RP]
  }

  function BranchesTokens(bs: seq<Branch>, sep: seq<Tok>, lead: bool, k: nat, inherited: seq<string>, d: Dialect)
    : seq<Tok>
    decreases bs, 0
  {
    if bs == [] then []
    else (if lead then sep else []) + BranchTokens(bs[0], k, inherited, d) +
         BranchesTokens(bs[1..], sep, true, k + |BranchValues(bs[0])|, inherited, d)
  }

  function WithTokens(ctes: seq<Branch>, k: nat, d: Dialect): seq<Tok>
    decreases ctes, 1
  {
    if ctes == [] then []
    else [Text("WITH ")] + BranchesTokens(ctes, [COMMA], false, k, [], d) + [Text(" ")]
  }

  /** A SELECT from its keyword to the end of its FROM clause. */
  function SelectHead(p: Plan, columns: seq<string>, source: seq<Tok>, d: Dialect): seq<Tok>
    requires p.Select?
  {
    [Text("SELECT ")] + DistinctClause(p.distinct, p.distinctOn) + ItemTokens(p, columns, d) +
    [Text(" FROM ")] + source
  }

  function AssignmentTokens(r: Record, lead: bool, k: nat, d: Dialect): seq<Tok> {
    if r == [] then []
    else (if lead then [COMMA] else []) + [Ident(r[0].0), EQUALS, Param(d, k + 1)] +
         AssignmentTokens(r[1..], true, k + 1, d)
  }

  function RowsTokens(rowCount: nat, width: nat, lead: bool, k: nat, d: Dialect): seq<Tok> {
    if rowCount == 0 then []
    else (if lead then [COMMA] else []) + [LP] + Separated(Holes(width, k, d), COMMA, false) + [RP] +
         RowsTokens(rowCount - 1, width, true, k + width, d)
  }

  function ConflictTokens(oc: Option<OnConflict>, k: nat, d: Dialect): seq<Tok> {
    if oc.None? then []
    else match oc.value
      case OnConflict(DoNothing, None, _) => [Text(" ON CONFLICT DO NOTHING")]
      case OnConflict(DoNothing, Some(cols), _) =>
        [Text(" ON CONFLICT "), LP] + ColumnList(cols, COMMA) + [RP, Text(" DO NOTHING")]
      case OnConflict(DoUpdate, Some(cols), Some(sets)) =>
        [Text(" ON CONFLICT "), LP] + ColumnList(cols, COMMA) + [RP, Text(" DO UPDATE SET ")] +
        AssignmentTokens(sets, false, k, d)
      case _ => []
  }

  /** Where the parts of a SELECT find the parameter counter. */
  function WhereStart(p: Plan): nat
    requires p.Select?
  {
    |JsonValues(p.jsonOps)| + |FromValues(p.from)| + |FtsValues(p.fts)|
  }

  function HavingStart(p: Plan): nat
    requires p.Select?
  {
    WhereStart(p) + |FiltersValues(p.filters)| + |RawValues(p.rawFilters)|
  }

  function UnionStart(p: Plan): nat
    requires p.Select?
  {
    HavingStart(p) + |FiltersValues(p.having)|
  }

  function WithStart(p: Plan): nat
    requires p.Select?
  {
    UnionStart(p) + |BranchesValues(p.unions)|
  }

  /** Everything between the FROM clause and the set operations. */
  function MiddleTokens(p: Plan, d: Dialect): seq<Tok>
    requires p.Select?
    decreases p, 0
  {
    JoinClause(p.joins) +
    WhereTokens(p.filters, p.rawFilters, WhereStart(p), d) +
    FtsTokens(p, |JsonValues(p.jsonOps)| + |FromValues(p.from)|, d) +
    GroupClause(p.groupBy) +
    HavingTokens(p.having, HavingStart(p), d) +
    TailClause(p.tail)
  }

  function SelectTokens(p: Plan, inherited: seq<string>, d: Dialect): seq<Tok>
    requires p.Select?
    decreases p, 1
  {
    var columns := EffectiveColumns(p, inherited);
    if p.deny then SelectHead(p, columns, [Ident(p.table)], d) + [Text(" WHERE 1=0")]
    else
      WithTokens(p.ctes, WithStart(p), d) +
      SelectHead(p, columns, FromTokens(p, d), d) +
      MiddleTokens(p, d) +
      BranchesTokens(p.unions, [], false, UnionStart(p), columns, d)
  }

  function PlanTokens(p: Plan, inherited: seq<string>, d: Dialect): seq<Tok>
    decreases p, 2
  {
    match p
    case Select(_, _, _, _, _, _, _, _, _, _, _, _, _, _, _, _, _, _) => SelectTokens(p, inherited, d)
    case Insert(table, rows, oc, returning) =>
      var keys := InsertKeys(rows);
      [Text("INSERT INTO "), Ident(table), Text(" "), LP] + ColumnList(keys, COMMA) + [RP, Text(" VALUES ")] +
      RowsTokens(|rows|, |keys|, false, 0, d) +
      ConflictTokens(oc, |RowsValues(rows, keys)|, d) +
      ReturningClause(returning, SupportsReturning(d))
    case Update(table, sets, fs, raws, returning) =>
      [Text("UPDATE "), Ident(table), Text(" SET ")] + AssignmentTokens(sets, false, 0, d) +
      WhereTokens(fs, raws, |sets|, d) + ReturningClause(returning, SupportsReturning(d))
    case Delete(table, fs, raws, returning) =>
      [Text("DELETE FROM "), Ident(table)] + WhereTokens(fs, raws, 0, d) +
          ReturningClause(returning, SupportsReturning(d))
  }
}
