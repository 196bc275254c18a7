/** The reference rendering: the statement a plan stands for, with every value written in place.
    It knows nothing of parameters, numbering or dialect placeholders. */
module Reference {
  import opened Wrappers
  import opened Plans

  function Literals(vs: seq<Value>): seq<Tok> {
    seq(|vs|, i requires 0 <= i < |vs| => Lit(vs[i]))
  }

  function RefFilter(f: Filter, canReturn: bool): seq<Tok> {
    match f
    case Compare(c, In, v) => [Ident(c), OpText(In), LP] + Separated(Literals(InList(v)), COMMA, false) + [RP]
    case Compare(c, Between, v) => [Ident(c), OpText(Between), Lit(BetweenLow(v)), AND, Lit(BetweenHigh(v))]
    case Compare(c, op, v) => [Ident(c), OpText(op), Lit(v)]
    case And(fs) => [LP] + RefFilters(fs, AND, false, canReturn) + [RP]
    case Or(fs) => [LP] + RefFilters(fs, OR, false, canReturn) + [RP]
    case Subquery(c, op, p) =>
      (if (op.InPlan? || op.NotInPlan?) && c != "" then [Ident(c)] else []) +
      [SubqueryText(op), LP] + RefPlan(p, [], canReturn) + [RP]
  }

  function RefFilters(fs: seq<Filter>, sep: Tok, lead: bool, canReturn: bool): seq<Tok>
    decreases fs, 0
  {
    if fs == [] then []
    else (if lead then [sep] else []) + RefFilter(fs[0], canReturn) + RefFilters(fs[1..], sep, true, canReturn)
  }

  function ShownHole(params: seq<Value>): nat -> Tok {
    (n: nat) => Lit(ParamOf(params, n))
  }

  /** Every raw filter shows its own parameters. */
  function RefRaws(raws: seq<RawFilter>, lead: bool): seq<Tok> {
    if raws == [] then []
    else (if lead then [AND] else []) + RawTokens(raws[0].expr, ShownHole(raws[0].params)) + RefRaws(raws[1..], true)
  }

  function RefWhere(fs: seq<Filter>, raws: seq<RawFilter>, canReturn: bool): seq<Tok>
    decreases fs, 1
  {
    if fs == [] && raws == [] then []
    else [Text(" WHERE ")] + RefFilters(fs, AND, false, canReturn) + RefRaws(raws, fs != [])
  }

  function RefFts(p: Plan): seq<Tok>
    requires p.Select?
  {
    if p.fts.None? then []
    else [if p.filters == [] then Text(" WHERE ") else AND] + FtsCondition(p.table, p.fts.value, Lit(p.fts.value.query))
  }

  function RefHaving(having: seq<Filter>, canReturn: bool): seq<Tok>
    decreases having, 1
  {
    if having == [] then [] else [Text(" HAVING ")] + RefFilters(having, AND, false, canReturn)
  }

  function RefJson(ops: seq<JsonOp>, lead: bool): seq<Tok> {
    if ops == [] then []
    else (if lead then [COMMA] else []) + RefJsonOp(ops[0]) + RefJson(ops[1..], true)
  }

  function RefJsonOp(op: JsonOp): seq<Tok> {
    match op
    case JsonSet(c, path, v, alias) => JsonSetCall(c, path, Lit(v), alias)
    case JsonText(text) => [Opaque(text)]
  }

  function RefItems(p: Plan, columns: seq<string>): seq<Tok>
    requires p.Select?
  {
    if columns == [] && p.windows == [] && p.jsonOps == [] && p.expressions == [] then [Text("*")]
    else
      Separated(Idents(columns), COMMA, false) +
      Separated(Opaques(p.windows), COMMA, columns != []) +
      RefJson(p.jsonOps, columns != [] || p.windows != []) +
      Separated(Opaques(p.expressions), COMMA, columns != [] || p.windows != [] || p.jsonOps != [])
  }

  function RefFrom(p: Plan, canReturn: bool): seq<Tok>
    requires p.Select?
    decreases p, 0
  {
    if IsFts5(p.fts) then Fts5Source(p.table, p.fts.value)
    else if p.from.FromPlan? then
      [LP] + RefPlan(p.from.query, [], canReturn) + [RP, Text(" AS "), Ident(p.from.alias)]
    else [Ident(p.table)]
  }

  function RefBranch(b: Branch, inherited: seq<string>, canReturn: bool): seq<Tok> {
    match b
    case UnionBranch(op, q) => [SetOpText(op), LP] + RefPlan(q, inherited, canReturn) + [RP]
    case WithQuery(_, _, q) => WithHead(b) + RefPlan(q, [], canReturn) + [RP]
  }

  function RefBranches(bs: seq<Branch>, sep: seq<Tok>, lead: bool, inherited: seq<string>, canReturn: bool): seq<Tok>
    decreases bs, 0
  {
    if bs == [] then []
    else
      (if lead then sep else []) + RefBranch(bs[0], inherited, canReturn) +
      RefBranches(bs[1..], sep, true, inherited, canReturn)
  }

  function RefWith(ctes: seq<Branch>, canReturn: bool): seq<Tok>
    decreases ctes, 1
  {
    if ctes == [] then [] else [Text("WITH ")] + RefBranches(ctes, [COMMA], false, [], canReturn) + [Text(" ")]
  }

  function RefHead(p: Plan, columns: seq<string>, source: seq<Tok>): seq<Tok>
    requires p.Select?
  {
    [Text("SELECT ")] + DistinctClause(p.distinct, p.distinctOn) + RefItems(p, columns) + [Text(" FROM ")] + source
  }

  function RefAssignments(r: Record, lead: bool): seq<Tok> {
    if r == [] then []
    else (if lead then [COMMA] else []) + [Ident(r[0].0), EQUALS, Lit(r[0].1)] + RefAssignments(r[1..], true)
  }

  function RefRow(row: Record, keys: seq<string>): seq<Tok> {
    seq(|keys|, i requires 0 <= i < |keys| => Lit(Lookup(row, keys[i])))
  }

  /** One parenthesised tuple a row, holding that row's value for each key of the first row. */
  function RefRows(rows: seq<Record>, keys: seq<string>, lead: bool): seq<Tok> {
    if rows == [] then []
    else (if lead then [COMMA] else []) + [LP] +
         Separated(RefRow(rows[0], keys), COMMA, false) + [RP] +
         RefRows(rows[1..], keys, true)
  }

  function RefConflict(oc: Option<OnConflict>): seq<Tok> {
    if oc.None? then []
    else match oc.value
      case OnConflict(DoNothing, None, _) => [Text(" ON CONFLICT DO NOTHING")]
      case OnConflict(DoNothing, Some(cols), _) =>
        [Text(" ON CONFLICT "), LP] + ColumnList(cols, COMMA) + [RP, Text(" DO NOTHING")]
      case OnConflict(DoUpdate, Some(cols), Some(sets)) =>
        [Text(" ON CONFLICT "), LP] + ColumnList(cols, COMMA) + [RP, Text(" DO UPDATE SET ")] +
        RefAssignments(sets, false)
      case _ => []
  }

  function RefMiddle(p: Plan, canReturn: bool): seq<Tok>
    requires p.Select?
    decreases p, 0
  {
    JoinClause(p.joins) + RefWhere(p.filters, p.rawFilters, canReturn) + RefFts(p) +
    GroupClause(p.groupBy) + RefHaving(p.having, canReturn) + TailClause(p.tail)
  }

  function RefSelect(p: Plan, inherited: seq<string>, canReturn: bool): seq<Tok>
    requires p.Select?
    decreases p, 1
  {
    var columns := EffectiveColumns(p, inherited);
    if p.deny then RefHead(p, columns, [Ident(p.table)]) + [Text(" WHERE 1=0")]
    else
      RefWith(p.ctes, canReturn) +
      RefHead(p, columns, RefFrom(p, canReturn)) +
      RefMiddle(p, canReturn) +
      RefBranches(p.unions, [], false, columns, canReturn)
  }

  function RefPlan(p: Plan, inherited: seq<string>, canReturn: bool): seq<Tok>
    decreases p, 2
  {
    match p
    case Select(_, _, _, _, _, _, _, _, _, _, _, _, _, _, _, _, _, _) => RefSelect(p, inherited, canReturn)
    case Insert(table, rows, oc, returning) =>
      var keys := if rows == [] then [] else Keys(rows[0]);
      [Text("INSERT INTO "), Ident(table), Text(" "), LP] + ColumnList(keys, COMMA) + [RP, Text(" VALUES ")] +
      RefRows(rows, keys, false) + RefConflict(oc) + ReturningClause(returning, canReturn)
    case Update(table, sets, fs, raws, returning) =>
      [Text("UPDATE "), Ident(table), Text(" SET ")] + RefAssignments(sets, false) +
      RefWhere(fs, raws, canReturn) + ReturningClause(returning, canReturn)
    case Delete(table, fs, raws, returning) =>
      [Text("DELETE FROM "), Ident(table)] + RefWhere(fs, raws, canReturn) + ReturningClause(returning, canReturn)
  }
}
