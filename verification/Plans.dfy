/** The QueryPlan intermediate representation and the token stream a plan is printed to. */
module Plans {
  import opened Wrappers
  import opened Rewriting

  /** A JavaScript value as it can reach the parameter list. */
  datatype Value = Undefined | Null | Num(n: int) | Str(s: string) | Arr(elems: seq<Value>)

  datatype Comparator = Eq | Gt | Lt | Ge | Le | Ne | Like | In | Is | IsNot | Between

  datatype SubqueryOp = Exists | NotExists | InPlan | NotInPlan

  datatype Filter =
    | Compare(column: string, op: Comparator, value: Value)
    | And(filters: seq<Filter>)
    | Or(filters: seq<Filter>)
      // an absent column is the empty string, which the compiler also treats as absent
    | Subquery(column: string, subOp: SubqueryOp, plan: Plan)

  /** The author's n-th placeholder in raw text, and the text after it. A digit that followed would
      belong to the placeholder. */
  datatype RawPlace = RawPlace(n: nat, after: string)
  type RawHole = h: RawPlace | HeadNotDigit(h.after) witness RawPlace(1, "")

  /** Raw text as the database of the dialect reads it: its placeholders are ? in SQLite and MySQL,
      where they count by position, and $n in PostgreSQL. */
  datatype RawText = RawText(head: string, holes: seq<RawHole>)

  /** A raw WHERE expression, lexed at its top level: opaque factors joined by AND and OR.
      Parenthesised parts stay inside a factor. */
  datatype RawExpr =
    | Factor(text: RawText)
    | AndThen(text: RawText, others: RawExpr)
    | OrThen(text: RawText, others: RawExpr)

  /** `params` is what the author of the expression bound to its placeholders. */
  datatype RawFilter = RawFilter(expr: RawExpr, params: seq<Value>)

  datatype JsonOp =
    | JsonSet(column: string, path: string, value: Value, alias: string)
    | JsonText(text: string) // every other JSON operation: no value is bound

  datatype FtsMode = Fts5 | TsVector | FullText

  datatype Fts = Fts(mode: FtsMode, columns: seq<string>, query: Value, tableAlias: Option<string>)

  datatype FromSource = FromTable | FromPlan(query: Plan, alias: string)

  datatype SetOp = Union | UnionAll | Intersect | Except

  /** A plan attached to a SELECT: `unions` holds UnionBranch values, `ctes` WithQuery values. */
  datatype Branch =
    | UnionBranch(setOp: SetOp, query: Plan)
    | WithQuery(name: string, columns: seq<string>, query: Plan)

  /** The keys of a JavaScript record in insertion order, with their values. */
  type Record = seq<(string, Value)>

  datatype ConflictAction = DoNothing | DoUpdate

  datatype OnConflict =
    OnConflict(action: ConflictAction, target: Option<seq<string>>, assignments: Option<Record>)

  /** A query plan, one constructor per `op`. Select clauses that can never bind a value
      (window functions, aggregates, joins, ORDER BY, LIMIT, locks) are opaque text. */
  datatype Plan =
    | Select(table: string, columns: seq<string>, distinct: bool, distinctOn: seq<string>,
             windows: seq<string>, jsonOps: seq<JsonOp>, expressions: seq<string>,
             deny: bool, joins: seq<string>, from: FromSource, fts: Option<Fts>,
             filters: seq<Filter>, rawFilters: seq<RawFilter>,
             groupBy: seq<string>, having: seq<Filter>, tail: seq<string>,
             unions: seq<Branch>, ctes: seq<Branch>)
    | Insert(table: string, rows: seq<Record>, onConflict: Option<OnConflict>, returning: seq<string>)
    | Update(table: string, assignments: Record,
             filters: seq<Filter>, rawFilters: seq<RawFilter>, returning: seq<string>)
    | Delete(table: string, filters: seq<Filter>, rawFilters: seq<RawFilter>, returning: seq<string>)

  datatype Dialect = Sqlite | Postgres | Mysql

  predicate SupportsReturning(d: Dialect) {
    !d.Mysql?
  }

  /** One lexeme of a statement. `Lit` occurs only in reference renderings. */
  datatype Tok =
    | Text(s: string)     // a keyword or punctuation written by the compiler
    | Opaque(s: string)   // text passed through from the plan
    | Ident(id: string)   // a quoted identifier
    | Mark                // the positional placeholder ?
    | Dollar(n: nat)      // the numbered placeholder $n
    | Lit(v: Value)       // a value written in place

  /** The placeholder of the i-th parameter, counted from 1. */
  function Param(d: Dialect, i: nat): Tok {
    if d.Postgres? then Dollar(i) else Mark
  }

  /** Element i of an array argument; JavaScript reads past the end as undefined. */
  function At(values: seq<Value>, i: nat): Value {
    if i < |values| then values[i] else Undefined
  }

  function Lookup(r: Record, key: string): Value {
    if r == [] then Undefined else if r[0].0 == key then r[0].1 else Lookup(r[1..], key)
  }

  function Keys(r: Record): seq<string> {
    seq(|r|, i requires 0 <= i < |r| => r[i].0)
  }

  function Values(r: Record): seq<Value> {
    seq(|r|, i requires 0 <= i < |r| => r[i].1)
  }

  /** The values a list filter binds: the array, or the scalar taken as a one-element array. */
  function InList(v: Value): seq<Value> {
    if v.Arr? then v.elems else [v]
  }

  function BetweenLow(v: Value): Value {
    if v.Arr? then At(v.elems, 0) else v
  }

  function BetweenHigh(v: Value): Value {
    if v.Arr? then At(v.elems, 1) else v
  }

  const LP: Tok := Text("(")
  const RP: Tok := Text(")")
  const COMMA: Tok := Text(", ")
  const AND: Tok := Text(" AND ")
  const OR: Tok := Text(" OR ")
  const EQUALS: Tok := Text(" = ")

  function OpText(op: Comparator): Tok {
    match op
    case Eq => Text(" = ")
    case Gt => Text(" > ")
    case Lt => Text(" < ")
    case Ge => Text(" >= ")
    case Le => Text(" <= ")
    case Ne => Text(" != ")
    case Like => Text(" LIKE ")
    case In => Text(" IN ")
    case Is => Text(" IS ")
    case IsNot => Text(" IS NOT ")
    case Between => Text(" BETWEEN ")
  }

  function SubqueryText(op: SubqueryOp): Tok {
    match op
    case Exists => Text("EXISTS ")
    case NotExists => Text("NOT EXISTS ")
    case InPlan => Text(" IN ")
    case NotInPlan => Text(" NOT IN ")
  }

  function SetOpText(op: SetOp): Tok {
    match op
    case Union => Text(" UNION ")
    case UnionAll => Text(" UNION ALL ")
    case Intersect => Text(" INTERSECT ")
    case Except => Text(" EXCEPT ")
  }

  // ---- clauses that never carry a placeholder, shared by the compiler and the reference ----

  /** Items separated by a token; `lead` says that something was already written before them. */
  function Separated(items: seq<Tok>, sep: Tok, lead: bool): seq<Tok> {
    if items == [] then []
    else (if lead then [sep] else []) + [items[0]] + Separated(items[1..], sep, true)
  }

  function Idents(names: seq<string>): seq<Tok> {
    seq(|names|, i requires 0 <= i < |names| => Ident(names[i]))
  }

  function Opaques(texts: seq<string>): seq<Tok> {
    seq(|texts|, i requires 0 <= i < |texts| => Opaque(texts[i]))
  }

  function ColumnList(names: seq<string>, sep: Tok): seq<Tok> {
    Separated(Idents(names), sep, false)
  }

  function DistinctClause(distinct: bool, distinctOn: seq<string>): seq<Tok> {
    if distinctOn != [] then
      [Text("DISTINCT ON "), LP] + ColumnList(distinctOn, COMMA) + [RP, Text(" ")]
    else if distinct then [Text("DISTINCT ")]
    else []
  }

  function GroupClause(groupBy: seq<string>): seq<Tok> {
    if groupBy == [] then [] else [Text(" GROUP BY ")] + ColumnList(groupBy, COMMA)
  }

  function TailClause(tail: seq<string>): seq<Tok> {
    Separated(Opaques(tail), Text(" "), true)
  }

  function JoinClause(joins: seq<string>): seq<Tok> {
    Separated(Opaques(joins), Text(" "), true)
  }

  /** The FTS5 source that takes the place of the FROM clause. */
  function Fts5Source(table: string, fts: Fts): seq<Tok> {
    var alias := if fts.tableAlias.Some? then fts.tableAlias.value else "fts";
    var ftsTable := if fts.tableAlias.Some? then fts.tableAlias.value else table + "_fts";
    [Opaque(ftsTable), Text(" AS "), Ident(alias), Text(" JOIN "), Ident(table), Text(" ON "),
     Ident(alias), Text(".rowid = "), Ident(table), Text(".rowid")]
  }

  /** The full-text condition around its one placeholder or value. */
  function FtsCondition(table: string, fts: Fts, hole: Tok): seq<Tok> {
    match fts.mode
    case Fts5 =>
      [if fts.tableAlias.Some? then Opaque(fts.tableAlias.value) else Ident(table), Text(" MATCH "), hole]
    case TsVector =>
      [Text("to_tsvector"), LP] + ColumnList(fts.columns, Text(" || ' ' || ")) +
      [RP, Text(" @@ plainto_tsquery"), LP, hole, RP]
    case FullText =>
      [Text("MATCH "), LP] + ColumnList(fts.columns, COMMA) + [RP, Text(" AGAINST "), LP, hole, RP]
  }

  function JsonSetCall(column: string, path: string, hole: Tok, alias: string): seq<Tok> {
    [Text("json_set"), LP, Ident(column), COMMA, Opaque(path), COMMA, hole, RP, Text(" AS "), Ident(alias)]
  }

  function HolesTokens(holes: seq<RawHole>, hole: nat -> Tok): seq<Tok> {
    if holes == [] then [] else [hole(holes[0].n), Opaque(holes[0].after)] + HolesTokens(holes[1..], hole)
  }

  function RawTextTokens(text: RawText, hole: nat -> Tok): seq<Tok> {
    [Opaque(text.head)] + HolesTokens(text.holes, hole)
  }

  /** A raw filter exactly as its author wrote it, without parentheses around it; `hole` says what
      stands at its n-th placeholder. */
  function RawTokens(e: RawExpr, hole: nat -> Tok): seq<Tok> {
    match e
    case Factor(text) => RawTextTokens(text, hole)
    case AndThen(text, others) => RawTextTokens(text, hole) + [AND] + RawTokens(others, hole)
    case OrThen(text, others) => RawTextTokens(text, hole) + [OR] + RawTokens(others, hole)
  }

  /** The n-th parameter of a raw filter; there is nothing behind the last one. */
  function ParamOf(params: seq<Value>, n: nat): Value {
    if n == 0 then Undefined else At(params, n - 1)
  }

  /** The numbers of the placeholders of a raw expression, in text order. */
  function RawHoles(e: RawExpr): seq<nat> {
    match e
    case Factor(text) => HoleNumbers(text.holes)
    case AndThen(text, others) => HoleNumbers(text.holes) + RawHoles(others)
    case OrThen(text, others) => HoleNumbers(text.holes) + RawHoles(others)
  }

  function HoleNumbers(holes: seq<RawHole>): seq<nat> {
    seq(|holes|, i requires 0 <= i < |holes| => holes[i].n)
  }

  function ReturningClause(returning: seq<string>, canReturn: bool): seq<Tok> {
    if canReturn && returning != [] then
      [Text(" RETURNING ")] +
      Separated(seq(|returning|, i requires 0 <= i < |returning| =>
        if returning[i] == "*" then Text("*") else Ident(returning[i])), COMMA, false)
    else []
  }

  function WithHead(b: Branch): seq<Tok>
    requires b.WithQuery?
  {
    [Ident(b.name)] +
    (if b.columns == [] then []
     else [Text(" "), LP] + Separated(Opaques(b.columns), COMMA, false) + [RP]) +
    [Text(" AS "), LP]
  }

  /** A UNION branch without columns of its own takes its parent's. */
  function EffectiveColumns(p: Plan, inherited: seq<string>): seq<string>
    requires p.Select?
  {
    if p.columns == [] then inherited else p.columns
  }

  predicate IsFts5(fts: Option<Fts>) {
    fts.Some? && fts.value.mode.Fts5?
  }
}
