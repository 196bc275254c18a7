/** The compiled statement as text: the string templates of the compiler, joined as it joins them. They
    share no keyword and no list with the token stream, and every plan compiles to exactly this text. */
module Sql {
  import opened Wrappers
  import opened Rewriting
  import opened Plans
  import opened Emission
  import opened Lexical
  import Dialects

  // ---- names, placeholders and lists ----

  /** `parts.join(sep)` */
  function JoinText(parts: seq<string>, sep: string): string {
    if parts == [] then "" else if |parts| == 1 then parts[0] else parts[0] + sep + JoinText(parts[1..], sep)
  }

  function Doubled(s: string, quote: char): string {
    if s == "" then ""
    else Doubled(s[..|s| - 1], quote) + if s[|s| - 1] == quote then [quote, quote] else [s[|s| - 1]]
  }

  /** `quoteIdent` */
  function Quoted(id: string, d: Dialect): string {
    match d
    case Mysql => "`" + Doubled(id, '`') + "`"
    case _ => "\"" + Doubled(id, '"') + "\""
  }

  function QuotedAll(names: seq<string>, d: Dialect): (r: seq<string>)
    ensures |r| == |names|
  {
    seq(|names|, i requires 0 <= i < |names| => Quoted(names[i], d))
  }

  /** `param(i)` */
  function Placeholder(i: nat, d: Dialect): string {
    match d
    case Postgres => "$" + Digits(i)
    case _ => "?"
  }

  function PlaceholdersFrom(k: nat, count: nat, d: Dialect): seq<string> {
    seq(count, i requires 0 <= i < count => Placeholder(k + 1 + i, d))
  }

  // ---- templates ----

  function Operator(op: Comparator): string {
    match op
    case Eq => "="
    case Gt => ">"
    case Lt => "<"
    case Ge => ">="
    case Le => "<="
    case Ne => "!="
    case Like => "LIKE"
    case In => "IN"
    case Is => "IS"
    case IsNot => "IS NOT"
    case Between => "BETWEEN"
  }

  /** What opens a subquery. */
  function Opened(op: SubqueryOp): string {
    match op
    case Exists => "EXISTS ("
    case NotExists => "NOT EXISTS ("
    case InPlan => " IN ("
    case NotInPlan => " NOT IN ("
  }

  function FilterSql(f: Filter, k: nat, d: Dialect): string {
    match f
    case Compare(c, In, v) => Quoted(c, d) + " IN (" + JoinText(PlaceholdersFrom(k, |InList(v)|, d), ", ") + ")"
    case Compare(c, Between, v) =>
      Quoted(c, d) + " BETWEEN " + Placeholder(k + 1, d) + " AND " + Placeholder(k + 2, d)
    case Compare(c, op, v) => Quoted(c, d) + " " + Operator(op) + " " + Placeholder(k + 1, d)
    case And(fs) => "(" + JoinText(FiltersSql(fs, k, d), " AND ") + ")"
    case Or(fs) => "(" + JoinText(FiltersSql(fs, k, d), " OR ") + ")"
    case Subquery(c, op, p) =>
      (if op.Exists? || op.NotExists? || c == "" then "" else Quoted(c, d)) + Opened(op) + PlanSql(p, [], d) + ")"
  }

  function FiltersSql(fs: seq<Filter>, k: nat, d: Dialect): (r: seq<string>)
    ensures |r| == |fs|
    decreases fs, 0
  {
    if fs == [] then [] else [FilterSql(fs[0], k, d)] + FiltersSql(fs[1..], k + |FilterValues(fs[0])|, d)
  }

  function RawHolesSql(holes: seq<RawHole>, d: Dialect): string {
    if holes == [] then "" else Placeholder(holes[0].n, d) + holes[0].after + RawHolesSql(holes[1..], d)
  }

  function RawSql(e: RawExpr, d: Dialect): string {
    match e
    case Factor(text) => text.head + RawHolesSql(text.holes, d)
    case AndThen(text, others) => text.head + RawHolesSql(text.holes, d) + " AND " + RawSql(others, d)
    case OrThen(text, others) => text.head + RawHolesSql(text.holes, d) + " OR " + RawSql(others, d)
  }

  function RawsSql(raws: seq<RawFilter>, d: Dialect): seq<string> {
    if raws == [] then [] else [RawSql(raws[0].expr, d)] + RawsSql(raws[1..], d)
  }

  function WhereSql(fs: seq<Filter>, raws: seq<RawFilter>, k: nat, d: Dialect): string
    decreases fs, 1
  {
    if fs == [] && raws == [] then "" else " WHERE " + JoinText(FiltersSql(fs, k, d) + RawsSql(raws, d), " AND ")
  }

  /** `compileFts` */
  function ConditionSql(table: string, fts: Fts, hole: string, d: Dialect): string {
    match fts.mode
    case Fts5 => (if fts.tableAlias.Some? then fts.tableAlias.value else Quoted(table, d)) + " MATCH " + hole
    case TsVector =>
      "to_tsvector" + "(" + JoinText(QuotedAll(fts.columns, d), " || ' ' || ") + ")" + " @@ plainto_tsquery" + "(" +
      hole + ")"
    case FullText =>
      "MATCH " + "(" + JoinText(QuotedAll(fts.columns, d), ", ") + ")" + " AGAINST " + "(" + hole + ")"
  }

  /** The search with the keyword before it. */
  function SearchSql(table: string, fts: Fts, first: bool, k: nat, d: Dialect): string {
    (if first then " WHERE " else " AND ") + ConditionSql(table, fts, Placeholder(k + 1, d), d)
  }

  function JsonPart(op: JsonOp, k: nat, d: Dialect): string {
    match op
    case JsonSet(c, path, _, alias) =>
      "json_set" + "(" + Quoted(c, d) + ", " + path + ", " + Placeholder(k + 1, d) + ")" + " AS " + Quoted(alias, d)
    case JsonText(text) => text
  }

  function JsonSql(ops: seq<JsonOp>, k: nat, d: Dialect): (r: seq<string>)
    ensures |r| == |ops|
  {
    if ops == [] then [] else [JsonPart(ops[0], k, d)] + JsonSql(ops[1..], k + |JsonOpValues(ops[0])|, d)
  }

  function ItemsSql(p: Plan, columns: seq<string>, d: Dialect): string
    requires p.Select?
  {
    var parts := QuotedAll(columns, d) + p.windows + JsonSql(p.jsonOps, 0, d) + p.expressions;
    if parts == [] then "*" else JoinText(parts, ", ")
  }

  function DistinctSql(distinct: bool, distinctOn: seq<string>, d: Dialect): string {
    if distinctOn != [] then "DISTINCT ON (" + JoinText(QuotedAll(distinctOn, d), ", ") + ") "
    else if distinct then "DISTINCT " else ""
  }

  function Fts5Sql(table: string, named: Option<string>, d: Dialect): string {
    var alias := if named.Some? then named.value else "fts";
    (if named.Some? then named.value else table + "_fts") + " AS " + Quoted(alias, d) + " JOIN " + Quoted(table, d) +
    " ON " + Quoted(alias, d) + ".rowid = " + Quoted(table, d) + ".rowid"
  }

  function SourceSql(p: Plan, d: Dialect): string
    requires p.Select?
    decreases p, 0
  {
    if p.fts.Some? && p.fts.value.mode.Fts5? then
      Fts5Sql(p.table, p.fts.value.tableAlias, d)
    else if p.from.FromPlan? then "(" + PlanSql(p.from.query, [], d) + ")" + " AS " + Quoted(p.from.alias, d)
    else Quoted(p.table, d)
  }

  function GroupSql(groupBy: seq<string>, d: Dialect): string {
    if groupBy == [] then "" else " GROUP BY " + JoinText(QuotedAll(groupBy, d), ", ")
  }

  function HavingSql(having: seq<Filter>, k: nat, d: Dialect): string
    decreases having, 1
  {
    if having == [] then "" else " HAVING " + JoinText(FiltersSql(having, k, d), " AND ")
  }

  /** Joins, ordering, limits and locks come each with a space before it. */
  function SpacedOut(parts: seq<string>): string {
    if parts == [] then "" else " " + parts[0] + SpacedOut(parts[1..])
  }

  /** What opens a UNION branch. */
  function SetOpened(op: SetOp): string {
    match op
    case Union => " UNION ("
    case UnionAll => " UNION ALL ("
    case Intersect => " INTERSECT ("
    case Except => " EXCEPT ("
  }

  function WithHeadSql(name: string, columns: seq<string>, d: Dialect): string {
    Quoted(name, d) + (if columns == [] then "" else " (" + JoinText(columns, ", ") + ")") + " AS ("
  }

  /** A UNION branch, renumbered as text, or a WITH query. */
  function BranchSql(b: Branch, k: nat, inherited: seq<string>, d: Dialect): string {
    match b
    case UnionBranch(op, q) =>
      SetOpened(op) +
      (if d.Postgres? then ReplaceDollars(PlanSql(q, inherited, d), (n: nat) => "$" + Digits(n + k))
       else PlanSql(q, inherited, d)) + ")"
    case WithQuery(name, columns, q) =>
      WithHeadSql(name, columns, d) + PlanSql(q, [], d) + ")"
  }

  function BranchesSql(bs: seq<Branch>, k: nat, inherited: seq<string>, d: Dialect): (r: seq<string>)
    ensures |r| == |bs|
    decreases bs, 0
  {
    if bs == [] then []
    else [BranchSql(bs[0], k, inherited, d)] + BranchesSql(bs[1..], k + |BranchValues(bs[0])|, inherited, d)
  }

  function WithSql(ctes: seq<Branch>, k: nat, d: Dialect): string
    decreases ctes, 1
  {
    if ctes == [] then "" else "WITH " + JoinText(BranchesSql(ctes, k, [], d), ", ") + " "
  }

  function SelectSql(p: Plan, inherited: seq<string>, d: Dialect): string
    requires p.Select?
    decreases p, 1
  {
    var columns := if p.columns == [] then inherited else p.columns;
    var head := "SELECT " + DistinctSql(p.distinct, p.distinctOn, d) + ItemsSql(p, columns, d) + " FROM ";
    if p.deny then head + Quoted(p.table, d) + " WHERE 1=0"
    else
      WithSql(p.ctes, WithStart(p), d) +
      (head + SourceSql(p, d)) +
      (SpacedOut(p.joins) + WhereSql(p.filters, p.rawFilters, WhereStart(p), d) +
       (if p.fts.None? then ""
        else SearchSql(p.table, p.fts.value, p.filters == [], |JsonValues(p.jsonOps)| + |FromValues(p.from)|, d)) +
       GroupSql(p.groupBy, d) + HavingSql(p.having, HavingStart(p), d) + SpacedOut(p.tail)) +
      JoinText(BranchesSql(p.unions, UnionStart(p), columns, d), "")
  }

  function AssignmentsSql(r: Record, k: nat, d: Dialect): seq<string> {
    seq(|r|, i requires 0 <= i < |r| => Quoted(r[i].0, d) + " = " + Placeholder(k + 1 + i, d))
  }

  function RowsSql(count: nat, width: nat, k: nat, d: Dialect): seq<string> {
    if count == 0 then []
    else ["(" + JoinText(PlaceholdersFrom(k, width, d), ", ") + ")"] + RowsSql(count - 1, width, k + width, d)
  }

  function ConflictSql(oc: Option<OnConflict>, k: nat, d: Dialect): string {
    if oc.None? then ""
    else if oc.value.target.None? then if oc.value.action.DoNothing? then " ON CONFLICT DO NOTHING" else ""
    else
      var target := " ON CONFLICT (" + JoinText(QuotedAll(oc.value.target.value, d), ", ") + ")";
      if oc.value.action.DoNothing? then target + " DO NOTHING"
      else if oc.value.assignments.Some? then
        target + " DO UPDATE SET " + JoinText(AssignmentsSql(oc.value.assignments.value, k, d), ", ")
      else ""
  }

  function ReturningSql(returning: seq<string>, d: Dialect): string {
    if d.Mysql? || returning == [] then ""
    else
      " RETURNING " + JoinText(seq(|returning|, i requires 0 <= i < |returning| =>
        if returning[i] == "*" then "*" else Quoted(returning[i], d)), ", ")
  }

  /** The `sql` of `compilePlan`. */
  function PlanSql(p: Plan, inherited: seq<string>, d: Dialect): string
    decreases p, 2
  {
    match p
    case Select(_, _, _, _, _, _, _, _, _, _, _, _, _, _, _, _, _, _) => SelectSql(p, inherited, d)
    case Insert(table, rows, oc, returning) =>
      var keys := if rows == [] then [] else Keys(rows[0]);
      "INSERT INTO " + Quoted(table, d) + " (" + JoinText(QuotedAll(keys, d), ", ") + ") VALUES " +
      JoinText(RowsSql(|rows|, |keys|, 0, d), ", ") + ConflictSql(oc, |RowsValues(rows, keys)|, d) +
      ReturningSql(returning, d)
    case Update(table, sets, fs, raws, returning) =>
      "UPDATE " + Quoted(table, d) + " SET " + JoinText(AssignmentsSql(sets, 0, d), ", ") +
      WhereSql(fs, raws, |sets|, d) + ReturningSql(returning, d)
    case Delete(table, fs, raws, returning) =>
      "DELETE FROM " + Quoted(table, d) + WhereSql(fs, raws, 0, d) + ReturningSql(returning, d)
  }

  // ---- rendering tokens gives the templates ----

  /** Two pieces of a template that the stream keeps apart. */
  lemma Glue(a: string, b: string, c: string, bc: string)
    requires b + c == bc
    ensures a + b + c == a + bc
  {
    assert a + b + c == a + (b + c);
  }

  lemma RenderNone(d: Dialect)
    ensures Render([], d) == ""
  {
  }

  lemma RenderOne(t: Tok, d: Dialect)
    ensures Render([t], d) == RenderTok(t, d)
  {
  }

  lemma RenderTwo(t: Tok, u: Tok, d: Dialect)
    ensures Render([t, u], d) == RenderTok(t, d) + RenderTok(u, d)
  {
    assert [t, u][1..] == [u];
    RenderOne(u, d);
  }

  lemma RenderThree(t: Tok, u: Tok, v: Tok, d: Dialect)
    ensures Render([t, u, v], d) == RenderTok(t, d) + RenderTok(u, d) + RenderTok(v, d)
  {
    assert [t, u, v][1..] == [u, v];
    RenderTwo(u, v, d);
  }

  lemma {:induction false} DoubledSame(s: string, quote: char)
    ensures Doubled(s, quote) == DoubleQuotes(s, quote)
  {
    if s != "" {
      DoubledSame(s[..|s| - 1], quote);
      DoubleQuotesConcat(s[..|s| - 1], s[|s| - 1..], quote);
      assert s == s[..|s| - 1] + s[|s| - 1..];
    }
  }

  lemma QuotedSame(id: string, d: Dialect)
    ensures RenderTok(Ident(id), d) == Quoted(id, d)
  {
    var quote := if d.Mysql? then '`' else '"';
    DoubledSame(id, quote);
    hide Doubled, DoubleQuotes;
    assert "`" == ['`'] && "\"" == ['"'];
    assert QuoteIdent(id, d) == [quote] + DoubleQuotes(id, quote) + [quote];
    assert Quoted(id, d) == [quote] + Doubled(id, quote) + [quote];
  }

  lemma ParamSame(i: nat, d: Dialect)
    ensures RenderTok(Param(d, i), d) == Placeholder(i, d)
  {
  }

  /** The parts of a list that may follow something. */
  function Led(parts: seq<string>, sep: string, lead: bool): string {
    if parts == [] then "" else (if lead then sep else "") + JoinText(parts, sep)
  }

  lemma LedNone(sep: string, lead: bool)
    ensures Led([], sep, lead) == ""
  {
  }

  lemma LedStep(part: string, parts: seq<string>, sep: string, lead: bool)
    ensures Led([part] + parts, sep, lead) == (if lead then sep else "") + part + Led(parts, sep, true)
  {
    assert ([part] + parts)[1..] == parts;
  }

  lemma {:induction false} JoinConcat(a: seq<string>, b: seq<string>, sep: string)
    ensures JoinText(a + b, sep) == JoinText(a, sep) + Led(b, sep, a != [])
  {
    if a == [] {
      assert a + b == b;
    } else {
      JoinConcat(a[1..], b, sep);
      assert (a + b)[1..] == a[1..] + b && (a + b)[0] == a[0];
    }
  }

  function Texts(items: seq<Tok>, d: Dialect): seq<string> {
    seq(|items|, i requires 0 <= i < |items| => RenderTok(items[i], d))
  }

  lemma KeywordText(s: string, d: Dialect)
    ensures RenderTok(Text(s), d) == s
  {
  }

  lemma {:induction false} SeparatedSame(items: seq<Tok>, sep: string, lead: bool, d: Dialect)
    ensures Render(Separated(items, Text(sep), lead), d) == Led(Texts(items, d), sep, lead)
  {
    hide Render, JoinText, Led, RenderTok;
    RenderNone(d);
    LedNone(sep, lead);
    if items == [] {
      assert Texts(items, d) == [];
    } else {
      var head := if lead then [Text(sep)] else [];
      KeywordText(sep, d);
      SeparatedSame(items[1..], sep, true, d);
      RenderConcat(head + [items[0]], Separated(items[1..], Text(sep), true), d);
      RenderConcat(head, [items[0]], d);
      RenderOne(items[0], d);
      RenderOne(Text(sep), d);
      assert Texts(items, d) == [RenderTok(items[0], d)] + Texts(items[1..], d);
      LedStep(RenderTok(items[0], d), Texts(items[1..], d), sep, lead);
    }
  }

  lemma NamesSame(names: seq<string>, sep: string, lead: bool, d: Dialect)
    ensures Render(Separated(Idents(names), Text(sep), lead), d) == Led(QuotedAll(names, d), sep, lead)
  {
    SeparatedSame(Idents(names), sep, lead, d);
    forall i | 0 <= i < |names| ensures Texts(Idents(names), d)[i] == QuotedAll(names, d)[i] {
      QuotedSame(names[i], d);
    }
    assert Texts(Idents(names), d) == QuotedAll(names, d);
  }

  lemma OpaquesSame(texts: seq<string>, sep: string, lead: bool, d: Dialect)
    ensures Render(Separated(Opaques(texts), Text(sep), lead), d) == Led(texts, sep, lead)
  {
    SeparatedSame(Opaques(texts), sep, lead, d);
    assert Texts(Opaques(texts), d) == texts;
  }

  lemma HolesSame(count: nat, k: nat, d: Dialect)
    ensures Render(Separated(Holes(count, k, d), COMMA, false), d) == JoinText(PlaceholdersFrom(k, count, d), ", ")
  {
    SeparatedSame(Holes(count, k, d), ", ", false, d);
    forall i | 0 <= i < count ensures Texts(Holes(count, k, d), d)[i] == PlaceholdersFrom(k, count, d)[i] {
      ParamSame(k + 1 + i, d);
    }
    assert Texts(Holes(count, k, d), d) == PlaceholdersFrom(k, count, d);
  }

  lemma Render3(a: seq<Tok>, b: seq<Tok>, c: seq<Tok>, d: Dialect)
    ensures Render(a + b + c, d) == Render(a, d) + Render(b, d) + Render(c, d)
  {
    RenderConcat(a + b, c, d);
    RenderConcat(a, b, d);
  }

  lemma Render4(a: seq<Tok>, b: seq<Tok>, c: seq<Tok>, e: seq<Tok>, d: Dialect)
    ensures Render(a + b + c + e, d) == Render(a, d) + Render(b, d) + Render(c, d) + Render(e, d)
  {
    RenderConcat(a + b + c, e, d);
    Render3(a, b, c, d);
  }

  // ---- filters ----

  lemma {:induction false} FilterSame(f: Filter, k: nat, d: Dialect)
    ensures Render(FilterTokens(f, k, d), d) == FilterSql(f, k, d)
  {
    hide Render, JoinText, FiltersTokens, FiltersSql, PlanTokens, PlanSql, Opened, Quoted, SubqueryText;
    match f
    case Compare(c, op, v) => CompareSame(c, op, v, k, d);
    case And(fs) => GroupSame(fs, AND, " AND ", k, d);
    case Or(fs) => GroupSame(fs, OR, " OR ", k, d);
    case Subquery(c, op, p) =>
      PlanSame(p, [], d);
      SubquerySame(c, op, PlanTokens(p, [], d), d);
  }

  lemma OperatorSame(op: Comparator)
    ensures OpText(op).Text? && OpText(op).s == " " + Operator(op) + " "
  {
  }

  lemma InSame(c: string, v: Value, k: nat, d: Dialect)
    ensures Render(FilterTokens(Compare(c, In, v), k, d), d) == FilterSql(Compare(c, In, v), k, d)
  {
    hide Render, JoinText, Quoted, QuoteIdent, Separated, Holes, PlaceholdersFrom;
    var list := Separated(Holes(|InList(v)|, k, d), COMMA, false);
    QuotedSame(c, d);
    HolesSame(|InList(v)|, k, d);
    Render3([Ident(c), OpText(In), LP], list, [RP], d);
    RenderThree(Ident(c), OpText(In), LP, d);
    RenderOne(RP, d);
    Glue(Quoted(c, d), " IN ", "(", " IN (");
  }

  lemma BetweenSame(c: string, v: Value, k: nat, d: Dialect)
    ensures Render(FilterTokens(Compare(c, Between, v), k, d), d) == FilterSql(Compare(c, Between, v), k, d)
  {
    hide Render, JoinText, Quoted, QuoteIdent, Placeholder, Param;
    QuotedSame(c, d);
    ParamSame(k + 1, d);
    ParamSame(k + 2, d);
    var a, b := [Ident(c), OpText(Between), Param(d, k + 1)], [AND, Param(d, k + 2)];
    assert FilterTokens(Compare(c, Between, v), k, d) == a + b;
    RenderConcat(a, b, d);
    RenderThree(Ident(c), OpText(Between), Param(d, k + 1), d);
    RenderTwo(AND, Param(d, k + 2), d);
    Glue(Quoted(c, d) + " BETWEEN " + Placeholder(k + 1, d), " AND ", Placeholder(k + 2, d),
         " AND " + Placeholder(k + 2, d));
  }

  lemma CompareSame(c: string, op: Comparator, v: Value, k: nat, d: Dialect)
    ensures Render(FilterTokens(Compare(c, op, v), k, d), d) == FilterSql(Compare(c, op, v), k, d)
  {
    if op.In? {
      InSame(c, v, k, d);
    } else if op.Between? {
      BetweenSame(c, v, k, d);
    } else {
      hide Render, JoinText, Quoted, QuoteIdent, OpText, Operator, Placeholder, Param;
      QuotedSame(c, d);
      ParamSame(k + 1, d);
      OperatorSame(op);
      RenderThree(Ident(c), OpText(op), Param(d, k + 1), d);
      Glue(Quoted(c, d), " " + Operator(op), " ", " " + Operator(op) + " ");
      Glue(Quoted(c, d), " ", Operator(op), " " + Operator(op));
    }
  }

  lemma OpenedSame(op: SubqueryOp)
    ensures SubqueryText(op).Text? && SubqueryText(op).s + "(" == Opened(op)
  {
  }

  lemma SubquerySame(c: string, op: SubqueryOp, inner: seq<Tok>, d: Dialect)
    ensures Render((if (op.InPlan? || op.NotInPlan?) && c != "" then [Ident(c)] else []) +
                   [SubqueryText(op), LP] + inner + [RP], d) ==
            (if op.Exists? || op.NotExists? || c == "" then "" else Quoted(c, d)) + Opened(op) + Render(inner, d) + ")"
  {
    hide Render, Quoted, QuoteIdent, SubqueryText, Opened;
    var column := if (op.InPlan? || op.NotInPlan?) && c != "" then [Ident(c)] else [];
    Render4(column, [SubqueryText(op), LP], inner, [RP], d);
    RenderTwo(SubqueryText(op), LP, d);
    OpenedSame(op);
    RenderNone(d);
    RenderOne(Ident(c), d);
    RenderOne(RP, d);
    QuotedSame(c, d);
  }

  lemma {:induction false} GroupSame(fs: seq<Filter>, sep: Tok, text: string, k: nat, d: Dialect)
    requires sep == Text(text)
    ensures Render([LP] + FiltersTokens(fs, sep, false, k, d) + [RP], d) ==
            "(" + JoinText(FiltersSql(fs, k, d), text) + ")"
    decreases fs, 1
  {
    hide FiltersTokens, FiltersSql, Render, JoinText;
    JoinNone(text);
    FiltersSame(fs, text, false, k, d);
    Render3([LP], FiltersTokens(fs, sep, false, k, d), [RP], d);
    RenderOne(LP, d);
    RenderOne(RP, d);
  }

  lemma {:induction false} FiltersSame(fs: seq<Filter>, sep: string, lead: bool, k: nat, d: Dialect)
    ensures Render(FiltersTokens(fs, Text(sep), lead, k, d), d) == Led(FiltersSql(fs, k, d), sep, lead)
    decreases fs, 0
  {
    hide FilterTokens, FilterSql, Render, JoinText, Led, FilterValues;
    RenderNone(d);
    LedNone(sep, lead);
    if fs != [] {
      var head, n := if lead then [Text(sep)] else [], k + |FilterValues(fs[0])|;
      FilterSame(fs[0], k, d);
      FiltersSame(fs[1..], sep, true, n, d);
      Render3(head, FilterTokens(fs[0], k, d), FiltersTokens(fs[1..], Text(sep), true, n, d), d);
      RenderOne(Text(sep), d);
      LedStep(FilterSql(fs[0], k, d), FiltersSql(fs[1..], n, d), sep, lead);
    }
  }

  lemma {:induction false} RawHolesSame(holes: seq<RawHole>, d: Dialect)
    ensures Render(HolesTokens(holes, PrintedHole(d)), d) == RawHolesSql(holes, d)
  {
    if holes != [] {
      var hole, rest := PrintedHole(d)(holes[0].n), HolesTokens(holes[1..], PrintedHole(d));
      RawHolesSame(holes[1..], d);
      RenderConcat([hole, Opaque(holes[0].after)], rest, d);
      RenderTwo(hole, Opaque(holes[0].after), d);
      ParamSame(holes[0].n, d);
    }
  }

  lemma RawTextSame(text: RawText, d: Dialect)
    ensures Render(RawTextTokens(text, PrintedHole(d)), d) == text.head + RawHolesSql(text.holes, d)
  {
    RawHolesSame(text.holes, d);
    RenderConcat([Opaque(text.head)], HolesTokens(text.holes, PrintedHole(d)), d);
    RenderOne(Opaque(text.head), d);
  }

  lemma {:induction false} RawSame(e: RawExpr, d: Dialect)
    ensures Render(RawTokens(e, PrintedHole(d)), d) == RawSql(e, d)
  {
    RawTextSame(e.text, d);
    if !e.Factor? {
      var joint := if e.AndThen? then AND else OR;
      RawSame(e.others, d);
      Render3(RawTextTokens(e.text, PrintedHole(d)), [joint], RawTokens(e.others, PrintedHole(d)), d);
      RenderOne(joint, d);
    }
  }

  lemma {:induction false} RawsSame(raws: seq<RawFilter>, lead: bool, d: Dialect)
    ensures Render(RawClauses(raws, lead, d), d) == Led(RawsSql(raws, d), " AND ", lead)
  {
    if raws != [] {
      hide RawTokens, RawSql;
      RawSame(raws[0].expr, d);
      RawsSame(raws[1..], true, d);
      Render3(if lead then [AND] else [], RawTokens(raws[0].expr, PrintedHole(d)), RawClauses(raws[1..], true, d), d);
      RenderOne(AND, d);
      LedStep(RawSql(raws[0].expr, d), RawsSql(raws[1..], d), " AND ", lead);
    }
  }

  lemma RawsSqlNone(raws: seq<RawFilter>, d: Dialect)
    ensures RawsSql(raws, d) == [] <==> raws == []
  {
  }

  lemma JoinNone(sep: string)
    ensures JoinText([], sep) == ""
  {
  }

  lemma {:induction false} WhereSame(fs: seq<Filter>, raws: seq<RawFilter>, k: nat, d: Dialect)
    ensures Render(WhereTokens(fs, raws, k, d), d) == WhereSql(fs, raws, k, d)
    decreases fs, 1
  {
    hide FiltersTokens, RawClauses, RawsSql, FiltersSql, Render, JoinText;
    RenderNone(d);
    RawsSqlNone(raws, d);
    if fs != [] || raws != [] {
      FiltersSame(fs, " AND ", false, k, d);
      RawsSame(raws, fs != [], d);
      Render3([Text(" WHERE ")], FiltersTokens(fs, AND, false, k, d), RawClauses(raws, fs != [], d), d);
      RenderOne(Text(" WHERE "), d);
      JoinConcat(FiltersSql(fs, k, d), RawsSql(raws, d), " AND ");
      JoinNone(" AND ");
      Glue(" WHERE ", JoinText(FiltersSql(fs, k, d), " AND "), Led(RawsSql(raws, d), " AND ", fs != []),
           JoinText(FiltersSql(fs, k, d) + RawsSql(raws, d), " AND "));
    }
  }

  lemma {:induction false} HavingSame(having: seq<Filter>, k: nat, d: Dialect)
    ensures Render(HavingTokens(having, k, d), d) == HavingSql(having, k, d)
    decreases having, 1
  {
    hide FiltersTokens, FiltersSql, Render, JoinText;
    RenderNone(d);
    if having != [] {
      JoinNone(" AND ");
      FiltersSame(having, " AND ", false, k, d);
      RenderConcat([Text(" HAVING ")], FiltersTokens(having, AND, false, k, d), d);
      RenderOne(Text(" HAVING "), d);
    }
  }

  // ---- the other clauses ----

  lemma SearchSame(p: Plan, k: nat, d: Dialect)
    requires p.Select? && p.fts.Some?
    ensures Render(FtsTokens(p, k, d), d) == SearchSql(p.table, p.fts.value, p.filters == [], k, d)
  {
    hide Render, FtsCondition, Param;
    var lead, hole, fts := if p.filters == [] then Text(" WHERE ") else AND, Param(d, k + 1), p.fts.value;
    RenderConcat([lead], FtsCondition(p.table, fts, hole), d);
    RenderOne(lead, d);
    ParamSame(k + 1, d);
    ConditionSame(p.table, fts, hole, d);
  }

  lemma VectorSame(table: string, fts: Fts, hole: Tok, d: Dialect)
    requires fts.mode.TsVector?
    ensures Render(FtsCondition(table, fts, hole), d) == ConditionSql(table, fts, RenderTok(hole, d), d)
  {
    hide Render, JoinText, Quoted, QuoteIdent, QuotedAll, Separated;
    var columns := ColumnList(fts.columns, Text(" || ' ' || "));
    NamesSame(fts.columns, " || ' ' || ", false, d);
    JoinNone(" || ' ' || ");
    assert Render(columns, d) == JoinText(QuotedAll(fts.columns, d), " || ' ' || ");
    hide ColumnList, Led;
    CallSame(Text("to_tsvector"), columns, Text(" @@ plainto_tsquery"), hole, d);
  }

  lemma MatchSame(table: string, fts: Fts, hole: Tok, d: Dialect)
    requires fts.mode.FullText?
    ensures Render(FtsCondition(table, fts, hole), d) == ConditionSql(table, fts, RenderTok(hole, d), d)
  {
    hide Render, JoinText, Quoted, QuoteIdent, QuotedAll, Separated;
    var columns := ColumnList(fts.columns, COMMA);
    NamesSame(fts.columns, ", ", false, d);
    JoinNone(", ");
    assert Render(columns, d) == JoinText(QuotedAll(fts.columns, d), ", ");
    hide ColumnList, Led;
    CallSame(Text("MATCH "), columns, Text(" AGAINST "), hole, d);
  }

  lemma ConditionSame(table: string, fts: Fts, hole: Tok, d: Dialect)
    ensures Render(FtsCondition(table, fts, hole), d) == ConditionSql(table, fts, RenderTok(hole, d), d)
  {
    hide Render, JoinText, Quoted, QuoteIdent, Separated, QuotedAll;
    match fts.mode
    case Fts5 =>
      var source := if fts.tableAlias.Some? then Opaque(fts.tableAlias.value) else Ident(table);
      QuotedSame(table, d);
      RenderThree(source, Text(" MATCH "), hole, d);
    case TsVector => VectorSame(table, fts, hole, d);
    case FullText => MatchSame(table, fts, hole, d);
  }

  lemma Appended(a: string, b: string, c: string, e: string, f: string, g: string)
    ensures a + (b + c + e + (f + g)) == a + b + c + e + f + g
  {
  }

  lemma CallSame(head: Tok, columns: seq<Tok>, operator: Tok, hole: Tok, d: Dialect)
    requires head.Text? && operator.Text?
    ensures Render([head, LP] + columns + [RP, operator, LP, hole, RP], d) ==
            head.s + "(" + Render(columns, d) + ")" + operator.s + "(" + RenderTok(hole, d) + ")"
  {
    hide Render;
    Render3([head, LP], columns, [RP, operator, LP, hole, RP], d);
    RenderTwo(head, LP, d);
    assert [RP, operator, LP, hole, RP] == [RP, operator, LP] + [hole, RP];
    RenderConcat([RP, operator, LP], [hole, RP], d);
    RenderThree(RP, operator, LP, d);
    RenderTwo(hole, RP, d);
    Appended(head.s + "(" + Render(columns, d), ")", operator.s, "(", RenderTok(hole, d), ")");
  }

  lemma Prefixed(a: string, b: string, c: string, e: string, f: string, g: string, h: string)
    ensures a + (b + c + e) + (f + g + h) == a + b + c + e + f + g + h
  {
  }

  lemma JsonCallSame(c: string, path: string, hole: Tok, alias: string, d: Dialect)
    ensures Render(JsonSetCall(c, path, hole, alias), d) ==
            "json_set" + "(" + Quoted(c, d) + ", " + path + ", " + RenderTok(hole, d) + ")" + " AS " + Quoted(alias, d)
  {
    hide Render, Quoted, QuoteIdent;
    QuotedSame(c, d);
    QuotedSame(alias, d);
    var a, b, e := [Text("json_set"), LP, Ident(c)], [COMMA, Opaque(path), COMMA], [hole, RP, Text(" AS ")];
    assert JsonSetCall(c, path, hole, alias) == a + b + e + [Ident(alias)];
    Render4(a, b, e, [Ident(alias)], d);
    RenderThree(Text("json_set"), LP, Ident(c), d);
    RenderThree(COMMA, Opaque(path), COMMA, d);
    RenderThree(hole, RP, Text(" AS "), d);
    RenderOne(Ident(alias), d);
    Prefixed("json_set" + "(" + Quoted(c, d), ", ", path, ", ", RenderTok(hole, d), ")", " AS ");
  }

  lemma JsonPartSame(op: JsonOp, k: nat, d: Dialect)
    ensures Render(JsonOpTokens(op, k, d), d) == JsonPart(op, k, d)
  {
    hide Render, Quoted, JsonSetCall;
    match op
    case JsonSet(c, path, _, alias) =>
      ParamSame(k + 1, d);
      JsonCallSame(c, path, Param(d, k + 1), alias, d);
    case JsonText(text) => RenderOne(Opaque(text), d);
  }

  lemma {:induction false} JsonSame(ops: seq<JsonOp>, lead: bool, k: nat, d: Dialect)
    ensures Render(JsonTokens(ops, lead, k, d), d) == Led(JsonSql(ops, k, d), ", ", lead)
  {
    hide Render, JoinText, Led, JsonOpTokens, JsonPart;
    RenderNone(d);
    LedNone(", ", lead);
    if ops != [] {
      var n := k + |JsonOpValues(ops[0])|;
      JsonSame(ops[1..], true, n, d);
      JsonPartSame(ops[0], k, d);
      Render3(if lead then [COMMA] else [], JsonOpTokens(ops[0], k, d), JsonTokens(ops[1..], true, n, d), d);
      RenderOne(COMMA, d);
      LedStep(JsonPart(ops[0], k, d), JsonSql(ops[1..], n, d), ", ", lead);
    }
  }

  lemma ItemsText(p: Plan, columns: seq<string>, d: Dialect)
    requires p.Select? && !(columns == [] && p.windows == [] && p.jsonOps == [] && p.expressions == [])
    ensures Render(ItemTokens(p, columns, d), d) ==
            JoinText(QuotedAll(columns, d), ", ") + Led(p.windows, ", ", columns != []) +
            Led(JsonSql(p.jsonOps, 0, d), ", ", columns != [] || p.windows != []) +
            Led(p.expressions, ", ", columns != [] || p.windows != [] || p.jsonOps != [])
  {
    hide JsonTokens, JsonSql, Separated, Render, JoinText, QuotedAll, Idents, Opaques;
    JoinNone(", ");
    NamesSame(columns, ", ", false, d);
    OpaquesSame(p.windows, ", ", columns != [], d);
    JsonSame(p.jsonOps, columns != [] || p.windows != [], 0, d);
    OpaquesSame(p.expressions, ", ", columns != [] || p.windows != [] || p.jsonOps != [], d);
    Render4(Separated(Idents(columns), COMMA, false), Separated(Opaques(p.windows), COMMA, columns != []),
            JsonTokens(p.jsonOps, columns != [] || p.windows != [], 0, d),
            Separated(Opaques(p.expressions), COMMA, columns != [] || p.windows != [] || p.jsonOps != []), d);
  }

  lemma ItemsSame(p: Plan, columns: seq<string>, d: Dialect)
    requires p.Select?
    ensures Render(ItemTokens(p, columns, d), d) == ItemsSql(p, columns, d)
  {
    hide JsonTokens, JsonSql, Separated, Render, JoinText, Led, QuotedAll, Idents, Opaques;
    var a, b, e := QuotedAll(columns, d), p.windows, JsonSql(p.jsonOps, 0, d);
    assert |a| == |columns|;
    if columns == [] && p.windows == [] && p.jsonOps == [] && p.expressions == [] {
      RenderOne(Text("*"), d);
    } else {
      ItemsText(p, columns, d);
      JoinConcat(a, b, ", ");
      JoinConcat(a + b, e, ", ");
      JoinConcat(a + b + e, p.expressions, ", ");
    }
  }

  lemma DistinctSame(distinct: bool, distinctOn: seq<string>, d: Dialect)
    ensures Render(DistinctClause(distinct, distinctOn), d) == DistinctSql(distinct, distinctOn, d)
  {
    if distinctOn != [] {
      NamesSame(distinctOn, ", ", false, d);
      Render3([Text("DISTINCT ON "), LP], ColumnList(distinctOn, COMMA), [RP, Text(" ")], d);
      RenderTwo(Text("DISTINCT ON "), LP, d);
      RenderTwo(RP, Text(" "), d);
    } else {
      RenderOne(Text("DISTINCT "), d);
    }
  }

  lemma NestedSame(inner: seq<Tok>, alias: string, d: Dialect)
    ensures Render([LP] + inner + [RP, Text(" AS "), Ident(alias)], d) ==
            "(" + Render(inner, d) + ")" + " AS " + Quoted(alias, d)
  {
    hide Render, Quoted, QuoteIdent;
    QuotedSame(alias, d);
    Render3([LP], inner, [RP, Text(" AS "), Ident(alias)], d);
    RenderOne(LP, d);
    RenderThree(RP, Text(" AS "), Ident(alias), d);
    Glue("(" + Render(inner, d) + ")", " AS ", Quoted(alias, d), " AS " + Quoted(alias, d));
    Glue("(" + Render(inner, d), ")", " AS " + Quoted(alias, d), ")" + (" AS " + Quoted(alias, d)));
    Glue(")", " AS ", Quoted(alias, d), " AS " + Quoted(alias, d));
  }

  lemma {:induction false} SourceSame(p: Plan, d: Dialect)
    requires p.Select?
    ensures Render(FromTokens(p, d), d) == SourceSql(p, d)
    decreases p, 0
  {
    hide Render, PlanTokens, PlanSql, Fts5Source, Quoted, QuoteIdent;
    QuotedSame(p.table, d);
    if IsFts5(p.fts) {
      Fts5Same(p.table, p.fts.value, d);
    } else if p.from.FromPlan? {
      PlanSame(p.from.query, [], d);
      NestedSame(PlanTokens(p.from.query, [], d), p.from.alias, d);
    } else {
      RenderOne(Ident(p.table), d);
    }
  }

  lemma Fts5Same(table: string, fts: Fts, d: Dialect)
    ensures Render(Fts5Source(table, fts), d) == Fts5Sql(table, fts.tableAlias, d)
  {
    hide Render, Quoted, QuoteIdent;
    var alias := if fts.tableAlias.Some? then fts.tableAlias.value else "fts";
    var source := Opaque(if fts.tableAlias.Some? then fts.tableAlias.value else table + "_fts");
    QuotedSame(table, d);
    QuotedSame(alias, d);
    var a, b, e := [source, Text(" AS "), Ident(alias)], [Text(" JOIN "), Ident(table), Text(" ON ")],
      [Ident(alias), Text(".rowid = "), Ident(table)];
    assert Fts5Source(table, fts) == a + b + e + [Text(".rowid")];
    Render4(a, b, e, [Text(".rowid")], d);
    RenderThree(source, Text(" AS "), Ident(alias), d);
    RenderThree(Text(" JOIN "), Ident(table), Text(" ON "), d);
    RenderThree(Ident(alias), Text(".rowid = "), Ident(table), d);
    RenderOne(Text(".rowid"), d);
    Prefixed(source.s + " AS " + Quoted(alias, d), " JOIN ", Quoted(table, d), " ON ", Quoted(alias, d), ".rowid = ",
             Quoted(table, d));
  }

  lemma GroupBySame(groupBy: seq<string>, d: Dialect)
    ensures Render(GroupClause(groupBy), d) == GroupSql(groupBy, d)
  {
    if groupBy != [] {
      NamesSame(groupBy, ", ", false, d);
      RenderConcat([Text(" GROUP BY ")], ColumnList(groupBy, COMMA), d);
      RenderOne(Text(" GROUP BY "), d);
    }
  }

  lemma {:induction false} SpacedSame(parts: seq<string>, d: Dialect)
    ensures Led(parts, " ", true) == SpacedOut(parts)
  {
    if parts != [] {
      SpacedSame(parts[1..], d);
      LedStep(parts[0], parts[1..], " ", true);
      assert parts == [parts[0]] + parts[1..];
    }
  }

  lemma {:induction false} BranchSame(b: Branch, k: nat, inherited: seq<string>, d: Dialect)
    ensures Render(BranchTokens(b, k, inherited, d), d) == BranchSql(b, k, inherited, d)
  {
    match b
    case UnionBranch(op, q) =>
      PlanSame(q, inherited, d);
      UnionSame(op, q, k, inherited, d);
    case WithQuery(name, columns, q) =>
      PlanSame(q, [], d);
      WithHeadSame(b, d);
      Render3(WithHead(b), PlanTokens(q, [], d), [RP], d);
      RenderOne(RP, d);
  }

  lemma SetOpenedSame(op: SetOp)
    ensures SetOpText(op).Text? && SetOpText(op).s + "(" == SetOpened(op)
  {
  }

  lemma SameReplacement(k: nat)
    ensures Renumbered(k) == ((n: nat) => "$" + Digits(n + k))
  {
  }

  lemma UnionSame(op: SetOp, q: Plan, k: nat, inherited: seq<string>, d: Dialect)
    ensures Render(BranchTokens(UnionBranch(op, q), k, inherited, d), d) ==
            SetOpened(op) +
            (if d.Postgres? then ReplaceDollars(Render(PlanTokens(q, inherited, d), d), (n: nat) => "$" + Digits(n + k))
             else Render(PlanTokens(q, inherited, d), d)) + ")"
  {
    hide Render, ReplaceDollars, SetOpText, SetOpened, PlanTokens;
    SetOpenedSame(op);
    if d.Postgres? {
      SameReplacement(k);
      Dialects.BranchIsRewritten(op, q, k, inherited);
    } else {
      var sub := PlanTokens(q, inherited, d);
      Render3([SetOpText(op), LP], sub, [RP], d);
      RenderTwo(SetOpText(op), LP, d);
      RenderOne(RP, d);
    }
  }

  lemma WithHeadSame(b: Branch, d: Dialect)
    requires b.WithQuery?
    ensures Render(WithHead(b), d) == WithHeadSql(b.name, b.columns, d)
  {
    hide Render, Quoted, QuoteIdent, JoinText, Separated;
    var columns := if b.columns == [] then []
    else [Text(" "), LP] + Separated(Opaques(b.columns), COMMA, false) + [RP];
    QuotedSame(b.name, d);
    ColumnsSame(b.columns, d);
    RenderNone(d);
    Render3([Ident(b.name)], columns, [Text(" AS "), LP], d);
    RenderOne(Ident(b.name), d);
    RenderTwo(Text(" AS "), LP, d);
    assert " AS " + "(" == " AS (";
  }

  lemma ColumnsSame(columns: seq<string>, d: Dialect)
    ensures Render([Text(" "), LP] + Separated(Opaques(columns), COMMA, false) + [RP], d) ==
            " (" + JoinText(columns, ", ") + ")"
  {
    hide Render, JoinText, Separated;
    JoinNone(", ");
    OpaquesSame(columns, ", ", false, d);
    Render3([Text(" "), LP], Separated(Opaques(columns), COMMA, false), [RP], d);
    RenderTwo(Text(" "), LP, d);
    RenderOne(RP, d);
    assert " " + "(" == " (";
  }

  lemma {:induction false} BranchesSame(bs: seq<Branch>, sep: seq<Tok>, text: string, lead: bool, k: nat,
                                        inherited: seq<string>, d: Dialect)
    requires Render(sep, d) == text
    ensures Render(BranchesTokens(bs, sep, lead, k, inherited, d), d) ==
            Led(BranchesSql(bs, k, inherited, d), text, lead)
    decreases bs, 0
  {
    hide BranchTokens, BranchSql, BranchValues, Render, JoinText, Led;
    RenderNone(d);
    LedNone(text, lead);
    if bs != [] {
      var n := k + |BranchValues(bs[0])|;
      BranchSame(bs[0], k, inherited, d);
      BranchesSame(bs[1..], sep, text, true, n, inherited, d);
      Render3(if lead then sep else [], BranchTokens(bs[0], k, inherited, d),
              BranchesTokens(bs[1..], sep, true, n, inherited, d), d);
      LedStep(BranchSql(bs[0], k, inherited, d), BranchesSql(bs[1..], n, inherited, d), text, lead);
    }
  }

  lemma {:induction false} WithSame(ctes: seq<Branch>, k: nat, d: Dialect)
    ensures Render(WithTokens(ctes, k, d), d) == WithSql(ctes, k, d)
    decreases ctes, 1
  {
    hide BranchesTokens, BranchesSql, Render, JoinText;
    RenderNone(d);
    if ctes != [] {
      RenderOne(COMMA, d);
      JoinNone(", ");
      BranchesSame(ctes, [COMMA], ", ", false, k, [], d);
      Render3([Text("WITH ")], BranchesTokens(ctes, [COMMA], false, k, [], d), [Text(" ")], d);
      RenderOne(Text("WITH "), d);
      RenderOne(Text(" "), d);
    }
  }

  // ---- statements ----

  lemma HeadSame(p: Plan, columns: seq<string>, source: seq<Tok>, d: Dialect)
    requires p.Select?
    ensures Render(SelectHead(p, columns, source, d), d) ==
            "SELECT " + DistinctSql(p.distinct, p.distinctOn, d) + ItemsSql(p, columns, d) + " FROM " +
            Render(source, d)
  {
    hide DistinctClause, ItemTokens, ItemsSql, DistinctSql;
    var a, b := [Text("SELECT ")] + DistinctClause(p.distinct, p.distinctOn), ItemTokens(p, columns, d);
    DistinctSame(p.distinct, p.distinctOn, d);
    ItemsSame(p, columns, d);
    Render4(a, b, [Text(" FROM ")], source, d);
    RenderConcat([Text("SELECT ")], DistinctClause(p.distinct, p.distinctOn), d);
    RenderOne(Text("SELECT "), d);
    RenderOne(Text(" FROM "), d);
  }

  lemma {:induction false} MiddleSame(p: Plan, d: Dialect)
    requires p.Select?
    ensures Render(MiddleTokens(p, d), d) ==
            SpacedOut(p.joins) + WhereSql(p.filters, p.rawFilters, WhereStart(p), d) +
            (if p.fts.None? then ""
             else SearchSql(p.table, p.fts.value, p.filters == [], |JsonValues(p.jsonOps)| + |FromValues(p.from)|, d)) +
            GroupSql(p.groupBy, d) + HavingSql(p.having, HavingStart(p), d) + SpacedOut(p.tail)
    decreases p, 0
  {
    hide WhereTokens, FtsTokens, GroupClause, HavingTokens, WhereSql, SearchSql, GroupSql, HavingSql, WhereStart,
        HavingStart, JsonValues, FromValues, Separated;
    var n := |JsonValues(p.jsonOps)| + |FromValues(p.from)|;
    OpaquesSame(p.joins, " ", true, d);
    SpacedSame(p.joins, d);
    OpaquesSame(p.tail, " ", true, d);
    SpacedSame(p.tail, d);
    WhereSame(p.filters, p.rawFilters, WhereStart(p), d);
    NoSearch(p, n, d);
    if p.fts.Some? {
      SearchSame(p, n, d);
    }
    GroupBySame(p.groupBy, d);
    HavingSame(p.having, HavingStart(p), d);
    var w, q, g, h := WhereTokens(p.filters, p.rawFilters, WhereStart(p), d), FtsTokens(p, n, d),
      GroupClause(p.groupBy), HavingTokens(p.having, HavingStart(p), d);
    Render4(JoinClause(p.joins), w, q, g, d);
    Render3(JoinClause(p.joins) + w + q + g, h, TailClause(p.tail), d);
  }

  lemma NoSearch(p: Plan, n: nat, d: Dialect)
    requires p.Select?
    ensures p.fts.None? ==> Render(FtsTokens(p, n, d), d) == ""
  {
  }

  lemma {:induction false} SelectSame(p: Plan, inherited: seq<string>, d: Dialect)
    requires p.Select?
    ensures Render(SelectTokens(p, inherited, d), d) == SelectSql(p, inherited, d)
    decreases p, 1
  {
    hide SelectHead, MiddleTokens, WithTokens, BranchesTokens, FromTokens, SourceSql, WithSql, ItemsSql, DistinctSql,
        BranchesSql, WhereSql, SearchSql, GroupSql, HavingSql, SpacedOut, WhereStart, HavingStart, UnionStart,
        WithStart, JsonValues, FromValues, Render, Led, JoinText, Quoted, QuoteIdent;
    LedIsJoin(BranchesSql(p.unions, UnionStart(p), EffectiveColumns(p, inherited), d), "");
    RenderNone(d);
    var columns := EffectiveColumns(p, inherited);
    if p.deny {
      HeadSame(p, columns, [Ident(p.table)], d);
      RenderConcat(SelectHead(p, columns, [Ident(p.table)], d), [Text(" WHERE 1=0")], d);
      RenderOne(Text(" WHERE 1=0"), d);
      RenderOne(Ident(p.table), d);
      QuotedSame(p.table, d);
    } else {
      WithSame(p.ctes, WithStart(p), d);
      SourceSame(p, d);
      HeadSame(p, columns, FromTokens(p, d), d);
      MiddleSame(p, d);
      BranchesSame(p.unions, [], "", false, UnionStart(p), columns, d);
      Render4(WithTokens(p.ctes, WithStart(p), d), SelectHead(p, columns, FromTokens(p, d), d), MiddleTokens(p, d),
              BranchesTokens(p.unions, [], false, UnionStart(p), columns, d), d);
    }
  }

  lemma {:induction false} AssignmentsSame(r: Record, lead: bool, k: nat, d: Dialect)
    ensures Render(AssignmentTokens(r, lead, k, d), d) == Led(AssignmentsSql(r, k, d), ", ", lead)
  {
    hide Render, JoinText, Led, Quoted, QuoteIdent, Placeholder, Param;
    RenderNone(d);
    LedNone(", ", lead);
    if r == [] {
      assert AssignmentsSql(r, k, d) == [];
    } else {
      var part := Quoted(r[0].0, d) + " = " + Placeholder(k + 1, d);
      AssignmentsSame(r[1..], true, k + 1, d);
      Render3(if lead then [COMMA] else [], [Ident(r[0].0), EQUALS, Param(d, k + 1)],
              AssignmentTokens(r[1..], true, k + 1, d), d);
      RenderOne(COMMA, d);
      RenderThree(Ident(r[0].0), EQUALS, Param(d, k + 1), d);
      QuotedSame(r[0].0, d);
      ParamSame(k + 1, d);
      assert AssignmentsSql(r, k, d) == [part] + AssignmentsSql(r[1..], k + 1, d);
      hide AssignmentsSql, AssignmentTokens;
      LedStep(part, AssignmentsSql(r[1..], k + 1, d), ", ", lead);
    }
  }

  lemma Wrapped(a: string, b: string, c: string, e: string)
    ensures a + b + c + e == a + (b + c + e)
  {
  }

  lemma {:induction false} RowsSame(count: nat, width: nat, lead: bool, k: nat, d: Dialect)
    ensures Render(RowsTokens(count, width, lead, k, d), d) == Led(RowsSql(count, width, k, d), ", ", lead)
  {
    hide Render, JoinText, Led, Separated, Holes, PlaceholdersFrom;
    RenderNone(d);
    LedNone(", ", lead);
    if count != 0 {
      var list := Separated(Holes(width, k, d), COMMA, false);
      var part := "(" + JoinText(PlaceholdersFrom(k, width, d), ", ") + ")";
      RowsSame(count - 1, width, true, k + width, d);
      HolesSame(width, k, d);
      var head := if lead then [COMMA] else [];
      Render4(head + [LP], list, [RP], RowsTokens(count - 1, width, true, k + width, d), d);
      RenderConcat(head, [LP], d);
      RenderOne(COMMA, d);
      RenderOne(LP, d);
      RenderOne(RP, d);
      LedStep(part, RowsSql(count - 1, width, k + width, d), ", ", lead);
      Wrapped(if lead then ", " else "", "(", JoinText(PlaceholdersFrom(k, width, d), ", "), ")");
    }
  }

  lemma ConflictSame(oc: Option<OnConflict>, k: nat, d: Dialect)
    ensures Render(ConflictTokens(oc, k, d), d) == ConflictSql(oc, k, d)
  {
    hide Render, JoinText, QuotedAll, Separated, AssignmentTokens, AssignmentsSql;
    RenderNone(d);
    RenderOne(Text(" ON CONFLICT DO NOTHING"), d);
    if oc.Some? && oc.value.target.Some? {
      var cols := oc.value.target.value;
      TargetSame(cols, Text(" DO NOTHING"), d);
      TargetSame(cols, Text(" DO UPDATE SET "), d);
      if oc.value.action.DoUpdate? && oc.value.assignments.Some? {
        JoinNone(", ");
        AssignmentsSame(oc.value.assignments.value, false, k, d);
        RenderConcat([Text(" ON CONFLICT "), LP] + ColumnList(cols, COMMA) + [RP, Text(" DO UPDATE SET ")],
                     AssignmentTokens(oc.value.assignments.value, false, k, d), d);
      }
    }
  }

  lemma TargetSame(cols: seq<string>, action: Tok, d: Dialect)
    requires action.Text?
    ensures Render([Text(" ON CONFLICT "), LP] + ColumnList(cols, COMMA) + [RP, action], d) ==
            " ON CONFLICT (" + JoinText(QuotedAll(cols, d), ", ") + ")" + action.s
  {
    hide Render, JoinText, QuotedAll, Separated;
    JoinNone(", ");
    NamesSame(cols, ", ", false, d);
    Render3([Text(" ON CONFLICT "), LP], ColumnList(cols, COMMA), [RP, action], d);
    RenderTwo(Text(" ON CONFLICT "), LP, d);
    RenderTwo(RP, action, d);
    assert " ON CONFLICT " + "(" == " ON CONFLICT (";
    Glue(" ON CONFLICT (" + JoinText(QuotedAll(cols, d), ", "), ")", action.s, ")" + action.s);
  }

  lemma ReturningSame(returning: seq<string>, d: Dialect)
    ensures Render(ReturningClause(returning, SupportsReturning(d)), d) == ReturningSql(returning, d)
  {
    if !d.Mysql? && returning != [] {
      var items := seq(|returning|, i requires 0 <= i < |returning| =>
        if returning[i] == "*" then Text("*") else Ident(returning[i]));
      var names := seq(|returning|, i requires 0 <= i < |returning| =>
        if returning[i] == "*" then "*" else Quoted(returning[i], d));
      forall i | 0 <= i < |returning| ensures Texts(items, d)[i] == names[i] {
        QuotedSame(returning[i], d);
      }
      assert Texts(items, d) == names;
      hide Render, JoinText, Texts, RenderTok, Quoted, Separated;
      LedIsJoin(names, ", ");
      KeywordText(" RETURNING ", d);
      SeparatedSame(items, ", ", false, d);
      RenderConcat([Text(" RETURNING ")], Separated(items, COMMA, false), d);
      RenderOne(Text(" RETURNING "), d);
    }
  }

  lemma InsertSame(p: Plan, d: Dialect)
    requires p.Insert?
    ensures Render(PlanTokens(p, [], d), d) == PlanSql(p, [], d)
  {
    hide Render, JoinText, Led, RowsTokens, ConflictTokens, ReturningClause, RowsSql, ConflictSql, ReturningSql,
        RowsValues, Separated, QuotedAll, Quoted, Keys;
    var keys := InsertKeys(p.rows);
    var head, rows, conflict := [Text("INSERT INTO "), Ident(p.table), Text(" "), LP] + ColumnList(keys, COMMA) +
      [RP, Text(" VALUES ")], RowsTokens(|p.rows|, |keys|, false, 0, d),
      ConflictTokens(p.onConflict, |RowsValues(p.rows, keys)|, d);
    IntoSame(p.table, keys, d);
    RowsSame(|p.rows|, |keys|, false, 0, d);
    LedIsJoin(RowsSql(|p.rows|, |keys|, 0, d), ", ");
    ConflictSame(p.onConflict, |RowsValues(p.rows, keys)|, d);
    ReturningSame(p.returning, d);
    Render4(head, rows, conflict, ReturningClause(p.returning, SupportsReturning(d)), d);
  }

  lemma LedIsJoin(parts: seq<string>, sep: string)
    ensures Led(parts, sep, false) == JoinText(parts, sep)
  {
  }

  lemma IntoSame(table: string, keys: seq<string>, d: Dialect)
    ensures Render([Text("INSERT INTO "), Ident(table), Text(" "), LP] + ColumnList(keys, COMMA) +
                   [RP, Text(" VALUES ")], d) ==
            "INSERT INTO " + Quoted(table, d) + " (" + JoinText(QuotedAll(keys, d), ", ") + ") VALUES "
  {
    hide Render, JoinText, QuotedAll, Separated, Quoted, QuoteIdent;
    var into, open := [Text("INSERT INTO "), Ident(table)], [Text(" "), LP];
    NamesSame(keys, ", ", false, d);
    LedIsJoin(QuotedAll(keys, d), ", ");
    QuotedSame(table, d);
    assert [Text("INSERT INTO "), Ident(table), Text(" "), LP] == into + open;
    RenderConcat(into, open, d);
    RenderTwo(Text("INSERT INTO "), Ident(table), d);
    RenderTwo(Text(" "), LP, d);
    RenderTwo(RP, Text(" VALUES "), d);
    Render3(into + open, ColumnList(keys, COMMA), [RP, Text(" VALUES ")], d);
    assert " " + "(" == " (" && ")" + " VALUES " == ") VALUES ";
  }

  lemma {:induction false} WriteSame(p: Plan, d: Dialect)
    requires p.Update? || p.Delete?
    ensures Render(PlanTokens(p, [], d), d) == PlanSql(p, [], d)
    decreases p, 1
  {
    hide AssignmentTokens, WhereTokens, ReturningClause, WhereSql, ReturningSql, Render, JoinText, Led, Quoted,
        AssignmentsSql;
    var n := if p.Update? then |p.assignments| else 0;
    QuotedSame(p.table, d);
    WhereSame(p.filters, p.rawFilters, n, d);
    ReturningSame(p.returning, d);
    var where, returning := WhereTokens(p.filters, p.rawFilters, n, d),
      ReturningClause(p.returning, SupportsReturning(d));
    if p.Update? {
      AssignmentsSame(p.assignments, false, 0, d);
      LedIsJoin(AssignmentsSql(p.assignments, 0, d), ", ");
      RenderThree(Text("UPDATE "), Ident(p.table), Text(" SET "), d);
      Render4([Text("UPDATE "), Ident(p.table), Text(" SET ")], AssignmentTokens(p.assignments, false, 0, d), where,
              returning, d);
    } else {
      RenderTwo(Text("DELETE FROM "), Ident(p.table), d);
      Render3([Text("DELETE FROM "), Ident(p.table)], where, returning, d);
    }
  }

  /** Every plan, nested to any depth, compiles to exactly this text in every dialect. */
  lemma {:induction false} PlanSame(p: Plan, inherited: seq<string>, d: Dialect)
    ensures Render(PlanTokens(p, inherited, d), d) == PlanSql(p, inherited, d)
    decreases p, 2
  {
    if p.Select? {
      SelectSame(p, inherited, d);
    } else if p.Insert? {
      InsertSame(p, d);
    } else {
      WriteSame(p, d);
    }
  }

  // ---- names read back ----

  /** Reads a quoted name: a doubled quote stands for one, a single one ends it. */
  function ReadName(text: string, quote: char): Option<(string, string)>
    decreases |text|
  {
    if text == "" then None
    else if text[0] == quote then
      if |text| > 1 && text[1] == quote then
        var more := ReadName(text[2..], quote);
        if more.None? then None else Some(([quote] + more.value.0, more.value.1))
      else Some(("", text[1..]))
    else
      var more := ReadName(text[1..], quote);
      if more.None? then None else Some(([text[0]] + more.value.0, more.value.1))
  }

  lemma {:induction false} DoubledReads(s: string, quote: char, rest: string)
    requires rest == "" || rest[0] != quote
    ensures ReadName(DoubleQuotes(s, quote) + [quote] + rest, quote) == Some((s, rest))
  {
    var text := DoubleQuotes(s, quote) + [quote] + rest;
    if s == "" {
      assert text == [quote] + rest && text[1..] == rest;
    } else {
      var tail := DoubleQuotes(s[1..], quote) + [quote] + rest;
      DoubledReads(s[1..], quote, rest);
      if s[0] == quote {
        assert text == [quote, quote] + tail && text[2..] == tail;
      } else {
        assert text == [s[0]] + tail && text[1..] == tail;
      }
      assert s == [s[0]] + s[1..];
    }
  }

  /** Whatever characters a name has, the quoted name reads back as that name and ends where it ends. */
  lemma NameReads(id: string, d: Dialect, rest: string)
    requires rest == "" || rest[0] != if d.Mysql? then '`' else '"'
    ensures Quoted(id, d) != "" && Quoted(id, d)[0] == if d.Mysql? then '`' else '"'
    ensures ReadName((Quoted(id, d) + rest)[1..], if d.Mysql? then '`' else '"') == Some((id, rest))
  {
    var quote := if d.Mysql? then '`' else '"';
    QuotedSame(id, d);
    DoubledReads(id, quote, rest);
    hide Quoted, Doubled, DoubleQuotes, ReadName;
    BehindQuote(quote, DoubleQuotes(id, quote), rest);
  }

  lemma BehindQuote(quote: char, s: string, rest: string)
    ensures ([quote] + s + [quote] + rest)[1..] == s + [quote] + rest
  {
  }
}
