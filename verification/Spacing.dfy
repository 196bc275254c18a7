/** Where one token ends and the next begins: in every printed plan text that the plan passed
    through stands behind a keyword or a placeholder, so that no `$` meets a digit across tokens. */
module Spacing {
  import opened Wrappers
  import opened Rewriting
  import opened Plans
  import opened Emission

  /** What the compiler itself writes. */
  predicate Keyword(s: string) {
    s != "" && !IsDigit(s[0]) && '$' !in s
  }

  /** `u` may stand directly behind `t`. */
  predicate Follows(t: Tok, u: Tok) {
    u.Opaque? ==> t.Text? || ((t.Mark? || t.Dollar?) && HeadNotDigit(u.s))
  }

  predicate Spaced(ts: seq<Tok>) {
    && (forall i | 0 <= i < |ts| :: ts[i].Text? ==> Keyword(ts[i].s))
    && (forall i | 0 <= i < |ts| - 1 :: Follows(ts[i], ts[i + 1]))
  }

  /** Spaced, and not in need of a keyword before it. */
  predicate Firm(ts: seq<Tok>) {
    Spaced(ts) && (ts != [] ==> !ts[0].Opaque?)
  }

  predicate EndsInText(ts: seq<Tok>) {
    ts != [] && ts[|ts| - 1].Text?
  }

  lemma SpacedPair(a: seq<Tok>, b: seq<Tok>)
    requires Spaced(a) && (Firm(b) || (Spaced(b) && (a == [] || EndsInText(a))))
    ensures Spaced(a + b)
    ensures Firm(a) && (a != [] || Firm(b)) ==> Firm(a + b)
  {
    var c := a + b;
    forall i | 0 <= i < |c| - 1 ensures Follows(c[i], c[i + 1]) {
      if i + 1 < |a| {
        assert Follows(a[i], a[i + 1]);
      } else if i >= |a| {
        assert Follows(b[i - |a|], b[i - |a| + 1]);
      }
    }
  }

  lemma FirmPair(a: seq<Tok>, b: seq<Tok>)
    requires Firm(a) && Firm(b)
    ensures Firm(a + b)
  {
    SpacedPair(a, b);
  }

  lemma SpacedThree(a: seq<Tok>, b: seq<Tok>, c: seq<Tok>)
    requires Firm(a) && Firm(c) && (Firm(b) || (Spaced(b) && EndsInText(a)))
    ensures Firm(a + b + c)
  {
    SpacedPair(a, b);
    SpacedPair(a + b, c);
  }

  // ---- fragments without nested plans ----

  predicate Items(items: seq<Tok>) {
    forall t | t in items :: !t.Text? || Keyword(t.s)
  }

  lemma {:induction false} SeparatedSpaced(items: seq<Tok>, sep: Tok, lead: bool)
    requires Items(items) && sep.Text? && Keyword(sep.s)
    ensures Spaced(Separated(items, sep, lead))
    ensures lead || (items != [] ==> !items[0].Opaque?) ==> Firm(Separated(items, sep, lead))
  {
    if items != [] {
      SeparatedSpaced(items[1..], sep, true);
      assert items[0] in items;
      var head := if lead then [sep] else [];
      SpacedPair(head, [items[0]]);
      SpacedPair(head + [items[0]], Separated(items[1..], sep, true));
    }
  }

  lemma {:induction false} HolesSpaced(holes: seq<RawHole>, d: Dialect)
    ensures Firm(HolesTokens(holes, PrintedHole(d)))
  {
    if holes != [] {
      HolesSpaced(holes[1..], d);
      SpacedPair([Param(d, holes[0].n), Opaque(holes[0].after)], HolesTokens(holes[1..], PrintedHole(d)));
    }
  }

  lemma {:induction false} RawSpaced(e: RawExpr, d: Dialect)
    ensures Spaced(RawTokens(e, PrintedHole(d)))
  {
    HolesSpaced(e.text.holes, d);
    SpacedPair([Opaque(e.text.head)], HolesTokens(e.text.holes, PrintedHole(d)));
    if !e.Factor? {
      var sep := [if e.AndThen? then AND else OR];
      RawSpaced(e.others, d);
      SpacedPair(RawTextTokens(e.text, PrintedHole(d)), sep);
      SpacedPair(RawTextTokens(e.text, PrintedHole(d)) + sep, RawTokens(e.others, PrintedHole(d)));
    }
  }

  lemma {:induction false} RawsSpaced(raws: seq<RawFilter>, lead: bool, d: Dialect)
    ensures Spaced(RawClauses(raws, lead, d)) && (lead ==> Firm(RawClauses(raws, lead, d)))
  {
    if raws != [] {
      var head, ts := if lead then [AND] else [], RawTokens(raws[0].expr, PrintedHole(d));
      RawSpaced(raws[0].expr, d);
      RawsSpaced(raws[1..], true, d);
      SpacedPair(head, ts);
      SpacedPair(head + ts, RawClauses(raws[1..], true, d));
    }
  }

  lemma VectorSpaced(columns: seq<string>, hole: Tok)
    requires hole.Mark? || hole.Dollar?
    ensures Spaced([Text("to_tsvector"), LP] + ColumnList(columns, Text(" || ' ' || ")) +
                   [RP, Text(" @@ plainto_tsquery"), LP, hole, RP])
  {
    SeparatedSpaced(Idents(columns), Text(" || ' ' || "), false);
    hide ColumnList;
    SpacedThree([Text("to_tsvector"), LP], ColumnList(columns, Text(" || ' ' || ")),
                [RP, Text(" @@ plainto_tsquery"), LP, hole, RP]);
  }

  lemma MatchSpaced(columns: seq<string>, hole: Tok)
    requires hole.Mark? || hole.Dollar?
    ensures Spaced([Text("MATCH "), LP] + ColumnList(columns, COMMA) + [RP, Text(" AGAINST "), LP, hole, RP])
  {
    SeparatedSpaced(Idents(columns), COMMA, false);
    SpacedThree([Text("MATCH "), LP], ColumnList(columns, COMMA), [RP, Text(" AGAINST "), LP, hole, RP]);
  }

  lemma FtsSpaced(p: Plan, k: nat, d: Dialect)
    requires p.Select?
    ensures Firm(FtsTokens(p, k, d))
  {
    if p.fts.Some? {
      var fts, hole := p.fts.value, Param(d, k + 1);
      var condition := FtsCondition(p.table, fts, hole);
      assert Spaced(condition) by {
        VectorSpaced(fts.columns, hole);
        MatchSpaced(fts.columns, hole);
      }
      hide FtsCondition;
      SpacedPair([if p.filters == [] then Text(" WHERE ") else AND], condition);
    }
  }

  lemma {:induction false} JsonSpaced(ops: seq<JsonOp>, lead: bool, k: nat, d: Dialect)
    ensures Spaced(JsonTokens(ops, lead, k, d)) && (lead ==> Firm(JsonTokens(ops, lead, k, d)))
  {
    if ops != [] {
      var head, ts := if lead then [COMMA] else [], JsonOpTokens(ops[0], k, d);
      JsonSpaced(ops[1..], true, k + |JsonOpValues(ops[0])|, d);
      JsonOpSpaced(ops[0], k, d);
      SpacedPair(head, ts);
      SpacedPair(head + ts, JsonTokens(ops[1..], true, k + |JsonOpValues(ops[0])|, d));
    }
  }

  lemma JsonOpSpaced(op: JsonOp, k: nat, d: Dialect)
    ensures Spaced(JsonOpTokens(op, k, d))
  {
  }

  lemma ItemsSpaced(p: Plan, columns: seq<string>, d: Dialect)
    requires p.Select?
    ensures Spaced(ItemTokens(p, columns, d))
  {
    var lead, last := columns != [] || p.windows != [], columns != [] || p.windows != [] || p.jsonOps != [];
    var a, b := Separated(Idents(columns), COMMA, false), Separated(Opaques(p.windows), COMMA, columns != []);
    var c, e := JsonTokens(p.jsonOps, lead, 0, d), Separated(Opaques(p.expressions), COMMA, last);
    SeparatedSpaced(Idents(columns), COMMA, false);
    SeparatedSpaced(Opaques(p.windows), COMMA, columns != []);
    JsonSpaced(p.jsonOps, lead, 0, d);
    SeparatedSpaced(Opaques(p.expressions), COMMA, last);
    if columns == [] {
      assert a == [];
    }
    SpacedPair(a, b);
    if !lead {
      assert a + b == [];
    }
    SpacedPair(a + b, c);
    if !last {
      assert a + b + c == [];
    }
    SpacedPair(a + b + c, e);
  }

  lemma {:induction false} AssignmentsSpaced(r: Record, lead: bool, k: nat, d: Dialect)
    ensures Firm(AssignmentTokens(r, lead, k, d))
  {
    if r != [] {
      var head := (if lead then [COMMA] else []) + [Ident(r[0].0), EQUALS, Param(d, k + 1)];
      AssignmentsSpaced(r[1..], true, k + 1, d);
      assert Firm(head);
      SpacedPair(head, AssignmentTokens(r[1..], true, k + 1, d));
    }
  }

  lemma HoleListSpaced(count: nat, k: nat, d: Dialect)
    ensures Firm(Separated(Holes(count, k, d), COMMA, false))
  {
    var items := Holes(count, k, d);
    forall t | t in items ensures !t.Text? && !t.Opaque? {
      var i :| 0 <= i < |items| && items[i] == t;
      assert t == Param(d, k + 1 + i);
    }
    assert items != [] ==> items[0] in items;
    SeparatedSpaced(items, COMMA, false);
  }

  lemma {:induction false} RowsSpaced(rowCount: nat, width: nat, lead: bool, k: nat, d: Dialect)
    ensures Firm(RowsTokens(rowCount, width, lead, k, d))
  {
    if rowCount > 0 {
      var head, row := if lead then [COMMA] else [], [LP] + Separated(Holes(width, k, d), COMMA, false) + [RP];
      HoleListSpaced(width, k, d);
      SpacedThree([LP], Separated(Holes(width, k, d), COMMA, false), [RP]);
      RowsSpaced(rowCount - 1, width, true, k + width, d);
      SpacedPair(head, row);
      SpacedPair(head + row, RowsTokens(rowCount - 1, width, true, k + width, d));
      assert head + row == head + [LP] + Separated(Holes(width, k, d), COMMA, false) + [RP];
    }
  }

  lemma TargetSpaced(target: seq<string>, action: string)
    requires Keyword(action)
    ensures Firm([Text(" ON CONFLICT "), LP] + ColumnList(target, COMMA) + [RP, Text(action)])
  {
    SeparatedSpaced(Idents(target), COMMA, false);
    assert Firm([Text(" ON CONFLICT "), LP]) && Firm([RP, Text(action)]);
    hide Firm, ColumnList;
    FirmPair([Text(" ON CONFLICT "), LP], ColumnList(target, COMMA));
    FirmPair([Text(" ON CONFLICT "), LP] + ColumnList(target, COMMA), [RP, Text(action)]);
  }

  lemma ConflictSpaced(oc: Option<OnConflict>, k: nat, d: Dialect)
    ensures Firm(ConflictTokens(oc, k, d))
  {
    if oc.Some? && oc.value.target.Some? {
      var head, columns := [Text(" ON CONFLICT "), LP], ColumnList(oc.value.target.value, COMMA);
      if oc.value.action.DoNothing? {
        TargetSpaced(oc.value.target.value, " DO NOTHING");
      } else if oc.value.assignments.Some? {
        var sets := oc.value.assignments.value;
        TargetSpaced(oc.value.target.value, " DO UPDATE SET ");
        AssignmentsSpaced(sets, false, k, d);
        hide Firm, ColumnList, AssignmentTokens;
        FirmPair(head + columns + [RP, Text(" DO UPDATE SET ")], AssignmentTokens(sets, false, k, d));
      }
    }
  }

  lemma ReturningSpaced(returning: seq<string>, canReturn: bool)
    ensures Firm(ReturningClause(returning, canReturn))
  {
    var items := seq(|returning|, i requires 0 <= i < |returning| =>
      if returning[i] == "*" then Text("*") else Ident(returning[i]));
    SeparatedSpaced(items, COMMA, false);
    SpacedPair([Text(" RETURNING ")], Separated(items, COMMA, false));
  }

  lemma SharedSpaced(p: Plan)
    requires p.Select?
    ensures Firm(GroupClause(p.groupBy)) && Firm(TailClause(p.tail)) && Firm(JoinClause(p.joins))
  {
    SeparatedSpaced(Idents(p.groupBy), COMMA, false);
    SeparatedSpaced(Opaques(p.tail), Text(" "), true);
    SeparatedSpaced(Opaques(p.joins), Text(" "), true);
    hide Separated;
    SpacedPair([Text(" GROUP BY ")], ColumnList(p.groupBy, COMMA));
  }

  lemma DistinctSpaced(p: Plan)
    requires p.Select?
    ensures Firm(DistinctClause(p.distinct, p.distinctOn))
    ensures DistinctClause(p.distinct, p.distinctOn) == [] || EndsInText(DistinctClause(p.distinct, p.distinctOn))
  {
    SeparatedSpaced(Idents(p.distinctOn), COMMA, false);
    hide Separated;
    SpacedThree([Text("DISTINCT ON "), LP], ColumnList(p.distinctOn, COMMA), [RP, Text(" ")]);
  }

  // ---- fragments with nested plans ----

  lemma RenumberedSpaced(ts: seq<Tok>, k: nat)
    requires Firm(ts)
    ensures Firm(Renumber(ts, k))
  {
    var us := Renumber(ts, k);
    forall i | 0 <= i < |us| - 1 ensures Follows(us[i], us[i + 1]) {
      assert Follows(ts[i], ts[i + 1]);
      if ts[i + 1].Opaque? && HeadNotDigit(ts[i + 1].s) {
        RenumberedHead(ts[i + 1].s, k);
      }
    }
    forall i | 0 <= i < |us| ensures us[i].Text? ==> Keyword(us[i].s) {
      assert ts[i].Text? ==> Keyword(ts[i].s);
    }
  }

  lemma {:induction false} FilterSpaced(f: Filter, k: nat, d: Dialect)
    ensures Firm(FilterTokens(f, k, d)) && FilterTokens(f, k, d) != []
  {
    hide Firm, Spaced, FiltersTokens, PlanTokens;
    match f
    case Compare(c, op, v) => CompareSpaced(c, op, v, k, d);
    case And(fs) =>
      FiltersSpaced(fs, AND, false, k, d);
      GroupSpaced(FiltersTokens(fs, AND, false, k, d));
    case Or(fs) =>
      FiltersSpaced(fs, OR, false, k, d);
      GroupSpaced(FiltersTokens(fs, OR, false, k, d));
    case Subquery(c, op, p) =>
      PlanSpaced(p, [], d);
      SubquerySpaced(c, op, PlanTokens(p, [], d));
  }

  lemma SubquerySpaced(c: string, op: SubqueryOp, ts: seq<Tok>)
    requires Firm(ts)
    ensures Firm((if (op.InPlan? || op.NotInPlan?) && c != "" then [Ident(c)] else []) + [SubqueryText(op), LP] + ts +
                 [RP])
  {
    var pre := (if (op.InPlan? || op.NotInPlan?) && c != "" then [Ident(c)] else []) + [SubqueryText(op), LP];
    SpacedThree(pre, ts, [RP]);
  }

  lemma GroupSpaced(ts: seq<Tok>)
    requires Firm(ts)
    ensures Firm([LP] + ts + [RP])
  {
    SpacedThree([LP], ts, [RP]);
  }

  lemma CompareSpaced(c: string, op: Comparator, v: Value, k: nat, d: Dialect)
    ensures Firm(FilterTokens(Compare(c, op, v), k, d))
  {
    if op.In? {
      var holes := Separated(Holes(|InList(v)|, k, d), COMMA, false);
      HoleListSpaced(|InList(v)|, k, d);
      SpacedThree([Ident(c), OpText(In), LP], holes, [RP]);
    }
  }

  lemma {:induction false} FiltersSpaced(fs: seq<Filter>, sep: Tok, lead: bool, k: nat, d: Dialect)
    requires sep == AND || sep == OR
    ensures Firm(FiltersTokens(fs, sep, lead, k, d))
    decreases fs, 0
  {
    if fs != [] {
      hide Firm, FilterTokens;
      var head, ts, k' := if lead then [sep] else [], FilterTokens(fs[0], k, d), k + |FilterValues(fs[0])|;
      assert Firm(head) by { SepFirm(sep); }
      FilterSpaced(fs[0], k, d);
      FiltersSpaced(fs[1..], sep, true, k', d);
      FirmPair(head, ts);
      FirmPair(head + ts, FiltersTokens(fs[1..], sep, true, k', d));
    }
  }

  lemma SepFirm(sep: Tok)
    requires sep == AND || sep == OR
    ensures Firm([sep]) && Firm([])
  {
  }

  lemma {:induction false} WhereSpaced(fs: seq<Filter>, raws: seq<RawFilter>, k: nat, d: Dialect)
    ensures Firm(WhereTokens(fs, raws, k, d))
    decreases fs, 1
  {
    FiltersSpaced(fs, AND, false, k, d);
    RawsSpaced(raws, fs != [], d);
    hide FilterTokens, RawClauses;
    SpacedPair([Text(" WHERE ")], FiltersTokens(fs, AND, false, k, d));
    if fs == [] {
      assert [Text(" WHERE ")] + FiltersTokens(fs, AND, false, k, d) == [Text(" WHERE ")];
    }
    SpacedPair([Text(" WHERE ")] + FiltersTokens(fs, AND, false, k, d), RawClauses(raws, fs != [], d));
  }

  lemma {:induction false} HavingSpaced(having: seq<Filter>, k: nat, d: Dialect)
    ensures Firm(HavingTokens(having, k, d))
    decreases having, 1
  {
    FiltersSpaced(having, AND, false, k, d);
    SpacedPair([Text(" HAVING ")], FiltersTokens(having, AND, false, k, d));
  }

  lemma {:induction false} BranchSpaced(b: Branch, k: nat, inherited: seq<string>, d: Dialect)
    ensures Firm(BranchTokens(b, k, inherited, d))
  {
    match b
    case UnionBranch(op, q) =>
      PlanSpaced(q, inherited, d);
      RenumberedSpaced(PlanTokens(q, inherited, d), k);
      var sub := if d.Postgres? then Renumber(PlanTokens(q, inherited, d), k) else PlanTokens(q, inherited, d);
      SpacedThree([SetOpText(op), LP], sub, [RP]);
    case WithQuery(_, columns, q) =>
      PlanSpaced(q, [], d);
      WithHeadSpaced(b);
      SpacedThree(WithHead(b), PlanTokens(q, [], d), [RP]);
  }

  lemma WithHeadSpaced(b: Branch)
    requires b.WithQuery?
    ensures Firm(WithHead(b))
  {
    var list := Separated(Opaques(b.columns), COMMA, false);
    SeparatedSpaced(Opaques(b.columns), COMMA, false);
    SpacedThree([Text(" "), LP], list, [RP]);
    var columns := if b.columns == [] then [] else [Text(" "), LP] + list + [RP];
    SpacedThree([Ident(b.name)], columns, [Text(" AS "), LP]);
  }

  lemma {:induction false} BranchesSpaced(bs: seq<Branch>, sep: seq<Tok>, lead: bool, k: nat, inherited: seq<string>,
                                          d: Dialect)
    requires Firm(sep)
    ensures Firm(BranchesTokens(bs, sep, lead, k, inherited, d))
    decreases bs, 0
  {
    if bs != [] {
      hide Firm, BranchTokens;
      var head, ts, k' := if lead then sep else [], BranchTokens(bs[0], k, inherited, d), k + |BranchValues(bs[0])|;
      SepFirm(AND);
      BranchSpaced(bs[0], k, inherited, d);
      BranchesSpaced(bs[1..], sep, true, k', inherited, d);
      FirmPair(head, ts);
      FirmPair(head + ts, BranchesTokens(bs[1..], sep, true, k', inherited, d));
    } else {
      SepFirm(AND);
    }
  }

  lemma {:induction false} WithSpaced(ctes: seq<Branch>, k: nat, d: Dialect)
    ensures Firm(WithTokens(ctes, k, d))
    decreases ctes, 1
  {
    BranchesSpaced(ctes, [COMMA], false, k, [], d);
    SpacedThree([Text("WITH ")], BranchesTokens(ctes, [COMMA], false, k, [], d), [Text(" ")]);
  }

  lemma {:induction false} FromSpaced(p: Plan, d: Dialect)
    requires p.Select?
    ensures Spaced(FromTokens(p, d))
    decreases p, 0
  {
    if IsFts5(p.fts) {
      Fts5Spaced(p.table, p.fts.value);
    } else if p.from.FromPlan? {
      PlanSpaced(p.from.query, [], d);
      hide PlanTokens;
      SpacedThree([LP], PlanTokens(p.from.query, [], d), [RP, Text(" AS "), Ident(p.from.alias)]);
    }
  }

  lemma Fts5Spaced(table: string, fts: Fts)
    ensures Spaced(Fts5Source(table, fts))
  {
  }

  lemma HeadSpaced(p: Plan, columns: seq<string>, source: seq<Tok>, d: Dialect)
    requires p.Select? && Spaced(source)
    ensures Firm(SelectHead(p, columns, source, d)) && SelectHead(p, columns, source, d)[0] == Text("SELECT ")
  {
    var distinct, items := DistinctClause(p.distinct, p.distinctOn), ItemTokens(p, columns, d);
    DistinctSpaced(p);
    ItemsSpaced(p, columns, d);
    hide ItemTokens, DistinctClause;
    SpacedPair([Text("SELECT ")], distinct);
    SpacedPair([Text("SELECT ")] + distinct, items);
    SpacedPair([Text("SELECT ")] + distinct + items, [Text(" FROM ")]);
    SpacedPair([Text("SELECT ")] + distinct + items + [Text(" FROM ")], source);
  }

  lemma {:induction false} MiddleSpaced(p: Plan, d: Dialect)
    requires p.Select?
    ensures Firm(MiddleTokens(p, d))
    decreases p, 0
  {
    hide Firm, FtsTokens, HavingTokens, WhereTokens, JoinClause, GroupClause, TailClause, MiddleTokens;
    SharedSpaced(p);
    WhereSpaced(p.filters, p.rawFilters, WhereStart(p), d);
    FtsSpaced(p, |JsonValues(p.jsonOps)| + |FromValues(p.from)|, d);
    HavingSpaced(p.having, HavingStart(p), d);
    MiddleParts(p, d);
  }

  lemma MiddleParts(p: Plan, d: Dialect)
    requires p.Select?
    requires Firm(JoinClause(p.joins)) && Firm(WhereTokens(p.filters, p.rawFilters, WhereStart(p), d))
    requires Firm(FtsTokens(p, |JsonValues(p.jsonOps)| + |FromValues(p.from)|, d)) && Firm(GroupClause(p.groupBy))
    requires Firm(HavingTokens(p.having, HavingStart(p), d)) && Firm(TailClause(p.tail))
    ensures Firm(MiddleTokens(p, d))
  {
    hide Firm, JoinClause, WhereTokens, FtsTokens, GroupClause, HavingTokens, TailClause;
    var j, w := JoinClause(p.joins), WhereTokens(p.filters, p.rawFilters, WhereStart(p), d);
    var q, g := FtsTokens(p, |JsonValues(p.jsonOps)| + |FromValues(p.from)|, d), GroupClause(p.groupBy);
    var h := HavingTokens(p.having, HavingStart(p), d);
    FirmPair(j, w);
    FirmPair(j + w, q);
    FirmPair(j + w + q, g);
    FirmPair(j + w + q + g, h);
    FirmPair(j + w + q + g + h, TailClause(p.tail));
  }

  lemma {:induction false} SelectSpaced(p: Plan, inherited: seq<string>, d: Dialect)
    requires p.Select?
    ensures Firm(SelectTokens(p, inherited, d))
    decreases p, 1
  {
    var columns := EffectiveColumns(p, inherited);
    if p.deny {
      HeadSpaced(p, columns, [Ident(p.table)], d);
      SpacedPair(SelectHead(p, columns, [Ident(p.table)], d), [Text(" WHERE 1=0")]);
    } else {
      WithSpaced(p.ctes, WithStart(p), d);
      FromSpaced(p, d);
      HeadSpaced(p, columns, FromTokens(p, d), d);
      MiddleSpaced(p, d);
      SepFirm(AND);
      BranchesSpaced(p.unions, [], false, UnionStart(p), columns, d);
      hide Firm, WithTokens, FromTokens, SelectHead, MiddleTokens, BranchesTokens;
      var w, h, m := WithTokens(p.ctes, WithStart(p), d), SelectHead(p, columns, FromTokens(p, d), d),
        MiddleTokens(p, d);
      FirmPair(w, h);
      FirmPair(w + h, m);
      FirmPair(w + h + m, BranchesTokens(p.unions, [], false, UnionStart(p), columns, d));
    }
  }

  /** Every plan, nested to any depth. */
  lemma {:induction false} PlanSpaced(p: Plan, inherited: seq<string>, d: Dialect)
    ensures Firm(PlanTokens(p, inherited, d))
    decreases p, 2
  {
    if p.Select? {
      SelectSpaced(p, inherited, d);
    } else if p.Insert? {
      InsertSpaced(p, inherited, d);
    } else {
      ReturningSpaced(p.returning, SupportsReturning(d));
      var n := if p.Update? then |p.assignments| else 0;
      WhereSpaced(p.filters, p.rawFilters, n, d);
      WriteSpaced(p, inherited, n, d);
    }
  }

  lemma WriteSpaced(p: Plan, inherited: seq<string>, n: nat, d: Dialect)
    requires (p.Update? || p.Delete?) && n == if p.Update? then |p.assignments| else 0
    requires Firm(WhereTokens(p.filters, p.rawFilters, n, d)) &&
             Firm(ReturningClause(p.returning, SupportsReturning(d)))
    ensures Firm(PlanTokens(p, inherited, d))
  {
    var w := WhereTokens(p.filters, p.rawFilters, n, d);
    hide WhereTokens, ReturningClause;
    var head := if p.Update? then [Text("UPDATE "), Ident(p.table), Text(" SET ")]
      else [Text("DELETE FROM "), Ident(p.table)];
    assert Firm(head);
    if p.Update? {
      AssignmentsSpaced(p.assignments, false, 0, d);
      FirmPair(head, AssignmentTokens(p.assignments, false, 0, d));
      head := head + AssignmentTokens(p.assignments, false, 0, d);
    }
    hide Firm;
    FirmPair(head, w);
    FirmPair(head + w, ReturningClause(p.returning, SupportsReturning(d)));
  }

  lemma InsertHeadSpaced(table: string, keys: seq<string>)
    ensures Firm([Text("INSERT INTO "), Ident(table), Text(" "), LP] + ColumnList(keys, COMMA) + [RP, Text(" VALUES ")])
  {
    SeparatedSpaced(Idents(keys), COMMA, false);
    hide ColumnList;
    SpacedThree([Text("INSERT INTO "), Ident(table), Text(" "), LP], ColumnList(keys, COMMA), [RP, Text(" VALUES ")]);
  }

  lemma InsertSpaced(p: Plan, inherited: seq<string>, d: Dialect)
    requires p.Insert?
    ensures Firm(PlanTokens(p, inherited, d))
  {
    var keys := InsertKeys(p.rows);
    var head := [Text("INSERT INTO "), Ident(p.table), Text(" "), LP] + ColumnList(keys, COMMA) +
      [RP, Text(" VALUES ")];
    var rows, n := RowsTokens(|p.rows|, |keys|, false, 0, d), |RowsValues(p.rows, keys)|;
    hide Firm, RowsTokens, ConflictTokens, ReturningClause, ColumnList, RowsValues;
    InsertHeadSpaced(p.table, keys);
    RowsSpaced(|p.rows|, |keys|, false, 0, d);
    ConflictSpaced(p.onConflict, n, d);
    ReturningSpaced(p.returning, SupportsReturning(d));
    FirmPair(head, rows);
    FirmPair(head + rows, ConflictTokens(p.onConflict, n, d));
    FirmPair(head + rows + ConflictTokens(p.onConflict, n, d), ReturningClause(p.returning, SupportsReturning(d)));
  }
}
