/** Parentheses balance in every rendered plan, so a reader can find where a nested one ends. */
module Balance {
  import opened Wrappers
  import opened Plans
  import opened Reference
  import opened Placeholders
  import opened Skeleton

  /** How deep in parentheses a reader stands after `ts`; below the start it stays at -1. */
  function Depth(ts: seq<Tok>, depth: int): int {
    if depth < 0 then -1
    else if ts == [] then depth
    else Depth(ts[1..], if ts[0] == LP then depth + 1 else if ts[0] == RP then depth - 1 else depth)
  }

  ghost predicate Balanced(ts: seq<Tok>) {
    forall depth: nat :: Depth(ts, depth) == depth
  }

  predicate IsParen(t: Tok) {
    t == LP || t == RP
  }

  predicate Flat(ts: seq<Tok>) {
    forall t | t in ts :: !IsParen(t)
  }

  lemma {:induction false} DepthConcat(a: seq<Tok>, b: seq<Tok>, depth: int)
    ensures Depth(a + b, depth) == Depth(b, Depth(a, depth))
    decreases |a|
  {
    if a == [] {
      assert a + b == b;
    } else if depth >= 0 {
      assert (a + b)[1..] == a[1..] + b;
      DepthConcat(a[1..], b, if a[0] == LP then depth + 1 else if a[0] == RP then depth - 1 else depth);
    }
  }

  lemma {:induction false} FlatDepth(ts: seq<Tok>, depth: int)
    requires Flat(ts)
    ensures Depth(ts, depth) == if depth < 0 then -1 else depth
    decreases |ts|
  {
    if ts != [] && depth >= 0 {
      assert ts[0] in ts;
      FlatDepth(ts[1..], depth);
    }
  }

  lemma FlatBalanced(ts: seq<Tok>)
    requires Flat(ts)
    ensures Balanced(ts)
  {
    forall depth: nat ensures Depth(ts, depth) == depth { FlatDepth(ts, depth); }
  }

  lemma BalancedPair(a: seq<Tok>, b: seq<Tok>)
    requires Balanced(a) && Balanced(b)
    ensures Balanced(a + b)
  {
    forall depth: nat ensures Depth(a + b, depth) == depth { DepthConcat(a, b, depth); }
  }

  /** `pre ( ts ) post` with no other parentheses in `pre` and `post`. */
  lemma BalancedWrap(pre: seq<Tok>, ts: seq<Tok>, post: seq<Tok>)
    requires Flat(pre) && Flat(post) && Balanced(ts)
    ensures Balanced(pre + [LP] + ts + ([RP] + post))
  {
    forall depth: nat ensures Depth(pre + [LP] + ts + ([RP] + post), depth) == depth {
      DepthConcat(pre + [LP] + ts, [RP] + post, depth);
      DepthConcat(pre + [LP], ts, depth);
      DepthConcat(pre, [LP], depth);
      DepthConcat([RP], post, depth + 1);
      FlatDepth(pre, depth);
      FlatDepth(post, depth);
    }
  }

  lemma {:induction false} SeparatedFlat(items: seq<Tok>, sep: Tok, lead: bool)
    requires Flat(items) && !IsParen(sep)
    ensures Flat(Separated(items, sep, lead))
  {
    if items != [] {
      SeparatedFlat(items[1..], sep, true);
    }
  }

  lemma {:induction false} HolesFlat(holes: seq<RawHole>, ps: seq<Value>)
    ensures Flat(HolesTokens(holes, ShownHole(ps)))
  {
    if holes != [] {
      HolesFlat(holes[1..], ps);
    }
  }

  lemma {:induction false} RawTokensFlat(e: RawExpr, ps: seq<Value>)
    ensures Flat(RawTokens(e, ShownHole(ps)))
  {
    HolesFlat(e.text.holes, ps);
    if !e.Factor? {
      RawTokensFlat(e.others, ps);
    }
  }

  lemma {:induction false} RawClausesFlat(raws: seq<RawFilter>, lead: bool)
    ensures Flat(RefRaws(raws, lead))
  {
    if raws != [] {
      RawTokensFlat(raws[0].expr, raws[0].params);
      RawClausesFlat(raws[1..], true);
    }
  }

  lemma SharedBalanced(p: Plan)
    requires p.Select?
    ensures Balanced(DistinctClause(p.distinct, p.distinctOn)) && Balanced(GroupClause(p.groupBy))
    ensures Balanced(TailClause(p.tail)) && Balanced(JoinClause(p.joins))
  {
    SeparatedFlat(Idents(p.distinctOn), COMMA, false);
    SeparatedFlat(Idents(p.groupBy), COMMA, false);
    SeparatedFlat(Opaques(p.tail), Text(" "), true);
    SeparatedFlat(Opaques(p.joins), Text(" "), true);
    FlatBalanced(GroupClause(p.groupBy));
    FlatBalanced(TailClause(p.tail));
    FlatBalanced(JoinClause(p.joins));
    var columns := ColumnList(p.distinctOn, COMMA);
    FlatBalanced(columns);
    BalancedWrap([Text("DISTINCT ON ")], columns, [Text(" ")]);
    assert [Text("DISTINCT ON ")] + [LP] + columns + ([RP] + [Text(" ")]) ==
           [Text("DISTINCT ON "), LP] + columns + [RP, Text(" ")];
    FlatBalanced([Text("DISTINCT ")]);
    FlatBalanced([]);
  }

  lemma {:induction false} JsonBalanced(ops: seq<JsonOp>, lead: bool)
    ensures Balanced(RefJson(ops, lead))
  {
    FlatBalanced([]);
    if ops != [] {
      var sep := if lead then [COMMA] else [];
      FlatBalanced(sep);
      match ops[0] {
        case JsonSet(c, path, v, alias) =>
          var args, post := [Ident(c), COMMA, Opaque(path), COMMA, Lit(v)], [Text(" AS "), Ident(alias)];
          FlatBalanced(args);
          BalancedWrap([Text("json_set")], args, post);
          assert RefJsonOp(ops[0]) == [Text("json_set")] + [LP] + args + ([RP] + post);
        case JsonText(text) => FlatBalanced([Opaque(text)]);
      }
      JsonBalanced(ops[1..], true);
      BalancedPair(sep, RefJsonOp(ops[0]));
      BalancedPair(sep + RefJsonOp(ops[0]), RefJson(ops[1..], true));
    }
  }

  lemma ItemsBalanced(p: Plan, columns: seq<string>)
    requires p.Select?
    ensures Balanced(RefItems(p, columns))
  {
    if columns == [] && p.windows == [] && p.jsonOps == [] && p.expressions == [] {
      FlatBalanced([Text("*")]);
    } else {
      var a := Separated(Idents(columns), COMMA, false);
      var b := Separated(Opaques(p.windows), COMMA, columns != []);
      var c := Separated(Opaques(p.expressions), COMMA, columns != [] || p.windows != [] || p.jsonOps != []);
      SeparatedFlat(Idents(columns), COMMA, false);
      SeparatedFlat(Opaques(p.windows), COMMA, columns != []);
      SeparatedFlat(Opaques(p.expressions), COMMA, columns != [] || p.windows != [] || p.jsonOps != []);
      FlatBalanced(a + b);
      FlatBalanced(c);
      JsonBalanced(p.jsonOps, columns != [] || p.windows != []);
      BalancedPair(a + b, RefJson(p.jsonOps, columns != [] || p.windows != []));
      BalancedPair(a + b + RefJson(p.jsonOps, columns != [] || p.windows != []), c);
    }
  }

  lemma FtsBalanced(p: Plan)
    requires p.Select?
    ensures Balanced(RefFts(p))
  {
    FlatBalanced([]);
    if p.fts.Some? {
      var fts := p.fts.value;
      var hole := Lit(fts.query);
      var keyword := [if p.filters == [] then Text(" WHERE ") else AND];
      FlatBalanced(keyword);
      FlatBalanced([hole]);
      match fts.mode {
        case Fts5 => FlatBalanced(FtsCondition(p.table, fts, hole));
        case TsVector =>
          var columns := ColumnList(fts.columns, Text(" || ' ' || "));
          SeparatedFlat(Idents(fts.columns), Text(" || ' ' || "), false);
          FlatBalanced(columns);
          BalancedWrap([Text("to_tsvector")], columns, [Text(" @@ plainto_tsquery")]);
          BalancedWrap([], [hole], []);
          BalancedPair([Text("to_tsvector")] + [LP] + columns + ([RP] + [Text(" @@ plainto_tsquery")]),
                       [] + [LP] + [hole] + ([RP] + []));
          assert FtsCondition(p.table, fts, hole) ==
                 [Text("to_tsvector")] + [LP] + columns + ([RP] + [Text(" @@ plainto_tsquery")]) +
                 ([] + [LP] + [hole] + ([RP] + []));
        case FullText =>
          var columns := ColumnList(fts.columns, COMMA);
          SeparatedFlat(Idents(fts.columns), COMMA, false);
          FlatBalanced(columns);
          BalancedWrap([Text("MATCH ")], columns, [Text(" AGAINST ")]);
          BalancedWrap([], [hole], []);
          BalancedPair([Text("MATCH ")] + [LP] + columns + ([RP] + [Text(" AGAINST ")]), [] + [LP] + [hole] +
                       ([RP] + []));
          assert FtsCondition(p.table, fts, hole) ==
                 [Text("MATCH ")] + [LP] + columns + ([RP] + [Text(" AGAINST ")]) + ([] + [LP] + [hole] + ([RP] + []));
      }
      BalancedPair(keyword, FtsCondition(p.table, fts, hole));
    }
  }

  lemma CompareBalanced(c: string, op: Comparator, v: Value, r: bool)
    ensures Balanced(RefFilter(Compare(c, op, v), r))
  {
    if op.In? {
      var list := Separated(Literals(InList(v)), COMMA, false);
      SeparatedFlat(Literals(InList(v)), COMMA, false);
      FlatBalanced(list);
      BalancedWrap([Ident(c), OpText(In)], list, []);
      assert [Ident(c), OpText(In), LP] + list + [RP] == [Ident(c), OpText(In)] + [LP] + list + ([RP] + []);
    } else if op.Between? {
      FlatBalanced([Ident(c), OpText(Between), Lit(BetweenLow(v)), AND, Lit(BetweenHigh(v))]);
    } else {
      FlatBalanced([Ident(c), OpText(op), Lit(v)]);
    }
  }

  lemma {:induction false} FilterBalanced(f: Filter, r: bool)
    ensures Balanced(RefFilter(f, r))
  {
    hide Balanced;
    match f
    case Compare(c, op, v) => CompareBalanced(c, op, v, r);
    case And(fs) =>
      FiltersBalanced(fs, AND, false, r);
      ParenthesesBalanced([], RefFilters(fs, AND, false, r));
    case Or(fs) =>
      FiltersBalanced(fs, OR, false, r);
      ParenthesesBalanced([], RefFilters(fs, OR, false, r));
    case Subquery(c, op, p) =>
      PlanBalanced(p, [], r);
      ParenthesesBalanced((if (op.InPlan? || op.NotInPlan?) && c != "" then [Ident(c)] else []) + [SubqueryText(op)],
                          RefPlan(p, [], r));
  }

  lemma ParenthesesBalanced(pre: seq<Tok>, ts: seq<Tok>)
    requires Flat(pre) && Balanced(ts)
    ensures Balanced(pre + [LP] + ts + [RP])
    ensures pre == [] ==> Balanced([LP] + ts + [RP])
    ensures forall a: seq<Tok>, b: Tok | pre == a + [b] :: Balanced(a + [b, LP] + ts + [RP])
  {
    BalancedWrap(pre, ts, []);
    assert pre + [LP] + ts + ([RP] + []) == pre + [LP] + ts + [RP];
    assert pre == [] ==> pre + [LP] == [LP];
    forall a: seq<Tok>, b: Tok | pre == a + [b] ensures Balanced(a + [b, LP] + ts + [RP]) {
      assert pre + [LP] == a + [b, LP];
    }
  }

  lemma {:induction false} FiltersBalanced(fs: seq<Filter>, sep: Tok, lead: bool, r: bool)
    requires sep == AND || sep == OR
    ensures Balanced(RefFilters(fs, sep, lead, r))
    decreases fs, 0
  {
    FlatBalanced([]);
    if fs != [] {
      var pre := if lead then [sep] else [];
      FlatBalanced(pre);
      FilterBalanced(fs[0], r);
      FiltersBalanced(fs[1..], sep, true, r);
      BalancedPair(pre, RefFilter(fs[0], r));
      BalancedPair(pre + RefFilter(fs[0], r), RefFilters(fs[1..], sep, true, r));
    }
  }

  lemma {:induction false} WhereBalanced(fs: seq<Filter>, raws: seq<RawFilter>, r: bool)
    ensures Balanced(RefWhere(fs, raws, r))
    decreases fs, 1
  {
    FlatBalanced([]);
    FlatBalanced([Text(" WHERE ")]);
    FiltersBalanced(fs, AND, false, r);
    RawClausesFlat(raws, fs != []);
    FlatBalanced(RefRaws(raws, fs != []));
    BalancedPair([Text(" WHERE ")], RefFilters(fs, AND, false, r));
    BalancedPair([Text(" WHERE ")] + RefFilters(fs, AND, false, r), RefRaws(raws, fs != []));
  }

  lemma {:induction false} HavingBalanced(having: seq<Filter>, r: bool)
    ensures Balanced(RefHaving(having, r))
    decreases having, 1
  {
    FlatBalanced([]);
    FlatBalanced([Text(" HAVING ")]);
    FiltersBalanced(having, AND, false, r);
    BalancedPair([Text(" HAVING ")], RefFilters(having, AND, false, r));
  }

  lemma {:induction false} BranchBalanced(b: Branch, inherited: seq<string>, r: bool)
    ensures Balanced(RefBranch(b, inherited, r))
  {
    match b
    case UnionBranch(op, q) =>
      PlanBalanced(q, inherited, r);
      BalancedWrap([SetOpText(op)], RefPlan(q, inherited, r), []);
      assert RefBranch(b, inherited, r) == [SetOpText(op)] + [LP] + RefPlan(q, inherited, r) + ([RP] + []);
    case WithQuery(name, columns, q) =>
      PlanBalanced(q, [], r);
      WithQueryBalanced(b, RefPlan(q, [], r));
  }

  lemma WithQueryBalanced(b: Branch, inner: seq<Tok>)
    requires b.WithQuery? && Balanced(inner)
    ensures Balanced(WithHead(b) + inner + [RP])
  {
    var list := Separated(Opaques(b.columns), COMMA, false);
    SeparatedFlat(Opaques(b.columns), COMMA, false);
    FlatBalanced(list);
    FlatBalanced([Ident(b.name)]);
    BalancedWrap([Ident(b.name), Text(" ")], list, []);
    BalancedWrap([Text(" AS ")], inner, []);
    hide Balanced;
    var head := if b.columns == [] then [Ident(b.name)] else [Ident(b.name), Text(" ")] + [LP] + list + ([RP] + []);
    BalancedPair(head, [Text(" AS ")] + [LP] + inner + ([RP] + []));
    assert WithHead(b) + inner + [RP] == head + ([Text(" AS ")] + [LP] + inner + ([RP] + []));
  }

  lemma {:induction false} BranchesBalanced(bs: seq<Branch>, sep: seq<Tok>, lead: bool, inherited: seq<string>, r: bool)
    requires Flat(sep)
    ensures Balanced(RefBranches(bs, sep, lead, inherited, r))
    decreases bs, 0
  {
    FlatBalanced([]);
    if bs != [] {
      var pre := if lead then sep else [];
      FlatBalanced(pre);
      BranchBalanced(bs[0], inherited, r);
      BranchesBalanced(bs[1..], sep, true, inherited, r);
      BalancedPair(pre, RefBranch(bs[0], inherited, r));
      BalancedPair(pre + RefBranch(bs[0], inherited, r), RefBranches(bs[1..], sep, true, inherited, r));
    }
  }

  lemma {:induction false} WithBalanced(ctes: seq<Branch>, r: bool)
    ensures Balanced(RefWith(ctes, r))
    decreases ctes, 1
  {
    FlatBalanced([]);
    FlatBalanced([Text("WITH ")]);
    FlatBalanced([Text(" ")]);
    BranchesBalanced(ctes, [COMMA], false, [], r);
    BalancedPair([Text("WITH ")], RefBranches(ctes, [COMMA], false, [], r));
    BalancedPair([Text("WITH ")] + RefBranches(ctes, [COMMA], false, [], r), [Text(" ")]);
  }

  lemma {:induction false} FromBalanced(p: Plan, r: bool)
    requires p.Select?
    ensures Balanced(RefFrom(p, r))
    decreases p, 0
  {
    hide RefPlan, Balanced;
    if IsFts5(p.fts) {
      FlatBalanced(Fts5Source(p.table, p.fts.value));
    } else if p.from.FromPlan? {
      PlanBalanced(p.from.query, [], r);
      BalancedWrap([], RefPlan(p.from.query, [], r), [Text(" AS "), Ident(p.from.alias)]);
      assert RefFrom(p, r) == [] + [LP] + RefPlan(p.from.query, [], r) + ([RP] + [Text(" AS "), Ident(p.from.alias)]);
    } else {
      FlatBalanced([Ident(p.table)]);
    }
  }

  lemma HeadBalanced(p: Plan, columns: seq<string>, source: seq<Tok>)
    requires p.Select? && Balanced(source)
    ensures Balanced(RefHead(p, columns, source))
  {
    SharedBalanced(p);
    ItemsBalanced(p, columns);
    FlatBalanced([Text("SELECT ")]);
    FlatBalanced([Text(" FROM ")]);
    var distinct, items := DistinctClause(p.distinct, p.distinctOn), RefItems(p, columns);
    BalancedPair([Text("SELECT ")], distinct);
    BalancedPair([Text("SELECT ")] + distinct, items);
    BalancedPair([Text("SELECT ")] + distinct + items, [Text(" FROM ")]);
    BalancedPair([Text("SELECT ")] + distinct + items + [Text(" FROM ")], source);
  }

  lemma {:induction false} MiddleBalanced(p: Plan, r: bool)
    requires p.Select?
    ensures Balanced(RefMiddle(p, r))
    decreases p, 0
  {
    SharedBalanced(p);
    WhereBalanced(p.filters, p.rawFilters, r);
    FtsBalanced(p);
    HavingBalanced(p.having, r);
    hide *;
    var j, w, q, g := JoinClause(p.joins), RefWhere(p.filters, p.rawFilters, r), RefFts(p), GroupClause(p.groupBy);
    BalancedPair(j, w);
    BalancedPair(j + w, q);
    BalancedPair(j + w + q, g);
    BalancedPair(j + w + q + g, RefHaving(p.having, r));
    BalancedPair(j + w + q + g + RefHaving(p.having, r), TailClause(p.tail));
    MiddleIs(p, r);
  }

  lemma MiddleIs(p: Plan, r: bool)
    requires p.Select?
    ensures RefMiddle(p, r) == JoinClause(p.joins) + RefWhere(p.filters, p.rawFilters, r) + RefFts(p) +
                               GroupClause(p.groupBy) + RefHaving(p.having, r) + TailClause(p.tail)
  {
  }

  lemma {:induction false} SelectBalanced(p: Plan, inherited: seq<string>, r: bool)
    requires p.Select?
    ensures Balanced(RefSelect(p, inherited, r))
    decreases p, 1
  {
    var columns := EffectiveColumns(p, inherited);
    if p.deny {
      FlatBalanced([Ident(p.table)]);
      HeadBalanced(p, columns, [Ident(p.table)]);
      FlatBalanced([Text(" WHERE 1=0")]);
      BalancedPair(RefHead(p, columns, [Ident(p.table)]), [Text(" WHERE 1=0")]);
    } else {
      WithBalanced(p.ctes, r);
      FromBalanced(p, r);
      HeadBalanced(p, columns, RefFrom(p, r));
      MiddleBalanced(p, r);
      BranchesBalanced(p.unions, [], false, columns, r);
      var w, h, m := RefWith(p.ctes, r), RefHead(p, columns, RefFrom(p, r)), RefMiddle(p, r);
      BalancedPair(w, h);
      BalancedPair(w + h, m);
      BalancedPair(w + h + m, RefBranches(p.unions, [], false, columns, r));
    }
  }

  lemma {:induction false} RowsBalanced(rows: seq<Record>, keys: seq<string>, lead: bool)
    ensures Balanced(RefRows(rows, keys, lead))
  {
    FlatBalanced([]);
    if rows != [] {
      var pre, list := if lead then [COMMA] else [], Separated(RefRow(rows[0], keys), COMMA, false);
      SeparatedFlat(RefRow(rows[0], keys), COMMA, false);
      FlatBalanced(list);
      BalancedWrap(pre, list, []);
      RowsBalanced(rows[1..], keys, true);
      BalancedPair(pre + [LP] + list + ([RP] + []), RefRows(rows[1..], keys, true));
      assert pre + [LP] + list + ([RP] + []) == pre + [LP] + list + [RP];
    }
  }

  lemma {:induction false} AssignmentsFlat(r: Record, lead: bool)
    ensures Flat(RefAssignments(r, lead))
  {
    if r != [] {
      AssignmentsFlat(r[1..], true);
    }
  }

  lemma ConflictBalanced(oc: Option<OnConflict>)
    ensures Balanced(RefConflict(oc))
  {
    FlatBalanced([]);
    FlatBalanced([Text(" ON CONFLICT DO NOTHING")]);
    if oc.Some? && oc.value.target.Some? {
      var columns := ColumnList(oc.value.target.value, COMMA);
      SeparatedFlat(Idents(oc.value.target.value), COMMA, false);
      FlatBalanced(columns);
      if oc.value.action.DoNothing? {
        BalancedWrap([Text(" ON CONFLICT ")], columns, [Text(" DO NOTHING")]);
        assert RefConflict(oc) == [Text(" ON CONFLICT ")] + [LP] + columns + ([RP] + [Text(" DO NOTHING")]);
      } else if oc.value.assignments.Some? {
        var sets := RefAssignments(oc.value.assignments.value, false);
        AssignmentsFlat(oc.value.assignments.value, false);
        BalancedWrap([Text(" ON CONFLICT ")], columns, [Text(" DO UPDATE SET ")] + sets);
        assert RefConflict(oc) == [Text(" ON CONFLICT ")] + [LP] + columns +
               ([RP] + ([Text(" DO UPDATE SET ")] + sets));
      }
    }
  }

  lemma ReturningBalanced(returning: seq<string>, r: bool)
    ensures Balanced(ReturningClause(returning, r))
  {
    SeparatedFlat(seq(|returning|, i requires 0 <= i < |returning| =>
      if returning[i] == "*" then Text("*") else Ident(returning[i])), COMMA, false);
    FlatBalanced(ReturningClause(returning, r));
  }

  /** Every plan, nested to any depth. */
  lemma {:induction false} PlanBalanced(p: Plan, inherited: seq<string>, r: bool)
    ensures Balanced(RefPlan(p, inherited, r))
    decreases p, 2
  {
    if p.Select? {
      SelectBalanced(p, inherited, r);
    } else {
      ReturningBalanced(p.returning, r);
      if p.Insert? {
        InsertBalanced(p, inherited, r);
      } else {
        WhereBalanced(p.filters, p.rawFilters, r);
        var head := if p.Update? then [Text("UPDATE "), Ident(p.table), Text(" SET ")] +
          RefAssignments(p.assignments, false)
          else [Text("DELETE FROM "), Ident(p.table)];
        if p.Update? {
          AssignmentsFlat(p.assignments, false);
        }
        FlatBalanced(head);
        BalancedPair(head, RefWhere(p.filters, p.rawFilters, r));
        BalancedPair(head + RefWhere(p.filters, p.rawFilters, r), ReturningClause(p.returning, r));
      }
    }
  }

  lemma InsertBalanced(p: Plan, inherited: seq<string>, r: bool)
    requires p.Insert? && Balanced(ReturningClause(p.returning, r))
    ensures Balanced(RefPlan(p, inherited, r))
  {
    var keys := if p.rows == [] then [] else Keys(p.rows[0]);
    var columns := ColumnList(keys, COMMA);
    SeparatedFlat(Idents(keys), COMMA, false);
    FlatBalanced(columns);
    BalancedWrap([Text("INSERT INTO "), Ident(p.table), Text(" ")], columns, [Text(" VALUES ")]);
    RowsBalanced(p.rows, keys, false);
    ConflictBalanced(p.onConflict);
    var head := [Text("INSERT INTO "), Ident(p.table), Text(" "), LP] + columns + [RP, Text(" VALUES ")];
    assert head == [Text("INSERT INTO "), Ident(p.table), Text(" ")] + [LP] + columns + ([RP] + [Text(" VALUES ")]);
    BalancedPair(head, RefRows(p.rows, keys, false));
    BalancedPair(head + RefRows(p.rows, keys, false), RefConflict(p.onConflict));
    BalancedPair(head + RefRows(p.rows, keys, false) + RefConflict(p.onConflict), ReturningClause(p.returning, r));
  }
}
