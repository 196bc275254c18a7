/** One induction over all plans: the compiler's text and the reference text have the same shape,
    a placeholder on one side standing where a value stands on the other, and the values and
    placeholder numbers appear in the order module TextOrder reads off the plan. */
module Skeleton {
  import opened Wrappers
  import opened Plans
  import opened Emission
  import opened Reference
  import opened Placeholders
  import opened Rewriting
  import opened Tame
  import opened TextOrder

  /** Only the placeholder style of the dialect occurs, and no value. */
  predicate Native(ts: seq<Tok>, d: Dialect) {
    forall t | t in ts :: !t.Lit? && (if d.Postgres? then !t.Mark? else !t.Dollar?)
  }

  predicate Rendered(r: seq<Tok>) {
    forall t | t in r :: !IsHole(t)
  }

  /** A token and what it stands for in the reference: the same up to its value or number, or a text
      that was renumbered. */
  ghost predicate Grown(t: Tok, u: Tok) {
    EraseTok(t) == EraseTok(u) || exists m: nat :: GrownBy(t, u, m)
  }

  predicate GrownBy(t: Tok, u: Tok, m: nat) {
    (u.Opaque? || u.Ident?) && t == RenumberTok(u, m)
  }

  ghost predicate Loose(ts: seq<Tok>, r: seq<Tok>) {
    |ts| == |r| && forall i | 0 <= i < |ts| :: Grown(ts[i], r[i])
  }

  /** `ts` is as long as `r` and differs from its shape at most in renumbered text; it has the shape
      of `r` exactly if it is tame; `r` shows the values `vs`, and `ts` the numbers `ns`. */
  ghost predicate Match(ts: seq<Tok>, r: seq<Tok>, vs: seq<Value>, ns: seq<nat>, tame: bool, d: Dialect) {
    && Loose(ts, r) && (Erase(ts) == Erase(r) <==> (d.Postgres? ==> tame))
    && Native(ts, d) && Rendered(r) && Lits(r) == vs && (d.Postgres? ==> Numbers(ts) == ns)
  }

  lemma MatchPair(a: seq<Tok>, r: seq<Tok>, v: seq<Value>, m: seq<nat>, x: bool,
                  b: seq<Tok>, s: seq<Tok>, w: seq<Value>, n: seq<nat>, y: bool, d: Dialect)
    requires Match(a, r, v, m, x, d) && Match(b, s, w, n, y, d)
    ensures Match(a + b, r + s, v + w, m + n, x && y, d)
  {
    hide Grown, EraseTok;
    EraseConcat();
    LitsOf(r, s);
    NumbersOf(a, b);
    SameInBoth(Erase(a), Erase(b), Erase(r), Erase(s));
  }

  lemma SameInBoth(a: seq<Tok>, b: seq<Tok>, r: seq<Tok>, s: seq<Tok>)
    requires |a| == |r|
    ensures a + b == r + s <==> a == r && b == s
  {
    if a + b == r + s {
      assert a == (a + b)[..|a|] && b == (a + b)[|a|..] && r == (r + s)[..|r|] && s == (r + s)[|r|..];
    }
  }

  lemma MatchPlain(x: seq<Tok>, d: Dialect)
    requires Plain(x)
    ensures Match(x, x, [], [], true, d)
  {
    PlainNothing(x);
  }

  lemma MatchHole(i: nat, v: Value, d: Dialect)
    ensures Match([Param(d, i)], [Lit(v)], [v], [i], true, d)
  {
    assert Erase([Param(d, i)]) == [Mark] == Erase([Lit(v)]);
  }

  /** Plain text around a matching piece changes neither values nor numbers. */
  lemma MatchWrapped(pre: seq<Tok>, ts: seq<Tok>, r: seq<Tok>, post: seq<Tok>,
                     vs: seq<Value>, ns: seq<nat>, tame: bool, d: Dialect)
    requires Plain(pre) && Plain(post) && Match(ts, r, vs, ns, tame, d)
    ensures Match(pre + ts + post, pre + r + post, vs, ns, tame, d)
  {
    hide Match;
    MatchPlain(pre, d);
    MatchPlain(post, d);
    MatchPair(pre, pre, [], [], true, ts, r, vs, ns, tame, d);
    MatchPair(pre + ts, pre + r, [] + vs, [] + ns, tame, post, post, [], [], true, d);
    assert [] + vs + [] == vs && [] + ns + [] == ns;
  }

  lemma MatchAround(pre: seq<Tok>, k: nat, v: Value, post: seq<Tok>, d: Dialect)
    requires Plain(pre) && Plain(post)
    ensures Match(pre + [Param(d, k + 1)] + post, pre + [Lit(v)] + post, [v], Range(k, 1), true, d)
  {
    hide Match;
    MatchHole(k + 1, v, d);
    assert Range(k, 1) == [k + 1];
    MatchWrapped(pre, [Param(d, k + 1)], [Lit(v)], post, [v], Range(k, 1), true, d);
  }

  lemma MatchAfter(pre: seq<Tok>, ts: seq<Tok>, r: seq<Tok>, vs: seq<Value>, ns: seq<nat>, tame: bool, d: Dialect)
    requires Plain(pre) && Match(ts, r, vs, ns, tame, d)
    ensures Match(pre + ts, pre + r, vs, ns, tame, d)
  {
    hide Match;
    MatchWrapped(pre, ts, r, [], vs, ns, tame, d);
    assert pre + ts + [] == pre + ts && pre + r + [] == pre + r;
  }

  lemma MatchBefore(ts: seq<Tok>, r: seq<Tok>, post: seq<Tok>, vs: seq<Value>, ns: seq<nat>, tame: bool, d: Dialect)
    requires Plain(post) && Match(ts, r, vs, ns, tame, d)
    ensures Match(ts + post, r + post, vs, ns, tame, d)
  {
    hide Match;
    MatchWrapped([], ts, r, post, vs, ns, tame, d);
    assert [] + ts + post == ts + post && [] + r + post == r + post;
  }

  lemma RangeSplit(k: nat, a: nat, b: nat)
    ensures Range(k, a + b) == Range(k, a) + Range(k + a, b)
  {
  }

  /** A comma list of placeholders against the list of the values themselves. */
  lemma {:induction false} MatchList(vs: seq<Value>, k: nat, lead: bool, d: Dialect)
    ensures Match(Separated(Holes(|vs|, k, d), COMMA, lead), Separated(Literals(vs), COMMA, lead),
                  vs, Range(k, |vs|), true, d)
  {
    hide Match;
    var sep := if lead then [COMMA] else [];
    if vs == [] {
      MatchPlain([], d);
      assert Range(k, 0) == [];
    } else {
      assert Holes(|vs|, k, d)[1..] == Holes(|vs| - 1, k + 1, d);
      assert Literals(vs)[1..] == Literals(vs[1..]);
      MatchList(vs[1..], k + 1, true, d);
      MatchHole(k + 1, vs[0], d);
      assert Range(k, 1) == [k + 1];
      MatchAfter(sep, [Param(d, k + 1)], [Lit(vs[0])], [vs[0]], Range(k, 1), true, d);
      MatchPair(sep + [Param(d, k + 1)], sep + [Lit(vs[0])], [vs[0]], Range(k, 1), true,
                Separated(Holes(|vs| - 1, k + 1, d), COMMA, true), Separated(Literals(vs[1..]), COMMA, true),
                vs[1..], Range(k + 1, |vs| - 1), true, d);
      RangeSplit(k, 1, |vs| - 1);
      assert vs == [vs[0]] + vs[1..];
    }
  }

  // ---- the clauses shared by both sides ----

  lemma SharedClausesPlain(p: Plan)
    requires p.Select?
    ensures Plain(DistinctClause(p.distinct, p.distinctOn)) && Plain(GroupClause(p.groupBy))
    ensures Plain(TailClause(p.tail)) && Plain(JoinClause(p.joins))
  {
    SeparatedPlain(Idents(p.distinctOn), COMMA, false);
    SeparatedPlain(Idents(p.groupBy), COMMA, false);
    SeparatedPlain(Opaques(p.tail), Text(" "), true);
    SeparatedPlain(Opaques(p.joins), Text(" "), true);
  }

  lemma ReturningPlain(returning: seq<string>, canReturn: bool)
    ensures Plain(ReturningClause(returning, canReturn))
  {
    SeparatedPlain(seq(|returning|, i requires 0 <= i < |returning| =>
      if returning[i] == "*" then Text("*") else Ident(returning[i])), COMMA, false);
  }

  // ---- fragments without nested plans ----

  lemma {:induction false} MatchJson(ops: seq<JsonOp>, lead: bool, k: nat, d: Dialect)
    ensures Match(JsonTokens(ops, lead, k, d), RefJson(ops, lead), JsonValues(ops), Range(k, |JsonValues(ops)|), true,
                  d)
  {
    hide Match;
    var sep := if lead then [COMMA] else [];
    if ops == [] {
      MatchPlain([], d);
      assert Range(k, 0) == [];
    } else {
      var n := if ops[0].JsonSet? then 1 else 0;
      MatchJson(ops[1..], true, k + n, d);
      MatchJsonOp(ops[0], k, d);
      var ts, r := JsonOpTokens(ops[0], k, d), RefJsonOp(ops[0]);
      MatchAfter(sep, ts, r, JsonOpValues(ops[0]), Range(k, n), true, d);
      MatchPair(sep + ts, sep + r, JsonOpValues(ops[0]), Range(k, n), true,
                JsonTokens(ops[1..], true, k + n, d), RefJson(ops[1..], true),
                JsonValues(ops[1..]), Range(k + n, |JsonValues(ops[1..])|), true, d);
      RangeSplit(k, n, |JsonValues(ops[1..])|);
    }
  }

  lemma MatchJsonOp(op: JsonOp, k: nat, d: Dialect)
    ensures Match(JsonOpTokens(op, k, d), RefJsonOp(op), JsonOpValues(op), Range(k, |JsonOpValues(op)|), true, d)
  {
    hide Match;
    match op
    case JsonSet(c, path, v, alias) =>
      var pre := [Text("json_set"), LP, Ident(c), COMMA, Opaque(path), COMMA];
      var post := [RP, Text(" AS "), Ident(alias)];
      MatchAround(pre, k, v, post, d);
      assert JsonSetCall(c, path, Param(d, k + 1), alias) == pre + [Param(d, k + 1)] + post;
      assert JsonSetCall(c, path, Lit(v), alias) == pre + [Lit(v)] + post;
    case JsonText(text) =>
      MatchPlain([Opaque(text)], d);
      assert Range(k, 0) == [];
  }

  lemma MatchItems(p: Plan, columns: seq<string>, d: Dialect)
    requires p.Select?
    ensures Match(ItemTokens(p, columns, d), RefItems(p, columns),
                  JsonValues(p.jsonOps), Range(0, |JsonValues(p.jsonOps)|), true, d)
  {
    hide Match;
    if columns == [] && p.windows == [] && p.jsonOps == [] && p.expressions == [] {
      MatchPlain([Text("*")], d);
      assert Range(0, 0) == [];
    } else {
      var a := Separated(Idents(columns), COMMA, false);
      var b := Separated(Opaques(p.windows), COMMA, columns != []);
      var c := Separated(Opaques(p.expressions), COMMA, columns != [] || p.windows != [] || p.jsonOps != []);
      SeparatedPlain(Idents(columns), COMMA, false);
      SeparatedPlain(Opaques(p.windows), COMMA, columns != []);
      SeparatedPlain(Opaques(p.expressions), COMMA, columns != [] || p.windows != [] || p.jsonOps != []);
      var lead := columns != [] || p.windows != [];
      MatchJson(p.jsonOps, lead, 0, d);
      MatchWrapped(a + b, JsonTokens(p.jsonOps, lead, 0, d), RefJson(p.jsonOps, lead), c,
                   JsonValues(p.jsonOps), Range(0, |JsonValues(p.jsonOps)|), true, d);
    }
  }

  lemma MatchFts(p: Plan, k: nat, d: Dialect)
    requires p.Select?
    ensures Match(FtsTokens(p, k, d), RefFts(p), FtsValues(p.fts), Range(k, |FtsValues(p.fts)|), true, d)
  {
    hide Match;
    if p.fts.None? {
      MatchPlain([], d);
      assert Range(k, 0) == [];
    } else {
      var keyword := [if p.filters == [] then Text(" WHERE ") else AND];
      var fts := p.fts.value;
      MatchFtsCondition(p.table, fts, k, d);
      MatchAfter(keyword, FtsCondition(p.table, fts, Param(d, k + 1)), FtsCondition(p.table, fts, Lit(fts.query)),
                 [fts.query], Range(k, 1), true, d);
    }
  }

  lemma MatchFtsCondition(table: string, fts: Fts, k: nat, d: Dialect)
    ensures Match(FtsCondition(table, fts, Param(d, k + 1)), FtsCondition(table, fts, Lit(fts.query)),
                  [fts.query], Range(k, 1), true, d)
  {
    hide Match;
    var pre, post := [if fts.tableAlias.Some? then Opaque(fts.tableAlias.value) else Ident(table), Text(" MATCH ")], [];
    match fts.mode {
      case Fts5 =>
      case TsVector =>
        SeparatedPlain(Idents(fts.columns), Text(" || ' ' || "), false);
        pre := [Text("to_tsvector"), LP] + ColumnList(fts.columns, Text(" || ' ' || ")) +
          [RP, Text(" @@ plainto_tsquery"), LP];
        post := [RP];
      case FullText =>
        SeparatedPlain(Idents(fts.columns), COMMA, false);
        pre := [Text("MATCH "), LP] + ColumnList(fts.columns, COMMA) + [RP, Text(" AGAINST "), LP];
        post := [RP];
    }
    MatchAround(pre, k, fts.query, post, d);
    assert FtsCondition(table, fts, Param(d, k + 1)) == pre + [Param(d, k + 1)] + post;
    assert FtsCondition(table, fts, Lit(fts.query)) == pre + [Lit(fts.query)] + post;
  }

  lemma {:induction false} MatchAssignments(r: Record, lead: bool, k: nat, d: Dialect)
    ensures Match(AssignmentTokens(r, lead, k, d), RefAssignments(r, lead), Values(r), Range(k, |r|), true, d)
  {
    hide Match;
    if r == [] {
      MatchPlain([], d);
      assert Range(k, 0) == [] && Values([]) == [];
    } else {
      var pre := (if lead then [COMMA] else []) + [Ident(r[0].0), EQUALS];
      MatchAround(pre, k, r[0].1, [], d);
      MatchAssignments(r[1..], true, k + 1, d);
      MatchPair(pre + [Param(d, k + 1)] + [], pre + [Lit(r[0].1)] + [], [r[0].1], Range(k, 1), true,
                AssignmentTokens(r[1..], true, k + 1, d), RefAssignments(r[1..], true),
                Values(r[1..]), Range(k + 1, |r| - 1), true, d);
      RangeSplit(k, 1, |r| - 1);
      assert Values(r) == [r[0].1] + Values(r[1..]);
      assert pre + [Param(d, k + 1)] + [] == (if lead then [COMMA] else []) + [Ident(r[0].0), EQUALS, Param(d, k + 1)];
      assert pre + [Lit(r[0].1)] + [] == (if lead then [COMMA] else []) + [Ident(r[0].0), EQUALS, Lit(r[0].1)];
    }
  }

  lemma MatchRow(row: Record, keys: seq<string>, lead: bool, k: nat, d: Dialect)
    ensures var pre, vs := (if lead then [COMMA] else []) + [LP], RowValues(row, keys);
            Match(pre + Separated(Holes(|keys|, k, d), COMMA, false) + [RP],
                  pre + Separated(RefRow(row, keys), COMMA, false) + [RP], vs, Range(k, |vs|), true, d)
  {
    hide Match;
    var pre, vs := (if lead then [COMMA] else []) + [LP], RowValues(row, keys);
    MatchList(vs, k, false, d);
    assert RefRow(row, keys) == Literals(vs) && |vs| == |keys|;
    assert Plain(pre) && Plain([RP]);
    hide Separated, Holes, Literals, RefRow, RowValues, Plain;
    MatchWrapped(pre, Separated(Holes(|keys|, k, d), COMMA, false), Separated(Literals(vs), COMMA, false), [RP],
                 vs, Range(k, |vs|), true, d);
  }

  lemma {:induction false} MatchRows(rows: seq<Record>, keys: seq<string>, lead: bool, k: nat, d: Dialect)
    ensures Match(RowsTokens(|rows|, |keys|, lead, k, d), RefRows(rows, keys, lead),
                  RowsValues(rows, keys), Range(k, |RowsValues(rows, keys)|), true, d)
  {
    hide Match;
    if rows == [] {
      MatchPlain([], d);
      assert Range(k, 0) == [];
    } else {
      var vs, rest := RowValues(rows[0], keys), RowsValues(rows[1..], keys);
      var pre := (if lead then [COMMA] else []) + [LP];
      assert |vs| == |keys|;
      MatchRow(rows[0], keys, lead, k, d);
      MatchRows(rows[1..], keys, true, k + |keys|, d);
      hide Separated, Holes, RefRow, RowValues;
      MatchPair(pre + Separated(Holes(|keys|, k, d), COMMA, false) + [RP],
                pre + Separated(RefRow(rows[0], keys), COMMA, false) + [RP], vs, Range(k, |vs|), true,
                RowsTokens(|rows| - 1, |keys|, true, k + |keys|, d), RefRows(rows[1..], keys, true),
                rest, Range(k + |keys|, |rest|), true, d);
      RangeSplit(k, |vs|, |rest|);
    }
  }

  lemma MatchConflict(oc: Option<OnConflict>, k: nat, d: Dialect)
    ensures Match(ConflictTokens(oc, k, d), RefConflict(oc), Values(ConflictRecord(oc)),
                  Range(k, |ConflictRecord(oc)|), true, d)
  {
    hide Match;
    MatchPlain([], d);
    assert Range(k, 0) == [] && Values([]) == [];
    MatchPlain([Text(" ON CONFLICT DO NOTHING")], d);
    if oc.Some? && oc.value.target.Some? {
      var columns := ColumnList(oc.value.target.value, COMMA);
      SeparatedPlain(Idents(oc.value.target.value), COMMA, false);
      if oc.value.action.DoNothing? {
        MatchPlain([Text(" ON CONFLICT "), LP] + columns + [RP, Text(" DO NOTHING")], d);
      } else if oc.value.assignments.Some? {
        var sets := oc.value.assignments.value;
        MatchAssignments(sets, false, k, d);
        MatchAfter([Text(" ON CONFLICT "), LP] + columns + [RP, Text(" DO UPDATE SET ")],
                   AssignmentTokens(sets, false, k, d), RefAssignments(sets, false),
                   Values(sets), Range(k, |sets|), true, d);
      }
    }
  }

  // ---- fragments with nested plans ----

  lemma MatchCompare(c: string, op: Comparator, v: Value, k: nat, d: Dialect)
    ensures var f := Compare(c, op, v);
            Match(FilterTokens(f, k, d), RefFilter(f, SupportsReturning(d)), FilterText(f), FilterNumbers(f, k),
                  TameFilter(f), d)
  {
    hide Match;
    if op.In? {
      MatchList(InList(v), k, false, d);
      MatchWrapped([Ident(c), OpText(In), LP], Separated(Holes(|InList(v)|, k, d), COMMA, false),
                   Separated(Literals(InList(v)), COMMA, false), [RP], InList(v), Range(k, |InList(v)|), true, d);
    } else if op.Between? {
      MatchBetween(c, v, k, d);
    } else {
      MatchAround([Ident(c), OpText(op)], k, v, [], d);
      assert [Ident(c), OpText(op)] + [Param(d, k + 1)] + [] == [Ident(c), OpText(op), Param(d, k + 1)];
      assert [Ident(c), OpText(op)] + [Lit(v)] + [] == [Ident(c), OpText(op), Lit(v)];
    }
  }

  lemma MatchBetween(c: string, v: Value, k: nat, d: Dialect)
    ensures Match([Ident(c), OpText(Between), Param(d, k + 1), AND, Param(d, k + 2)],
                  [Ident(c), OpText(Between), Lit(BetweenLow(v)), AND, Lit(BetweenHigh(v))],
                  [BetweenLow(v), BetweenHigh(v)], Range(k, 2), true, d)
  {
    hide Match;
    var low, high := BetweenLow(v), BetweenHigh(v);
    MatchAround([Ident(c), OpText(Between)], k, low, [AND], d);
    MatchAround([], k + 1, high, [], d);
    MatchPair([Ident(c), OpText(Between)] + [Param(d, k + 1)] + [AND], [Ident(c), OpText(Between)] + [Lit(low)] + [AND],
              [low], Range(k, 1), true, [] + [Param(d, k + 2)] + [], [] + [Lit(high)] + [], [high], Range(k + 1, 1),
                  true, d);
    RangeSplit(k, 1, 1);
    assert [low] + [high] == [low, high];
    assert [Ident(c), OpText(Between)] + [Param(d, k + 1)] + [AND] + ([] + [Param(d, k + 2)] + []) ==
           [Ident(c), OpText(Between), Param(d, k + 1), AND, Param(d, k + 2)];
    assert [Ident(c), OpText(Between)] + [Lit(low)] + [AND] + ([] + [Lit(high)] + []) ==
           [Ident(c), OpText(Between), Lit(low), AND, Lit(high)];
  }

  lemma {:induction false} MatchFilter(f: Filter, k: nat, d: Dialect)
    ensures Match(FilterTokens(f, k, d), RefFilter(f, SupportsReturning(d)),
                  FilterText(f), FilterNumbers(f, k), TameFilter(f), d)
  {
    hide Match;
    var canReturn := SupportsReturning(d);
    match f
    case Compare(c, op, v) => MatchCompare(c, op, v, k, d);
    case And(fs) =>
      MatchFilters(fs, AND, false, k, d);
      MatchWrapped([LP], FiltersTokens(fs, AND, false, k, d), RefFilters(fs, AND, false, canReturn), [RP],
                   FiltersText(fs), FiltersNumbers(fs, k), TameFilters(fs), d);
    case Or(fs) =>
      MatchFilters(fs, OR, false, k, d);
      MatchWrapped([LP], FiltersTokens(fs, OR, false, k, d), RefFilters(fs, OR, false, canReturn), [RP],
                   FiltersText(fs), FiltersNumbers(fs, k), TameFilters(fs), d);
    case Subquery(c, op, p) =>
      MatchPlan(p, [], d);
      var pre := (if (op.InPlan? || op.NotInPlan?) && c != "" then [Ident(c)] else []) + [SubqueryText(op), LP];
      MatchWrapped(pre, PlanTokens(p, [], d), RefPlan(p, [], canReturn), [RP],
                   PlanText(p), PlanNumbers(p), TamePlan(p, []), d);
  }

  lemma {:induction false} MatchFilters(fs: seq<Filter>, sep: Tok, lead: bool, k: nat, d: Dialect)
    requires sep == AND || sep == OR
    ensures Match(FiltersTokens(fs, sep, lead, k, d), RefFilters(fs, sep, lead, SupportsReturning(d)),
                  FiltersText(fs), FiltersNumbers(fs, k), TameFilters(fs), d)
    decreases fs, 0
  {
    hide Match;
    if fs == [] {
      MatchPlain([], d);
    } else {
      var pre, canReturn := if lead then [sep] else [], SupportsReturning(d);
      var ts, r, k' := FilterTokens(fs[0], k, d), RefFilter(fs[0], canReturn), k + |FilterValues(fs[0])|;
      MatchFilter(fs[0], k, d);
      MatchAfter(pre, ts, r, FilterText(fs[0]), FilterNumbers(fs[0], k), TameFilter(fs[0]), d);
      MatchFilters(fs[1..], sep, true, k', d);
      MatchPair(pre + ts, pre + r, FilterText(fs[0]), FilterNumbers(fs[0], k), TameFilter(fs[0]),
                FiltersTokens(fs[1..], sep, true, k', d), RefFilters(fs[1..], sep, true, canReturn),
                FiltersText(fs[1..]), FiltersNumbers(fs[1..], k'), TameFilters(fs[1..]), d);
    }
  }

  lemma {:induction false} MatchHoles(holes: seq<RawHole>, ps: seq<Value>, d: Dialect)
    ensures Match(HolesTokens(holes, PrintedHole(d)), HolesTokens(holes, ShownHole(ps)),
                  Shown(HoleNumbers(holes), ps), HoleNumbers(holes), true, d)
  {
    hide Match;
    var ns := HoleNumbers(holes);
    if holes == [] {
      MatchPlain([], d);
      assert ns == [] && Shown(ns, ps) == [];
    } else {
      var n, after := holes[0].n, Opaque(holes[0].after);
      var ms := HoleNumbers(holes[1..]);
      MatchHole(n, ParamOf(ps, n), d);
      MatchBefore([Param(d, n)], [Lit(ParamOf(ps, n))], [after], [ParamOf(ps, n)], [n], true, d);
      assert [Param(d, n)] + [after] == [Param(d, n), after];
      assert [Lit(ParamOf(ps, n))] + [after] == [Lit(ParamOf(ps, n)), after];
      MatchHoles(holes[1..], ps, d);
      MatchPair([Param(d, n), after], [Lit(ParamOf(ps, n)), after], [ParamOf(ps, n)], [n], true,
                HolesTokens(holes[1..], PrintedHole(d)), HolesTokens(holes[1..], ShownHole(ps)), Shown(ms, ps), ms,
                    true, d);
      assert ns == [n] + ms && Shown(ns, ps) == [ParamOf(ps, n)] + Shown(ms, ps);
    }
  }

  lemma MatchRawText(text: RawText, ps: seq<Value>, d: Dialect)
    ensures Match(RawTextTokens(text, PrintedHole(d)), RawTextTokens(text, ShownHole(ps)),
                  Shown(HoleNumbers(text.holes), ps), HoleNumbers(text.holes), true, d)
  {
    hide Match;
    MatchHoles(text.holes, ps, d);
    MatchAfter([Opaque(text.head)], HolesTokens(text.holes, PrintedHole(d)), HolesTokens(text.holes, ShownHole(ps)),
               Shown(HoleNumbers(text.holes), ps), HoleNumbers(text.holes), true, d);
  }

  /** A raw filter shows its own parameters at its own numbers. */
  lemma {:induction false} MatchRaw(e: RawExpr, ps: seq<Value>, d: Dialect)
    ensures Match(RawTokens(e, PrintedHole(d)), RawTokens(e, ShownHole(ps)), Shown(RawHoles(e), ps), RawHoles(e), true,
                  d)
  {
    hide Match;
    MatchRawText(e.text, ps, d);
    if !e.Factor? {
      var sep := if e.AndThen? then AND else OR;
      var ts, r, ns := RawTextTokens(e.text, PrintedHole(d)), RawTextTokens(e.text, ShownHole(ps)),
        HoleNumbers(e.text.holes);
      var ms := RawHoles(e.others);
      MatchRaw(e.others, ps, d);
      MatchBefore(ts, r, [sep], Shown(ns, ps), ns, true, d);
      MatchPair(ts + [sep], r + [sep], Shown(ns, ps), ns, true,
                RawTokens(e.others, PrintedHole(d)), RawTokens(e.others, ShownHole(ps)), Shown(ms, ps), ms, true, d);
      assert Shown(ns + ms, ps) == Shown(ns, ps) + Shown(ms, ps);
    }
  }

  lemma {:induction false} MatchRaws(raws: seq<RawFilter>, lead: bool, d: Dialect)
    ensures Match(RawClauses(raws, lead, d), RefRaws(raws, lead), RawsText(raws), RawsNumbers(raws), true, d)
  {
    hide Match;
    if raws == [] {
      MatchPlain([], d);
    } else {
      var e, ps := raws[0].expr, raws[0].params;
      var pre, ts, r := if lead then [AND] else [], RawTokens(e, PrintedHole(d)), RawTokens(e, ShownHole(ps));
      MatchRaw(e, ps, d);
      MatchAfter(pre, ts, r, Shown(RawHoles(e), ps), RawHoles(e), true, d);
      MatchRaws(raws[1..], true, d);
      MatchPair(pre + ts, pre + r, Shown(RawHoles(e), ps), RawHoles(e), true,
                RawClauses(raws[1..], true, d), RefRaws(raws[1..], true), RawsText(raws[1..]), RawsNumbers(raws[1..]),
                    true, d);
    }
  }

  lemma {:induction false} MatchWhere(fs: seq<Filter>, raws: seq<RawFilter>, k: nat, d: Dialect)
    ensures Match(WhereTokens(fs, raws, k, d), RefWhere(fs, raws, SupportsReturning(d)),
                  FiltersText(fs) + RawsText(raws), FiltersNumbers(fs, k) + RawsNumbers(raws), TameFilters(fs), d)
    decreases fs, 1
  {
    hide Match;
    var ts, r := FiltersTokens(fs, AND, false, k, d), RefFilters(fs, AND, false, SupportsReturning(d));
    MatchFilters(fs, AND, false, k, d);
    MatchRaws(raws, fs != [], d);
    MatchPlain([], d);
    MatchAfter([Text(" WHERE ")], ts, r, FiltersText(fs), FiltersNumbers(fs, k), TameFilters(fs), d);
    MatchPair([Text(" WHERE ")] + ts, [Text(" WHERE ")] + r, FiltersText(fs), FiltersNumbers(fs, k), TameFilters(fs),
              RawClauses(raws, fs != [], d), RefRaws(raws, fs != []), RawsText(raws), RawsNumbers(raws), true, d);
    assert fs == [] && raws == [] ==>
        FiltersText(fs) + RawsText(raws) == [] && FiltersNumbers(fs, k) + RawsNumbers(raws) == [];
  }

  lemma {:induction false} MatchHaving(having: seq<Filter>, k: nat, d: Dialect)
    ensures Match(HavingTokens(having, k, d), RefHaving(having, SupportsReturning(d)),
                  FiltersText(having), FiltersNumbers(having, k), TameFilters(having), d)
    decreases having, 1
  {
    hide Match;
    MatchPlain([], d);
    MatchFilters(having, AND, false, k, d);
    MatchAfter([Text(" HAVING ")], FiltersTokens(having, AND, false, k, d),
               RefFilters(having, AND, false, SupportsReturning(d)),
               FiltersText(having), FiltersNumbers(having, k), TameFilters(having), d);
  }

  lemma {:induction false} NumbersRaised(ts: seq<Tok>, k: nat)
    ensures Numbers(Renumber(ts, k)) == Raise(Numbers(ts), k)
  {
    if ts != [] {
      assert Renumber(ts, k)[1..] == Renumber(ts[1..], k);
      NumbersRaised(ts[1..], k);
    }
  }

  lemma RenumberTwice(u: Tok, m: nat, k: nat)
    ensures RenumberTok(RenumberTok(u, m), k) == RenumberTok(u, m + k)
  {
    match u
    case Opaque(s) => RenumberedTwice(s, m, k);
    case Ident(id) => RenumberedTwice(id, m, k);
    case _ =>
  }

  /** Renumbering leaves a name or a text alone exactly when it is tame. */
  lemma TameIsFixed(u: Tok, k: nat)
    requires u.Opaque? || u.Ident?
    ensures RenumberTok(u, k) == u <==> TameTok(u, k)
  {
    if u.Opaque? {
      TameStays(u.s, k);
    } else {
      TameStays(u.id, k);
    }
  }

  lemma TokenRenumbered(t: Tok, u: Tok, k: nat)
    requires Grown(t, u) && !t.Lit? && !IsHole(u)
    ensures Grown(RenumberTok(t, k), u)
    ensures EraseTok(RenumberTok(t, k)) == EraseTok(u) <==> EraseTok(t) == EraseTok(u) && TameTok(u, k)
  {
    if u.Opaque? || u.Ident? {
      if t == u {
        TameIsFixed(u, k);
        assert GrownBy(RenumberTok(t, k), u, k);
      } else {
        var m: nat :| GrownBy(t, u, m);
        RenumberTwice(u, m, k);
        assert GrownBy(RenumberTok(t, k), u, m + k);
        TameIsFixed(u, m);
        TameIsFixed(u, k);
        TameIsFixed(u, m + k);
      }
    }
  }

  lemma MatchRenumbered(ts: seq<Tok>, r: seq<Tok>, vs: seq<Value>, ns: seq<nat>, tame: bool, k: nat)
    requires Match(ts, r, vs, ns, tame, Postgres)
    ensures Match(Renumber(ts, k), r, vs, Raise(ns, k), tame && TameTokens(r, k), Postgres)
  {
    hide Grown, EraseTok, TameTok, RenumberTok;
    var us := Renumber(ts, k);
    NumbersRaised(ts, k);
    forall i | 0 <= i < |ts|
      ensures Grown(us[i], r[i]) && !us[i].Lit? && !us[i].Mark?
      ensures EraseTok(us[i]) == EraseTok(r[i]) <==> EraseTok(ts[i]) == EraseTok(r[i]) && TameTok(r[i], k)
    {
      assert ts[i] in ts && r[i] in r;
      TokenRenumbered(ts[i], r[i], k);
      StaysNative(ts[i], k);
    }
    SamePointwise(us, r);
    SamePointwise(ts, r);
  }

  lemma StaysNative(t: Tok, k: nat)
    ensures RenumberTok(t, k).Lit? == t.Lit? && RenumberTok(t, k).Mark? == t.Mark?
  {
  }

  lemma SamePointwise(ts: seq<Tok>, r: seq<Tok>)
    requires |ts| == |r|
    ensures Erase(ts) == Erase(r) <==> forall i | 0 <= i < |ts| :: EraseTok(ts[i]) == EraseTok(r[i])
  {
    if Erase(ts) == Erase(r) {
      forall i | 0 <= i < |ts| ensures EraseTok(ts[i]) == EraseTok(r[i]) {
        assert Erase(ts)[i] == Erase(r)[i];
      }
    }
  }

  /** Positional placeholders carry no numbers, and their text is not rewritten. */
  lemma MatchUnnumbered(ts: seq<Tok>, r: seq<Tok>, vs: seq<Value>, ns: seq<nat>, ms: seq<nat>, x: bool, y: bool,
                        d: Dialect)
    requires Match(ts, r, vs, ns, x, d) && !d.Postgres?
    ensures Match(ts, r, vs, ms, y, d)
  {
  }

  lemma MatchUnion(op: SetOp, q: Plan, k: nat, inherited: seq<string>, d: Dialect)
    requires var canReturn := SupportsReturning(d);
             Match(PlanTokens(q, inherited, d), RefPlan(q, inherited, canReturn), PlanText(q), PlanNumbers(q),
                   TamePlan(q, inherited), d)
    ensures var b := UnionBranch(op, q);
            Match(BranchTokens(b, k, inherited, d), RefBranch(b, inherited, SupportsReturning(d)),
                  PlanText(q), Raise(PlanNumbers(q), k), TameBranch(b, k, inherited), d)
  {
    hide Match, TameTokens, PlanTokens, RefPlan, PlanText, PlanNumbers, TamePlan;
    var ts, r := PlanTokens(q, inherited, d), RefPlan(q, inherited, SupportsReturning(d));
    var tame := TameBranch(UnionBranch(op, q), k, inherited);
    if d.Postgres? {
      MatchRenumbered(ts, r, PlanText(q), PlanNumbers(q), TamePlan(q, inherited), k);
      MatchWrapped([SetOpText(op), LP], Renumber(ts, k), r, [RP], PlanText(q), Raise(PlanNumbers(q), k), tame, d);
    } else {
      MatchUnnumbered(ts, r, PlanText(q), PlanNumbers(q), Raise(PlanNumbers(q), k), TamePlan(q, inherited), tame, d);
      MatchWrapped([SetOpText(op), LP], ts, r, [RP], PlanText(q), Raise(PlanNumbers(q), k), tame, d);
    }
  }

  lemma {:induction false} MatchBranch(b: Branch, k: nat, inherited: seq<string>, d: Dialect)
    ensures Match(BranchTokens(b, k, inherited, d), RefBranch(b, inherited, SupportsReturning(d)),
                  BranchText(b), BranchNumbers(b, k), TameBranch(b, k, inherited), d)
  {
    hide Match, TameTokens;
    match b
    case UnionBranch(op, q) =>
      MatchPlan(q, inherited, d);
      MatchUnion(op, q, k, inherited, d);
    case WithQuery(_, columns, q) =>
      MatchPlan(q, [], d);
      SeparatedPlain(Opaques(columns), COMMA, false);
      MatchWrapped(WithHead(b), PlanTokens(q, [], d), RefPlan(q, [], SupportsReturning(d)), [RP],
                   PlanText(q), PlanNumbers(q), TamePlan(q, []), d);
  }

  lemma {:induction false} MatchBranches(bs: seq<Branch>, sep: seq<Tok>, lead: bool, k: nat,
                                         inherited: seq<string>, d: Dialect)
    requires Plain(sep)
    ensures Match(BranchesTokens(bs, sep, lead, k, inherited, d),
                  RefBranches(bs, sep, lead, inherited, SupportsReturning(d)),
                  BranchesText(bs), BranchesNumbers(bs, k), TameBranches(bs, k, inherited), d)
    decreases bs, 0
  {
    hide Match;
    if bs == [] {
      MatchPlain([], d);
    } else {
      var pre, canReturn := if lead then sep else [], SupportsReturning(d);
      var k' := k + |BranchValues(bs[0])|;
      var ts, r := BranchTokens(bs[0], k, inherited, d), RefBranch(bs[0], inherited, canReturn);
      var tame := TameBranch(bs[0], k, inherited);
      MatchBranch(bs[0], k, inherited, d);
      MatchAfter(pre, ts, r, BranchText(bs[0]), BranchNumbers(bs[0], k), tame, d);
      MatchBranches(bs[1..], sep, true, k', inherited, d);
      MatchPair(pre + ts, pre + r, BranchText(bs[0]), BranchNumbers(bs[0], k), tame,
                BranchesTokens(bs[1..], sep, true, k', inherited, d),
                    RefBranches(bs[1..], sep, true, inherited, canReturn),
                BranchesText(bs[1..]), BranchesNumbers(bs[1..], k'), TameBranches(bs[1..], k', inherited), d);
    }
  }

  lemma {:induction false} MatchWith(ctes: seq<Branch>, k: nat, d: Dialect)
    ensures Match(WithTokens(ctes, k, d), RefWith(ctes, SupportsReturning(d)),
                  BranchesText(ctes), BranchesNumbers(ctes, k), TameBranches(ctes, k, []), d)
    decreases ctes, 1
  {
    hide Match;
    MatchPlain([], d);
    MatchBranches(ctes, [COMMA], false, k, [], d);
    MatchWrapped([Text("WITH ")], BranchesTokens(ctes, [COMMA], false, k, [], d),
                 RefBranches(ctes, [COMMA], false, [], SupportsReturning(d)), [Text(" ")],
                 BranchesText(ctes), BranchesNumbers(ctes, k), TameBranches(ctes, k, []), d);
  }

  lemma {:induction false} MatchFrom(p: Plan, d: Dialect)
    requires p.Select?
    ensures Match(FromTokens(p, d), RefFrom(p, SupportsReturning(d)), FromText(p), FromNumbers(p), TameFrom(p), d)
    decreases p, 0
  {
    hide Match;
    if IsFts5(p.fts) {
      MatchPlain(Fts5Source(p.table, p.fts.value), d);
    } else if p.from.FromPlan? {
      var q, post := p.from.query, [RP, Text(" AS "), Ident(p.from.alias)];
      MatchPlan(q, [], d);
      MatchWrapped([LP], PlanTokens(q, [], d), RefPlan(q, [], SupportsReturning(d)), post,
                   PlanText(q), PlanNumbers(q), TamePlan(q, []), d);
    } else {
      MatchPlain([Ident(p.table)], d);
    }
  }

  lemma MatchHead(p: Plan, columns: seq<string>, source: seq<Tok>, refSource: seq<Tok>,
                  vs: seq<Value>, ns: seq<nat>, tame: bool, d: Dialect)
    requires p.Select? && Match(source, refSource, vs, ns, tame, d)
    ensures Match(SelectHead(p, columns, source, d), RefHead(p, columns, refSource),
                  JsonValues(p.jsonOps) + vs, Range(0, |JsonValues(p.jsonOps)|) + ns, tame, d)
  {
    hide Match;
    var items, refs := ItemTokens(p, columns, d), RefItems(p, columns);
    var pre := [Text("SELECT ")] + DistinctClause(p.distinct, p.distinctOn);
    var js := JsonValues(p.jsonOps);
    SharedClausesPlain(p);
    MatchItems(p, columns, d);
    MatchWrapped(pre, items, refs, [Text(" FROM ")], js, Range(0, |js|), true, d);
    MatchPair(pre + items + [Text(" FROM ")], pre + refs + [Text(" FROM ")], js, Range(0, |js|), true,
              source, refSource, vs, ns, tame, d);
  }

  lemma {:induction false} MatchMiddle(p: Plan, d: Dialect)
    requires p.Select?
    ensures Match(MiddleTokens(p, d), RefMiddle(p, SupportsReturning(d)),
                  MiddleText(p), MiddleNumbers(p), TameFilters(p.filters) && TameFilters(p.having), d)
    decreases p, 0
  {
    hide Match;
    SharedClausesPlain(p);
    var canReturn := SupportsReturning(d);
    var joins, group, tail := JoinClause(p.joins), GroupClause(p.groupBy), TailClause(p.tail);
    var w, w' := WhereTokens(p.filters, p.rawFilters, WhereStart(p), d), RefWhere(p.filters, p.rawFilters, canReturn);
    var q, q' := FtsTokens(p, FtsStart(p), d), RefFts(p);
    var h, h' := HavingTokens(p.having, HavingStart(p), d), RefHaving(p.having, canReturn);
    var vw := FiltersText(p.filters) + RawsText(p.rawFilters);
    var nw := FiltersNumbers(p.filters, WhereStart(p)) + RawsNumbers(p.rawFilters);
    var vq, nq := FtsValues(p.fts), Range(FtsStart(p), |FtsValues(p.fts)|);
    var vh, nh := FiltersText(p.having), FiltersNumbers(p.having, HavingStart(p));
    var x, y := TameFilters(p.filters), TameFilters(p.having);
    MatchWhere(p.filters, p.rawFilters, WhereStart(p), d);
    MatchFts(p, FtsStart(p), d);
    MatchHaving(p.having, HavingStart(p), d);
    MatchAfter(joins, w, w', vw, nw, x, d);
    MatchPair(joins + w, joins + w', vw, nw, x, q, q', vq, nq, true, d);
    MatchBefore(joins + w + q, joins + w' + q', group, vw + vq, nw + nq, x, d);
    MatchPair(joins + w + q + group, joins + w' + q' + group, vw + vq, nw + nq, x, h, h', vh, nh, y, d);
    var t, t' := joins + w + q + group + h, joins + w' + q' + group + h';
    MatchBefore(t, t', tail, vw + vq + vh, nw + nq + nh, x && y, d);
  }

  lemma {:induction false} MatchSelect(p: Plan, inherited: seq<string>, d: Dialect)
    requires p.Select?
    ensures Match(SelectTokens(p, inherited, d), RefSelect(p, inherited, SupportsReturning(d)),
                  PlanText(p), PlanNumbers(p), TamePlan(p, inherited), d)
    decreases p, 2
  {
    hide Match;
    var columns, canReturn := EffectiveColumns(p, inherited), SupportsReturning(d);
    var js := JsonValues(p.jsonOps);
    if p.deny {
      var t, t' := SelectHead(p, columns, [Ident(p.table)], d), RefHead(p, columns, [Ident(p.table)]);
      MatchPlain([Ident(p.table)], d);
      MatchHead(p, columns, [Ident(p.table)], [Ident(p.table)], [], [], true, d);
      MatchBefore(t, t', [Text(" WHERE 1=0")], js + [], Range(0, |js|) + [], true, d);
      assert js + [] == js && Range(0, |js|) + [] == Range(0, |js|);
    } else {
      var w, w' := WithTokens(p.ctes, WithStart(p), d), RefWith(p.ctes, canReturn);
      var h, h' := SelectHead(p, columns, FromTokens(p, d), d), RefHead(p, columns, RefFrom(p, canReturn));
      var m, m' := MiddleTokens(p, d), RefMiddle(p, canReturn);
      var u, u' := BranchesTokens(p.unions, [], false, UnionStart(p), columns, d),
                   RefBranches(p.unions, [], false, columns, canReturn);
      var vw, nw, vh, nh := BranchesText(p.ctes), BranchesNumbers(p.ctes, WithStart(p)),
                            js + FromText(p), Range(0, |js|) + FromNumbers(p);
      var x, y, z := TameBranches(p.ctes, WithStart(p), []), TameFrom(p),
                   TameFilters(p.filters) && TameFilters(p.having);
      MatchWith(p.ctes, WithStart(p), d);
      MatchFrom(p, d);
      MatchHead(p, columns, FromTokens(p, d), RefFrom(p, canReturn), FromText(p), FromNumbers(p), y, d);
      MatchMiddle(p, d);
      MatchBranches(p.unions, [], false, UnionStart(p), columns, d);
      MatchPair(w, w', vw, nw, x, h, h', vh, nh, y, d);
      MatchPair(w + h, w' + h', vw + vh, nw + nh, x && y, m, m', MiddleText(p), MiddleNumbers(p), z, d);
      MatchPair(w + h + m, w' + h' + m', vw + vh + MiddleText(p), nw + nh + MiddleNumbers(p), x && y && z,
                u, u', BranchesText(p.unions), BranchesNumbers(p.unions, UnionStart(p)),
                TameBranches(p.unions, UnionStart(p), columns), d);
    }
  }

  lemma MatchInsert(p: Plan, inherited: seq<string>, d: Dialect)
    requires p.Insert?
    ensures Match(PlanTokens(p, inherited, d), RefPlan(p, inherited, SupportsReturning(d)), PlanText(p),
                  PlanNumbers(p), true, d)
  {
    hide Match;
    var keys := InsertKeys(p.rows);
    var n := |RowsValues(p.rows, keys)|;
    var head := [Text("INSERT INTO "), Ident(p.table), Text(" "), LP] + ColumnList(keys, COMMA) +
      [RP, Text(" VALUES ")];
    var rows, rows' := RowsTokens(|p.rows|, |keys|, false, 0, d), RefRows(p.rows, keys, false);
    var c, c' := ConflictTokens(p.onConflict, n, d), RefConflict(p.onConflict);
    var returning := ReturningClause(p.returning, SupportsReturning(d));
    SeparatedPlain(Idents(keys), COMMA, false);
    ReturningPlain(p.returning, SupportsReturning(d));
    MatchRows(p.rows, keys, false, 0, d);
    MatchConflict(p.onConflict, n, d);
    MatchAfter(head, rows, rows', RowsValues(p.rows, keys), Range(0, n), true, d);
    MatchPair(head + rows, head + rows', RowsValues(p.rows, keys), Range(0, n), true,
              c, c', Values(ConflictRecord(p.onConflict)), Range(n, |ConflictRecord(p.onConflict)|), true, d);
    MatchBefore(head + rows + c, head + rows' + c', returning, PlanText(p), PlanNumbers(p), true, d);
  }

  lemma {:induction false} MatchUpdate(p: Plan, inherited: seq<string>, d: Dialect)
    requires p.Update?
    ensures Match(PlanTokens(p, inherited, d), RefPlan(p, inherited, SupportsReturning(d)),
                  PlanText(p), PlanNumbers(p), TameFilters(p.filters), d)
    decreases p, 2
  {
    hide Match;
    var n := |p.assignments|;
    var head, returning := [Text("UPDATE "), Ident(p.table), Text(" SET ")],
                           ReturningClause(p.returning, SupportsReturning(d));
    var a, a' := AssignmentTokens(p.assignments, false, 0, d), RefAssignments(p.assignments, false);
    var w, w' := WhereTokens(p.filters, p.rawFilters, n, d), RefWhere(p.filters, p.rawFilters, SupportsReturning(d));
    var vw := FiltersText(p.filters) + RawsText(p.rawFilters);
    var nw := FiltersNumbers(p.filters, n) + RawsNumbers(p.rawFilters);
    var tame := TameFilters(p.filters);
    MatchAssignments(p.assignments, false, 0, d);
    MatchWhere(p.filters, p.rawFilters, n, d);
    ReturningPlain(p.returning, SupportsReturning(d));
    MatchAfter(head, a, a', Values(p.assignments), Range(0, n), true, d);
    MatchPair(head + a, head + a', Values(p.assignments), Range(0, n), true, w, w', vw, nw, tame, d);
    MatchBefore(head + a + w, head + a' + w', returning, Values(p.assignments) + vw, Range(0, n) + nw, tame, d);
    assert PlanText(p) == Values(p.assignments) + vw && PlanNumbers(p) == Range(0, n) + nw;
  }

  lemma {:induction false} MatchDelete(p: Plan, inherited: seq<string>, d: Dialect)
    requires p.Delete?
    ensures Match(PlanTokens(p, inherited, d), RefPlan(p, inherited, SupportsReturning(d)),
                  PlanText(p), PlanNumbers(p), TameFilters(p.filters), d)
    decreases p, 2
  {
    hide Match;
    var head, returning := [Text("DELETE FROM "), Ident(p.table)], ReturningClause(p.returning, SupportsReturning(d));
    MatchWhere(p.filters, p.rawFilters, 0, d);
    ReturningPlain(p.returning, SupportsReturning(d));
    MatchWrapped(head, WhereTokens(p.filters, p.rawFilters, 0, d),
                 RefWhere(p.filters, p.rawFilters, SupportsReturning(d)), returning,
                 PlanText(p), PlanNumbers(p), TameFilters(p.filters), d);
  }

  /** Every plan, nested to any depth. */
  lemma {:induction false} MatchPlan(p: Plan, inherited: seq<string>, d: Dialect)
    ensures Match(PlanTokens(p, inherited, d), RefPlan(p, inherited, SupportsReturning(d)),
                  PlanText(p), PlanNumbers(p), TamePlan(p, inherited), d)
    decreases p, 3
  {
    hide Match;
    if p.Select? {
      MatchSelect(p, inherited, d);
    } else if p.Insert? {
      MatchInsert(p, inherited, d);
    } else if p.Update? {
      MatchUpdate(p, inherited, d);
    } else {
      MatchDelete(p, inherited, d);
    }
  }
}
