/** The WHERE clause of the statement that reaches the database: what the compiler prints, with the
    parameters it pushed bound to the placeholders, read back and given its meaning. */
module Clauses {
  import opened Wrappers
  import opened Plans
  import opened Emission
  import opened Reference
  import opened Placeholders
  import opened Tame
  import opened Binding
  import opened Reading
  import opened Where
  import Positional
  import Numbered
  import NumberedNecessary

  /** A plan with a WHERE clause of its own making; `unions` holds set operations. */
  predicate Conditional(p: Plan) {
    !p.Insert? && (p.Select? ==> !p.deny && forall b | b in p.unions :: b.UnionBranch?)
  }

  /** The compiled statement with its parameters in place. */
  function Bound(p: Plan, d: Dialect): seq<Tok> {
    var ts, vals := PlanTokens(p, [], d), PlanValues(p);
    if d.Postgres? then Resolve(ts, vals) else Fill(ts, vals)
  }

  /** The plans that bind rightly in a dialect. */
  predicate Binds(p: Plan, d: Dialect) {
    if d.Postgres? then Numbered.Numberable(p) && TamePlan(p, []) else Positional.Ordered(p)
  }

  lemma BoundIsReference(p: Plan, d: Dialect)
    requires Binds(p, d)
    ensures Bound(p, d) == RefPlan(p, [], SupportsReturning(d))
  {
    if d.Postgres? {
      NumberedNecessary.NumberablePlansBind(p, []);
    } else {
      Positional.OrderedPlansBind(p, [], d);
    }
  }

  // ---- where the clause stands ----

  function Opening(p: Plan, r: bool): seq<Tok>
    requires Conditional(p)
  {
    if p.Select? then RefWith(p.ctes, r) + RefHead(p, p.columns, RefFrom(p, r)) + JoinClause(p.joins)
    else if p.Update? then [Text("UPDATE "), Ident(p.table), Text(" SET ")] + RefAssignments(p.assignments, false)
    else [Text("DELETE FROM "), Ident(p.table)]
  }

  function SearchClause(p: Plan): seq<Tok> {
    if p.Select? then RefFts(p) else []
  }

  function Closing(p: Plan, r: bool): seq<Tok>
    requires Conditional(p)
  {
    if p.Select? then
      GroupClause(p.groupBy) + RefHaving(p.having, r) + TailClause(p.tail) +
          RefBranches(p.unions, [], false, p.columns, r)
    else ReturningClause(p.returning, r)
  }

  lemma Layout(p: Plan, r: bool)
    requires Conditional(p)
    ensures RefPlan(p, [], r) == Opening(p, r) + RefWhere(p.filters, p.rawFilters, r) + SearchClause(p) + Closing(p, r)
  {
    if p.Select? {
      SelectLaid(p, r);
    } else {
      var head, w := Opening(p, r), RefWhere(p.filters, p.rawFilters, r);
      assert head + w + [] == head + w;
    }
  }

  lemma SelectLaid(p: Plan, r: bool)
    requires Conditional(p) && p.Select?
    ensures RefPlan(p, [], r) == Opening(p, r) + RefWhere(p.filters, p.rawFilters, r) + SearchClause(p) + Closing(p, r)
  {
    SelectIs(p, r);
    Arranged(RefWith(p.ctes, r) + RefHead(p, p.columns, RefFrom(p, r)), JoinClause(p.joins),
             RefWhere(p.filters, p.rawFilters, r), RefFts(p), GroupClause(p.groupBy), RefHaving(p.having, r),
             TailClause(p.tail), RefBranches(p.unions, [], false, p.columns, r));
  }

  lemma SelectIs(p: Plan, r: bool)
    requires p.Select? && !p.deny
    ensures RefPlan(p, [], r) ==
            RefWith(p.ctes, r) + RefHead(p, p.columns, RefFrom(p, r)) +
            (JoinClause(p.joins) + RefWhere(p.filters, p.rawFilters, r) + RefFts(p) + GroupClause(p.groupBy) +
             RefHaving(p.having, r) + TailClause(p.tail)) +
            RefBranches(p.unions, [], false, p.columns, r)
  {
    assert RefPlan(p, [], r) == RefSelect(p, [], r) && EffectiveColumns(p, []) == p.columns;
    hide RefWith, RefHead, RefFrom, RefBranches, RefWhere, RefFts, RefHaving, JoinClause, GroupClause, TailClause;
    assert RefMiddle(p, r) == JoinClause(p.joins) + RefWhere(p.filters, p.rawFilters, r) + RefFts(p) +
                              GroupClause(p.groupBy) + RefHaving(p.having, r) + TailClause(p.tail);
  }

  lemma Arranged(a: seq<Tok>, j: seq<Tok>, w: seq<Tok>, q: seq<Tok>, g: seq<Tok>, h: seq<Tok>, t: seq<Tok>, u: seq<Tok>)
    ensures a + (j + w + q + g + h + t) + u == (a + j) + w + q + (g + h + t + u)
  {
    var m := g + h + t;
    assert j + w + q + g + h + t == j + w + q + m;
    assert a + (j + w + q + m) == a + j + w + q + m;
    assert a + j + w + q + m + u == a + j + w + q + (m + u);
  }

  /** Nothing that can follow the clause continues it. */
  predicate Ends(rest: seq<Tok>) {
    Stops(rest) && (rest == [] || rest[0] != Text(" WHERE "))
  }

  lemma ClosingEnds(p: Plan, r: bool)
    requires Conditional(p)
    ensures Ends(Closing(p, r))
  {
    if p.Select? {
      BranchesEnd(p.unions, p.columns, r);
      TailEnds(p.tail);
      GroupEnds(p.groupBy);
      HavingEnds(p.having, r);
      hide GroupClause, RefHaving, TailClause, RefBranches, Ends;
      EndsPair(GroupClause(p.groupBy), RefHaving(p.having, r));
      EndsPair(GroupClause(p.groupBy) + RefHaving(p.having, r), TailClause(p.tail));
      EndsPair(GroupClause(p.groupBy) + RefHaving(p.having, r) + TailClause(p.tail),
               RefBranches(p.unions, [], false, p.columns, r));
    } else {
      assert Closing(p, r) == [] || Closing(p, r)[0] == Text(" RETURNING ");
      assert " RETURNING "[1] == 'R';
    }
  }

  lemma EndsPair(a: seq<Tok>, b: seq<Tok>)
    requires Ends(a) && Ends(b)
    ensures Ends(a + b)
  {
    assert a == [] ==> a + b == b;
    assert a != [] ==> (a + b)[0] == a[0];
  }

  lemma TailEnds(tail: seq<string>)
    ensures Ends(TailClause(tail))
  {
    assert tail != [] ==> TailClause(tail)[0] == Text(" ");
  }

  lemma GroupEnds(groupBy: seq<string>)
    ensures Ends(GroupClause(groupBy))
  {
    assert " GROUP BY "[1] == 'G';
  }

  lemma HavingEnds(having: seq<Filter>, r: bool)
    ensures Ends(RefHaving(having, r))
  {
    assert " HAVING "[1] == 'H';
  }

  lemma BranchesEnd(bs: seq<Branch>, inherited: seq<string>, r: bool)
    requires forall b | b in bs :: b.UnionBranch?
    ensures Ends(RefBranches(bs, [], false, inherited, r))
  {
    if bs != [] {
      var ts, b := RefBranches(bs, [], false, inherited, r), bs[0];
      assert b in bs;
      var head, tail := RefBranch(b, inherited, r), RefBranches(bs[1..], [], true, inherited, r);
      assert ts == [] + head + tail;
      assert head == [SetOpText(b.setOp), LP] + RefPlan(b.query, inherited, r) + [RP];
      hide RefBranches, RefBranch, RefPlan;
      assert ts[0] == SetOpText(b.setOp);
      match bs[0].setOp
      case Union => assert " UNION "[1] == 'U';
      case UnionAll => assert " UNION ALL "[1] == 'U';
      case Intersect => assert " INTERSECT "[1] == 'I';
      case Except => assert " EXCEPT "[1] == 'E';
    }
  }

  // ---- what the database makes of it ----

  /** The truth, on a row, of the WHERE clause that begins at `at`: None if no clause can be read
      there up to its end; without a clause every row passes. */
  function ClauseTruth(statement: seq<Tok>, at: nat, sem: Atom -> Truth): Option<Truth> {
    if at >= |statement| || statement[at] != Text(" WHERE ") then Some(True)
    else
      var read := ReadAlternatives(statement[at + 1..]);
      if read.Failed? || !Ends(read.rest) then None else Some(SomeTruth(read.value, sem))
  }

  function SearchTest(p: Plan): Expr
    requires p.Select? && p.fts.Some?
  {
    Test(Search(FtsCondition(p.table, p.fts.value, Lit(p.fts.value.query))))
  }

  /** The search joins the last of the alternatives before it. */
  function WithSearch(tree: seq<AndList>, search: Expr): seq<AndList>
    requires tree != []
  {
    tree[..|tree| - 1] + [AndList(tree[|tree| - 1].factors + [search])]
  }

  /** What the clause of a plan says on a row, by the parts it is made of. */
  function Said(p: Plan, sem: Atom -> Truth, r: bool): Option<Truth>
    requires Conditional(p)
  {
    if !p.Select? || p.fts.None? then EmittedTruth(p.filters, p.rawFilters, sem, r)
    else if p.filters == [] then
      if p.rawFilters == [] then Some(ExprTruth(SearchTest(p), sem)) else None
    else if !AllReadable(p.filters) then None
    else
      ConditionsRead(p.filters, p.rawFilters, r);
      Some(SomeTruth(WithSearch(SpliceAll(Parts(p.filters, p.rawFilters, r)), SearchTest(p)), sem))
  }

  /** What it should say: every filter, every raw filter and the search, each taken as a whole. */
  function Wanted(p: Plan, sem: Atom -> Truth, r: bool): Truth
    requires Conditional(p)
  {
    var rows := Intended(p.filters, p.rawFilters, sem, r);
    if !p.Select? || p.fts.None? then rows else Both(rows, ExprTruth(SearchTest(p), sem))
  }

  lemma ClauseBehind(a: seq<Tok>, ts: seq<Tok>, sem: Atom -> Truth)
    ensures ClauseTruth(a + ts, |a|, sem) == ClauseTruth(ts, 0, sem)
  {
    if ts != [] {
      assert (a + ts)[|a|] == ts[0] && (a + ts)[|a| + 1..] == ts[1..];
    }
  }

  /** A clause whose conditions read as `tree` and that ends where it should. */
  lemma ClauseReads(ts: seq<Tok>, tree: seq<AndList>, rest: seq<Tok>, sem: Atom -> Truth)
    requires tree != [] && Reads(ts, tree) && Stops(rest)
    ensures ClauseTruth([Text(" WHERE ")] + ts + rest, 0, sem) == if Ends(rest) then Some(SomeTruth(tree, sem))
            else None
  {
    ReadsStop(ts, tree, rest);
    assert ([Text(" WHERE ")] + ts + rest)[1..] == ts + rest;
  }

  lemma ClauseFails(ts: seq<Tok>, rest: seq<Tok>, sem: Atom -> Truth)
    requires Fails(ts)
    ensures ClauseTruth([Text(" WHERE ")] + ts + rest, 0, sem) == None
  {
    assert ([Text(" WHERE ")] + ts + rest)[1..] == ts + rest;
  }

  lemma SaidWithoutSearch(p: Plan, sem: Atom -> Truth, r: bool, rest: seq<Tok>)
    requires Conditional(p) && (p.Select? ==> p.fts.None?) && Ends(rest)
    ensures ClauseTruth(RefWhere(p.filters, p.rawFilters, r) + rest, 0, sem) == Said(p, sem, r)
  {
    var fs, raws := p.filters, p.rawFilters;
    if fs == [] && raws == [] {
      assert RefWhere(fs, raws, r) + rest == rest;
    } else {
      ConditionsRead(fs, raws, r);
      ConditionsAlone(fs, raws, r);
      WhereIs(fs, raws, r);
      hide Reads, Fails, Conditions, RefWhere, Ends, ReadAlternatives, ClauseTruth;
      EndsStops(rest);
      if AllReadable(fs) {
        ClauseReads(Conditions(fs, raws, r), SpliceAll(Parts(fs, raws, r)), rest, sem);
      } else {
        ClauseFails(Conditions(fs, raws, r), rest, sem);
      }
    }
  }

  lemma WhereIs(fs: seq<Filter>, raws: seq<RawFilter>, r: bool)
    requires fs != [] || raws != []
    ensures RefWhere(fs, raws, r) == [Text(" WHERE ")] + Conditions(fs, raws, r)
  {
  }

  lemma EndsStops(rest: seq<Tok>)
    requires Ends(rest)
    ensures Stops(rest)
  {
  }

  lemma SpliceOne(tree: seq<AndList>, e: Expr)
    requires tree != []
    ensures Splice(tree, [AndList([e])]) == WithSearch(tree, e)
  {
  }

  lemma SearchedReads(ts: seq<Tok>, tree: seq<AndList>, q: seq<Tok>, e: Expr, rest: seq<Tok>, sem: Atom -> Truth)
    requires tree != [] && Reads(ts, tree) && ReadsPrimary(q, e) && Ends(rest)
    ensures ClauseTruth([Text(" WHERE ")] + ts + ([AND] + q) + rest, 0, sem) ==
            Some(SomeTruth(WithSearch(tree, e), sem))
  {
    Appended(ts, q, rest);
    hide *;
    PrimaryReads(q, e);
    JoinReads(ts, tree, q, [AndList([e])]);
    SpliceOne(tree, e);
    EndsStops(rest);
    ClauseReads(ts + ([AND] + q), WithSearch(tree, e), rest, sem);
  }

  lemma SearchedFails(ts: seq<Tok>, q: seq<Tok>, rest: seq<Tok>, sem: Atom -> Truth)
    requires Fails(ts)
    ensures ClauseTruth([Text(" WHERE ")] + ts + ([AND] + q) + rest, 0, sem) == None
  {
    Appended(ts, q, rest);
    hide *;
    FailsBefore(ts, [AND] + q);
    ClauseFails(ts + ([AND] + q), rest, sem);
  }

  lemma Appended(ts: seq<Tok>, q: seq<Tok>, rest: seq<Tok>)
    ensures [Text(" WHERE ")] + ts + ([AND] + q) + rest == [Text(" WHERE ")] + (ts + ([AND] + q)) + rest
  {
  }

  /** Behind filters the search is one more condition of the same clause. */
  lemma SaidWithSearch(p: Plan, sem: Atom -> Truth, r: bool, rest: seq<Tok>)
    requires Conditional(p) && p.Select? && p.fts.Some? && p.filters != [] && Ends(rest)
    ensures ClauseTruth(RefWhere(p.filters, p.rawFilters, r) + RefFts(p) + rest, 0, sem) == Said(p, sem, r)
  {
    var fs, raws := p.filters, p.rawFilters;
    var q := FtsCondition(p.table, p.fts.value, Lit(p.fts.value.query));
    ConditionsRead(fs, raws, r);
    SearchReads(p.table, p.fts.value, p.fts.value.query);
    WhereIs(fs, raws, r);
    assert RefFts(p) == [AND] + q;
    assert SearchTest(p) == Test(Search(q));
    hide Reads, ReadsPrimary, Fails, Conditions, RefWhere, RefFts, Ends, ReadAlternatives, ClauseTruth, FtsCondition,
        WithSearch;
    if AllReadable(fs) {
      SearchedReads(Conditions(fs, raws, r), SpliceAll(Parts(fs, raws, r)), q, SearchTest(p), rest, sem);
    } else {
      SearchedFails(Conditions(fs, raws, r), q, rest, sem);
    }
  }

  /** Without filters the search opens a clause, the second one behind raw filters. */
  lemma SaidOfSearch(p: Plan, sem: Atom -> Truth, r: bool, rest: seq<Tok>)
    requires Conditional(p) && p.Select? && p.fts.Some? && p.filters == [] && Ends(rest)
    ensures ClauseTruth(RefWhere(p.filters, p.rawFilters, r) + RefFts(p) + rest, 0, sem) == Said(p, sem, r)
  {
    var raws := p.rawFilters;
    var q := FtsCondition(p.table, p.fts.value, Lit(p.fts.value.query));
    assert RefFts(p) == [Text(" WHERE ")] + q;
    if raws == [] {
      SearchReads(p.table, p.fts.value, p.fts.value.query);
      assert RefWhere([], raws, r) + RefFts(p) == RefFts(p);
      hide RefWhere, RefFts, FtsCondition, ReadsPrimary, Reads, Ends, ClauseTruth;
      SearchAlone(q, SearchTest(p), rest, sem);
    } else {
      ConditionsRead([], raws, r);
      WhereIs([], raws, r);
      hide RefWhere, RefFts, FtsCondition, Reads, Fails, ClauseTruth, Conditions, Ends;
      SearchBehind(Conditions([], raws, r), SpliceAll(Parts([], raws, r)), q, rest, sem);
    }
  }

  lemma SearchAlone(q: seq<Tok>, e: Expr, rest: seq<Tok>, sem: Atom -> Truth)
    requires ReadsPrimary(q, e) && Ends(rest)
    ensures ClauseTruth([Text(" WHERE ")] + q + rest, 0, sem) == Some(ExprTruth(e, sem))
  {
    hide *;
    OneTruth(e, sem);
    EndsStops(rest);
    PrimaryReads(q, e);
    ClauseReads(q, [AndList([e])], rest, sem);
  }

  lemma SearchBehind(ts: seq<Tok>, tree: seq<AndList>, q: seq<Tok>, rest: seq<Tok>, sem: Atom -> Truth)
    requires tree != [] && Reads(ts, tree)
    ensures ClauseTruth([Text(" WHERE ")] + ts + ([Text(" WHERE ")] + q) + rest, 0, sem) == None
  {
    var w := [Text(" WHERE ")];
    assert w + ts + (w + q) + rest == w + ts + (w + (q + rest));
    SecondStops(q + rest);
    hide *;
    ClauseReads(ts, tree, w + (q + rest), sem);
  }

  lemma SecondStops(ts: seq<Tok>)
    ensures Stops([Text(" WHERE ")] + ts) && !Ends([Text(" WHERE ")] + ts)
  {
    assert " WHERE "[1] == 'W';
  }

  lemma OneTruth(e: Expr, sem: Atom -> Truth)
    ensures SomeTruth([AndList([e])], sem) == ExprTruth(e, sem)
  {
    SomeTruthOne(AndList([e]), sem);
    assert AllTruth([e], sem) == Both(ExprTruth(e, sem), AllTruth([], sem));
  }

  /** Whatever the row: the compiled and bound UPDATE, DELETE or SELECT has its WHERE clause where
      its head ends, and there it says what the parts of the plan say. */
  lemma BoundClause(p: Plan, d: Dialect, sem: Atom -> Truth)
    requires Conditional(p) && Binds(p, d)
    ensures var r := SupportsReturning(d);
            && Opening(p, r) <= Bound(p, d)
            && ClauseTruth(Bound(p, d), |Opening(p, r)|, sem) == Said(p, sem, r)
  {
    var r := SupportsReturning(d);
    BoundIsReference(p, d);
    Layout(p, r);
    ClosingEnds(p, r);
    var o, w, q, c := Opening(p, r), RefWhere(p.filters, p.rawFilters, r), SearchClause(p), Closing(p, r);
    SearchIs(p);
    hide *;
    ClauseInside(o, w, q, c, sem);
    if !p.Select? || p.fts.None? {
      SaidWithoutSearch(p, sem, r, c);
    } else if p.filters == [] {
      SaidOfSearch(p, sem, r, c);
    } else {
      SaidWithSearch(p, sem, r, c);
    }
  }

  lemma ClauseInside(o: seq<Tok>, w: seq<Tok>, q: seq<Tok>, c: seq<Tok>, sem: Atom -> Truth)
    ensures o <= o + w + q + c
    ensures ClauseTruth(o + w + q + c, |o|, sem) == ClauseTruth(w + q + c, 0, sem)
    ensures q == [] ==> w + q + c == w + c
  {
    assert o + w + q + c == o + (w + q + c);
    ClauseBehind(o, w + q + c, sem);
  }

  lemma SearchIs(p: Plan)
    ensures !p.Select? || p.fts.None? ==> SearchClause(p) == []
    ensures p.Select? && p.fts.Some? ==> SearchClause(p) == RefFts(p)
  {
  }

  // ---- when it says what it should ----

  lemma SearchConjoined(tree: seq<AndList>, search: Expr, sem: Atom -> Truth)
    requires |tree| == 1
    ensures SomeTruth(WithSearch(tree, search), sem) == Both(SomeTruth(tree, sem), ExprTruth(search, sem))
  {
    assert tree == [tree[0]] && WithSearch(tree, search) == [AndList(tree[0].factors + [search])];
    SpliceSingle(tree[0], AndList([search]), sem);
    SpliceHead(tree[0], [AndList([search])]);
    OneTruth(search, sem);
  }

  /** A readable clause whose raw filters have no OR at their top level, and that does not pit a
      search against raw filters alone, says what it should on every row. */
  lemma BoundMeans(p: Plan, d: Dialect, sem: Atom -> Truth)
    requires Conditional(p) && Binds(p, d) && AllReadable(p.filters) && AllConjunctive(p.rawFilters)
    requires p.Select? && p.fts.Some? && p.filters == [] ==> p.rawFilters == []
    ensures var r := SupportsReturning(d);
            ClauseTruth(Bound(p, d), |Opening(p, r)|, sem) == Some(Wanted(p, sem, r))
  {
    var r := SupportsReturning(d);
    BoundClause(p, d, sem);
    SaidIsWanted(p, sem, r);
  }

  lemma SaidIsWanted(p: Plan, sem: Atom -> Truth, r: bool)
    requires Conditional(p) && AllReadable(p.filters) && AllConjunctive(p.rawFilters)
    requires p.Select? && p.fts.Some? && p.filters == [] ==> p.rawFilters == []
    ensures Said(p, sem, r) == Some(Wanted(p, sem, r))
  {
    var fs, raws := p.filters, p.rawFilters;
    if !p.Select? || p.fts.None? {
      WhereMeans(fs, raws, sem, r);
    } else if fs != [] {
      ConditionsRead(fs, raws, r);
      PartsMean(fs, raws, sem, r);
      SpliceMeans(Parts(fs, raws, r), sem);
      SearchConjoined(SpliceAll(Parts(fs, raws, r)), SearchTest(p), sem);
    }
  }

  /** Behind at least one filter: the clause that reaches the database says what it should on every
      row exactly when no raw filter has an OR at its top level. Without a filter an OR may do no
      harm, as in the raw filters `a OR b` and `a`. */
  lemma BoundExactly(p: Plan, d: Dialect)
    requires Conditional(p) && Binds(p, d) && p.filters != [] && AllReadable(p.filters)
    ensures var r := SupportsReturning(d);
            (forall sem: Atom -> Truth ::
               ClauseTruth(Bound(p, d), |Opening(p, r)|, sem) == Some(Wanted(p, sem, r)))
            <==> AllConjunctive(p.rawFilters)
  {
    var r := SupportsReturning(d);
    if AllConjunctive(p.rawFilters) {
      forall sem: Atom -> Truth
        ensures ClauseTruth(Bound(p, d), |Opening(p, r)|, sem) == Some(Wanted(p, sem, r))
      {
        BoundMeans(p, d, sem);
      }
    } else {
      BoundClause(p, d, RawOnly());
      SaidTooMuch(p, r);
    }
  }

  /** A row that passes every raw factor and the search, but none of the filters, gets through. */
  lemma SaidTooMuch(p: Plan, r: bool)
    requires Conditional(p) && p.filters != [] && AllReadable(p.filters) && !AllConjunctive(p.rawFilters)
    ensures Said(p, RawOnly(), r) == Some(True) && Wanted(p, RawOnly(), r) == False
  {
    var fs, raws := p.filters, p.rawFilters;
    FilterFails(fs[0], r);
    ConditionsAlone(fs, raws, r);
    LaterAlternatives(fs, raws, r);
    var tree := SpliceAll(Parts(fs, raws, r));
    RawAlternativesHold(tree[1..]);
    assert SomeTruth(tree, RawOnly()) == Either(AllTruth(tree[0].factors, RawOnly()), SomeTruth(tree[1..], RawOnly()));
    if p.Select? && p.fts.Some? {
      SearchKeeps(tree, SearchTest(p), RawOnly());
    }
  }

  /** A search that holds takes nothing away from the alternatives. */
  lemma {:induction false} SearchKeeps(tree: seq<AndList>, search: Expr, sem: Atom -> Truth)
    requires tree != [] && ExprTruth(search, sem) == True
    ensures SomeTruth(WithSearch(tree, search), sem) == SomeTruth(tree, sem)
  {
    if |tree| == 1 {
      SearchConjoined(tree, search, sem);
    } else {
      SearchKeeps(tree[1..], search, sem);
      assert WithSearch(tree, search) == [tree[0]] + WithSearch(tree[1..], search);
      assert WithSearch(tree, search)[1..] == WithSearch(tree[1..], search);
    }
  }
}
