/** The smallest plans that bind wrongly, one for each way a value can be pushed at one place and
    printed at another. */
module Misbindings {
  import opened Wrappers
  import opened Rewriting
  import opened Plans
  import opened Emission
  import opened Binding
  import Positional
  import Numbered
  import NumberedNecessary
  import TextOrder
  import Reference
  import opened Tame

  /** A SELECT of one column with the given clauses and no others. */
  function Query(deny: bool, jsonOps: seq<JsonOp>, from: FromSource, fts: Option<Fts>, filters: seq<Filter>,
                 ctes: seq<Branch>): Plan {
    Select("t", ["a"], false, [], [], jsonOps, [], deny, [], from, fts, filters, [], [], [], [], [], ctes)
  }

  /** A SELECT whose one condition compares with the number n. */
  function Where(n: int): Plan {
    Query(false, [], FromTable, None, [Compare("a", Eq, Num(n))], [])
  }

  /** Full-text search is pushed before the filters and printed after them. */
  function SearchAndFilter(): Plan {
    Query(false, [], FromTable, Some(Fts(TsVector, ["a"], Num(2), None)), [Compare("a", Eq, Num(1))], [])
  }

  /** WITH queries are pushed last and printed first. */
  function WithAndFilter(): Plan {
    Query(false, [], FromTable, None, [Compare("a", Eq, Num(1))], [WithQuery("c", [], Where(2))])
  }

  /** A denied SELECT prints its JSON placeholder and returns no values. */
  function DeniedJsonSet(): Plan {
    Query(true, [JsonSet("a", "$", Num(1), "x")], FromTable, None, [], [])
  }

  /** An FTS5 source displaces a FROM subquery whose values are already pushed. */
  function DisplacedSource(): Plan {
    Query(false, [], FromPlan(Where(1), "s"), Some(Fts(Fts5, ["a"], Num(2), None)), [], [])
  }

  /** A filter subquery numbers its own values from 1 although one value stands before them. */
  function FilterThenSubquery(): Plan {
    Query(false, [], FromTable, None, [Compare("a", Eq, Num(1)), Subquery("a", InPlan, Where(2))], [])
  }

  /** The name of a column behind a parameter, in a UNION branch. */
  function UnionColumn(): Plan {
    Select("t", ["a"], false, [], [], [], [], false, [], FromTable, None, [Compare("a", Eq, Num(1))], [],
           [], [], [], [UnionBranch(Union, Column("c$1"))], [])
  }

  function Column(name: string): Plan {
    Select("t", [name], false, [], [], [], [], false, [], FromTable, None, [], [], [], [], [], [], [])
  }

  /** A raw filter with a parameter of its own. */
  function RawParameter(): Plan {
    Delete("t", [], [RawFilter(Factor(RawText("age > ", [RawPlace(1, "")])), [Num(18)])], [])
  }

  /** The same behind a filter with a value. */
  function FilterThenRaw(): Plan {
    Delete("t", [Compare("a", Eq, Num(1))], RawParameter().rawFilters, [])
  }

  lemma OneCondition(n: int)
    ensures var fs := [Compare("a", Eq, Num(n))];
            FiltersAll(fs) == [Num(n)] && FiltersValues(fs) == [Num(n)]
  {
  }

  lemma WhereAll(n: int)
    ensures PlanAll(Where(n)) == [Num(n)] && PlanValues(Where(n)) == [Num(n)] &&
            TextOrder.PlanText(Where(n)) == [Num(n)]
  {
    var p := Where(n);
    OneCondition(n);
    assert p.Select? && !p.deny && p.filters == [Compare("a", Eq, Num(n))];
    assert TextOrder.FiltersText(p.filters) == [Num(n)];
    assert MainValues(p) == [Num(n)];
  }

  lemma SearchMisbinds(d: Dialect)
    requires !d.Postgres?
    ensures !BindsPositionally(SearchAndFilter(), [], d)
  {
    var p := SearchAndFilter();
    assert FiltersAll(p.filters) == [Num(1)] && FiltersValues(p.filters) == [Num(1)];
    assert PlanAll(p) == [Num(2), Num(1)];
    Positional.BindsExactlyWhenOrdered(p, [], d);
  }

  lemma WithMisbinds(d: Dialect)
    requires !d.Postgres?
    ensures !BindsPositionally(WithAndFilter(), [], d)
  {
    var p := WithAndFilter();
    WithValues();
    hide PlanAll, MainValues, BranchesValues, BindsPositionally;
    Positional.BindsExactlyWhenOrdered(p, [], d);
  }

  lemma WithValues()
    ensures var p := WithAndFilter();
            PlanAll(p) == [Num(1), Num(2)] && MainValues(p) == [Num(1)] && BranchesValues(p.ctes) == [Num(2)]
  {
    var p := WithAndFilter();
    WhereAll(2);
    OneCondition(1);
    assert p.ctes[1..] == [];
    assert BranchesAll(p.ctes) == [Num(2)];
  }

  lemma DeniedMisbinds(d: Dialect)
    requires !d.Postgres?
    ensures !BindsPositionally(DeniedJsonSet(), [], d)
  {
    var p := DeniedJsonSet();
    assert p.jsonOps[1..] == [];
    assert JsonValues(p.jsonOps) == [Num(1)];
    Positional.BindsExactlyWhenOrdered(p, [], d);
  }

  lemma DisplacedMisbinds(d: Dialect)
    requires !d.Postgres?
    ensures !BindsPositionally(DisplacedSource(), [], d)
  {
    var p := DisplacedSource();
    WhereAll(1);
    assert PlanAll(p) == [Num(1), Num(2)];
    Positional.BindsExactlyWhenOrdered(p, [], d);
  }

  lemma SubqueryMisnumbers()
    ensures !BindsByNumber(FilterThenSubquery(), [])
  {
    SubqueryValues();
    SubqueryLate();
    hide PlanAll, BindsByNumber;
    NumberedNecessary.BindsExactlyWhenNumberable(FilterThenSubquery(), []);
  }

  lemma SubqueryValues()
    ensures PlanAll(FilterThenSubquery()) == [Num(1), Num(2)]
  {
    var p, fs := FilterThenSubquery(), FilterThenSubquery().filters;
    WhereAll(2);
    hide PlanAll;
    assert fs[1..] == [Subquery("a", InPlan, Where(2))] && fs[1..][1..] == [];
    assert FiltersAll(fs[1..]) == PlanAll(Where(2)) + [];
    assert FiltersAll(fs) == [Num(1)] + [Num(2)];
    OnlyFilters(p);
  }

  lemma OnlyFilters(p: Plan)
    requires p.Select? && p == Query(false, [], FromTable, None, p.filters, [])
    ensures PlanAll(p) == FiltersAll(p.filters)
  {
    assert FiltersAll(p.having) == [];
    hide FiltersAll;
    assert JsonValues(p.jsonOps) == [] && FromAll(p.from) == [] && FtsValues(p.fts) == [] &&
           RawValues(p.rawFilters) == [];
    assert BranchesAll(p.unions) == [] && BranchesAll(p.ctes) == [];
  }

  lemma SubqueryLate()
    ensures !Numbered.Numberable(FilterThenSubquery())
  {
    var p := FilterThenSubquery();
    WhereAll(2);
    hide PlanValues, PlanAll, TextOrder.PlanText;
    assert p.filters[1..] == [Subquery("a", InPlan, Where(2))];
    assert !Numbered.NumberableFilters(p.filters[1..], 1);
    assert WhereStart(p) == 0;
  }

  function ColumnStatement(name: string): seq<Tok> {
    [Text("SELECT "), Ident(name), Text(" FROM "), Ident("t")]
  }

  lemma ColumnTokens(name: string)
    ensures PlanTokens(Column(name), ["a"], Postgres) == ColumnStatement(name)
  {
    var p := Column(name);
    ColumnItems(p, name, true);
    ColumnClauses(p, name, true);
    hide ItemTokens, MiddleTokens, DistinctClause;
    assert SelectHead(p, [name], [Ident("t")], Postgres) == ColumnStatement(name);
    hide SelectHead;
    assert SelectTokens(p, ["a"], Postgres) == ColumnStatement(name);
  }

  lemma ColumnShown(name: string, r: bool)
    ensures Reference.RefPlan(Column(name), ["a"], r) == ColumnStatement(name)
  {
    var p := Column(name);
    ColumnItems(p, name, r);
    ColumnClauses(p, name, r);
    hide Reference.RefItems, Reference.RefMiddle, DistinctClause;
    assert Reference.RefHead(p, [name], [Ident("t")]) == ColumnStatement(name);
    hide Reference.RefHead;
    assert Reference.RefSelect(p, ["a"], r) == ColumnStatement(name);
  }

  lemma ColumnItems(p: Plan, name: string, r: bool)
    requires p == Column(name)
    ensures ItemTokens(p, [name], Postgres) == [Ident(name)] && Reference.RefItems(p, [name]) == [Ident(name)]
  {
    assert Separated(Idents([name]), COMMA, false) == [Ident(name)] by {
      assert Idents([name])[1..] == [];
    }
    assert Separated(Opaques([]), COMMA, true) == [];
  }

  /** A plan that consists of one column has no other clauses. */
  lemma ColumnClauses(p: Plan, name: string, r: bool)
    requires p == Column(name)
    ensures MiddleTokens(p, Postgres) == [] && Reference.RefMiddle(p, r) == []
    ensures DistinctClause(p.distinct, p.distinctOn) == []
  {
    assert Separated(Opaques([]), Text(" "), true) == [];
  }

  lemma DollarRenumbered()
    ensures ReplaceDollars("c$1", Renumbered(1)) == "c$2"
  {
    var g := Renumbered(1);
    assert Digits(1) == "1" && Digits(2) == "2";
    hide ReplaceDollars;
    assert "c$1" == ['c'] + "$1" && "$1" == "$" + Digits(1) + "";
    ReplaceOther('c', "$1", g);
    ReplaceOne(1, "", g);
    ReplaceNothing(g);
  }

  /** The regular expression takes the name of the column for a placeholder, so that the UNION branch
      asks for another column. */
  lemma UnionRenamesColumn()
    ensures Numbered.Numberable(UnionColumn()) && !BindsByNumber(UnionColumn(), [])
    ensures BranchTokens(UnionBranch(Union, Column("c$1")), 1, ["a"], Postgres) ==
            [Text(" UNION "), LP] + ColumnStatement("c$2") + [RP]
  {
    UnionNumberable();
    NotTame();
    RenamedTokens();
    hide *;
    NumberedIsPointing(UnionColumn(), []);
  }

  lemma RenamedTokens()
    ensures BranchTokens(UnionBranch(Union, Column("c$1")), 1, ["a"], Postgres) ==
            [Text(" UNION "), LP] + ColumnStatement("c$2") + [RP]
  {
    ColumnTokens("c$1");
    DollarRenumbered();
    hide PlanTokens, ReplaceDollars;
    assert RenumberTok(Ident("c$1"), 1) == Ident("c$2");
    var ts, us := ColumnStatement("c$1"), Renumber(ColumnStatement("c$1"), 1);
    assert us[0] == ts[0] && us[1] == RenumberTok(ts[1], 1) && us[2] == ts[2] && us[3] == RenumberTok(Ident("t"), 1);
    assert RenumberTok(Ident("t"), 1) == Ident("t") by { TameStays("t", 1); }
    assert us == ColumnStatement("c$2");
  }

  lemma NotTame()
    ensures !TamePlan(UnionColumn(), [])
  {
    var p, q := UnionColumn(), Column("c$1");
    ColumnShown("c$1", true);
    OneCondition(1);
    assert UnionStart(p) == 1;
    hide PlanTokens, Reference.RefPlan, UnionStart;
    NotTameTokens();
    assert !TameBranch(p.unions[0], 1, ["a"]);
  }

  lemma NotTameTokens()
    ensures !TameTokens(ColumnStatement("c$1"), 1)
  {
    assert Ident("c$1") in ColumnStatement("c$1") && "c$1"[1] == '$' && IsDigit("c$1"[2]);
    assert !TameTok(Ident("c$1"), 1);
  }

  lemma UnionNumberable()
    ensures Numbered.Numberable(UnionColumn())
  {
    var p, q := UnionColumn(), Column("c$1");
    assert Numbered.Numberable(q);
    assert p.unions[1..] == [] && p.filters[1..] == [];
  }

  /** A parameter that the author of a raw filter bound goes where its placeholder stands. */
  lemma RawParameterBinds(d: Dialect)
    ensures if d.Postgres? then BindsByNumber(RawParameter(), []) else BindsPositionally(RawParameter(), [], d)
  {
    var p := RawParameter();
    assert RawHoles(p.rawFilters[0].expr) == [1] == TextOrder.Range(0, 1);
    assert p.rawFilters[1..] == [];
    if d.Postgres? {
      assert Numbered.NumberableRaws(p.rawFilters, 0);
      assert Numbered.Numberable(p) && TamePlan(p, []);
      hide BindsByNumber;
      NumberedNecessary.NumberablePlansBind(p, []);
    } else {
      assert Positional.OrderedRaws(p.rawFilters);
      assert Positional.Ordered(p);
      hide BindsPositionally;
      Positional.OrderedPlansBind(p, [], d);
    }
  }

  /** In PostgreSQL the author's `$1` then takes the value of the filter. */
  lemma RawParameterMisnumbers()
    ensures !BindsByNumber(FilterThenRaw(), [])
  {
    var p := FilterThenRaw();
    OneCondition(1);
    assert RawHoles(p.rawFilters[0].expr) == [1];
    assert p.rawFilters[1..] == [];
    assert !Numbered.NumberableRaws(p.rawFilters, 1);
    assert PlanAll(p) == [Num(1), Num(18)];
    hide BindsByNumber;
    NumberedNecessary.BindsExactlyWhenNumberable(p, []);
  }
}
