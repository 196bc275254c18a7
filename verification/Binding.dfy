/** When a compiled statement binds its values correctly.

    A positional statement (SQLite, MySQL) is correct when filling its placeholders from the
    parameter list in text order gives the reference text; a numbered one (PostgreSQL) when
    resolving every $n through the list does. Neither holds on every plan. For each style a
    structural condition is proved sufficient on all plans, and necessary where the values can be
    told apart; with equal values a wrong order can look right. Module Shapes concludes which
    statements bind rightly whatever their values. */
module Binding {
  import opened Plans
  import opened Emission
  import opened Reference
  import opened Placeholders
  import opened TextOrder
  import opened Tame
  import opened Skeleton

  predicate BindsPositionally(p: Plan, inherited: seq<string>, d: Dialect) {
    var ts := PlanTokens(p, inherited, d);
    MarkCount(ts) == |PlanValues(p)| && Fill(ts, PlanValues(p)) == RefPlan(p, inherited, SupportsReturning(d))
  }

  predicate BindsByNumber(p: Plan, inherited: seq<string>) {
    Resolve(PlanTokens(p, inherited, Postgres), PlanValues(p)) == RefPlan(p, inherited, true)
  }

  // ---- both reduce to orders of values ----

  lemma NativePositional(ts: seq<Tok>, d: Dialect)
    requires Native(ts, d) && !d.Postgres?
    ensures Erase(ts) == ts
  {
    forall i | 0 <= i < |ts| ensures Erase(ts)[i] == ts[i] {
      assert ts[i] in ts;
    }
  }

  lemma RenderedHoleFree(r: seq<Tok>)
    requires Rendered(r)
    ensures HoleFree(r)
  {
    forall i | 0 <= i < |r| ensures !IsHole(r[i]) {
      assert r[i] in r;
    }
  }

  /** Positional binding is correct exactly when values are pushed in text order. */
  lemma PositionalIsTextOrder(p: Plan, inherited: seq<string>, d: Dialect)
    requires !d.Postgres?
    ensures BindsPositionally(p, inherited, d) <==> PlanText(p) == PlanValues(p)
  {
    var ts, r := PlanTokens(p, inherited, d), RefPlan(p, inherited, SupportsReturning(d));
    MatchPlan(p, inherited, d);
    NativePositional(ts, d);
    RenderedHoleFree(r);
    FillIsBinding(r, PlanValues(p));
  }

  /** Numbered binding is correct exactly when every number points at the value in its place and the
      renumbering of UNION branches meets placeholders only. */
  lemma NumberedIsPointing(p: Plan, inherited: seq<string>)
    ensures BindsByNumber(p, inherited) <==>
            Points(PlanNumbers(p), PlanText(p), 0, PlanValues(p)) && TamePlan(p, inherited)
  {
    var ts, r := PlanTokens(p, inherited, Postgres), RefPlan(p, inherited, true);
    MatchPlan(p, inherited, Postgres);
    RenderedHoleFree(r);
    forall i | 0 <= i < |ts| ensures !ts[i].Mark? && !ts[i].Lit? {
      assert ts[i] in ts;
    }
    hide Loose, PlanTokens, RefPlan, PlanNumbers, PlanText, PlanValues, TamePlan;
    if Erase(ts) == Erase(r) {
      ResolveIsBinding(ts, r, PlanValues(p));
    } else if Resolve(ts, PlanValues(p)) == r {
      ResolvedShape(ts, r, PlanValues(p));
    }
  }

  // ---- the values of a plan, each occurrence once ----

  function FilterAll(f: Filter): seq<Value> {
    match f
    case Compare(_, _, _) => FilterValues(f)
    case And(fs) => FiltersAll(fs)
    case Or(fs) => FiltersAll(fs)
    case Subquery(_, _, p) => PlanAll(p)
  }

  function FiltersAll(fs: seq<Filter>): seq<Value> {
    if fs == [] then [] else FilterAll(fs[0]) + FiltersAll(fs[1..])
  }

  function BranchAll(b: Branch): seq<Value> {
    PlanAll(b.query)
  }

  function BranchesAll(bs: seq<Branch>): seq<Value> {
    if bs == [] then [] else BranchAll(bs[0]) + BranchesAll(bs[1..])
  }

  function FromAll(from: FromSource): seq<Value> {
    if from.FromPlan? then PlanAll(from.query) else []
  }

  /** Every placeholder has a parameter of its raw filter. */
  predicate InRange(ns: seq<nat>, params: seq<Value>) {
    forall i | 0 <= i < |ns| :: 1 <= ns[i] <= |params|
  }

  /** A row that lacks one of the columns has undefined there. */
  function RowAll(row: Record, keys: seq<string>): seq<Value> {
    Values(row) + if forall i | 0 <= i < |keys| :: keys[i] in Keys(row) then [] else [Undefined]
  }

  function RowsAll(rows: seq<Record>, keys: seq<string>): seq<Value> {
    if rows == [] then [] else RowAll(rows[0], keys) + RowsAll(rows[1..], keys)
  }

  /** Every value the compiler looks at, whether or not it is pushed or printed. */
  function PlanAll(p: Plan): seq<Value> {
    if p.Select? then
      if p.deny then JsonValues(p.jsonOps)
      else
        JsonValues(p.jsonOps) + FromAll(p.from) + FtsValues(p.fts) + FiltersAll(p.filters) +
        RawValues(p.rawFilters) + FiltersAll(p.having) + BranchesAll(p.unions) + BranchesAll(p.ctes)
    else if p.Insert? then RowsAll(p.rows, InsertKeys(p.rows)) + Values(ConflictRecord(p.onConflict))
    else if p.Update? then Values(p.assignments) + FiltersAll(p.filters) + RawValues(p.rawFilters)
    else FiltersAll(p.filters) + RawValues(p.rawFilters)
  }

  /** Told apart from each other, and from what a placeholder without a parameter shows. */
  predicate Distinct(vs: seq<Value>) {
    Undefined !in vs && forall i, j | 0 <= i < j < |vs| :: vs[i] != vs[j]
  }

  predicate Within(vs: seq<Value>, all: seq<Value>) {
    forall v | v in vs :: v in all
  }

  predicate Disjoint(a: seq<Value>, b: seq<Value>) {
    forall v | v in a :: v !in b
  }

  lemma DistinctSplit(a: seq<Value>, b: seq<Value>)
    requires Distinct(a + b)
    ensures Distinct(a) && Distinct(b) && Disjoint(a, b)
  {
    var c := a + b;
    assert forall v | v in a || v in b :: v in c;
    forall i, j | 0 <= i < j < |a| ensures a[i] != a[j] { assert c[i] == a[i] && c[j] == a[j]; }
    forall i, j | 0 <= i < j < |b| ensures b[i] != b[j] { assert c[|a| + i] == b[i] && c[|a| + j] == b[j]; }
    forall i, j | 0 <= i < |a| && 0 <= j < |b| ensures a[i] != b[j] {
      assert c[i] == a[i] && c[|a| + j] == b[j];
    }
  }

  /** Which stock an element comes from tells which block it stands in. */
  lemma StockTellsBlock(a: seq<Value>, b: seq<Value>, x: seq<Value>, y: seq<Value>)
    requires Disjoint(x, y) && Within(a, x) && Within(b, y)
    ensures forall i | 0 <= i < |a + b| :: (a + b)[i] in x <==> i < |a|
  {
    forall i | 0 <= i < |a + b| ensures (a + b)[i] in x <==> i < |a| {
      if i < |a| {
        assert (a + b)[i] == a[i] && a[i] in a;
      } else {
        assert (a + b)[i] == b[i - |a|] && b[i - |a|] in b;
      }
    }
  }

  /** Two equal concatenations whose blocks draw on separate stocks are equal block by block. */
  lemma SplitEqual(a: seq<Value>, b: seq<Value>, a': seq<Value>, b': seq<Value>, x: seq<Value>, y: seq<Value>)
    requires a + b == a' + b' && Disjoint(x, y)
    requires Within(a, x) && Within(a', x) && Within(b, y) && Within(b', y)
    ensures a == a' && b == b'
  {
    var c := a + b;
    StockTellsBlock(a, b, x, y);
    StockTellsBlock(a', b', x, y);
    var m := if |a| < |a'| then |a| else |a'|;
    if m < |c| {
      assert c[m] in x <==> m < |a|;
      assert (a' + b')[m] in x <==> m < |a'|;
    }
    assert |a| == |a'|;
    assert a == c[..|a|] && a' == (a' + b')[..|a|];
    assert b == c[|a|..] && b' == (a' + b')[|a|..];
  }

  /** Blocks printed the other way round agree only if one side has nothing to move. */
  lemma SwapEqual(a: seq<Value>, b: seq<Value>, a': seq<Value>, b': seq<Value>, x: seq<Value>, y: seq<Value>)
    requires a + b == b' + a' && Disjoint(x, y)
    requires Within(a, x) && Within(a', x) && Within(b, y) && Within(b', y)
    ensures a == a' && b == b' && (a == [] || b == [])
  {
    assert Disjoint(y, x);
    if b' == [] {
      assert b' + a' == a' + [];
      SplitEqual(a, b, a', [], x, y);
    } else {
      StockTellsBlock(a, b, x, y);
      assert (b' + a')[0] == b'[0] && b'[0] in b';
      assert a == [] && a + b == b + [];
      SplitEqual(b, [], b', a', y, x);
    }
  }

  lemma {:induction false} FilterWithin(f: Filter)
    ensures Within(FilterValues(f), FilterAll(f))
    ensures Undefined !in FilterText(f) ==> Within(FilterText(f), FilterAll(f))
  {
    match f
    case Compare(_, _, _) =>
    case And(fs) => FiltersWithin(fs);
    case Or(fs) => FiltersWithin(fs);
    case Subquery(_, _, p) => PlanWithin(p);
  }

  lemma {:induction false} FiltersWithin(fs: seq<Filter>)
    ensures Within(FiltersValues(fs), FiltersAll(fs))
    ensures Undefined !in FiltersText(fs) ==> Within(FiltersText(fs), FiltersAll(fs))
  {
    if fs != [] {
      FilterWithin(fs[0]);
      FiltersWithin(fs[1..]);
    }
  }

  lemma {:induction false} BranchWithin(b: Branch)
    ensures Within(BranchValues(b), BranchAll(b))
    ensures Undefined !in BranchText(b) ==> Within(BranchText(b), BranchAll(b))
  {
    PlanWithin(b.query);
  }

  lemma {:induction false} BranchesWithin(bs: seq<Branch>)
    ensures Within(BranchesValues(bs), BranchesAll(bs))
    ensures Undefined !in BranchesText(bs) ==> Within(BranchesText(bs), BranchesAll(bs))
  {
    if bs != [] {
      BranchWithin(bs[0]);
      BranchesWithin(bs[1..]);
    }
  }

  lemma ShownWithin(ns: seq<nat>, params: seq<Value>)
    requires Undefined !in Shown(ns, params)
    ensures InRange(ns, params) && Within(Shown(ns, params), params)
  {
    forall i | 0 <= i < |ns| ensures 1 <= ns[i] <= |params| {
      assert Shown(ns, params)[i] in Shown(ns, params);
    }
  }

  lemma {:induction false} RawsWithin(raws: seq<RawFilter>)
    requires Undefined !in RawsText(raws)
    ensures Within(RawsText(raws), RawValues(raws))
  {
    if raws != [] {
      var shown := Shown(RawHoles(raws[0].expr), raws[0].params);
      assert forall v | v in shown || v in RawsText(raws[1..]) :: v in RawsText(raws);
      ShownWithin(RawHoles(raws[0].expr), raws[0].params);
      RawsWithin(raws[1..]);
    }
  }

  lemma {:induction false} LookupWithin(row: Record, key: string)
    ensures if key in Keys(row) then Lookup(row, key) in Values(row) else Lookup(row, key) == Undefined
  {
    if row != [] {
      LookupWithin(row[1..], key);
      assert Keys(row) == [row[0].0] + Keys(row[1..]) && Values(row) == [row[0].1] + Values(row[1..]);
    }
  }

  /** No key twice, as in every JavaScript record. */
  predicate DistinctKeys(row: Record) {
    forall i, j | 0 <= i < j < |row| :: row[i].0 != row[j].0
  }

  lemma {:induction false} LookupPaired(row: Record, i: nat)
    requires DistinctKeys(row) && i < |row|
    ensures Lookup(row, row[i].0) == row[i].1
  {
    if i > 0 {
      assert row[1..][i - 1] == row[i];
      LookupPaired(row[1..], i - 1);
    }
  }

  lemma {:induction false} RowsAt(rows: seq<Record>, keys: seq<string>, r: nat, c: nat)
    requires r < |rows| && c < |keys|
    ensures r * |keys| + c < |RowsValues(rows, keys)|
    ensures RowsValues(rows, keys)[r * |keys| + c] == Lookup(rows[r], keys[c])
    decreases r
  {
    if r == 0 {
      assert RowsValues(rows, keys)[c] == RowValues(rows[0], keys)[c];
    } else {
      RowsAt(rows[1..], keys, r - 1, c);
      assert r * |keys| == |keys| + (r - 1) * |keys|;
    }
  }

  /** An INSERT binds, row by row, the value that the row pairs with each key of the first row, wherever
      in the row it stands, and undefined for a key that the row does not have. */
  lemma InsertBinds(p: Plan, r: nat, c: nat)
    requires p.Insert? && r < |p.rows| && c < |p.rows[0]| && DistinctKeys(p.rows[r])
    ensures var at := r * |p.rows[0]| + c;
            && at < |PlanValues(p)|
            && (forall i | 0 <= i < |p.rows[r]| && p.rows[r][i].0 == p.rows[0][c].0 ::
                  PlanValues(p)[at] == p.rows[r][i].1)
            && ((forall i | 0 <= i < |p.rows[r]| :: p.rows[r][i].0 != p.rows[0][c].0) ==>
                  PlanValues(p)[at] == Undefined)
  {
    var key := p.rows[0][c].0;
    RowsAt(p.rows, InsertKeys(p.rows), r, c);
    forall i | 0 <= i < |p.rows[r]| && p.rows[r][i].0 == key ensures Lookup(p.rows[r], key) == p.rows[r][i].1 {
      LookupPaired(p.rows[r], i);
    }
    LookupWithin(p.rows[r], key);
    if key in Keys(p.rows[r]) {
      var i :| 0 <= i < |Keys(p.rows[r])| && Keys(p.rows[r])[i] == key;
      assert p.rows[r][i].0 == key;
    }
  }

  lemma {:induction false} RowsWithin(rows: seq<Record>, keys: seq<string>)
    ensures Within(RowsValues(rows, keys), RowsAll(rows, keys))
  {
    if rows != [] {
      forall i | 0 <= i < |keys| ensures RowValues(rows[0], keys)[i] in RowAll(rows[0], keys) {
        LookupWithin(rows[0], keys[i]);
      }
      RowsWithin(rows[1..], keys);
    }
  }

  lemma {:induction false} PlanWithin(p: Plan)
    ensures Within(PlanValues(p), PlanAll(p))
    ensures Undefined !in PlanText(p) ==> Within(PlanText(p), PlanAll(p))
  {
    if p.Select? {
      FiltersWithin(p.filters);
      FiltersWithin(p.having);
      BranchesWithin(p.unions);
      BranchesWithin(p.ctes);
      if p.from.FromPlan? {
        PlanWithin(p.from.query);
      }
      if Undefined !in PlanText(p) && !p.deny {
        PartsDefined(p);
        RawsWithin(p.rawFilters);
        assert Within(MiddleText(p), PlanAll(p));
      }
      assert Within(MainValues(p), PlanAll(p)) || p.deny;
    } else if p.Insert? {
      RowsWithin(p.rows, InsertKeys(p.rows));
    } else {
      FiltersWithin(p.filters);
      if Undefined !in PlanText(p) {
        assert forall v | v in RawsText(p.rawFilters) || v in FiltersText(p.filters) :: v in PlanText(p);
        RawsWithin(p.rawFilters);
      }
    }
  }

  /** What is nowhere in the text of a SELECT is nowhere in its clauses. */
  lemma PartsDefined(p: Plan)
    requires p.Select? && !p.deny && Undefined !in PlanText(p)
    ensures Undefined !in FromText(p) && Undefined !in FiltersText(p.filters) && Undefined !in RawsText(p.rawFilters)
    ensures Undefined !in FiltersText(p.having)
    ensures Undefined !in BranchesText(p.unions) && Undefined !in BranchesText(p.ctes)
  {
    assert forall v | v in MiddleText(p) || v in FromText(p) :: v in PlanText(p);
    assert forall v | v in BranchesText(p.unions) || v in BranchesText(p.ctes) :: v in PlanText(p);
  }
}
