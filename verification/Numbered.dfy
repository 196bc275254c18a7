/** The numbered dialect: exactly which plans bind correctly. A UNION branch is renumbered after
    what precedes it; a plan nested in a filter, in FROM or in WITH keeps counting from $1. */
module Numbered {
  import opened Plans
  import opened Emission
  import opened Placeholders
  import opened TextOrder
  import opened Binding

  /** A plan embedded without renumbering, when k parameters precede it. */
  predicate EmbeddedOk(p: Plan, k: nat)
    decreases p, 2
  {
    PlanText(p) == [] || (k == 0 && Numberable(p))
  }

  predicate NumberableFilter(f: Filter, k: nat) {
    match f
    case Compare(_, _, _) => true
    case And(fs) => NumberableFilters(fs, k)
    case Or(fs) => NumberableFilters(fs, k)
    case Subquery(_, _, p) => EmbeddedOk(p, k)
  }

  predicate NumberableFilters(fs: seq<Filter>, k: nat) {
    fs == [] || (NumberableFilter(fs[0], k) && NumberableFilters(fs[1..], k + |FilterValues(fs[0])|))
  }

  /** A raw filter with placeholders counts them from 1, so no parameter may precede its own. */
  predicate NumberableRaws(raws: seq<RawFilter>, k: nat) {
    raws == [] ||
    (&& (RawHoles(raws[0].expr) == [] || (k == 0 && InRange(RawHoles(raws[0].expr), raws[0].params)))
     && NumberableRaws(raws[1..], k + |raws[0].params|))
  }

  /** The number of parameters pushed before the raw filters. */
  function RawStart(p: Plan): nat
    requires !p.Insert?
  {
    if p.Select? then WhereStart(p) + |FiltersValues(p.filters)|
    else if p.Update? then |p.assignments| + |FiltersValues(p.filters)|
    else |FiltersValues(p.filters)|
  }

  predicate NumberableBranch(b: Branch, k: nat) {
    if b.UnionBranch? then Numberable(b.query) else EmbeddedOk(b.query, k)
  }

  predicate NumberableBranches(bs: seq<Branch>, k: nat) {
    bs == [] || (NumberableBranch(bs[0], k) && NumberableBranches(bs[1..], k + |BranchValues(bs[0])|))
  }

  /** Every nested plan with placeholders that is not a UNION branch, and every raw filter with
      placeholders, is compiled while the parameter list is still empty, and a denied SELECT sets no
      JSON value. */
  predicate Numberable(p: Plan)
    decreases p, 1
  {
    if p.Select? then
      if p.deny then JsonValues(p.jsonOps) == []
      else
        && (p.from.FromPlan? && !IsFts5(p.fts) ==> EmbeddedOk(p.from.query, |JsonValues(p.jsonOps)|))
        && NumberableFilters(p.filters, WhereStart(p)) && NumberableRaws(p.rawFilters, RawStart(p))
        && NumberableFilters(p.having, HavingStart(p))
        && NumberableBranches(p.unions, UnionStart(p))
        && NumberableBranches(p.ctes, WithStart(p))
    else if p.Insert? then true
    else
      NumberableFilters(p.filters, if p.Update? then |p.assignments| else 0) &&
          NumberableRaws(p.rawFilters, RawStart(p))
  }

  /** `block` stands in `vals` from position `at` on. */
  predicate Holds(vals: seq<Value>, at: nat, block: seq<Value>) {
    at + |block| <= |vals| && vals[at..at + |block|] == block
  }

  lemma HoldsSplit(vals: seq<Value>, at: nat, a: seq<Value>, b: seq<Value>)
    requires Holds(vals, at, a + b)
    ensures Holds(vals, at, a) && Holds(vals, at + |a|, b)
  {
    assert (a + b)[..|a|] == a && (a + b)[|a|..] == b;
    assert vals[at..at + |a|] == vals[at..at + |a + b|][..|a|];
    assert vals[at + |a|..at + |a + b|] == vals[at..at + |a + b|][|a|..];
  }

  lemma PointsRange(vals: seq<Value>, k: nat, shift: nat, block: seq<Value>)
    requires Holds(vals, k + shift, block)
    ensures Points(Range(k, |block|), block, shift, vals)
  {
    forall i | 0 <= i < |block| ensures vals[Range(k, |block|)[i] + shift - 1] == block[i] {
      assert vals[k + shift..k + shift + |block|][i] == block[i];
    }
  }

  /** Numbers that point right inside a block point right, once raised, in a list holding the block. */
  lemma PointsRaised(ns: seq<nat>, ls: seq<Value>, block: seq<Value>, k: nat, vals: seq<Value>)
    requires Points(ns, ls, 0, block) && Holds(vals, k, block)
    ensures Points(Raise(ns, k), ls, 0, vals)
  {
    forall i | 0 <= i < |ns| ensures 1 <= Raise(ns, k)[i] <= |vals| && vals[Raise(ns, k)[i] - 1] == ls[i] {
      assert vals[k..k + |block|][ns[i] - 1] == block[ns[i] - 1];
    }
  }

  // ---- sufficient ----

  lemma {:induction false} EmbeddedPoints(p: Plan, k: nat, vals: seq<Value>)
    requires EmbeddedOk(p, k) && Holds(vals, k, PlanValues(p))
    ensures Points(PlanNumbers(p), PlanText(p), 0, vals)
    decreases p, 2
  {
    NumbersMatchText(p);
    if PlanText(p) != [] {
      PlanPoints(p);
      PointsRaised(PlanNumbers(p), PlanText(p), PlanValues(p), 0, vals);
      assert Raise(PlanNumbers(p), 0) == PlanNumbers(p);
    }
  }

  lemma {:induction false} FilterPoints(f: Filter, k: nat, vals: seq<Value>)
    requires NumberableFilter(f, k) && Holds(vals, k, FilterValues(f))
    ensures Points(FilterNumbers(f, k), FilterText(f), 0, vals)
  {
    match f
    case Compare(_, _, _) => PointsRange(vals, k, 0, FilterValues(f));
    case And(fs) => FiltersPoints(fs, k, vals);
    case Or(fs) => FiltersPoints(fs, k, vals);
    case Subquery(_, _, p) => EmbeddedPoints(p, k, vals);
  }

  lemma {:induction false} FiltersPoints(fs: seq<Filter>, k: nat, vals: seq<Value>)
    requires NumberableFilters(fs, k) && Holds(vals, k, FiltersValues(fs))
    ensures Points(FiltersNumbers(fs, k), FiltersText(fs), 0, vals)
  {
    if fs != [] {
      var k' := k + |FilterValues(fs[0])|;
      HoldsSplit(vals, k, FilterValues(fs[0]), FiltersValues(fs[1..]));
      FilterPoints(fs[0], k, vals);
      FiltersPoints(fs[1..], k', vals);
      PointsConcat(FilterNumbers(fs[0], k), FilterText(fs[0]), FiltersNumbers(fs[1..], k'), FiltersText(fs[1..]), 0,
                   vals);
    }
  }

  lemma {:induction false} RawsPoints(raws: seq<RawFilter>, k: nat, vals: seq<Value>)
    requires NumberableRaws(raws, k) && Holds(vals, k, RawValues(raws))
    ensures Points(RawsNumbers(raws), RawsText(raws), 0, vals)
  {
    if raws != [] {
      var ns, ps := RawHoles(raws[0].expr), raws[0].params;
      HoldsSplit(vals, k, ps, RawValues(raws[1..]));
      RawsPoints(raws[1..], k + |ps|, vals);
      OwnPoints(ns, ps, k, vals);
      PointsConcat(ns, Shown(ns, ps), RawsNumbers(raws[1..]), RawsText(raws[1..]), 0, vals);
    }
  }

  lemma OwnPoints(ns: seq<nat>, ps: seq<Value>, k: nat, vals: seq<Value>)
    requires ns == [] || (k == 0 && InRange(ns, ps))
    requires Holds(vals, k, ps)
    ensures Points(ns, Shown(ns, ps), 0, vals)
  {
    forall i | 0 <= i < |ns| ensures 1 <= ns[i] <= |vals| && vals[ns[i] - 1] == Shown(ns, ps)[i] {
      assert vals[0..|ps|][ns[i] - 1] == ps[ns[i] - 1];
    }
  }

  lemma {:induction false} BranchPoints(b: Branch, k: nat, vals: seq<Value>)
    requires NumberableBranch(b, k) && Holds(vals, k, BranchValues(b))
    ensures Points(BranchNumbers(b, k), BranchText(b), 0, vals)
  {
    if b.UnionBranch? {
      PlanPoints(b.query);
      PointsRaised(PlanNumbers(b.query), PlanText(b.query), PlanValues(b.query), k, vals);
    } else {
      EmbeddedPoints(b.query, k, vals);
    }
  }

  lemma {:induction false} BranchesPoints(bs: seq<Branch>, k: nat, vals: seq<Value>)
    requires NumberableBranches(bs, k) && Holds(vals, k, BranchesValues(bs))
    ensures Points(BranchesNumbers(bs, k), BranchesText(bs), 0, vals)
  {
    if bs != [] {
      var k' := k + |BranchValues(bs[0])|;
      HoldsSplit(vals, k, BranchValues(bs[0]), BranchesValues(bs[1..]));
      BranchPoints(bs[0], k, vals);
      BranchesPoints(bs[1..], k', vals);
      PointsConcat(BranchNumbers(bs[0], k), BranchText(bs[0]), BranchesNumbers(bs[1..], k'), BranchesText(bs[1..]), 0,
                   vals);
    }
  }

  lemma SelectValues(p: Plan)
    requires p.Select? && !p.deny
    ensures PlanValues(p) ==
            JsonValues(p.jsonOps) + FromValues(p.from) + FtsValues(p.fts) + FiltersValues(p.filters) +
            RawValues(p.rawFilters) + FiltersValues(p.having) + BranchesValues(p.unions) + BranchesValues(p.ctes)
    ensures WhereStart(p) == |JsonValues(p.jsonOps)| + |FromValues(p.from)| + |FtsValues(p.fts)|
    ensures FtsStart(p) == |JsonValues(p.jsonOps)| + |FromValues(p.from)|
    ensures RawStart(p) == WhereStart(p) + |FiltersValues(p.filters)|
    ensures HavingStart(p) == WhereStart(p) + |FiltersValues(p.filters)| + |RawValues(p.rawFilters)|
    ensures UnionStart(p) == HavingStart(p) + |FiltersValues(p.having)|
    ensures WithStart(p) == UnionStart(p) + |BranchesValues(p.unions)|
  {
  }

  /** Where each clause of a SELECT finds its values in the whole parameter list. */
  lemma SelectLayout(p: Plan, vals: seq<Value>, at: nat)
    requires p.Select? && !p.deny && Holds(vals, at, PlanValues(p))
    ensures Holds(vals, at, JsonValues(p.jsonOps))
    ensures Holds(vals, at + |JsonValues(p.jsonOps)|, FromValues(p.from))
    ensures Holds(vals, at + FtsStart(p), FtsValues(p.fts))
    ensures Holds(vals, at + WhereStart(p), FiltersValues(p.filters))
    ensures Holds(vals, at + RawStart(p), RawValues(p.rawFilters))
    ensures Holds(vals, at + HavingStart(p), FiltersValues(p.having))
    ensures Holds(vals, at + UnionStart(p), BranchesValues(p.unions))
    ensures Holds(vals, at + WithStart(p), BranchesValues(p.ctes))
  {
    hide *;
    SelectValues(p);
    var j, f, q := JsonValues(p.jsonOps), FromValues(p.from), FtsValues(p.fts);
    var w, r, h := FiltersValues(p.filters), RawValues(p.rawFilters), FiltersValues(p.having);
    HoldsEight(vals, at, j, f, q, w, r, h, BranchesValues(p.unions), BranchesValues(p.ctes));
    assert at + FtsStart(p) == at + |j| + |f|;
    assert at + WhereStart(p) == at + |j| + |f| + |q|;
    assert at + RawStart(p) == at + |j| + |f| + |q| + |w|;
    assert at + HavingStart(p) == at + |j| + |f| + |q| + |w| + |r|;
    assert at + UnionStart(p) == at + |j| + |f| + |q| + |w| + |r| + |h|;
    assert at + WithStart(p) == at + |j| + |f| + |q| + |w| + |r| + |h| + |BranchesValues(p.unions)|;
  }

  lemma HoldsEight(vals: seq<Value>, at: nat, j: seq<Value>, f: seq<Value>, q: seq<Value>, w: seq<Value>,
                   r: seq<Value>, h: seq<Value>, u: seq<Value>, c: seq<Value>)
    requires Holds(vals, at, j + f + q + w + r + h + u + c)
    ensures Holds(vals, at, j) && Holds(vals, at + |j|, f) && Holds(vals, at + |j| + |f|, q)
    ensures Holds(vals, at + |j| + |f| + |q|, w) && Holds(vals, at + |j| + |f| + |q| + |w|, r)
    ensures Holds(vals, at + |j| + |f| + |q| + |w| + |r|, h)
    ensures Holds(vals, at + |j| + |f| + |q| + |w| + |r| + |h|, u)
    ensures Holds(vals, at + |j| + |f| + |q| + |w| + |r| + |h| + |u|, c)
  {
    hide *;
    HoldsSplit(vals, at, j + f + q + w + r + h + u, c);
    HoldsSplit(vals, at, j + f + q + w + r + h, u);
    HoldsSplit(vals, at, j + f + q + w + r, h);
    HoldsFour(vals, at, j, f, q, w, r);
  }

  lemma HoldsFour(vals: seq<Value>, at: nat, j: seq<Value>, f: seq<Value>, q: seq<Value>, w: seq<Value>, r: seq<Value>)
    requires Holds(vals, at, j + f + q + w + r)
    ensures Holds(vals, at, j) && Holds(vals, at + |j|, f) && Holds(vals, at + |j| + |f|, q)
    ensures Holds(vals, at + |j| + |f| + |q|, w) && Holds(vals, at + |j| + |f| + |q| + |w|, r)
  {
    hide *;
    HoldsSplit(vals, at, j + f + q + w, r);
    HoldsSplit(vals, at, j + f + q, w);
    HoldsSplit(vals, at, j + f, q);
    HoldsSplit(vals, at, j, f);
  }

  /** The numbers and the values of a SELECT in text order, clause by clause. */
  lemma SelectConcat(p: Plan, shift: nat, vals: seq<Value>)
    requires p.Select? && !p.deny
    requires |BranchesNumbers(p.ctes, WithStart(p))| == |BranchesText(p.ctes)|
    requires |FromNumbers(p)| == |FromText(p)|
    requires |FiltersNumbers(p.filters, WhereStart(p))| == |FiltersText(p.filters)|
    requires |RawsNumbers(p.rawFilters)| == |RawsText(p.rawFilters)|
    requires |FiltersNumbers(p.having, HavingStart(p))| == |FiltersText(p.having)|
    ensures Points(PlanNumbers(p), PlanText(p), shift, vals) <==>
            && Points(BranchesNumbers(p.ctes, WithStart(p)), BranchesText(p.ctes), shift, vals)
            && Points(Range(0, |JsonValues(p.jsonOps)|), JsonValues(p.jsonOps), shift, vals)
            && Points(FromNumbers(p), FromText(p), shift, vals)
            && Points(FiltersNumbers(p.filters, WhereStart(p)), FiltersText(p.filters), shift, vals)
            && Points(RawsNumbers(p.rawFilters), RawsText(p.rawFilters), shift, vals)
            && Points(Range(FtsStart(p), |FtsValues(p.fts)|), FtsValues(p.fts), shift, vals)
            && Points(FiltersNumbers(p.having, HavingStart(p)), FiltersText(p.having), shift, vals)
            && Points(BranchesNumbers(p.unions, UnionStart(p)), BranchesText(p.unions), shift, vals)
  {
    hide Points;
    var c, c' := BranchesNumbers(p.ctes, WithStart(p)), BranchesText(p.ctes);
    var j, j' := Range(0, |JsonValues(p.jsonOps)|), JsonValues(p.jsonOps);
    var f, f' := FromNumbers(p), FromText(p);
    var w, w' := FiltersNumbers(p.filters, WhereStart(p)), FiltersText(p.filters);
    var r, r' := RawsNumbers(p.rawFilters), RawsText(p.rawFilters);
    var q, q' := Range(FtsStart(p), |FtsValues(p.fts)|), FtsValues(p.fts);
    var h, h' := FiltersNumbers(p.having, HavingStart(p)), FiltersText(p.having);
    PointsConcat(w, w', r, r', shift, vals);
    PointsConcat(w + r, w' + r', q, q', shift, vals);
    PointsConcat(w + r + q, w' + r' + q', h, h', shift, vals);
    PointsConcat(j, j', f, f', shift, vals);
    PointsConcat(c, c', j + f, j' + f', shift, vals);
    PointsConcat(c + (j + f), c' + (j' + f'), w + r + q + h, w' + r' + q' + h', shift, vals);
    PointsConcat(c + (j + f) + (w + r + q + h), c' + (j' + f') + (w' + r' + q' + h'),
                 BranchesNumbers(p.unions, UnionStart(p)), BranchesText(p.unions), shift, vals);
  }

  /** As many numbers as values, in every fragment. */
  lemma {:induction false} NumbersMatchFilter(f: Filter, k: nat)
    ensures |FilterNumbers(f, k)| == |FilterText(f)|
  {
    match f
    case Compare(_, _, _) =>
    case And(fs) => NumbersMatchFilters(fs, k);
    case Or(fs) => NumbersMatchFilters(fs, k);
    case Subquery(_, _, p) => NumbersMatchText(p);
  }

  lemma {:induction false} NumbersMatchFilters(fs: seq<Filter>, k: nat)
    ensures |FiltersNumbers(fs, k)| == |FiltersText(fs)|
  {
    if fs != [] {
      NumbersMatchFilter(fs[0], k);
      NumbersMatchFilters(fs[1..], k + |FilterValues(fs[0])|);
    }
  }

  lemma {:induction false} NumbersMatchRaws(raws: seq<RawFilter>)
    ensures |RawsNumbers(raws)| == |RawsText(raws)|
  {
    if raws != [] {
      NumbersMatchRaws(raws[1..]);
    }
  }

  lemma {:induction false} NumbersMatchBranch(b: Branch, k: nat)
    ensures |BranchNumbers(b, k)| == |BranchText(b)|
  {
    NumbersMatchText(b.query);
  }

  lemma {:induction false} NumbersMatchBranches(bs: seq<Branch>, k: nat)
    ensures |BranchesNumbers(bs, k)| == |BranchesText(bs)|
  {
    if bs != [] {
      NumbersMatchBranch(bs[0], k);
      NumbersMatchBranches(bs[1..], k + |BranchValues(bs[0])|);
    }
  }

  lemma {:induction false} NumbersMatchText(p: Plan)
    ensures |PlanNumbers(p)| == |PlanText(p)|
    ensures p.Select? && !p.deny ==>
              && |BranchesNumbers(p.ctes, WithStart(p))| == |BranchesText(p.ctes)|
              && |FromNumbers(p)| == |FromText(p)|
              && |FiltersNumbers(p.filters, WhereStart(p))| == |FiltersText(p.filters)|
              && |RawsNumbers(p.rawFilters)| == |RawsText(p.rawFilters)|
              && |FiltersNumbers(p.having, HavingStart(p))| == |FiltersText(p.having)|
              && |BranchesNumbers(p.unions, UnionStart(p))| == |BranchesText(p.unions)|
  {
    if !p.Insert? {
      NumbersMatchRaws(p.rawFilters);
    }
    if p.Select? {
      NumbersMatchFilters(p.filters, WhereStart(p));
      NumbersMatchFilters(p.having, HavingStart(p));
      NumbersMatchBranches(p.unions, UnionStart(p));
      NumbersMatchBranches(p.ctes, WithStart(p));
      if p.from.FromPlan? {
        NumbersMatchText(p.from.query);
      }
    } else if p.Update? {
      NumbersMatchFilters(p.filters, |p.assignments|);
    } else if p.Delete? {
      NumbersMatchFilters(p.filters, 0);
    }
  }

  lemma {:induction false} PlanPoints(p: Plan)
    requires Numberable(p)
    ensures Points(PlanNumbers(p), PlanText(p), 0, PlanValues(p))
    decreases p, 1
  {
    if p.Select? {
      if !p.deny {
        SelectPoints(p);
      } else {
        assert Range(0, 0) == [];
      }
    } else if p.Insert? {
      InsertPoints(p);
    } else {
      WritePoints(p);
    }
  }

  lemma {:induction false} SelectPoints(p: Plan)
    requires p.Select? && !p.deny && Numberable(p)
    ensures Points(PlanNumbers(p), PlanText(p), 0, PlanValues(p))
    decreases p, 0
  {
    hide *;
    var vals := PlanValues(p);
    HoldsAll(vals);
    SelectLayout(p, vals, 0);
    NumberableParts(p);
    NumbersMatchText(p);
    SelectConcat(p, 0, vals);
    PointsRange(vals, 0, 0, JsonValues(p.jsonOps));
    PointsRange(vals, FtsStart(p), 0, FtsValues(p.fts));
    FromPoints(p, vals);
    FiltersPoints(p.filters, WhereStart(p), vals);
    RawsPoints(p.rawFilters, RawStart(p), vals);
    FiltersPoints(p.having, HavingStart(p), vals);
    BranchesPoints(p.unions, UnionStart(p), vals);
    BranchesPoints(p.ctes, WithStart(p), vals);
  }

  lemma NumberableParts(p: Plan)
    requires p.Select? && !p.deny && Numberable(p)
    ensures NumberableFilters(p.filters, WhereStart(p)) && NumberableFilters(p.having, HavingStart(p))
    ensures NumberableRaws(p.rawFilters, RawStart(p))
    ensures NumberableBranches(p.unions, UnionStart(p)) && NumberableBranches(p.ctes, WithStart(p))
  {
  }

  lemma HoldsAll(vals: seq<Value>)
    ensures Holds(vals, 0, vals)
  {
  }

  lemma {:induction false} FromPoints(p: Plan, vals: seq<Value>)
    requires p.Select? && !p.deny && Numberable(p)
    requires Holds(vals, |JsonValues(p.jsonOps)|, FromValues(p.from))
    ensures Points(FromNumbers(p), FromText(p), 0, vals)
    decreases p, -1
  {
    if p.from.FromPlan? && !IsFts5(p.fts) {
      EmbeddedPoints(p.from.query, |JsonValues(p.jsonOps)|, vals);
    }
  }

  lemma InsertPoints(p: Plan)
    requires p.Insert?
    ensures Points(PlanNumbers(p), PlanText(p), 0, PlanValues(p))
  {
    hide Points, Holds, RowsValues;
    var rows, sets := RowsValues(p.rows, InsertKeys(p.rows)), Values(ConflictRecord(p.onConflict));
    HoldsAll(rows + sets);
    HoldsSplit(rows + sets, 0, rows, sets);
    PointsRange(rows + sets, 0, 0, rows);
    PointsRange(rows + sets, |rows|, 0, sets);
    PointsConcat(Range(0, |rows|), rows, Range(|rows|, |sets|), sets, 0, rows + sets);
  }

  lemma {:induction false} WritePoints(p: Plan)
    requires (p.Update? || p.Delete?) && Numberable(p)
    ensures Points(PlanNumbers(p), PlanText(p), 0, PlanValues(p))
    decreases p, 0
  {
    hide Points;
    hide Holds;
    var vals := PlanValues(p);
    HoldsAll(vals);
    NumbersMatchRaws(p.rawFilters);
    var r, r' := RawsNumbers(p.rawFilters), RawsText(p.rawFilters);
    if p.Update? {
      var sets, n := Values(p.assignments), |p.assignments|;
      var w, w' := FiltersNumbers(p.filters, n), FiltersText(p.filters);
      assert vals == sets + FiltersValues(p.filters) + RawValues(p.rawFilters);
      HoldsSplit(vals, 0, sets + FiltersValues(p.filters), RawValues(p.rawFilters));
      HoldsSplit(vals, 0, sets, FiltersValues(p.filters));
      PointsRange(vals, 0, 0, sets);
      FiltersPoints(p.filters, n, vals);
      RawsPoints(p.rawFilters, RawStart(p), vals);
      NumbersMatchFilters(p.filters, n);
      PointsConcat(w, w', r, r', 0, vals);
      PointsConcat(Range(0, n), sets, w + r, w' + r', 0, vals);
      assert PlanNumbers(p) == Range(0, n) + (w + r) && PlanText(p) == sets + (w' + r');
    } else {
      assert vals == FiltersValues(p.filters) + RawValues(p.rawFilters);
      HoldsSplit(vals, 0, FiltersValues(p.filters), RawValues(p.rawFilters));
      FiltersPoints(p.filters, 0, vals);
      RawsPoints(p.rawFilters, RawStart(p), vals);
      NumbersMatchFilters(p.filters, 0);
      PointsConcat(FiltersNumbers(p.filters, 0), FiltersText(p.filters), r, r', 0, vals);
    }
  }
}
