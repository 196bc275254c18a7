/** Positional dialects: exactly which plans bind correctly. */
module Positional {
  import opened Plans
  import opened Emission
  import opened TextOrder
  import opened Binding

  /** The compiler pushes this filter's values in the order it prints them. */
  predicate OrderedFilter(f: Filter) {
    match f
    case Compare(_, _, _) => true
    case And(fs) => OrderedFilters(fs)
    case Or(fs) => OrderedFilters(fs)
    case Subquery(_, _, p) => Ordered(p)
  }

  predicate OrderedFilters(fs: seq<Filter>) {
    fs == [] || (OrderedFilter(fs[0]) && OrderedFilters(fs[1..]))
  }

  predicate OrderedBranch(b: Branch) {
    Ordered(b.query)
  }

  predicate OrderedBranches(bs: seq<Branch>) {
    bs == [] || (OrderedBranch(bs[0]) && OrderedBranches(bs[1..]))
  }

  /** The placeholders of a raw filter are its parameters, one by one. */
  predicate OrderedRaws(raws: seq<RawFilter>) {
    raws == [] || (RawHoles(raws[0].expr) == Range(0, |raws[0].params|) && OrderedRaws(raws[1..]))
  }

  /** A FROM subquery either is printed and ordered itself, or is displaced by an FTS5 source
      and then must have pushed nothing. */
  predicate OrderedFrom(p: Plan)
    requires p.Select?
    decreases p, 0
  {
    p.from.FromPlan? ==> if IsFts5(p.fts) then PlanValues(p.from.query) == [] else Ordered(p.from.query)
  }

  /** No clause of the plan is pushed at one place and printed at another:
      a denied SELECT sets no JSON value; full-text search is not combined with values of filters
      and raw filters; raw filters have as many placeholders as parameters; and only one of the WITH
      clause and the main statement carries values. */
  predicate Ordered(p: Plan)
    decreases p, 1
  {
    if p.Select? then
      if p.deny then JsonValues(p.jsonOps) == []
      else
        && OrderedFrom(p)
        && (p.fts.Some? ==> FiltersValues(p.filters) == [] && RawValues(p.rawFilters) == [])
        && OrderedFilters(p.filters) && OrderedRaws(p.rawFilters)
        && OrderedFilters(p.having) && OrderedBranches(p.unions) && OrderedBranches(p.ctes)
        && (MainValues(p) == [] || BranchesValues(p.ctes) == [])
    else if p.Insert? then true
    else OrderedFilters(p.filters) && OrderedRaws(p.rawFilters)
  }

  // ---- sufficient ----

  lemma {:induction false} FilterInOrder(f: Filter)
    requires OrderedFilter(f)
    ensures FilterText(f) == FilterValues(f)
  {
    match f
    case Compare(_, _, _) =>
    case And(fs) => FiltersInOrder(fs);
    case Or(fs) => FiltersInOrder(fs);
    case Subquery(_, _, p) => InOrder(p);
  }

  lemma {:induction false} FiltersInOrder(fs: seq<Filter>)
    requires OrderedFilters(fs)
    ensures FiltersText(fs) == FiltersValues(fs)
  {
    if fs != [] {
      FilterInOrder(fs[0]);
      FiltersInOrder(fs[1..]);
    }
  }

  lemma {:induction false} BranchInOrder(b: Branch)
    requires OrderedBranch(b)
    ensures BranchText(b) == BranchValues(b)
  {
    InOrder(b.query);
  }

  lemma {:induction false} BranchesInOrder(bs: seq<Branch>)
    requires OrderedBranches(bs)
    ensures BranchesText(bs) == BranchesValues(bs)
  {
    if bs != [] {
      BranchInOrder(bs[0]);
      BranchesInOrder(bs[1..]);
    }
  }

  lemma {:induction false} RawsInOrder(raws: seq<RawFilter>)
    requires OrderedRaws(raws)
    ensures RawsText(raws) == RawValues(raws)
  {
    if raws != [] {
      RawsInOrder(raws[1..]);
      var ps := raws[0].params;
      assert Shown(Range(0, |ps|), ps) == ps;
    }
  }

  lemma {:induction false} InOrder(p: Plan)
    requires Ordered(p)
    ensures PlanText(p) == PlanValues(p)
  {
    if p.Select? {
      if !p.deny {
        FiltersInOrder(p.filters);
        FiltersInOrder(p.having);
        RawsInOrder(p.rawFilters);
        BranchesInOrder(p.unions);
        BranchesInOrder(p.ctes);
        if p.from.FromPlan? && !IsFts5(p.fts) {
          InOrder(p.from.query);
        }
        assert FromText(p) == FromValues(p.from);
        SelectInOrder(JsonValues(p.jsonOps), FromText(p), FiltersText(p.filters), RawsText(p.rawFilters),
                      FtsValues(p.fts), FiltersText(p.having), BranchesText(p.unions), BranchesText(p.ctes));
      }
    } else if !p.Insert? {
      FiltersInOrder(p.filters);
      RawsInOrder(p.rawFilters);
    }
  }

  lemma SelectInOrder(j: seq<Value>, f: seq<Value>, w: seq<Value>, r: seq<Value>, q: seq<Value>,
                      h: seq<Value>, u: seq<Value>, c: seq<Value>)
    requires (w == [] && r == []) || q == []
    requires c == [] || j + f + q + w + r + h + u == []
    ensures c + (j + f) + (w + r + q + h) + u == j + f + q + w + r + h + u + c
  {
    assert w + r + q == q + w + r;
    if c == [] {
      assert c + (j + f) + (w + r + q + h) + u == j + f + (w + r + q) + h + u;
      assert j + f + q + w + r + h + u + c == j + f + (q + w + r) + h + u;
    } else {
      assert |j + f + q + w + r + h + u| == |j| + |f| + |q| + |w| + |r| + |h| + |u|;
    }
  }

  // ---- necessary ----

  lemma {:induction false} FilterOutOfOrder(f: Filter)
    requires Distinct(FilterAll(f)) && FilterText(f) == FilterValues(f)
    ensures OrderedFilter(f)
  {
    match f
    case Compare(_, _, _) =>
    case And(fs) => FiltersOutOfOrder(fs);
    case Or(fs) => FiltersOutOfOrder(fs);
    case Subquery(_, _, p) => OutOfOrder(p);
  }

  lemma {:induction false} FiltersOutOfOrder(fs: seq<Filter>)
    requires Distinct(FiltersAll(fs)) && FiltersText(fs) == FiltersValues(fs)
    ensures OrderedFilters(fs)
  {
    if fs != [] {
      DistinctSplit(FilterAll(fs[0]), FiltersAll(fs[1..]));
      FiltersWithin(fs);
      assert forall v | v in FilterText(fs[0]) || v in FiltersText(fs[1..]) :: v in FiltersText(fs);
      FilterWithin(fs[0]);
      FiltersWithin(fs[1..]);
      SplitEqual(FilterText(fs[0]), FiltersText(fs[1..]), FilterValues(fs[0]), FiltersValues(fs[1..]),
                 FilterAll(fs[0]), FiltersAll(fs[1..]));
      FilterOutOfOrder(fs[0]);
      FiltersOutOfOrder(fs[1..]);
    }
  }

  lemma {:induction false} BranchOutOfOrder(b: Branch)
    requires Distinct(BranchAll(b)) && BranchText(b) == BranchValues(b)
    ensures OrderedBranch(b)
  {
    OutOfOrder(b.query);
  }

  lemma {:induction false} BranchesOutOfOrder(bs: seq<Branch>)
    requires Distinct(BranchesAll(bs)) && BranchesText(bs) == BranchesValues(bs)
    ensures OrderedBranches(bs)
  {
    if bs != [] {
      DistinctSplit(BranchAll(bs[0]), BranchesAll(bs[1..]));
      BranchesWithin(bs);
      assert forall v | v in BranchText(bs[0]) || v in BranchesText(bs[1..]) :: v in BranchesText(bs);
      BranchWithin(bs[0]);
      BranchesWithin(bs[1..]);
      SplitEqual(BranchText(bs[0]), BranchesText(bs[1..]), BranchValues(bs[0]), BranchesValues(bs[1..]),
                 BranchAll(bs[0]), BranchesAll(bs[1..]));
      BranchOutOfOrder(bs[0]);
      BranchesOutOfOrder(bs[1..]);
    }
  }

  lemma {:induction false} RawsOutOfOrder(raws: seq<RawFilter>)
    requires Distinct(RawValues(raws)) && RawsText(raws) == RawValues(raws)
    ensures OrderedRaws(raws)
  {
    if raws != [] {
      var ns, ps, shown := RawHoles(raws[0].expr), raws[0].params, Shown(RawHoles(raws[0].expr), raws[0].params);
      assert forall v | v in shown || v in RawsText(raws[1..]) :: v in RawsText(raws);
      DistinctSplit(ps, RawValues(raws[1..]));
      ShownWithin(ns, ps);
      RawsWithin(raws[1..]);
      SplitEqual(shown, RawsText(raws[1..]), ps, RawValues(raws[1..]), ps, RawValues(raws[1..]));
      RawsOutOfOrder(raws[1..]);
      forall i | 0 <= i < |ns| ensures ns[i] == Range(0, |ps|)[i] {
        assert shown[i] == ps[ns[i] - 1] == ps[i];
      }
      assert ns == Range(0, |ps|);
    }
  }

  /** The blocks of a SELECT, each drawing on its own stock of values. */
  lemma SelectOutOfOrder(j: seq<Value>, f: seq<Value>, f': seq<Value>, q: seq<Value>, w: seq<Value>, w': seq<Value>,
                         h: seq<Value>, h': seq<Value>, u: seq<Value>, u': seq<Value>, c: seq<Value>, c': seq<Value>,
                         F: seq<Value>, W: seq<Value>, H: seq<Value>, U: seq<Value>, C: seq<Value>)
    requires Distinct(j + F + q + W + H + U + C)
    requires Within(f, F) && Within(f', F) && Within(w, W) && Within(w', W) && Within(h, H) && Within(h', H)
    requires Within(u, U) && Within(u', U) && Within(c, C) && Within(c', C)
    requires c' + (j + f') + (w' + q + h') + u' == j + f + q + w + h + u + c
    ensures f == f' && w == w' && h == h' && u == u' && c == c'
    ensures w == [] || q == []
    ensures c == [] || j + f + q + w + h + u == []
  {
    var M := j + F + q + W + H + U;
    var m, m' := j + f + q + w + h + u, (j + f') + (w' + q + h') + u';
    DistinctSplit(M, C);
    assert m + c == c' + m' by {
      assert c' + m' == c' + (j + f') + (w' + q + h') + u';
    }
    SwapEqual(m, c, m', c', M, C);
    DistinctSplit(j + F + q + W + H, U);
    SplitEqual(j + f + q + w + h, u, (j + f') + (w' + q + h'), u', j + F + q + W + H, U);
    DistinctSplit(j + F + q + W, H);
    assert (j + f') + (w' + q + h') == (j + f' + (w' + q)) + h';
    SplitEqual(j + f + q + w, h, j + f' + (w' + q), h', j + F + q + W, H);
    assert j + F + q + W == (j + F) + (q + W);
    DistinctSplit(j + F, q + W);
    assert j + f + q + w == (j + f) + (q + w);
    SplitEqual(j + f, q + w, j + f', w' + q, j + F, q + W);
    DistinctSplit(j, F);
    SplitEqual(j, f, j, f', j, F);
    DistinctSplit(q, W);
    SwapEqual(q, w, q, w', q, W);
  }

  lemma {:induction false} OutOfOrder(p: Plan)
    requires Distinct(PlanAll(p)) && PlanText(p) == PlanValues(p)
    ensures Ordered(p)
  {
    if p.Select? {
      if !p.deny {
        SelectPartsOutOfOrder(p);
        FiltersOutOfOrder(p.filters);
        RawsOutOfOrder(p.rawFilters);
        FiltersOutOfOrder(p.having);
        BranchesOutOfOrder(p.unions);
        BranchesOutOfOrder(p.ctes);
        if p.from.FromPlan? && !IsFts5(p.fts) {
          OutOfOrder(p.from.query);
        }
      }
    } else if !p.Insert? {
      WriteOutOfOrder(p);
      FiltersOutOfOrder(p.filters);
      RawsOutOfOrder(p.rawFilters);
    }
  }

  lemma WriteOutOfOrder(p: Plan)
    requires (p.Update? || p.Delete?) && Distinct(PlanAll(p)) && PlanText(p) == PlanValues(p)
    ensures Distinct(FiltersAll(p.filters)) && FiltersText(p.filters) == FiltersValues(p.filters)
    ensures Distinct(RawValues(p.rawFilters)) && RawsText(p.rawFilters) == RawValues(p.rawFilters)
  {
    var w, w', W := FiltersText(p.filters), FiltersValues(p.filters), FiltersAll(p.filters);
    var r, r', R := RawsText(p.rawFilters), RawValues(p.rawFilters), RawValues(p.rawFilters);
    PlanWithin(p);
    assert forall v | v in r || v in w :: v in PlanText(p);
    FiltersWithin(p.filters);
    RawsWithin(p.rawFilters);
    if p.Update? {
      var v := Values(p.assignments);
      DistinctSplit(v + W, R);
      DistinctSplit(v, W);
      SplitEqual(v + w, r, v + w', r', v + W, R);
      SplitEqual(v, w, v, w', v, W);
    } else {
      DistinctSplit(W, R);
      SplitEqual(w, r, w', r', W, R);
    }
  }

  lemma SelectPartsOutOfOrder(p: Plan)
    requires p.Select? && !p.deny && Distinct(PlanAll(p)) && PlanText(p) == PlanValues(p)
    ensures FromText(p) == FromValues(p.from) && RawsText(p.rawFilters) == RawValues(p.rawFilters)
    ensures FiltersText(p.filters) == FiltersValues(p.filters) && FiltersText(p.having) == FiltersValues(p.having)
    ensures BranchesText(p.unions) == BranchesValues(p.unions) && BranchesText(p.ctes) == BranchesValues(p.ctes)
    ensures (FiltersValues(p.filters) == [] && RawValues(p.rawFilters) == []) || FtsValues(p.fts) == []
    ensures BranchesValues(p.ctes) == [] || MainValues(p) == []
    ensures Distinct(FromAll(p.from)) && Distinct(FiltersAll(p.filters)) && Distinct(FiltersAll(p.having))
    ensures Distinct(RawValues(p.rawFilters)) && Distinct(BranchesAll(p.unions)) && Distinct(BranchesAll(p.ctes))
  {
    hide *;
    SelectStocks(p);
    SelectBlocks(p);
    var w, w', W := FiltersValues(p.filters), FiltersText(p.filters), FiltersAll(p.filters);
    var r, r', R := RawValues(p.rawFilters), RawsText(p.rawFilters), RawValues(p.rawFilters);
    ClausesWithin(p);
    SelectOutOfOrder(JsonValues(p.jsonOps), FromValues(p.from), FromText(p), FtsValues(p.fts), w + r, w' + r',
                     FiltersValues(p.having), FiltersText(p.having), BranchesValues(p.unions), BranchesText(p.unions),
                     BranchesValues(p.ctes), BranchesText(p.ctes),
                     FromAll(p.from), W + R, FiltersAll(p.having), BranchesAll(p.unions), BranchesAll(p.ctes));
    SplitEqual(w, r, w', r', W, R);
    MainBlocks(p);
    assert w + r == [] ==> w == [] && r == [];
  }

  lemma ClausesWithin(p: Plan)
    requires p.Select? && !p.deny && Distinct(PlanAll(p)) && PlanText(p) == PlanValues(p)
    ensures Within(FromValues(p.from), FromAll(p.from)) && Within(FromText(p), FromAll(p.from))
    ensures Within(FiltersValues(p.filters), FiltersAll(p.filters)) &&
            Within(FiltersText(p.filters), FiltersAll(p.filters))
    ensures Within(RawValues(p.rawFilters), RawValues(p.rawFilters)) &&
            Within(RawsText(p.rawFilters), RawValues(p.rawFilters))
    ensures Within(FiltersValues(p.filters) + RawValues(p.rawFilters), FiltersAll(p.filters) + RawValues(p.rawFilters))
    ensures Within(FiltersText(p.filters) + RawsText(p.rawFilters), FiltersAll(p.filters) + RawValues(p.rawFilters))
    ensures Within(FiltersValues(p.having), FiltersAll(p.having)) && Within(FiltersText(p.having), FiltersAll(p.having))
    ensures Within(BranchesValues(p.unions), BranchesAll(p.unions)) &&
            Within(BranchesText(p.unions), BranchesAll(p.unions))
    ensures Within(BranchesValues(p.ctes), BranchesAll(p.ctes)) && Within(BranchesText(p.ctes), BranchesAll(p.ctes))
  {
    PlanWithin(p);
    PartsDefined(p);
    FiltersWithin(p.filters);
    FiltersWithin(p.having);
    RawsWithin(p.rawFilters);
    BranchesWithin(p.unions);
    BranchesWithin(p.ctes);
    if p.from.FromPlan? {
      PlanWithin(p.from.query);
    }
  }

  lemma MainBlocks(p: Plan)
    requires p.Select? && !p.deny
    ensures MainValues(p) == JsonValues(p.jsonOps) + FromValues(p.from) + FtsValues(p.fts) +
                             (FiltersValues(p.filters) + RawValues(p.rawFilters)) +
                             FiltersValues(p.having) + BranchesValues(p.unions)
  {
  }

  /** Pushed and printed values, clause by clause. */
  lemma SelectBlocks(p: Plan)
    requires p.Select? && !p.deny && Distinct(PlanAll(p)) && PlanText(p) == PlanValues(p)
    ensures BranchesText(p.ctes) + (JsonValues(p.jsonOps) + FromText(p)) +
            ((FiltersText(p.filters) + RawsText(p.rawFilters)) + FtsValues(p.fts) + FiltersText(p.having)) +
            BranchesText(p.unions) ==
            JsonValues(p.jsonOps) + FromValues(p.from) + FtsValues(p.fts) +
            (FiltersValues(p.filters) + RawValues(p.rawFilters)) +
            FiltersValues(p.having) + BranchesValues(p.unions) + BranchesValues(p.ctes)
    ensures Distinct(JsonValues(p.jsonOps) + FromAll(p.from) + FtsValues(p.fts) +
                     (FiltersAll(p.filters) + RawValues(p.rawFilters)) +
                     FiltersAll(p.having) + BranchesAll(p.unions) + BranchesAll(p.ctes))
  {
    hide FiltersText, RawsText, BranchesText, FiltersValues, BranchesValues, RawValues, FiltersAll,
        BranchesAll;
    hide Distinct;
    MainBlocks(p);
    var j, F, q := JsonValues(p.jsonOps), FromAll(p.from), FtsValues(p.fts);
    Regroup(j + F + q, FiltersAll(p.filters), RawValues(p.rawFilters));
  }

  lemma Regroup(a: seq<Value>, b: seq<Value>, c: seq<Value>)
    ensures a + b + c == a + (b + c)
  {
  }

  lemma SelectStocks(p: Plan)
    requires p.Select? && !p.deny && Distinct(PlanAll(p))
    ensures Distinct(FromAll(p.from)) && Distinct(FiltersAll(p.filters)) && Distinct(FiltersAll(p.having))
    ensures Distinct(RawValues(p.rawFilters)) && Distinct(BranchesAll(p.unions)) && Distinct(BranchesAll(p.ctes))
    ensures Disjoint(FiltersAll(p.filters), RawValues(p.rawFilters))
  {
    var j, q, r := JsonValues(p.jsonOps), FtsValues(p.fts), RawValues(p.rawFilters);
    var F, W, H := FromAll(p.from), FiltersAll(p.filters), FiltersAll(p.having);
    DistinctSplit(j + F + q + W + r + H + BranchesAll(p.unions), BranchesAll(p.ctes));
    DistinctSplit(j + F + q + W + r + H, BranchesAll(p.unions));
    DistinctSplit(j + F + q + W + r, H);
    DistinctSplit(j + F + q + W, r);
    DistinctSplit(j + F + q, W);
    DistinctSplit(j + F, q);
    DistinctSplit(j, F);
  }

  // ---- main results ----

  /** Every ordered plan, nested to any depth and whatever its values, binds correctly. */
  lemma OrderedPlansBind(p: Plan, inherited: seq<string>, d: Dialect)
    requires !d.Postgres? && Ordered(p)
    ensures BindsPositionally(p, inherited, d)
  {
    InOrder(p);
    PositionalIsTextOrder(p, inherited, d);
  }

  /** Among plans whose values are told apart, no other plan does. */
  lemma BindsExactlyWhenOrdered(p: Plan, inherited: seq<string>, d: Dialect)
    requires !d.Postgres? && Distinct(PlanAll(p))
    ensures BindsPositionally(p, inherited, d) <==> Ordered(p)
  {
    PositionalIsTextOrder(p, inherited, d);
    if Ordered(p) {
      InOrder(p);
    } else if PlanText(p) == PlanValues(p) {
      OutOfOrder(p);
    }
  }
}
