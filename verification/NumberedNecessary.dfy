/** The numbered dialect: plans outside the condition of module Numbered do not bind. The values
    of a nested plan sit at some place of the whole list; its numbers reach that place only if
    the UNION shifts around it add up to exactly that place. */
module NumberedNecessary {
  import opened Plans
  import opened Emission
  import opened Placeholders
  import opened TextOrder
  import opened Tame
  import opened Binding
  import opened Numbered
  import Positional

  /** Only the `count` places from `at` on may show a value of the stock. */
  predicate Owned(vals: seq<Value>, at: nat, count: nat, stock: seq<Value>) {
    forall i | 0 <= i < |vals| && vals[i] in stock :: at <= i < at + count
  }

  lemma OwnedSplit(vals: seq<Value>, at: nat, x: seq<Value>, y: seq<Value>, X: seq<Value>, Y: seq<Value>)
    requires Holds(vals, at, x + y) && Owned(vals, at, |x + y|, X + Y)
    requires Within(x, X) && Within(y, Y) && Distinct(X + Y)
    ensures Holds(vals, at, x) && Holds(vals, at + |x|, y)
    ensures Owned(vals, at, |x|, X) && Owned(vals, at + |x|, |y|, Y)
    ensures Distinct(X) && Distinct(Y)
  {
    HoldsSplit(vals, at, x, y);
    DistinctSplit(X, Y);
    forall i | at <= i < at + |x| ensures vals[i] in X {
      assert vals[at..at + |x|][i - at] == x[i - at] && x[i - at] in x;
    }
    forall i | at + |x| <= i < at + |x| + |y| ensures vals[i] in Y {
      assert vals[at + |x|..at + |x| + |y|][i - at - |x|] == y[i - at - |x|] && y[i - at - |x|] in y;
    }
    forall i | 0 <= i < |vals| && vals[i] in X + Y ensures at <= i < at + |x + y| {
    }
  }

  /** What a fragment in place at `b + k` has to show to be judged on its own. */
  predicate Placed(vals: seq<Value>, at: nat, block: seq<Value>, stock: seq<Value>) {
    Holds(vals, at, block) && Owned(vals, at, |block|, stock) && Distinct(stock) && Undefined !in vals
  }

  lemma PlacedSplit(vals: seq<Value>, at: nat, x: seq<Value>, y: seq<Value>, X: seq<Value>, Y: seq<Value>)
    requires Placed(vals, at, x + y, X + Y) && Within(x, X) && Within(y, Y)
    ensures Placed(vals, at, x, X) && Placed(vals, at + |x|, y, Y)
  {
    OwnedSplit(vals, at, x, y, X, Y);
  }

  /** A number that points at a value of the stock cannot fall short of its place. */
  lemma RangeForced(vals: seq<Value>, k: nat, a: nat, b: nat, block: seq<Value>, stock: seq<Value>)
    requires a <= b && Placed(vals, b + k, block, stock) && Within(block, stock)
    requires Points(Range(k, |block|), block, a, vals)
    ensures block != [] ==> a == b
  {
    if block != [] {
      assert Range(k, |block|)[0] == k + 1;
      assert vals[k + 1 + a - 1] == block[0] && block[0] in block;
    }
  }

  lemma {:induction false} FilterForced(f: Filter, k: nat, a: nat, b: nat, vals: seq<Value>)
    requires a <= b && Placed(vals, b + k, FilterValues(f), FilterAll(f))
    requires Points(FilterNumbers(f, k), FilterText(f), a, vals)
    ensures NumberableFilter(f, k) && (FilterText(f) != [] ==> a == b)
  {
    match f
    case Compare(_, _, _) => RangeForced(vals, k, a, b, FilterValues(f), FilterAll(f));
    case And(fs) => FiltersForced(fs, k, a, b, vals);
    case Or(fs) => FiltersForced(fs, k, a, b, vals);
    case Subquery(_, _, p) => PlanForced(p, a, b + k, vals);
  }

  lemma {:induction false} FiltersForced(fs: seq<Filter>, k: nat, a: nat, b: nat, vals: seq<Value>)
    requires a <= b && Placed(vals, b + k, FiltersValues(fs), FiltersAll(fs))
    requires Points(FiltersNumbers(fs, k), FiltersText(fs), a, vals)
    ensures NumberableFilters(fs, k) && (FiltersText(fs) != [] ==> a == b)
  {
    if fs != [] {
      hide Points;
      hide Placed;
      var k' := k + |FilterValues(fs[0])|;
      FilterWithin(fs[0]);
      FiltersWithin(fs[1..]);
      PlacedSplit(vals, b + k, FilterValues(fs[0]), FiltersValues(fs[1..]), FilterAll(fs[0]), FiltersAll(fs[1..]));
      NumbersMatchFilter(fs[0], k);
      PointsConcat(FilterNumbers(fs[0], k), FilterText(fs[0]), FiltersNumbers(fs[1..], k'), FiltersText(fs[1..]), a,
                   vals);
      FilterForced(fs[0], k, a, b, vals);
      FiltersForced(fs[1..], k', a, b, vals);
    }
  }

  /** A placeholder of a raw filter points at a parameter of its own, so none may precede them. */
  lemma OwnForced(ns: seq<nat>, ps: seq<Value>, k: nat, a: nat, b: nat, vals: seq<Value>)
    requires a <= b && Placed(vals, b + k, ps, ps) && InRange(ns, ps) && Points(ns, Shown(ns, ps), a, vals)
    ensures ns != [] ==> k == 0 && a == b
  {
    if ns != [] {
      var at := ns[0] + a - 1;
      assert vals[at] == Shown(ns, ps)[0] == ps[ns[0] - 1];
      assert vals[at] in ps;
      assert vals[b + k..b + k + |ps|][at - b - k] == ps[at - b - k];
    }
  }

  lemma {:induction false} RawsForced(raws: seq<RawFilter>, k: nat, a: nat, b: nat, vals: seq<Value>)
    requires a <= b && Placed(vals, b + k, RawValues(raws), RawValues(raws))
    requires Points(RawsNumbers(raws), RawsText(raws), a, vals)
    ensures NumberableRaws(raws, k) && (RawsText(raws) != [] ==> a == b)
  {
    if raws != [] {
      hide Points;
      var ns, ps, rest := RawHoles(raws[0].expr), raws[0].params, RawValues(raws[1..]);
      assert Undefined !in vals;
      hide Placed;
      WithinItself(ps);
      WithinItself(rest);
      PlacedSplit(vals, b + k, ps, rest, ps, rest);
      PointsConcat(ns, Shown(ns, ps), RawsNumbers(raws[1..]), RawsText(raws[1..]), a, vals);
      PointedDefined(ns, Shown(ns, ps), a, vals);
      ShownWithin(ns, ps);
      OwnForced(ns, ps, k, a, b, vals);
      RawsForced(raws[1..], k + |ps|, a, b, vals);
    }
  }

  /** Nothing points at what a placeholder without a parameter shows. */
  lemma PointedDefined(ns: seq<nat>, ls: seq<Value>, a: nat, vals: seq<Value>)
    requires Points(ns, ls, a, vals) && Undefined !in vals
    ensures Undefined !in ls
  {
  }

  /** Raising the numbers comes to the same as shifting them. */
  lemma RaisedPoints(ns: seq<nat>, ls: seq<Value>, k: nat, a: nat, vals: seq<Value>)
    requires Points(Raise(ns, k), ls, a, vals)
    ensures Points(ns, ls, a + k, vals)
  {
    forall i | 0 <= i < |ns| ensures 1 <= ns[i] + (a + k) <= |vals| && vals[ns[i] + (a + k) - 1] == ls[i] {
      assert Raise(ns, k)[i] == ns[i] + k;
    }
  }

  lemma {:induction false} BranchForced(br: Branch, k: nat, a: nat, b: nat, vals: seq<Value>)
    requires a <= b && Placed(vals, b + k, BranchValues(br), BranchAll(br))
    requires Points(BranchNumbers(br, k), BranchText(br), a, vals)
    ensures NumberableBranch(br, k) && (BranchText(br) != [] ==> a == b)
  {
    hide Placed;
    if br.UnionBranch? {
      RaisedPoints(PlanNumbers(br.query), BranchText(br), k, a, vals);
      hide Points;
      PlanForced(br.query, a + k, b + k, vals);
    } else {
      PlanForced(br.query, a, b + k, vals);
    }
  }

  lemma {:induction false} BranchesForced(bs: seq<Branch>, k: nat, a: nat, b: nat, vals: seq<Value>)
    requires a <= b && Placed(vals, b + k, BranchesValues(bs), BranchesAll(bs))
    requires Points(BranchesNumbers(bs, k), BranchesText(bs), a, vals)
    ensures NumberableBranches(bs, k) && (BranchesText(bs) != [] ==> a == b)
  {
    if bs != [] {
      hide Points;
      hide Placed;
      var k' := k + |BranchValues(bs[0])|;
      BranchWithin(bs[0]);
      BranchesWithin(bs[1..]);
      PlacedSplit(vals, b + k, BranchValues(bs[0]), BranchesValues(bs[1..]), BranchAll(bs[0]), BranchesAll(bs[1..]));
      NumbersMatchBranch(bs[0], k);
      PointsConcat(BranchNumbers(bs[0], k), BranchText(bs[0]), BranchesNumbers(bs[1..], k'), BranchesText(bs[1..]), a,
                   vals);
      BranchForced(bs[0], k, a, b, vals);
      BranchesForced(bs[1..], k', a, b, vals);
    }
  }

  /** Each clause of a SELECT, placed. */
  lemma SelectPlaced(p: Plan, b: nat, vals: seq<Value>)
    requires p.Select? && !p.deny && Placed(vals, b, PlanValues(p), PlanAll(p))
    ensures Placed(vals, b, JsonValues(p.jsonOps), JsonValues(p.jsonOps))
    ensures Placed(vals, b + |JsonValues(p.jsonOps)|, FromValues(p.from), FromAll(p.from))
    ensures Placed(vals, b + FtsStart(p), FtsValues(p.fts), FtsValues(p.fts))
    ensures Placed(vals, b + WhereStart(p), FiltersValues(p.filters), FiltersAll(p.filters))
    ensures Placed(vals, b + RawStart(p), RawValues(p.rawFilters), RawValues(p.rawFilters))
    ensures Placed(vals, b + HavingStart(p), FiltersValues(p.having), FiltersAll(p.having))
    ensures Placed(vals, b + UnionStart(p), BranchesValues(p.unions), BranchesAll(p.unions))
    ensures Placed(vals, b + WithStart(p), BranchesValues(p.ctes), BranchesAll(p.ctes))
  {
    hide *;
    SelectWithin(p);
    SelectValues(p);
    SelectAll(p);
    var j, f, q := JsonValues(p.jsonOps), FromValues(p.from), FtsValues(p.fts);
    var w, r, h := FiltersValues(p.filters), RawValues(p.rawFilters), FiltersValues(p.having);
    var u, c := BranchesValues(p.unions), BranchesValues(p.ctes);
    var F, W, R, H := FromAll(p.from), FiltersAll(p.filters), RawValues(p.rawFilters), FiltersAll(p.having);
    var U, C := BranchesAll(p.unions), BranchesAll(p.ctes);
    WithinAll(j, f, q, w, r, h, u, F, W, R, H, U);
    PlacedSplit(vals, b, j + f + q + w + r + h + u, c, j + F + q + W + R + H + U, C);
    PlacedSplit(vals, b, j + f + q + w + r + h, u, j + F + q + W + R + H, U);
    PlacedSplit(vals, b, j + f + q + w + r, h, j + F + q + W + R, H);
    PlacedSplit(vals, b, j + f + q + w, r, j + F + q + W, R);
    PlacedSplit(vals, b, j + f + q, w, j + F + q, W);
    PlacedSplit(vals, b, j + f, q, j + F, q);
    PlacedSplit(vals, b, j, f, j, F);
  }

  lemma SelectAll(p: Plan)
    requires p.Select? && !p.deny
    ensures PlanAll(p) ==
            JsonValues(p.jsonOps) + FromAll(p.from) + FtsValues(p.fts) + FiltersAll(p.filters) +
            RawValues(p.rawFilters) + FiltersAll(p.having) + BranchesAll(p.unions) + BranchesAll(p.ctes)
  {
  }

  lemma WithinAll(j: seq<Value>, f: seq<Value>, q: seq<Value>, w: seq<Value>, r: seq<Value>, h: seq<Value>,
                  u: seq<Value>,
                  F: seq<Value>, W: seq<Value>, R: seq<Value>, H: seq<Value>, U: seq<Value>)
    requires Within(f, F) && Within(w, W) && Within(r, R) && Within(h, H) && Within(u, U)
    ensures Within(j, j) && Within(q, q)
    ensures Within(j + f, j + F) && Within(j + f + q, j + F + q) && Within(j + f + q + w, j + F + q + W)
    ensures Within(j + f + q + w + r, j + F + q + W + R) && Within(j + f + q + w + r + h, j + F + q + W + R + H)
    ensures Within(j + f + q + w + r + h + u, j + F + q + W + R + H + U)
  {
  }

  lemma SelectWithin(p: Plan)
    requires p.Select?
    ensures Within(FromValues(p.from), FromAll(p.from))
    ensures Within(FiltersValues(p.filters), FiltersAll(p.filters))
    ensures Within(RawValues(p.rawFilters), RawValues(p.rawFilters))
    ensures Within(FiltersValues(p.having), FiltersAll(p.having))
    ensures Within(BranchesValues(p.unions), BranchesAll(p.unions))
    ensures Within(BranchesValues(p.ctes), BranchesAll(p.ctes))
  {
    FiltersWithin(p.filters);
    FiltersWithin(p.having);
    WithinItself(RawValues(p.rawFilters));
    BranchesWithin(p.unions);
    BranchesWithin(p.ctes);
    if p.from.FromPlan? {
      PlanWithin(p.from.query);
    }
  }

  lemma {:induction false} SelectForced(p: Plan, a: nat, b: nat, vals: seq<Value>)
    requires p.Select? && !p.deny && a <= b && Placed(vals, b, PlanValues(p), PlanAll(p))
    requires Points(PlanNumbers(p), PlanText(p), a, vals)
    ensures Numberable(p) && (PlanText(p) != [] ==> a == b)
    decreases p, 0
  {
    hide *;
    SelectPieces(p, a, b, vals);
    RangeForced(vals, 0, a, b, JsonValues(p.jsonOps), JsonValues(p.jsonOps)) by { WithinItself(JsonValues(p.jsonOps)); }
    RangeForced(vals, FtsStart(p), a, b, FtsValues(p.fts), FtsValues(p.fts)) by { WithinItself(FtsValues(p.fts)); }
    FromForced(p, a, b, vals);
    FiltersForced(p.filters, WhereStart(p), a, b, vals);
    RawsForced(p.rawFilters, RawStart(p), a, b, vals);
    FiltersForced(p.having, HavingStart(p), a, b, vals);
    BranchesForced(p.unions, UnionStart(p), a, b, vals);
    BranchesForced(p.ctes, WithStart(p), a, b, vals);
    SelectConclusion(p, a, b);
  }

  lemma WithinItself(vs: seq<Value>)
    ensures Within(vs, vs)
  {
  }

  lemma {:induction false} FromForced(p: Plan, a: nat, b: nat, vals: seq<Value>)
    requires p.Select? && a <= b
    requires Placed(vals, b + |JsonValues(p.jsonOps)|, FromValues(p.from), FromAll(p.from))
    requires Points(FromNumbers(p), FromText(p), a, vals)
    ensures FromText(p) != [] ==> a == b
    ensures p.from.FromPlan? && !IsFts5(p.fts) ==> EmbeddedOk(p.from.query, |JsonValues(p.jsonOps)|)
    decreases p, -1
  {
    if p.from.FromPlan? && !IsFts5(p.fts) {
      PlanForced(p.from.query, a, b + |JsonValues(p.jsonOps)|, vals);
    }
  }

  lemma SelectConclusion(p: Plan, a: nat, b: nat)
    requires p.Select? && !p.deny
    requires (JsonValues(p.jsonOps) != [] ==> a == b) && (FromText(p) != [] ==> a == b)
    requires (FtsValues(p.fts) != [] ==> a == b) && (FiltersText(p.filters) != [] ==> a == b)
    requires (FiltersText(p.having) != [] ==> a == b) && (BranchesText(p.unions) != [] ==> a == b)
    requires (BranchesText(p.ctes) != [] ==> a == b) && (RawsText(p.rawFilters) != [] ==> a == b)
    requires p.from.FromPlan? && !IsFts5(p.fts) ==> EmbeddedOk(p.from.query, |JsonValues(p.jsonOps)|)
    requires NumberableFilters(p.filters, WhereStart(p)) && NumberableFilters(p.having, HavingStart(p))
    requires NumberableRaws(p.rawFilters, RawStart(p))
    requires NumberableBranches(p.unions, UnionStart(p)) && NumberableBranches(p.ctes, WithStart(p))
    ensures Numberable(p) && (PlanText(p) != [] ==> a == b)
  {
    assert |PlanText(p)| == |BranchesText(p.ctes)| + |JsonValues(p.jsonOps)| + |FromText(p)| +
                            |FiltersText(p.filters)| + |RawsText(p.rawFilters)| + |FtsValues(p.fts)| +
                            |FiltersText(p.having)| + |BranchesText(p.unions)|;
  }

  lemma SelectPieces(p: Plan, a: nat, b: nat, vals: seq<Value>)
    requires p.Select? && !p.deny && a <= b && Placed(vals, b, PlanValues(p), PlanAll(p))
    requires Points(PlanNumbers(p), PlanText(p), a, vals)
    ensures Placed(vals, b, JsonValues(p.jsonOps), JsonValues(p.jsonOps))
    ensures Placed(vals, b + |JsonValues(p.jsonOps)|, FromValues(p.from), FromAll(p.from))
    ensures Placed(vals, b + FtsStart(p), FtsValues(p.fts), FtsValues(p.fts))
    ensures Placed(vals, b + WhereStart(p), FiltersValues(p.filters), FiltersAll(p.filters))
    ensures Placed(vals, b + RawStart(p), RawValues(p.rawFilters), RawValues(p.rawFilters))
    ensures Placed(vals, b + HavingStart(p), FiltersValues(p.having), FiltersAll(p.having))
    ensures Placed(vals, b + UnionStart(p), BranchesValues(p.unions), BranchesAll(p.unions))
    ensures Placed(vals, b + WithStart(p), BranchesValues(p.ctes), BranchesAll(p.ctes))
    ensures Points(BranchesNumbers(p.ctes, WithStart(p)), BranchesText(p.ctes), a, vals)
    ensures Points(Range(0, |JsonValues(p.jsonOps)|), JsonValues(p.jsonOps), a, vals)
    ensures Points(FromNumbers(p), FromText(p), a, vals)
    ensures Points(FiltersNumbers(p.filters, WhereStart(p)), FiltersText(p.filters), a, vals)
    ensures Points(RawsNumbers(p.rawFilters), RawsText(p.rawFilters), a, vals)
    ensures Points(Range(FtsStart(p), |FtsValues(p.fts)|), FtsValues(p.fts), a, vals)
    ensures Points(FiltersNumbers(p.having, HavingStart(p)), FiltersText(p.having), a, vals)
    ensures Points(BranchesNumbers(p.unions, UnionStart(p)), BranchesText(p.unions), a, vals)
  {
    hide *;
    SelectPlaced(p, b, vals);
    NumbersMatchText(p);
    SelectConcat(p, a, vals);
  }

  lemma {:induction false} PlanForced(p: Plan, a: nat, b: nat, vals: seq<Value>)
    requires a <= b && Placed(vals, b, PlanValues(p), PlanAll(p))
    requires Points(PlanNumbers(p), PlanText(p), a, vals)
    ensures Numberable(p) && (PlanText(p) != [] ==> a == b)
    decreases p, 1
  {
    if p.Select? {
      if p.deny {
        DenyForced(p, a, b, vals);
      } else {
        SelectForced(p, a, b, vals);
      }
    } else if p.Insert? {
      if PlanText(p) != [] {
        PlanWithin(p);
        assert PlanNumbers(p)[0] == 1;
        assert vals[1 + a - 1] == PlanText(p)[0];
      }
    } else {
      WriteForced(p, a, b, vals);
    }
  }

  lemma DenyForced(p: Plan, a: nat, b: nat, vals: seq<Value>)
    requires p.Select? && p.deny && Owned(vals, b, 0, PlanAll(p))
    requires Points(PlanNumbers(p), PlanText(p), a, vals)
    ensures JsonValues(p.jsonOps) == []
  {
    if JsonValues(p.jsonOps) != [] {
      FirstPoint(Range(0, |JsonValues(p.jsonOps)|), JsonValues(p.jsonOps), a, vals);
    }
  }

  lemma FirstPoint(ns: seq<nat>, ls: seq<Value>, a: nat, vals: seq<Value>)
    requires Points(ns, ls, a, vals) && ns != []
    ensures exists i | 0 <= i < |vals| :: vals[i] in ls
  {
    assert vals[ns[0] + a - 1] == ls[0] && ls[0] in ls;
  }

  lemma {:induction false} WriteForced(p: Plan, a: nat, b: nat, vals: seq<Value>)
    requires (p.Update? || p.Delete?) && a <= b && Placed(vals, b, PlanValues(p), PlanAll(p))
    requires Points(PlanNumbers(p), PlanText(p), a, vals)
    ensures Numberable(p) && (PlanText(p) != [] ==> a == b)
    decreases p, 0
  {
    hide *;
    var n := if p.Update? then |p.assignments| else 0;
    var sets := if p.Update? then Values(p.assignments) else [];
    WritePieces(p, n, sets, a, b, vals);
    WithinItself(sets);
    RangeForced(vals, 0, a, b, sets, sets);
    FiltersForced(p.filters, n, a, b, vals);
    RawsForced(p.rawFilters, RawStart(p), a, b, vals);
    WriteConclusion(p, n, sets);
  }

  lemma WriteConclusion(p: Plan, n: nat, sets: seq<Value>)
    requires p.Update? || p.Delete?
    requires n == (if p.Update? then |p.assignments| else 0) &&
             sets == (if p.Update? then Values(p.assignments) else [])
    requires NumberableFilters(p.filters, n) && NumberableRaws(p.rawFilters, RawStart(p))
    ensures Numberable(p)
    ensures PlanText(p) != [] ==> sets != [] || FiltersText(p.filters) != [] || RawsText(p.rawFilters) != []
  {
  }

  /** The values, stocks and numbers of a write, clause by clause. */
  lemma WriteParts(p: Plan, n: nat, sets: seq<Value>)
    requires p.Update? || p.Delete?
    requires n == (if p.Update? then |p.assignments| else 0) &&
             sets == (if p.Update? then Values(p.assignments) else [])
    ensures PlanValues(p) == sets + FiltersValues(p.filters) + RawValues(p.rawFilters)
    ensures PlanAll(p) == sets + FiltersAll(p.filters) + RawValues(p.rawFilters)
    ensures PlanNumbers(p) == Range(0, n) + FiltersNumbers(p.filters, n) + RawsNumbers(p.rawFilters)
    ensures PlanText(p) == sets + FiltersText(p.filters) + RawsText(p.rawFilters)
    ensures RawStart(p) == n + |FiltersValues(p.filters)| && |sets| == n
  {
    if p.Delete? {
      assert [] + FiltersValues(p.filters) == FiltersValues(p.filters) &&
             [] + FiltersAll(p.filters) == FiltersAll(p.filters);
      assert [] + FiltersText(p.filters) == FiltersText(p.filters);
      assert Range(0, 0) + FiltersNumbers(p.filters, 0) == FiltersNumbers(p.filters, 0);
    }
  }

  lemma WritePieces(p: Plan, n: nat, sets: seq<Value>, a: nat, b: nat, vals: seq<Value>)
    requires p.Update? || p.Delete?
    requires n == (if p.Update? then |p.assignments| else 0) &&
             sets == (if p.Update? then Values(p.assignments) else [])
    requires a <= b && Placed(vals, b, PlanValues(p), PlanAll(p)) && Points(PlanNumbers(p), PlanText(p), a, vals)
    ensures |sets| == n && Placed(vals, b, sets, sets) && Points(Range(0, n), sets, a, vals)
    ensures Placed(vals, b + n, FiltersValues(p.filters), FiltersAll(p.filters))
    ensures Points(FiltersNumbers(p.filters, n), FiltersText(p.filters), a, vals)
    ensures Placed(vals, b + RawStart(p), RawValues(p.rawFilters), RawValues(p.rawFilters))
    ensures Points(RawsNumbers(p.rawFilters), RawsText(p.rawFilters), a, vals)
  {
    hide *;
    var w, W, r, R := FiltersValues(p.filters), FiltersAll(p.filters), RawValues(p.rawFilters), RawValues(p.rawFilters);
    var l, l', m, m' := FiltersNumbers(p.filters, n), FiltersText(p.filters), RawsNumbers(p.rawFilters),
      RawsText(p.rawFilters);
    WriteParts(p, n, sets);
    FiltersWithin(p.filters);
    WithinItself(r);
    WithinItself(sets);
    WithinBoth(sets, w, W);
    PlacedSplit(vals, b, sets + w, r, sets + W, R);
    PlacedSplit(vals, b, sets, w, sets, W);
    NumbersMatchFilters(p.filters, n);
    RangeLength(n);
    PointsConcat(Range(0, n) + l, sets + l', m, m', a, vals);
    PointsConcat(Range(0, n), sets, l, l', a, vals);
  }

  lemma WithinBoth(x: seq<Value>, w: seq<Value>, W: seq<Value>)
    requires Within(w, W)
    ensures Within(x + w, x + W)
  {
  }

  lemma RangeLength(n: nat)
    ensures |Range(0, n)| == n
  {
  }

  // ---- main results ----

  /** Every numberable plan, nested to any depth and whatever its values, binds correctly if the
      renumbering of its UNION branches meets placeholders only. */
  lemma NumberablePlansBind(p: Plan, inherited: seq<string>)
    requires Numberable(p) && TamePlan(p, inherited)
    ensures BindsByNumber(p, inherited)
  {
    PlanPoints(p);
    NumberedIsPointing(p, inherited);
  }

  /** Among plans whose values are told apart, no other plan does. */
  lemma BindsExactlyWhenNumberable(p: Plan, inherited: seq<string>)
    requires Distinct(PlanAll(p))
    ensures BindsByNumber(p, inherited) <==> Numberable(p) && TamePlan(p, inherited)
  {
    NumberedIsPointing(p, inherited);
    if Numberable(p) {
      PlanPoints(p);
    } else if Points(PlanNumbers(p), PlanText(p), 0, PlanValues(p)) {
      PlacedWhole(p);
      PlanForced(p, 0, 0, PlanValues(p));
    }
  }

  lemma PlacedWhole(p: Plan)
    requires Distinct(PlanAll(p))
    ensures Placed(PlanValues(p), 0, PlanValues(p), PlanAll(p))
  {
    PlanWithin(p);
  }

  // ---- the renumbered SQLite text ----

  lemma RangeConcat(k: nat, ns: seq<nat>, n: nat, ms: seq<nat>, m: nat)
    requires ns == Range(k, n) && ms == Range(k + n, m)
    ensures ns + ms == Range(k, n + m)
  {
  }

  lemma {:induction false} FilterCounts(f: Filter, k: nat)
    requires Positional.OrderedFilter(f) && NumberableFilter(f, k)
    ensures FilterNumbers(f, k) == Range(k, |FilterValues(f)|)
  {
    match f
    case Compare(_, _, _) =>
    case And(fs) => FiltersCount(fs, k);
    case Or(fs) => FiltersCount(fs, k);
    case Subquery(_, _, p) => EmbeddedCounts(p, k);
  }

  lemma {:induction false} EmbeddedCounts(p: Plan, k: nat)
    requires Positional.Ordered(p) && EmbeddedOk(p, k)
    ensures PlanNumbers(p) == Range(k, |PlanValues(p)|)
    decreases p, 2
  {
    if PlanText(p) == [] {
      Positional.InOrder(p);
      NumbersMatchText(p);
    } else {
      PlanCounts(p);
    }
  }

  lemma {:induction false} FiltersCount(fs: seq<Filter>, k: nat)
    requires Positional.OrderedFilters(fs) && NumberableFilters(fs, k)
    ensures FiltersNumbers(fs, k) == Range(k, |FiltersValues(fs)|)
  {
    if fs != [] {
      var n := |FilterValues(fs[0])|;
      FilterCounts(fs[0], k);
      FiltersCount(fs[1..], k + n);
      RangeConcat(k, FilterNumbers(fs[0], k), n, FiltersNumbers(fs[1..], k + n), |FiltersValues(fs[1..])|);
    }
  }

  lemma {:induction false} RawsCount(raws: seq<RawFilter>, k: nat)
    requires Positional.OrderedRaws(raws) && NumberableRaws(raws, k)
    ensures RawsNumbers(raws) == Range(k, |RawValues(raws)|)
  {
    if raws != [] {
      var n := |raws[0].params|;
      RawsCount(raws[1..], k + n);
      assert RawHoles(raws[0].expr) == Range(k, n);
      RangeConcat(k, RawHoles(raws[0].expr), n, RawsNumbers(raws[1..]), |RawValues(raws[1..])|);
    }
  }

  lemma {:induction false} BranchCounts(b: Branch, k: nat)
    requires Positional.OrderedBranch(b) && NumberableBranch(b, k)
    ensures BranchNumbers(b, k) == Range(k, |BranchValues(b)|)
  {
    if b.UnionBranch? {
      PlanCounts(b.query);
    } else {
      EmbeddedCounts(b.query, k);
    }
  }

  lemma {:induction false} BranchesCount(bs: seq<Branch>, k: nat)
    requires Positional.OrderedBranches(bs) && NumberableBranches(bs, k)
    ensures BranchesNumbers(bs, k) == Range(k, |BranchesValues(bs)|)
  {
    if bs != [] {
      var n := |BranchValues(bs[0])|;
      BranchCounts(bs[0], k);
      BranchesCount(bs[1..], k + n);
      RangeConcat(k, BranchNumbers(bs[0], k), n, BranchesNumbers(bs[1..], k + n), |BranchesValues(bs[1..])|);
    }
  }

  lemma {:induction false} SelectCounts(p: Plan)
    requires p.Select? && !p.deny && Positional.Ordered(p) && Numberable(p)
    ensures PlanNumbers(p) == Range(0, |PlanValues(p)|)
    decreases p, 0
  {
    hide *;
    SelectFragments(p);
    FiltersCount(p.filters, WhereStart(p));
    RawsCount(p.rawFilters, RawStart(p));
    FiltersCount(p.having, HavingStart(p));
    BranchesCount(p.unions, UnionStart(p));
    BranchesCount(p.ctes, WithStart(p));
    FromCounts(p);
    SelectLayoutCounts(p);
  }

  lemma SelectFragments(p: Plan)
    requires p.Select? && !p.deny && Positional.Ordered(p) && Numberable(p)
    ensures Positional.OrderedFilters(p.filters) && Positional.OrderedFilters(p.having)
    ensures Positional.OrderedRaws(p.rawFilters) && NumberableRaws(p.rawFilters, RawStart(p))
    ensures Positional.OrderedBranches(p.unions) && Positional.OrderedBranches(p.ctes)
    ensures NumberableFilters(p.filters, WhereStart(p)) && NumberableFilters(p.having, HavingStart(p))
    ensures NumberableBranches(p.unions, UnionStart(p)) && NumberableBranches(p.ctes, WithStart(p))
  {
  }

  lemma {:induction false} FromCounts(p: Plan)
    requires p.Select? && !p.deny && Positional.Ordered(p) && Numberable(p)
    ensures FromNumbers(p) == Range(|JsonValues(p.jsonOps)|, |FromValues(p.from)|)
    decreases p, -1
  {
    if p.from.FromPlan? && !IsFts5(p.fts) {
      EmbeddedCounts(p.from.query, |JsonValues(p.jsonOps)|);
    }
  }

  lemma SelectLayoutCounts(p: Plan)
    requires p.Select? && !p.deny && Positional.Ordered(p)
    requires FiltersNumbers(p.filters, WhereStart(p)) == Range(WhereStart(p), |FiltersValues(p.filters)|)
    requires RawsNumbers(p.rawFilters) == Range(RawStart(p), |RawValues(p.rawFilters)|)
    requires FiltersNumbers(p.having, HavingStart(p)) == Range(HavingStart(p), |FiltersValues(p.having)|)
    requires BranchesNumbers(p.unions, UnionStart(p)) == Range(UnionStart(p), |BranchesValues(p.unions)|)
    requires BranchesNumbers(p.ctes, WithStart(p)) == Range(WithStart(p), |BranchesValues(p.ctes)|)
    requires FromNumbers(p) == Range(|JsonValues(p.jsonOps)|, |FromValues(p.from)|)
    ensures PlanNumbers(p) == Range(0, |PlanValues(p)|)
  {
    hide *;
    OrderedParts(p);
    SelectNumbers(p);
    SelectValues(p);
    PlanValuesCount(p);
    LayoutCounts(|JsonValues(p.jsonOps)|, |FromValues(p.from)|, |FtsValues(p.fts)|, |FiltersValues(p.filters)|,
                 |RawValues(p.rawFilters)|, |FiltersValues(p.having)|, |BranchesValues(p.unions)|,
                     |BranchesValues(p.ctes)|);
  }

  lemma OrderedParts(p: Plan)
    requires p.Select? && !p.deny && Positional.Ordered(p)
    ensures |FtsValues(p.fts)| == 0 || (|FiltersValues(p.filters)| == 0 && |RawValues(p.rawFilters)| == 0)
    ensures |BranchesValues(p.ctes)| == 0 ||
            |JsonValues(p.jsonOps)| + |FromValues(p.from)| + |FtsValues(p.fts)| + |FiltersValues(p.filters)| +
            |RawValues(p.rawFilters)| + |FiltersValues(p.having)| + |BranchesValues(p.unions)| == 0
  {
    assert |MainValues(p)| ==
           |JsonValues(p.jsonOps)| + |FromValues(p.from)| + |FtsValues(p.fts)| + |FiltersValues(p.filters)| +
           |RawValues(p.rawFilters)| + |FiltersValues(p.having)| + |BranchesValues(p.unions)|;
  }

  lemma PlanValuesCount(p: Plan)
    requires p.Select? && !p.deny
    ensures |PlanValues(p)| ==
            |JsonValues(p.jsonOps)| + |FromValues(p.from)| + |FtsValues(p.fts)| + |FiltersValues(p.filters)| +
            |RawValues(p.rawFilters)| + |FiltersValues(p.having)| + |BranchesValues(p.unions)| +
                |BranchesValues(p.ctes)|
  {
  }

  lemma SelectNumbers(p: Plan)
    requires p.Select? && !p.deny
    ensures PlanNumbers(p) ==
            BranchesNumbers(p.ctes, WithStart(p)) + (Range(0, |JsonValues(p.jsonOps)|) + FromNumbers(p)) +
            (FiltersNumbers(p.filters, WhereStart(p)) + RawsNumbers(p.rawFilters) +
             Range(FtsStart(p), |FtsValues(p.fts)|) +
             FiltersNumbers(p.having, HavingStart(p))) + BranchesNumbers(p.unions, UnionStart(p))
  {
  }

  lemma LayoutCounts(j: nat, f: nat, q: nat, w: nat, r: nat, h: nat, u: nat, c: nat)
    requires q == 0 || w + r == 0
    requires c == 0 || j + f + q + w + r + h + u == 0
    ensures Range(j + f + q + w + r + h + u, c) + (Range(0, j) + Range(j, f)) +
            (Range(j + f + q, w) + Range(j + f + q + w, r) + Range(j + f, q) + Range(j + f + q + w + r, h)) +
            Range(j + f + q + w + r + h, u) ==
            Range(0, j + f + q + w + r + h + u + c)
  {
  }

  /** In a plan of both fragments the $n count up through the text. */
  lemma {:induction false} PlanCounts(p: Plan)
    requires Positional.Ordered(p) && Numberable(p)
    ensures PlanNumbers(p) == Range(0, |PlanValues(p)|)
    decreases p, 1
  {
    if p.Select? {
      if !p.deny {
        SelectCounts(p);
      }
    } else if p.Insert? {
      var n := |RowsValues(p.rows, InsertKeys(p.rows))|;
      RangeConcat(0, Range(0, n), n, Range(n, |ConflictRecord(p.onConflict)|), |ConflictRecord(p.onConflict)|);
    } else {
      var n := if p.Update? then |p.assignments| else 0;
      WriteCounts(p, n);
    }
  }

  lemma {:induction false} WriteCounts(p: Plan, n: nat)
    requires (p.Update? || p.Delete?) && Positional.Ordered(p) && Numberable(p)
    requires n == if p.Update? then |p.assignments| else 0
    ensures PlanNumbers(p) == Range(0, |PlanValues(p)|)
    decreases p, 0
  {
    hide RawsNumbers, RawValues, FiltersNumbers, FiltersValues;
    var w, r := |FiltersValues(p.filters)|, |RawValues(p.rawFilters)|;
    FiltersCount(p.filters, n);
    RawsCount(p.rawFilters, RawStart(p));
    RangeConcat(n, FiltersNumbers(p.filters, n), w, RawsNumbers(p.rawFilters), r);
    RangeConcat(0, Range(0, n), n, FiltersNumbers(p.filters, n) + RawsNumbers(p.rawFilters), w + r);
    if p.Update? {
      assert PlanNumbers(p) == Range(0, n) + (FiltersNumbers(p.filters, n) + RawsNumbers(p.rawFilters));
      assert |PlanValues(p)| == n + w + r;
    } else {
      assert Range(0, 0) + PlanNumbers(p) == PlanNumbers(p);
    }
  }
}
