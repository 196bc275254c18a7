/** The order in which a statement shows its values, and the numbers its $n placeholders carry,
    read off the plan. Module Skeleton proves that the printed tokens contain exactly these. */
module TextOrder {
  import opened Plans
  import opened Emission

  // ---- values in text order ----

  function FilterText(f: Filter): seq<Value> {
    match f
    case Compare(_, _, _) => FilterValues(f)
    case And(fs) => FiltersText(fs)
    case Or(fs) => FiltersText(fs)
    case Subquery(_, _, p) => PlanText(p)
  }

  function FiltersText(fs: seq<Filter>): seq<Value> {
    if fs == [] then [] else FilterText(fs[0]) + FiltersText(fs[1..])
  }

  function FromText(p: Plan): seq<Value>
    requires p.Select?
    decreases p, 0
  {
    if !IsFts5(p.fts) && p.from.FromPlan? then PlanText(p.from.query) else []
  }

  function BranchText(b: Branch): seq<Value> {
    PlanText(b.query)
  }

  function BranchesText(bs: seq<Branch>): seq<Value> {
    if bs == [] then [] else BranchText(bs[0]) + BranchesText(bs[1..])
  }

  /** What the placeholders `ns` of a raw filter show. */
  function Shown(ns: seq<nat>, params: seq<Value>): seq<Value> {
    seq(|ns|, i requires 0 <= i < |ns| => ParamOf(params, ns[i]))
  }

  function RawsText(raws: seq<RawFilter>): seq<Value> {
    if raws == [] then [] else Shown(RawHoles(raws[0].expr), raws[0].params) + RawsText(raws[1..])
  }

  function MiddleText(p: Plan): seq<Value>
    requires p.Select?
    decreases p, 0
  {
    FiltersText(p.filters) + RawsText(p.rawFilters) + FtsValues(p.fts) + FiltersText(p.having)
  }

  function PlanText(p: Plan): seq<Value>
    decreases p, 1
  {
    if p.Select? then
      if p.deny then JsonValues(p.jsonOps)
      else BranchesText(p.ctes) + (JsonValues(p.jsonOps) + FromText(p)) + MiddleText(p) + BranchesText(p.unions)
    else if p.Insert? then RowsValues(p.rows, InsertKeys(p.rows)) + Values(ConflictRecord(p.onConflict))
    else if p.Update? then Values(p.assignments) + FiltersText(p.filters) + RawsText(p.rawFilters)
    else FiltersText(p.filters) + RawsText(p.rawFilters)
  }

  // ---- numbers in text order ----

  /** k + 1, ..., k + count */
  function Range(k: nat, count: nat): seq<nat> {
    seq(count, i requires 0 <= i < count => k + 1 + i)
  }

  function Raise(ns: seq<nat>, offset: nat): seq<nat> {
    seq(|ns|, i requires 0 <= i < |ns| => ns[i] + offset)
  }

  function FilterNumbers(f: Filter, k: nat): seq<nat> {
    match f
    case Compare(_, _, _) => Range(k, |FilterValues(f)|)
    case And(fs) => FiltersNumbers(fs, k)
    case Or(fs) => FiltersNumbers(fs, k)
    case Subquery(_, _, p) => PlanNumbers(p)
  }

  function FiltersNumbers(fs: seq<Filter>, k: nat): seq<nat> {
    if fs == [] then [] else FilterNumbers(fs[0], k) + FiltersNumbers(fs[1..], k + |FilterValues(fs[0])|)
  }

  function FromNumbers(p: Plan): seq<nat>
    requires p.Select?
    decreases p, 0
  {
    if !IsFts5(p.fts) && p.from.FromPlan? then PlanNumbers(p.from.query) else []
  }

  function BranchNumbers(b: Branch, k: nat): seq<nat> {
    if b.UnionBranch? then Raise(PlanNumbers(b.query), k) else PlanNumbers(b.query)
  }

  function BranchesNumbers(bs: seq<Branch>, k: nat): seq<nat> {
    if bs == [] then [] else BranchNumbers(bs[0], k) + BranchesNumbers(bs[1..], k + |BranchValues(bs[0])|)
  }

  /** The number of parameters pushed before the full-text query. */
  function FtsStart(p: Plan): nat
    requires p.Select?
  {
    |JsonValues(p.jsonOps)| + |FromValues(p.from)|
  }

  /** The author of a raw filter counts its parameters from 1, wherever it ends up. */
  function RawsNumbers(raws: seq<RawFilter>): seq<nat> {
    if raws == [] then [] else RawHoles(raws[0].expr) + RawsNumbers(raws[1..])
  }

  function MiddleNumbers(p: Plan): seq<nat>
    requires p.Select?
    decreases p, 0
  {
    FiltersNumbers(p.filters, WhereStart(p)) + RawsNumbers(p.rawFilters) + Range(FtsStart(p), |FtsValues(p.fts)|) +
    FiltersNumbers(p.having, HavingStart(p))
  }

  function PlanNumbers(p: Plan): seq<nat>
    decreases p, 1
  {
    if p.Select? then
      if p.deny then Range(0, |JsonValues(p.jsonOps)|)
      else
        BranchesNumbers(p.ctes, WithStart(p)) + (Range(0, |JsonValues(p.jsonOps)|) + FromNumbers(p)) +
        MiddleNumbers(p) + BranchesNumbers(p.unions, UnionStart(p))
    else if p.Insert? then
      var n := |RowsValues(p.rows, InsertKeys(p.rows))|;
      Range(0, n) + Range(n, |ConflictRecord(p.onConflict)|)
    else if p.Update? then
      Range(0, |p.assignments|) + FiltersNumbers(p.filters, |p.assignments|) + RawsNumbers(p.rawFilters)
    else FiltersNumbers(p.filters, 0) + RawsNumbers(p.rawFilters)
  }
}
