/** A statement is written once and run with many values. `Revalued(p, v, 0)` is the plan p with the
    values v(0), v(1), ... in place of its own; a shape is right when it binds whatever they are. */
module Shapes {
  import opened Wrappers
  import opened Plans
  import opened Emission
  import opened TextOrder
  import opened Tame
  import opened Binding
  import Dialects
  import Numbered
  import NumberedNecessary
  import Positional

  // ---- other values in the same places ----

  function Drawn(v: nat -> Value, k: nat, count: nat): seq<Value> {
    seq(count, i requires 0 <= i < count => v(k + i))
  }

  /** BETWEEN and IN take their values as an array; every other comparison takes one. */
  function RevaluedFilter(f: Filter, v: nat -> Value, k: nat): Filter {
    match f
    case Compare(c, In, x) => Compare(c, In, Arr(Drawn(v, k, |InList(x)|)))
    case Compare(c, Between, _) => Compare(c, Between, Arr(Drawn(v, k, 2)))
    case Compare(c, op, _) => Compare(c, op, v(k))
    case And(fs) => And(RevaluedFilters(fs, v, k))
    case Or(fs) => Or(RevaluedFilters(fs, v, k))
    case Subquery(c, op, p) => Subquery(c, op, Revalued(p, v, k))
  }

  function RevaluedFilters(fs: seq<Filter>, v: nat -> Value, k: nat): seq<Filter> {
    if fs == [] then [] else [RevaluedFilter(fs[0], v, k)] + RevaluedFilters(fs[1..], v, k + FilterSize(fs[0]))
  }

  function RevaluedJson(ops: seq<JsonOp>, v: nat -> Value, k: nat): seq<JsonOp> {
    if ops == [] then []
    else
      [if ops[0].JsonSet? then ops[0].(value := v(k)) else ops[0]] +
      RevaluedJson(ops[1..], v, k + |JsonOpValues(ops[0])|)
  }

  function RevaluedRaws(raws: seq<RawFilter>, v: nat -> Value, k: nat): seq<RawFilter> {
    if raws == [] then []
    else
      [RawFilter(raws[0].expr, Drawn(v, k, |raws[0].params|))] + RevaluedRaws(raws[1..], v, k + |raws[0].params|)
  }

  function RevaluedRecord(r: Record, v: nat -> Value, k: nat): Record {
    seq(|r|, i requires 0 <= i < |r| => (r[i].0, v(k + i)))
  }

  /** The compiler looks into a row for the columns of the first row only. */
  function RevaluedRows(count: nat, keys: seq<string>, v: nat -> Value, k: nat): seq<Record> {
    if count == 0 then []
    else
      [seq(|keys|, i requires 0 <= i < |keys| => (keys[i], v(k + i)))] +
      RevaluedRows(count - 1, keys, v, k + |keys|)
  }

  function RevaluedConflict(oc: Option<OnConflict>, v: nat -> Value, k: nat): Option<OnConflict> {
    if oc.None? || oc.value.assignments.None? then oc
    else Some(oc.value.(assignments := Some(RevaluedRecord(oc.value.assignments.value, v, k))))
  }

  function RevaluedFts(fts: Option<Fts>, v: nat -> Value, k: nat): Option<Fts> {
    if fts.None? then None else Some(fts.value.(query := v(k)))
  }

  function RevaluedFrom(from: FromSource, v: nat -> Value, k: nat): FromSource {
    if from.FromTable? then from else from.(query := Revalued(from.query, v, k))
  }

  function RevaluedBranch(b: Branch, v: nat -> Value, k: nat): Branch {
    match b
    case UnionBranch(op, q) => UnionBranch(op, Revalued(q, v, k))
    case WithQuery(name, columns, q) => WithQuery(name, columns, Revalued(q, v, k))
  }

  function RevaluedBranches(bs: seq<Branch>, v: nat -> Value, k: nat): seq<Branch> {
    if bs == [] then []
    else [RevaluedBranch(bs[0], v, k)] + RevaluedBranches(bs[1..], v, k + BranchSize(bs[0]))
  }

  function Revalued(p: Plan, v: nat -> Value, k: nat): Plan
    decreases p, 1
  {
    match p
    case Select(_, _, _, _, _, _, _, _, _, _, _, _, _, _, _, _, _, _) => RevaluedSelect(p, v, k)
    case Insert(_, rows, oc, _) =>
      var keys := InsertKeys(rows);
      p.(rows := RevaluedRows(|rows|, keys, v, k),
         onConflict := RevaluedConflict(oc, v, k + |RowsValues(rows, keys)|))
    case Update(_, sets, fs, raws, _) =>
      p.(assignments := RevaluedRecord(sets, v, k), filters := RevaluedFilters(fs, v, k + |sets|),
         rawFilters := RevaluedRaws(raws, v, k + |sets| + FiltersSize(fs)))
    case Delete(_, fs, raws, _) =>
      p.(filters := RevaluedFilters(fs, v, k), rawFilters := RevaluedRaws(raws, v, k + FiltersSize(fs)))
  }

  function RevaluedSelect(p: Plan, v: nat -> Value, k: nat): Plan
    requires p.Select?
    decreases p, 0
  {
    p.(jsonOps := RevaluedJson(p.jsonOps, v, k), from := RevaluedFrom(p.from, v, FromAt(p, k)),
       fts := RevaluedFts(p.fts, v, FtsAt(p, k)), filters := RevaluedFilters(p.filters, v, FiltersAt(p, k)),
       rawFilters := RevaluedRaws(p.rawFilters, v, RawsAt(p, k)),
       having := RevaluedFilters(p.having, v, HavingAt(p, k)),
       unions := RevaluedBranches(p.unions, v, UnionsAt(p, k)), ctes := RevaluedBranches(p.ctes, v, CtesAt(p, k)))
  }

  // ---- how many values a fragment takes ----

  function FilterSize(f: Filter): nat {
    match f
    case Compare(_, _, _) => |FilterValues(f)|
    case And(fs) => FiltersSize(fs)
    case Or(fs) => FiltersSize(fs)
    case Subquery(_, _, p) => PlanSize(p)
  }

  function FiltersSize(fs: seq<Filter>): nat {
    if fs == [] then 0 else FilterSize(fs[0]) + FiltersSize(fs[1..])
  }

  function BranchSize(b: Branch): nat {
    PlanSize(b.query)
  }

  function BranchesSize(bs: seq<Branch>): nat {
    if bs == [] then 0 else BranchSize(bs[0]) + BranchesSize(bs[1..])
  }

  function PlanSize(p: Plan): nat
    decreases p, 1
  {
    if p.Select? then CtesAt(p, 0) + BranchesSize(p.ctes)
    else if p.Insert? then
      |RowsValues(p.rows, InsertKeys(p.rows))| +
      if p.onConflict.None? || p.onConflict.value.assignments.None? then 0
      else |p.onConflict.value.assignments.value|
    else (if p.Update? then |p.assignments| else 0) + FiltersSize(p.filters) + |RawValues(p.rawFilters)|
  }

  /** Where the clauses of a SELECT begin to take values. */
  function FromAt(p: Plan, k: nat): nat
    requires p.Select?
  {
    k + |JsonValues(p.jsonOps)|
  }

  function FtsAt(p: Plan, k: nat): nat
    requires p.Select?
    decreases p, 0, 0
  {
    FromAt(p, k) + if p.from.FromPlan? then PlanSize(p.from.query) else 0
  }

  function FiltersAt(p: Plan, k: nat): nat
    requires p.Select?
    decreases p, 0, 1
  {
    FtsAt(p, k) + |FtsValues(p.fts)|
  }

  function RawsAt(p: Plan, k: nat): nat
    requires p.Select?
    decreases p, 0, 2
  {
    FiltersAt(p, k) + FiltersSize(p.filters)
  }

  function HavingAt(p: Plan, k: nat): nat
    requires p.Select?
    decreases p, 0, 3
  {
    RawsAt(p, k) + |RawValues(p.rawFilters)|
  }

  function UnionsAt(p: Plan, k: nat): nat
    requires p.Select?
    decreases p, 0, 4
  {
    HavingAt(p, k) + FiltersSize(p.having)
  }

  function CtesAt(p: Plan, k: nat): nat
    requires p.Select?
    decreases p, 0, 5
  {
    UnionsAt(p, k) + BranchesSize(p.unions)
  }

  // ---- the places stay as many, and the text stays as it is ----

  /** Revaluing a list goes element by element. */
  lemma FiltersStep(fs: seq<Filter>, v: nat -> Value, k: nat)
    ensures var r := RevaluedFilters(fs, v, k);
            && (r == [] <==> fs == [])
            && (fs != [] ==> r[0] == RevaluedFilter(fs[0], v, k) &&
                             r[1..] == RevaluedFilters(fs[1..], v, k + FilterSize(fs[0])))
  {
    hide RevaluedFilter, FilterSize;
  }

  lemma BranchesStep(bs: seq<Branch>, v: nat -> Value, k: nat)
    ensures var r := RevaluedBranches(bs, v, k);
            && (r == [] <==> bs == [])
            && (bs != [] ==> r[0] == RevaluedBranch(bs[0], v, k) &&
                             r[1..] == RevaluedBranches(bs[1..], v, k + BranchSize(bs[0])))
  {
    hide RevaluedBranch, BranchSize;
  }

  lemma RawsStep(raws: seq<RawFilter>, v: nat -> Value, k: nat)
    ensures var r := RevaluedRaws(raws, v, k);
            && (r == [] <==> raws == [])
            && (raws != [] ==> r[0] == RawFilter(raws[0].expr, Drawn(v, k, |raws[0].params|)) &&
                               r[1..] == RevaluedRaws(raws[1..], v, k + |raws[0].params|))
  {
  }

  lemma JsonStep(ops: seq<JsonOp>, v: nat -> Value, k: nat)
    ensures var r := RevaluedJson(ops, v, k);
            && (r == [] <==> ops == [])
            && (ops != [] ==> r[0] == (if ops[0].JsonSet? then ops[0].(value := v(k)) else ops[0]) &&
                              r[1..] == RevaluedJson(ops[1..], v, k + |JsonOpValues(ops[0])|))
  {
  }

  lemma {:induction false} JsonCountSame(ops: seq<JsonOp>, v: nat -> Value, k: nat)
    ensures |JsonValues(RevaluedJson(ops, v, k))| == |JsonValues(ops)|
  {
    JsonStep(ops, v, k);
    hide RevaluedJson;
    if ops != [] {
      JsonCountSame(ops[1..], v, k + |JsonOpValues(ops[0])|);
    }
  }

  lemma {:induction false} JsonPrintsSame(ops: seq<JsonOp>, v: nat -> Value, k: nat, lead: bool, n: nat, d: Dialect)
    ensures RevaluedJson(ops, v, k) == [] <==> ops == []
    ensures JsonTokens(RevaluedJson(ops, v, k), lead, n, d) == JsonTokens(ops, lead, n, d)
  {
    JsonStep(ops, v, k);
    hide RevaluedJson, JsonTokens;
    if ops != [] {
      var r, m := RevaluedJson(ops, v, k), |JsonOpValues(ops[0])|;
      JsonPrintsSame(ops[1..], v, k + m, true, n + m, d);
      JsonUnfold(ops, lead, n, d);
      JsonUnfold(r, lead, n, d);
    }
  }

  lemma JsonUnfold(ops: seq<JsonOp>, lead: bool, n: nat, d: Dialect)
    requires ops != []
    ensures JsonTokens(ops, lead, n, d) ==
            (if lead then [COMMA] else []) + JsonOpTokens(ops[0], n, d) +
            JsonTokens(ops[1..], true, n + |JsonOpValues(ops[0])|, d)
  {
    hide JsonOpTokens, JsonOpValues;
  }

  lemma {:induction false} RawsSame(raws: seq<RawFilter>, v: nat -> Value, k: nat)
    ensures var rs := RevaluedRaws(raws, v, k);
            && |RawValues(rs)| == |RawValues(raws)| && |RawsText(rs)| == |RawsText(raws)| && (rs == [] <==> raws == [])
            && forall lead, d :: RawClauses(rs, lead, d) == RawClauses(raws, lead, d)
  {
    RawsStep(raws, v, k);
    hide RevaluedRaws;
    if raws != [] {
      RawsSame(raws[1..], v, k + |raws[0].params|);
    }
  }

  lemma {:induction false} RecordSame(r: Record, v: nat -> Value, k: nat)
    ensures |Values(RevaluedRecord(r, v, k))| == |Values(r)|
    ensures forall lead, n: nat, d ::
              AssignmentTokens(RevaluedRecord(r, v, k), lead, n, d) == AssignmentTokens(r, lead, n, d)
  {
    if r != [] {
      RecordSame(r[1..], v, k + 1);
      assert RevaluedRecord(r, v, k)[1..] == RevaluedRecord(r[1..], v, k + 1);
    }
  }

  lemma {:induction false} RowsSame(count: nat, keys: seq<string>, v: nat -> Value, k: nat)
    ensures var rows := RevaluedRows(count, keys, v, k);
            |rows| == count && forall i | 0 <= i < count :: Keys(rows[i]) == keys
  {
    if count > 0 {
      RowsSame(count - 1, keys, v, k + |keys|);
      assert Keys(RevaluedRows(count, keys, v, k)[0]) == keys;
    }
  }

  lemma {:induction false} RowsCount(rows: seq<Record>, keys: seq<string>)
    ensures |RowsValues(rows, keys)| == |rows| * |keys|
  {
    if rows != [] {
      RowsCount(rows[1..], keys);
      assert |rows| * |keys| == |keys| + (|rows| - 1) * |keys|;
    }
  }

  /** An INSERT keeps its columns and its number of rows. */
  lemma InsertSame(p: Plan, v: nat -> Value, k: nat)
    requires p.Insert?
    ensures var q := Revalued(p, v, k);
            && |q.rows| == |p.rows| && InsertKeys(q.rows) == InsertKeys(p.rows)
            && |RowsValues(q.rows, InsertKeys(q.rows))| == |RowsValues(p.rows, InsertKeys(p.rows))|
            && |Values(ConflictRecord(q.onConflict))| == |Values(ConflictRecord(p.onConflict))|
            && forall n: nat, d :: ConflictTokens(q.onConflict, n, d) == ConflictTokens(p.onConflict, n, d)
  {
    var q, keys := Revalued(p, v, k), InsertKeys(p.rows);
    RowsSame(|p.rows|, keys, v, k);
    assert q.rows != [] ==> InsertKeys(q.rows) == Keys(q.rows[0]);
    RowsCount(p.rows, keys);
    RowsCount(q.rows, keys);
    if p.onConflict.Some? && p.onConflict.value.assignments.Some? {
      RecordSame(p.onConflict.value.assignments.value, v, k + |RowsValues(p.rows, keys)|);
    }
  }

  lemma {:induction false} FilterCountSame(f: Filter, v: nat -> Value, k: nat)
    ensures |FilterValues(RevaluedFilter(f, v, k))| == |FilterValues(f)|
    ensures |FilterText(RevaluedFilter(f, v, k))| == |FilterText(f)|
  {
    match f
    case Compare(_, _, _) =>
    case And(fs) => FiltersCountSame(fs, v, k);
    case Or(fs) => FiltersCountSame(fs, v, k);
    case Subquery(_, _, p) => PlanCountSame(p, v, k);
  }

  lemma {:induction false} FiltersCountSame(fs: seq<Filter>, v: nat -> Value, k: nat)
    ensures |FiltersValues(RevaluedFilters(fs, v, k))| == |FiltersValues(fs)|
    ensures |FiltersText(RevaluedFilters(fs, v, k))| == |FiltersText(fs)|
  {
    FiltersStep(fs, v, k);
    hide RevaluedFilters, RevaluedFilter, FilterValues, FilterText;
    if fs != [] {
      FilterCountSame(fs[0], v, k);
      FiltersCountSame(fs[1..], v, k + FilterSize(fs[0]));
    }
  }

  lemma {:induction false} BranchCountSame(b: Branch, v: nat -> Value, k: nat)
    ensures |BranchValues(RevaluedBranch(b, v, k))| == |BranchValues(b)|
    ensures |BranchText(RevaluedBranch(b, v, k))| == |BranchText(b)|
  {
    PlanCountSame(b.query, v, k);
  }

  lemma {:induction false} BranchesCountSame(bs: seq<Branch>, v: nat -> Value, k: nat)
    ensures |BranchesValues(RevaluedBranches(bs, v, k))| == |BranchesValues(bs)|
    ensures |BranchesText(RevaluedBranches(bs, v, k))| == |BranchesText(bs)|
  {
    BranchesStep(bs, v, k);
    hide RevaluedBranches, RevaluedBranch, BranchValues, BranchText;
    if bs != [] {
      BranchCountSame(bs[0], v, k);
      BranchesCountSame(bs[1..], v, k + BranchSize(bs[0]));
    }
  }

  /** The clauses of a revalued SELECT push and print as many values. */
  lemma {:induction false} SelectCountSame(p: Plan, v: nat -> Value, k: nat)
    requires p.Select?
    ensures var q := RevaluedSelect(p, v, k);
            && |JsonValues(q.jsonOps)| == |JsonValues(p.jsonOps)| && |FromValues(q.from)| == |FromValues(p.from)|
            && |FromText(q)| == |FromText(p)| && |FtsValues(q.fts)| == |FtsValues(p.fts)|
            && |FiltersValues(q.filters)| == |FiltersValues(p.filters)|
            && |FiltersText(q.filters)| == |FiltersText(p.filters)|
            && |RawValues(q.rawFilters)| == |RawValues(p.rawFilters)|
            && |RawsText(q.rawFilters)| == |RawsText(p.rawFilters)|
            && |FiltersValues(q.having)| == |FiltersValues(p.having)|
            && |FiltersText(q.having)| == |FiltersText(p.having)|
            && |BranchesValues(q.unions)| == |BranchesValues(p.unions)|
            && |BranchesText(q.unions)| == |BranchesText(p.unions)|
            && |BranchesValues(q.ctes)| == |BranchesValues(p.ctes)|
            && |BranchesText(q.ctes)| == |BranchesText(p.ctes)|
    decreases p, 0
  {
    hide JsonValues, FiltersValues, FiltersText, RawValues, RawsText, BranchesValues, BranchesText, PlanValues,
        PlanText;
    JsonCountSame(p.jsonOps, v, k);
    FiltersCountSame(p.filters, v, FiltersAt(p, k));
    RawsSame(p.rawFilters, v, RawsAt(p, k));
    FiltersCountSame(p.having, v, HavingAt(p, k));
    BranchesCountSame(p.unions, v, UnionsAt(p, k));
    BranchesCountSame(p.ctes, v, CtesAt(p, k));
    if p.from.FromPlan? {
      PlanCountSame(p.from.query, v, FromAt(p, k));
    }
  }

  lemma SelectCounted(p: Plan)
    requires p.Select?
    ensures |PlanValues(p)| ==
            if p.deny then 0
            else
              |JsonValues(p.jsonOps)| + |FromValues(p.from)| + |FtsValues(p.fts)| + |FiltersValues(p.filters)| +
              |RawValues(p.rawFilters)| + |FiltersValues(p.having)| + |BranchesValues(p.unions)| +
              |BranchesValues(p.ctes)|
    ensures |PlanText(p)| ==
            if p.deny then |JsonValues(p.jsonOps)|
            else
              |BranchesText(p.ctes)| + |JsonValues(p.jsonOps)| + |FromText(p)| + |FiltersText(p.filters)| +
              |RawsText(p.rawFilters)| + |FtsValues(p.fts)| + |FiltersText(p.having)| + |BranchesText(p.unions)|
  {
    hide JsonValues, FiltersValues, FiltersText, RawValues, RawsText, BranchesValues, BranchesText, FromText;
  }

  lemma {:induction false} WriteCountSame(p: Plan, v: nat -> Value, k: nat)
    requires p.Update? || p.Delete?
    ensures |PlanValues(Revalued(p, v, k))| == |PlanValues(p)| && |PlanText(Revalued(p, v, k))| == |PlanText(p)|
    decreases p, 0
  {
    hide FiltersValues, FiltersText, RawValues, RawsText, RevaluedFilters, RevaluedRaws;
    var n := if p.Update? then |p.assignments| else 0;
    FiltersCountSame(p.filters, v, k + n);
    RawsSame(p.rawFilters, v, k + n + FiltersSize(p.filters));
  }

  lemma {:induction false} PlanCountSame(p: Plan, v: nat -> Value, k: nat)
    ensures |PlanValues(Revalued(p, v, k))| == |PlanValues(p)| && |PlanText(Revalued(p, v, k))| == |PlanText(p)|
    decreases p, 1
  {
    if p.Select? {
      SelectCountSame(p, v, k);
      SelectCounted(p);
      SelectCounted(Revalued(p, v, k));
    } else if p.Insert? {
      InsertSame(p, v, k);
    } else {
      WriteCountSame(p, v, k);
    }
  }

  lemma {:induction false} FilterPrintsSame(f: Filter, v: nat -> Value, k: nat, n: nat, d: Dialect)
    ensures FilterTokens(RevaluedFilter(f, v, k), n, d) == FilterTokens(f, n, d)
  {
    match f
    case Compare(_, _, _) =>
    case And(fs) => FiltersPrintSame(fs, v, k, AND, false, n, d);
    case Or(fs) => FiltersPrintSame(fs, v, k, OR, false, n, d);
    case Subquery(_, _, p) => PlanPrintsSame(p, v, k, [], d);
  }

  lemma FiltersUnfold(fs: seq<Filter>, sep: Tok, lead: bool, n: nat, d: Dialect)
    requires fs != []
    ensures FiltersTokens(fs, sep, lead, n, d) ==
            (if lead then [sep] else []) + FilterTokens(fs[0], n, d) +
            FiltersTokens(fs[1..], sep, true, n + |FilterValues(fs[0])|, d)
  {
    hide FilterTokens, FilterValues;
  }

  lemma {:induction false} FiltersPrintSame(fs: seq<Filter>, v: nat -> Value, k: nat, sep: Tok, lead: bool, n: nat,
                                            d: Dialect)
    ensures RevaluedFilters(fs, v, k) == [] <==> fs == []
    ensures FiltersTokens(RevaluedFilters(fs, v, k), sep, lead, n, d) == FiltersTokens(fs, sep, lead, n, d)
    decreases fs, 0
  {
    FiltersStep(fs, v, k);
    hide FiltersTokens, FilterTokens, FilterValues, RevaluedFilters, RevaluedFilter;
    if fs != [] {
      var r := RevaluedFilters(fs, v, k);
      FilterPrintsSame(fs[0], v, k, n, d);
      FilterCountSame(fs[0], v, k);
      FiltersPrintSame(fs[1..], v, k + FilterSize(fs[0]), sep, true, n + |FilterValues(fs[0])|, d);
      FiltersUnfold(r, sep, lead, n, d);
      FiltersUnfold(fs, sep, lead, n, d);
    }
  }

  lemma {:induction false} BranchPrintsSame(b: Branch, v: nat -> Value, k: nat, n: nat, inherited: seq<string>,
                                            d: Dialect)
    ensures BranchTokens(RevaluedBranch(b, v, k), n, inherited, d) == BranchTokens(b, n, inherited, d)
  {
    PlanPrintsSame(b.query, v, k, if b.UnionBranch? then inherited else [], d);
  }

  lemma BranchesUnfold(bs: seq<Branch>, sep: seq<Tok>, lead: bool, n: nat, inherited: seq<string>, d: Dialect)
    requires bs != []
    ensures BranchesTokens(bs, sep, lead, n, inherited, d) ==
            (if lead then sep else []) + BranchTokens(bs[0], n, inherited, d) +
            BranchesTokens(bs[1..], sep, true, n + |BranchValues(bs[0])|, inherited, d)
  {
    hide BranchTokens, BranchValues;
  }

  lemma {:induction false} BranchesPrintSame(bs: seq<Branch>, v: nat -> Value, k: nat, sep: seq<Tok>, lead: bool,
                                             n: nat, inherited: seq<string>, d: Dialect)
    ensures RevaluedBranches(bs, v, k) == [] <==> bs == []
    ensures BranchesTokens(RevaluedBranches(bs, v, k), sep, lead, n, inherited, d) ==
            BranchesTokens(bs, sep, lead, n, inherited, d)
    decreases bs, 0
  {
    BranchesStep(bs, v, k);
    hide BranchesTokens, BranchTokens, BranchValues, RevaluedBranches, RevaluedBranch;
    if bs != [] {
      var r := RevaluedBranches(bs, v, k);
      BranchPrintsSame(bs[0], v, k, n, inherited, d);
      BranchCountSame(bs[0], v, k);
      BranchesPrintSame(bs[1..], v, k + BranchSize(bs[0]), sep, true, n + |BranchValues(bs[0])|, inherited, d);
      BranchesUnfold(r, sep, lead, n, inherited, d);
      BranchesUnfold(bs, sep, lead, n, inherited, d);
    }
  }

  /** The clauses of a SELECT find the parameter counter where they did. */
  lemma StartsSame(p: Plan, v: nat -> Value, k: nat)
    requires p.Select?
    ensures var q := RevaluedSelect(p, v, k);
            && WhereStart(q) == WhereStart(p) && HavingStart(q) == HavingStart(p) && UnionStart(q) == UnionStart(p)
            && WithStart(q) == WithStart(p) && FtsStart(q) == FtsStart(p)
            && Numbered.RawStart(q) == Numbered.RawStart(p)
  {
    hide JsonValues, FiltersValues, RawValues, BranchesValues, FromValues;
    SelectCountSame(p, v, k);
  }

  lemma ItemsPrintSame(p: Plan, v: nat -> Value, k: nat, columns: seq<string>, d: Dialect)
    requires p.Select?
    ensures ItemTokens(RevaluedSelect(p, v, k), columns, d) == ItemTokens(p, columns, d)
  {
    hide JsonTokens, RevaluedJson, Separated;
    JsonPrintsSame(p.jsonOps, v, k, columns != [] || p.windows != [], 0, d);
  }

  lemma {:induction false} FromPrintsSame(p: Plan, v: nat -> Value, k: nat, d: Dialect)
    requires p.Select?
    ensures FromTokens(RevaluedSelect(p, v, k), d) == FromTokens(p, d)
    decreases p, -1
  {
    hide PlanTokens;
    if p.from.FromPlan? {
      PlanPrintsSame(p.from.query, v, FromAt(p, k), [], d);
    }
  }

  lemma SearchPrintsSame(p: Plan, v: nat -> Value, k: nat, n: nat, d: Dialect)
    requires p.Select? && (RevaluedSelect(p, v, k).filters == [] <==> p.filters == [])
    ensures FtsTokens(RevaluedSelect(p, v, k), n, d) == FtsTokens(p, n, d)
  {
  }

  lemma {:induction false} WherePrintsSame(fs: seq<Filter>, raws: seq<RawFilter>, v: nat -> Value, k: nat, m: nat,
                                           n: nat, d: Dialect)
    ensures RevaluedFilters(fs, v, k) == [] <==> fs == []
    ensures WhereTokens(RevaluedFilters(fs, v, k), RevaluedRaws(raws, v, m), n, d) == WhereTokens(fs, raws, n, d)
    decreases fs, 1
  {
    hide FiltersTokens, RawClauses, RevaluedFilters, RevaluedRaws;
    FiltersPrintSame(fs, v, k, AND, false, n, d);
    RawsSame(raws, v, m);
  }

  lemma {:induction false} MiddlePrintsSame(p: Plan, v: nat -> Value, k: nat, d: Dialect)
    requires p.Select?
    ensures MiddleTokens(RevaluedSelect(p, v, k), d) == MiddleTokens(p, d)
    decreases p, -1
  {
    hide FiltersTokens, WhereTokens, FtsTokens, WhereStart, HavingStart, RevaluedFilters, RevaluedRaws, JsonValues,
        FromValues, JoinClause, GroupClause, TailClause;
    StartsSame(p, v, k);
    SelectCountSame(p, v, k);
    WherePrintsSame(p.filters, p.rawFilters, v, FiltersAt(p, k), RawsAt(p, k), WhereStart(p), d);
    FiltersPrintSame(p.having, v, HavingAt(p, k), AND, false, HavingStart(p), d);
    SearchPrintsSame(p, v, k, FtsStart(p), d);
  }

  lemma {:induction false} SelectPrintsSame(p: Plan, v: nat -> Value, k: nat, inherited: seq<string>, d: Dialect)
    requires p.Select?
    ensures SelectTokens(RevaluedSelect(p, v, k), inherited, d) == SelectTokens(p, inherited, d)
    decreases p, 0
  {
    hide BranchesTokens, UnionStart, WithStart, RevaluedBranches, ItemTokens, FromTokens, MiddleTokens;
    StartsSame(p, v, k);
    ItemsPrintSame(p, v, k, EffectiveColumns(p, inherited), d);
    FromPrintsSame(p, v, k, d);
    MiddlePrintsSame(p, v, k, d);
    BranchesPrintSame(p.unions, v, UnionsAt(p, k), [], false, UnionStart(p), EffectiveColumns(p, inherited), d);
    BranchesPrintSame(p.ctes, v, CtesAt(p, k), [COMMA], false, WithStart(p), [], d);
  }

  lemma InsertPrintsSame(p: Plan, v: nat -> Value, k: nat, inherited: seq<string>, d: Dialect)
    requires p.Insert?
    ensures PlanTokens(Revalued(p, v, k), inherited, d) == PlanTokens(p, inherited, d)
  {
    hide RowsTokens, RowsValues, InsertKeys, ConflictTokens, RevaluedRows, RevaluedConflict;
    InsertSame(p, v, k);
  }

  lemma {:induction false} WritePrintsSame(p: Plan, v: nat -> Value, k: nat, inherited: seq<string>, d: Dialect)
    requires p.Update? || p.Delete?
    ensures PlanTokens(Revalued(p, v, k), inherited, d) == PlanTokens(p, inherited, d)
    decreases p, 0
  {
    hide WhereTokens, AssignmentTokens, RevaluedFilters, RevaluedRaws, RevaluedRecord;
    var n := if p.Update? then |p.assignments| else 0;
    WherePrintsSame(p.filters, p.rawFilters, v, k + n, k + n + FiltersSize(p.filters), n, d);
    if p.Update? {
      RecordSame(p.assignments, v, k);
    }
  }

  /** The compiled text depends on the shape only: whatever the values, it is the same statement. */
  lemma {:induction false} PlanPrintsSame(p: Plan, v: nat -> Value, k: nat, inherited: seq<string>, d: Dialect)
    ensures PlanTokens(Revalued(p, v, k), inherited, d) == PlanTokens(p, inherited, d)
    decreases p, 1
  {
    if p.Select? {
      SelectPrintsSame(p, v, k, inherited, d);
    } else if p.Insert? {
      InsertPrintsSame(p, v, k, inherited, d);
    } else {
      WritePrintsSame(p, v, k, inherited, d);
    }
  }

  // ---- which shapes are in the fragments ----

  lemma {:induction false} FilterOrderedSame(f: Filter, v: nat -> Value, k: nat)
    ensures Positional.OrderedFilter(RevaluedFilter(f, v, k)) <==> Positional.OrderedFilter(f)
  {
    match f
    case Compare(_, _, _) =>
    case And(fs) => FiltersOrderedSame(fs, v, k);
    case Or(fs) => FiltersOrderedSame(fs, v, k);
    case Subquery(_, _, p) => OrderedSame(p, v, k);
  }

  lemma {:induction false} FiltersOrderedSame(fs: seq<Filter>, v: nat -> Value, k: nat)
    ensures Positional.OrderedFilters(RevaluedFilters(fs, v, k)) <==> Positional.OrderedFilters(fs)
  {
    FiltersStep(fs, v, k);
    hide RevaluedFilters, RevaluedFilter, Positional.OrderedFilter;
    if fs != [] {
      FilterOrderedSame(fs[0], v, k);
      FiltersOrderedSame(fs[1..], v, k + FilterSize(fs[0]));
    }
  }

  lemma {:induction false} BranchOrderedSame(b: Branch, v: nat -> Value, k: nat)
    ensures Positional.OrderedBranch(RevaluedBranch(b, v, k)) <==> Positional.OrderedBranch(b)
  {
    OrderedSame(b.query, v, k);
  }

  lemma {:induction false} BranchesOrderedSame(bs: seq<Branch>, v: nat -> Value, k: nat)
    ensures Positional.OrderedBranches(RevaluedBranches(bs, v, k)) <==> Positional.OrderedBranches(bs)
  {
    BranchesStep(bs, v, k);
    hide RevaluedBranches, RevaluedBranch, Positional.OrderedBranch;
    if bs != [] {
      BranchOrderedSame(bs[0], v, k);
      BranchesOrderedSame(bs[1..], v, k + BranchSize(bs[0]));
    }
  }

  lemma {:induction false} RawsOrderedSame(raws: seq<RawFilter>, v: nat -> Value, k: nat)
    ensures Positional.OrderedRaws(RevaluedRaws(raws, v, k)) <==> Positional.OrderedRaws(raws)
  {
    RawsStep(raws, v, k);
    hide RevaluedRaws;
    if raws != [] {
      RawsOrderedSame(raws[1..], v, k + |raws[0].params|);
    }
  }

  lemma {:induction false} SelectOrderedSame(p: Plan, v: nat -> Value, k: nat)
    requires p.Select?
    ensures Positional.Ordered(RevaluedSelect(p, v, k)) <==> Positional.Ordered(p)
    decreases p, 0
  {
    hide Positional.OrderedFilters, Positional.OrderedBranches, Positional.OrderedRaws, RevaluedFilters,
        RevaluedBranches, RevaluedJson, RevaluedRaws, JsonValues, FiltersValues, RawValues, BranchesValues, PlanValues;
    SelectCountSame(p, v, k);
    FiltersOrderedSame(p.filters, v, FiltersAt(p, k));
    RawsOrderedSame(p.rawFilters, v, RawsAt(p, k));
    FiltersOrderedSame(p.having, v, HavingAt(p, k));
    BranchesOrderedSame(p.unions, v, UnionsAt(p, k));
    BranchesOrderedSame(p.ctes, v, CtesAt(p, k));
    if p.from.FromPlan? {
      OrderedSame(p.from.query, v, FromAt(p, k));
    }
    MainCount(p);
    MainCount(RevaluedSelect(p, v, k));
  }

  lemma MainCount(p: Plan)
    requires p.Select?
    ensures |MainValues(p)| ==
            |JsonValues(p.jsonOps)| + |FromValues(p.from)| + |FtsValues(p.fts)| + |FiltersValues(p.filters)| +
            |RawValues(p.rawFilters)| + |FiltersValues(p.having)| + |BranchesValues(p.unions)|
  {
    hide JsonValues, FiltersValues, RawValues, BranchesValues, FromValues;
  }

  lemma {:induction false} OrderedSame(p: Plan, v: nat -> Value, k: nat)
    ensures Positional.Ordered(Revalued(p, v, k)) <==> Positional.Ordered(p)
    decreases p, 1
  {
    if p.Select? {
      SelectOrderedSame(p, v, k);
    } else if !p.Insert? {
      var n := if p.Update? then |p.assignments| else 0;
      FiltersOrderedSame(p.filters, v, k + n);
      RawsOrderedSame(p.rawFilters, v, k + n + FiltersSize(p.filters));
    }
  }

  lemma {:induction false} EmbeddedSame(p: Plan, v: nat -> Value, k: nat, n: nat)
    ensures Numbered.EmbeddedOk(Revalued(p, v, k), n) <==> Numbered.EmbeddedOk(p, n)
    decreases p, 2
  {
    PlanCountSame(p, v, k);
    NumberableSame(p, v, k);
  }

  lemma {:induction false} FilterNumberableSame(f: Filter, v: nat -> Value, k: nat, n: nat)
    ensures Numbered.NumberableFilter(RevaluedFilter(f, v, k), n) <==> Numbered.NumberableFilter(f, n)
  {
    match f
    case Compare(_, _, _) =>
    case And(fs) => FiltersNumberableSame(fs, v, k, n);
    case Or(fs) => FiltersNumberableSame(fs, v, k, n);
    case Subquery(_, _, p) => EmbeddedSame(p, v, k, n);
  }

  lemma {:induction false} FiltersNumberableSame(fs: seq<Filter>, v: nat -> Value, k: nat, n: nat)
    ensures Numbered.NumberableFilters(RevaluedFilters(fs, v, k), n) <==> Numbered.NumberableFilters(fs, n)
  {
    FiltersStep(fs, v, k);
    hide RevaluedFilters, RevaluedFilter, Numbered.NumberableFilter, FilterValues;
    if fs != [] {
      FilterCountSame(fs[0], v, k);
      FilterNumberableSame(fs[0], v, k, n);
      FiltersNumberableSame(fs[1..], v, k + FilterSize(fs[0]), n + |FilterValues(fs[0])|);
    }
  }

  lemma {:induction false} BranchNumberableSame(b: Branch, v: nat -> Value, k: nat, n: nat)
    ensures Numbered.NumberableBranch(RevaluedBranch(b, v, k), n) <==> Numbered.NumberableBranch(b, n)
  {
    NumberableSame(b.query, v, k);
    EmbeddedSame(b.query, v, k, n);
  }

  lemma {:induction false} BranchesNumberableSame(bs: seq<Branch>, v: nat -> Value, k: nat, n: nat)
    ensures Numbered.NumberableBranches(RevaluedBranches(bs, v, k), n) <==> Numbered.NumberableBranches(bs, n)
  {
    BranchesStep(bs, v, k);
    hide RevaluedBranches, RevaluedBranch, Numbered.NumberableBranch, BranchValues;
    if bs != [] {
      BranchCountSame(bs[0], v, k);
      BranchNumberableSame(bs[0], v, k, n);
      BranchesNumberableSame(bs[1..], v, k + BranchSize(bs[0]), n + |BranchValues(bs[0])|);
    }
  }

  lemma {:induction false} RawsNumberableSame(raws: seq<RawFilter>, v: nat -> Value, k: nat, n: nat)
    ensures Numbered.NumberableRaws(RevaluedRaws(raws, v, k), n) <==> Numbered.NumberableRaws(raws, n)
  {
    RawsStep(raws, v, k);
    hide RevaluedRaws;
    if raws != [] {
      RawsNumberableSame(raws[1..], v, k + |raws[0].params|, n + |raws[0].params|);
    }
  }

  lemma {:induction false} SelectNumberableSame(p: Plan, v: nat -> Value, k: nat)
    requires p.Select?
    ensures Numbered.Numberable(RevaluedSelect(p, v, k)) <==> Numbered.Numberable(p)
    decreases p, 0
  {
    hide Numbered.NumberableFilters, Numbered.NumberableBranches, Numbered.NumberableRaws, Numbered.EmbeddedOk,
        RevaluedFilters, RevaluedBranches, RevaluedJson, RevaluedRaws, JsonValues, WhereStart, HavingStart, UnionStart,
        WithStart, Numbered.RawStart;
    StartsSame(p, v, k);
    JsonCountSame(p.jsonOps, v, k);
    FiltersNumberableSame(p.filters, v, FiltersAt(p, k), WhereStart(p));
    RawsNumberableSame(p.rawFilters, v, RawsAt(p, k), Numbered.RawStart(p));
    FiltersNumberableSame(p.having, v, HavingAt(p, k), HavingStart(p));
    BranchesNumberableSame(p.unions, v, UnionsAt(p, k), UnionStart(p));
    BranchesNumberableSame(p.ctes, v, CtesAt(p, k), WithStart(p));
    if p.from.FromPlan? {
      EmbeddedSame(p.from.query, v, FromAt(p, k), |JsonValues(p.jsonOps)|);
    }
  }

  lemma {:induction false} WriteNumberableSame(p: Plan, v: nat -> Value, k: nat)
    requires p.Update? || p.Delete?
    ensures Numbered.Numberable(Revalued(p, v, k)) <==> Numbered.Numberable(p)
    decreases p, 0
  {
    hide Numbered.NumberableFilters, Numbered.NumberableRaws, RevaluedFilters, RevaluedRaws, FiltersValues;
    var n := if p.Update? then |p.assignments| else 0;
    FiltersCountSame(p.filters, v, k + n);
    FiltersNumberableSame(p.filters, v, k + n, n);
    RawsNumberableSame(p.rawFilters, v, k + n + FiltersSize(p.filters), Numbered.RawStart(p));
  }

  lemma {:induction false} NumberableSame(p: Plan, v: nat -> Value, k: nat)
    ensures Numbered.Numberable(Revalued(p, v, k)) <==> Numbered.Numberable(p)
    decreases p, 1
  {
    if p.Select? {
      SelectNumberableSame(p, v, k);
    } else if !p.Insert? {
      WriteNumberableSame(p, v, k);
    }
  }

  /** Renumbering looks at the text, and the text is the same. */
  lemma TameSame(p: Plan, v: nat -> Value, k: nat, inherited: seq<string>)
    ensures TamePlan(Revalued(p, v, k), inherited) <==> TamePlan(p, inherited)
  {
    hide TamePlan, Revalued, PlanTokens;
    PlanPrintsSame(p, v, k, inherited, Postgres);
    PlanPrintsSame(p, v, k, inherited, Sqlite);
    Dialects.ErasedPostgresIsSqlite(p, inherited);
    Dialects.ErasedPostgresIsSqlite(Revalued(p, v, k), inherited);
  }

  // ---- values that are told apart ----

  function Numerals(): nat -> Value {
    (n: nat) => Num(n)
  }

  /** Increasing numbers from k up to m, m excluded. */
  predicate Rising(vs: seq<Value>, k: nat, m: nat) {
    && k <= m
    && (forall i | 0 <= i < |vs| :: vs[i].Num? && k <= vs[i].n < m)
    && (forall i, j | 0 <= i < j < |vs| :: vs[i].n < vs[j].n)
  }

  lemma RisingDistinct(vs: seq<Value>, k: nat, m: nat)
    requires Rising(vs, k, m)
    ensures Distinct(vs)
  {
  }

  lemma RisingPair(a: seq<Value>, b: seq<Value>, k: nat, m: nat, l: nat)
    requires Rising(a, k, m) && Rising(b, m, l)
    ensures Rising(a + b, k, l)
  {
    var c := a + b;
    forall i | 0 <= i < |c| ensures c[i].Num? && k <= c[i].n < l {
      assert c[i] == if i < |a| then a[i] else b[i - |a|];
    }
    forall i, j | 0 <= i < j < |c| ensures c[i].n < c[j].n {
      assert c[i] == if i < |a| then a[i] else b[i - |a|];
      assert c[j] == if j < |a| then a[j] else b[j - |a|];
    }
  }

  lemma RisingWider(vs: seq<Value>, k: nat, m: nat, l: nat)
    requires Rising(vs, k, m) && m <= l
    ensures Rising(vs, k, l)
  {
  }

  lemma NothingRises(k: nat)
    ensures Rising([], k, k)
  {
  }

  lemma DrawnRises(k: nat, count: nat)
    ensures Rising(Drawn(Numerals(), k, count), k, k + count)
  {
  }

  lemma RecordRises(r: Record, k: nat)
    ensures Rising(Values(RevaluedRecord(r, Numerals(), k)), k, k + |r|)
  {
  }

  lemma {:induction false} JsonRises(ops: seq<JsonOp>, k: nat)
    ensures Rising(JsonValues(RevaluedJson(ops, Numerals(), k)), k, k + |JsonValues(ops)|)
  {
    JsonStep(ops, Numerals(), k);
    hide RevaluedJson;
    if ops != [] {
      var n, ops' := |JsonOpValues(ops[0])|, RevaluedJson(ops, Numerals(), k);
      JsonRises(ops[1..], k + n);
      assert Rising(JsonOpValues(ops'[0]), k, k + n);
      RisingPair(JsonOpValues(ops'[0]), JsonValues(ops'[1..]), k, k + n, k + |JsonValues(ops)|);
    }
  }

  lemma {:induction false} RawsRise(raws: seq<RawFilter>, k: nat)
    ensures Rising(RawValues(RevaluedRaws(raws, Numerals(), k)), k, k + |RawValues(raws)|)
  {
    RawsStep(raws, Numerals(), k);
    hide RevaluedRaws;
    if raws != [] {
      var n := |raws[0].params|;
      var rest := RevaluedRaws(raws[1..], Numerals(), k + n);
      DrawnRises(k, n);
      RawsRise(raws[1..], k + n);
      RisingPair(Drawn(Numerals(), k, n), RawValues(rest), k, k + n, k + |RawValues(raws)|);
    }
  }

  lemma {:induction false} RowsRise(rows: seq<Record>, keys: seq<string>, k: nat)
    ensures Rising(RowsAll(RevaluedRows(|rows|, keys, Numerals(), k), keys), k, k + |RowsValues(rows, keys)|)
  {
    if rows != [] {
      var rows', n := RevaluedRows(|rows|, keys, Numerals(), k), |keys|;
      RowsRise(rows[1..], keys, k + n);
      assert rows'[1..] == RevaluedRows(|rows| - 1, keys, Numerals(), k + n);
      assert Keys(rows'[0]) == keys;
      assert RowAll(rows'[0], keys) == Drawn(Numerals(), k, n);
      DrawnRises(k, n);
      RisingPair(RowAll(rows'[0], keys), RowsAll(rows'[1..], keys), k, k + n, k + |RowsValues(rows, keys)|);
    }
  }

  lemma CompareRises(f: Filter, k: nat)
    requires f.Compare?
    ensures Rising(FilterValues(RevaluedFilter(f, Numerals(), k)), k, k + |FilterValues(f)|)
  {
  }

  lemma {:induction false} FilterRises(f: Filter, k: nat)
    ensures Rising(FilterAll(RevaluedFilter(f, Numerals(), k)), k, k + FilterSize(f))
  {
    hide Rising, Revalued, RevaluedFilters, PlanAll, FiltersAll, FilterValues;
    match f
    case Compare(_, _, _) => CompareRises(f, k);
    case And(fs) => FiltersRise(fs, k);
    case Or(fs) => FiltersRise(fs, k);
    case Subquery(_, _, p) => PlanRises(p, k);
  }

  lemma {:induction false} FiltersRise(fs: seq<Filter>, k: nat)
    ensures Rising(FiltersAll(RevaluedFilters(fs, Numerals(), k)), k, k + FiltersSize(fs))
  {
    FiltersStep(fs, Numerals(), k);
    hide RevaluedFilters, Rising, RevaluedFilter, FilterAll;
    if fs == [] {
      NothingRises(k);
    } else {
      var m, fs' := k + FilterSize(fs[0]), RevaluedFilters(fs, Numerals(), k);
      FilterRises(fs[0], k);
      FiltersRise(fs[1..], m);
      RisingPair(FilterAll(fs'[0]), FiltersAll(fs'[1..]), k, m, k + FiltersSize(fs));
    }
  }

  lemma {:induction false} BranchRises(b: Branch, k: nat)
    ensures Rising(BranchAll(RevaluedBranch(b, Numerals(), k)), k, k + BranchSize(b))
  {
    PlanRises(b.query, k);
  }

  lemma {:induction false} BranchesRise(bs: seq<Branch>, k: nat)
    ensures Rising(BranchesAll(RevaluedBranches(bs, Numerals(), k)), k, k + BranchesSize(bs))
  {
    BranchesStep(bs, Numerals(), k);
    hide RevaluedBranches, Rising, RevaluedBranch, BranchAll;
    if bs == [] {
      NothingRises(k);
    } else {
      var m, bs' := k + BranchSize(bs[0]), RevaluedBranches(bs, Numerals(), k);
      BranchRises(bs[0], k);
      BranchesRise(bs[1..], m);
      RisingPair(BranchAll(bs'[0]), BranchesAll(bs'[1..]), k, m, k + BranchesSize(bs));
    }
  }

  lemma {:induction false} SelectRises(p: Plan, k: nat)
    requires p.Select? && !p.deny
    ensures Rising(PlanAll(RevaluedSelect(p, Numerals(), k)), k, CtesAt(p, k) + BranchesSize(p.ctes))
    decreases p, 0
  {
    hide Rising, JsonValues, FiltersAll, RawValues, BranchesAll, RevaluedFilters, RevaluedRaws, RevaluedBranches,
        RevaluedJson, FiltersSize, BranchesSize;
    var q := RevaluedSelect(p, Numerals(), k);
    var j, f, s := JsonValues(q.jsonOps), FromAll(q.from), FtsValues(q.fts);
    var w, r, h, u := FiltersAll(q.filters), RawValues(q.rawFilters), FiltersAll(q.having), BranchesAll(q.unions);
    JsonRises(p.jsonOps, k);
    FromRises(p, k);
    RisingPair(j, f, k, FromAt(p, k), FtsAt(p, k));
    SearchRises(p, k);
    RisingPair(j + f, s, k, FtsAt(p, k), FiltersAt(p, k));
    FiltersRise(p.filters, FiltersAt(p, k));
    RisingPair(j + f + s, w, k, FiltersAt(p, k), RawsAt(p, k));
    RawsRise(p.rawFilters, RawsAt(p, k));
    RisingPair(j + f + s + w, r, k, RawsAt(p, k), HavingAt(p, k));
    FiltersRise(p.having, HavingAt(p, k));
    RisingPair(j + f + s + w + r, h, k, HavingAt(p, k), UnionsAt(p, k));
    BranchesRise(p.unions, UnionsAt(p, k));
    RisingPair(j + f + s + w + r + h, u, k, UnionsAt(p, k), CtesAt(p, k));
    BranchesRise(p.ctes, CtesAt(p, k));
    RisingPair(j + f + s + w + r + h + u, BranchesAll(q.ctes), k, CtesAt(p, k), CtesAt(p, k) + BranchesSize(p.ctes));
  }

  lemma {:induction false} FromRises(p: Plan, k: nat)
    requires p.Select?
    ensures Rising(FromAll(RevaluedFrom(p.from, Numerals(), FromAt(p, k))), FromAt(p, k), FtsAt(p, k))
    decreases p, -1
  {
    if p.from.FromPlan? {
      PlanRises(p.from.query, FromAt(p, k));
    }
  }

  lemma SearchRises(p: Plan, k: nat)
    requires p.Select?
    ensures Rising(FtsValues(RevaluedFts(p.fts, Numerals(), FtsAt(p, k))), FtsAt(p, k), FiltersAt(p, k))
  {
  }

  lemma InsertRises(p: Plan, k: nat)
    requires p.Insert?
    ensures Rising(PlanAll(Revalued(p, Numerals(), k)), k, k + PlanSize(p))
  {
    var q, keys := Revalued(p, Numerals(), k), InsertKeys(p.rows);
    var m := k + |RowsValues(p.rows, keys)|;
    InsertSame(p, Numerals(), k);
    RowsRise(p.rows, keys, k);
    if p.onConflict.Some? && p.onConflict.value.assignments.Some? {
      RecordRises(p.onConflict.value.assignments.value, m);
    }
    RisingPair(RowsAll(q.rows, keys), Values(ConflictRecord(q.onConflict)), k, m, k + PlanSize(p));
  }

  lemma {:induction false} WriteRises(p: Plan, k: nat)
    requires p.Update? || p.Delete?
    ensures Rising(PlanAll(Revalued(p, Numerals(), k)), k, k + PlanSize(p))
    decreases p, 0
  {
    hide Rising, FiltersAll, RawValues, RevaluedFilters, RevaluedRaws, FiltersSize;
    var q, n := Revalued(p, Numerals(), k), if p.Update? then |p.assignments| else 0;
    var m := k + n + FiltersSize(p.filters);
    FiltersRise(p.filters, k + n);
    RawsRise(p.rawFilters, m);
    if p.Update? {
      RecordRises(p.assignments, k);
      RisingPair(Values(q.assignments), FiltersAll(q.filters), k, k + n, m);
      RisingPair(Values(q.assignments) + FiltersAll(q.filters), RawValues(q.rawFilters), k, m, k + PlanSize(p));
    } else {
      RisingPair(FiltersAll(q.filters), RawValues(q.rawFilters), k, m, k + PlanSize(p));
    }
  }

  lemma {:induction false} PlanRises(p: Plan, k: nat)
    ensures Rising(PlanAll(Revalued(p, Numerals(), k)), k, k + PlanSize(p))
    decreases p, 1
  {
    hide Rising, JsonValues;
    if p.Select? {
      SizeFrom(p, k);
      if p.deny {
        JsonRises(p.jsonOps, k);
        RisingWider(JsonValues(Revalued(p, Numerals(), k).jsonOps), k, FromAt(p, k), k + PlanSize(p));
      } else {
        SelectRises(p, k);
      }
    } else if p.Insert? {
      InsertRises(p, k);
    } else {
      WriteRises(p, k);
    }
  }

  lemma SizeFrom(p: Plan, k: nat)
    requires p.Select?
    ensures FromAt(p, k) <= CtesAt(p, k) + BranchesSize(p.ctes) == k + PlanSize(p)
  {
    assert FtsAt(p, k) == k + FtsAt(p, 0);
    assert RawsAt(p, k) == k + RawsAt(p, 0);
    assert UnionsAt(p, k) == k + UnionsAt(p, 0);
  }

  // ---- main results ----

  /** In the positional dialects a statement binds rightly whatever its values exactly when its shape
      is ordered. */
  lemma ShapeBindsByPosition(p: Plan, inherited: seq<string>, d: Dialect)
    requires !d.Postgres?
    ensures (forall v: nat -> Value :: BindsPositionally(Revalued(p, v, 0), inherited, d)) <==> Positional.Ordered(p)
  {
    hide BindsPositionally, Positional.Ordered, Revalued, PlanAll;
    forall v: nat -> Value | Positional.Ordered(p) ensures BindsPositionally(Revalued(p, v, 0), inherited, d) {
      OrderedSame(p, v, 0);
      Positional.OrderedPlansBind(Revalued(p, v, 0), inherited, d);
    }
    var q := Revalued(p, Numerals(), 0);
    PlanRises(p, 0);
    RisingDistinct(PlanAll(q), 0, PlanSize(p));
    OrderedSame(p, Numerals(), 0);
    Positional.BindsExactlyWhenOrdered(q, inherited, d);
  }

  /** In the numbered dialect it does exactly when its shape is numberable and the renumbering of its
      UNION branches meets placeholders only. */
  lemma ShapeBindsByNumber(p: Plan, inherited: seq<string>)
    ensures (forall v: nat -> Value :: BindsByNumber(Revalued(p, v, 0), inherited)) <==>
            Numbered.Numberable(p) && TamePlan(p, inherited)
  {
    hide BindsByNumber, Numbered.Numberable, TamePlan, Revalued, PlanAll;
    forall v: nat -> Value | Numbered.Numberable(p) && TamePlan(p, inherited)
      ensures BindsByNumber(Revalued(p, v, 0), inherited)
    {
      NumberableSame(p, v, 0);
      TameSame(p, v, 0, inherited);
      NumberedNecessary.NumberablePlansBind(Revalued(p, v, 0), inherited);
    }
    var q := Revalued(p, Numerals(), 0);
    PlanRises(p, 0);
    RisingDistinct(PlanAll(q), 0, PlanSize(p));
    NumberableSame(p, Numerals(), 0);
    TameSame(p, Numerals(), 0, inherited);
    NumberedNecessary.BindsExactlyWhenNumberable(q, inherited);
  }
}
