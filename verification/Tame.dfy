/** Plans whose UNION branches come through the textual renumbering unharmed. */
module Tame {
  import opened Rewriting
  import opened Plans
  import opened Emission
  import opened Reference

  predicate TameTok(t: Tok, k: nat) {
    (t.Opaque? ==> TameText(t.s, k)) && (t.Ident? ==> TameText(t.id, k))
  }

  /** No name and no raw text that is printed has a number behind a `$`; behind no parameters a
      number without leading zeros does no harm. */
  predicate TameTokens(ts: seq<Tok>, k: nat) {
    forall t | t in ts :: TameTok(t, k)
  }

  predicate TameFilter(f: Filter) {
    match f
    case Compare(_, _, _) => true
    case And(fs) => TameFilters(fs)
    case Or(fs) => TameFilters(fs)
    case Subquery(_, _, p) => TamePlan(p, [])
  }

  predicate TameFilters(fs: seq<Filter>) {
    fs == [] || (TameFilter(fs[0]) && TameFilters(fs[1..]))
  }

  /** Only the text of a UNION branch is rewritten, after the k parameters before it. */
  predicate TameBranch(b: Branch, k: nat, inherited: seq<string>) {
    match b
    case UnionBranch(_, q) => TamePlan(q, inherited) && TameTokens(RefPlan(q, inherited, true), k)
    case WithQuery(_, _, q) => TamePlan(q, [])
  }

  predicate TameBranches(bs: seq<Branch>, k: nat, inherited: seq<string>) {
    bs == [] || (TameBranch(bs[0], k, inherited) && TameBranches(bs[1..], k + |BranchValues(bs[0])|, inherited))
  }

  predicate TameFrom(p: Plan)
    requires p.Select?
    decreases p, 0
  {
    p.from.FromPlan? && !IsFts5(p.fts) ==> TamePlan(p.from.query, [])
  }

  /** In every UNION branch that is printed, at any depth, the expression finds placeholders only. */
  predicate TamePlan(p: Plan, inherited: seq<string>)
    decreases p, 1
  {
    if p.Select? then
      p.deny ||
      (&& TameBranches(p.ctes, WithStart(p), []) && TameFrom(p)
       && TameFilters(p.filters) && TameFilters(p.having)
       && TameBranches(p.unions, UnionStart(p), EffectiveColumns(p, inherited)))
    else p.Insert? || TameFilters(p.filters)
  }
}
