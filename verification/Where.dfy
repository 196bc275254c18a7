/** What a WHERE clause means once its values are in place, in three-valued logic. */
module Where {
  import opened Wrappers
  import opened Plans
  import opened Reference
  import opened Reading

  // ---- three-valued truth ----

  datatype Truth = True | False | Unknown

  function Both(a: Truth, b: Truth): Truth {
    if a.False? || b.False? then False else if a.Unknown? || b.Unknown? then Unknown else True
  }

  function Either(a: Truth, b: Truth): Truth {
    if a.True? || b.True? then True else if a.Unknown? || b.Unknown? then Unknown else False
  }

  function ExprTruth(e: Expr, sem: Atom -> Truth): Truth {
    match e
    case Test(atom) => sem(atom)
    case Group(alternatives) => SomeTruth(alternatives, sem)
  }

  function AllTruth(es: seq<Expr>, sem: Atom -> Truth): Truth {
    if es == [] then True else Both(ExprTruth(es[0], sem), AllTruth(es[1..], sem))
  }

  function SomeTruth(alternatives: seq<AndList>, sem: Atom -> Truth): Truth {
    if alternatives == [] then False
    else Either(AllTruth(alternatives[0].factors, sem), SomeTruth(alternatives[1..], sem))
  }

  /** The truth of a filter tree, by its own structure. */
  function FilterTruth(f: Filter, sem: Atom -> Truth, r: bool): Truth {
    match f
    case Compare(c, op, v) => sem(AtomOf(c, op, v))
    case And(fs) => EveryTruth(fs, sem, r)
    case Or(fs) => AnyTruth(fs, sem, r)
    case Subquery(c, op, p) => sem(PlanTest(op, if op.Exists? || op.NotExists? then "" else c, RefPlan(p, [], r)))
  }

  function EveryTruth(fs: seq<Filter>, sem: Atom -> Truth, r: bool): Truth {
    if fs == [] then True else Both(FilterTruth(fs[0], sem, r), EveryTruth(fs[1..], sem, r))
  }

  function AnyTruth(fs: seq<Filter>, sem: Atom -> Truth, r: bool): Truth {
    if fs == [] then False else Either(FilterTruth(fs[0], sem, r), AnyTruth(fs[1..], sem, r))
  }

  function RawTruth(raws: seq<RawFilter>, sem: Atom -> Truth): Truth {
    if raws == [] then True
    else Both(SomeTruth(RawTree(raws[0].expr, raws[0].params), sem), RawTruth(raws[1..], sem))
  }

  // ---- what the clause means ----

  lemma {:induction false} ExprMeans(f: Filter, sem: Atom -> Truth, r: bool)
    ensures ExprTruth(ExprOf(f, r), sem) == FilterTruth(f, sem, r)
    decreases f, 1
  {
    match f
    case Compare(_, _, _) =>
    case Subquery(_, _, _) =>
    case And(fs) =>
      AndMeans(fs, sem, r);
      assert SomeTruth([AndList(ExprsOf(fs, r))], sem) == Either(AllTruth(ExprsOf(fs, r), sem), SomeTruth([], sem));
    case Or(fs) => OrMeans(fs, sem, r);
  }

  lemma {:induction false} AndMeans(fs: seq<Filter>, sem: Atom -> Truth, r: bool)
    ensures AllTruth(ExprsOf(fs, r), sem) == EveryTruth(fs, sem, r)
    decreases fs, 0
  {
    if fs != [] {
      ExprMeans(fs[0], sem, r);
      AndMeans(fs[1..], sem, r);
      assert ExprsOf(fs, r)[1..] == ExprsOf(fs[1..], r);
    }
  }

  lemma {:induction false} OrMeans(fs: seq<Filter>, sem: Atom -> Truth, r: bool)
    ensures SomeTruth(Singles(fs, r), sem) == AnyTruth(fs, sem, r)
    decreases fs, 0
  {
    if fs != [] {
      ExprMeans(fs[0], sem, r);
      OrMeans(fs[1..], sem, r);
      assert Singles(fs, r)[1..] == Singles(fs[1..], r);
      assert AllTruth([ExprOf(fs[0], r)], sem) == Both(ExprTruth(ExprOf(fs[0], r), sem), AllTruth([], sem));
    }
  }

  lemma {:induction false} AllTruthConcat(a: seq<Expr>, b: seq<Expr>, sem: Atom -> Truth)
    ensures AllTruth(a + b, sem) == Both(AllTruth(a, sem), AllTruth(b, sem))
  {
    if a == [] {
      assert a + b == b;
    } else {
      assert (a + b)[1..] == a[1..] + b;
      AllTruthConcat(a[1..], b, sem);
    }
  }

  /** A raw expression without OR at its top level. */
  predicate Conjunctive(e: RawExpr) {
    match e
    case Factor(_) => true
    case AndThen(_, others) => Conjunctive(others)
    case OrThen(_, _) => false
  }

  predicate AllConjunctive(raws: seq<RawFilter>) {
    raws == [] || (Conjunctive(raws[0].expr) && AllConjunctive(raws[1..]))
  }

  lemma {:induction false} TreeWidth(e: RawExpr, ps: seq<Value>)
    ensures |RawTree(e, ps)| == 1 <==> Conjunctive(e)
  {
    if !e.Factor? {
      TreeWidth(e.others, ps);
    }
  }

  lemma SomeTruthOne(x: AndList, sem: Atom -> Truth)
    ensures SomeTruth([x], sem) == AllTruth(x.factors, sem)
  {
    assert SomeTruth([x], sem) == Either(AllTruth(x.factors, sem), SomeTruth([], sem));
  }

  /** The intended meaning: every filter and every raw filter, each taken as a whole. */
  function Intended(fs: seq<Filter>, raws: seq<RawFilter>, sem: Atom -> Truth, r: bool): Truth {
    Both(EveryTruth(fs, sem, r), RawTruth(raws, sem))
  }

  predicate AllSingle(parts: seq<seq<AndList>>) {
    forall i | 0 <= i < |parts| :: |parts[i]| == 1
  }

  function PartsTruth(parts: seq<seq<AndList>>, sem: Atom -> Truth): Truth {
    if parts == [] then True else Both(SomeTruth(parts[0], sem), PartsTruth(parts[1..], sem))
  }

  lemma {:induction false} SpliceMeans(parts: seq<seq<AndList>>, sem: Atom -> Truth)
    requires parts != [] && NonEmpty(parts) && AllSingle(parts)
    ensures |SpliceAll(parts)| == 1 && SomeTruth(SpliceAll(parts), sem) == PartsTruth(parts, sem)
  {
    if |parts| == 1 {
      assert parts[1..] == [];
    } else {
      SpliceMeans(parts[1..], sem);
      SpliceSingle(parts[0][0], SpliceAll(parts[1..])[0], sem);
      assert parts[0] == [parts[0][0]] && SpliceAll(parts[1..]) == [SpliceAll(parts[1..])[0]];
    }
  }

  lemma SpliceSingle(x: AndList, y: AndList, sem: Atom -> Truth)
    ensures Splice([x], [y]) == [AndList(x.factors + y.factors)]
    ensures SomeTruth(Splice([x], [y]), sem) == Both(SomeTruth([x], sem), SomeTruth([y], sem))
  {
    AllTruthConcat(x.factors, y.factors, sem);
    SomeTruthOne(x, sem);
    SomeTruthOne(y, sem);
    SomeTruthOne(AndList(x.factors + y.factors), sem);
  }

  lemma {:induction false} PartsMean(fs: seq<Filter>, raws: seq<RawFilter>, sem: Atom -> Truth, r: bool)
    requires AllConjunctive(raws)
    ensures AllSingle(Parts(fs, raws, r))
    ensures PartsTruth(Parts(fs, raws, r), sem) == Intended(fs, raws, sem, r)
  {
    if fs != [] {
      PartsStep(fs, raws, r);
      ExprMeans(fs[0], sem, r);
      var e := ExprOf(fs[0], r);
      SomeTruthOne(AndList([e]), sem);
      assert AllTruth([e], sem) == Both(ExprTruth(e, sem), AllTruth([], sem));
      PartsMean(fs[1..], raws, sem, r);
    } else if raws != [] {
      RawPartsStep(raws, r);
      TreeWidth(raws[0].expr, raws[0].params);
      PartsMean([], raws[1..], sem, r);
    }
  }

  /** The truth of the conditions on a row, if they can be read at all; without any every row passes. */
  function EmittedTruth(fs: seq<Filter>, raws: seq<RawFilter>, sem: Atom -> Truth, r: bool): Option<Truth> {
    if fs == [] && raws == [] then Some(True)
    else
      var read := ReadAlternatives(Conditions(fs, raws, r));
      if read.Failed? || read.rest != [] then None else Some(SomeTruth(read.value, sem))
  }

  lemma ConditionsAlone(fs: seq<Filter>, raws: seq<RawFilter>, r: bool)
    requires fs != [] || raws != []
    ensures NonEmpty(Parts(fs, raws, r)) && Parts(fs, raws, r) != []
    ensures ReadAlternatives(Conditions(fs, raws, r)) ==
            if AllReadable(fs) then Parsed(SpliceAll(Parts(fs, raws, r)), []) else Failed
  {
    hide ReadAlternatives, Conditions;
    ConditionsRead(fs, raws, r);
    assert Conditions(fs, raws, r) + [] == Conditions(fs, raws, r);
  }

  /** Full-text search opens a WHERE clause of its own behind the one of the raw filters exactly when
      these stand alone. */
  lemma SecondWhere(p: Plan, r: bool)
    requires p.Select?
    ensures RefWhere(p.filters, p.rawFilters, r) != [] && RefFts(p) != [] && RefFts(p)[0] == Text(" WHERE ")
            <==> p.fts.Some? && p.filters == [] && p.rawFilters != []
  {
    if RefFts(p) != [] {
      assert RefFts(p)[0] == if p.filters == [] then Text(" WHERE ") else AND;
      assert AND != Text(" WHERE ") by {
        assert |" AND "| != |" WHERE "|;
      }
    }
  }

  /** Whatever the row and the meaning of the tests: a clause without empty groups, whose raw
      filters have no OR at their top level, holds exactly when all its filters do. */
  lemma WhereMeans(fs: seq<Filter>, raws: seq<RawFilter>, sem: Atom -> Truth, r: bool)
    requires AllReadable(fs) && AllConjunctive(raws)
    ensures EmittedTruth(fs, raws, sem, r) == Some(Intended(fs, raws, sem, r))
  {
    if fs != [] || raws != [] {
      ConditionsAlone(fs, raws, r);
      PartsMean(fs, raws, sem, r);
      SpliceMeans(Parts(fs, raws, r), sem);
    }
  }

  /** True of every raw factor and of a search, false of every test a filter makes. */
  function RawOnly(): Atom -> Truth {
    (a: Atom) => if a.RawFactor? || a.Search? then True else False
  }

  predicate RawFactorsOnly(alternatives: seq<AndList>) {
    forall i | 0 <= i < |alternatives| :: forall j | 0 <= j < |alternatives[i].factors| ::
      alternatives[i].factors[j].Test? && alternatives[i].factors[j].atom.RawFactor?
  }

  lemma {:induction false} RawTreeOnly(e: RawExpr, ps: seq<Value>)
    ensures RawFactorsOnly(RawTree(e, ps))
  {
    if !e.Factor? {
      RawTreeOnly(e.others, ps);
    }
  }

  lemma {:induction false} RawsOnly(raws: seq<RawFilter>, r: bool)
    requires raws != [] && NonEmpty(Parts([], raws, r)) && Parts([], raws, r) != []
    ensures RawFactorsOnly(SpliceAll(Parts([], raws, r)))
    ensures |SpliceAll(Parts([], raws, r))| == 1 <==> AllConjunctive(raws)
  {
    RawPartsStep(raws, r);
    RawTreeOnly(raws[0].expr, raws[0].params);
    TreeWidth(raws[0].expr, raws[0].params);
    if |raws| > 1 {
      RawsRead(raws[1..], r);
      RawsOnly(raws[1..], r);
      hide RawTree, Conjunctive, RawFactorsOnly, NonEmpty, Splice, Reads;
      SpliceOnly(RawTree(raws[0].expr, raws[0].params), SpliceAll(Parts([], raws[1..], r)));
    } else {
      assert raws[1..] == [];
    }
  }

  lemma SpliceOnly(a: seq<AndList>, b: seq<AndList>)
    requires a != [] && b != [] && RawFactorsOnly(a) && RawFactorsOnly(b)
    ensures RawFactorsOnly(Splice(a, b)) && (|Splice(a, b)| == 1 <==> |a| == 1 && |b| == 1)
  {
  }

  lemma {:induction false} RawFactorsHold(es: seq<Expr>)
    requires forall j | 0 <= j < |es| :: es[j].Test? && es[j].atom.RawFactor?
    ensures AllTruth(es, RawOnly()) == True
  {
    if es != [] {
      RawFactorsHold(es[1..]);
    }
  }

  lemma {:induction false} RawAlternativesHold(alternatives: seq<AndList>)
    requires RawFactorsOnly(alternatives) && alternatives != []
    ensures SomeTruth(alternatives, RawOnly()) == True
  {
    RawFactorsHold(alternatives[0].factors);
  }

  lemma {:induction false} FilterFails(f: Filter, r: bool)
    requires Readable(f)
    ensures FilterTruth(f, RawOnly(), r) == False
    decreases f, 1
  {
    match f
    case Compare(_, _, _) =>
    case Subquery(_, _, _) =>
    case And(fs) => FilterFails(fs[0], r);
    case Or(fs) => AnyFails(fs, r);
  }

  lemma {:induction false} AnyFails(fs: seq<Filter>, r: bool)
    requires AllReadable(fs)
    ensures AnyTruth(fs, RawOnly(), r) == False
    decreases fs, 0
  {
    if fs != [] {
      FilterFails(fs[0], r);
      AnyFails(fs[1..], r);
    }
  }

  /** The alternatives after the first all stem from raw filters. */
  lemma {:induction false} LaterAlternatives(fs: seq<Filter>, raws: seq<RawFilter>, r: bool)
    requires raws != [] && NonEmpty(Parts(fs, raws, r)) && Parts(fs, raws, r) != []
    ensures var all := SpliceAll(Parts(fs, raws, r));
            RawFactorsOnly(all[1..]) && (|all| == 1 <==> AllConjunctive(raws))
  {
    if fs == [] {
      RawsOnly(raws, r);
    } else {
      PartsStep(fs, raws, r);
      ConditionsRead(fs[1..], raws, r);
      LaterAlternatives(fs[1..], raws, r);
      var first, others := AndList([ExprOf(fs[0], r)]), SpliceAll(Parts(fs[1..], raws, r));
      SpliceHead(first, others);
    }
  }

  /** With at least one filter present, the emitted clause means the conjunction under every
      truth assignment exactly when no raw filter has an OR at its top level: the compiler does
      not put raw filters in parentheses. For raw filters alone `WhereMeans` is all there is to say:
      there an OR at the top level may do no harm, as in `a OR b` beside `a`. */
  lemma ConjunctionExactly(fs: seq<Filter>, raws: seq<RawFilter>, r: bool)
    requires fs != [] && AllReadable(fs)
    ensures (forall sem: Atom -> Truth :: EmittedTruth(fs, raws, sem, r) == Some(Intended(fs, raws, sem, r)))
            <==> AllConjunctive(raws)
  {
    if AllConjunctive(raws) {
      forall sem: Atom -> Truth ensures EmittedTruth(fs, raws, sem, r) == Some(Intended(fs, raws, sem, r)) {
        WhereMeans(fs, raws, sem, r);
      }
    } else {
      var sem := RawOnly();
      ConditionsAlone(fs, raws, r);
      LaterAlternatives(fs, raws, r);
      var all := SpliceAll(Parts(fs, raws, r));
      RawAlternativesHold(all[1..]);
      FilterFails(fs[0], r);
      assert SomeTruth(all, sem) == Either(AllTruth(all[0].factors, sem), SomeTruth(all[1..], sem));
      assert EmittedTruth(fs, raws, sem, r) == Some(True) && Intended(fs, raws, sem, r) == False;
    }
  }

  // ---- filters added by a builder ----

  lemma {:induction false} EveryTruthConcat(fs: seq<Filter>, gs: seq<Filter>, sem: Atom -> Truth, r: bool)
    ensures EveryTruth(fs + gs, sem, r) == Both(EveryTruth(fs, sem, r), EveryTruth(gs, sem, r))
  {
    if fs == [] {
      assert fs + gs == gs;
    } else {
      assert (fs + gs)[1..] == fs[1..] + gs;
      EveryTruthConcat(fs[1..], gs, sem, r);
    }
  }

  lemma {:induction false} ReadableConcat(fs: seq<Filter>, gs: seq<Filter>)
    ensures AllReadable(fs + gs) <==> AllReadable(fs) && AllReadable(gs)
  {
    if fs == [] {
      assert fs + gs == gs;
    } else {
      assert (fs + gs)[1..] == fs[1..] + gs;
      ReadableConcat(fs[1..], gs);
    }
  }

  /** `where` and `withFilters` append to the filter list of the plan. */
  function WithFilters(fs: seq<Filter>, added: seq<Filter>): seq<Filter> {
    if added == [] then fs else fs + added
  }

  /** A row passes the narrowed query exactly when it passes the old one and the added filters. */
  lemma FiltersIntersect(fs: seq<Filter>, added: seq<Filter>, raws: seq<RawFilter>, sem: Atom -> Truth, r: bool)
    requires AllReadable(fs) && AllReadable(added) && AllConjunctive(raws)
    ensures EmittedTruth(WithFilters(fs, added), raws, sem, r) == Some(True) <==>
            EmittedTruth(fs, raws, sem, r) == Some(True) && EmittedTruth(added, [], sem, r) == Some(True)
  {
    ReadableConcat(fs, added);
    EveryTruthConcat(fs, added, sem, r);
    WhereMeans(fs + added, raws, sem, r);
    WhereMeans(fs, raws, sem, r);
    WhereMeans(added, [], sem, r);
  }

  /** The builders `and(...)` and `or(...)`: a single filter stands for itself. */
  function AndOf(fs: seq<Filter>): Filter {
    if |fs| == 1 then fs[0] else And(fs)
  }

  function OrOf(fs: seq<Filter>): Filter {
    if |fs| == 1 then fs[0] else Or(fs)
  }

  lemma BuildersMean(fs: seq<Filter>, sem: Atom -> Truth, r: bool)
    ensures FilterTruth(AndOf(fs), sem, r) == EveryTruth(fs, sem, r)
    ensures FilterTruth(OrOf(fs), sem, r) == AnyTruth(fs, sem, r)
  {
    if |fs| == 1 {
      assert EveryTruth(fs[1..], sem, r) == True && AnyTruth(fs[1..], sem, r) == False;
    }
  }

  // ---- which rows pass ----

  /** What makes a filter tree true on a row. */
  predicate Passes(f: Filter, sem: Atom -> Truth, r: bool) {
    match f
    case Compare(c, op, v) => sem(AtomOf(c, op, v)).True?
    case And(fs) => forall i | 0 <= i < |fs| :: Passes(fs[i], sem, r)
    case Or(fs) => exists i | 0 <= i < |fs| :: Passes(fs[i], sem, r)
    case Subquery(c, op, p) =>
      sem(PlanTest(op, if op.Exists? || op.NotExists? then "" else c, RefPlan(p, [], r))).True?
  }

  /** What makes it false; what does neither leaves it unknown. */
  predicate Refuses(f: Filter, sem: Atom -> Truth, r: bool) {
    match f
    case Compare(c, op, v) => sem(AtomOf(c, op, v)).False?
    case And(fs) => exists i | 0 <= i < |fs| :: Refuses(fs[i], sem, r)
    case Or(fs) => forall i | 0 <= i < |fs| :: Refuses(fs[i], sem, r)
    case Subquery(c, op, p) =>
      sem(PlanTest(op, if op.Exists? || op.NotExists? then "" else c, RefPlan(p, [], r))).False?
  }

  lemma {:induction false} TruthIs(f: Filter, sem: Atom -> Truth, r: bool)
    ensures FilterTruth(f, sem, r).True? <==> Passes(f, sem, r)
    ensures FilterTruth(f, sem, r).False? <==> Refuses(f, sem, r)
    decreases f, 0
  {
    match f
    case And(fs) => EveryIs(fs, sem, r);
    case Or(fs) => AnyIs(fs, sem, r);
    case _ =>
  }

  lemma {:induction false} EveryIs(fs: seq<Filter>, sem: Atom -> Truth, r: bool)
    ensures EveryTruth(fs, sem, r).True? <==> forall i | 0 <= i < |fs| :: Passes(fs[i], sem, r)
    ensures EveryTruth(fs, sem, r).False? <==> exists i | 0 <= i < |fs| :: Refuses(fs[i], sem, r)
    decreases fs, 1
  {
    if fs != [] {
      TruthIs(fs[0], sem, r);
      EveryIs(fs[1..], sem, r);
      assert forall i | 0 < i < |fs| :: fs[i] == fs[1..][i - 1];
      hide Passes, Refuses, FilterTruth;
    }
  }

  lemma {:induction false} AnyIs(fs: seq<Filter>, sem: Atom -> Truth, r: bool)
    ensures AnyTruth(fs, sem, r).True? <==> exists i | 0 <= i < |fs| :: Passes(fs[i], sem, r)
    ensures AnyTruth(fs, sem, r).False? <==> forall i | 0 <= i < |fs| :: Refuses(fs[i], sem, r)
    decreases fs, 1
  {
    if fs != [] {
      TruthIs(fs[0], sem, r);
      AnyIs(fs[1..], sem, r);
      assert forall i | 0 < i < |fs| :: fs[i] == fs[1..][i - 1];
      hide Passes, Refuses, FilterTruth;
    }
  }

  /** One of the alternatives of a raw expression has all its factors true. */
  predicate RawPasses(alternatives: seq<AndList>, sem: Atom -> Truth) {
    exists k | 0 <= k < |alternatives| :: FactorsPass(alternatives[k].factors, sem)
  }

  predicate FactorsPass(factors: seq<Expr>, sem: Atom -> Truth) {
    forall j | 0 <= j < |factors| && factors[j].Test? :: sem(factors[j].atom).True?
  }

  lemma {:induction false} FactorsAre(factors: seq<Expr>, sem: Atom -> Truth)
    requires forall j | 0 <= j < |factors| :: factors[j].Test?
    ensures AllTruth(factors, sem).True? <==> FactorsPass(factors, sem)
  {
    if factors != [] {
      FactorsAre(factors[1..], sem);
      assert forall j | 0 < j < |factors| :: factors[j] == factors[1..][j - 1];
    }
  }

  lemma {:induction false} AlternativesAre(alternatives: seq<AndList>, sem: Atom -> Truth)
    requires RawFactorsOnly(alternatives)
    ensures SomeTruth(alternatives, sem).True? <==> RawPasses(alternatives, sem)
  {
    if alternatives != [] {
      FactorsAre(alternatives[0].factors, sem);
      AlternativesAre(alternatives[1..], sem);
      assert forall k | 0 < k < |alternatives| :: alternatives[k] == alternatives[1..][k - 1];
      hide FactorsPass, AllTruth;
    }
  }

  lemma {:induction false} RawsAre(raws: seq<RawFilter>, sem: Atom -> Truth)
    ensures RawTruth(raws, sem).True? <==>
            forall i | 0 <= i < |raws| :: RawPasses(RawTree(raws[i].expr, raws[i].params), sem)
  {
    if raws != [] {
      RawTreeOnly(raws[0].expr, raws[0].params);
      AlternativesAre(RawTree(raws[0].expr, raws[0].params), sem);
      RawsAre(raws[1..], sem);
      assert forall i | 0 < i < |raws| :: raws[i] == raws[1..][i - 1];
      hide RawPasses, RawTree, SomeTruth;
    }
  }

  /** A clause without empty groups and raw ORs lets a row through exactly when the row passes every
      filter and every raw filter: of an AND all parts, of an OR one. */
  lemma RowPasses(fs: seq<Filter>, raws: seq<RawFilter>, sem: Atom -> Truth, r: bool)
    requires AllReadable(fs) && AllConjunctive(raws)
    ensures EmittedTruth(fs, raws, sem, r) == Some(True) <==>
            && (forall i | 0 <= i < |fs| :: Passes(fs[i], sem, r))
            && (forall i | 0 <= i < |raws| :: RawPasses(RawTree(raws[i].expr, raws[i].params), sem))
  {
    WhereMeans(fs, raws, sem, r);
    EveryIs(fs, sem, r);
    RawsAre(raws, sem);
    hide EmittedTruth, EveryTruth, RawTruth, Passes, RawPasses, RawTree, AllReadable, AllConjunctive;
  }
}
