/** Reading a WHERE clause back once its values are in place: a reader that gives AND precedence over
    OR, and the tree it finds in every clause that the reference rendering prints. */
module Reading {
  import opened Wrappers
  import opened Plans
  import opened Reference
  import Balance

  /** A condition on one row. Its truth is supplied from outside, for any row and any database. */
  datatype Atom =
    | Comparison(column: string, op: Comparator, value: Value)
    | Membership(column: string, values: seq<Value>)
    | Interval(column: string, low: Value, high: Value)
    | PlanTest(subOp: SubqueryOp, column: string, statement: seq<Tok>)
    | RawFactor(text: seq<Tok>)
    | Search(condition: seq<Tok>)

  /** A parenthesised group is an OR-list of AND-lists. */
  datatype Expr = Test(atom: Atom) | Group(alternatives: seq<AndList>)
  datatype AndList = AndList(factors: seq<Expr>)

  datatype Parsed<+T> = Failed | Parsed(value: T, rest: seq<Tok>)

  // ---- the reader ----

  const MATCH: Tok := Text(" MATCH ")

  /** The reader knows SQL by its text; it shares no table with the compiler. */
  function SimpleOp(t: Tok): Option<Comparator> {
    if t == Text(" = ") then Some(Eq) else if t == Text(" > ") then Some(Gt)
    else if t == Text(" < ") then Some(Lt) else if t == Text(" >= ") then Some(Ge)
    else if t == Text(" <= ") then Some(Le) else if t == Text(" != ") then Some(Ne)
    else if t == Text(" LIKE ") then Some(Like) else if t == Text(" IS ") then Some(Is)
    else if t == Text(" IS NOT ") then Some(IsNot) else None
  }

  /** The place of the parenthesis that closes `depth` open ones. */
  function ClosingAt(ts: seq<Tok>, depth: nat): (r: Option<nat>)
    ensures r.Some? ==> r.value < |ts|
  {
    if ts == [] then None
    else if ts[0] == Text(")") && depth == 0 then Some(0)
    else
      var next := ClosingAt(ts[1..], if ts[0] == Text("(") then depth + 1
                                     else if ts[0] == Text(")") then depth - 1 else depth);
      if next.None? then None else Some(next.value + 1)
  }

  function ReadStatement(op: SubqueryOp, column: string, ts: seq<Tok>): (r: Parsed<Expr>)
    ensures r.Parsed? ==> |r.rest| < |ts|
  {
    if ts == [] || ts[0] != Text("(") then Failed
    else
      var close := ClosingAt(ts[1..], 0);
      if close.None? then Failed
      else Parsed(Test(PlanTest(op, column, ts[1..][..close.value])), ts[1..][close.value + 1..])
  }

  /** Values separated by commas up to the closing parenthesis; `lead` asks for a comma first. */
  function ReadValues(ts: seq<Tok>, lead: bool): (r: Parsed<seq<Value>>)
    ensures r.Parsed? ==> |r.rest| < |ts|
    decreases |ts|
  {
    if ts == [] then Failed
    else if ts[0] == Text(")") then Parsed([], ts[1..])
    else if lead then if ts[0] != Text(", ") then Failed else ReadValue(ts[1..])
    else ReadValue(ts)
  }

  function ReadValue(ts: seq<Tok>): (r: Parsed<seq<Value>>)
    ensures r.Parsed? ==> |r.rest| < |ts|
    decreases |ts|, 0
  {
    if ts == [] || !ts[0].Lit? then Failed
    else
      var tail := ReadValues(ts[1..], true);
      if tail.Failed? then Failed else Parsed([ts[0].v] + tail.value, tail.rest)
  }

  /** How far raw text reaches, its own values included. */
  function RawRun(ts: seq<Tok>): (n: nat)
    ensures n <= |ts|
  {
    if ts == [] || !(ts[0].Opaque? || ts[0].Lit?) then 0 else 1 + RawRun(ts[1..])
  }

  /** A full-text condition over columns in parentheses, with its operator and its one value. */
  function ReadSearch(operator: Tok, ts: seq<Tok>): (r: Parsed<Expr>)
    ensures r.Parsed? ==> |r.rest| < |ts|
  {
    if |ts| < 2 || ts[1] != Text("(") then Failed
    else
      var close := ClosingAt(ts[2..], 0);
      if close.None? then Failed
      else
        var at := 3 + close.value;
        if |ts| >= at + 4 && ts[at..at + 2] == [operator, Text("(")] && ts[at + 2].Lit? &&
           ts[at + 3] == Text(")") then
          Parsed(Test(Search(ts[..at + 4])), ts[at + 4..])
        else Failed
  }

  /** What follows a column name. */
  function ReadTest(column: string, ts: seq<Tok>): (r: Parsed<Expr>)
    ensures r.Parsed? ==> |r.rest| < |ts|
  {
    if |ts| < 2 then Failed
    else if ts[0] == Text(" IN ") && ts[1] == Text("(") && |ts| > 2 && (ts[2].Lit? || ts[2] == Text(")")) then
      var values := ReadValues(ts[2..], false);
      if values.Failed? then Failed else Parsed(Test(Membership(column, values.value)), values.rest)
    else if ts[0] == Text(" IN ") then ReadStatement(InPlan, column, ts[1..])
    else if ts[0] == Text(" NOT IN ") then ReadStatement(NotInPlan, column, ts[1..])
    else if ts[0] == Text(" BETWEEN ") then
      if |ts| >= 4 && ts[1].Lit? && ts[2] == Text(" AND ") && ts[3].Lit? then
        Parsed(Test(Interval(column, ts[1].v, ts[3].v)), ts[4..])
      else Failed
    else if ts[0] == MATCH && ts[1].Lit? then Parsed(Test(Search([Ident(column), MATCH, ts[1]])), ts[2..])
    else if SimpleOp(ts[0]).Some? && ts[1].Lit? then
      Parsed(Test(Comparison(column, SimpleOp(ts[0]).value, ts[1].v)), ts[2..])
    else Failed
  }

  function ReadPrimary(ts: seq<Tok>): (r: Parsed<Expr>)
    ensures r.Parsed? ==> |r.rest| < |ts|
    decreases |ts|, 0
  {
    if ts == [] then Failed
    else if ts[0] == Text("(") then
      var inner := ReadAlternatives(ts[1..]);
      if inner.Parsed? && inner.rest != [] && inner.rest[0] == Text(")") then
        Parsed(Group(inner.value), inner.rest[1..])
      else Failed
    else if ts[0].Ident? then ReadTest(ts[0].id, ts[1..])
    else if ts[0] == Text("EXISTS ") then ReadStatement(Exists, "", ts[1..])
    else if ts[0] == Text("NOT EXISTS ") then ReadStatement(NotExists, "", ts[1..])
    else if ts[0] == Text("to_tsvector") then ReadSearch(Text(" @@ plainto_tsquery"), ts)
    else if ts[0] == Text("MATCH ") then ReadSearch(Text(" AGAINST "), ts)
    else if ts[0].Opaque? then
      if |ts| >= 3 && ts[1] == MATCH && ts[2].Lit? then Parsed(Test(Search(ts[..3])), ts[3..])
      else Parsed(Test(RawFactor(ts[..RawRun(ts)])), ts[RawRun(ts)..])
    else Failed
  }

  /** An AND-list. */
  function ReadFactors(ts: seq<Tok>): (r: Parsed<seq<Expr>>)
    ensures r.Parsed? ==> |r.rest| < |ts| && r.value != []
    decreases |ts|, 1
  {
    var first := ReadPrimary(ts);
    if first.Failed? then Failed
    else if first.rest != [] && first.rest[0] == Text(" AND ") then
      var others := ReadFactors(first.rest[1..]);
      if others.Failed? then Failed else Parsed([first.value] + others.value, others.rest)
    else Parsed([first.value], first.rest)
  }

  /** An OR-list of AND-lists. */
  function ReadAlternatives(ts: seq<Tok>): (r: Parsed<seq<AndList>>)
    ensures r.Parsed? ==> |r.rest| < |ts| && r.value != []
    decreases |ts|, 2
  {
    var first := ReadFactors(ts);
    if first.Failed? then Failed
    else if first.rest != [] && first.rest[0] == Text(" OR ") then
      var others := ReadAlternatives(first.rest[1..]);
      if others.Failed? then Failed else Parsed([AndList(first.value)] + others.value, others.rest)
    else Parsed([AndList(first.value)], first.rest)
  }

  function ReadSetOp(t: Tok): Option<SetOp> {
    if t == Text(" UNION ") then Some(Union) else if t == Text(" UNION ALL ") then Some(UnionAll)
    else if t == Text(" INTERSECT ") then Some(Intersect) else if t == Text(" EXCEPT ") then Some(Except) else None
  }

  /** The set operations behind a statement, each with the statement in its parentheses. */
  function ReadSetOps(ts: seq<Tok>): Option<seq<(SetOp, seq<Tok>)>>
    decreases |ts|
  {
    if ts == [] then Some([])
    else if |ts| < 2 || ReadSetOp(ts[0]).None? || ts[1] != Text("(") then None
    else
      var close := ClosingAt(ts[2..], 0);
      if close.None? then None
      else
        var others := ReadSetOps(ts[2..][close.value + 1..]);
        if others.None? then None
        else Some([(ReadSetOp(ts[0]).value, ts[2..][..close.value])] + others.value)
  }

  // ---- the trees the filters stand for ----

  /** An empty group or an IN test without a column cannot be read back. An empty IN list can be; it is
      what SQLite accepts. */
  predicate Readable(f: Filter) {
    match f
    case Compare(_, _, _) => true
    case And(fs) => fs != [] && AllReadable(fs)
    case Or(fs) => fs != [] && AllReadable(fs)
    case Subquery(column, op, _) => op.Exists? || op.NotExists? || column != ""
  }

  predicate AllReadable(fs: seq<Filter>) {
    fs == [] || (Readable(fs[0]) && AllReadable(fs[1..]))
  }

  /** A list test has the values of the array, BETWEEN its first two in that order; a value that is no
      array stands for both ends, and a missing end is undefined. */
  function AtomOf(c: string, op: Comparator, v: Value): Atom {
    match (op, v)
    case (In, Arr(vs)) => Membership(c, vs)
    case (In, _) => Membership(c, [v])
    case (Between, Arr(vs)) =>
      Interval(c, if vs == [] then Undefined else vs[0], if |vs| < 2 then Undefined else vs[1])
    case (Between, _) => Interval(c, v, v)
    case _ => Comparison(c, op, v)
  }

  function ExprOf(f: Filter, r: bool): Expr {
    match f
    case Compare(c, op, v) => Test(AtomOf(c, op, v))
    case And(fs) => Group([AndList(ExprsOf(fs, r))])
    case Or(fs) => Group(Singles(fs, r))
    case Subquery(c, op, p) => Test(PlanTest(op, if op.Exists? || op.NotExists? then "" else c, RefPlan(p, [], r)))
  }

  function ExprsOf(fs: seq<Filter>, r: bool): seq<Expr> {
    if fs == [] then [] else [ExprOf(fs[0], r)] + ExprsOf(fs[1..], r)
  }

  function Singles(fs: seq<Filter>, r: bool): seq<AndList> {
    if fs == [] then [] else [AndList([ExprOf(fs[0], r)])] + Singles(fs[1..], r)
  }

  /** `a AND b` read by precedence, when a and b are OR-lists written without parentheses:
      the last alternative of a and the first of b grow together. */
  function Splice(a: seq<AndList>, b: seq<AndList>): (c: seq<AndList>)
    requires a != [] && b != []
    ensures |c| == |a| + |b| - 1
  {
    a[..|a| - 1] + [AndList(a[|a| - 1].factors + b[0].factors)] + b[1..]
  }

  /** A raw factor with its own values in place. */
  function RawTest(text: RawText, params: seq<Value>): Expr {
    Test(RawFactor(RawTextTokens(text, ShownHole(params))))
  }

  /** A raw expression read by precedence. */
  function RawTree(e: RawExpr, params: seq<Value>): (c: seq<AndList>)
    ensures c != []
  {
    match e
    case Factor(text) => [AndList([RawTest(text, params)])]
    case AndThen(text, others) => Splice([AndList([RawTest(text, params)])], RawTree(others, params))
    case OrThen(text, others) => [AndList([RawTest(text, params)])] + RawTree(others, params)
  }

  /** The parts of a WHERE clause: one per filter, then one per raw filter. */
  function Parts(fs: seq<Filter>, raws: seq<RawFilter>, r: bool): seq<seq<AndList>> {
    if fs != [] then [[AndList([ExprOf(fs[0], r)])]] + Parts(fs[1..], raws, r)
    else if raws != [] then [RawTree(raws[0].expr, raws[0].params)] + Parts([], raws[1..], r)
    else []
  }

  predicate NonEmpty(parts: seq<seq<AndList>>) {
    forall i | 0 <= i < |parts| :: parts[i] != []
  }

  function SpliceAll(parts: seq<seq<AndList>>): (c: seq<AndList>)
    requires parts != [] && NonEmpty(parts)
    ensures c != []
  {
    if |parts| == 1 then parts[0] else Splice(parts[0], SpliceAll(parts[1..]))
  }

  // ---- reading back single filters ----

  lemma {:induction false} ValuesRead(vs: seq<Value>, lead: bool, rest: seq<Tok>)
    ensures ReadValues(Separated(Literals(vs), COMMA, lead) + [RP] + rest, lead) == Parsed(vs, rest)
  {
    var ts := Separated(Literals(vs), COMMA, lead) + [RP] + rest;
    if vs == [] {
      assert ts == [RP] + rest && ts[1..] == rest;
    } else {
      assert Literals(vs)[1..] == Literals(vs[1..]);
      var tail := Separated(Literals(vs[1..]), COMMA, true) + [RP] + rest;
      ValuesRead(vs[1..], true, rest);
      assert [Lit(vs[0])] + tail == if lead then ts[1..] else ts;
      assert ([Lit(vs[0])] + tail)[1..] == tail;
      assert ReadValue([Lit(vs[0])] + tail) == Parsed([vs[0]] + vs[1..], rest);
      assert [vs[0]] + vs[1..] == vs;
      if lead {
        assert ts[0] == COMMA;
      }
    }
  }

  /** Inside balanced text no parenthesis closes an outer one. */
  lemma {:induction false} ClosingAfter(ts: seq<Tok>, depth: nat, rest: seq<Tok>)
    requires Balance.Depth(ts, depth) >= 0
    ensures var after := ClosingAt(rest, Balance.Depth(ts, depth));
            ClosingAt(ts + rest, depth) == if after.None? then None else Some(|ts| + after.value)
  {
    if ts == [] {
      assert ts + rest == rest;
    } else {
      assert (ts + rest)[1..] == ts[1..] + rest;
      var next := if ts[0] == LP then depth + 1 else if ts[0] == RP then depth - 1 else depth;
      DepthStaysDown(ts[1..], next);
      ClosingAfter(ts[1..], next, rest);
    }
  }

  lemma DepthStaysDown(ts: seq<Tok>, depth: int)
    ensures depth < 0 ==> Balance.Depth(ts, depth) < 0
  {
  }

  lemma StatementRead(op: SubqueryOp, column: string, p: Plan, r: bool, rest: seq<Tok>)
    ensures ReadStatement(op, column, [LP] + RefPlan(p, [], r) + [RP] + rest) ==
            Parsed(Test(PlanTest(op, column, RefPlan(p, [], r))), rest)
  {
    var inner := RefPlan(p, [], r);
    var ts := [LP] + inner + [RP] + rest;
    Balance.PlanBalanced(p, [], r);
    assert Balance.Depth(inner, 0) == 0;
    ClosingAfter(inner, 0, [RP] + rest);
    assert ts[1..] == inner + ([RP] + rest);
    assert ClosingAt([RP] + rest, 0) == Some(0);
    assert ts[1..][..|inner|] == inner && ts[1..][|inner| + 1..] == rest;
  }

  /** A nested statement does not begin like a value list. */
  lemma StatementHead(p: Plan, r: bool)
    ensures var ts := RefPlan(p, [], r); ts != [] && !ts[0].Lit? && ts[0] != RP
  {
    if p.Select? && !p.deny {
      if p.ctes == [] {
        assert RefWith(p.ctes, r) == [];
        assert RefPlan(p, [], r)[0] == Text("SELECT ");
      } else {
        assert RefWith(p.ctes, r)[0] == Text("WITH ");
        assert RefPlan(p, [], r)[0] == Text("WITH ");
      }
    } else if p.Select? {
      assert RefPlan(p, [], r)[0] == Text("SELECT ");
    } else if p.Insert? {
      assert RefPlan(p, [], r)[0] == Text("INSERT INTO ");
    } else if p.Update? {
      assert RefPlan(p, [], r)[0] == Text("UPDATE ");
    } else {
      assert RefPlan(p, [], r)[0] == Text("DELETE FROM ");
    }
  }

  lemma CompareRead(c: string, op: Comparator, v: Value, r: bool, rest: seq<Tok>)
    ensures ReadPrimary(RefFilter(Compare(c, op, v), r) + rest) == Parsed(Test(AtomOf(c, op, v)), rest)
  {
    if op.In? {
      InRead(c, v, r, rest);
    } else if op.Between? {
      BetweenRead(c, v, r, rest);
    } else {
      SimpleRead(c, op, v, r, rest);
    }
  }

  lemma SimpleRead(c: string, op: Comparator, v: Value, r: bool, rest: seq<Tok>)
    requires !op.In? && !op.Between?
    ensures ReadPrimary(RefFilter(Compare(c, op, v), r) + rest) == Parsed(Test(AtomOf(c, op, v)), rest)
  {
    var ts := RefFilter(Compare(c, op, v), r) + rest;
    assert ts[0] == Ident(c) && ts[1..] == [OpText(op), Lit(v)] + rest;
    assert ts[1..][2..] == rest;
    OpIsRead(op);
    hide RefFilter, OpText, SubqueryText, SimpleOp;
    assert ReadTest(c, [OpText(op), Lit(v)] + rest) == Parsed(Test(Comparison(c, op, v)), rest);
  }

  /** Every simple operator is recognised, and mistaken for nothing else. */
  lemma OpIsRead(op: Comparator)
    requires !op.In? && !op.Between?
    ensures SimpleOp(OpText(op)) == Some(op) && OpText(op) != Text(" IN ") && OpText(op) != Text(" BETWEEN ")
    ensures OpText(op) != Text(" NOT IN ") && OpText(op) != MATCH
  {
  }

  lemma InRead(c: string, v: Value, r: bool, rest: seq<Tok>)
    ensures ReadPrimary(RefFilter(Compare(c, In, v), r) + rest) == Parsed(Test(AtomOf(c, In, v)), rest)
  {
    var ts := RefFilter(Compare(c, In, v), r) + rest;
    var list := Separated(Literals(InList(v)), COMMA, false);
    assert ts[0] == Ident(c) && ts[1..] == [OpText(In), LP] + (list + [RP] + rest);
    assert ts[1..][2..] == list + [RP] + rest;
    assert (list + [RP] + rest)[0].Lit? || (list + [RP] + rest)[0] == RP;
    ValuesRead(InList(v), false, rest);
  }

  lemma BetweenRead(c: string, v: Value, r: bool, rest: seq<Tok>)
    ensures ReadPrimary(RefFilter(Compare(c, Between, v), r) + rest) == Parsed(Test(AtomOf(c, Between, v)), rest)
  {
    var ts := RefFilter(Compare(c, Between, v), r) + rest;
    assert ts[0] == Ident(c) && ts[1..] == [OpText(Between), Lit(BetweenLow(v)), AND, Lit(BetweenHigh(v))] + rest;
    assert ts[1..][4..] == rest;
  }

  lemma SubqueryRead(c: string, op: SubqueryOp, p: Plan, r: bool, rest: seq<Tok>)
    ensures var f := Subquery(c, op, p);
            ReadPrimary(RefFilter(f, r) + rest) == if Readable(f) then Parsed(ExprOf(f, r), rest) else Failed
  {
    var inner := RefPlan(p, [], r);
    StatementHead(p, r);
    StatementRead(op, if op.Exists? || op.NotExists? then "" else c, p, r, rest);
    hide RefPlan, Separated, ReadStatement;
    if op.Exists? || op.NotExists? {
      assert RefFilter(Subquery(c, op, p), r) == [SubqueryText(op), LP] + inner + [RP] by {
        assert [] + [SubqueryText(op), LP] == [SubqueryText(op), LP];
      }
      ExistsRead(op, inner, rest);
    } else if c == "" {
      assert (RefFilter(Subquery(c, op, p), r) + rest)[0] == SubqueryText(op);
    } else {
      assert RefFilter(Subquery(c, op, p), r) == [Ident(c), SubqueryText(op), LP] + inner + [RP] by {
        assert [Ident(c)] + [SubqueryText(op), LP] == [Ident(c), SubqueryText(op), LP];
      }
      MembershipRead(c, op, inner, rest);
    }
  }

  lemma ExistsRead(op: SubqueryOp, inner: seq<Tok>, rest: seq<Tok>)
    requires op.Exists? || op.NotExists?
    ensures ReadPrimary([SubqueryText(op), LP] + inner + [RP] + rest) ==
            ReadStatement(op, "", [LP] + inner + [RP] + rest)
  {
    hide ReadStatement;
    var ts := [SubqueryText(op), LP] + inner + [RP] + rest;
    assert ts[0] == SubqueryText(op) && ts[1..] == [LP] + inner + [RP] + rest;
  }

  lemma MembershipRead(c: string, op: SubqueryOp, inner: seq<Tok>, rest: seq<Tok>)
    requires (op.InPlan? || op.NotInPlan?) && inner != [] && !inner[0].Lit? && inner[0] != RP
    ensures ReadPrimary([Ident(c), SubqueryText(op), LP] + inner + [RP] + rest) ==
            ReadStatement(op, c, [LP] + inner + [RP] + rest)
  {
    hide ReadStatement;
    var ts := [Ident(c), SubqueryText(op), LP] + inner + [RP] + rest;
    assert ts[0] == Ident(c) && ts[1] == SubqueryText(op) && ts[2] == LP && ts[3] == inner[0];
    assert ts[1..][1..] == [LP] + inner + [RP] + rest;
  }

  // ---- reading back lists ----

  /** Where raw text ends. */
  predicate Breaks(rest: seq<Tok>) {
    rest == [] || (rest[0].Text? && rest[0] != MATCH)
  }

  /** Where a list of conditions ends. */
  predicate Stops(rest: seq<Tok>) {
    Breaks(rest) && (rest == [] || (rest[0] != AND && rest[0] != OR))
  }

  ghost predicate ReadsPrimary(ts: seq<Tok>, e: Expr) {
    forall rest: seq<Tok> | Breaks(rest) :: ReadPrimary(ts + rest) == Parsed(e, rest)
  }

  /** How a list of conditions reads: at a stop, and in front of AND. */
  ghost predicate Reads(ts: seq<Tok>, tree: seq<AndList>)
    requires tree != []
  {
    && ReadsTo(ts, tree)
    && (forall rest: seq<Tok> :: ReadAlternatives(ts + ([AND] + rest)) == Joined(tree, ReadAlternatives(rest)))
  }

  ghost predicate ReadsTo(ts: seq<Tok>, tree: seq<AndList>) {
    forall rest: seq<Tok> | Stops(rest) :: ReadAlternatives(ts + rest) == Parsed(tree, rest)
  }

  ghost predicate Fails(ts: seq<Tok>) {
    forall rest: seq<Tok> :: ReadAlternatives(ts + rest).Failed?
  }

  function Joined(tree: seq<AndList>, b: Parsed<seq<AndList>>): Parsed<seq<AndList>>
    requires tree != []
  {
    if b.Failed? || b.value == [] then Failed else Parsed(Splice(tree, b.value), b.rest)
  }

  /** How a primary continues: at a stop, before AND, and before OR. */
  lemma PrimaryReads(ts: seq<Tok>, e: Expr)
    requires ReadsPrimary(ts, e)
    ensures Reads(ts, [AndList([e])])
  {
    forall rest: seq<Tok> | Stops(rest) ensures ReadAlternatives(ts + rest) == Parsed([AndList([e])], rest) {
      assert ReadPrimary(ts + rest) == Parsed(e, rest);
    }
    forall rest: seq<Tok> ensures ReadAlternatives(ts + ([AND] + rest)) ==
        Joined([AndList([e])], ReadAlternatives(rest)) {
      BeforeAnd(ts + ([AND] + rest), e, rest);
    }
  }

  lemma BeforeOr(ts: seq<Tok>, e: Expr, rest: seq<Tok>)
    requires ReadPrimary(ts) == Parsed(e, [OR] + rest)
    ensures var b := ReadAlternatives(rest);
            ReadAlternatives(ts) == if b.Failed? then Failed else Parsed([AndList([e])] + b.value, b.rest)
  {
    assert ([OR] + rest)[1..] == rest;
    assert ReadFactors(ts) == Parsed([e], [OR] + rest);
  }

  lemma BeforeAnd(ts: seq<Tok>, e: Expr, rest: seq<Tok>)
    requires ReadPrimary(ts) == Parsed(e, [AND] + rest)
    ensures ReadAlternatives(ts) == Joined([AndList([e])], ReadAlternatives(rest))
  {
    assert ([AND] + rest)[1..] == rest;
    var factors, b := ReadFactors(rest), ReadAlternatives(rest);
    if factors.Parsed? {
      assert ReadFactors(ts) == Parsed([e] + factors.value, factors.rest);
      if b.Parsed? {
        assert b.value[0] == AndList(factors.value);
        SpliceHead(AndList([e]), b.value);
        if factors.rest != [] && factors.rest[0] == OR {
          assert b.value[1..] == ReadAlternatives(factors.rest[1..]).value;
        } else {
          assert b == Parsed([AndList(factors.value)], factors.rest);
          assert ReadAlternatives(ts) == Parsed([AndList([e] + factors.value)], factors.rest);
          assert b.value[1..] == [] && [AndList([e] + factors.value)] + [] == [AndList([e] + factors.value)];
        }
      }
    }
  }

  lemma SpliceHead(x: AndList, b: seq<AndList>)
    requires b != []
    ensures Splice([x], b) == [AndList(x.factors + b[0].factors)] + b[1..]
  {
  }

  lemma SpliceTail(x: AndList, a: seq<AndList>, b: seq<AndList>)
    requires a != [] && b != []
    ensures Splice([x] + a, b) == [x] + Splice(a, b)
  {
    assert ([x] + a)[..|a|] == [x] + a[..|a| - 1];
  }

  lemma SpliceAssociates(x: AndList, a: seq<AndList>, b: seq<AndList>)
    requires a != [] && b != []
    ensures Splice([x], Splice(a, b)) == Splice(Splice([x], a), b)
  {
    SpliceHead(x, Splice(a, b));
    SpliceHead(x, a);
    var y := AndList(x.factors + a[0].factors);
    if |a| == 1 {
      assert a == [a[0]];
      SpliceHead(a[0], b);
      SpliceHead(y, b);
      assert x.factors + (a[0].factors + b[0].factors) == y.factors + b[0].factors;
    } else {
      assert a == [a[0]] + a[1..];
      SpliceTail(a[0], a[1..], b);
      SpliceTail(y, a[1..], b);
    }
  }

  lemma {:induction false} SpliceAssociative(x: seq<AndList>, y: seq<AndList>, z: seq<AndList>)
    requires x != [] && y != [] && z != []
    ensures Splice(x, Splice(y, z)) == Splice(Splice(x, y), z)
  {
    hide Splice;
    if |x| == 1 {
      assert x == [x[0]];
      SpliceAssociates(x[0], y, z);
    } else {
      assert x == [x[0]] + x[1..];
      SpliceAssociative(x[1..], y, z);
      SpliceTail(x[0], x[1..], Splice(y, z));
      SpliceTail(x[0], x[1..], y);
      SpliceTail(x[0], Splice(x[1..], y), z);
    }
  }

  lemma ReadsStop(ts: seq<Tok>, tree: seq<AndList>, rest: seq<Tok>)
    requires ReadsTo(ts, tree) && Stops(rest)
    ensures ReadAlternatives(ts + rest) == Parsed(tree, rest)
  {
  }

  lemma ReadsAnd(ts: seq<Tok>, tree: seq<AndList>, rest: seq<Tok>)
    requires tree != [] && Reads(ts, tree)
    ensures ReadAlternatives(ts + ([AND] + rest)) == Joined(tree, ReadAlternatives(rest))
  {
  }

  lemma JoinedTo(x: seq<AndList>, y: seq<AndList>, rest: seq<Tok>)
    requires x != [] && y != []
    ensures Joined(x, Parsed(y, rest)) == Parsed(Splice(x, y), rest)
  {
  }

  /** Two lists of conditions joined by AND. */
  lemma JoinReads(a: seq<Tok>, x: seq<AndList>, b: seq<Tok>, y: seq<AndList>)
    requires x != [] && y != [] && Reads(a, x) && Reads(b, y)
    ensures Reads(a + ([AND] + b), Splice(x, y))
  {
    hide ReadAlternatives, Splice;
    var ts := a + ([AND] + b);
    forall rest: seq<Tok> | Stops(rest) ensures ReadAlternatives(ts + rest) == Parsed(Splice(x, y), rest) {
      JoinStop(a, x, b, y, rest);
    }
    forall rest: seq<Tok> ensures ReadAlternatives(ts + ([AND] + rest)) ==
        Joined(Splice(x, y), ReadAlternatives(rest)) {
      JoinStep(a, x, b, y, rest);
    }
  }

  lemma Regrouped(a: seq<Tok>, b: seq<Tok>, rest: seq<Tok>)
    ensures a + ([AND] + b) + rest == a + ([AND] + (b + rest))
  {
  }

  lemma JoinStop(a: seq<Tok>, x: seq<AndList>, b: seq<Tok>, y: seq<AndList>, rest: seq<Tok>)
    requires x != [] && y != [] && Reads(a, x) && ReadsTo(b, y) && Stops(rest)
    ensures ReadAlternatives(a + ([AND] + b) + rest) == Parsed(Splice(x, y), rest)
  {
    hide *;
    Regrouped(a, b, rest);
    ReadsAnd(a, x, b + rest);
    ReadsStop(b, y, rest);
    JoinedTo(x, y, rest);
  }

  lemma JoinStep(a: seq<Tok>, x: seq<AndList>, b: seq<Tok>, y: seq<AndList>, rest: seq<Tok>)
    requires x != [] && y != [] && Reads(a, x) && Reads(b, y)
    ensures ReadAlternatives(a + ([AND] + b) + ([AND] + rest)) == Joined(Splice(x, y), ReadAlternatives(rest))
  {
    assert a + ([AND] + b) + ([AND] + rest) == a + ([AND] + (b + ([AND] + rest)));
    hide ReadAlternatives, Splice, Reads;
    ReadsAnd(a, x, b + ([AND] + rest));
    ReadsAnd(b, y, rest);
    var c := ReadAlternatives(rest);
    if c.Parsed? && c.value != [] {
      SpliceAssociative(x, y, c.value);
    }
  }

  lemma FailureContinues(ts: seq<Tok>)
    requires ReadPrimary(ts).Failed?
    ensures ReadAlternatives(ts).Failed?
  {
  }

  lemma ReadsHalf(ts: seq<Tok>, tree: seq<AndList>)
    requires tree != [] && Reads(ts, tree)
    ensures ReadsTo(ts, tree)
  {
  }

  lemma FailsBefore(a: seq<Tok>, b: seq<Tok>)
    requires Fails(a)
    ensures Fails(a + b)
  {
    forall rest: seq<Tok> ensures ReadAlternatives(a + b + rest).Failed? {
      assert a + b + rest == a + (b + rest);
    }
  }

  lemma JoinFails(a: seq<Tok>, x: seq<AndList>, b: seq<Tok>)
    requires x != [] && Reads(a, x) && Fails(b)
    ensures Fails(a + ([AND] + b))
  {
    hide ReadAlternatives, Splice, Reads;
    forall rest: seq<Tok> ensures ReadAlternatives(a + ([AND] + b) + rest).Failed? {
      assert a + ([AND] + b) + rest == a + ([AND] + (b + rest));
      ReadsAnd(a, x, b + rest);
    }
  }

  /** A primary as an alternative of its own in front of a list. */
  lemma EitherReads(t: seq<Tok>, e: Expr, b: seq<Tok>, y: seq<AndList>)
    requires ReadsPrimary(t, e) && ReadsTo(b, y)
    ensures ReadsTo(t + ([OR] + b), [AndList([e])] + y)
  {
    forall rest: seq<Tok> | Stops(rest)
      ensures ReadAlternatives(t + ([OR] + b) + rest) == Parsed([AndList([e])] + y, rest)
    {
      assert t + ([OR] + b) + rest == t + ([OR] + (b + rest));
      BeforeOr(t + ([OR] + (b + rest)), e, b + rest);
    }
  }

  lemma EitherFails(t: seq<Tok>, e: Expr, b: seq<Tok>)
    requires ReadsPrimary(t, e) && Fails(b)
    ensures Fails(t + ([OR] + b))
  {
    forall rest: seq<Tok> ensures ReadAlternatives(t + ([OR] + b) + rest).Failed? {
      assert t + ([OR] + b) + rest == t + ([OR] + (b + rest));
      BeforeOr(t + ([OR] + (b + rest)), e, b + rest);
    }
  }

  lemma AlternativeReads(t: seq<Tok>, e: Expr, b: seq<Tok>, y: seq<AndList>)
    requires y != [] && ReadsPrimary(t, e) && Reads(b, y)
    ensures Reads(t + ([OR] + b), [AndList([e])] + y)
  {
    EitherReads(t, e, b, y);
    forall rest: seq<Tok>
      ensures ReadAlternatives(t + ([OR] + b) + ([AND] + rest)) == Joined([AndList([e])] + y, ReadAlternatives(rest))
    {
      assert t + ([OR] + b) + ([AND] + rest) == t + ([OR] + (b + ([AND] + rest)));
      BeforeOr(t + ([OR] + (b + ([AND] + rest))), e, b + ([AND] + rest));
      var c := ReadAlternatives(rest);
      if c.Parsed? && c.value != [] {
        SpliceTail(AndList([e]), y, c.value);
      }
    }
  }

  // ---- filters and lists of them ----

  lemma {:induction false} FilterRead(f: Filter, r: bool, rest: seq<Tok>)
    ensures ReadPrimary(RefFilter(f, r) + rest) == if Readable(f) then Parsed(ExprOf(f, r), rest) else Failed
    decreases f, 1
  {
    match f
    case Compare(c, op, v) => CompareRead(c, op, v, r, rest);
    case Subquery(c, op, p) => SubqueryRead(c, op, p, r, rest);
    case And(fs) =>
      GroupRead(RefFilters(fs, AND, false, r), rest);
      if fs == [] {
        EmptyGroup(rest);
      } else {
        AndListReads(fs, r);
      }
    case Or(fs) =>
      GroupRead(RefFilters(fs, OR, false, r), rest);
      if fs == [] {
        EmptyGroup(rest);
      } else {
        OrListReads(fs, r);
      }
  }

  /** A filter stands for itself in every context, or is read nowhere. */
  lemma {:induction false} FilterReads(f: Filter, r: bool)
    ensures if Readable(f) then ReadsPrimary(RefFilter(f, r), ExprOf(f, r)) else Fails(RefFilter(f, r))
    decreases f, 2
  {
    forall rest: seq<Tok>
      ensures ReadPrimary(RefFilter(f, r) + rest) == if Readable(f) then Parsed(ExprOf(f, r), rest) else Failed
    {
      FilterRead(f, r, rest);
    }
    if !Readable(f) {
      forall rest: seq<Tok> ensures ReadAlternatives(RefFilter(f, r) + rest).Failed? {
        FailureContinues(RefFilter(f, r) + rest);
      }
    }
  }

  lemma GroupRead(inner: seq<Tok>, rest: seq<Tok>)
    ensures ReadPrimary([LP] + inner + [RP] + rest) ==
            var g := ReadAlternatives(inner + ([RP] + rest));
            if g.Parsed? && g.rest != [] && g.rest[0] == RP then Parsed(Group(g.value), g.rest[1..]) else Failed
    ensures ([RP] + rest)[1..] == rest && Stops([RP] + rest)
  {
    assert ([LP] + inner + [RP] + rest)[1..] == inner + ([RP] + rest);
  }

  lemma EmptyGroup(rest: seq<Tok>)
    ensures ReadAlternatives([] + ([RP] + rest)).Failed?
  {
    assert [] + ([RP] + rest) == [RP] + rest;
    assert ReadPrimary([RP] + rest).Failed?;
  }

  /** A list after its first filter is a list of its own behind a separator. */
  lemma ListTail(fs: seq<Filter>, sep: Tok, r: bool)
    requires fs != []
    ensures |fs| == 1 ==> RefFilters(fs, sep, false, r) == RefFilter(fs[0], r)
    ensures |fs| > 1 ==>
              RefFilters(fs, sep, false, r) == RefFilter(fs[0], r) + ([sep] + RefFilters(fs[1..], sep, false, r))
  {
    assert [] + RefFilter(fs[0], r) == RefFilter(fs[0], r);
    if |fs| > 1 {
      var gs := fs[1..];
      var head, tail := RefFilter(gs[0], r), RefFilters(gs[1..], sep, true, r);
      assert [sep] + head + tail == [sep] + ([] + head + tail);
    }
  }

  lemma OneReadable(fs: seq<Filter>)
    requires |fs| == 1
    ensures AllReadable(fs) <==> Readable(fs[0])
  {
    assert AllReadable(fs[1..]);
  }

  lemma {:induction false} AndListReads(fs: seq<Filter>, r: bool)
    requires fs != []
    ensures var ts := RefFilters(fs, AND, false, r);
            if AllReadable(fs) then Reads(ts, [AndList(ExprsOf(fs, r))]) else Fails(ts)
    decreases fs, 0
  {
    hide ReadsPrimary, Reads, Fails;
    var t, e := RefFilter(fs[0], r), ExprOf(fs[0], r);
    ListTail(fs, AND, r);
    FilterReads(fs[0], r);
    if Readable(fs[0]) {
      PrimaryReads(t, e);
    }
    if |fs| == 1 {
      assert ExprsOf(fs, r) == [e];
      OneReadable(fs);
    } else {
      var ts, es := RefFilters(fs[1..], AND, false, r), ExprsOf(fs[1..], r);
      AndListReads(fs[1..], r);
      assert Splice([AndList([e])], [AndList(es)]) == [AndList(ExprsOf(fs, r))];
      if AllReadable(fs) {
        JoinReads(t, [AndList([e])], ts, [AndList(es)]);
      } else if Readable(fs[0]) {
        JoinFails(t, [AndList([e])], ts);
      } else {
        FailsBefore(t, [AND] + ts);
      }
    }
  }

  lemma {:induction false} OrListReads(fs: seq<Filter>, r: bool)
    requires fs != []
    ensures var ts := RefFilters(fs, OR, false, r);
            if AllReadable(fs) then ReadsTo(ts, Singles(fs, r)) else Fails(ts)
    decreases fs, 0
  {
    hide ReadsPrimary, ReadsTo, Fails;
    var t, e := RefFilter(fs[0], r), ExprOf(fs[0], r);
    ListTail(fs, OR, r);
    FilterReads(fs[0], r);
    if |fs| == 1 {
      if Readable(fs[0]) {
        PrimaryReads(t, e);
        ReadsHalf(t, [AndList([e])]);
      }
      assert Singles(fs, r) == [AndList([e])];
      OneReadable(fs);
    } else {
      var ts := RefFilters(fs[1..], OR, false, r);
      OrListReads(fs[1..], r);
      if AllReadable(fs) {
        EitherReads(t, e, ts, Singles(fs[1..], r));
      } else if Readable(fs[0]) {
        EitherFails(t, e, ts);
      } else {
        FailsBefore(t, [OR] + ts);
      }
    }
  }

  // ---- raw filters ----

  lemma {:induction false} HolesRun(holes: seq<RawHole>, ps: seq<Value>, rest: seq<Tok>)
    requires Breaks(rest)
    ensures var ts := HolesTokens(holes, ShownHole(ps)); RawRun(ts + rest) == |ts|
    decreases |holes|
  {
    var ts := HolesTokens(holes, ShownHole(ps));
    if holes == [] {
      assert ts + rest == rest;
    } else {
      var us := HolesTokens(holes[1..], ShownHole(ps));
      HolesRun(holes[1..], ps, rest);
      var lit, after := ShownHole(ps)(holes[0].n), Opaque(holes[0].after);
      assert ts + rest == [lit, after] + (us + rest);
      RunPair(lit, after, us + rest);
    }
  }

  lemma RunPair(a: Tok, b: Tok, ts: seq<Tok>)
    requires a.Lit? && b.Opaque?
    ensures RawRun([a, b] + ts) == 2 + RawRun(ts)
  {
    assert ([a, b] + ts)[1..] == [b] + ts && ([b] + ts)[1..] == ts;
  }

  lemma RawTextReads(text: RawText, ps: seq<Value>)
    ensures ReadsPrimary(RawTextTokens(text, ShownHole(ps)), RawTest(text, ps))
  {
    var ts := RawTextTokens(text, ShownHole(ps));
    forall rest: seq<Tok> | Breaks(rest) ensures ReadPrimary(ts + rest) == Parsed(RawTest(text, ps), rest) {
      var us := HolesTokens(text.holes, ShownHole(ps));
      HolesRun(text.holes, ps, rest);
      assert (ts + rest)[1..] == us + rest;
      assert RawRun(ts + rest) == |ts|;
      assert (ts + rest)[..|ts|] == ts && (ts + rest)[|ts|..] == rest;
      assert us != [] ==> us[0].Lit?;
      assert us == [] ==> us + rest == rest;
    }
  }

  lemma {:induction false} RawReads(raw: RawExpr, ps: seq<Value>)
    ensures Reads(RawTokens(raw, ShownHole(ps)), RawTree(raw, ps))
  {
    hide Reads, ReadsPrimary, Splice, RawTextTokens;
    var t, e := RawTextTokens(raw.text, ShownHole(ps)), RawTest(raw.text, ps);
    RawTextReads(raw.text, ps);
    PrimaryReads(t, e);
    if !raw.Factor? {
      var ts := RawTokens(raw.others, ShownHole(ps));
      RawReads(raw.others, ps);
      if raw.AndThen? {
        JoinReads(t, [AndList([e])], ts, RawTree(raw.others, ps));
        assert t + ([AND] + ts) == t + [AND] + ts;
      } else {
        AlternativeReads(t, e, ts, RawTree(raw.others, ps));
        assert t + ([OR] + ts) == t + [OR] + ts;
      }
    }
  }

  /** The text after WHERE. */
  function Conditions(fs: seq<Filter>, raws: seq<RawFilter>, r: bool): seq<Tok> {
    RefFilters(fs, AND, false, r) + RefRaws(raws, fs != [])
  }

  lemma RawsUnfold(raws: seq<RawFilter>, lead: bool)
    requires raws != []
    ensures RefRaws(raws, lead) ==
            (if lead then [AND] else []) + RawTokens(raws[0].expr, ShownHole(raws[0].params)) + RefRaws(raws[1..], true)
  {
    hide RawTokens;
  }

  lemma LeadApart(sep: Tok, head: seq<Tok>, tail: seq<Tok>)
    ensures [sep] + head + tail == [sep] + ([] + head + tail)
  {
  }

  lemma RawsLead(raws: seq<RawFilter>)
    requires raws != []
    ensures RefRaws(raws, true) == [AND] + RefRaws(raws, false)
  {
    hide *;
    RawsUnfold(raws, true);
    RawsUnfold(raws, false);
    LeadApart(AND, RawTokens(raws[0].expr, ShownHole(raws[0].params)), RefRaws(raws[1..], true));
  }

  lemma RawsTail(raws: seq<RawFilter>)
    requires raws != []
    ensures var ts := RawTokens(raws[0].expr, ShownHole(raws[0].params));
            RefRaws(raws, false) == if |raws| == 1 then ts else ts + ([AND] + RefRaws(raws[1..], false))
  {
    var ts, tail := RawTokens(raws[0].expr, ShownHole(raws[0].params)), RefRaws(raws[1..], true);
    RawsHead(raws);
    hide RawTokens;
    if |raws| > 1 {
      hide RefRaws;
      RawsLead(raws[1..]);
    } else {
      assert tail == [];
    }
  }

  lemma RawsHead(raws: seq<RawFilter>)
    requires raws != []
    ensures RefRaws(raws, false) == RawTokens(raws[0].expr, ShownHole(raws[0].params)) + RefRaws(raws[1..], true)
  {
    hide RawTokens;
    var ts := RawTokens(raws[0].expr, ShownHole(raws[0].params));
    assert [] + ts == ts;
  }

  lemma RawPartsStep(raws: seq<RawFilter>, r: bool)
    requires raws != []
    ensures var parts := Parts([], raws, r);
            && parts[0] == RawTree(raws[0].expr, raws[0].params)
            && parts[1..] == Parts([], raws[1..], r) && |parts| == |raws|
  {
    if |raws| > 1 {
      RawPartsStep(raws[1..], r);
    } else {
      assert Parts([], raws[1..], r) == [];
    }
  }

  lemma {:induction false} RawsRead(raws: seq<RawFilter>, r: bool)
    requires raws != []
    ensures NonEmpty(Parts([], raws, r)) && Parts([], raws, r) != []
    ensures Reads(RefRaws(raws, false), SpliceAll(Parts([], raws, r)))
  {
    hide Reads, RawTree, RawTokens, Splice;
    RawPartsStep(raws, r);
    RawsTail(raws);
    RawReads(raws[0].expr, raws[0].params);
    if |raws| > 1 {
      RawsRead(raws[1..], r);
      JoinReads(RawTokens(raws[0].expr, ShownHole(raws[0].params)), RawTree(raws[0].expr, raws[0].params),
                RefRaws(raws[1..], false), SpliceAll(Parts([], raws[1..], r)));
    }
  }

  // ---- the WHERE clause ----

  /** A conditions list after its first filter. */
  lemma ConditionsStep(fs: seq<Filter>, raws: seq<RawFilter>, r: bool)
    requires fs != []
    ensures var t := RefFilter(fs[0], r);
            if |fs| == 1 && raws == [] then Conditions(fs, raws, r) == t
            else Conditions(fs, raws, r) == t + ([AND] + Conditions(fs[1..], raws, r))
  {
    hide RefFilter, RefFilters, RefRaws;
    ListTail(fs, AND, r);
    var t, rest := RefFilter(fs[0], r), RefRaws(raws, true);
    if |fs| == 1 {
      LastFilter(fs, raws, r);
      assert t + [] == t;
    } else {
      var ts := RefFilters(fs[1..], AND, false, r);
      assert t + ([AND] + ts) + rest == t + ([AND] + (ts + rest));
    }
  }

  lemma LastFilter(fs: seq<Filter>, raws: seq<RawFilter>, r: bool)
    requires |fs| == 1
    ensures RefRaws(raws, true) == if raws == [] then [] else [AND] + Conditions(fs[1..], raws, r)
  {
    hide RawTokens;
    if raws != [] {
      RawsLead(raws);
      assert fs[1..] == [];
      assert RefFilters([], AND, false, r) + RefRaws(raws, false) == RefRaws(raws, false);
    }
  }

  lemma PartsStep(fs: seq<Filter>, raws: seq<RawFilter>, r: bool)
    requires fs != []
    ensures var parts := Parts(fs, raws, r);
            parts[0] == [AndList([ExprOf(fs[0], r)])] && parts[1..] == Parts(fs[1..], raws, r)
  {
  }

  /** On every filter list the text after WHERE reads back: as the splice of its parts when no
      group is empty and every IN subquery has a column, and not at all otherwise. This is so
      whatever follows the clause, and also when a further condition is joined to it. */
  lemma {:induction false} ConditionsRead(fs: seq<Filter>, raws: seq<RawFilter>, r: bool)
    requires fs != [] || raws != []
    ensures NonEmpty(Parts(fs, raws, r)) && Parts(fs, raws, r) != []
    ensures var ts := Conditions(fs, raws, r);
            if AllReadable(fs) then Reads(ts, SpliceAll(Parts(fs, raws, r))) else Fails(ts)
  {
    hide Reads, Fails, ReadsPrimary, RawTree, RefFilter, Splice;
    if fs == [] {
      RawsRead(raws, r);
      assert Conditions(fs, raws, r) == RefRaws(raws, false);
    } else {
      var t, e := RefFilter(fs[0], r), ExprOf(fs[0], r);
      ConditionsStep(fs, raws, r);
      PartsStep(fs, raws, r);
      FilterReads(fs[0], r);
      if Readable(fs[0]) {
        PrimaryReads(t, e);
      }
      if |fs| > 1 || raws != [] {
        var ts := Conditions(fs[1..], raws, r);
        ConditionsRead(fs[1..], raws, r);
        if AllReadable(fs) {
          JoinReads(t, [AndList([e])], ts, SpliceAll(Parts(fs[1..], raws, r)));
        } else if Readable(fs[0]) {
          JoinFails(t, [AndList([e])], ts);
        } else {
          FailsBefore(t, [AND] + ts);
        }
      } else {
        OneReadable(fs);
        assert Parts([], [], r) == [];
      }
    }
  }

  // ---- full-text search ----

  /** A search condition reads as one test, in all three modes. */
  lemma SearchReads(table: string, fts: Fts, v: Value)
    ensures var ts := FtsCondition(table, fts, Lit(v)); ReadsPrimary(ts, Test(Search(ts)))
  {
    match fts.mode
    case Fts5 => Fts5Reads(if fts.tableAlias.Some? then Opaque(fts.tableAlias.value) else Ident(table), v);
    case TsVector =>
      Balance.SeparatedFlat(Idents(fts.columns), Text(" || ' ' || "), false);
      CallReads(Text("to_tsvector"), ColumnList(fts.columns, Text(" || ' ' || ")), Text(" @@ plainto_tsquery"), v);
    case FullText =>
      Balance.SeparatedFlat(Idents(fts.columns), COMMA, false);
      CallReads(Text("MATCH "), ColumnList(fts.columns, COMMA), Text(" AGAINST "), v);
  }

  lemma Fts5Reads(source: Tok, v: Value)
    requires source.Opaque? || source.Ident?
    ensures ReadsPrimary([source, MATCH, Lit(v)], Test(Search([source, MATCH, Lit(v)])))
  {
    var ts := [source, MATCH, Lit(v)];
    forall rest: seq<Tok> ensures ReadPrimary(ts + rest) == Parsed(Test(Search(ts)), rest) {
      assert (ts + rest)[..3] == ts && (ts + rest)[3..] == rest;
      assert (ts + rest)[1..] == [MATCH, Lit(v)] + rest && ([MATCH, Lit(v)] + rest)[2..] == rest;
    }
  }

  lemma CallReads(head: Tok, columns: seq<Tok>, operator: Tok, v: Value)
    requires (head == Text("to_tsvector") && operator == Text(" @@ plainto_tsquery")) ||
             (head == Text("MATCH ") && operator == Text(" AGAINST "))
    requires Balance.Flat(columns)
    ensures var ts := [head, LP] + columns + [RP, operator, LP, Lit(v), RP]; ReadsPrimary(ts, Test(Search(ts)))
  {
    hide ReadSearch;
    var ts := [head, LP] + columns + [RP, operator, LP, Lit(v), RP];
    forall rest: seq<Tok> ensures ReadPrimary(ts + rest) == Parsed(Test(Search(ts)), rest) {
      CallRead(head, columns, operator, v, rest);
    }
  }

  lemma CallRead(head: Tok, columns: seq<Tok>, operator: Tok, v: Value, rest: seq<Tok>)
    requires Balance.Flat(columns)
    ensures var ts := [head, LP] + columns + [RP, operator, LP, Lit(v), RP];
            ReadSearch(operator, ts + rest) == Parsed(Test(Search(ts)), rest)
  {
    var tail := [RP, operator, LP, Lit(v), RP];
    Balance.FlatDepth(columns, 0);
    ClosingAfter(columns, 0, tail + rest);
    assert ClosingAt(tail + rest, 0) == Some(0);
    CallParts([head, LP], columns, tail, rest);
  }

  lemma CallParts(a: seq<Tok>, b: seq<Tok>, c: seq<Tok>, rest: seq<Tok>)
    requires |c| >= 3
    ensures var ts, at := a + b + c, |a| + |b|;
            && (ts + rest)[|a|..] == b + (c + rest) && (ts + rest)[at + 1..at + 3] == [c[1], c[2]]
            && (ts + rest)[..|ts|] == ts && (ts + rest)[|ts|..] == rest
            && forall i | 0 <= i < |c| :: (ts + rest)[at + i] == c[i]
  {
  }

  /** What a SELECT is combined with. */
  function Operations(bs: seq<Branch>, inherited: seq<string>, r: bool): seq<(SetOp, seq<Tok>)>
    requires forall b | b in bs :: b.UnionBranch?
  {
    if bs == [] then []
    else [(bs[0].setOp, RefPlan(bs[0].query, inherited, r))] + Operations(bs[1..], inherited, r)
  }

  /** The set operations of a SELECT read back, keyword and statement, in their order. */
  lemma {:induction false} SetOpsRead(bs: seq<Branch>, lead: bool, inherited: seq<string>, r: bool)
    requires forall b | b in bs :: b.UnionBranch?
    ensures ReadSetOps(RefBranches(bs, [], lead, inherited, r)) == Some(Operations(bs, inherited, r))
    decreases |bs|
  {
    NothingRead();
    hide ReadSetOps, RefPlan, SetOpText;
    if bs != [] {
      var b, rest := bs[0], RefBranches(bs[1..], [], true, inherited, r);
      SetOpsRead(bs[1..], true, inherited, r);
      Balance.PlanBalanced(b.query, inherited, r);
      SetOpRead(b.setOp, RefPlan(b.query, inherited, r), rest);
      assert RefBranches(bs, [], lead, inherited, r) ==
             [SetOpText(b.setOp), LP] + RefPlan(b.query, inherited, r) + [RP] + rest;
    }
  }

  lemma NothingRead()
    ensures ReadSetOps([]) == Some([])
  {
  }

  lemma SetOpRead(op: SetOp, inner: seq<Tok>, rest: seq<Tok>)
    requires Balance.Balanced(inner)
    ensures var ts := [SetOpText(op), LP] + inner + [RP] + rest;
            ReadSetOps(ts) == if ReadSetOps(rest).None? then None else Some([(op, inner)] + ReadSetOps(rest).value)
  {
    assert Balance.Depth(inner, 0) == 0;
    ClosingAfter(inner, 0, [RP] + rest);
    assert ClosingAt([RP] + rest, 0) == Some(0);
    assert ReadSetOp(SetOpText(op)) == Some(op);
    Enclosed([SetOpText(op), LP], inner, RP, rest);
    hide *;
    FirstSetOp([SetOpText(op), LP] + inner + [RP] + rest, op, inner, rest);
  }

  lemma FirstSetOp(ts: seq<Tok>, op: SetOp, inner: seq<Tok>, rest: seq<Tok>)
    requires |ts| >= 2 && ReadSetOp(ts[0]) == Some(op) && ts[1] == LP && ClosingAt(ts[2..], 0) == Some(|inner|)
    requires ts[2..][..|inner|] == inner && ts[2..][|inner| + 1..] == rest
    ensures ReadSetOps(ts) == if ReadSetOps(rest).None? then None else Some([(op, inner)] + ReadSetOps(rest).value)
  {
    hide ClosingAt, ReadSetOp;
  }

  lemma Enclosed(head: seq<Tok>, inner: seq<Tok>, close: Tok, rest: seq<Tok>)
    ensures var ts := head + inner + [close] + rest;
            && ts[|head|..] == inner + ([close] + rest) && ts[..|head|] == head
            && ts[|head|..][..|inner|] == inner && ts[|head|..][|inner| + 1..] == rest
  {
  }
}
