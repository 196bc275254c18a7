/** One plan in three dialects: equal parameters, and texts that differ in placeholders only. */
module Dialects {
  import opened Rewriting
  import opened Plans
  import opened Emission
  import opened Reference
  import opened Placeholders
  import opened Spacing
  import opened Tame
  import opened TextOrder
  import opened Skeleton
  import opened Binding
  import opened Lexical
  import Positional
  import opened Numbered
  import NumberedNecessary

  /** PostgreSQL tokens with their numbers forgotten are the SQLite tokens, exactly when the
      renumbering of UNION branches meets placeholders only. */
  lemma ErasedPostgresIsSqlite(p: Plan, inherited: seq<string>)
    ensures Erase(PlanTokens(p, inherited, Postgres)) == PlanTokens(p, inherited, Sqlite) <==> TamePlan(p, inherited)
  {
    MatchPlan(p, inherited, Postgres);
    MatchPlan(p, inherited, Sqlite);
    NativePositional(PlanTokens(p, inherited, Sqlite), Sqlite);
  }

  /** Names and raw text without a number behind a `$` are safe anywhere. */
  lemma NumberFreeIsTame(p: Plan, inherited: seq<string>)
    requires TameTokens(RefPlan(p, inherited, true), 1)
    ensures TamePlan(p, inherited)
  {
    var ts, r := PlanTokens(p, inherited, Postgres), RefPlan(p, inherited, true);
    MatchPlan(p, inherited, Postgres);
    hide PlanTokens, RefPlan, TamePlan, PlanNumbers, PlanText;
    forall i | 0 <= i < |ts| ensures EraseTok(ts[i]) == EraseTok(r[i]) {
      assert r[i] in r;
      UngrownTok(ts[i], r[i]);
    }
    SamePointwise(ts, r);
  }

  lemma UngrownTok(t: Tok, u: Tok)
    requires Grown(t, u) && TameTok(u, 1)
    ensures EraseTok(t) == EraseTok(u)
  {
    if EraseTok(t) != EraseTok(u) {
      var m: nat :| GrownBy(t, u, m);
      TameIsFixed(u, m);
    }
  }

  /** A UNION branch as the program builds it: its finished statement goes through the regular
      expression as text. On every plan, nested to any depth, that is the text of the branch tokens;
      neither quoting nor the seams between tokens matter. */
  lemma BranchIsRewritten(op: SetOp, q: Plan, k: nat, inherited: seq<string>)
    ensures Render(BranchTokens(UnionBranch(op, q), k, inherited, Postgres), Postgres) ==
            SetOpText(op).s + "(" + ReplaceDollars(Render(PlanTokens(q, inherited, Postgres), Postgres),
                                                   Renumbered(k)) + ")"
  {
    var ts := PlanTokens(q, inherited, Postgres);
    PlanSpaced(q, inherited, Postgres);
    MatchPlan(q, inherited, Postgres);
    RenumberIsReplace(ts, k);
    RenderBranch(op, Renumber(ts, k));
    hide *;
    BranchTokensAre(op, q, k, inherited);
  }

  lemma BranchTokensAre(op: SetOp, q: Plan, k: nat, inherited: seq<string>)
    ensures BranchTokens(UnionBranch(op, q), k, inherited, Postgres) ==
            [SetOpText(op), LP] + Renumber(PlanTokens(q, inherited, Postgres), k) + [RP]
  {
  }

  lemma RenderBranch(op: SetOp, ts: seq<Tok>)
    ensures Render([SetOpText(op), LP] + ts + [RP], Postgres) == SetOpText(op).s + "(" + Render(ts, Postgres) + ")"
  {
    RenderConcat([SetOpText(op), LP] + ts, [RP], Postgres);
    RenderConcat([SetOpText(op), LP], ts, Postgres);
    RenderConcat([SetOpText(op)], [LP], Postgres);
    assert [SetOpText(op)] + [LP] == [SetOpText(op), LP];
    RenderKeyword(SetOpText(op));
    RenderKeyword(LP);
    RenderKeyword(RP);
  }

  lemma RenderKeyword(t: Tok)
    requires t.Text?
    ensures Render([t], Postgres) == t.s
  {
    assert [t][1..] == [];
    assert t.s + "" == t.s;
  }

  /** `planCacheKey` of the PostgreSQL statement. */
  function CacheKey(sql: string): string {
    ReplaceDollars(sql, Unnumbered())
  }

  /** On every plan whose names and raw text have no number behind a `$`, the cache key of the
      PostgreSQL statement is the SQLite statement. */
  lemma CacheKeyIsSqlite(p: Plan, inherited: seq<string>)
    requires TameTokens(RefPlan(p, inherited, true), 1)
    ensures CacheKey(Render(PlanTokens(p, inherited, Postgres), Postgres)) ==
            Render(PlanTokens(p, inherited, Sqlite), Sqlite)
  {
    var ts, r := PlanTokens(p, inherited, Postgres), RefPlan(p, inherited, true);
    NumberFreeIsTame(p, inherited);
    MatchPlan(p, inherited, Postgres);
    PlanSpaced(p, inherited, Postgres);
    ErasedPostgresIsSqlite(p, inherited);
    hide PlanTokens, RefPlan, TamePlan, PlanNumbers, PlanText;
    SameNames(ts, r);
    ReplaceIsTokenwise(ts, Unnumbered());
    EraseRendered(ts);
  }

  lemma SameNames(ts: seq<Tok>, r: seq<Tok>)
    requires Erase(ts) == Erase(r) && TameTokens(r, 1)
    ensures TameTokens(ts, 1)
  {
    assert |ts| == |Erase(ts)| == |r|;
    SamePointwise(ts, r);
    forall t | t in ts ensures TameTok(t, 1) {
      var i :| 0 <= i < |ts| && ts[i] == t;
      assert r[i] in r && EraseTok(ts[i]) == EraseTok(r[i]);
    }
  }

  lemma {:induction false} NumberedBack(ts: seq<Tok>, i: nat)
    requires forall t | t in ts :: !t.Lit? && !t.Mark?
    requires Numbers(ts) == Range(i, |Numbers(ts)|)
    ensures NumberMarks(Erase(ts), i) == ts
  {
    if ts != [] {
      assert Erase(ts)[1..] == Erase(ts[1..]);
      assert ts == [ts[0]] + ts[1..];
      if ts[0].Dollar? {
        assert Numbers(ts)[0] == Range(i, |Numbers(ts)|)[0];
        assert Numbers(ts[1..]) == Numbers(ts)[1..] == Range(i + 1, |Numbers(ts)| - 1);
        NumberedBack(ts[1..], i + 1);
      } else {
        assert Numbers(ts) == Numbers(ts[1..]);
        NumberedBack(ts[1..], i);
      }
    }
  }

  /** On plans that bind in both styles, the driver's rewriting of the SQLite statement is the
      PostgreSQL statement, exactly when that statement contains no question mark of its own. */
  lemma PgSqlAgrees(p: Plan, inherited: seq<string>)
    requires Positional.Ordered(p) && Numberable(p) && TamePlan(p, inherited)
    ensures ReplaceMarks(Render(PlanTokens(p, inherited, Sqlite), Sqlite), 0) ==
            Render(PlanTokens(p, inherited, Postgres), Postgres)
            <==> '?' !in Render(PlanTokens(p, inherited, Postgres), Postgres)
  {
    var ps, ss := PlanTokens(p, inherited, Postgres), PlanTokens(p, inherited, Sqlite);
    NoMarkLeft(Render(ss, Sqlite), 0);
    if '?' !in Render(ps, Postgres) {
      MatchPlan(p, inherited, Postgres);
      ErasedPostgresIsSqlite(p, inherited);
      PostgresCounts(p, inherited);
      NumberedBack(ps, 0);
      OnlyMarks(ps);
      MarksAreTokens(ss, 0);
    }
  }

  lemma PostgresCounts(p: Plan, inherited: seq<string>)
    requires Positional.Ordered(p) && Numberable(p)
    ensures var ns := Numbers(PlanTokens(p, inherited, Postgres)); ns == Range(0, |ns|)
  {
    MatchPlan(p, inherited, Postgres);
    NumberedNecessary.PlanCounts(p);
  }

  /** Once erased, a PostgreSQL stream whose text has no question mark has them only as placeholders. */
  lemma OnlyMarks(ps: seq<Tok>)
    requires Native(ps, Postgres) && '?' !in Render(ps, Postgres)
    ensures forall t | t in Erase(ps) :: !t.Dollar? && (t.Mark? || '?' !in RenderTok(t, Sqlite))
  {
    forall t | t in Erase(ps) ensures !t.Dollar? && (t.Mark? || '?' !in RenderTok(t, Sqlite)) {
      var i :| 0 <= i < |ps| && Erase(ps)[i] == t;
      assert t == EraseTok(ps[i]) && ps[i] in ps;
      if !t.Mark? && '?' in RenderTok(t, Sqlite) {
        RenderedToken(ps, ps[i], Postgres, '?');
      }
    }
  }
}

/** The PostgreSQL driver's statement rewriting and its memo. */
module PgDriver {
  import opened Rewriting
  import opened Lexical

  class PostgresDriver {
    var prepared: map<string, string>

    /** Every memo entry is the rewriting of its key. */
    predicate Valid()
      reads this
    {
      forall sql | sql in prepared :: prepared[sql] == ReplaceMarks(sql, 0)
    }

    constructor ()
      ensures Valid()
    {
      prepared := map[];
    }

    method PgSql(sql: string) returns (out: string)
      requires Valid()
      modifies this
      ensures Valid() && out == ReplaceMarks(sql, 0)
      ensures prepared.Keys == old(prepared.Keys) + {sql}
    {
      if sql in prepared && prepared[sql] != "" {
        return prepared[sql];
      }
      out := "";
      var i := 0;
      var pos := 0;
      while pos < |sql|
        invariant 0 <= pos <= |sql| && unchanged(this)
        invariant ReplaceMarks(sql, 0) == out + ReplaceMarks(sql[pos..], i)
      {
        var rest := sql[pos..];
        assert rest[0] == sql[pos] && rest[1..] == sql[pos + 1..];
        if sql[pos] == '?' {
          i := i + 1;
          assert ReplaceMarks(rest, i - 1) == "$" + Digits(i) + ReplaceMarks(rest[1..], i);
          assert out + ("$" + Digits(i) + ReplaceMarks(rest[1..], i)) ==
                 (out + ("$" + Digits(i))) + ReplaceMarks(rest[1..], i);
          out := out + ("$" + Digits(i));
        } else {
          assert out + ([rest[0]] + ReplaceMarks(rest[1..], i)) == (out + [rest[0]]) + ReplaceMarks(rest[1..], i);
          out := out + [sql[pos]];
        }
        pos := pos + 1;
      }
      assert sql[pos..] == "";
      prepared := prepared[sql := out];
    }
  }
}
