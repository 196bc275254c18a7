/** Token streams as the character strings the program really handles, and the three textual
    rewritings applied to them: the UNION renumbering, the cache key, and the driver's `pgSql`. */
module Lexical {
  import opened Rewriting
  import opened Plans
  import opened Emission
  import opened Placeholders
  import opened Spacing
  import opened Tame

  /** `s.replace(/q/g, "qq")` for the quote character q. */
  function DoubleQuotes(s: string, quote: char): string {
    if s == "" then "" else (if s[0] == quote then [quote, quote] else [s[0]]) + DoubleQuotes(s[1..], quote)
  }

  function QuoteChar(d: Dialect): char {
    if d.Mysql? then '`' else '"'
  }

  function QuoteIdent(id: string, d: Dialect): string {
    [QuoteChar(d)] + DoubleQuotes(id, QuoteChar(d)) + [QuoteChar(d)]
  }

  function RenderTok(t: Tok, d: Dialect): string {
    match t
    case Text(s) => s
    case Opaque(s) => s
    case Ident(id) => QuoteIdent(id, d)
    case Mark => "?"
    case Dollar(n) => "$" + Digits(n)
    case Lit(_) => ""
  }

  /** The SQL string of a token stream. */
  function Render(ts: seq<Tok>, d: Dialect): string {
    if ts == [] then "" else RenderTok(ts[0], d) + Render(ts[1..], d)
  }

  /** `s.replace(/\?/g, () => "$" + ++i)` */
  function ReplaceMarks(s: string, i: nat): string {
    if s == "" then ""
    else if s[0] == '?' then "$" + Digits(i + 1) + ReplaceMarks(s[1..], i + 1)
    else [s[0]] + ReplaceMarks(s[1..], i)
  }

  lemma {:induction false} RenderConcat(a: seq<Tok>, b: seq<Tok>, d: Dialect)
    ensures Render(a + b, d) == Render(a, d) + Render(b, d)
  {
    if a == [] {
      assert a + b == b;
    } else {
      assert (a + b)[1..] == a[1..] + b;
      RenderConcat(a[1..], b, d);
    }
  }

  // ---- rewriting numbered placeholders ----

  predicate NoValues(ts: seq<Tok>) {
    forall t | t in ts :: !t.Lit?
  }

  lemma SpacedTail(ts: seq<Tok>)
    requires Spaced(ts) && NoValues(ts) && ts != []
    ensures Spaced(ts[1..]) && NoValues(ts[1..])
  {
    var us := ts[1..];
    forall i | 0 <= i < |us| - 1 ensures Follows(us[i], us[i + 1]) {
      assert Follows(ts[i + 1], ts[i + 2]);
    }
  }

  /** What follows a token that is not a keyword does not begin with a digit. */
  lemma {:induction false} RestHead(ts: seq<Tok>)
    requires Spaced(ts) && NoValues(ts) && ts != [] && !ts[0].Text?
    ensures HeadNotDigit(Render(ts[1..], Postgres))
  {
    var us := ts[1..];
    if us != [] {
      SpacedTail(ts);
      var u := us[0];
      assert Follows(ts[0], ts[1]) && ts[1] == u && u in us;
      if u.Opaque? && u.s == "" {
        RestHead(us);
        assert Render(us, Postgres) == Render(us[1..], Postgres);
      } else {
        assert RenderTok(u, Postgres) != "" && !IsDigit(RenderTok(u, Postgres)[0]);
      }
    }
  }

  /** A token stream with the replacement applied to each token by itself. */
  function RenderWith(ts: seq<Tok>, g: nat -> string): string {
    if ts == [] then "" else TokWith(ts[0], g) + RenderWith(ts[1..], g)
  }

  function TokWith(t: Tok, g: nat -> string): string {
    if t.Dollar? then g(t.n) else ReplaceDollars(RenderTok(t, Postgres), g)
  }

  /** The regular expression does not reach across tokens. */
  lemma {:induction false} ReplaceIsTokenwise(ts: seq<Tok>, g: nat -> string)
    requires Spaced(ts) && NoValues(ts)
    ensures ReplaceDollars(Render(ts, Postgres), g) == RenderWith(ts, g)
  {
    hide ReplaceDollars, Spaced;
    if ts == [] {
      ReplaceNothing(g);
    } else {
      var t, rest := ts[0], Render(ts[1..], Postgres);
      SpacedTail(ts);
      ReplaceIsTokenwise(ts[1..], g);
      if t.Text? {
        KeywordSkipped(ts, rest, g);
      } else {
        RestHead(ts);
        if t.Dollar? {
          ReplaceOne(t.n, rest, g);
        } else {
          ReplaceConcat(RenderTok(t, Postgres), rest, g);
        }
      }
    }
  }

  lemma KeywordSkipped(ts: seq<Tok>, rest: string, g: nat -> string)
    requires Spaced(ts) && ts != [] && ts[0].Text?
    ensures ReplaceDollars(ts[0].s + rest, g) == ReplaceDollars(ts[0].s, g) + ReplaceDollars(rest, g)
  {
    SkipPlain(ts[0].s, rest, g);
    SkipPlain(ts[0].s, "", g);
    assert ts[0].s + "" == ts[0].s;
  }

  lemma {:induction false} DoubleQuotesConcat(a: string, b: string, quote: char)
    ensures DoubleQuotes(a + b, quote) == DoubleQuotes(a, quote) + DoubleQuotes(b, quote)
  {
    if a == "" {
      assert a + b == b;
    } else {
      assert (a + b)[1..] == a[1..] + b;
      DoubleQuotesConcat(a[1..], b, quote);
    }
  }

  lemma {:induction false} DigitsUnquoted(ds: string, quote: char)
    requires AllDigits(ds) && !IsDigit(quote)
    ensures DoubleQuotes(ds, quote) == ds
  {
    if ds != "" {
      DigitsUnquoted(ds[1..], quote);
    }
  }

  lemma QuotedNumber(ds: string, rest: string)
    requires AllDigits(ds)
    ensures DoubleQuotes("$" + ds + rest, '"') == "$" + ds + DoubleQuotes(rest, '"')
  {
    DoubleQuotesConcat("$" + ds, rest, '"');
    DoubleQuotesConcat("$", ds, '"');
    DigitsUnquoted(ds, '"');
    assert DoubleQuotes("$", '"') == "$" + DoubleQuotes("", '"');
  }

  lemma QuotedHead(s: string)
    ensures HeadNotDigit(s) ==> HeadNotDigit(DoubleQuotes(s, '"'))
  {
  }

  lemma QuotedChar(c: char, rest: string)
    ensures DoubleQuotes([c] + rest, '"') ==
            if c == '"' then [c] + ([c] + DoubleQuotes(rest, '"')) else [c] + DoubleQuotes(rest, '"')
  {
    assert ([c] + rest)[1..] == rest;
    assert [c, c] + DoubleQuotes(rest, '"') == [c] + ([c] + DoubleQuotes(rest, '"'));
  }

  /** Renumbering and doubling quotes do not get in each other's way. */
  lemma {:induction false} QuotesCommute(s: string, k: nat)
    ensures ReplaceDollars(DoubleQuotes(s, '"'), Renumbered(k)) == DoubleQuotes(ReplaceDollars(s, Renumbered(k)), '"')
    decreases |s|
  {
    hide ReplaceDollars, ParseDigits, Digits;
    var g := Renumbered(k);
    ReplaceNothing(g);
    if s == "" {
    } else if StartsNumber(s) {
      var ds, rest := NumberSplits(s);
      var n := ParseDigits(ds) + k;
      QuotesCommute(rest, k);
      QuotedNumber(ds, rest);
      QuotedHead(rest);
      ReplaceNumber(ds, rest, g);
      ReplaceNumber(ds, DoubleQuotes(rest, '"'), g);
      DigitsParse(n);
      QuotedNumber(Digits(n), ReplaceDollars(rest, g));
    } else {
      var c, rest := s[0], s[1..];
      QuotesCommute(rest, k);
      QuotedHead(rest);
      assert s == [c] + rest;
      ReplaceOther(c, rest, g);
      ReplaceOther(c, DoubleQuotes(rest, '"'), g);
      OtherQuoted(c, rest, g);
    }
  }

  lemma OtherQuoted(c: char, rest: string, g: nat -> string)
    requires c != '$' || HeadNotDigit(rest)
    requires ReplaceDollars([c] + DoubleQuotes(rest, '"'), g) == [c] + ReplaceDollars(DoubleQuotes(rest, '"'), g)
    requires ReplaceDollars(DoubleQuotes(rest, '"'), g) == DoubleQuotes(ReplaceDollars(rest, g), '"')
    ensures ReplaceDollars(DoubleQuotes([c] + rest, '"'), g) == DoubleQuotes([c] + ReplaceDollars(rest, g), '"')
  {
    hide *;
    var x, y := DoubleQuotes(rest, '"'), ReplaceDollars(rest, g);
    QuotedChar(c, rest);
    QuotedChar(c, y);
    if c == '"' {
      ReplaceOther(c, [c] + x, g);
    }
  }

  lemma IdentRenumbered(id: string, k: nat)
    ensures ReplaceDollars(QuoteIdent(id, Postgres), Renumbered(k)) ==
            QuoteIdent(ReplaceDollars(id, Renumbered(k)), Postgres)
  {
    hide ReplaceDollars, DoubleQuotes;
    var g, inner, q := Renumbered(k), DoubleQuotes(id, '"'), ['"'];
    var after := ReplaceDollars(inner, g);
    QuotesCommute(id, k);
    ReplaceConcat(inner, q, g);
    ReplaceOther('"', inner + q, g);
    ReplaceOther('"', "", g);
    ReplaceNothing(g);
    assert q + "" == q;
    assert QuoteIdent(id, Postgres) == q + (inner + q);
    assert q + after + q == q + (after + q);
  }

  lemma TokRenumbered(t: Tok, k: nat)
    requires !t.Lit? && (t.Text? ==> Keyword(t.s))
    ensures TokWith(t, Renumbered(k)) == RenderTok(RenumberTok(t, k), Postgres)
  {
    match t
    case Ident(id) => IdentRenumbered(id, k);
    case Text(s) =>
      SkipPlain(s, "", Renumbered(k));
      assert s + "" == s;
    case _ =>
  }

  /** Renumbering a stream as text is renumbering its tokens. */
  lemma {:induction false} RenumberIsReplace(ts: seq<Tok>, k: nat)
    requires Spaced(ts) && NoValues(ts)
    ensures ReplaceDollars(Render(ts, Postgres), Renumbered(k)) == Render(Renumber(ts, k), Postgres)
  {
    ReplaceIsTokenwise(ts, Renumbered(k));
    RenumberedRendered(ts, k);
  }

  lemma {:induction false} RenumberedRendered(ts: seq<Tok>, k: nat)
    requires Spaced(ts) && NoValues(ts)
    ensures RenderWith(ts, Renumbered(k)) == Render(Renumber(ts, k), Postgres)
  {
    if ts != [] {
      SpacedTail(ts);
      TokRenumbered(ts[0], k);
      assert Renumber(ts, k)[1..] == Renumber(ts[1..], k);
      RenumberedRendered(ts[1..], k);
    }
  }

  function Unnumbered(): nat -> string {
    (n: nat) => "?"
  }

  lemma {:induction false} NumberFreeStays(s: string, g: nat -> string)
    requires NumberFree(s)
    ensures ReplaceDollars(s, g) == s
  {
    if s != "" {
      var rest := s[1..];
      assert forall i | 0 <= i < |rest| :: rest[i] == s[i + 1];
      NumberFreeStays(rest, g);
    }
  }

  lemma {:induction false} NumberFreeQuoted(s: string)
    requires NumberFree(s)
    ensures NumberFree(DoubleQuotes(s, '"')) && (HeadNotDigit(s) ==> HeadNotDigit(DoubleQuotes(s, '"')))
  {
    if s != "" {
      var rest := s[1..];
      assert forall i | 0 <= i < |rest| :: rest[i] == s[i + 1];
      NumberFreeQuoted(rest);
    }
  }

  lemma TokUnnumbered(t: Tok)
    requires !t.Lit? && (t.Text? ==> Keyword(t.s)) && TameTok(t, 1)
    ensures TokWith(t, Unnumbered()) == RenderTok(EraseTok(t), Sqlite)
  {
    match t
    case Opaque(s) => NumberFreeStays(s, Unnumbered());
    case Ident(id) =>
      NumberFreeQuoted(id);
      NumberFreeStays(QuoteIdent(id, Postgres), Unnumbered());
    case Text(s) =>
      SkipPlain(s, "", Unnumbered());
      assert s + "" == s;
    case _ =>
  }

  /** Printing every $n as ? is printing the erased stream for SQLite. */
  lemma {:induction false} EraseRendered(ts: seq<Tok>)
    requires Spaced(ts) && NoValues(ts) && TameTokens(ts, 1)
    ensures RenderWith(ts, Unnumbered()) == Render(Erase(ts), Sqlite)
  {
    if ts != [] {
      SpacedTail(ts);
      TokUnnumbered(ts[0]);
      assert Erase(ts)[1..] == Erase(ts[1..]);
      EraseRendered(ts[1..]);
    }
  }

  // ---- rewriting positional placeholders ----

  /** Numbers the positional placeholders of a stream from i + 1 on. */
  function NumberMarks(ts: seq<Tok>, i: nat): seq<Tok> {
    if ts == [] then []
    else if ts[0].Mark? then [Dollar(i + 1)] + NumberMarks(ts[1..], i + 1)
    else [ts[0]] + NumberMarks(ts[1..], i)
  }

  lemma {:induction false} SkipUnmarked(s: string, rest: string, i: nat)
    requires '?' !in s
    ensures ReplaceMarks(s + rest, i) == s + ReplaceMarks(rest, i)
  {
    if s == "" {
      assert s + rest == rest;
    } else {
      assert (s + rest)[1..] == s[1..] + rest;
      SkipUnmarked(s[1..], rest, i);
    }
  }

  lemma {:induction false} MarksAreTokens(ts: seq<Tok>, i: nat)
    requires forall t | t in ts :: !t.Dollar? && (t.Mark? || '?' !in RenderTok(t, Sqlite))
    ensures ReplaceMarks(Render(ts, Sqlite), i) == Render(NumberMarks(ts, i), Postgres)
  {
    if ts != [] {
      var rest := Render(ts[1..], Sqlite);
      if ts[0].Mark? {
        MarksAreTokens(ts[1..], i + 1);
        assert ("?" + rest)[1..] == rest;
      } else {
        assert ts[0] in ts;
        MarksAreTokens(ts[1..], i);
        SkipUnmarked(RenderTok(ts[0], Sqlite), rest, i);
      }
    }
  }

  lemma {:induction false} NoMarkLeft(s: string, i: nat)
    ensures '?' !in ReplaceMarks(s, i)
  {
    if s != "" {
      NoMarkLeft(s[1..], i);
      NoMarkLeft(s[1..], i + 1);
      DigitsParse(i + 1);
    }
  }

  lemma {:induction false} RenderedToken(ts: seq<Tok>, t: Tok, d: Dialect, c: char)
    requires t in ts && c in RenderTok(t, d)
    ensures c in Render(ts, d)
  {
    if t != ts[0] {
      RenderedToken(ts[1..], t, d, c);
    }
  }
}
