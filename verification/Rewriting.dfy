/** Decimal numbers in text and the regular expression that finds numbered placeholders in it. */
module Rewriting {

  predicate IsDigit(c: char) {
    '0' <= c <= '9'
  }

  function DigitChar(n: nat): char
    requires n < 10
  {
    "0123456789"[n]
  }

  function Digits(n: nat): string {
    if n < 10 then [DigitChar(n)] else Digits(n / 10) + [DigitChar(n % 10)]
  }

  function DigitValue(c: char): nat {
    if IsDigit(c) then (c as int) - ('0' as int) else 0
  }

  function ParseDigits(s: string): nat {
    if s == "" then 0 else 10 * ParseDigits(s[..|s| - 1]) + DigitValue(s[|s| - 1])
  }

  /** The length of the run of digits that `s` begins with. */
  function DigitRun(s: string): (n: nat)
    ensures n <= |s|
  {
    if s == "" || !IsDigit(s[0]) then 0 else 1 + DigitRun(s[1..])
  }

  /** `s.replace(/\$(\d+)/g, g)` */
  function ReplaceDollars(s: string, g: nat -> string): string
    decreases |s|
  {
    if s == "" then ""
    else if s[0] == '$' && |s| > 1 && IsDigit(s[1]) then
      var k := DigitRun(s[1..]);
      g(ParseDigits(s[1..1 + k])) + ReplaceDollars(s[1 + k..], g)
    else [s[0]] + ReplaceDollars(s[1..], g)
  }

  /** The replacement that moves a number up. */
  function Renumbered(offset: nat): nat -> string {
    (n: nat) => "$" + Digits(n + offset)
  }

  predicate HeadNotDigit(s: string) {
    s == "" || !IsDigit(s[0])
  }

  /** No `$` is followed by a digit. */
  predicate NumberFree(s: string) {
    forall i | 0 <= i < |s| - 1 && s[i] == '$' :: !IsDigit(s[i + 1])
  }

  /** No number behind a `$` begins with a superfluous zero. */
  predicate Canonical(s: string) {
    forall i | 0 <= i < |s| - 2 && s[i] == '$' && s[i + 1] == '0' :: !IsDigit(s[i + 2])
  }

  /** Text that the renumbering by `offset` has no reason to touch. */
  predicate TameText(s: string, offset: nat) {
    if offset > 0 then NumberFree(s) else Canonical(s)
  }

  // ---- decimal numbers ----

  predicate AllDigits(s: string) {
    forall i | 0 <= i < |s| :: IsDigit(s[i])
  }

  lemma {:induction false} DigitsParse(n: nat)
    ensures ParseDigits(Digits(n)) == n && |Digits(n)| > 0 && AllDigits(Digits(n))
    ensures |Digits(n)| > 1 ==> Digits(n)[0] != '0'
  {
    if n < 10 {
      assert Digits(n)[..0] == "";
    } else {
      DigitsParse(n / 10);
      var s := Digits(n);
      assert s[..|s| - 1] == Digits(n / 10);
      if n < 100 {
        assert Digits(n / 10) == [DigitChar(n / 10)];
      }
    }
  }

  lemma {:induction false} DigitsBack(ds: string)
    requires ds != "" && AllDigits(ds)
    ensures (|ds| == 1 || ds[0] != '0') ==> Digits(ParseDigits(ds)) == ds
  {
    var init, last := ds[..|ds| - 1], ds[|ds| - 1];
    var n := ParseDigits(ds);
    assert ds == init + [last];
    assert [DigitChar(DigitValue(last))] == [last];
    if init == "" {
      assert ds == [last];
    } else if ds[0] != '0' {
      DigitsBack(init);
      PositiveParse(init);
      assert n / 10 == ParseDigits(init) && n % 10 == DigitValue(last);
    }
  }

  lemma {:induction false} PositiveParse(ds: string)
    requires ds != "" && AllDigits(ds) && ds[0] != '0'
    ensures ParseDigits(ds) > 0
  {
    if |ds| > 1 {
      PositiveParse(ds[..|ds| - 1]);
    }
  }

  lemma {:induction false} RunOfDigits(ds: string, rest: string)
    requires AllDigits(ds) && HeadNotDigit(rest)
    ensures DigitRun(ds + rest) == |ds|
  {
    if ds == "" {
      assert ds + rest == rest;
    } else {
      assert (ds + rest)[1..] == ds[1..] + rest;
      RunOfDigits(ds[1..], rest);
    }
  }

  /** A run is made of digits, and no digit follows it. */
  lemma {:induction false} RunSplits(s: string)
    ensures AllDigits(s[..DigitRun(s)]) && HeadNotDigit(s[DigitRun(s)..])
  {
    if s != "" && IsDigit(s[0]) {
      RunSplits(s[1..]);
      var k := DigitRun(s[1..]);
      assert s[..1 + k] == [s[0]] + s[1..][..k] && s[1 + k..] == s[1..][k..];
    }
  }

  // ---- one step of the replacement ----

  predicate StartsNumber(s: string) {
    |s| > 1 && s[0] == '$' && IsDigit(s[1])
  }

  /** The digits of the number that `s` begins with, and what follows it. */
  lemma NumberSplits(s: string) returns (ds: string, rest: string)
    requires StartsNumber(s)
    ensures s == "$" + ds + rest && ds != "" && AllDigits(ds) && HeadNotDigit(rest) && |rest| < |s|
  {
    RunSplits(s[1..]);
    var k := DigitRun(s[1..]);
    ds, rest := s[1..1 + k], s[1 + k..];
    assert s[1..][..k] == ds && s[1..][k..] == rest;
    assert s == "$" + ds + rest;
  }

  lemma ReplaceNumber(ds: string, rest: string, g: nat -> string)
    requires ds != "" && AllDigits(ds) && HeadNotDigit(rest)
    ensures StartsNumber("$" + ds + rest)
    ensures ReplaceDollars("$" + ds + rest, g) == g(ParseDigits(ds)) + ReplaceDollars(rest, g)
  {
    var s := "$" + ds + rest;
    RunOfDigits(ds, rest);
    assert s[1..] == ds + rest && s[1] == ds[0];
    assert s[1..1 + |ds|] == ds && s[1 + |ds|..] == rest;
  }

  lemma ReplaceOther(c: char, rest: string, g: nat -> string)
    requires c != '$' || HeadNotDigit(rest)
    ensures !StartsNumber([c] + rest)
    ensures ReplaceDollars([c] + rest, g) == [c] + ReplaceDollars(rest, g)
  {
    assert ([c] + rest)[1..] == rest;
  }

  lemma ReplaceOne(n: nat, rest: string, g: nat -> string)
    requires HeadNotDigit(rest)
    ensures ReplaceDollars("$" + Digits(n) + rest, g) == g(n) + ReplaceDollars(rest, g)
  {
    DigitsParse(n);
    ReplaceNumber(Digits(n), rest, g);
  }

  /** The replacement does not move a digit to the front. */
  lemma RenumberedHead(s: string, k: nat)
    requires HeadNotDigit(s)
    ensures HeadNotDigit(ReplaceDollars(s, Renumbered(k)))
  {
  }

  lemma ReplaceNothing(g: nat -> string)
    ensures ReplaceDollars("", g) == ""
  {
  }

  lemma {:induction false} ReplaceConcat(a: string, b: string, g: nat -> string)
    requires HeadNotDigit(b)
    ensures ReplaceDollars(a + b, g) == ReplaceDollars(a, g) + ReplaceDollars(b, g)
    decreases |a|
  {
    hide ReplaceDollars;
    ReplaceNothing(g);
    if a == "" {
      assert a + b == b;
    } else if StartsNumber(a) {
      var ds, rest := NumberSplits(a);
      ReplaceConcat(rest, b, g);
      ReplaceNumber(ds, rest, g);
      assert a + b == "$" + ds + (rest + b);
      ReplaceNumber(ds, rest + b, g);
    } else {
      var rest := a[1..];
      ReplaceConcat(rest, b, g);
      assert a == [a[0]] + rest && a + b == [a[0]] + (rest + b);
      ReplaceOther(a[0], rest, g);
      ReplaceOther(a[0], rest + b, g);
    }
  }

  /** Text without a `$` stays as it is, whatever follows. */
  lemma {:induction false} SkipPlain(s: string, rest: string, g: nat -> string)
    requires '$' !in s
    ensures ReplaceDollars(s + rest, g) == s + ReplaceDollars(rest, g)
  {
    hide ReplaceDollars;
    if s == "" {
      assert s + rest == rest;
    } else {
      SkipPlain(s[1..], rest, g);
      assert s == [s[0]] + s[1..] && s + rest == [s[0]] + (s[1..] + rest);
      ReplaceOther(s[0], s[1..] + rest, g);
    }
  }

  // ---- renumbering text ----

  /** Renumbering twice is renumbering by the sum. */
  lemma {:induction false} RenumberedTwice(s: string, m: nat, k: nat)
    ensures ReplaceDollars(ReplaceDollars(s, Renumbered(m)), Renumbered(k)) == ReplaceDollars(s, Renumbered(m + k))
    decreases |s|
  {
    hide ReplaceDollars, ParseDigits;
    if s == "" {
      ReplaceNothing(Renumbered(m));
      ReplaceNothing(Renumbered(k));
      ReplaceNothing(Renumbered(m + k));
    } else if StartsNumber(s) {
      var ds, rest := NumberSplits(s);
      var n := ParseDigits(ds);
      RenumberedTwice(rest, m, k);
      RenumberedHead(rest, m);
      ReplaceNumber(ds, rest, Renumbered(m));
      ReplaceNumber(ds, rest, Renumbered(m + k));
      ReplaceOne(n + m, ReplaceDollars(rest, Renumbered(m)), Renumbered(k));
    } else {
      var rest := s[1..];
      RenumberedTwice(rest, m, k);
      assert s == [s[0]] + rest;
      if s[0] == '$' {
        RenumberedHead(rest, m);
      }
      ReplaceOther(s[0], rest, Renumbered(m));
      ReplaceOther(s[0], rest, Renumbered(m + k));
      ReplaceOther(s[0], ReplaceDollars(rest, Renumbered(m)), Renumbered(k));
    }
  }

  /** Equal texts that begin with numbers have equal numbers and equal rests. */
  lemma NumbersAlign(a: string, x: string, b: string, y: string)
    requires AllDigits(a) && AllDigits(b) && HeadNotDigit(x) && HeadNotDigit(y)
    ensures a + x == b + y <==> a == b && x == y
  {
    if a + x == b + y {
      RunOfDigits(a, x);
      RunOfDigits(b, y);
      assert a == (a + x)[..|a|] && b == (b + y)[..|a|];
      assert x == (a + x)[|a|..] && y == (b + y)[|a|..];
    }
  }

  lemma FreeOther(c: char, rest: string)
    requires c != '$' || HeadNotDigit(rest)
    ensures NumberFree([c] + rest) <==> NumberFree(rest)
  {
    var s := [c] + rest;
    hide IsDigit;
    if NumberFree(s) {
      forall i | 0 <= i < |rest| - 1 && rest[i] == '$' ensures !IsDigit(rest[i + 1]) {
        assert s[i + 1] == '$' && s[i + 2] == rest[i + 1];
      }
    }
    if NumberFree(rest) {
      forall i | 0 <= i < |s| - 1 && s[i] == '$' ensures !IsDigit(s[i + 1]) {
        if i > 0 {
          assert rest[i - 1] == '$' && s[i + 1] == rest[i];
        }
      }
    }
  }

  lemma CanonicalOther(c: char, rest: string)
    requires c != '$' || HeadNotDigit(rest)
    ensures Canonical([c] + rest) <==> Canonical(rest)
  {
    var s := [c] + rest;
    assert IsDigit('0');
    hide IsDigit;
    if Canonical(s) {
      forall i | 0 <= i < |rest| - 2 && rest[i] == '$' && rest[i + 1] == '0' ensures !IsDigit(rest[i + 2]) {
        assert s[i + 1] == '$' && s[i + 2] == rest[i + 1] && s[i + 3] == rest[i + 2];
      }
    }
    if Canonical(rest) {
      forall i | 0 <= i < |s| - 2 && s[i] == '$' && s[i + 1] == '0' ensures !IsDigit(s[i + 2]) {
        if i > 0 {
          assert rest[i - 1] == '$' && rest[i] == '0' && s[i + 2] == rest[i + 1];
        }
      }
    }
  }

  lemma TameOther(c: char, rest: string, k: nat)
    requires c != '$' || HeadNotDigit(rest)
    ensures TameText([c] + rest, k) <==> TameText(rest, k)
  {
    FreeOther(c, rest);
    CanonicalOther(c, rest);
  }

  lemma TameNothing(k: nat)
    ensures TameText("", k)
  {
  }

  lemma {:induction false} TameDigits(ds: string, rest: string, k: nat)
    requires AllDigits(ds)
    ensures TameText(ds + rest, k) <==> TameText(rest, k)
  {
    if ds == "" {
      assert ds + rest == rest;
    } else {
      TameDigits(ds[1..], rest, k);
      assert ds + rest == [ds[0]] + (ds[1..] + rest);
      TameOther(ds[0], ds[1..] + rest, k);
    }
  }

  lemma TameNumber(ds: string, rest: string, k: nat)
    requires ds != "" && AllDigits(ds) && HeadNotDigit(rest)
    ensures TameText("$" + ds + rest, k) <==> k == 0 && (|ds| == 1 || ds[0] != '0') && TameText(rest, k)
  {
    var s, t := "$" + ds + rest, ds + rest;
    TameDigits(ds, rest, k);
    assert s[0] == '$' && s[1] == ds[0] && forall i | 0 <= i < |t| :: s[i + 1] == t[i];
    if k == 0 {
      assert |ds| > 1 ==> s[2] == ds[1];
      assert |ds| == 1 && rest != "" ==> s[2] == rest[0];
      if Canonical(s) {
        forall i | 0 <= i < |t| - 2 && t[i] == '$' && t[i + 1] == '0' ensures !IsDigit(t[i + 2]) {
          assert s[i + 1] == '$' && s[i + 2] == '0' && s[i + 3] == t[i + 2];
        }
      }
      if Canonical(t) && (|ds| == 1 || ds[0] != '0') {
        forall i | 0 <= i < |s| - 2 && s[i] == '$' && s[i + 1] == '0' ensures !IsDigit(s[i + 2]) {
          assert i > 0 ==> t[i - 1] == '$' && t[i] == '0' && s[i + 2] == t[i + 1];
        }
      }
    }
  }

  /** Renumbering leaves a text alone exactly when it is tame. */
  lemma {:induction false} TameStays(s: string, k: nat)
    ensures ReplaceDollars(s, Renumbered(k)) == s <==> TameText(s, k)
    decreases |s|
  {
    hide ReplaceDollars, ParseDigits, TameText, Digits;
    if s == "" {
      ReplaceNothing(Renumbered(k));
      TameNothing(k);
    } else if StartsNumber(s) {
      var ds, rest := NumberSplits(s);
      var n, after := ParseDigits(ds), ReplaceDollars(rest, Renumbered(k));
      TameStays(rest, k);
      TameNumber(ds, rest, k);
      ReplaceNumber(ds, rest, Renumbered(k));
      RenumberedHead(rest, k);
      DigitsParse(n + k);
      DigitsBack(ds);
      NumbersAlign(Digits(n + k), after, ds, rest);
      SameAfterDollar(Digits(n + k) + after, ds + rest);
      assert "$" + Digits(n + k) + after == "$" + (Digits(n + k) + after);
      assert s == "$" + (ds + rest);
    } else {
      var rest := s[1..];
      TameStays(rest, k);
      assert s == [s[0]] + rest;
      ReplaceOther(s[0], rest, Renumbered(k));
      TameOther(s[0], rest, k);
      assert ([s[0]] + ReplaceDollars(rest, Renumbered(k)))[1..] == ReplaceDollars(rest, Renumbered(k));
    }
  }

  lemma SameAfterDollar(a: string, b: string)
    ensures "$" + a == "$" + b <==> a == b
  {
    assert ("$" + a)[1..] == a && ("$" + b)[1..] == b;
  }
}
