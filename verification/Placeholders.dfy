/** Placeholders of a token stream and what binding them to a parameter list yields. */
module Placeholders {
  import opened Plans

  predicate IsHole(t: Tok) {
    t.Mark? || t.Dollar?
  }

  predicate HoleFree(ts: seq<Tok>) {
    forall i | 0 <= i < |ts| :: !IsHole(ts[i])
  }

  /** Forgets which value or which number stands at a place. */
  function EraseTok(t: Tok): Tok {
    if t.Dollar? || t.Lit? then Mark else t
  }

  function Erase(ts: seq<Tok>): (r: seq<Tok>)
    ensures |r| == |ts|
  {
    seq(|ts|, i requires 0 <= i < |ts| => EraseTok(ts[i]))
  }

  /** The values written in place, in text order. */
  function Lits(ts: seq<Tok>): seq<Value> {
    if ts == [] then [] else (if ts[0].Lit? then [ts[0].v] else []) + Lits(ts[1..])
  }

  /** The numbers of the numbered placeholders, in text order. */
  function Numbers(ts: seq<Tok>): seq<nat> {
    if ts == [] then [] else (if ts[0].Dollar? then [ts[0].n] else []) + Numbers(ts[1..])
  }

  /** Positional binding: the k-th placeholder in text order takes the k-th value. */
  function Fill(ts: seq<Tok>, vals: seq<Value>): seq<Tok> {
    if ts == [] then []
    else if ts[0].Mark? && vals != [] then [Lit(vals[0])] + Fill(ts[1..], vals[1..])
    else [ts[0]] + Fill(ts[1..], vals)
  }

  function MarkCount(ts: seq<Tok>): nat {
    if ts == [] then 0 else (if ts[0].Mark? then 1 else 0) + MarkCount(ts[1..])
  }

  /** Numbered binding: $n takes the n-th value; a number out of range stays unbound. */
  function ResolveTok(t: Tok, vals: seq<Value>): Tok {
    if t.Dollar? && 1 <= t.n <= |vals| then Lit(vals[t.n - 1]) else t
  }

  function Resolve(ts: seq<Tok>, vals: seq<Value>): seq<Tok> {
    if ts == [] then [] else [ResolveTok(ts[0], vals)] + Resolve(ts[1..], vals)
  }

  /** Numbers `ns`, moved up by `shift`, point at the values `ls`. */
  predicate Points(ns: seq<nat>, ls: seq<Value>, shift: nat, vals: seq<Value>) {
    && |ns| == |ls|
    && forall i | 0 <= i < |ns| :: 1 <= ns[i] + shift <= |vals| && vals[ns[i] + shift - 1] == ls[i]
  }

  // ---- concatenation ----

  lemma EraseConcat()
    ensures forall a: seq<Tok>, b: seq<Tok> {:trigger Erase(a + b)} :: Erase(a + b) == Erase(a) + Erase(b)
  {
  }

  lemma {:induction false} LitsOf(a: seq<Tok>, b: seq<Tok>)
    ensures Lits(a + b) == Lits(a) + Lits(b)
  {
    if a == [] {
      assert a + b == b;
    } else {
      assert (a + b)[1..] == a[1..] + b;
      LitsOf(a[1..], b);
    }
  }

  lemma {:induction false} NumbersOf(a: seq<Tok>, b: seq<Tok>)
    ensures Numbers(a + b) == Numbers(a) + Numbers(b)
  {
    if a == [] {
      assert a + b == b;
    } else {
      NumbersOf(a[1..], b);
      var head := if a[0].Dollar? then [a[0].n] else [];
      assert (a + b)[0] == a[0] && (a + b)[1..] == a[1..] + b;
      assert head + (Numbers(a[1..]) + Numbers(b)) == head + Numbers(a[1..]) + Numbers(b);
    }
  }

  /** Text that carries no placeholder and no value contributes nothing. */
  predicate Plain(ts: seq<Tok>) {
    forall t | t in ts :: !IsHole(t) && !t.Lit?
  }

  lemma {:induction false} PlainNothing(ts: seq<Tok>)
    requires Plain(ts)
    ensures Lits(ts) == [] && Numbers(ts) == [] && Erase(ts) == ts
  {
    if ts != [] {
      PlainNothing(ts[1..]);
    }
  }

  lemma {:induction false} SeparatedPlain(items: seq<Tok>, sep: Tok, lead: bool)
    requires Plain(items) && Plain([sep])
    ensures Plain(Separated(items, sep, lead))
  {
    if items != [] {
      assert sep in [sep];
      SeparatedPlain(items[1..], sep, true);
    }
  }

  // ---- binding a skeleton ----

  /** Filling the skeleton of a rendering gives it back exactly for its own values in text order. */
  lemma {:induction false} FillIsBinding(r: seq<Tok>, vals: seq<Value>)
    requires HoleFree(r)
    ensures (MarkCount(Erase(r)) == |vals| && Fill(Erase(r), vals) == r) <==> Lits(r) == vals
  {
    if r == [] {
    } else {
      var e := Erase(r);
      assert e[1..] == Erase(r[1..]);
      if !r[0].Lit? {
        FillIsBinding(r[1..], vals);
        assert Fill(e, vals) == [r[0]] + Fill(e[1..], vals);
        assert Fill(e, vals) == r <==> Fill(e[1..], vals) == r[1..] by { assert r == [r[0]] + r[1..]; }
        assert Lits(r) == Lits(r[1..]);
      } else if vals != [] {
        FillIsBinding(r[1..], vals[1..]);
        assert Fill(e, vals) == [Lit(vals[0])] + Fill(e[1..], vals[1..]);
        assert Fill(e, vals) == r <==> vals[0] == r[0].v && Fill(e[1..], vals[1..]) == r[1..] by {
          assert r == [r[0]] + r[1..];
          assert Fill(e, vals)[1..] == Fill(e[1..], vals[1..]);
        }
        assert Lits(r) == vals <==> vals[0] == r[0].v && Lits(r[1..]) == vals[1..] by {
          assert vals == [vals[0]] + vals[1..] && Lits(r) == [r[0].v] + Lits(r[1..]);
          assert Lits(r)[1..] == Lits(r[1..]);
        }
      }
    }
  }

  /** Numbered placeholders over the skeleton of a rendering resolve to it exactly when
      every number points at the value in its place. */
  lemma {:induction false} ResolveIsBinding(ts: seq<Tok>, r: seq<Tok>, vals: seq<Value>)
    requires HoleFree(r) && Erase(ts) == Erase(r)
    requires forall i | 0 <= i < |ts| :: !ts[i].Mark? && !ts[i].Lit?
    ensures Resolve(ts, vals) == r <==> Points(Numbers(ts), Lits(r), 0, vals)
  {
    assert |ts| == |Erase(ts)| == |r|;
    if ts != [] {
      EraseTail(ts, r);
      ResolveIsBinding(ts[1..], r[1..], vals);
      ResolveStep(ts, r, vals);
      NumbersStep(ts, r, vals);
    }
  }

  /** What resolves to a rendering has its shape. */
  lemma {:induction false} ResolvedShape(ts: seq<Tok>, r: seq<Tok>, vals: seq<Value>)
    requires HoleFree(r) && Resolve(ts, vals) == r
    requires forall i | 0 <= i < |ts| :: !ts[i].Mark? && !ts[i].Lit?
    ensures Erase(ts) == Erase(r)
  {
    if ts != [] {
      assert r == [ResolveTok(ts[0], vals)] + Resolve(ts[1..], vals);
      assert r[1..] == Resolve(ts[1..], vals);
      ResolvedShape(ts[1..], r[1..], vals);
      assert Erase(ts) == [EraseTok(ts[0])] + Erase(ts[1..]) && Erase(r) == [EraseTok(r[0])] + Erase(r[1..]);
      assert !IsHole(r[0]);
    }
  }

  lemma EraseTail(ts: seq<Tok>, r: seq<Tok>)
    requires Erase(ts) == Erase(r) && ts != [] && r != []
    ensures EraseTok(ts[0]) == EraseTok(r[0]) && Erase(ts[1..]) == Erase(r[1..])
  {
    assert Erase(ts)[0] == EraseTok(ts[0]) && Erase(r)[0] == EraseTok(r[0]);
    assert Erase(ts)[1..] == Erase(ts[1..]) && Erase(r)[1..] == Erase(r[1..]);
  }

  lemma NumbersStep(ts: seq<Tok>, r: seq<Tok>, vals: seq<Value>)
    requires ts != [] && r != [] && EraseTok(ts[0]) == EraseTok(r[0])
    requires !IsHole(r[0]) && !ts[0].Mark? && !ts[0].Lit?
    ensures Points(Numbers(ts), Lits(r), 0, vals) <==>
            ResolveTok(ts[0], vals) == r[0] && Points(Numbers(ts[1..]), Lits(r[1..]), 0, vals)
  {
    hide *;
    SameTok(ts[0], r[0], vals);
    FirstNumber(ts);
    FirstLit(r);
    if ts[0].Dollar? {
      DollarStep(ts[0].n, r[0].v, Numbers(ts), Numbers(ts[1..]), Lits(r), Lits(r[1..]), vals);
    }
  }

  lemma DollarStep(n: nat, l: Value, all: seq<nat>, ns: seq<nat>, lits: seq<Value>, ls: seq<Value>, vals: seq<Value>)
    requires all == [n] + ns && lits == [l] + ls
    ensures Points(all, lits, 0, vals) <==> 1 <= n <= |vals| && vals[n - 1] == l && Points(ns, ls, 0, vals)
  {
    PointsStep(n, l, ns, ls, vals);
  }

  lemma FirstNumber(ts: seq<Tok>)
    requires ts != []
    ensures Numbers(ts) == if ts[0].Dollar? then [ts[0].n] + Numbers(ts[1..]) else Numbers(ts[1..])
  {
  }

  lemma FirstLit(r: seq<Tok>)
    requires r != []
    ensures Lits(r) == if r[0].Lit? then [r[0].v] + Lits(r[1..]) else Lits(r[1..])
  {
  }

  /** A placeholder stands where the reference has a value, and any other token for itself. */
  lemma SameTok(t: Tok, r: Tok, vals: seq<Value>)
    requires EraseTok(t) == EraseTok(r) && !IsHole(r) && !t.Mark? && !t.Lit?
    ensures if t.Dollar? then r.Lit? && (ResolveTok(t, vals) == r <==> 1 <= t.n <= |vals| && vals[t.n - 1] == r.v)
            else t == r && !r.Lit? && ResolveTok(t, vals) == r
  {
  }

  lemma ResolveStep(ts: seq<Tok>, r: seq<Tok>, vals: seq<Value>)
    requires ts != [] && r != []
    ensures Resolve(ts, vals) == r <==> ResolveTok(ts[0], vals) == r[0] && Resolve(ts[1..], vals) == r[1..]
  {
    assert r == [r[0]] + r[1..];
    assert Resolve(ts, vals)[1..] == Resolve(ts[1..], vals);
  }

  lemma PointsStep(n: nat, l: Value, ns: seq<nat>, ls: seq<Value>, vals: seq<Value>)
    ensures Points([n] + ns, [l] + ls, 0, vals) <==> 1 <= n <= |vals| && vals[n - 1] == l && Points(ns, ls, 0, vals)
  {
    if |ns| == |ls| {
      PointsConcat([n], [l], ns, ls, 0, vals);
      assert Points([n], [l], 0, vals) <==> 1 <= n <= |vals| && vals[n - 1] == l by {
        assert [n][0] == n && [l][0] == l;
      }
    }
  }

  lemma PointsConcat(n1: seq<nat>, l1: seq<Value>, n2: seq<nat>, l2: seq<Value>, shift: nat, vals: seq<Value>)
    requires |n1| == |l1|
    ensures Points(n1 + n2, l1 + l2, shift, vals) <==> Points(n1, l1, shift, vals) && Points(n2, l2, shift, vals)
  {
    if Points(n1 + n2, l1 + l2, shift, vals) {
      forall i | 0 <= i < |n1| ensures 1 <= n1[i] + shift <= |vals| && vals[n1[i] + shift - 1] == l1[i] {
        assert (n1 + n2)[i] == n1[i] && (l1 + l2)[i] == l1[i];
      }
      forall i | 0 <= i < |n2| ensures 1 <= n2[i] + shift <= |vals| && vals[n2[i] + shift - 1] == l2[i] {
        assert (n1 + n2)[|n1| + i] == n2[i] && (l1 + l2)[|n1| + i] == l2[i];
      }
    }
  }
}
