/** Stale-while-revalidate: what a read returns, and how many refreshes are under way. */
module Refresh {
  import opened Wrappers

  datatype Cached = Cached(value: string, age: int)

  datatype Options = Options(refreshTtl: int, staleTtl: int)

  /** `Thrown` is a fetch that fails before it returns a promise. */
  datatype Outcome = FromCache(value: string, stale: bool) | Fetched | Thrown

  /** The keys being refreshed, and the count that limits them. */
  datatype State = State(pending: set<string>, concurrent: int)

  const IDLE := State({}, 0)

  datatype Event =
    | Resolve(key: string, cached: Option<Cached>, opts: Options, throws: bool)
    | Complete(key: string)

  /** A background refresh starts unless the key has one already or there are enough. */
  predicate MayStart(s: State, key: string, max: int) {
    key !in s.pending && s.concurrent < max
  }

  predicate IsStale(cached: Option<Cached>, opts: Options) {
    cached.Some? && opts.refreshTtl <= cached.value.age < opts.staleTtl
  }

  predicate Starts(s: State, e: Event, max: int) {
    e.Resolve? && IsStale(e.cached, e.opts) && MayStart(s, e.key, max)
  }

  function Next(s: State, e: Event, max: int): State {
    if e.Complete? then State(s.pending - {e.key}, s.concurrent - 1)
    else if Starts(s, e, max) then State(if e.throws then s.pending else s.pending + {e.key}, s.concurrent + 1)
    else s
  }

  function Answer(s: State, e: Event, max: int): Outcome
    requires e.Resolve?
  {
    if e.cached.Some? && e.cached.value.age < e.opts.refreshTtl then FromCache(e.cached.value.value, false)
    else if IsStale(e.cached, e.opts) then
      if MayStart(s, e.key, max) && e.throws then Thrown else FromCache(e.cached.value.value, true)
    else if e.throws then Thrown else Fetched
  }

  /** Only a fetch under way can complete. */
  predicate Proper(s: State, e: Event) {
    e.Complete? ==> e.key in s.pending
  }

  predicate ProperRun(events: seq<Event>, max: int)
    decreases |events|, 0
  {
    events != [] ==>
      ProperRun(events[..|events| - 1], max) && Proper(Run(events[..|events| - 1], max), events[|events| - 1])
  }

  function Run(events: seq<Event>, max: int): State
    requires ProperRun(events, max)
    decreases |events|, 1
  {
    if events == [] then IDLE else Next(Run(events[..|events| - 1], max), events[|events| - 1], max)
  }

  /** The background refreshes that threw before they were under way. */
  function Throws(events: seq<Event>, max: int): nat
    requires ProperRun(events, max)
  {
    if events == [] then 0
    else
      var front, e := events[..|events| - 1], events[|events| - 1];
      Throws(front, max) + if e.Resolve? && e.throws && Starts(Run(front, max), e, max) then 1 else 0
  }

  /** Refreshes of the key that started, less those that completed. */
  function UnderWay(events: seq<Event>, key: string, max: int): int
    requires ProperRun(events, max)
  {
    if events == [] then 0
    else
      var front, e := events[..|events| - 1], events[|events| - 1];
      UnderWay(front, key, max) +
      if e.key != key then 0 else if e.Complete? then -1 else if Starts(Run(front, max), e, max) && !e.throws then 1
      else 0
  }

  /** Over every interleaving of reads and completions: the counter is the number of keys being
      refreshed plus the refreshes that threw at once, it never passes the limit, and no key is
      refreshed twice at a time. */
  lemma {:induction false} Conservation(events: seq<Event>, key: string, max: nat)
    requires ProperRun(events, max)
    ensures Run(events, max).concurrent == |Run(events, max).pending| + Throws(events, max)
    ensures Run(events, max).concurrent <= max
    ensures UnderWay(events, key, max) == if key in Run(events, max).pending then 1 else 0
  {
    if events != [] {
      Conservation(events[..|events| - 1], key, max);
    }
  }

  /** A refresh that throws at once is counted for good: after `max` of them none ever starts again. */
  lemma ThrowsUseUp(events: seq<Event>, e: Event, max: nat)
    requires ProperRun(events, max) && Throws(events, max) >= max
    ensures !Starts(Run(events, max), e, max) && Run(events, max).pending == {}
  {
    Conservation(events, e.key, max);
  }

  /** In every run: a cached value is returned only below one of the two limits, as it is, and flagged
      stale exactly from the refresh limit on; everything else waits for the fetch. */
  lemma ReadReturns(events: seq<Event>, e: Event, max: nat)
    requires ProperRun(events, max) && e.Resolve?
    ensures var a := Answer(Run(events, max), e, max);
            && (a.FromCache? ==>
                  && e.cached.Some? && a.value == e.cached.value.value
                  && (e.cached.value.age < e.opts.refreshTtl || e.cached.value.age < e.opts.staleTtl)
                  && (a.stale <==> e.cached.value.age >= e.opts.refreshTtl))
            && (e.cached.Some? && !e.throws ==>
                  (a.FromCache? <==>
                   e.cached.value.age < e.opts.refreshTtl || e.cached.value.age < e.opts.staleTtl))
            && (e.cached.None? || (e.cached.value.age >= e.opts.refreshTtl && e.cached.value.age >= e.opts.staleTtl) ==>
                  a == if e.throws then Thrown else Fetched)
  {
  }

  /** A stale read starts a refresh exactly when the key has none under way and those under way and
      those that threw are fewer than the limit. */
  lemma StaleReadRefreshes(events: seq<Event>, e: Event, max: nat)
    requires ProperRun(events, max) && e.Resolve? && !e.throws
    ensures var s, t := Run(events, max), Next(Run(events, max), e, max);
            var starts := e.cached.Some? && e.opts.refreshTtl <= e.cached.value.age < e.opts.staleTtl &&
              UnderWay(events, e.key, max) == 0 && |s.pending| + Throws(events, max) < max;
            t.pending == s.pending + (if starts then {e.key} else {}) &&
            t.concurrent == s.concurrent + if starts then 1 else 0
  {
    Conservation(events, e.key, max);
  }
}

module Refreshers {
  import opened Wrappers
  import opened Refresh

  class BackgroundRefresher {
    const max: nat
    var pendingRefreshes: set<string>
    var concurrent: int

    ghost function Abs(): State
      reads this
    {
      State(pendingRefreshes, concurrent)
    }

    constructor (maxConcurrent: Option<nat>)
      ensures Abs() == IDLE && max == (if maxConcurrent.Some? then maxConcurrent.value else 5)
    {
      max := if maxConcurrent.Some? then maxConcurrent.value else 5;
      pendingRefreshes, concurrent := {}, 0;
    }

    /** `throws` says whether calling the fetch would throw before returning a promise. */
    method ResolveKey(key: string, cached: Option<Cached>, opts: Options, throws: bool) returns (r: Outcome)
      modifies this
      ensures Abs() == Next(old(Abs()), Resolve(key, cached, opts, throws), max)
      ensures r == Answer(old(Abs()), Resolve(key, cached, opts, throws), max)
    {
      if cached.Some? {
        if cached.value.age < opts.refreshTtl {
          return FromCache(cached.value.value, false);
        }
        if cached.value.age < opts.staleTtl {
          var ok := RefreshInBackground(key, throws);
          return if ok then FromCache(cached.value.value, true) else Thrown;
        }
      }
      return if throws then Thrown else Fetched;
    }

    method RefreshInBackground(key: string, throws: bool) returns (ok: bool)
      modifies this
      ensures ok <==> !(MayStart(old(Abs()), key, max) && throws)
      ensures Abs() == if !MayStart(old(Abs()), key, max) then old(Abs())
                       else State(if throws then old(pendingRefreshes)
                                  else old(pendingRefreshes) + {key}, old(concurrent) + 1)
    {
      if key in pendingRefreshes {
        return true;
      }
      if concurrent >= max {
        return true;
      }
      concurrent := concurrent + 1;
      if throws {
        return false;
      }
      pendingRefreshes := pendingRefreshes + {key};
      return true;
    }

    /** What runs when a background fetch settles. */
    method Settle(key: string)
      modifies this
      ensures Abs() == Next(old(Abs()), Complete(key), max)
    {
      pendingRefreshes := pendingRefreshes - {key};
      concurrent := concurrent - 1;
    }
  }

  /** What the reads of a run return, in order. */
  function Answers(events: seq<Event>, max: nat): seq<Outcome>
    requires ProperRun(events, max)
    decreases |events|
  {
    if events == [] then []
    else
      var front, e := events[..|events| - 1], events[|events| - 1];
      if e.Resolve? then Answers(front, max) + [Answer(Run(front, max), e, max)] else Answers(front, max)
  }

  /** Any interleaving of reads and of background fetches that settle drives the object through the
      run of the state machine. */
  method Interleave(events: seq<Event>, maxConcurrent: Option<nat>)
      returns (r: BackgroundRefresher, answers: seq<Outcome>)
    requires ProperRun(events, if maxConcurrent.Some? then maxConcurrent.value else 5)
    ensures r.max == if maxConcurrent.Some? then maxConcurrent.value else 5
    ensures r.Abs() == Run(events, r.max) && answers == Answers(events, r.max)
  {
    r := new BackgroundRefresher(maxConcurrent);
    answers := [];
    for i := 0 to |events|
      invariant fresh(r) && r.max == if maxConcurrent.Some? then maxConcurrent.value else 5
      invariant ProperRun(events[..i], r.max)
      invariant r.Abs() == Run(events[..i], r.max) && answers == Answers(events[..i], r.max)
    {
      NextProper(events, i, r.max);
      match events[i] {
        case Resolve(key, cached, opts, throws) =>
          var answer := r.ResolveKey(key, cached, opts, throws);
          answers := answers + [answer];
        case Complete(key) => r.Settle(key);
      }
    }
    assert events[..|events|] == events;
  }

  lemma NextProper(events: seq<Event>, i: nat, max: nat)
    requires ProperRun(events, max) && i < |events|
    ensures ProperRun(events[..i], max) && ProperRun(events[..i + 1], max)
    ensures Proper(Run(events[..i], max), events[i])
    ensures Run(events[..i + 1], max) == Next(Run(events[..i], max), events[i], max)
    ensures Answers(events[..i + 1], max) ==
            if events[i].Resolve? then Answers(events[..i], max) + [Answer(Run(events[..i], max), events[i], max)]
            else Answers(events[..i], max)
  {
    PrefixProper(events, i + 1, max);
    assert events[..i + 1][..i] == events[..i];
  }

  lemma {:induction false} PrefixProper(events: seq<Event>, i: nat, max: nat)
    requires ProperRun(events, max) && i <= |events|
    ensures ProperRun(events[..i], max)
    decreases |events|
  {
    if i == |events| {
      assert events[..i] == events;
    } else {
      PrefixProper(events[..|events| - 1], i, max);
      assert events[..|events| - 1][..i] == events[..i];
    }
  }
}
