/** The two fixed-window rate limiters over whole request traces. */
module RateLimits {
  datatype Bucket = Bucket(count: nat, resetAt: int)

  datatype Config = Config(max: int, windowMs: int)

  /** The limiter of the driver and the one of the auth package. */
  datatype Kind = Driver | Auth

  datatype Event = Check(key: string, now: int) | Cleanup(now: int)

  type Buckets = map<string, Bucket>

  predicate Over(b: Buckets, key: string, now: int) {
    key !in b || b[key].resetAt < now
  }

  /** The bucket after a request is counted; an old one gives way to a new window. */
  function Counted(b: Buckets, cfg: Config, key: string, now: int): Bucket {
    if Over(b, key, now) then Bucket(1, now + cfg.windowMs) else b[key].(count := b[key].count + 1)
  }

  /** The auth limiter lets the first request of a window pass without looking at the maximum. */
  predicate Allowed(kind: Kind, b: Buckets, cfg: Config, key: string, now: int) {
    (kind.Auth? && Over(b, key, now)) || Counted(b, cfg, key, now).count <= cfg.max
  }

  function Swept(b: Buckets, now: int): Buckets {
    map k | k in b && b[k].resetAt >= now :: b[k]
  }

  /** With `sweep` off the timer does nothing. */
  function Next(b: Buckets, cfg: Config, sweep: bool, e: Event): Buckets {
    match e
    case Check(key, now) => b[key := Counted(b, cfg, key, now)]
    case Cleanup(now) => if sweep then Swept(b, now) else b
  }

  /** For every event of a trace, whether it is a request that is let through. */
  function Decisions(kind: Kind, b: Buckets, cfg: Config, sweep: bool, events: seq<Event>): (r: seq<bool>)
    ensures |r| == |events|
    decreases |events|
  {
    if events == [] then []
    else
      var e := events[0];
      [e.Check? && Allowed(kind, b, cfg, e.key, e.now)] +
          Decisions(kind, Next(b, cfg, sweep, e), cfg, sweep, events[1..])
  }

  predicate Monotone(events: seq<Event>) {
    forall i, j | 0 <= i < j < |events| :: events[i].now <= events[j].now
  }

  // ---- cleaning up is invisible ----

  /** The same bucket under every key, except that buckets that are over may be missing. */
  ghost predicate Alike(a: Buckets, b: Buckets, now: int) {
    forall k :: (Over(a, k, now) && Over(b, k, now)) || (k in a && k in b && a[k] == b[k])
  }

  lemma StepAlike(a: Buckets, b: Buckets, cfg: Config, e: Event, now: int)
    requires Alike(a, b, now) && now <= e.now
    ensures Alike(Next(a, cfg, true, e), Next(b, cfg, false, e), e.now)
    ensures forall kind | e.Check? :: Allowed(kind, a, cfg, e.key, e.now) == Allowed(kind, b, cfg, e.key, e.now)
  {
    if e.Check? {
      assert Counted(a, cfg, e.key, e.now) == Counted(b, cfg, e.key, e.now);
    }
  }

  lemma {:induction false} AlikeDecisions(kind: Kind, a: Buckets, b: Buckets, cfg: Config, now: int, events: seq<Event>)
    requires Alike(a, b, now) && Monotone(events) && (events != [] ==> now <= events[0].now)
    ensures Decisions(kind, a, cfg, true, events) == Decisions(kind, b, cfg, false, events)
    decreases |events|
  {
    if events != [] {
      var e := events[0];
      StepAlike(a, b, cfg, e, now);
      AlikeDecisions(kind, Next(a, cfg, true, e), Next(b, cfg, false, e), cfg, e.now, events[1..]);
    }
  }

  /** Running the cleanup at any points of a trace changes no answer. */
  lemma CleanupInvisible(kind: Kind, cfg: Config, events: seq<Event>)
    requires Monotone(events)
    ensures Decisions(kind, map[], cfg, true, events) == Decisions(kind, map[], cfg, false, events)
  {
    AlikeDecisions(kind, map[], map[], cfg, if events == [] then 0 else events[0].now, events);
  }

  // ---- the two limiters ----

  lemma {:induction false} SameFromHere(b: Buckets, cfg: Config, sweep: bool, events: seq<Event>)
    requires cfg.max >= 1
    ensures Decisions(Driver, b, cfg, sweep, events) == Decisions(Auth, b, cfg, sweep, events)
    decreases |events|
  {
    if events != [] {
      SameFromHere(Next(b, cfg, sweep, events[0]), cfg, sweep, events[1..]);
    }
  }

  /** The two limiters decide alike on every trace exactly when the maximum is at least one. */
  lemma SameDecisions(cfg: Config)
    ensures (forall events ::
              Decisions(Driver, map[], cfg, true, events) == Decisions(Auth, map[], cfg, true, events)) <==>
            cfg.max >= 1
  {
    if cfg.max >= 1 {
      forall events ensures Decisions(Driver, map[], cfg, true, events) == Decisions(Auth, map[], cfg, true, events) {
        SameFromHere(map[], cfg, true, events);
      }
    } else {
      var once := [Check("k", 0)];
      assert Decisions(Driver, map[], cfg, true, once)[0] == false;
      assert Decisions(Auth, map[], cfg, true, once)[0] == true;
    }
  }

  // ---- how many requests pass ----

  /** The requests under a key that are let through from time `s` to time `t`. */
  function Passed(kind: Kind, b: Buckets, cfg: Config, sweep: bool, events: seq<Event>, key: string, s: int,
                  t: int): nat
    decreases |events|
  {
    if events == [] then 0
    else
      var e := events[0];
      (if e.Check? && e.key == key && s <= e.now <= t && Allowed(kind, b, cfg, key, e.now) then 1 else 0)
      + Passed(kind, Next(b, cfg, sweep, e), cfg, sweep, events[1..], key, s, t)
  }

  function AtLeastZero(n: int): nat {
    if n < 0 then 0 else n
  }

  /** What a bucket can still let through between `s` and `t`, one window length apart. */
  function Budget(b: Buckets, cfg: Config, key: string, s: int, t: int): int {
    if key !in b || b[key].resetAt < s then 2 * cfg.max - 1
    else if b[key].resetAt < t then AtLeastZero(cfg.max - b[key].count) + cfg.max
    else AtLeastZero(cfg.max - b[key].count)
  }

  lemma {:induction false} NonePassLater(b: Buckets, cfg: Config, events: seq<Event>, key: string, s: int, t: int)
    requires Monotone(events) && (events != [] ==> events[0].now > t)
    ensures Passed(Driver, b, cfg, false, events, key, s, t) == 0
    decreases |events|
  {
    if events != [] {
      NonePassLater(Next(b, cfg, false, events[0]), cfg, events[1..], key, s, t);
    }
  }

  ghost predicate Started(b: Buckets) {
    forall k | k in b :: b[k].count >= 1
  }

  lemma {:induction false} WithinBudget(b: Buckets, cfg: Config, events: seq<Event>, key: string, s: int)
    requires Monotone(events) && Started(b) && cfg.max >= 1
    ensures Passed(Driver, b, cfg, false, events, key, s, s + cfg.windowMs) <= Budget(b, cfg, key, s, s + cfg.windowMs)
    decreases |events|
  {
    if events != [] {
      var e := events[0];
      if e.now > s + cfg.windowMs {
        NonePassLater(b, cfg, events, key, s, s + cfg.windowMs);
      } else {
        WithinBudget(Next(b, cfg, false, e), cfg, events[1..], key, s);
      }
    }
  }

  lemma {:induction false} PassedFromDecisions(kind: Kind, a: Buckets, b: Buckets, cfg: Config, now: int,
                                               events: seq<Event>, key: string, s: int, t: int)
    requires Alike(a, b, now) && Monotone(events) && (events != [] ==> now <= events[0].now) && cfg.max >= 1
    ensures Passed(kind, a, cfg, true, events, key, s, t) == Passed(Driver, b, cfg, false, events, key, s, t)
    decreases |events|
  {
    if events != [] {
      var e := events[0];
      StepAlike(a, b, cfg, e, now);
      PassedFromDecisions(kind, Next(a, cfg, true, e), Next(b, cfg, false, e), cfg, e.now, events[1..], key, s, t);
    }
  }

  /** Under a clock that does not run backwards, with cleanups at any points, both limiters let at
      most `2 * max - 1` requests of a key pass in any span of one window length, ends included. */
  lemma SpanBound(kind: Kind, cfg: Config, events: seq<Event>, key: string, s: int)
    requires Monotone(events) && cfg.max >= 1
    ensures Passed(kind, map[], cfg, true, events, key, s, s + cfg.windowMs) <= 2 * cfg.max - 1
  {
    var start := if events == [] then 0 else events[0].now;
    PassedFromDecisions(kind, map[], map[], cfg, start, events, key, s, s + cfg.windowMs);
    WithinBudget(map[], cfg, events, key, s);
  }

  /** The bound is reached: a window opened just before the span, used up at its end, and a new one. */
  lemma SpanBoundReached()
    ensures var events := [Check("k", 0), Check("k", 10), Check("k", 11), Check("k", 11)];
            Monotone(events) && Passed(Driver, map[], Config(2, 10), true, events, "k", 1, 11) == 3
  {
    var cfg := Config(2, 10);
    var b1: Buckets := map["k" := Bucket(1, 10)];
    var b2: Buckets := map["k" := Bucket(2, 10)];
    var b3: Buckets := map["k" := Bucket(1, 21)];
    var e1, e2, e3 := Check("k", 0), Check("k", 10), Check("k", 11);
    assert Next(map[], cfg, true, e1) == b1 && Next(b1, cfg, true, e2) == b2 && Next(b2, cfg, true, e3) == b3;
    PassedStep(map[], cfg, e1, [e2, e3, e3]);
    PassedStep(b1, cfg, e2, [e3, e3]);
    PassedStep(b2, cfg, e3, [e3]);
    PassedStep(b3, cfg, e3, []);
  }

  lemma PassedStep(b: Buckets, cfg: Config, e: Event, rest: seq<Event>)
    ensures Passed(Driver, b, cfg, true, [e] + rest, "k", 1, 11) ==
            (if e.Check? && e.key == "k" && 1 <= e.now <= 11 && Allowed(Driver, b, cfg, "k", e.now) then 1 else 0)
            + Passed(Driver, Next(b, cfg, true, e), cfg, true, rest, "k", 1, 11)
  {
    assert ([e] + rest)[1..] == rest;
  }

  // ---- a request is refused only when its window is full ----

  function After(b: Buckets, cfg: Config, events: seq<Event>): Buckets
    decreases |events|
  {
    if events == [] then b else After(Next(b, cfg, false, events[0]), cfg, events[1..])
  }

  function AtMost(n: int, max: int): int {
    if n < max then n else max
  }

  /** What a bucket has let through in the window that ends at `end`. */
  function Spent(b: Buckets, cfg: Config, key: string, end: int): int {
    if key in b && b[key].resetAt == end then AtMost(b[key].count, cfg.max) else 0
  }

  /** No window began after `now`. */
  ghost predicate Begun(b: Buckets, cfg: Config, now: int) {
    forall k | k in b :: b[k].resetAt <= now + cfg.windowMs
  }

  /** The requests counted in the last window have passed in it, up to the maximum. */
  lemma {:induction false} CountedPassed(b: Buckets, cfg: Config, events: seq<Event>, key: string, t: int, now: int)
    requires Monotone(events) && cfg.max >= 1 && Begun(b, cfg, now)
    requires events != [] ==> now <= events[0].now && events[|events| - 1].now <= t
    requires key in After(b, cfg, events)
    ensures var last := After(b, cfg, events)[key];
            Passed(Driver, b, cfg, false, events, key, last.resetAt - cfg.windowMs, t) +
            Spent(b, cfg, key, last.resetAt) >= AtMost(last.count, cfg.max)
    decreases |events|
  {
    if events != [] {
      var e, rest := events[0], events[1..];
      assert e.now <= events[|events| - 1].now;
      CountedPassed(Next(b, cfg, false, e), cfg, rest, key, t, e.now);
    }
  }

  lemma {:induction false} BegunAfter(b: Buckets, cfg: Config, events: seq<Event>, now: int, t: int)
    requires Monotone(events) && Begun(b, cfg, now)
    requires if events == [] then now <= t else now <= events[0].now && events[|events| - 1].now <= t
    ensures Begun(After(b, cfg, events), cfg, t)
    decreases |events|
  {
    if events != [] {
      assert events[0].now <= events[|events| - 1].now;
      BegunAfter(Next(b, cfg, false, events[0]), cfg, events[1..], events[0].now, t);
    }
  }

  lemma {:induction false} WiderSpan(b: Buckets, cfg: Config, events: seq<Event>, key: string, s: int, s': int, t: int)
    requires s' <= s
    ensures Passed(Driver, b, cfg, false, events, key, s, t) <= Passed(Driver, b, cfg, false, events, key, s', t)
    decreases |events|
  {
    if events != [] {
      WiderSpan(Next(b, cfg, false, events[0]), cfg, events[1..], key, s, s', t);
    }
  }

  lemma {:induction false} AfterAlike(a: Buckets, b: Buckets, cfg: Config, now: int, events: seq<Event>, t: int)
    requires Alike(a, b, now) && Monotone(events)
    requires if events == [] then now <= t else now <= events[0].now && events[|events| - 1].now <= t
    ensures Alike(AfterSwept(a, cfg, events), After(b, cfg, events), t)
    decreases |events|
  {
    if events != [] {
      var e := events[0];
      assert e.now <= events[|events| - 1].now;
      StepAlike(a, b, cfg, e, now);
      AfterAlike(Next(a, cfg, true, e), Next(b, cfg, false, e), cfg, e.now, events[1..], t);
    }
  }

  function AfterSwept(b: Buckets, cfg: Config, events: seq<Event>): Buckets
    decreases |events|
  {
    if events == [] then b else AfterSwept(Next(b, cfg, true, events[0]), cfg, events[1..])
  }

  /** Under a clock that does not run backwards, with cleanups at any points: a request is refused only
      if as many requests of its key as the maximum have passed within the window length before it. */
  lemma RefusedOnlyWhenFull(kind: Kind, cfg: Config, events: seq<Event>, key: string, now: int)
    requires Monotone(events) && (events != [] ==> events[|events| - 1].now <= now) && cfg.max >= 1
    requires !Allowed(kind, AfterSwept(map[], cfg, events), cfg, key, now)
    ensures Passed(kind, map[], cfg, true, events, key, now - cfg.windowMs, now) >= cfg.max
  {
    var start := if events == [] then now else events[0].now;
    PassedFromDecisions(kind, map[], map[], cfg, start, events, key, now - cfg.windowMs, now);
    AfterAlike(map[], map[], cfg, start, events, now);
    var b := After(map[], cfg, events);
    CountedPassed(map[], cfg, events, key, now, start);
    BegunAfter(map[], cfg, events, start, now);
    WiderSpan(map[], cfg, events, key, b[key].resetAt - cfg.windowMs, now - cfg.windowMs, now);
  }
}

module RateLimiters {
  import opened RateLimits

  class RateLimiter {
    const cfg: Config
    var buckets: Buckets

    constructor (cfg: Config)
      ensures this.cfg == cfg && buckets == map[]
    {
      this.cfg := cfg;
      buckets := map[];
    }

    method Check(key: string, now: int) returns (allowed: bool)
      modifies this
      ensures allowed == Allowed(Driver, old(buckets), cfg, key, now)
      ensures buckets == Next(old(buckets), cfg, true, Event.Check(key, now))
    {
      if key !in buckets || buckets[key].resetAt < now {
        buckets := buckets[key := Bucket(0, now + cfg.windowMs)];
      }
      buckets := buckets[key := buckets[key].(count := buckets[key].count + 1)];
      allowed := buckets[key].count <= cfg.max;
    }

    method Cleanup(now: int)
      modifies this
      ensures buckets == Next(old(buckets), cfg, true, Event.Cleanup(now))
    {
      buckets := DeleteOld(buckets, now);
    }
  }

  /** The loop of the cleanup, over the keys in whatever order. */
  method DeleteOld(buckets: Buckets, now: int) returns (left: Buckets)
    ensures left == Swept(buckets, now)
  {
    left := buckets;
    var keys := buckets.Keys;
    while keys != {}
      invariant keys <= buckets.Keys
      invariant left == map k | k in buckets && (k in keys || buckets[k].resetAt >= now) :: buckets[k]
    {
      var key :| key in keys;
      if buckets[key].resetAt < now {
        left := left - {key};
      }
      keys := keys - {key};
    }
  }

  class InMemoryRateLimiter {
    const cfg: Config
    var store: Buckets

    constructor (cfg: Config)
      ensures this.cfg == cfg && store == map[]
    {
      this.cfg := cfg;
      store := map[];
    }

    method Check(key: string, now: int) returns (allowed: bool, remaining: int, resetAt: int)
      modifies this
      ensures allowed == Allowed(Auth, old(store), cfg, key, now)
      ensures store == Next(old(store), cfg, true, Event.Check(key, now))
      ensures key in store && resetAt == store[key].resetAt
      ensures remaining == // the first request of a window is not held to a maximum below one
              if key !in old(store) || now > old(store)[key].resetAt then cfg.max - 1
              else AtLeastZero(cfg.max - store[key].count)
    {
      if key !in store || now > store[key].resetAt {
        store := store[key := Bucket(1, now + cfg.windowMs)];
        return true, cfg.max - 1, now + cfg.windowMs;
      }
      store := store[key := store[key].(count := store[key].count + 1)];
      allowed := store[key].count <= cfg.max;
      remaining := if cfg.max - store[key].count > 0 then cfg.max - store[key].count else 0;
      resetAt := store[key].resetAt;
    }

    method Cleanup(now: int)
      modifies this
      ensures store == Next(old(store), cfg, true, Event.Cleanup(now))
    {
      store := DeleteOld(store, now);
    }
  }
}
