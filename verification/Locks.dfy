/** The lease lock: at most one body per key, for as long as nobody outstays a lease. */
module Locks {
  datatype Lease = Lease(key: string, expires: int)

  /** `active` are the callers whose body is running, each with the lease it was granted. */
  datatype State = State(locks: map<string, int>, active: map<nat, Lease>)

  const START := State(map[], map[])

  /** A caller enters `withLock`, or its body ends. */
  datatype Event = Enter(caller: nat, key: string, ttl: int, now: int) | Leave(caller: nat)

  predicate Free(locks: map<string, int>, key: string, now: int) {
    key !in locks || now >= locks[key]
  }

  /** A caller that does not get the lock runs no body and releases nothing. */
  function Next(s: State, e: Event): State
    requires e.Leave? ==> e.caller in s.active
  {
    match e
    case Enter(c, key, ttl, now) =>
      if Free(s.locks, key, now) then State(s.locks[key := now + ttl], s.active[c := Lease(key, now + ttl)]) else s
    case Leave(c) => State(s.locks - {s.active[c].key}, s.active - {c})
  }

  /** A caller enters when it has no body running and leaves when it has one. */
  predicate Proper(s: State, e: Event) {
    (e.Enter? ==> e.caller !in s.active) && (e.Leave? ==> e.caller in s.active)
  }

  predicate ProperRun(events: seq<Event>)
    decreases |events|, 0
  {
    events != [] ==> ProperRun(events[..|events| - 1]) && Proper(Run(events[..|events| - 1]), events[|events| - 1])
  }

  function Run(events: seq<Event>): State
    requires ProperRun(events)
    decreases |events|, 1
  {
    if events == [] then START else Next(Run(events[..|events| - 1]), events[|events| - 1])
  }

  lemma {:induction false} PrefixProper(events: seq<Event>, i: nat)
    requires ProperRun(events) && i <= |events|
    ensures ProperRun(events[..i])
    decreases |events|
  {
    if i == |events| {
      assert events[..i] == events;
    } else {
      PrefixProper(events[..|events| - 1], i);
      assert events[..|events| - 1][..i] == events[..i];
    }
  }

  /** No two running bodies have the same key. */
  predicate Exclusive(s: State) {
    forall a, b | a in s.active && b in s.active && a != b :: s.active[a].key != s.active[b].key
  }

  predicate ExclusiveRun(events: seq<Event>)
    requires ProperRun(events)
  {
    Exclusive(Run(events)) && (events != [] ==> ExclusiveRun(events[..|events| - 1]))
  }

  /** Nobody asks for a key at or after the expiry of a body that still runs under it. */
  predicate InTime(s: State, e: Event) {
    e.Enter? ==> forall c | c in s.active && s.active[c].key == e.key :: e.now < s.active[c].expires
  }

  predicate InTimeRun(events: seq<Event>)
    requires ProperRun(events)
  {
    events != [] ==> InTimeRun(events[..|events| - 1]) && InTime(Run(events[..|events| - 1]), events[|events| - 1])
  }

  /** The entries of the lock are exactly the leases of the running bodies. */
  ghost predicate Owned(s: State) {
    && (forall c | c in s.active :: s.active[c].key in s.locks && s.locks[s.active[c].key] == s.active[c].expires)
    && (forall k | k in s.locks :: exists c :: c in s.active && s.active[c].key == k)
  }

  lemma {:induction false} InTimeIsOwned(events: seq<Event>)
    requires ProperRun(events) && InTimeRun(events)
    ensures Owned(Run(events)) && ExclusiveRun(events)
  {
    if events != [] {
      var front, e := events[..|events| - 1], events[|events| - 1];
      InTimeIsOwned(front);
      StepOwned(Run(front), e);
    }
  }

  lemma StepOwned(s: State, e: Event)
    requires Owned(s) && Exclusive(s) && Proper(s, e) && InTime(s, e)
    ensures Owned(Next(s, e)) && Exclusive(Next(s, e))
  {
    match e
    case Enter(c, key, ttl, now) => EnterOwned(s, c, key, ttl, now);
    case Leave(c) =>
      var t := Next(s, e);
      forall k | k in t.locks ensures exists d :: d in t.active && t.active[d].key == k {
        var d :| d in s.active && s.active[d].key == k;
        assert d in t.active;
      }
  }

  lemma EnterOwned(s: State, c: nat, key: string, ttl: int, now: int)
    requires Owned(s) && Exclusive(s) && c !in s.active && InTime(s, Enter(c, key, ttl, now))
    ensures Owned(Next(s, Enter(c, key, ttl, now))) && Exclusive(Next(s, Enter(c, key, ttl, now)))
  {
    if Free(s.locks, key, now) {
      forall d | d in s.active ensures s.active[d].key != key {
        assert s.locks[s.active[d].key] == s.active[d].expires;
      }
      var t := Next(s, Enter(c, key, ttl, now));
      forall k | k in t.locks ensures exists d :: d in t.active && t.active[d].key == k {
        if k == key {
          assert t.active[c].key == key;
        } else {
          var d :| d in s.active && s.active[d].key == k;
          assert d in t.active && t.active[d].key == k;
        }
      }
    }
  }

  /** A key asked for too late is granted twice. */
  lemma LateIsShared(s: State, e: Event)
    requires Owned(s) && Proper(s, e) && !InTime(s, e)
    ensures !Exclusive(Next(s, e))
  {
    var d :| d in s.active && s.active[d].key == e.key && e.now >= s.active[d].expires;
    var t := Next(s, e);
    assert t.active[d].key == t.active[e.caller].key;
  }

  /** In every interleaving: mutual exclusion holds throughout exactly when nobody asks for a key at
      or after the expiry of a body still running under it. */
  lemma {:induction false} ExclusiveExactly(events: seq<Event>)
    requires ProperRun(events)
    ensures ExclusiveRun(events) <==> InTimeRun(events)
  {
    if events != [] {
      var front, e := events[..|events| - 1], events[|events| - 1];
      ExclusiveExactly(front);
      if ExclusiveRun(front) {
        InTimeIsOwned(front);
        if InTime(Run(front), e) {
          StepOwned(Run(front), e);
        } else {
          LateIsShared(Run(front), e);
        }
      }
    }
  }

  /** As long as the runs are in time, leaving removes the caller's own entry and no other, and a
      caller that is turned away changes nothing. */
  lemma ReleasesItsOwn(events: seq<Event>, e: Event)
    requires ProperRun(events) && InTimeRun(events) && Proper(Run(events), e)
    ensures e.Leave? ==>
              var s, lease := Run(events), Run(events).active[e.caller];
              && lease.key in s.locks && s.locks[lease.key] == lease.expires
              && Next(s, e).locks == s.locks - {lease.key}
              && forall c | c in s.active && c != e.caller :: s.active[c].key in Next(s, e).locks
    ensures e.Enter? && e.caller !in Next(Run(events), e).active ==> Next(Run(events), e) == Run(events)
  {
    InTimeIsOwned(events);
  }

  // ---- when a caller is let in ----

  /** In a run that is in time a caller is let in exactly when no body runs under the key. */
  lemma GrantedExactly(events: seq<Event>, c: nat, key: string, ttl: int, now: int)
    requires ProperRun(events) && InTimeRun(events)
    requires Proper(Run(events), Enter(c, key, ttl, now)) && InTime(Run(events), Enter(c, key, ttl, now))
    ensures c in Next(Run(events), Enter(c, key, ttl, now)).active <==>
            forall d | d in Run(events).active :: Run(events).active[d].key != key
    ensures c in Next(Run(events), Enter(c, key, ttl, now)).active ==>
              Next(Run(events), Enter(c, key, ttl, now)).active[c] == Lease(key, now + ttl)
  {
    InTimeIsOwned(events);
    var s := Run(events);
    if key in s.locks {
      var d :| d in s.active && s.active[d].key == key;
    }
  }

  /** The event let its caller in, under the key. */
  predicate Granted(events: seq<Event>, i: nat, key: string)
    requires ProperRun(events) && i < |events|
  {
    PrefixProper(events, i);
    PrefixProper(events, i + 1);
    && events[i].Enter? && events[i].key == key
    && events[i].caller !in Run(events[..i]).active && events[i].caller in Run(events[..i + 1]).active
  }

  /** The event ended a body that ran under the key. */
  predicate Released(events: seq<Event>, i: nat, key: string)
    requires ProperRun(events) && i < |events|
  {
    PrefixProper(events, i);
    && events[i].Leave? && events[i].caller in Run(events[..i]).active
    && Run(events[..i]).active[events[i].caller].key == key
  }

  /** No body under the key has ended since the event. */
  predicate StillRunning(events: seq<Event>, i: nat, key: string)
    requires ProperRun(events)
  {
    forall j | i < j < |events| :: !Released(events, j, key)
  }

  /** The entry of a key comes from a caller that was let in and has not been released since. */
  ghost predicate Explained(events: seq<Event>, key: string, expires: int)
    requires ProperRun(events)
  {
    exists i | 0 <= i < |events| ::
      Granted(events, i, key) && expires == events[i].now + events[i].ttl && StillRunning(events, i, key)
  }

  lemma {:induction false} EntriesExplained(events: seq<Event>, key: string)
    requires ProperRun(events) && key in Run(events).locks
    ensures Explained(events, key, Run(events).locks[key])
  {
    var front, e := events[..|events| - 1], events[|events| - 1];
    var s := Run(front);
    assert events[..|events|] == events;
    if e.Enter? && e.key == key && Next(s, e) != s {
      assert Granted(events, |events| - 1, key);
    } else {
      EntriesExplained(front, key);
      StaysExplained(events, key, s.locks[key]);
    }
  }

  /** What an event did does not depend on what came after it. */
  lemma EarlierSame(events: seq<Event>, j: nat, key: string)
    requires ProperRun(events) && j < |events| - 1
    ensures ProperRun(events[..|events| - 1])
    ensures Released(events[..|events| - 1], j, key) <==> Released(events, j, key)
    ensures Granted(events[..|events| - 1], j, key) <==> Granted(events, j, key)
  {
    var front := events[..|events| - 1];
    PrefixProper(front, j);
    PrefixProper(front, j + 1);
    assert front[..j] == events[..j] && front[..j + 1] == events[..j + 1] && front[j] == events[j];
  }

  lemma KeepsRunning(events: seq<Event>, i: nat, key: string)
    requires ProperRun(events) && events != [] && ProperRun(events[..|events| - 1])
    requires StillRunning(events[..|events| - 1], i, key) && !Released(events, |events| - 1, key)
    ensures StillRunning(events, i, key)
  {
    hide Released, Run, ProperRun;
    forall j | i < j < |events| ensures !Released(events, j, key) {
      if j < |events| - 1 {
        EarlierSame(events, j, key);
      }
    }
  }

  lemma StaysExplained(events: seq<Event>, key: string, expires: int)
    requires ProperRun(events) && events != [] && Explained(events[..|events| - 1], key, expires)
    requires !Released(events, |events| - 1, key)
    ensures Explained(events, key, expires)
  {
    PrefixProper(events, |events| - 1);
    var front := events[..|events| - 1];
    var i :| 0 <= i < |front| && Granted(front, i, key) && expires == front[i].now + front[i].ttl &&
      StillRunning(front, i, key);
    EarlierSame(events, i, key);
    hide Released, Run, ProperRun, StillRunning;
    KeepsRunning(events, i, key);
    assert Granted(events, i, key) && expires == events[i].now + events[i].ttl;
  }

  /** Whoever is turned away meets a lease: some caller was let in under the key, was not released
      since, and its time has not run out. */
  lemma RefusalExplained(events: seq<Event>, c: nat, key: string, ttl: int, now: int)
    requires ProperRun(events) && Proper(Run(events), Enter(c, key, ttl, now))
    requires c !in Next(Run(events), Enter(c, key, ttl, now)).active
    ensures exists i | 0 <= i < |events| ::
              Granted(events, i, key) && now < events[i].now + events[i].ttl && StillRunning(events, i, key)
  {
    EntriesExplained(events, key);
  }

  // ---- bodies that finish in time ----

  /** When a caller enters, every running body is still within its lease. */
  predicate AllWithinLease(s: State, e: Event) {
    e.Enter? ==> forall c | c in s.active :: e.now < s.active[c].expires
  }

  predicate WithinLeases(events: seq<Event>)
    requires ProperRun(events)
  {
    events != [] ==>
      WithinLeases(events[..|events| - 1]) && AllWithinLease(Run(events[..|events| - 1]), events[|events| - 1])
  }

  lemma {:induction false} WithinLeasesExclusive(events: seq<Event>)
    requires ProperRun(events) && WithinLeases(events)
    ensures InTimeRun(events) && ExclusiveRun(events)
  {
    if events != [] {
      WithinLeasesExclusive(events[..|events| - 1]);
    }
    ExclusiveExactly(events);
  }
}

module LockObjects {
  import opened Locks

  class InProcessLock {
    var locks: map<string, int>

    constructor ()
      ensures locks == map[]
    {
      locks := map[];
    }

    method Acquire(key: string, ttl: int, now: int) returns (acquired: bool)
      modifies this
      ensures acquired <==> Free(old(locks), key, now)
      ensures locks == if acquired then old(locks)[key := now + ttl] else old(locks)
    {
      if key in locks {
        if now < locks[key] {
          return false;
        }
        locks := locks - {key};
      }
      locks := locks[key := now + ttl];
      return true;
    }

    method Release(key: string)
      modifies this
      ensures locks == old(locks) - {key}
    {
      locks := locks - {key};
    }
  }

  /** Any interleaving of callers, each holding to acquire, body, release, drives the object through
      the run of the state machine. */
  method Interleave(events: seq<Event>) returns (lock: InProcessLock, active: map<nat, Lease>)
    requires ProperRun(events)
    ensures State(lock.locks, active) == Run(events)
  {
    lock := new InProcessLock();
    active := map[];
    for i := 0 to |events|
      invariant fresh(lock) && ProperRun(events[..i]) && State(lock.locks, active) == Run(events[..i])
    {
      NextProper(events, i);
      match events[i] {
        case Enter(c, key, ttl, now) =>
          var acquired := lock.Acquire(key, ttl, now);
          if acquired {
            active := active[c := Lease(key, now + ttl)];
          }
        case Leave(c) =>
          lock.Release(active[c].key);
          active := active - {c};
      }
    }
    assert events[..|events|] == events;
  }

  lemma NextProper(events: seq<Event>, i: nat)
    requires ProperRun(events) && i < |events|
    ensures ProperRun(events[..i]) && ProperRun(events[..i + 1]) && Proper(Run(events[..i]), events[i])
    ensures Run(events[..i + 1]) == Next(Run(events[..i]), events[i])
  {
    PrefixProper(events, i + 1);
    assert events[..i + 1][..i] == events[..i];
  }
}
