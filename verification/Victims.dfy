/** Which entry is evicted by the strategies that do not order by recency: the one inserted first, or
    the one that expires first; and that nothing is evicted while there is room. */
module Victims {
  import opened Wrappers
  import opened CacheSpec
  import opened Lifetimes

  // ---- the order of insertion ----

  /** The write finds no entry of its key, or has just evicted it to make room for the new value. */
  predicate Inserts(cfg: Config, s: State, e: Event, key: string)
    requires Wf(s)
  {
    e.op.DoSet? && e.op.key == key && !Has(MakeRoom(s, cfg, |e.op.value|).entries, key)
  }

  /** The position of the event that inserted the key last; overwriting an entry does not count. */
  function InsertedAt(cfg: Config, events: seq<Event>, key: string): (i: int)
    requires FreshRun(cfg, events)
    ensures -1 <= i < |events|
    decreases |events|
  {
    if events == [] then -1
    else
      var front := events[..|events| - 1];
      if Inserts(cfg, Run(cfg, front), events[|events| - 1], key) then |front| else InsertedAt(cfg, front, key)
  }

  lemma InsertedStep(cfg: Config, events: seq<Event>, key: string)
    requires FreshRun(cfg, events) && events != []
    ensures FreshRun(cfg, events[..|events| - 1])
    ensures var front, e := events[..|events| - 1], events[|events| - 1];
            InsertedAt(cfg, events, key) ==
            if Inserts(cfg, Run(cfg, front), e, key) then |front| else InsertedAt(cfg, front, key)
  {
  }

  /** The key map iterates over the list from tail to head. */
  predicate Mirror(s: State) {
    |s.order| == |s.entries| && forall i | 0 <= i < |s.order| :: s.order[i] == s.entries[|s.order| - 1 - i].key
  }

  /** The list runs from the entry inserted last to the one inserted first. */
  ghost predicate ByInsertion(cfg: Config, events: seq<Event>, es: seq<Entry>)
    requires FreshRun(cfg, events)
  {
    && (forall i, j | 0 <= i < j < |es| :: InsertedAt(cfg, events, es[i].key) > InsertedAt(cfg, events, es[j].key))
    && (forall i | 0 <= i < |es| :: InsertedAt(cfg, events, es[i].key) >= 0)
  }

  /** What holds between the operations, for the history so far. */
  ghost predicate Ordered(cfg: Config, events: seq<Event>, s: State)
    requires FreshRun(cfg, events)
  {
    Wf(s) && Mirror(s) && ByInsertion(cfg, events, s.entries)
  }

  lemma RemovedMirror(s: State, i: nat, t: State)
    requires Mirror(s) && i < |s.entries|
    requires t.entries == RemoveAt(s.entries, i) && t.order == RemoveAt(s.order, |s.entries| - 1 - i)
    ensures Mirror(t)
  {
    RemovedSpots(s.entries, i);
    RemovedSpots(s.order, |s.entries| - 1 - i);
  }

  lemma RemovedByInsertion(cfg: Config, events: seq<Event>, es: seq<Entry>, i: nat)
    requires FreshRun(cfg, events) && ByInsertion(cfg, events, es) && i < |es|
    ensures ByInsertion(cfg, events, RemoveAt(es, i))
  {
    hide InsertedAt;
    RemovedSpots(es, i);
  }

  /** Where the list has a key, the map has it at the mirrored place. */
  lemma MirroredPlace(s: State, key: string)
    requires Wf(s) && Mirror(s) && Has(s.entries, key)
    ensures key in s.order && Position(s.order, key) == |s.entries| - 1 - IndexOf(s.entries, key)
  {
    var i, m := IndexOf(s.entries, key), Position(s.order, key);
    assert s.order[|s.entries| - 1 - i] == key;
  }

  lemma DropOrdered(cfg: Config, events: seq<Event>, s: State, key: string)
    requires FreshRun(cfg, events) && Ordered(cfg, events, s) && Has(s.entries, key)
    ensures Ordered(cfg, events, Drop(s, key))
  {
    hide ByInsertion, IndexOf, Position;
    DropWf(s, key);
    MirroredPlace(s, key);
    RemovedMirror(s, IndexOf(s.entries, key), Drop(s, key));
    RemovedByInsertion(cfg, events, s.entries, IndexOf(s.entries, key));
  }

  lemma EvictOneOrdered(cfg: Config, events: seq<Event>, s: State)
    requires FreshRun(cfg, events) && Ordered(cfg, events, s)
    ensures Ordered(cfg, events, EvictOne(s, cfg.strategy))
  {
    hide ByInsertion, Target;
    EvictOneWf(s, cfg.strategy);
    if s.entries != [] {
      TargetPresent(s, cfg.strategy);
      DropOrdered(cfg, events, s, Target(s, cfg.strategy));
    }
  }

  lemma {:induction false} EvictOrdered(cfg: Config, events: seq<Event>, s: State, needed: nat)
    requires FreshRun(cfg, events) && Ordered(cfg, events, s)
    ensures Ordered(cfg, events, Evict(s, cfg, needed))
    decreases |s.entries|
  {
    hide Ordered;
    if Bytes(s.entries) + needed > cfg.maxMemoryBytes && s.entries != [] {
      assert Wf(s) by { OrderedIsWf(cfg, events, s); }
      EvictOneWf(s, cfg.strategy);
      EvictOneOrdered(cfg, events, s);
      EvictOrdered(cfg, events, EvictOne(s, cfg.strategy), needed);
    }
  }

  lemma OrderedIsWf(cfg: Config, events: seq<Event>, s: State)
    requires FreshRun(cfg, events) && Ordered(cfg, events, s)
    ensures Wf(s)
  {
  }

  /** Every removal of a set of keys leaves these lists. */
  lemma {:induction false} SweepOrdered(cfg: Config, events: seq<Event>, s: State, ks: set<string>)
    requires FreshRun(cfg, events) && Ordered(cfg, events, s)
    ensures Ordered(cfg, events, Sweep(s, ks))
    decreases |ks|
  {
    if ks == {} {
      SweepNone(s);
    } else {
      var k :| k in ks;
      var t := Sweep(s, ks - {k});
      SweepOrdered(cfg, events, s, ks - {k});
      assert ks - {k} + {k} == ks;
      hide Sweep, ByInsertion, Wf, Mirror, Has;
      SweepOneMore(s, ks - {k}, k);
      SweepOne(t, k);
      if Has(t.entries, k) {
        DropOrdered(cfg, events, t, k);
        SameLists(cfg, events, Drop(t, k), Sweep(s, ks));
      } else {
        AbsentStays(t, k);
        SameLists(cfg, events, t, Sweep(s, ks));
      }
    }
  }

  lemma AbsentStays(s: State, key: string)
    requires Wf(s) && !Has(s.entries, key)
    ensures Without(s.entries, key) == s.entries && DropKey(s.order, key) == s.order
  {
    assert key !in s.order;
  }

  lemma SameLists(cfg: Config, events: seq<Event>, s: State, t: State)
    requires FreshRun(cfg, events) && Ordered(cfg, events, s) && Wf(t)
    requires t.entries == s.entries && t.order == s.order
    ensures Ordered(cfg, events, t)
  {
    hide InsertedAt, Wf;
  }

  // ---- every run keeps the order ----

  /** An overwritten entry keeps its place under every strategy but LRU. */
  lemma UpdatedOrdered(cfg: Config, events: seq<Event>, s: State, key: string, meta: Meta, t: State)
    requires FreshRun(cfg, events) && Ordered(cfg, events, s) && Has(s.entries, key) && !cfg.strategy.Lru?
    requires t.entries == Update(s.entries, cfg, key, meta) && t.order == s.order
    ensures Mirror(t) && ByInsertion(cfg, events, t.entries)
  {
    hide InsertedAt, Wf;
  }

  /** A step that inserts nothing leaves every key the time of its insertion. */
  lemma SameTimes(cfg: Config, events: seq<Event>, es: seq<Entry>)
    requires FreshRun(cfg, events) && events != [] && ByInsertion(cfg, events[..|events| - 1], es)
    requires forall i | 0 <= i < |es| ::
               !Inserts(cfg, Run(cfg, events[..|events| - 1]), events[|events| - 1], es[i].key)
    ensures ByInsertion(cfg, events, es)
  {
    hide Inserts, Run, InsertedAt, Wf;
    var front := events[..|events| - 1];
    forall i | 0 <= i < |es| ensures InsertedAt(cfg, events, es[i].key) == InsertedAt(cfg, front, es[i].key) {
      InsertedStep(cfg, events, es[i].key);
    }
  }

  lemma WriteOrdered(cfg: Config, events: seq<Event>)
    requires FreshRun(cfg, events) && events != [] && events[|events| - 1].op.DoSet? && !cfg.strategy.Lru?
    requires Ordered(cfg, events[..|events| - 1], Run(cfg, events[..|events| - 1]))
    ensures var s, e := Run(cfg, events[..|events| - 1]), events[|events| - 1];
            Ordered(cfg, events, Set(s, cfg, e.op.key, e.op.value, e.op.opts, e.now))
  {
    var front, e := events[..|events| - 1], events[|events| - 1];
    var s := Run(cfg, front);
    var key, meta := e.op.key, NewMeta(cfg, e.op.value, e.op.opts, e.now);
    var room := MakeRoom(s, cfg, |e.op.value|);
    hide Run, Inserts, ByInsertion, Mirror, Wf, Has;
    SetWf(s, cfg, key, e.op.value, e.op.opts, e.now);
    EvictOrdered(cfg, front, s, |e.op.value|);
    var t := Insert(room, cfg, key, meta);
    if Has(room.entries, key) {
      UpdatedOrdered(cfg, front, room, key, meta, t);
      NotInserted(cfg, s, e);
      SameTimes(cfg, events, t.entries);
    } else {
      var left := if |room.order| >= cfg.maxSize then EvictOne(room, cfg.strategy) else room;
      EvictOneOrdered(cfg, front, room);
      EvictOneShrinks(room, cfg.strategy);
      NoneIs(left.entries, key);
      Absent(cfg, s, e);
      PrependOrdered(cfg, events, left.entries, Entry(key, meta));
      PrependMirror(left, Entry(key, meta), t);
    }
    MirrorOf(t, Set(s, cfg, key, e.op.value, e.op.opts, e.now));
  }

  lemma NotInserted(cfg: Config, s: State, e: Event)
    requires Wf(s) && e.op.DoSet? && Has(MakeRoom(s, cfg, |e.op.value|).entries, e.op.key)
    ensures forall k :: !Inserts(cfg, s, e, k)
  {
  }

  lemma Absent(cfg: Config, s: State, e: Event)
    requires Wf(s) && e.op.DoSet? && !Has(MakeRoom(s, cfg, |e.op.value|).entries, e.op.key)
    ensures Inserts(cfg, s, e, e.op.key)
  {
  }

  lemma NoneIs(es: seq<Entry>, key: string)
    requires !Has(es, key)
    ensures forall i | 0 <= i < |es| :: es[i].key != key
  {
  }

  lemma MirrorOf(s: State, t: State)
    requires Mirror(s) && t.entries == s.entries && t.order == s.order
    ensures Mirror(t)
  {
  }

  /** The new entry is first in the list and last in the map. */
  lemma PrependMirror(s: State, head: Entry, t: State)
    requires Mirror(s) && t.entries == [head] + s.entries && t.order == s.order + [head.key]
    ensures Mirror(t)
  {
  }

  lemma PrependOrdered(cfg: Config, events: seq<Event>, es: seq<Entry>, head: Entry)
    requires FreshRun(cfg, events) && events != [] && ByInsertion(cfg, events[..|events| - 1], es)
    requires Inserts(cfg, Run(cfg, events[..|events| - 1]), events[|events| - 1], head.key)
    requires forall i | 0 <= i < |es| :: es[i].key != head.key
    ensures ByInsertion(cfg, events, [head] + es)
  {
    InsertsOne(Run(cfg, events[..|events| - 1]), cfg, events[|events| - 1], head.key);
    hide Inserts, Run, InsertedAt, FreshRun, Wf;
    SameTimes(cfg, events, es);
    InsertedStep(cfg, events, head.key);
    forall e | e in es ensures InsertedAt(cfg, events, e.key) < |events| - 1 {
      InsertedStep(cfg, events, e.key);
    }
    HeadFirst(cfg, events, es, head);
  }

  lemma HeadFirst(cfg: Config, events: seq<Event>, es: seq<Entry>, head: Entry)
    requires FreshRun(cfg, events) && ByInsertion(cfg, events, es) && InsertedAt(cfg, events, head.key) >= 0
    requires forall e | e in es :: InsertedAt(cfg, events, e.key) < InsertedAt(cfg, events, head.key)
    ensures ByInsertion(cfg, events, [head] + es)
  {
    hide InsertedAt, FreshRun;
    var all := [head] + es;
    forall i | 0 < i < |all| ensures all[i] == es[i - 1] && all[i] in es {
    }
  }

  lemma InsertsOne(s: State, cfg: Config, e: Event, key: string)
    requires Wf(s) && Inserts(cfg, s, e, key)
    ensures forall k | k != key :: !Inserts(cfg, s, e, k)
  {
  }

  /** In every run under any strategy but LRU the list is in order of insertion, latest first, and the
      key map in the opposite order. */
  lemma {:induction false} InsertionOrder(cfg: Config, events: seq<Event>)
    requires FreshRun(cfg, events) && !cfg.strategy.Lru?
    ensures Ordered(cfg, events, Run(cfg, events))
  {
    if events != [] {
      var front, e := events[..|events| - 1], events[|events| - 1];
      InsertionOrder(cfg, front);
      var s := Run(cfg, front);
      assert Run(cfg, events) == Step(s, cfg, e) && Wf(Run(cfg, events));
      hide Run;
      if e.op.DoSet? {
        WriteOrdered(cfg, events);
      } else {
        OtherOrdered(cfg, front, s, e);
        SameTimes(cfg, events, Step(s, cfg, e).entries);
      }
    }
  }

  lemma OtherOrdered(cfg: Config, events: seq<Event>, s: State, e: Event)
    requires FreshRun(cfg, events) && Ordered(cfg, events, s) && Fresh(s, e) && !e.op.DoSet? && !cfg.strategy.Lru?
    ensures Mirror(Step(s, cfg, e)) && ByInsertion(cfg, events, Step(s, cfg, e).entries)
  {
    hide InsertedAt, Sweep, ByInsertion, Mirror, Wf, Exclude, ExcludeKeys;
    match e.op {
      case DoGet(key) =>
        if Has(s.entries, key) {
          UpdatedOrdered(cfg, events, s, key, Touched(Find(s.entries, key), cfg, e.now), Step(s, cfg, e));
        }
      case DoSet(_, _, _) =>
      case DoDelete(key) =>
        if Has(s.entries, key) {
          DropOrdered(cfg, events, s, key);
        }
      case DoClear(namespace) =>
        if namespace.Some? {
          CutOrdered(cfg, events, s, KeysIn(s.entries, namespace.value), Step(s, cfg, e));
        }
        NothingOrdered(cfg, events);
      case DoInvalidate(tag) =>
        if tag in s.tagIndex {
          CutOrdered(cfg, events, s, s.tagIndex[tag], Step(s, cfg, e));
        }
      case DoCleanup => SweepOrdered(cfg, events, s, ExpiredKeys(s.entries, e.now));
    }
  }

  lemma NothingOrdered(cfg: Config, events: seq<Event>)
    requires FreshRun(cfg, events)
    ensures Mirror(EMPTY) && ByInsertion(cfg, events, [])
  {
  }

  lemma CutOrdered(cfg: Config, events: seq<Event>, s: State, ks: set<string>, t: State)
    requires FreshRun(cfg, events) && Ordered(cfg, events, s)
    ensures t.entries == Exclude(s.entries, ks) && t.order == ExcludeKeys(s.order, ks) ==>
              Mirror(t) && ByInsertion(cfg, events, t.entries)
  {
    SweepOrdered(cfg, events, s, ks);
    hide InsertedAt, Exclude, ExcludeKeys, Wf;
  }

  // ---- LFU ----

  /** Every entry has the count that its last write gave it: nothing ever raises one. */
  ghost predicate CountedOnce(s: State) {
    forall k | Has(s.entries, k) :: Count(s.freq, k) == 1
  }

  lemma EvictOneCounts(s: State, strategy: Strategy)
    requires Wf(s) && CountedOnce(s)
    ensures CountedOnce(EvictOne(s, strategy))
  {
    if s.entries != [] {
      TargetPresent(s, strategy);
      DropWf(s, Target(s, strategy));
    }
  }

  lemma {:induction false} EvictCounts(s: State, cfg: Config, needed: nat)
    requires Wf(s) && CountedOnce(s)
    ensures CountedOnce(Evict(s, cfg, needed))
    decreases |s.entries|
  {
    if Bytes(s.entries) + needed > cfg.maxMemoryBytes && s.entries != [] {
      EvictOneWf(s, cfg.strategy);
      EvictOneCounts(s, cfg.strategy);
      EvictCounts(EvictOne(s, cfg.strategy), cfg, needed);
    }
  }

  lemma InsertCounts(s: State, cfg: Config, key: string, meta: Meta)
    requires Wf(s) && CountedOnce(s)
    ensures forall k | Has(Insert(s, cfg, key, meta).entries, k) && k != key ::
              Count(Insert(s, cfg, key, meta).freq, k) == 1
  {
    EvictOneCounts(s, cfg.strategy);
    var t := Insert(s, cfg, key, meta);
    forall k | Has(t.entries, k) && k != key ensures Count(t.freq, k) == 1 {
      InsertEntry(s, cfg, key, meta, t.entries[IndexOf(t.entries, k)]);
    }
  }

  lemma SetCounts(s: State, cfg: Config, key: string, value: string, opts: SetOptions, now: int)
    requires Wf(s) && CountedOnce(s) && cfg.strategy.Lfu?
    ensures CountedOnce(Set(s, cfg, key, value, opts, now))
  {
    EvictWf(s, cfg, |value|);
    EvictCounts(s, cfg, |value|);
    var room := MakeRoom(s, cfg, |value|);
    InsertCounts(room, cfg, key, NewMeta(cfg, value, opts, now));
  }

  /** Removing entries leaves the counts of the others. */
  lemma FewerCounts(s: State, cfg: Config, e: Event)
    requires Wf(s) && Fresh(s, e) && CountedOnce(s) && !e.op.DoSet?
    ensures CountedOnce(Step(s, cfg, e))
  {
    var t := Step(s, cfg, e);
    if e.op.DoCleanup? {
      ExcludeHas(s.entries, ExpiredKeys(s.entries, e.now));
    }
    forall k | Has(t.entries, k) ensures Count(t.freq, k) == 1 {
      StepEntry(s, cfg, e, t.entries[IndexOf(t.entries, k)]);
      SameCount(s, cfg, e, k);
    }
  }

  lemma SameCount(s: State, cfg: Config, e: Event, k: string)
    requires Wf(s) && Fresh(s, e) && !e.op.DoSet? && Has(Step(s, cfg, e).entries, k)
    ensures Count(Step(s, cfg, e).freq, k) == Count(s.freq, k)
  {
    if e.op.DoCleanup? {
      ExcludeHas(s.entries, ExpiredKeys(s.entries, e.now));
    }
  }

  lemma {:induction false} RunCounts(cfg: Config, events: seq<Event>)
    requires FreshRun(cfg, events) && cfg.strategy.Lfu?
    ensures CountedOnce(Run(cfg, events))
  {
    if events != [] {
      var front, e := events[..|events| - 1], events[|events| - 1];
      RunCounts(cfg, front);
      RunStep(cfg, events);
      hide Run, CountedOnce;
      if e.op.DoSet? {
        SetCounts(Run(cfg, front), cfg, e.op.key, e.op.value, e.op.opts, e.now);
      } else {
        FewerCounts(Run(cfg, front), cfg, e);
      }
    }
  }

  lemma {:induction false} LeastIsFirst(order: seq<string>, freq: map<string, nat>)
    requires order != [] && forall k | k in order :: Count(freq, k) == 1
    ensures LeastUsed(order, freq) == order[0]
  {
    if |order| > 1 {
      LeastIsFirst(order[..|order| - 1], freq);
    }
  }

  // ---- the victims ----

  lemma EvictedAt(s: State, strategy: Strategy, v: nat)
    requires Wf(s) && v < |s.entries| && Target(s, strategy) == s.entries[v].key
    ensures EvictOne(s, strategy).entries == RemoveAt(s.entries, v)
  {
    HasIndex(s.entries, s.entries[v].key, v);
    hide Has, IndexOf, NoDup, Target;
  }

  lemma TailEvicted(s: State, strategy: Strategy)
    requires Wf(s) && s.entries != [] && Target(s, strategy) == s.entries[|s.entries| - 1].key
    ensures EvictOne(s, strategy).entries == s.entries[..|s.entries| - 1]
  {
    hide EvictOne, Wf, Target;
    EvictedAt(s, strategy, |s.entries| - 1);
  }

  lemma LeastUsedIsTail(s: State)
    requires Wf(s) && Mirror(s) && CountedOnce(s) && s.entries != []
    ensures Target(s, Lfu) == s.entries[|s.entries| - 1].key
  {
    LeastIsFirst(s.order, s.freq);
  }

  lemma FifoTarget(s: State)
    requires Wf(s) && s.entries != []
    ensures Target(s, Strategy.Fifo) == s.entries[|s.entries| - 1].key
  {
  }

  /** After any run, FIFO evicts the entry that was inserted first; so does LFU. */
  lemma FirstInFirstOut(cfg: Config, events: seq<Event>)
    requires FreshRun(cfg, events) && (cfg.strategy.Fifo? || cfg.strategy.Lfu?) && Run(cfg, events).entries != []
    ensures var es := Run(cfg, events).entries;
            && EvictOne(Run(cfg, events), cfg.strategy).entries == es[..|es| - 1]
            && forall i | 0 <= i < |es| - 1 ::
                 InsertedAt(cfg, events, es[|es| - 1].key) < InsertedAt(cfg, events, es[i].key)
  {
    hide Run, InsertedAt, FreshRun, Wf, Mirror, EvictOne, Target, CountedOnce;
    var s := Run(cfg, events);
    InsertionOrder(cfg, events);
    if cfg.strategy.Lfu? {
      RunCounts(cfg, events);
      LeastUsedIsTail(s);
    } else {
      FifoTarget(s);
    }
    TailEvicted(s, cfg.strategy);
  }

  /** The entry at `v` expires first among those from `k` on; the later in the list, the earlier it was
      inserted, and the earlier the scan of the key map meets it. */
  predicate ExpiresFirst(es: seq<Entry>, k: nat, v: nat) {
    && k <= v < |es| && es[v].meta.expiresAt > 0
    && forall i | k <= i < |es| && i != v && es[i].meta.expiresAt > 0 ::
         || es[v].meta.expiresAt < es[i].meta.expiresAt
         || (es[v].meta.expiresAt == es[i].meta.expiresAt && i < v)
  }

  predicate NoneExpires(es: seq<Entry>, k: nat) {
    forall i | k <= i < |es| :: es[i].meta.expiresAt <= 0
  }

  lemma NearestStep(es: seq<Entry>, k: nat, v: nat)
    requires k < |es| && v < |es|
    ensures NoneExpires(es, k + 1) && es[k].meta.expiresAt <= 0 ==> NoneExpires(es, k)
    ensures NoneExpires(es, k + 1) && es[k].meta.expiresAt > 0 ==> ExpiresFirst(es, k, k)
    ensures ExpiresFirst(es, k + 1, v) ==>
              ExpiresFirst(es, k, if 0 < es[k].meta.expiresAt < es[v].meta.expiresAt then k else v)
  {
  }

  /** The map's scan, once it has met the list from its tail down to `k`. */
  lemma {:induction false} NearestFrom(order: seq<string>, es: seq<Entry>, k: nat) returns (v: nat)
    requires k <= |es| != 0 && |order| == |es| - k && forall key | key in order :: Has(es, key)
    requires forall i | k <= i < |es| :: order[|es| - 1 - i] == es[i].key && Find(es, es[i].key) == es[i].meta
    ensures v < |es|
    ensures var (key, end) := NearestExpiring(order, es, es[|es| - 1].key);
            && key == es[v].key
            && if end.None? then v == |es| - 1 && NoneExpires(es, k)
               else ExpiresFirst(es, k, v) && end.value == es[v].meta.expiresAt
    decreases |order|
  {
    if order == [] {
      v := |es| - 1;
    } else {
      var front := order[..|order| - 1];
      assert forall j | 0 <= j < |front| :: front[j] == order[j];
      v := NearestFrom(front, es, k + 1);
      hide Find, Has, ExpiresFirst, NoneExpires;
      NearestStep(es, k, v);
      var end := NearestExpiring(front, es, es[|es| - 1].key).1;
      var e := es[k].meta.expiresAt;
      assert order[|order| - 1] == order[|es| - 1 - k] == es[k].key;
      if e > 0 && (end.None? || e < end.value) {
        v := k;
      }
    }
  }

  lemma Listed(s: State)
    requires Wf(s) && Mirror(s)
    ensures |s.order| == |s.entries| && forall k | k in s.order :: Has(s.entries, k)
    ensures forall i | 0 <= i < |s.entries| ::
              s.order[|s.entries| - 1 - i] == s.entries[i].key && Find(s.entries, s.entries[i].key) == s.entries[i].meta
  {
    var es := s.entries;
    forall i | 0 <= i < |es| ensures s.order[|es| - 1 - i] == es[i].key && Find(es, es[i].key) == es[i].meta {
      HasIndex(es, es[i].key, i);
    }
  }

  lemma TtlVictim(s: State) returns (v: nat)
    requires Wf(s) && Mirror(s) && s.entries != []
    ensures v < |s.entries| && EvictOne(s, TtlOnly).entries == RemoveAt(s.entries, v)
    ensures if NoneExpires(s.entries, 0) then v == |s.entries| - 1 else ExpiresFirst(s.entries, 0, v)
  {
    var es := s.entries;
    Listed(s);
    hide Wf, NearestExpiring, NoDup, ExpiresFirst, NoneExpires, Mirror, EvictOne, Find, Has;
    v := NearestFrom(s.order, es, 0);
    EvictedAt(s, TtlOnly, v);
  }

  /** After any run, the ttl-only strategy evicts the entry that expires first, and among those that
      expire together the one inserted first; when none expires, the one inserted first. */
  lemma FirstToExpire(cfg: Config, events: seq<Event>) returns (v: nat)
    requires FreshRun(cfg, events) && cfg.strategy.TtlOnly? && Run(cfg, events).entries != []
    ensures var es := Run(cfg, events).entries;
            && v < |es| && EvictOne(Run(cfg, events), cfg.strategy).entries == RemoveAt(es, v)
            && ((forall i | 0 <= i < |es| :: es[i].meta.expiresAt <= 0) ==>
                  forall i | 0 <= i < |es| && i != v ::
                    InsertedAt(cfg, events, es[v].key) < InsertedAt(cfg, events, es[i].key))
            && forall i | 0 <= i < |es| && i != v && es[i].meta.expiresAt > 0 ::
                 && es[v].meta.expiresAt > 0
                 && (|| es[v].meta.expiresAt < es[i].meta.expiresAt
                     || (es[v].meta.expiresAt == es[i].meta.expiresAt &&
                         InsertedAt(cfg, events, es[v].key) < InsertedAt(cfg, events, es[i].key)))
  {
    hide Run, InsertedAt, FreshRun, Wf, Mirror, EvictOne;
    InsertionOrder(cfg, events);
    v := TtlVictim(Run(cfg, events));
  }

  // ---- LFU is FIFO ----

  /** The same but for the counts. */
  predicate SameButCounts(s: State, t: State) {
    s.entries == t.entries && s.order == t.order && s.tagIndex == t.tagIndex
  }

  function Fifo(cfg: Config): Config {
    cfg.(strategy := Strategy.Fifo)
  }

  lemma EvictOneSame(s: State, t: State)
    requires Wf(s) && Wf(t) && Mirror(s) && CountedOnce(s) && SameButCounts(s, t)
    ensures SameButCounts(EvictOne(s, Lfu), EvictOne(t, Strategy.Fifo))
  {
    if s.entries != [] {
      LeastUsedIsTail(s);
    }
  }

  lemma {:induction false} EvictSame(cfg: Config, events: seq<Event>, s: State, t: State, needed: nat)
    requires FreshRun(cfg, events) && cfg.strategy.Lfu? && Ordered(cfg, events, s) && Wf(t)
    requires CountedOnce(s) && SameButCounts(s, t)
    ensures SameButCounts(Evict(s, cfg, needed), Evict(t, Fifo(cfg), needed))
    decreases |s.entries|
  {
    if Bytes(s.entries) + needed > cfg.maxMemoryBytes && s.entries != [] {
      var s', t' := EvictOne(s, Lfu), EvictOne(t, Strategy.Fifo);
      EvictOneWf(s, Lfu);
      EvictOneWf(t, Strategy.Fifo);
      EvictOneOrdered(cfg, events, s);
      EvictOneCounts(s, Lfu);
      EvictOneSame(s, t);
      hide EvictOne, Wf, Mirror, ByInsertion, CountedOnce;
      EvictSame(cfg, events, s', t', needed);
    }
  }

  lemma RoomSame(cfg: Config, events: seq<Event>, s: State, t: State, size: nat)
    requires FreshRun(cfg, events) && cfg.strategy.Lfu? && Ordered(cfg, events, s) && Wf(t)
    requires CountedOnce(s) && SameButCounts(s, t)
    ensures var room, room' := MakeRoom(s, cfg, size), MakeRoom(t, Fifo(cfg), size);
            Wf(room) && Wf(room') && Mirror(room) && CountedOnce(room) && SameButCounts(room, room')
  {
    hide Wf, Mirror, ByInsertion, CountedOnce;
    EvictWf(s, cfg, size);
    EvictWf(t, Fifo(cfg), size);
    EvictSame(cfg, events, s, t, size);
    EvictOrdered(cfg, events, s, size);
    EvictCounts(s, cfg, size);
  }

  lemma SetSame(cfg: Config, events: seq<Event>, s: State, t: State, e: Event)
    requires FreshRun(cfg, events) && cfg.strategy.Lfu? && Ordered(cfg, events, s) && Wf(t)
    requires CountedOnce(s) && SameButCounts(s, t) && e.op.DoSet?
    ensures SameButCounts(Step(s, cfg, e), Step(t, Fifo(cfg), e))
  {
    hide MakeRoom, Insert, Wf, Mirror, ByInsertion, CountedOnce, NewMeta, AddTags;
    RoomSame(cfg, events, s, t, |e.op.value|);
    InsertSame(cfg, MakeRoom(s, cfg, |e.op.value|), MakeRoom(t, Fifo(cfg), |e.op.value|), e.op.key,
               NewMeta(cfg, e.op.value, e.op.opts, e.now));
    NewMetaSame(cfg, e.op.value, e.op.opts, e.now);
  }

  lemma NewMetaSame(cfg: Config, value: string, opts: SetOptions, now: int)
    ensures NewMeta(cfg, value, opts, now) == NewMeta(Fifo(cfg), value, opts, now)
  {
  }

  lemma InsertSame(cfg: Config, s: State, t: State, key: string, meta: Meta)
    requires cfg.strategy.Lfu? && Wf(s) && Wf(t) && Mirror(s) && CountedOnce(s) && SameButCounts(s, t)
    ensures SameButCounts(Insert(s, cfg, key, meta), Insert(t, Fifo(cfg), key, meta))
  {
    EvictOneSame(s, t);
    hide Wf, Mirror, CountedOnce, EvictOne, Has, IndexOf;
  }

  lemma GetSame(cfg: Config, s: State, t: State, key: string, now: int)
    requires cfg.strategy.Lfu? && SameButCounts(s, t)
    ensures SameButCounts(Get(s, cfg, key, now), Get(t, Fifo(cfg), key, now))
  {
    hide Has, IndexOf;
  }

  lemma OtherSame(cfg: Config, s: State, t: State, e: Event)
    requires cfg.strategy.Lfu? && Wf(s) && Wf(t) && Fresh(s, e) && SameButCounts(s, t) && !e.op.DoSet?
    ensures Fresh(t, e) && SameButCounts(Step(s, cfg, e), Step(t, Fifo(cfg), e))
  {
    hide Wf, Get, Exclude, ExcludeKeys, Has, Without, DropKey, Untag, Find, Carriers, KeysIn, ExpiredKeys, Expired;
    if e.op.DoGet? {
      GetSame(cfg, s, t, e.op.key, e.now);
    }
  }

  /** Reads raise no count, so LFU evicts as FIFO does: every run has the same entries in the same order,
      and so the same hits. */
  lemma {:induction false} LfuIsFifo(cfg: Config, events: seq<Event>)
    requires FreshRun(cfg, events) && cfg.strategy.Lfu?
    ensures FreshRun(Fifo(cfg), events) && SameButCounts(Run(cfg, events), Run(Fifo(cfg), events))
  {
    if events != [] {
      var front, e := events[..|events| - 1], events[|events| - 1];
      LfuIsFifo(cfg, front);
      var s, t := Run(cfg, front), Run(Fifo(cfg), front);
      InsertionOrder(cfg, front);
      RunCounts(cfg, front);
      RunStep(cfg, events);
      hide Run, Step, CountedOnce;
      if e.op.DoSet? {
        SetSame(cfg, front, s, t, e);
      } else {
        OtherSame(cfg, s, t, e);
      }
      assert FreshRun(Fifo(cfg), events);
      RunStep(Fifo(cfg), events);
    }
  }

  // ---- eviction only for want of room ----

  /** Evicting stops as soon as the new value fits: without the last victim it did not fit. */
  lemma {:induction false} EvictsAtNeed(s: State, cfg: Config, needed: nat) returns (before: State)
    requires Wf(s) && Evict(s, cfg, needed) != s
    ensures Wf(before) && Bytes(before.entries) + needed > cfg.maxMemoryBytes
    ensures EvictOne(before, cfg.strategy) == Evict(s, cfg, needed) != before
    decreases |s.entries|
  {
    var t := EvictOne(s, cfg.strategy);
    EvictOneWf(s, cfg.strategy);
    if Evict(t, cfg, needed) == t {
      before := s;
    } else {
      before := EvictsAtNeed(t, cfg, needed);
    }
  }

  /** A write to which there is room, in entries and in bytes, loses nothing: afterwards the cache holds
      what it held, and the new entry. */
  lemma RoomKeeps(s: State, cfg: Config, key: string, value: string, opts: SetOptions, now: int, e: Entry)
    requires Wf(s) && (Has(s.entries, key) || |s.entries| < cfg.maxSize)
    requires Bytes(s.entries) + |value| <= cfg.maxMemoryBytes
    ensures e in Set(s, cfg, key, value, opts, now).entries <==>
            if e.key == key then e.meta == NewMeta(cfg, value, opts, now) else e in s.entries
  {
    var meta := NewMeta(cfg, value, opts, now);
    if Has(s.entries, key) {
      UpdatedEntry(s.entries, cfg, key, meta, e);
    } else {
      var es := [Entry(key, meta)] + s.entries;
      assert e in es <==> e == Entry(key, meta) || e in s.entries;
      FoundIn(s.entries, e);
    }
  }
}
