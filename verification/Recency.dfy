/** What the LRU strategy promises over whole runs: the list is ordered by last touch, a larger
    cache never loses a hit, and a key survives while few other keys are touched. */
module Recency {
  import opened Wrappers
  import opened CacheSpec

  // ---- the operations under LRU ----

  function Truncate(es: seq<Entry>, cap: nat): seq<Entry> {
    if |es| >= cap && es != [] then es[..|es| - 1] else es
  }

  lemma UpdateLru(es: seq<Entry>, cfg: Config, key: string, meta: Meta)
    requires cfg.strategy.Lru? && Has(es, key)
    ensures Update(es, cfg, key, meta) == [Entry(key, meta)] + Without(es, key)
  {
    var i := IndexOf(es, key);
    assert RemoveAt(es[i := Entry(key, meta)], i) == RemoveAt(es, i);
  }

  lemma EvictOneLru(s: State, strategy: Strategy)
    requires Wf(s) && strategy.Lru?
    ensures EvictOne(s, strategy).entries == if s.entries == [] then [] else s.entries[..|s.entries| - 1]
  {
    if s.entries != [] {
      var last := |s.entries| - 1;
      HasIndex(s.entries, s.entries[last].key, last);
      assert RemoveAt(s.entries, last) == s.entries[..last];
    }
  }

  lemma InsertLru(s: State, cfg: Config, key: string, meta: Meta)
    requires Wf(s) && cfg.strategy.Lru?
    ensures Insert(s, cfg, key, meta).entries ==
            [Entry(key, meta)] + if Has(s.entries, key) then Without(s.entries, key)
                else Truncate(s.entries, cfg.maxSize)
  {
    if Has(s.entries, key) {
      UpdateLru(s.entries, cfg, key, meta);
    } else {
      EvictOneLru(s, cfg.strategy);
    }
  }

  lemma {:induction false} EvictLru(s: State, cfg: Config, needed: nat) returns (n: nat)
    requires Wf(s) && cfg.strategy.Lru?
    ensures n <= |s.entries| && Evict(s, cfg, needed).entries == s.entries[..n]
    decreases |s.entries|
  {
    if Bytes(s.entries) + needed > cfg.maxMemoryBytes && s.entries != [] {
      EvictOneWf(s, cfg.strategy);
      EvictOneLru(s, cfg.strategy);
      n := EvictLru(EvictOne(s, cfg.strategy), cfg, needed);
    } else {
      n := |s.entries|;
    }
  }

  // ---- the list is the recency order ----

  predicate Touches(e: Event, key: string) {
    match e.op
    case DoGet(k) => k == key
    case DoSet(k, _, _) => k == key
    case _ => false
  }

  /** The position of the last event that reads or writes the key; -1 if there is none. */
  function LastTouch(events: seq<Event>, key: string): (i: int)
    ensures -1 <= i < |events|
    ensures i >= 0 ==> Touches(events[i], key)
    ensures forall j | i < j < |events| :: !Touches(events[j], key)
  {
    if events == [] then -1
    else if Touches(events[|events| - 1], key) then |events| - 1
    else
      var i := LastTouch(events[..|events| - 1], key);
      assert forall j | 0 <= j < |events| - 1 :: events[..|events| - 1][j] == events[j];
      i
  }

  ghost predicate ByRecency(es: seq<Entry>, events: seq<Event>) {
    && (forall i, j | 0 <= i < j < |es| :: LastTouch(events, es[i].key) > LastTouch(events, es[j].key))
    && (forall i | 0 <= i < |es| :: LastTouch(events, es[i].key) >= 0)
  }

  /** In every run under LRU, byte pressure, tags, namespaces and sweeps included, the list from
      head to tail is ordered by last touch: the victim is always the least recently used entry. */
  lemma {:induction false} RecencyOrder(cfg: Config, events: seq<Event>)
    requires cfg.strategy.Lru? && FreshRun(cfg, events)
    ensures ByRecency(Run(cfg, events).entries, events)
  {
    if events != [] {
      var front, e := events[..|events| - 1], events[|events| - 1];
      assert events == front + [e];
      RecencyOrder(cfg, front);
      var s := Run(cfg, front);
      hide ByRecency;
      if e.op.DoGet? {
        ReadOrder(s, cfg, front, e);
      } else if e.op.DoSet? {
        WriteOrder(s, cfg, front, e);
      } else {
        RemovalOrder(s, cfg, front, e);
      }
    }
  }

  lemma RemovalOrder(s: State, cfg: Config, events: seq<Event>, e: Event)
    requires Wf(s) && ByRecency(s.entries, events) && !e.op.DoGet? && !e.op.DoSet?
    ensures ByRecency(Step(s, cfg, e).entries, events + [e])
  {
    match e.op {
      case DoGet(_) =>
      case DoSet(_, _, _) =>
      case DoDelete(key) =>
        if Has(s.entries, key) {
          RemovedOrder(s.entries, IndexOf(s.entries, key), events);
        }
      case DoClear(namespace) =>
        if namespace.Some? {
          ExcludedOrder(s.entries, KeysIn(s.entries, namespace.value), events);
        }
      case DoInvalidate(tag) =>
        if tag in s.tagIndex {
          ExcludedOrder(s.entries, s.tagIndex[tag], events);
        }
      case DoCleanup =>
        ExcludedOrder(s.entries, ExpiredKeys(s.entries, e.now), events);
    }
    hide LastTouch;
    Untouched(Step(s, cfg, e).entries, events, e);
  }

  lemma LastTouchStep(events: seq<Event>, e: Event, key: string)
    ensures LastTouch(events + [e], key) == if Touches(e, key) then |events| else LastTouch(events, key)
  {
    assert (events + [e])[..|events|] == events;
  }

  lemma Untouched(es: seq<Entry>, events: seq<Event>, e: Event)
    requires ByRecency(es, events) && !e.op.DoGet? && !e.op.DoSet?
    ensures ByRecency(es, events + [e])
  {
    forall i | 0 <= i < |es| ensures LastTouch(events + [e], es[i].key) == LastTouch(events, es[i].key) {
      LastTouchStep(events, e, es[i].key);
    }
  }

  lemma RemovedOrder(es: seq<Entry>, i: nat, events: seq<Event>)
    requires ByRecency(es, events) && i < |es|
    ensures ByRecency(RemoveAt(es, i), events)
  {
    var r := RemoveAt(es, i);
    forall a | 0 <= a < |r| ensures r[a] == es[if a < i then a else a + 1] {
    }
  }

  lemma PrefixOrder(es: seq<Entry>, n: nat, events: seq<Event>)
    requires ByRecency(es, events) && n <= |es|
    ensures ByRecency(es[..n], events)
  {
  }

  lemma {:induction false} ExcludedOrder(es: seq<Entry>, ks: set<string>, events: seq<Event>)
    requires ByRecency(es, events)
    ensures ByRecency(Exclude(es, ks), events)
    ensures forall e | e in Exclude(es, ks) :: e in es
  {
    hide LastTouch;
    if es != [] {
      TailOrder(es, events);
      ExcludedOrder(es[1..], ks, events);
      if es[0].key !in ks {
        var rest := Exclude(es[1..], ks);
        forall j | 0 <= j < |rest| ensures LastTouch(events, es[0].key) > LastTouch(events, rest[j].key) {
          assert rest[j] in es[1..];
        }
        ConsOrder(es[0], rest, events);
      }
    }
  }

  lemma TailOrder(es: seq<Entry>, events: seq<Event>)
    requires ByRecency(es, events) && es != []
    ensures ByRecency(es[1..], events) && LastTouch(events, es[0].key) >= 0
    ensures forall e | e in es[1..] :: LastTouch(events, es[0].key) > LastTouch(events, e.key)
  {
    hide LastTouch;
  }

  lemma ConsOrder(e: Entry, rest: seq<Entry>, events: seq<Event>)
    requires ByRecency(rest, events) && LastTouch(events, e.key) >= 0
    requires forall j | 0 <= j < |rest| :: LastTouch(events, e.key) > LastTouch(events, rest[j].key)
    ensures ByRecency([e] + rest, events)
  {
    hide LastTouch;
  }

  /** A touched entry at the head of others that the event leaves alone. */
  lemma FrontOrder(head: Entry, rest: seq<Entry>, events: seq<Event>, e: Event)
    requires ByRecency(rest, events) && Touches(e, head.key)
    requires forall i | 0 <= i < |rest| :: !Touches(e, rest[i].key)
    ensures ByRecency([head] + rest, events + [e])
  {
    LastTouchStep(events, e, head.key);
    forall i | 0 <= i < |rest| ensures LastTouch(events + [e], rest[i].key) == LastTouch(events, rest[i].key) {
      LastTouchStep(events, e, rest[i].key);
    }
  }

  lemma ReadOrder(s: State, cfg: Config, events: seq<Event>, e: Event)
    requires Wf(s) && cfg.strategy.Lru? && e.op.DoGet? && ByRecency(s.entries, events)
    ensures ByRecency(Get(s, cfg, e.op.key, e.now).entries, events + [e])
  {
    var es, key := s.entries, e.op.key;
    if Has(es, key) {
      var meta := Touched(Find(es, key), cfg, e.now);
      UpdateLru(es, cfg, key, meta);
      RemovedOrder(es, IndexOf(es, key), events);
      OthersUntouched(s, e, key);
      FrontOrder(Entry(key, meta), Without(es, key), events, e);
    } else {
      forall i | 0 <= i < |es| ensures LastTouch(events + [e], es[i].key) == LastTouch(events, es[i].key) {
        LastTouchStep(events, e, es[i].key);
      }
    }
  }

  lemma OthersUntouched(s: State, e: Event, key: string)
    requires Wf(s) && Has(s.entries, key) && Touches(e, key)
    ensures forall i | 0 <= i < |Without(s.entries, key)| :: !Touches(e, Without(s.entries, key)[i].key)
  {
    RemovedKeys(s.entries, key);
    forall i | 0 <= i < |Without(s.entries, key)| ensures Without(s.entries, key)[i].key != key {
      assert Has(Without(s.entries, key), Without(s.entries, key)[i].key);
    }
  }

  lemma WriteOrder(s: State, cfg: Config, events: seq<Event>, e: Event)
    requires Wf(s) && cfg.strategy.Lru? && e.op.DoSet? && ByRecency(s.entries, events)
    ensures ByRecency(Set(s, cfg, e.op.key, e.op.value, e.op.opts, e.now).entries, events + [e])
  {
    EvictWf(s, cfg, |e.op.value|);
    var n := EvictLru(s, cfg, |e.op.value|);
    PrefixOrder(s.entries, n, events);
    InsertOrder(MakeRoom(s, cfg, |e.op.value|), cfg, events, e, NewMeta(cfg, e.op.value, e.op.opts, e.now));
  }

  lemma InsertOrder(s: State, cfg: Config, events: seq<Event>, e: Event, meta: Meta)
    requires Wf(s) && cfg.strategy.Lru? && e.op.DoSet? && ByRecency(s.entries, events)
    ensures ByRecency(Insert(s, cfg, e.op.key, meta).entries, events + [e])
  {
    var es, key := s.entries, e.op.key;
    InsertLru(s, cfg, key, meta);
    if Has(es, key) {
      RemovedOrder(es, IndexOf(es, key), events);
      OthersUntouched(s, e, key);
      FrontOrder(Entry(key, meta), Without(es, key), events, e);
    } else {
      var rest := Truncate(es, cfg.maxSize);
      PrefixOrder(es, |rest|, events);
      FrontOrder(Entry(key, meta), rest, events, e);
    }
  }

  // ---- where tags come from ----

  function TagsOf(opts: SetOptions): seq<string> {
    if opts.tags.Some? then opts.tags.value else []
  }

  /** Every operation of the run is one of `ops`. */
  ghost predicate Drawn(events: seq<Event>, ops: iset<Op>) {
    forall i | 0 <= i < |events| :: events[i].op in ops
  }

  /** No key is written both with and without a tag that is invalidated. */
  ghost predicate TagsAgree(ops: iset<Op>) {
    forall tag: string, a: Op, b: Op
      | DoInvalidate(tag) in ops && a in ops && b in ops && a.DoSet? && b.DoSet? && a.key == b.key ::
      tag in TagsOf(a.opts) <==> tag in TagsOf(b.opts)
  }

  ghost predicate WrittenWith(ops: iset<Op>, key: string, tags: seq<string>) {
    exists op: Op :: op in ops && op.DoSet? && op.key == key && TagsOf(op.opts) == tags
  }

  ghost predicate WrittenUnder(ops: iset<Op>, key: string, tag: string) {
    exists op: Op :: op in ops && op.DoSet? && op.key == key && tag in TagsOf(op.opts)
  }

  /** Tags and pairs of the tag index come from writes. */
  ghost predicate Traced(s: State, ops: iset<Op>) {
    && (forall e | e in s.entries :: WrittenWith(ops, e.key, e.meta.tags))
    && (forall t, k | k in Listed(s.tagIndex, t) :: WrittenUnder(ops, k, t))
  }

  /** `t` has no entries and no tag pairs that `s` does not have. */
  ghost predicate Less(t: State, s: State) {
    && (forall e | e in t.entries :: e in s.entries)
    && (forall tag :: Listed(t.tagIndex, tag) <= Listed(s.tagIndex, tag))
  }

  lemma DropLess(s: State, key: string)
    requires Has(s.entries, key)
    ensures Less(Drop(s, key), s)
  {
  }

  lemma {:induction false} EvictLess(s: State, cfg: Config, needed: nat)
    requires Wf(s)
    ensures Less(Evict(s, cfg, needed), s)
    decreases |s.entries|
  {
    if Bytes(s.entries) + needed > cfg.maxMemoryBytes && s.entries != [] {
      EvictOneWf(s, cfg.strategy);
      EvictOneLess(s, cfg.strategy);
      EvictLess(EvictOne(s, cfg.strategy), cfg, needed);
    }
  }

  lemma EvictOneLess(s: State, strategy: Strategy)
    requires Wf(s)
    ensures Less(EvictOne(s, strategy), s)
  {
    if s.entries != [] {
      TargetPresent(s, strategy);
      DropLess(s, Target(s, strategy));
    }
  }

  lemma DropAllLess(s: State, ks: set<string>)
    requires Wf(s)
    ensures Less(DropAll(s, ks), s)
  {
    ExcludeHas(s.entries, ks);
  }

  /** Everything but a read and a write only takes away. */
  lemma RemovalLess(s: State, cfg: Config, e: Event)
    requires Wf(s) && !e.op.DoGet? && !e.op.DoSet?
    ensures Less(Step(s, cfg, e), s)
  {
    match e.op
    case DoDelete(key) => if Has(s.entries, key) { DropLess(s, key); }
    case DoClear(namespace) => if namespace.Some? { DropAllLess(s, KeysIn(s.entries, namespace.value)); }
    case DoInvalidate(tag) => DropAllLess(s, Listed(s.tagIndex, tag));
    case DoCleanup => ExcludeHas(s.entries, ExpiredKeys(s.entries, e.now));
  }

  lemma InsertAdds(s: State, cfg: Config, key: string, meta: Meta)
    requires Wf(s)
    ensures var t := Insert(s, cfg, key, meta);
            && (forall e | e in t.entries :: e in s.entries || e == Entry(key, meta))
            && (forall tag :: Listed(t.tagIndex, tag) <= Listed(s.tagIndex, tag))
  {
    hide Update, EvictOne;
    if Has(s.entries, key) {
      UpdateAdds(s.entries, cfg, key, meta);
    } else {
      EvictOneLess(s, cfg.strategy);
    }
  }

  lemma UpdateAdds(es: seq<Entry>, cfg: Config, key: string, meta: Meta)
    requires Has(es, key)
    ensures forall e | e in Update(es, cfg, key, meta) :: e in es || e == Entry(key, meta)
  {
  }

  /** What a write adds: its own entry, and its key under its own tags. */
  lemma WriteAdds(s: State, cfg: Config, key: string, value: string, opts: SetOptions, now: int)
    requires Wf(s)
    ensures var t := Set(s, cfg, key, value, opts, now);
            && (forall e | e in t.entries :: e in s.entries || e == Entry(key, NewMeta(cfg, value, opts, now)))
            && (forall tag, k | k in Listed(t.tagIndex, tag) ::
                  k in Listed(s.tagIndex, tag) || (k == key && tag in TagsOf(opts)))
  {
    EvictWf(s, cfg, |value|);
    EvictLess(s, cfg, |value|);
    var room, meta := MakeRoom(s, cfg, |value|), NewMeta(cfg, value, opts, now);
    assert Less(room, s);
    InsertAdds(room, cfg, key, meta);
    hide Insert, Evict, MakeRoom, NewMeta, Wf;
    var t, u := Insert(room, cfg, key, meta), Set(s, cfg, key, value, opts, now);
    forall tag, k | k in Listed(u.tagIndex, tag)
      ensures k in Listed(s.tagIndex, tag) || (k == key && tag in TagsOf(opts))
    {
      if opts.tags.Some? {
        TagsAdded(t.tagIndex, opts.tags.value, key);
      }
      assert Listed(t.tagIndex, tag) <= Listed(room.tagIndex, tag) <= Listed(s.tagIndex, tag);
    }
  }

  lemma StepTraced(s: State, cfg: Config, ops: iset<Op>, e: Event)
    requires Wf(s) && Fresh(s, e) && Traced(s, ops) && e.op in ops
    ensures Traced(Step(s, cfg, e), ops)
  {
    var t := Step(s, cfg, e);
    if e.op.DoGet? {
      ReadTraced(s, cfg, ops, e.op.key, e.now);
    } else if e.op.DoSet? {
      hide Set, NewMeta;
      WriteAdds(s, cfg, e.op.key, e.op.value, e.op.opts, e.now);
      WriteTraced(s, t, cfg, ops, e);
    } else {
      RemovalLess(s, cfg, e);
    }
  }

  lemma ReadTraced(s: State, cfg: Config, ops: iset<Op>, key: string, now: int)
    requires Wf(s) && Traced(s, ops)
    ensures Traced(Get(s, cfg, key, now), ops)
  {
    if Has(s.entries, key) {
      var i, t := IndexOf(s.entries, key), Get(s, cfg, key, now);
      var touched := Entry(key, Touched(Find(s.entries, key), cfg, now));
      assert s.entries[i] in s.entries;
      assert forall e | e in t.entries :: e in s.entries || e == touched;
      assert forall tag :: Listed(t.tagIndex, tag) == Listed(s.tagIndex, tag);
    }
  }

  lemma WriteTraced(s: State, t: State, cfg: Config, ops: iset<Op>, e: Event)
    requires Traced(s, ops) && e.op in ops && e.op.DoSet?
    requires forall x | x in t.entries ::
               x in s.entries || x == Entry(e.op.key, NewMeta(cfg, e.op.value, e.op.opts, e.now))
    requires forall tag, k | k in Listed(t.tagIndex, tag) ::
               k in Listed(s.tagIndex, tag) || (k == e.op.key && tag in TagsOf(e.op.opts))
    ensures Traced(t, ops)
  {
    hide Listed;
    assert WrittenWith(ops, e.op.key, NewMeta(cfg, e.op.value, e.op.opts, e.now).tags);
    forall tag, k | k in Listed(t.tagIndex, tag) ensures WrittenUnder(ops, k, tag) {
      if k !in Listed(s.tagIndex, tag) {
        assert e.op.key == k && tag in TagsOf(e.op.opts);
      }
    }
  }

  lemma {:induction false} RunTraced(cfg: Config, ops: iset<Op>, events: seq<Event>)
    requires FreshRun(cfg, events) && Drawn(events, ops)
    ensures Traced(Run(cfg, events), ops)
  {
    if events != [] {
      hide Traced;
      RunTraced(cfg, ops, events[..|events| - 1]);
      StepTraced(Run(cfg, events[..|events| - 1]), cfg, ops, events[|events| - 1]);
    } else {
      NothingTraced(ops);
    }
  }

  lemma NothingTraced(ops: iset<Op>)
    ensures Traced(EMPTY, ops)
  {
  }

  /** Where the writes of a key agree on a tag, the index lists a key exactly when its entry carries it. */
  lemma ListedIsCarried(s: State, ops: iset<Op>, tag: string, key: string)
    requires Wf(s) && Traced(s, ops) && TagsAgree(ops) && DoInvalidate(tag) in ops && Has(s.entries, key)
    ensures key in Listed(s.tagIndex, tag) <==> tag in Find(s.entries, key).tags
  {
    var i := IndexOf(s.entries, key);
    assert Covered(s.entries[i], s.tagIndex) && s.entries[i] in s.entries;
    if key in Listed(s.tagIndex, tag) {
      var a: Op :| a in ops && a.DoSet? && a.key == key && TagsOf(a.opts) == Find(s.entries, key).tags;
      var b: Op :| b in ops && b.DoSet? && b.key == key && tag in TagsOf(b.opts);
    }
  }

  lemma InvalidatedAre(s: State, tag: string)
    ensures InvalidateTag(s, tag).entries == Exclude(s.entries, Listed(s.tagIndex, tag))
  {
    ExcludeNone(s.entries);
  }

  // ---- inclusion ----

  /** No `set` of the run meets the memory limit. */
  predicate NoPressure(cfg: Config, events: seq<Event>)
    requires FreshRun(cfg, events)
  {
    events == [] ||
      var front, e := events[..|events| - 1], events[|events| - 1];
      && NoPressure(cfg, front)
      && (e.op.DoSet? ==> Bytes(Run(cfg, front).entries) + |e.op.value| <= cfg.maxMemoryBytes)
  }

  /** How many entries a cache of this size holds: a write needs room for one. */
  function Capacity(maxSize: nat): nat {
    if maxSize == 0 then 1 else maxSize
  }

  function Room(cfg: Config): nat {
    Capacity(cfg.maxSize)
  }

  /** `a` is what remains of `b` without some keys, and it misses no more entries than it has less room. */
  ghost predicate Within(a: seq<Entry>, b: seq<Entry>, lost: set<string>, small: Config, large: Config) {
    && a == Exclude(b, lost)
    && |a| <= Room(small) && |b| <= Room(large) && |b| - |a| <= Room(large) - Room(small)
  }

  /** On any common run without byte pressure, in which the writes of a key agree on every tag that is
      invalidated, an LRU cache holds every entry that a smaller one holds, unchanged and in the same
      relative order. */
  lemma {:induction false} Inclusion(small: Config, large: Config, ops: iset<Op>, events: seq<Event>)
      returns (lost: set<string>)
    requires large.strategy.Lru? && small.maxSize <= large.maxSize && small == large.(maxSize := small.maxSize)
    requires FreshRun(large, events) && NoPressure(large, events) && Drawn(events, ops) && TagsAgree(ops)
    ensures FreshRun(small, events) &&
            Within(Run(small, events).entries, Run(large, events).entries, lost, small, large)
  {
    if events == [] {
      lost := {};
    } else {
      var front, e := events[..|events| - 1], events[|events| - 1];
      lost := Inclusion(small, large, ops, front);
      FreshWithin(Run(small, front), Run(large, front), lost, e);
      RunTraced(small, ops, front);
      RunTraced(large, ops, front);
      lost := StepWithin(small, large, ops, Run(small, front), Run(large, front), lost, e);
    }
  }

  /** The smaller cache never has a hit that the larger one misses, and both answer the same. */
  lemma NoLostHit(small: Config, large: Config, ops: iset<Op>, events: seq<Event>, key: string)
    requires large.strategy.Lru? && small.maxSize <= large.maxSize && small == large.(maxSize := small.maxSize)
    requires FreshRun(large, events) && NoPressure(large, events) && Drawn(events, ops) && TagsAgree(ops)
    ensures FreshRun(small, events)
    ensures Has(Run(small, events).entries, key) ==>
              && Has(Run(large, events).entries, key)
              && Find(Run(large, events).entries, key) == Find(Run(small, events).entries, key)
  {
    var lost := Inclusion(small, large, ops, events);
    if Has(Run(small, events).entries, key) {
      FindExcluded(Run(large, events).entries, lost, key);
    }
  }

  lemma FreshWithin(a: State, b: State, lost: set<string>, e: Event)
    requires Wf(a) && Wf(b) && a.entries == Exclude(b.entries, lost) && Fresh(b, e)
    ensures Fresh(a, e)
  {
    if e.op.DoGet? && Has(a.entries, e.op.key) {
      FindExcluded(b.entries, lost, e.op.key);
    }
  }

  lemma {:induction false} ExcludeTwice(es: seq<Entry>, xs: set<string>, ys: set<string>)
    ensures Exclude(Exclude(es, xs), ys) == Exclude(es, xs + ys)
  {
    if es != [] {
      ExcludeTwice(es[1..], xs, ys);
      var kept := Exclude(es[1..], xs);
      if es[0].key !in xs {
        assert Exclude(es, xs) == [es[0]] + kept && ([es[0]] + kept)[1..] == kept;
      } else {
        assert Exclude(es, xs) == kept;
      }
    }
  }

  lemma {:induction false} ExcludeAgree(es: seq<Entry>, xs: set<string>, ys: set<string>)
    requires forall i | 0 <= i < |es| :: es[i].key in xs <==> es[i].key in ys
    ensures Exclude(es, xs) == Exclude(es, ys)
  {
    if es != [] {
      forall i | 0 <= i < |es| - 1 ensures es[1..][i].key in xs <==> es[1..][i].key in ys {
        assert es[1..][i] == es[i + 1];
      }
      ExcludeAgree(es[1..], xs, ys);
    }
  }

  lemma {:induction false} ExcludeLess(es: seq<Entry>, xs: set<string>, ys: set<string>)
    ensures |Exclude(es, xs)| - |Exclude(es, xs + ys)| <= |es| - |Exclude(es, ys)|
    ensures |Exclude(es, xs)| <= |es|
  {
    if es != [] {
      ExcludeLess(es[1..], xs, ys);
      var k := es[0].key;
      assert |Exclude(es, ys)| == |Exclude(es[1..], ys)| + if k in ys then 0 else 1;
      assert |Exclude(es, xs + ys)| == |Exclude(es[1..], xs + ys)| + if k in xs || k in ys then 0 else 1;
    }
  }

  lemma WithoutIsExclude(es: seq<Entry>, key: string)
    requires NoDup(Keys(es))
    ensures Without(es, key) == Exclude(es, {key})
  {
    ExcludeNone(es);
    ExcludeOneMore(es, {}, key);
    assert {} + {key} == {key};
  }

  /** Removing the same keys from both, as far as the smaller one still has them. */
  lemma RemovalWithin(small: Config, large: Config, a: seq<Entry>, b: seq<Entry>, lost: set<string>, xa: set<string>,
                      xb: set<string>)
    requires Within(a, b, lost, small, large)
    requires forall k | Has(b, k) && k !in lost :: k in xa <==> k in xb
    ensures Within(Exclude(a, xa), Exclude(b, xb), lost, small, large)
  {
    ExcludeTwice(b, lost, xa);
    ExcludeTwice(b, xb, lost);
    forall i | 0 <= i < |b| ensures b[i].key in lost + xa <==> b[i].key in xb + lost {
      assert Has(b, b[i].key);
    }
    ExcludeAgree(b, lost + xa, xb + lost);
    ExcludeLess(b, xb, lost);
    ExcludeLess(a, xa, {});
  }

  /** Both get the same head; the keys that leave the larger one are gone from the smaller one too. */
  lemma FrontWithin(e: Entry, a: seq<Entry>, b: seq<Entry>, lost: set<string>, xa: set<string>, xb: set<string>)
      returns (lost': set<string>)
    requires a == Exclude(b, lost)
    requires forall i | 0 <= i < |b| :: b[i].key in xb ==> b[i].key in lost + xa
    requires forall i | 0 <= i < |b| && b[i].key == e.key :: e.key in xb
    ensures [e] + Exclude(a, xa) == Exclude([e] + Exclude(b, xb), lost')
  {
    lost' := lost + xa - {e.key};
    ExcludeTwice(b, lost, xa);
    ExcludeTwice(b, xb, lost');
    ExcludeAgree(b, lost + xa, xb + lost');
    assert ([e] + Exclude(b, xb))[1..] == Exclude(b, xb);
  }

  lemma ClearWithin(small: Config, large: Config, a: State, b: State, lost: set<string>, namespace: Option<string>)
    requires small.maxSize <= large.maxSize && Wf(a) && Wf(b)
    requires Within(a.entries, b.entries, lost, small, large)
    ensures Within(Clear(a, namespace).entries, Clear(b, namespace).entries, lost, small, large)
  {
    if namespace.Some? && namespace.value != "" {
      SameNamespace(a.entries, b.entries, lost, namespace.value);
      RemovalWithin(small, large, a.entries, b.entries, lost,
                    KeysIn(a.entries, namespace.value), KeysIn(b.entries, namespace.value));
    }
  }

  /** What one cache lists under the tag of the keys in both, the other lists too. */
  lemma InvalidateWithin(small: Config, large: Config, ops: iset<Op>, a: State, b: State, lost: set<string>,
                         tag: string)
    requires small.maxSize <= large.maxSize && Wf(a) && Wf(b)
    requires DoInvalidate(tag) in ops && TagsAgree(ops) && Traced(a, ops) && Traced(b, ops)
    requires Within(a.entries, b.entries, lost, small, large)
    ensures Within(InvalidateTag(a, tag).entries, InvalidateTag(b, tag).entries, lost, small, large)
  {
    forall k | Has(b.entries, k) && k !in lost ensures k in Listed(a.tagIndex, tag) <==> k in Listed(b.tagIndex, tag) {
      SameEntry(a.entries, b.entries, lost, k);
      ListedIsCarried(a, ops, tag, k);
      ListedIsCarried(b, ops, tag, k);
    }
    InvalidatedAre(a, tag);
    InvalidatedAre(b, tag);
    RemovalWithin(small, large, a.entries, b.entries, lost, Listed(a.tagIndex, tag), Listed(b.tagIndex, tag));
  }

  lemma StepWithin(small: Config, large: Config, ops: iset<Op>, a: State, b: State, lost: set<string>, e: Event)
      returns (lost': set<string>)
    requires large.strategy.Lru? && small.maxSize <= large.maxSize && small == large.(maxSize := small.maxSize)
    requires Wf(a) && Wf(b) && Fresh(a, e) && Fresh(b, e)
    requires e.op in ops && TagsAgree(ops) && Traced(a, ops) && Traced(b, ops)
    requires Within(a.entries, b.entries, lost, small, large)
    requires e.op.DoSet? ==> Bytes(b.entries) + |e.op.value| <= large.maxMemoryBytes
    ensures Within(Step(a, small, e).entries, Step(b, large, e).entries, lost', small, large)
  {
    lost' := lost;
    match e.op {
      case DoGet(key) => lost' := ReadWithin(small, large, a, b, lost, e);
      case DoSet(key, value, opts) => lost' := WriteWithin(small, large, a, b, lost, e);
      case DoDelete(key) =>
        WithoutIsExclude(a.entries, key);
        WithoutIsExclude(b.entries, key);
        RemovalWithin(small, large, a.entries, b.entries, lost, {key}, {key});
      case DoClear(namespace) => ClearWithin(small, large, a, b, lost, namespace);
      case DoCleanup =>
        SameExpired(a.entries, b.entries, lost, e.now);
        RemovalWithin(small, large, a.entries, b.entries, lost, ExpiredKeys(a.entries, e.now),
                      ExpiredKeys(b.entries, e.now));
      case DoInvalidate(tag) => InvalidateWithin(small, large, ops, a, b, lost, tag);
    }
  }

  lemma SameEntry(a: seq<Entry>, b: seq<Entry>, lost: set<string>, key: string)
    requires NoDup(Keys(b)) && NoDup(Keys(a)) && a == Exclude(b, lost) && Has(b, key) && key !in lost
    ensures Has(a, key) && a[IndexOf(a, key)] == b[IndexOf(b, key)]
  {
    ExcludeHas(b, lost);
    FindExcluded(b, lost, key);
  }

  lemma SameNamespace(a: seq<Entry>, b: seq<Entry>, lost: set<string>, namespace: string)
    requires NoDup(Keys(b)) && NoDup(Keys(a)) && a == Exclude(b, lost)
    ensures forall k | Has(b, k) && k !in lost :: k in KeysIn(a, namespace) <==> k in KeysIn(b, namespace)
  {
    forall k | Has(b, k) && k !in lost ensures k in KeysIn(a, namespace) <==> k in KeysIn(b, namespace) {
      SameEntry(a, b, lost, k);
      InNamespace(a, namespace, k);
      InNamespace(b, namespace, k);
    }
  }

  lemma InNamespace(es: seq<Entry>, namespace: string, k: string)
    requires NoDup(Keys(es)) && Has(es, k)
    ensures k in KeysIn(es, namespace) <==> Find(es, k).namespace == namespace
  {
    if k in KeysIn(es, namespace) {
      var i :| 0 <= i < |es| && es[i].meta.namespace == namespace && es[i].key == k;
      HasIndex(es, k, i);
    }
  }

  lemma SameExpired(a: seq<Entry>, b: seq<Entry>, lost: set<string>, now: int)
    requires NoDup(Keys(b)) && NoDup(Keys(a)) && a == Exclude(b, lost)
    ensures forall k | Has(b, k) && k !in lost :: k in ExpiredKeys(a, now) <==> k in ExpiredKeys(b, now)
  {
    forall k | Has(b, k) && k !in lost ensures k in ExpiredKeys(a, now) <==> k in ExpiredKeys(b, now) {
      SameEntry(a, b, lost, k);
      InExpired(a, now, k);
      InExpired(b, now, k);
    }
  }

  lemma InExpired(es: seq<Entry>, now: int, k: string)
    requires NoDup(Keys(es)) && Has(es, k)
    ensures k in ExpiredKeys(es, now) <==> Expired(Find(es, k), now)
  {
    if k in ExpiredKeys(es, now) {
      var i :| 0 <= i < |es| && Expired(es[i].meta, now) && es[i].key == k;
      HasIndex(es, k, i);
    }
  }

  lemma ReadWithin(small: Config, large: Config, a: State, b: State, lost: set<string>, e: Event)
      returns (lost': set<string>)
    requires large.strategy.Lru? && small == large.(maxSize := small.maxSize) && e.op.DoGet?
    requires Wf(a) && Wf(b) && Within(a.entries, b.entries, lost, small, large)
    ensures Within(Get(a, small, e.op.key, e.now).entries, Get(b, large, e.op.key, e.now).entries, lost', small, large)
  {
    var key := e.op.key;
    lost' := lost;
    GetWf(a, small, key, e.now);
    GetWf(b, large, key, e.now);
    hide Has, Update, Wf, Exclude, Get, Touched, IndexOf, Find, NoDup, Keys;
    if Has(b.entries, key) {
      if key !in lost {
        lost' := HitWithin(small, large, a, b, lost, key, e.now);
      } else {
        StaleHitWithin(small, large, a, b, lost, key, e.now);
      }
    } else {
      AbsentWithin(small, large, a, b, lost, key, e.now);
    }
  }

  lemma HitWithin(small: Config, large: Config, a: State, b: State, lost: set<string>, key: string, now: int)
      returns (lost': set<string>)
    requires large.strategy.Lru? && small == large.(maxSize := small.maxSize)
    requires Wf(a) && Wf(b) && a.entries == Exclude(b.entries, lost) && Has(b.entries, key) && key !in lost
    ensures Get(a, small, key, now).entries == Exclude(Get(b, large, key, now).entries, lost')
  {
    var head := Entry(key, Touched(Find(b.entries, key), large, now));
    SameRead(small, large, a, b, lost, key, now);
    ReadIs(b, large, key, now);
    hide *;
    lost' := FrontWithin(head, a.entries, b.entries, lost, {key}, {key});
  }

  lemma SameRead(small: Config, large: Config, a: State, b: State, lost: set<string>, key: string, now: int)
    requires large.strategy.Lru? && small == large.(maxSize := small.maxSize)
    requires Wf(a) && Wf(b) && a.entries == Exclude(b.entries, lost) && Has(b.entries, key) && key !in lost
    ensures Get(a, small, key, now).entries ==
            [Entry(key, Touched(Find(b.entries, key), large, now))] + Exclude(a.entries, {key})
  {
    SameEntry(a.entries, b.entries, lost, key);
    ReadIs(a, small, key, now);
    hide Has, Update, Wf, Exclude, Get, NoDup;
  }

  lemma StaleHitWithin(small: Config, large: Config, a: State, b: State, lost: set<string>, key: string, now: int)
    requires large.strategy.Lru? && Wf(b) && a.entries == Exclude(b.entries, lost) && Has(b.entries, key) && key in lost
    ensures Get(a, small, key, now).entries == Exclude(Get(b, large, key, now).entries, lost)
  {
    ReadIs(b, large, key, now);
    ExcludeHas(b.entries, lost);
    MissWithin(a.entries, b.entries, lost, Entry(key, Touched(Find(b.entries, key), large, now)));
  }

  lemma AbsentWithin(small: Config, large: Config, a: State, b: State, lost: set<string>, key: string, now: int)
    requires Wf(b) && a.entries == Exclude(b.entries, lost) && !Has(b.entries, key)
    ensures Get(a, small, key, now) == a && Get(b, large, key, now) == b
  {
    ExcludeHas(b.entries, lost);
  }

  lemma ReadIs(s: State, cfg: Config, key: string, now: int)
    requires Wf(s) && cfg.strategy.Lru? && Has(s.entries, key)
    ensures Get(s, cfg, key, now).entries ==
            [Entry(key, Touched(Find(s.entries, key), cfg, now))] + Exclude(s.entries, {key})
  {
    UpdateLru(s.entries, cfg, key, Touched(Find(s.entries, key), cfg, now));
    WithoutIsExclude(s.entries, key);
  }

  lemma MissWithin(a: seq<Entry>, b: seq<Entry>, lost: set<string>, e: Entry)
    requires a == Exclude(b, lost) && e.key in lost
    ensures a == Exclude([e] + Exclude(b, {e.key}), lost)
  {
    ExcludeTwice(b, {e.key}, lost);
    assert {e.key} + lost == lost;
    assert ([e] + Exclude(b, {e.key}))[1..] == Exclude(b, {e.key});
  }

  // ---- a write in both caches ----

  /** The keys that a write removes from the list: the key itself, or the one it pushes out. */
  function Victims(es: seq<Entry>, key: string, cap: nat): set<string> {
    if Has(es, key) then {key}
    else if |es| >= cap && es != [] then {es[|es| - 1].key}
    else {}
  }

  lemma WriteIs(s: State, cfg: Config, key: string, value: string, opts: SetOptions, now: int)
    requires Wf(s) && cfg.strategy.Lru? && Bytes(s.entries) + |value| <= cfg.maxMemoryBytes
    ensures var es, x := s.entries, Victims(s.entries, key, cfg.maxSize);
            && Set(s, cfg, key, value, opts, now).entries == [Entry(key, NewMeta(cfg, value, opts, now))] +
               Exclude(es, x)
            && |Exclude(es, x)| == |es| - |x|
  {
    var es := s.entries;
    InsertLru(s, cfg, key, NewMeta(cfg, value, opts, now));
    VictimsGo(es, key, cfg.maxSize);
    hide Insert, NoDup, IndexOf, NewMeta, Victims, Without, Exclude, Has, Wf;
  }

  /** The victims of a write, taken out one way or the other. */
  lemma VictimsGo(es: seq<Entry>, key: string, maxSize: nat)
    requires NoDup(Keys(es))
    ensures var x := Victims(es, key, maxSize);
            && |Exclude(es, x)| == |es| - |x|
            && Exclude(es, x) ==
               if Has(es, key) then Without(es, key)
               else if |es| >= maxSize && es != [] then es[..|es| - 1] else es
  {
    if Has(es, key) {
      WithoutIsExclude(es, key);
      RemovedKeys(es, key);
    } else if |es| >= maxSize && es != [] {
      LastGoes(es);
    } else {
      ExcludeNone(es);
    }
  }

  lemma LastGoes(es: seq<Entry>)
    requires NoDup(Keys(es)) && es != []
    ensures Exclude(es, {es[|es| - 1].key}) == es[..|es| - 1]
  {
    var last := |es| - 1;
    HasIndex(es, es[last].key, last);
    assert RemoveAt(es, last) == es[..last];
    hide NoDup, IndexOf;
    WithoutIsExclude(es, es[last].key);
  }

  /** The last entry of the larger list is either missing from the smaller one or its last too. */
  lemma {:induction false} LastWithin(b: seq<Entry>, lost: set<string>)
    requires b != [] && b[|b| - 1].key !in lost
    ensures Exclude(b, lost) != [] && Exclude(b, lost)[|Exclude(b, lost)| - 1] == b[|b| - 1]
  {
    if |b| > 1 {
      LastWithin(b[1..], lost);
    }
  }

  lemma VictimsWithin(small: Config, large: Config, a: seq<Entry>, b: seq<Entry>, lost: set<string>, key: string)
    requires small.maxSize <= large.maxSize && Within(a, b, lost, small, large) && NoDup(Keys(b))
    ensures var xa, xb := Victims(a, key, small.maxSize), Victims(b, key, large.maxSize);
            && (forall i | 0 <= i < |b| :: b[i].key in xb ==> b[i].key in lost + xa)
            && (forall i | 0 <= i < |b| && b[i].key == key :: key in xb)
            && (|b| - |xb|) - (|a| - |xa|) <= Room(large) - Room(small)
            && |a| - |xa| < Room(small) && |b| - |xb| < Room(large)
  {
    ExcludeHas(b, lost);
    if b != [] && b[|b| - 1].key !in lost {
      LastWithin(b, lost);
    }
    if !Has(b, key) && |b| >= large.maxSize && b != [] {
      assert |a| >= Room(small);
    }
  }

  lemma SameMeta(small: Config, large: Config, value: string, opts: SetOptions, now: int)
    requires small == large.(maxSize := small.maxSize)
    ensures NewMeta(small, value, opts, now) == NewMeta(large, value, opts, now)
  {
  }

  lemma WriteWithin(small: Config, large: Config, a: State, b: State, lost: set<string>, e: Event)
      returns (lost': set<string>)
    requires large.strategy.Lru? && small == large.(maxSize := small.maxSize) && small.maxSize <= large.maxSize
    requires e.op.DoSet? && Wf(a) && Wf(b) && Within(a.entries, b.entries, lost, small, large)
    requires Bytes(b.entries) + |e.op.value| <= large.maxMemoryBytes
    ensures Within(Set(a, small, e.op.key, e.op.value, e.op.opts, e.now).entries,
                   Set(b, large, e.op.key, e.op.value, e.op.opts, e.now).entries, lost', small, large)
  {
    var (key, value, opts) := (e.op.key, e.op.value, e.op.opts);
    ExcludeBytes(b.entries, lost);
    SameMeta(small, large, value, opts, e.now);
    hide Bytes, Has, Set, NewMeta, Exclude;
    WriteIs(a, small, key, value, opts, e.now);
    WriteIs(b, large, key, value, opts, e.now);
    VictimsWithin(small, large, a.entries, b.entries, lost, key);
    hide Victims, Wf;
    lost' := FrontWithin(Entry(key, NewMeta(large, value, opts, e.now)), a.entries, b.entries, lost,
                         Victims(a.entries, key, small.maxSize), Victims(b.entries, key, large.maxSize));
  }

  // ---- survival ----

  /** Everything ahead of the key's entry belongs to `others`. */
  predicate Ahead(es: seq<Entry>, key: string, others: set<string>) {
    Has(es, key) && forall j | 0 <= j < IndexOf(es, key) :: es[j].key in others
  }

  /** A read, a write of some other key, or a removal that does not mean the key: a deletion of some
      other key, a clear of some other namespace, an invalidation of a tag that does not list the key,
      a sweep before it expires. */
  predicate Spares(s: State, e: Event, key: string)
    requires Has(s.entries, key)
  {
    match e.op
    case DoGet(_) => true
    case DoSet(k, _, _) => k != key
    case DoDelete(k) => k != key
    case DoClear(namespace) =>
      namespace.Some? && namespace.value != "" && Find(s.entries, key).namespace != namespace.value
    case DoInvalidate(tag) => key !in Listed(s.tagIndex, tag)
    case DoCleanup => !Expired(Find(s.entries, key), e.now)
  }

  /** From event `i` on, every event spares the key while it is there. */
  predicate SparedSince(cfg: Config, events: seq<Event>, i: nat, key: string)
    requires FreshRun(cfg, events) && i <= |events|
    decreases |events|
  {
    i == |events| ||
      var front, e := events[..|events| - 1], events[|events| - 1];
      && SparedSince(cfg, front, i, key)
      && (Has(Run(cfg, front).entries, key) ==> Spares(Run(cfg, front), e, key))
  }

  /** The other keys that were read or written from event `i` on. */
  function OthersSince(events: seq<Event>, i: nat, key: string): set<string> {
    set j | i <= j < |events| && (events[j].op.DoGet? || events[j].op.DoSet?) && events[j].op.key != key ::
        events[j].op.key
  }

  /** After event `i - 1` has touched a key that is then present, the key is still a hit with the
      same value as long as fewer other keys were touched than the cache has room for. */
  lemma {:induction false} Survival(cfg: Config, events: seq<Event>, i: nat, key: string)
    requires cfg.strategy.Lru? && FreshRun(cfg, events) && NoPressure(cfg, events)
    requires 0 < i <= |events| && FreshRun(cfg, events[..i])
    requires Touches(events[i - 1], key) && Has(Run(cfg, events[..i]).entries, key)
    requires SparedSince(cfg, events, i, key)
    requires |OthersSince(events, i, key)| < Room(cfg)
    ensures Ahead(Run(cfg, events).entries, key, OthersSince(events, i, key))
    ensures Find(Run(cfg, events).entries, key).value == Find(Run(cfg, events[..i]).entries, key).value
    decreases |events|
  {
    if i == |events| {
      assert events[..i] == events;
      TouchedFirst(cfg, events, key);
    } else {
      var front, e := events[..|events| - 1], events[|events| - 1];
      assert front[..i] == events[..i] && front[i - 1] == events[i - 1];
      OthersGrow(events, i, key);
      Survival(cfg, front, i, key);
      StepSpares(Run(cfg, front), cfg, e, key, OthersSince(front, i, key), OthersSince(events, i, key));
    }
  }

  /** What was touched last stands at the head. */
  lemma TouchedFirst(cfg: Config, events: seq<Event>, key: string)
    requires cfg.strategy.Lru? && FreshRun(cfg, events) && events != []
    requires Touches(events[|events| - 1], key) && Has(Run(cfg, events).entries, key)
    ensures IndexOf(Run(cfg, events).entries, key) == 0
  {
    RecencyOrder(cfg, events);
    var es := Run(cfg, events).entries;
    assert LastTouch(events, key) == |events| - 1;
    HeadIsLatest(es, events, IndexOf(es, key));
  }

  lemma HeadIsLatest(es: seq<Entry>, events: seq<Event>, i: nat)
    requires ByRecency(es, events) && i < |es|
    ensures i == 0 || LastTouch(events, es[i].key) < |events| - 1
  {
    assert LastTouch(events, es[0].key) < |events|;
  }

  lemma OthersGrow(events: seq<Event>, i: nat, key: string)
    requires i < |events|
    ensures var front, e := events[..|events| - 1], events[|events| - 1];
            && OthersSince(front, i, key) <= OthersSince(events, i, key)
            && |OthersSince(front, i, key)| <= |OthersSince(events, i, key)|
            && ((e.op.DoGet? || e.op.DoSet?) && e.op.key != key ==> e.op.key in OthersSince(events, i, key))
  {
    var front := events[..|events| - 1];
    forall k | k in OthersSince(front, i, key) ensures k in OthersSince(events, i, key) {
      var j :| i <= j < |front| && (front[j].op.DoGet? || front[j].op.DoSet?) && front[j].op.key != key &&
        front[j].op.key == k;
      assert front[j] == events[j];
    }
    Fewer(OthersSince(front, i, key), OthersSince(events, i, key));
  }

  lemma {:induction false} Fewer<T>(xs: set<T>, ys: set<T>)
    requires xs <= ys
    ensures |xs| <= |ys|
  {
    if xs != {} {
      var x :| x in xs;
      Fewer(xs - {x}, ys - {x});
    }
  }

  lemma {:induction false} Distinct(ks: seq<string>, others: set<string>)
    requires NoDup(ks) && forall i | 0 <= i < |ks| :: ks[i] in others
    ensures |ks| <= |others|
  {
    if ks != [] {
      Distinct(ks[1..], others - {ks[0]});
    }
  }

  lemma {:induction false} AheadExclude(es: seq<Entry>, key: string, others: set<string>, ks: set<string>)
    requires Ahead(es, key, others) && key !in ks
    ensures Ahead(Exclude(es, ks), key, others) && Find(Exclude(es, ks), key) == Find(es, key)
  {
    var r := Exclude(es[1..], ks);
    if es[0].key == key {
      HeadFound([es[0]] + r, key);
    } else {
      AheadTail(es, key, others);
      AheadExclude(es[1..], key, others, ks);
      hide Ahead;
      if es[0].key in ks {
        assert Exclude(es, ks) == r;
      } else {
        AheadFront(es[0], r, key, others);
      }
    }
  }

  lemma AheadTail(es: seq<Entry>, key: string, others: set<string>)
    requires Ahead(es, key, others) && es[0].key != key
    ensures Ahead(es[1..], key, others) && Find(es[1..], key) == Find(es, key) && es[0].key in others
  {
    assert es[1..][IndexOf(es, key) - 1] == es[IndexOf(es, key)];
    forall j | 0 <= j < IndexOf(es[1..], key) ensures es[1..][j].key in others {
      assert es[1..][j] == es[j + 1];
    }
  }

  lemma HeadFound(es: seq<Entry>, key: string)
    requires es != [] && es[0].key == key
    ensures Has(es, key) && IndexOf(es, key) == 0
  {
  }

  lemma AheadFront(e: Entry, es: seq<Entry>, key: string, others: set<string>)
    requires Ahead(es, key, others) && e.key != key && e.key in others
    ensures Ahead([e] + es, key, others) && Find([e] + es, key) == Find(es, key)
  {
    assert ([e] + es)[1..] == es;
    assert ([e] + es)[IndexOf(es, key) + 1].key == key;
  }

  /** If the key is last, all other keys of a full list are ahead of it, and the new key is one more. */
  lemma NotPushedOut(es: seq<Entry>, key: string, added: string, others: set<string>)
    requires NoDup(Keys(es)) && Ahead(es, key, others) && !Has(es, added) && added in others
    ensures es[|es| - 1].key == key ==> |es| <= |others|
  {
    if es[|es| - 1].key == key {
      HasIndex(es, key, |es| - 1);
      var ks := Keys(es)[..|es| - 1] + [added];
      forall j | 0 <= j < |ks| ensures ks[j] in others {
        assert j < |es| - 1 ==> ks[j] == es[j].key;
      }
      assert NoDup(ks);
      Distinct(ks, others);
    }
  }

  lemma StepSpares(s: State, cfg: Config, e: Event, key: string, before: set<string>, after: set<string>)
    requires Wf(s) && cfg.strategy.Lru? && Fresh(s, e)
    requires e.op.DoSet? ==> Bytes(s.entries) + |e.op.value| <= cfg.maxMemoryBytes
    requires Ahead(s.entries, key, before) && Spares(s, e, key) && before <= after && |after| < Room(cfg)
    requires (e.op.DoGet? || e.op.DoSet?) && e.op.key != key ==> e.op.key in after
    ensures Ahead(Step(s, cfg, e).entries, key, after)
    ensures Find(Step(s, cfg, e).entries, key).value == Find(s.entries, key).value
  {
    var es := s.entries;
    if e.op.DoGet? {
      if Has(es, e.op.key) {
        ReadIs(s, cfg, e.op.key, e.now);
        var touched := Entry(e.op.key, Touched(Find(es, e.op.key), cfg, e.now));
        if e.op.key == key {
          HeadFound([touched] + Exclude(es, {key}), key);
        } else {
          AheadExclude(es, key, after, {e.op.key});
          AheadFront(touched, Exclude(es, {e.op.key}), key, after);
        }
      }
    } else if e.op.DoSet? {
      WriteIs(s, cfg, e.op.key, e.op.value, e.op.opts, e.now);
      if !Has(es, e.op.key) {
        NotPushedOut(es, key, e.op.key, after);
      }
      AheadExclude(es, key, after, Victims(es, e.op.key, cfg.maxSize));
      AheadFront(Entry(e.op.key, NewMeta(cfg, e.op.value, e.op.opts, e.now)),
                 Exclude(es, Victims(es, e.op.key, cfg.maxSize)), key, after);
    } else {
      var ks := RemovalSpares(s, cfg, e, key);
      AheadExclude(es, key, after, ks);
    }
  }

  /** A removal that spares the key takes other keys out of the list. */
  lemma RemovalSpares(s: State, cfg: Config, e: Event, key: string) returns (ks: set<string>)
    requires Wf(s) && Has(s.entries, key) && Spares(s, e, key) && !e.op.DoGet? && !e.op.DoSet?
    ensures key !in ks && Step(s, cfg, e).entries == Exclude(s.entries, ks)
  {
    match e.op {
      case DoDelete(k) =>
        WithoutIsExclude(s.entries, k);
        ks := {k};
      case DoClear(namespace) =>
        InNamespace(s.entries, namespace.value, key);
        ks := KeysIn(s.entries, namespace.value);
      case DoInvalidate(tag) =>
        InvalidatedAre(s, tag);
        ks := Listed(s.tagIndex, tag);
      case DoCleanup =>
        InExpired(s.entries, e.now, key);
        ks := ExpiredKeys(s.entries, e.now);
    }
  }
}
