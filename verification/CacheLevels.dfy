/** The memory cache as the first cache level: a run of the cache is a run of the level, with losses
    where it evicts, and a key that is held has the value last written under it. */
module CacheLevels {
  import opened Wrappers
  import opened CacheSpec
  import Levels
  import Recency

  function KeySet(es: seq<Entry>): set<string> {
    set i | 0 <= i < |es| :: es[i].key
  }

  lemma KeySetHas(es: seq<Entry>)
    ensures forall k :: k in KeySet(es) <==> Has(es, k)
  {
  }

  /** What the level keeps of an entry. */
  function Kept(m: Meta): Levels.Entry {
    Levels.Entry(m.value, m.expiresAt, m.tags)
  }

  function Held(es: seq<Entry>): map<string, Levels.Entry> {
    map k | k in KeySet(es) :: Kept(Find(es, k))
  }

  function LevelOf(s: State): Levels.Level {
    Levels.Level(Held(s.entries), s.tagIndex)
  }

  // ---- entries that change and entries that go ----

  lemma SameHeld(es: seq<Entry>, m: map<string, Levels.Entry>)
    requires forall k :: k in m <==> Has(es, k)
    requires forall k | Has(es, k) :: m[k] == Kept(Find(es, k))
    ensures Held(es) == m
  {
    KeySetHas(es);
  }

  lemma ExcludedHeld(es: seq<Entry>, ks: set<string>)
    requires NoDup(Keys(es))
    ensures Held(Exclude(es, ks)) == Held(es) - ks
  {
    KeySetHas(es);
    ExcludeHas(es, ks);
    forall k | Has(Exclude(es, ks), k) ensures Find(Exclude(es, ks), k) == Find(es, k) && k in KeySet(es) && k !in ks {
      FindExcluded(es, ks, k);
      var i := IndexOf(Exclude(es, ks), k);
      assert Exclude(es, ks)[i] in Exclude(es, ks);
    }
    forall k | k in KeySet(es) && k !in ks ensures Has(Exclude(es, ks), k) {
      StaysIn(es, ks, k);
    }
    SameHeld(Exclude(es, ks), Held(es) - ks);
  }

  lemma {:induction false} StaysIn(es: seq<Entry>, ks: set<string>, key: string)
    requires Has(es, key) && key !in ks
    ensures Has(Exclude(es, ks), key)
  {
    HasStep(es, key);
    var r := Exclude(es, ks);
    if es[0].key == key {
      assert r[0] == es[0];
    } else {
      StaysIn(es[1..], ks, key);
      var tail := Exclude(es[1..], ks);
      var i :| 0 <= i < |tail| && tail[i].key == key;
      assert r[if es[0].key in ks then i else i + 1] == tail[i];
    }
  }

  /** Dropping a set of keys is a loss of the level. */
  lemma DropAllLoses(s: State, ks: set<string>)
    requires Wf(s)
    ensures LevelOf(DropAll(s, ks)) == Levels.Lose(LevelOf(s), ks)
  {
    ExcludedHeld(s.entries, ks);
    KeySetHas(s.entries);
    forall t | t in s.tagIndex
      ensures Carriers(s.entries, ks, t) == Levels.Carriers(LevelOf(s), ks, t)
    {
    }
  }

  lemma DropLoses(s: State, key: string)
    requires Wf(s) && Has(s.entries, key)
    ensures LevelOf(Drop(s, key)) == Levels.Lose(LevelOf(s), {key})
  {
    Recency.WithoutIsExclude(s.entries, key);
    ExcludedHeld(s.entries, {key});
    KeySetHas(s.entries);
    var m := Find(s.entries, key);
    forall t | t in s.tagIndex
      ensures s.tagIndex[t] - Levels.Carriers(LevelOf(s), {key}, t) == if t in m.tags then s.tagIndex[t] - {key}
              else s.tagIndex[t]
    {
      assert Levels.Carriers(LevelOf(s), {key}, t) == if t in m.tags then {key} else {};
    }
  }

  lemma LoseTwice(l: Levels.Level, a: set<string>, b: set<string>)
    ensures Levels.Lose(Levels.Lose(l, a), b) == Levels.Lose(l, a + b)
  {
    forall t | t in l.index
      ensures l.index[t] - Levels.Carriers(l, a, t) - Levels.Carriers(Levels.Lose(l, a), b, t) ==
              l.index[t] - Levels.Carriers(l, a + b, t)
    {
    }
    assert l.entries - a - b == l.entries - (a + b);
  }

  lemma LoseNothing(l: Levels.Level)
    ensures Levels.Lose(l, {}) == l
  {
    NoCarriers(l, {});
  }

  /** Keys without an entry are on no tag's account. */
  lemma NoCarriers(l: Levels.Level, gone: set<string>)
    requires forall k | k in gone :: k !in l.entries
    ensures Levels.Lose(l, gone) == l
  {
    forall t | t in l.index ensures Levels.Lose(l, gone).index[t] == l.index[t] {
      assert Levels.Carriers(l, gone, t) == {};
    }
    assert l.entries - gone == l.entries;
  }

  // ---- eviction ----

  /** The keys that `evictOne` and `evict` remove. */
  function Victim(s: State, cfg: Config): set<string>
    requires Wf(s)
  {
    if s.entries == [] then {} else {Target(s, cfg.strategy)}
  }

  function Victims(s: State, cfg: Config, needed: nat): set<string>
    requires Wf(s)
    decreases |s.entries|
  {
    if Bytes(s.entries) + needed > cfg.maxMemoryBytes && s.entries != [] then
      EvictOneWf(s, cfg.strategy);
      Victim(s, cfg) + Victims(EvictOne(s, cfg.strategy), cfg, needed)
    else {}
  }

  lemma EvictOneLoses(s: State, cfg: Config)
    requires Wf(s)
    ensures LevelOf(EvictOne(s, cfg.strategy)) == Levels.Lose(LevelOf(s), Victim(s, cfg))
  {
    if s.entries == [] {
      LoseNothing(LevelOf(s));
    } else {
      TargetPresent(s, cfg.strategy);
      DropLoses(s, Target(s, cfg.strategy));
    }
  }

  lemma {:induction false} EvictLoses(s: State, cfg: Config, needed: nat)
    requires Wf(s)
    ensures LevelOf(Evict(s, cfg, needed)) == Levels.Lose(LevelOf(s), Victims(s, cfg, needed))
    decreases |s.entries|
  {
    hide LevelOf, EvictOne, Victim, Levels.Lose, Wf, Bytes;
    if Bytes(s.entries) + needed > cfg.maxMemoryBytes && s.entries != [] {
      EvictOneWf(s, cfg.strategy);
      EvictOneLoses(s, cfg);
      EvictLoses(EvictOne(s, cfg.strategy), cfg, needed);
      LoseTwice(LevelOf(s), Victim(s, cfg), Victims(EvictOne(s, cfg.strategy), cfg, needed));
    } else {
      LoseNothing(LevelOf(s));
    }
  }

  /** The keys that have to go before a value is written. */
  function Displaced(s: State, cfg: Config, key: string, size: nat): set<string>
    requires Wf(s)
  {
    EvictWf(s, cfg, size);
    var room := MakeRoom(s, cfg, size);
    (if Bytes(s.entries) + size > cfg.maxMemoryBytes then Victims(s, cfg, size) else {}) +
    (if !Has(room.entries, key) && |room.order| >= cfg.maxSize then Victim(room, cfg) else {})
  }

  lemma RoomLoses(s: State, cfg: Config, size: nat)
    requires Wf(s)
    ensures LevelOf(MakeRoom(s, cfg, size)) ==
            Levels.Lose(LevelOf(s), if Bytes(s.entries) + size > cfg.maxMemoryBytes then Victims(s, cfg, size) else {})
  {
    if Bytes(s.entries) + size > cfg.maxMemoryBytes {
      EvictLoses(s, cfg, size);
    } else {
      LoseNothing(LevelOf(s));
    }
  }

  // ---- replacing and adding entries ----

  lemma UpdatedHeld(es: seq<Entry>, cfg: Config, key: string, meta: Meta)
    requires NoDup(Keys(es)) && Has(es, key)
    ensures Held(Update(es, cfg, key, meta)) == Held(es)[key := Kept(meta)]
  {
    var i, r := IndexOf(es, key), Update(es, cfg, key, meta);
    var e := Entry(key, meta);
    UpdatedKeys(es, i, e);
    FrontKeys(es[i := e], i);
    KeySetHas(es);
    forall k | Has(es, k) ensures Find(r, k) == if k == key then meta else Find(es, k) {
      var a := if k == key then i else IndexOf(es, k);
      assert es[i := e][a] == if k == key then e else es[a];
      var b := if !cfg.strategy.Lru? then a else if a == i then 0 else if a < i then a + 1 else a;
      assert r[b] == es[i := e][a];
      HasIndex(r, k, b);
    }
    SameHeld(r, Held(es)[key := Kept(meta)]);
  }

  lemma FrontHeld(e: Entry, es: seq<Entry>)
    requires !Has(es, e.key)
    ensures Held([e] + es) == Held(es)[e.key := Kept(e.meta)]
  {
    var r := [e] + es;
    assert r[0] == e && r[1..] == es;
    KeySetHas(es);
    forall k ensures Has(r, k) <==> k == e.key || Has(es, k) {
      HasStep(r, k);
    }
    forall k | Has(r, k) ensures Find(r, k) == if k == e.key then e.meta else Find(es, k) {
    }
    SameHeld(r, Held(es)[e.key := Kept(e.meta)]);
  }

  lemma InsertPuts(s: State, cfg: Config, key: string, meta: Meta)
    requires Wf(s)
    ensures var lost := if !Has(s.entries, key) && |s.order| >= cfg.maxSize then Victim(s, cfg) else {};
            var t := Levels.Lose(LevelOf(s), lost);
            LevelOf(Insert(s, cfg, key, meta)) == Levels.Level(t.entries[key := Kept(meta)], t.index)
  {
    LoseNothing(LevelOf(s));
    if Has(s.entries, key) {
      UpdatedHeld(s.entries, cfg, key, meta);
    } else {
      var room := if |s.order| >= cfg.maxSize then EvictOne(s, cfg.strategy) else s;
      if |s.order| >= cfg.maxSize {
        EvictOneLoses(s, cfg);
        StillAbsent(s, cfg, key);
      }
      FrontHeld(Entry(key, meta), room.entries);
    }
  }

  lemma StillAbsent(s: State, cfg: Config, key: string)
    requires Wf(s) && !Has(s.entries, key)
    ensures !Has(EvictOne(s, cfg.strategy).entries, key)
  {
    if s.entries != [] {
      TargetPresent(s, cfg.strategy);
      DropWf(s, Target(s, cfg.strategy));
    }
  }

  lemma SetPuts(s: State, cfg: Config, key: string, value: string, opts: SetOptions, now: int)
    requires Wf(s)
    ensures var ttl := if opts.ttl.Some? then opts.ttl.value else cfg.defaultTtl;
            LevelOf(Set(s, cfg, key, value, opts, now)) ==
            Levels.Put(Levels.Lose(LevelOf(s), Displaced(s, cfg, key, |value|)), key, value, ttl, opts.tags, now)
  {
    EvictWf(s, cfg, |value|);
    var room, meta := MakeRoom(s, cfg, |value|), NewMeta(cfg, value, opts, now);
    RoomLoses(s, cfg, |value|);
    InsertPuts(room, cfg, key, meta);
    IndexedLevel(Insert(room, cfg, key, meta), cfg, key, opts);
    hide *;
    var first := if Bytes(s.entries) + |value| > cfg.maxMemoryBytes then Victims(s, cfg, |value|) else {};
    var second := if !Has(room.entries, key) && |room.order| >= cfg.maxSize then Victim(room, cfg) else {};
    LoseTwice(LevelOf(s), first, second);
    SetIs(s, cfg, key, value, opts, now);
    PutIs(Levels.Lose(LevelOf(s), first + second), cfg, key, value, opts, now);
  }

  lemma SetIs(s: State, cfg: Config, key: string, value: string, opts: SetOptions, now: int)
    requires Wf(s)
    ensures var room := MakeRoom(s, cfg, |value|);
            && Wf(room)
            && Set(s, cfg, key, value, opts, now) ==
               Indexed(Insert(room, cfg, key, NewMeta(cfg, value, opts, now)), cfg, key, opts)
            && Displaced(s, cfg, key, |value|) ==
               (if Bytes(s.entries) + |value| > cfg.maxMemoryBytes then Victims(s, cfg, |value|) else {}) +
               (if !Has(room.entries, key) && |room.order| >= cfg.maxSize then Victim(room, cfg) else {})
  {
    EvictWf(s, cfg, |value|);
    hide Wf, Insert, MakeRoom, Victims, Victim, Has, Bytes;
  }

  lemma IndexedLevel(s: State, cfg: Config, key: string, opts: SetOptions)
    ensures LevelOf(Indexed(s, cfg, key, opts)) ==
            Levels.Level(LevelOf(s).entries, if opts.tags.Some? then AddTags(s.tagIndex, opts.tags.value, key)
                         else s.tagIndex)
    ensures LevelOf(s).index == s.tagIndex
  {
  }

  lemma PutIs(l: Levels.Level, cfg: Config, key: string, value: string, opts: SetOptions, now: int)
    ensures var ttl := if opts.ttl.Some? then opts.ttl.value else cfg.defaultTtl;
            Levels.Put(l, key, value, ttl, opts.tags, now) ==
            Levels.Level(l.entries[key := Kept(NewMeta(cfg, value, opts, now))],
                         if opts.tags.Some? then AddTags(l.index, opts.tags.value, key) else l.index)
  {
  }

  // ---- the simulation ----

  /** What a step of the cache is for the level. */
  function Moves(s: State, cfg: Config, e: Event): seq<Levels.Move>
    requires Wf(s)
  {
    match e.op
    case DoGet(key) => [Levels.DoTouch(key, e.now)]
    case DoSet(key, value, opts) =>
      [Levels.DoLose(Displaced(s, cfg, key, |value|)),
       Levels.DoPut(key, value, if opts.ttl.Some? then opts.ttl.value else cfg.defaultTtl, opts.tags, e.now)]
    case DoDelete(key) => [Levels.DoLose({key})]
    case DoClear(namespace) =>
      [if namespace.None? || namespace.value == "" then Levels.DoReset
       else Levels.DoLose(KeysIn(s.entries, namespace.value))]
    case DoInvalidate(tag) => [Levels.DoDropTag(tag)]
    case DoCleanup => [Levels.DoSweep(ExpiredKeys(s.entries, e.now))]
  }

  lemma OneMove(l: Levels.Level, sliding: int, m: Levels.Move)
    ensures Levels.After(l, sliding, [m]) == Levels.Moved(l, sliding, m)
  {
    assert [m][..0] == [];
    assert Levels.After(l, sliding, []) == l;
  }

  lemma TwoMoves(l: Levels.Level, sliding: int, m: Levels.Move, n: Levels.Move)
    ensures Levels.After(l, sliding, [m, n]) == Levels.Moved(Levels.Moved(l, sliding, m), sliding, n)
  {
    assert [m, n][..1] == [m];
    OneMove(l, sliding, m);
  }

  lemma HeldHas(es: seq<Entry>, key: string)
    ensures key in Held(es) <==> Has(es, key)
    ensures Has(es, key) ==> Held(es)[key] == Kept(Find(es, key))
  {
    KeySetHas(es);
  }

  lemma GetTouches(s: State, cfg: Config, key: string, now: int)
    requires Wf(s) && Fresh(s, Event(DoGet(key), now))
    ensures LevelOf(Get(s, cfg, key, now)) == Levels.Touch(LevelOf(s), cfg.slidingTtl, key, now)
  {
    HeldHas(s.entries, key);
    hide Held, Update, Has, Find;
    if Has(s.entries, key) {
      var m := Find(s.entries, key);
      UpdatedHeld(s.entries, cfg, key, Touched(m, cfg, now));
      assert cfg.slidingTtl <= 0 ==> Held(s.entries)[key := Kept(m)] == Held(s.entries);
    }
  }

  lemma AbsentDelete(s: State, key: string)
    requires Wf(s) && !Has(s.entries, key)
    ensures Levels.Lose(LevelOf(s), {key}) == LevelOf(s)
  {
    KeySetHas(s.entries);
    NoCarriers(LevelOf(s), {key});
  }

  lemma StepMoves(s: State, cfg: Config, e: Event)
    requires Wf(s) && Fresh(s, e)
    ensures LevelOf(Step(s, cfg, e)) == Levels.After(LevelOf(s), cfg.slidingTtl, Moves(s, cfg, e))
  {
    hide LevelOf, Levels.After, Levels.Moved, Step, Wf, Fresh, Displaced, KeysIn, ExpiredKeys;
    OneMove(LevelOf(s), cfg.slidingTtl, Moves(s, cfg, e)[0]);
    if e.op.DoSet? {
      SetMoves(s, cfg, e);
    } else {
      OtherMoves(s, cfg, e);
    }
  }

  lemma SetMoves(s: State, cfg: Config, e: Event)
    requires Wf(s) && Fresh(s, e) && e.op.DoSet?
    ensures LevelOf(Step(s, cfg, e)) == Levels.After(LevelOf(s), cfg.slidingTtl, Moves(s, cfg, e))
  {
    hide Wf, Set, LevelOf, Displaced, Levels.Lose, Levels.Put, Levels.After;
    TwoMoves(LevelOf(s), cfg.slidingTtl, Moves(s, cfg, e)[0], Moves(s, cfg, e)[1]);
    SetPuts(s, cfg, e.op.key, e.op.value, e.op.opts, e.now);
  }

  lemma OtherMoves(s: State, cfg: Config, e: Event)
    requires Wf(s) && Fresh(s, e) && !e.op.DoSet?
    ensures |Moves(s, cfg, e)| == 1
    ensures LevelOf(Step(s, cfg, e)) == Levels.Moved(LevelOf(s), cfg.slidingTtl, Moves(s, cfg, e)[0])
  {
    hide Wf, Get, Delete, Clear, InvalidateTag, Sweep, LevelOf, KeysIn, ExpiredKeys;
    hide Levels.Lose, Levels.Touch, Levels.DropTag, Levels.Sweep;
    match e.op
    case DoGet(key) => GetTouches(s, cfg, key, e.now);
    case DoDelete(key) => DeleteLoses(s, key);
    case DoClear(namespace) => ClearLoses(s, namespace);
    case DoInvalidate(tag) => InvalidateDrops(s, tag);
    case DoCleanup => ExcludedHeldSweep(s, ExpiredKeys(s.entries, e.now));
  }

  lemma DeleteLoses(s: State, key: string)
    requires Wf(s)
    ensures LevelOf(Delete(s, key)) == Levels.Lose(LevelOf(s), {key})
  {
    if Has(s.entries, key) {
      DropLoses(s, key);
    } else {
      AbsentDelete(s, key);
    }
  }

  lemma ClearLoses(s: State, namespace: Option<string>)
    requires Wf(s)
    ensures LevelOf(Clear(s, namespace)) ==
            if namespace.None? || namespace.value == "" then Levels.NOTHING
            else Levels.Lose(LevelOf(s), KeysIn(s.entries, namespace.value))
  {
    if namespace.None? || namespace.value == "" {
      assert Held([]) == map[];
    } else {
      DropAllLoses(s, KeysIn(s.entries, namespace.value));
    }
  }

  lemma InvalidateDrops(s: State, tag: string)
    requires Wf(s)
    ensures LevelOf(InvalidateTag(s, tag)) == Levels.DropTag(LevelOf(s), tag)
  {
    if tag in s.tagIndex {
      DropAllLoses(s, s.tagIndex[tag]);
    }
  }

  lemma ExcludedHeldSweep(s: State, ks: set<string>)
    requires Wf(s)
    ensures LevelOf(Sweep(s, ks)) == Levels.Sweep(LevelOf(s), ks)
  {
    ExcludedHeld(s.entries, ks);
  }

  function RunMoves(cfg: Config, events: seq<Event>): seq<Levels.Move>
    requires FreshRun(cfg, events)
    decreases |events|
  {
    if events == [] then []
    else
      var front, last := events[..|events| - 1], events[|events| - 1];
      RunMoves(cfg, front) + Moves(Run(cfg, front), cfg, last)
  }

  /** Every run of the memory cache is a run of the level, operation by operation, with a loss before
      a write where the cache evicts; the tag indexes agree too, stale pairs included. */
  lemma {:induction false} Simulation(cfg: Config, events: seq<Event>)
    requires FreshRun(cfg, events)
    ensures LevelOf(Run(cfg, events)) == Levels.After(Levels.NOTHING, cfg.slidingTtl, RunMoves(cfg, events))
    decreases |events|
  {
    if events == [] {
      assert Held([]) == map[];
    } else {
      var front, last := events[..|events| - 1], events[|events| - 1];
      hide LevelOf, Levels.After, Step, Moves;
      Simulation(cfg, front);
      StepMoves(Run(cfg, front), cfg, last);
      Levels.AfterConcat(Levels.NOTHING, cfg.slidingTtl, RunMoves(cfg, front), Moves(Run(cfg, front), cfg, last));
    }
  }

  // ---- nothing is made up ----

  /** The value last written under a key. */
  function LastWritten(events: seq<Event>, key: string): Option<string>
    decreases |events|
  {
    if events == [] then None
    else
      var op := events[|events| - 1].op;
      if op.DoSet? && op.key == key then Some(op.value) else LastWritten(events[..|events| - 1], key)
  }

  lemma MovedValue(l: Levels.Level, sliding: int, m: Levels.Move, key: string)
    requires key in Levels.Moved(l, sliding, m).entries
    ensures var value := Levels.Moved(l, sliding, m).entries[key].value;
            if m.DoPut? && m.key == key then value == m.value else key in l.entries && value == l.entries[key].value
  {
  }

  lemma StepValue(s: State, cfg: Config, e: Event, key: string)
    requires Wf(s) && key in Levels.After(LevelOf(s), cfg.slidingTtl, Moves(s, cfg, e)).entries
    ensures var value := Levels.After(LevelOf(s), cfg.slidingTtl, Moves(s, cfg, e)).entries[key].value;
            if e.op.DoSet? && e.op.key == key then value == e.op.value
            else key in LevelOf(s).entries && value == LevelOf(s).entries[key].value
  {
    var l, sliding, ms := LevelOf(s), cfg.slidingTtl, Moves(s, cfg, e);
    hide LevelOf, Levels.After, Levels.Moved, Displaced;
    OneMove(l, sliding, ms[0]);
    if e.op.DoSet? {
      TwoMoves(l, sliding, ms[0], ms[1]);
      MovedValue(Levels.Moved(l, sliding, ms[0]), sliding, ms[1], key);
      if e.op.key != key {
        MovedValue(l, sliding, ms[0], key);
      }
    } else {
      MovedValue(l, sliding, ms[0], key);
    }
  }

  /** In every run, whatever is evicted or swept in between: a key that is held has the value that
      was last written under it. */
  lemma {:induction false} LastWriteHeld(cfg: Config, events: seq<Event>, key: string)
    requires FreshRun(cfg, events) && Has(Run(cfg, events).entries, key)
    ensures LastWritten(events, key) == Some(Find(Run(cfg, events).entries, key).value)
    decreases |events|
  {
    if events != [] {
      var front, last := events[..|events| - 1], events[|events| - 1];
      var s := Run(cfg, front);
      KeySetHas(Run(cfg, events).entries);
      KeySetHas(s.entries);
      StepMoves(s, cfg, last);
      assert key in LevelOf(Run(cfg, events)).entries;
      StepValue(s, cfg, last, key);
      if !(last.op.DoSet? && last.op.key == key) {
        LastWriteHeld(cfg, front, key);
      }
    }
  }
}
