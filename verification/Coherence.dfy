/** Reading query results through two cache levels and invalidating them after writes: when does
    every read return what the database would return now? */
module Coherence {
  import opened Wrappers
  import opened CacheKeys
  import opened Levels
  import CacheSpec

  /** A query plan as far as the cache looks at it; `rest` stands for everything else. */
  datatype Plan = Plan(op: string, table: Option<string>, rest: string)

  datatype CacheChoice = Unset | Flag(on: bool) | Seconds(n: int) | Custom(opts: CacheSpec.SetOptions)

  datatype QueryOptions = QueryOptions(bypass: bool, cache: CacheChoice)

  datatype Analysis = Analysis(cacheable: bool, tables: seq<string>, key: Option<string>)

  /** The memory cache, and the entries of the second level if there is one. */
  datatype Caches = Caches(l1: Level, l2: Option<map<string, Entry>>)

  /** TTLs in seconds: the manager's, the memory cache's own, and its sliding one. */
  datatype Config = Config(defaultTtl: int, memoryTtl: int, slidingTtl: int)

  // ---- plans ----

  predicate Mutating(p: Plan) {
    p.op == "insert" || p.op == "update" || p.op == "delete" || p.op == "upsert"
  }

  function OrElse(name: Option<string>, other: string): string {
    if name.Some? then name.value else other
  }

  function Tables(p: Plan): seq<string> {
    if p.table.Some? && p.table.value != "" then [p.table.value] else []
  }

  /** The key of a plan that is read through the cache. */
  function ReadKey(p: Plan): string {
    CacheKey(OrElse(p.table, "unknown"))
  }

  /** The key that is deleted after a write. */
  function WriteKey(p: Plan): string {
    CacheKey(OrElse(p.table, "write"))
  }

  function Analyze(p: Plan): (a: Analysis)
    ensures a.key.Some? <==> p.op == "select"
  {
    if Mutating(p) || p.op != "select" then Analysis(false, Tables(p), None)
    else Analysis(true, Tables(p), Some(ReadKey(p)))
  }

  // ---- the two levels ----

  /** What a refill from the second level keeps of an entry is the value; its tags are dropped. */
  function Get(s: Caches, cfg: Config, key: string, now: int): (Caches, Option<string>) {
    if Live(s.l1.entries, key, now)
        then (s.(l1 := Touch(s.l1, cfg.slidingTtl, key, now)), Some(s.l1.entries[key].value))
    else if s.l2.Some? && Live(s.l2.value, key, now) then
      var value := s.l2.value[key].value;
      (s.(l1 := Put(s.l1, key, value, cfg.memoryTtl, None, now)), Some(value))
    else (s, None)
  }

  function Set(s: Caches, cfg: Config, key: string, value: string, opts: CacheSpec.SetOptions, now: int): Caches {
    var ttl := if opts.ttl.Some? then opts.ttl.value else cfg.defaultTtl;
    var e := Entry(value, ExpiresAt(ttl, now), if opts.tags.Some? then opts.tags.value else []);
    Caches(Put(s.l1, key, value, ttl, opts.tags, now), if s.l2.Some? then Some(s.l2.value[key := e]) else None)
  }

  function Delete(s: Caches, key: string): Caches {
    Caches(Lose(s.l1, {key}), if s.l2.Some? then Some(s.l2.value - {key}) else None)
  }

  /** Reaches the first level only. */
  function InvalidateTag(s: Caches, tag: string): Caches {
    s.(l1 := DropTag(s.l1, tag))
  }

  /** Entries may be evicted from either level, and swept from the first, at any time. */
  function Evict(s: Caches, gone1: set<string>, swept1: set<string>, gone2: set<string>): Caches {
    Caches(Sweep(Lose(s.l1, gone1), swept1), if s.l2.Some? then Some(s.l2.value - gone2) else None)
  }

  // ---- the bridge ----

  predicate WantsCache(opts: QueryOptions, a: Analysis) {
    match opts.cache
    case Unset => a.cacheable
    case Flag(on) => on
    case Seconds(n) => n != 0
    case Custom(_) => true
  }

  function StoreOptions(opts: QueryOptions, a: Analysis): CacheSpec.SetOptions {
    match opts.cache
    case Seconds(n) => CacheSpec.SetOptions(Some(n), None, None)
    case Custom(o) => o
    case _ => CacheSpec.SetOptions(None, Some(a.tables), None)
  }

  /** `fetched` is what executing the plan returns at this moment. */
  function Resolve(s: Caches, cfg: Config, p: Plan, opts: QueryOptions, fetched: string, now: int): (Caches, string) {
    var a := Analyze(p);
    if opts.bypass || !WantsCache(opts, a) || a.key.None? then (s, fetched)
    else
      var (t, cached) := Get(s, cfg, a.key.value, now);
      if cached.Some? then (t, cached.value)
      else (Set(t, cfg, a.key.value, fetched, StoreOptions(opts, a), now), fetched)
  }

  function AfterWrite(s: Caches, p: Plan): Caches {
    var tables := Tables(p);
    Delete(if tables == [] then s else InvalidateTag(s, tables[0]), WriteKey(p))
  }

  // ---- runs ----

  /** The database: what a plan returns, and what a write makes of it. */
  datatype World<!D> = World(result: (D, Plan) -> string, effect: (D, Plan) -> D)

  datatype System<D> = System(db: D, caches: Caches)

  datatype Event =
    | Read(plan: Plan, opts: QueryOptions, now: int)
    | Write(plan: Plan)
    | Lost(gone1: set<string>, swept1: set<string>, gone2: set<string>)

  /** The plans that a program reads and writes with; writes are followed by an invalidation. */
  datatype Program = Program(reading: iset<Plan>, writing: iset<Plan>)

  ghost predicate Reads(g: Program, p: Plan) {
    p in g.reading && p.op == "select"
  }

  ghost predicate Writes(g: Program, x: Plan) {
    x in g.writing && Mutating(x)
  }

  ghost predicate Proper(g: Program, e: Event) {
    match e
    case Read(p, _, _) => p in g.reading
    case Write(x) => Writes(g, x)
    case Lost(_, _, _) => true
  }

  ghost predicate ProperRun(g: Program, events: seq<Event>) {
    forall i | 0 <= i < |events| :: Proper(g, events[i])
  }

  function Answer<D>(w: World<D>, cfg: Config, sys: System<D>, e: Event): string
    requires e.Read?
  {
    Resolve(sys.caches, cfg, e.plan, e.opts, w.result(sys.db, e.plan), e.now).1
  }

  function Next<D>(w: World<D>, cfg: Config, sys: System<D>, e: Event): System<D> {
    match e
    case Read(p, opts, now) => sys.(caches := Resolve(sys.caches, cfg, p, opts, w.result(sys.db, p), now).0)
    case Write(p) => System(w.effect(sys.db, p), AfterWrite(sys.caches, p))
    case Lost(gone1, swept1, gone2) => sys.(caches := Evict(sys.caches, gone1, swept1, gone2))
  }

  /** Every read of the run returns what executing its plan would return at that point. */
  predicate CoherentRun<D>(w: World<D>, cfg: Config, sys: System<D>, events: seq<Event>)
    decreases |events|
  {
    events != [] ==>
      && (events[0].Read? ==> Answer(w, cfg, sys, events[0]) == w.result(sys.db, events[0].plan))
      && CoherentRun(w, cfg, Next(w, cfg, sys, events[0]), events[1..])
  }

  function Empty(second: bool): Caches {
    Caches(NOTHING, if second then Some(map[]) else None)
  }

  /** Every run of the program is coherent, whatever the database holds at its start. */
  ghost predicate AlwaysCoherent<D(!new)>(w: World<D>, cfg: Config, second: bool, g: Program) {
    forall db: D, events: seq<Event> | ProperRun(g, events) ::
      CoherentRun(w, cfg, System(db, Empty(second)), events)
  }

  // ---- the condition ----

  /** Plans that the program reads under one key return the same, whatever the database holds. */
  ghost predicate KeysAgree<D(!new)>(w: World<D>, g: Program) {
    forall db: D, p: Plan, q: Plan | Reads(g, p) && Reads(g, q) && ReadKey(p) == ReadKey(q) ::
      w.result(db, p) == w.result(db, q)
  }

  /** A write of the program changes the results of its reads only under the key deleted after it. */
  ghost predicate WritesStay<D(!new)>(w: World<D>, g: Program) {
    forall db: D, x: Plan, p: Plan | Writes(g, x) && Reads(g, p) && ReadKey(p) != WriteKey(x) ::
      w.result(w.effect(db, x), p) == w.result(db, p)
  }

  ghost predicate LevelCurrent<D(!new)>(w: World<D>, g: Program, db: D, level: map<string, Entry>) {
    forall p: Plan | Reads(g, p) && ReadKey(p) in level :: level[ReadKey(p)].value == w.result(db, p)
  }

  ghost predicate Current<D(!new)>(w: World<D>, g: Program, sys: System<D>) {
    && LevelCurrent(w, g, sys.db, sys.caches.l1.entries)
    && (sys.caches.l2.Some? ==> LevelCurrent(w, g, sys.db, sys.caches.l2.value))
  }

  /** Every step of the program keeps what both levels hold for its reads current, and a read returns
      what executing it would return now. */
  lemma StepCurrent<D(!new)>(w: World<D>, cfg: Config, g: Program, sys: System<D>, e: Event)
    requires KeysAgree(w, g) && WritesStay(w, g) && Current(w, g, sys) && Proper(g, e)
    ensures Current(w, g, Next(w, cfg, sys, e))
    ensures e.Read? ==> Answer(w, cfg, sys, e) == w.result(sys.db, e.plan)
  {
    hide ReadKey, WriteKey, LevelCurrent, KeysAgree, WritesStay;
    match e
    case Read(p, opts, now) => ReadCurrent(w, cfg, g, sys, p, opts, now);
    case Write(p) => WriteCurrent(w, cfg, g, sys, p);
    case Lost(gone1, swept1, gone2) =>
      FewerCurrent(w, g, sys.db, sys.caches.l1.entries, sys.caches.l1.entries - gone1 - swept1);
      if sys.caches.l2.Some? {
        FewerCurrent(w, g, sys.db, sys.caches.l2.value, sys.caches.l2.value - gone2);
      }
  }

  lemma FewerCurrent<D(!new)>(w: World<D>, g: Program, db: D, level: map<string, Entry>, fewer: map<string, Entry>)
    requires LevelCurrent(w, g, db, level)
    requires forall k | k in fewer :: k in level && fewer[k].value == level[k].value
    ensures LevelCurrent(w, g, db, fewer)
  {
    hide ReadKey;
  }

  lemma StoredCurrent<D(!new)>(w: World<D>, g: Program, db: D, level: map<string, Entry>, p: Plan, e: Entry)
    requires KeysAgree(w, g) && LevelCurrent(w, g, db, level) && Reads(g, p) && e.value == w.result(db, p)
    ensures LevelCurrent(w, g, db, level[ReadKey(p) := e])
  {
    hide ReadKey;
  }

  lemma GetCurrent<D(!new)>(w: World<D>, cfg: Config, g: Program, sys: System<D>, p: Plan, now: int)
    requires KeysAgree(w, g) && Current(w, g, sys) && Reads(g, p)
    ensures var (t, cached) := Get(sys.caches, cfg, ReadKey(p), now);
            Current(w, g, sys.(caches := t)) && (cached.Some? ==> cached.value == w.result(sys.db, p))
  {
    hide ReadKey, KeysAgree;
    var s, key := sys.caches, ReadKey(p);
    var (t, cached) := Get(s, cfg, key, now);
    if Live(s.l1.entries, key, now) {
      ValueCurrent(w, g, sys.db, s.l1.entries, p);
      StoredCurrent(w, g, sys.db, s.l1.entries, p, t.l1.entries[key]);
      assert t.l1.entries == s.l1.entries[key := t.l1.entries[key]];
    } else if s.l2.Some? && Live(s.l2.value, key, now) {
      ValueCurrent(w, g, sys.db, s.l2.value, p);
      StoredCurrent(w, g, sys.db, s.l1.entries, p, t.l1.entries[key]);
    }
  }

  lemma ValueCurrent<D(!new)>(w: World<D>, g: Program, db: D, level: map<string, Entry>, p: Plan)
    requires LevelCurrent(w, g, db, level) && Reads(g, p) && ReadKey(p) in level
    ensures level[ReadKey(p)].value == w.result(db, p)
  {
  }

  lemma ReadCurrent<D(!new)>(w: World<D>, cfg: Config, g: Program, sys: System<D>, p: Plan, opts: QueryOptions,
                             now: int)
    requires KeysAgree(w, g) && Current(w, g, sys) && p in g.reading
    ensures var (t, rows) := Resolve(sys.caches, cfg, p, opts, w.result(sys.db, p), now);
            Current(w, g, sys.(caches := t)) && rows == w.result(sys.db, p)
  {
    var a, fetched := Analyze(p), w.result(sys.db, p);
    if a.key.Some? {
      GetCurrent(w, cfg, g, sys, p, now);
      hide KeysAgree, ReadKey, LevelCurrent, Get;
      var (t, cached) := Get(sys.caches, cfg, ReadKey(p), now);
      var u := Set(t, cfg, ReadKey(p), fetched, StoreOptions(opts, a), now);
      StoredCurrent(w, g, sys.db, t.l1.entries, p, u.l1.entries[ReadKey(p)]);
      if t.l2.Some? {
        StoredCurrent(w, g, sys.db, t.l2.value, p, u.l2.value[ReadKey(p)]);
      }
    }
  }

  lemma KeptCurrent<D(!new)>(w: World<D>, g: Program, db: D, x: Plan, level: map<string, Entry>,
                             fewer: map<string, Entry>)
    requires WritesStay(w, g) && Writes(g, x) && LevelCurrent(w, g, db, level)
    requires WriteKey(x) !in fewer && forall k | k in fewer :: k in level && fewer[k] == level[k]
    ensures LevelCurrent(w, g, w.effect(db, x), fewer)
  {
    hide ReadKey, WriteKey;
  }

  lemma WriteCurrent<D(!new)>(w: World<D>, cfg: Config, g: Program, sys: System<D>, x: Plan)
    requires WritesStay(w, g) && Current(w, g, sys) && Writes(g, x)
    ensures Current(w, g, Next(w, cfg, sys, Write(x)))
  {
    hide ReadKey, WriteKey, LevelCurrent, WritesStay;
    var t := AfterWrite(sys.caches, x);
    KeptCurrent(w, g, sys.db, x, sys.caches.l1.entries, t.l1.entries);
    if sys.caches.l2.Some? {
      KeptCurrent(w, g, sys.db, x, sys.caches.l2.value, t.l2.value);
    }
  }

  lemma {:induction false} RunCurrent<D(!new)>(w: World<D>, cfg: Config, g: Program, sys: System<D>, events: seq<Event>)
    requires KeysAgree(w, g) && WritesStay(w, g) && Current(w, g, sys)
    requires ProperRun(g, events)
    ensures CoherentRun(w, cfg, sys, events)
    decreases |events|
  {
    if events != [] {
      hide Next, Answer, Current, KeysAgree, WritesStay;
      StepCurrent(w, cfg, g, sys, events[0]);
      RunCurrent(w, cfg, g, Next(w, cfg, sys, events[0]), events[1..]);
    }
  }

  const DEFAULTS := QueryOptions(false, Unset)

  /** A cached result that a run may read back. */
  lemma Stored(cfg: Config, second: bool, p: Plan, rows: string)
    requires p.op == "select"
    ensures var (t, r) := Resolve(Empty(second), cfg, p, DEFAULTS, rows, 0);
            && r == rows && t.l1.entries.Keys == {ReadKey(p)} && Live(t.l1.entries, ReadKey(p), 0)
            && t.l1.entries[ReadKey(p)].value == rows && t.l1.entries[ReadKey(p)].tags == Tables(p)
            && t.l1.index == CacheSpec.AddTags(map[], Tables(p), ReadKey(p))
  {
    hide ReadKey;
  }

  /** Two reads under one key with different results: the second one gets the first one's rows. */
  lemma KeysMustAgree<D(!new)>(w: World<D>, cfg: Config, second: bool, g: Program, db: D, p: Plan, q: Plan)
    requires AlwaysCoherent(w, cfg, second, g) && Reads(g, p) && Reads(g, q) && ReadKey(p) == ReadKey(q)
    ensures w.result(db, p) == w.result(db, q)
  {
    var sys, first, last := System(db, Empty(second)), Read(p, DEFAULTS, 0), Read(q, DEFAULTS, 0);
    CoherentHere(w, cfg, second, g, db, [first, last]);
    Stored(cfg, second, p, w.result(db, p));
    hide AlwaysCoherent, Next, Answer;
    CoherentTail(w, cfg, sys, [first, last]);
    CoherentTail(w, cfg, Next(w, cfg, sys, first), [last]);
    ReadBack(w, cfg, second, db, p, q);
  }

  lemma ReadBack<D(!new)>(w: World<D>, cfg: Config, second: bool, db: D, p: Plan, q: Plan)
    requires p.op == "select" && q.op == "select" && ReadKey(p) == ReadKey(q)
    ensures var once := Next(w, cfg, System(db, Empty(second)), Read(p, DEFAULTS, 0));
            once.db == db && Answer(w, cfg, once, Read(q, DEFAULTS, 0)) == w.result(db, p)
  {
    Stored(cfg, second, p, w.result(db, p));
    hide ReadKey, Set;
  }

  lemma CoherentHere<D(!new)>(w: World<D>, cfg: Config, second: bool, g: Program, db: D, events: seq<Event>)
    requires AlwaysCoherent(w, cfg, second, g) && ProperRun(g, events)
    ensures CoherentRun(w, cfg, System(db, Empty(second)), events)
  {
    hide CoherentRun, Proper;
  }

  lemma CoherentTail<D>(w: World<D>, cfg: Config, sys: System<D>, events: seq<Event>)
    requires CoherentRun(w, cfg, sys, events) && events != []
    ensures events[0].Read? ==> Answer(w, cfg, sys, events[0]) == w.result(sys.db, events[0].plan)
    ensures CoherentRun(w, cfg, Next(w, cfg, sys, events[0]), events[1..])
  {
    hide Answer, Next;
  }

  /** A write that leaves the key of a changed result alone: the next read gets the old rows. */
  lemma WritesMustStay<D(!new)>(w: World<D>, cfg: Config, second: bool, g: Program, db: D, x: Plan, p: Plan)
    requires AlwaysCoherent(w, cfg, second, g) && Writes(g, x) && Reads(g, p) && ReadKey(p) != WriteKey(x)
    ensures w.result(w.effect(db, x), p) == w.result(db, p)
  {
    var sys, read, write := System(db, Empty(second)), Read(p, DEFAULTS, 0), Write(x);
    CoherentHere(w, cfg, second, g, db, [read, write, read]);
    var once := Next(w, cfg, sys, read);
    hide AlwaysCoherent, Next, Answer;
    CoherentTail(w, cfg, sys, [read, write, read]);
    CoherentTail(w, cfg, once, [write, read]);
    CoherentTail(w, cfg, Next(w, cfg, once, write), [read]);
    ReadBackAfter(w, cfg, second, db, x, p);
  }

  lemma ReadBackAfter<D(!new)>(w: World<D>, cfg: Config, second: bool, db: D, x: Plan, p: Plan)
    requires p.op == "select" && ReadKey(p) != WriteKey(x)
    ensures var twice := Next(w, cfg, Next(w, cfg, System(db, Empty(second)), Read(p, DEFAULTS, 0)), Write(x));
            twice.db == w.effect(db, x) && Answer(w, cfg, twice, Read(p, DEFAULTS, 0)) == w.result(db, p)
  {
    Stored(cfg, second, p, w.result(db, p));
    var (t, _) := Resolve(Empty(second), cfg, p, DEFAULTS, w.result(db, p), 0);
    SurvivesWrite(t, x, p);
    hide ReadKey, WriteKey, Set, Get, AfterWrite;
    LiveIsRead(AfterWrite(t, x), cfg, ReadKey(p));
  }

  /** The write's table is not a tag of a read with another key. */
  lemma SurvivesWrite(t: Caches, x: Plan, p: Plan)
    requires ReadKey(p) != WriteKey(x) && Live(t.l1.entries, ReadKey(p), 0)
    requires t.l1.index == CacheSpec.AddTags(map[], Tables(p), ReadKey(p))
    ensures var u := AfterWrite(t, x);
            Live(u.l1.entries, ReadKey(p), 0) && u.l1.entries[ReadKey(p)] == t.l1.entries[ReadKey(p)]
  {
    OtherTable(x, p);
    OneTag(Tables(p), ReadKey(p));
    hide ReadKey, WriteKey, CacheSpec.AddTags;
    if Tables(x) != [] {
      assert Tables(x)[0] !in t.l1.index;
      assert InvalidateTag(t, Tables(x)[0]) == t;
    }
  }

  lemma OneTag(tags: seq<string>, key: string)
    requires |tags| <= 1
    ensures CacheSpec.AddTags(map[], tags, key).Keys == set t | t in tags
  {
    if tags != [] {
      assert tags[..|tags| - 1] == [];
    }
  }

  lemma LiveIsRead(s: Caches, cfg: Config, key: string)
    requires Live(s.l1.entries, key, 0)
    ensures Get(s, cfg, key, 0).1 == Some(s.l1.entries[key].value)
  {
  }

  lemma OtherTable(x: Plan, p: Plan)
    requires ReadKey(p) != WriteKey(x)
    ensures Tables(x) != [] ==> Tables(x)[0] !in Tables(p)
  {
  }

  /** With or without a second level, under every configuration, with losses at any time and any
      clock: all runs of a program are coherent exactly when its reads that share a key agree and
      each of its writes changes only results of its reads under the key that it deletes. */
  lemma CoherentExactly<D(!new)>(w: World<D>, cfg: Config, second: bool, g: Program)
    ensures AlwaysCoherent(w, cfg, second, g) <==> KeysAgree(w, g) && WritesStay(w, g)
  {
    if AlwaysCoherent(w, cfg, second, g) {
      forall db: D, p: Plan, q: Plan | Reads(g, p) && Reads(g, q) && ReadKey(p) == ReadKey(q)
        ensures w.result(db, p) == w.result(db, q)
      {
        KeysMustAgree(w, cfg, second, g, db, p, q);
      }
      forall db: D, x: Plan, p: Plan | Writes(g, x) && Reads(g, p) && ReadKey(p) != WriteKey(x)
        ensures w.result(w.effect(db, x), p) == w.result(db, p)
      {
        WritesMustStay(w, cfg, second, g, db, x, p);
      }
    }
    if KeysAgree(w, g) && WritesStay(w, g) {
      forall db: D, events: seq<Event> | ProperRun(g, events)
        ensures CoherentRun(w, cfg, System(db, Empty(second)), events)
      {
        StartCurrent(w, g, db, second);
        RunCurrent(w, cfg, g, System(db, Empty(second)), events);
      }
    }
  }

  lemma StartCurrent<D(!new)>(w: World<D>, g: Program, db: D, second: bool)
    ensures Current(w, g, System(db, Empty(second)))
  {
  }

  // ---- programs that keep their reads apart ----

  /** No two plans that the program reads share a key. */
  ghost predicate KeysApart(g: Program) {
    forall p: Plan, q: Plan | Reads(g, p) && Reads(g, q) && ReadKey(p) == ReadKey(q) :: p == q
  }

  /** With one plan a key, only the writes are left to ask about. */
  lemma ApartExactly<D(!new)>(w: World<D>, cfg: Config, second: bool, g: Program)
    requires KeysApart(g)
    ensures AlwaysCoherent(w, cfg, second, g) <==> WritesStay(w, g)
  {
    CoherentExactly(w, cfg, second, g);
    hide ReadKey, WriteKey, AlwaysCoherent;
  }

  /** One read plan a table, every table named, and no two names with one key. */
  ghost predicate OnePlanPerTable(g: Program) {
    && (forall p: Plan | Reads(g, p) :: p.table.Some?)
    && (forall p: Plan, q: Plan | Reads(g, p) && Reads(g, q) && p.table == q.table :: p == q)
    && (forall p: Plan, q: Plan | Reads(g, p) && Reads(g, q) && p.table != q.table ::
          CacheKey(p.table.value) != CacheKey(q.table.value))
  }

  /** Every write names its table, and leaves the results of reads of other tables alone. */
  ghost predicate WritesLocal<D(!new)>(w: World<D>, g: Program) {
    && (forall x: Plan | Writes(g, x) :: x.table.Some?)
    && (forall db: D, x: Plan, p: Plan | Writes(g, x) && Reads(g, p) && p.table != x.table ::
          w.result(w.effect(db, x), p) == w.result(db, p))
  }

  /** In every run of such a program, every read returns what executing it would return now. */
  lemma OnePlanCoherent<D(!new)>(w: World<D>, cfg: Config, second: bool, g: Program)
    requires OnePlanPerTable(g) && WritesLocal(w, g)
    ensures AlwaysCoherent(w, cfg, second, g)
  {
    forall p: Plan, q: Plan | Reads(g, p) && Reads(g, q) && ReadKey(p) == ReadKey(q) ensures p == q {
      hide CacheKey;
      assert ReadKey(p) == CacheKey(p.table.value) && ReadKey(q) == CacheKey(q.table.value);
    }
    forall db: D, x: Plan, p: Plan | Writes(g, x) && Reads(g, p) && ReadKey(p) != WriteKey(x)
      ensures w.result(w.effect(db, x), p) == w.result(db, p)
    {
      hide CacheKey;
      assert p.table != x.table;
    }
    hide AlwaysCoherent;
    ApartExactly(w, cfg, second, g);
  }

  /** The key looks at the table only, so coherence asks all reads of one table to agree, whatever
      their filters; and also the reads of two tables whose names collide. */
  lemma CoherenceAsks<D(!new)>(w: World<D>, cfg: Config, second: bool, g: Program, db: D, p: Plan, q: Plan)
    requires AlwaysCoherent(w, cfg, second, g) && Reads(g, p) && Reads(g, q)
    ensures p.table == q.table ==> w.result(db, p) == w.result(db, q)
    ensures p.table == Some("ab") && q.table == Some("bA") ==> w.result(db, p) == w.result(db, q)
  {
    CoherentExactly(w, cfg, second, g);
    if p.table == Some("ab") && q.table == Some("bA") {
      KeysCollide("", 'a', 'b', "");
      assert "" + ['a', 'b'] + "" == "ab" && "" + [('a' as int + 1) as char, ('b' as int - 33) as char] + "" == "bA";
    }
  }
}

/** The manager and the bridge as objects. */
module CacheBridges {
  import opened Wrappers
  import opened CacheKeys
  import opened Levels
  import opened Coherence
  import CacheSpec

  class CacheManager {
    const cfg: Config
    var l1: Level
    var l2: Option<map<string, Entry>>

    ghost function Abs(): Caches
      reads this
    {
      Caches(l1, l2)
    }

    constructor (cfg: Config, second: bool)
      ensures this.cfg == cfg && Abs() == Empty(second)
    {
      this.cfg := cfg;
      l1 := NOTHING;
      l2 := if second then Some(map[]) else None;
    }

    method Get(key: string, now: int) returns (value: Option<string>)
      modifies this
      ensures (Abs(), value) == Coherence.Get(old(Abs()), cfg, key, now)
    {
      if Live(l1.entries, key, now) {
        value := Some(l1.entries[key].value);
        l1 := Touch(l1, cfg.slidingTtl, key, now);
        return;
      }
      if l2.Some? && Live(l2.value, key, now) {
        value := Some(l2.value[key].value);
        l1 := Put(l1, key, value.value, cfg.memoryTtl, None, now);
        return;
      }
      return None;
    }

    method Set(key: string, value: string, opts: CacheSpec.SetOptions, now: int)
      modifies this
      ensures Abs() == Coherence.Set(old(Abs()), cfg, key, value, opts, now)
    {
      var ttl := if opts.ttl.Some? then opts.ttl.value else cfg.defaultTtl;
      l1 := Put(l1, key, value, ttl, opts.tags, now);
      if l2.Some? {
        var tags := if opts.tags.Some? then opts.tags.value else [];
        l2 := Some(l2.value[key := Entry(value, ExpiresAt(ttl, now), tags)]);
      }
    }

    method Delete(key: string) returns (deleted: bool)
      modifies this
      ensures Abs() == Coherence.Delete(old(Abs()), key)
      ensures deleted <==> key in old(l1).entries || (old(l2).Some? && key in old(l2).value)
    {
      deleted := key in l1.entries;
      l1 := Lose(l1, {key});
      if l2.Some? {
        deleted := deleted || key in l2.value;
        l2 := Some(l2.value - {key});
      }
    }

    /** Answers how many entries of the first level were deleted. */
    method InvalidateTag(tag: string) returns (count: nat)
      modifies this
      ensures Abs() == Coherence.InvalidateTag(old(Abs()), tag)
      ensures count == |old(l1).entries| - |l1.entries|
    {
      var before := |l1.entries|;
      FewerEntries(l1, tag);
      l1 := DropTag(l1, tag);
      count := before - |l1.entries|;
    }

    lemma FewerEntries(s: Level, tag: string)
      ensures |DropTag(s, tag).entries| <= |s.entries|
    {
      SmallerSet(DropTag(s, tag).entries.Keys, s.entries.Keys);
    }
  }

  lemma {:induction false} SmallerSet(a: set<string>, b: set<string>)
    requires a <= b
    ensures |a| <= |b|
  {
    if a != {} {
      var x :| x in a;
      SmallerSet(a - {x}, b - {x});
    }
  }

  class CacheBridge {
    const manager: CacheManager

    constructor (manager: CacheManager)
      ensures this.manager == manager
    {
      this.manager := manager;
    }

    /** `fetched` stands for the answer of `execute`, asked for at most once. */
    method ResolvePlan(p: Plan, opts: QueryOptions, fetched: string, now: int) returns (rows: string, fromCache: bool)
      modifies manager
      ensures (manager.Abs(), rows) == Resolve(old(manager.Abs()), manager.cfg, p, opts, fetched, now)
      ensures !fromCache ==> rows == fetched
    {
      if opts.bypass {
        return fetched, false;
      }
      var a := Analyze(p);
      if !WantsCache(opts, a) || a.key.None? {
        return fetched, false;
      }
      var cached := manager.Get(a.key.value, now);
      if cached.Some? {
        return cached.value, true;
      }
      manager.Set(a.key.value, fetched, StoreOptions(opts, a), now);
      return fetched, false;
    }

    method InvalidateAfterWrite(p: Plan)
      modifies manager
      ensures manager.Abs() == AfterWrite(old(manager.Abs()), p)
    {
      var tables := Analyze(p).tables;
      for i := 0 to |tables|
        invariant manager.Abs() == if i == 0 then old(manager.Abs()) else InvalidateTag(old(manager.Abs()), tables[0])
      {
        var _ := manager.InvalidateTag(tables[i]);
      }
      var h := Hash(OrElse(p.table, "write") + "|");
      var _ := manager.Delete("q:" + Base36(h));
    }
  }
}
