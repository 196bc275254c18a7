/** What the memory cache keeps of an entry, and for how long: over every run, from what was written
    under its key and when it was read since. Times are milliseconds, TTLs seconds. */
module Lifetimes {
  import opened Wrappers
  import opened CacheSpec

  /** The last write under a key, and the reads of the key since. */
  datatype History = History(value: string, opts: SetOptions, at: int, readAt: seq<int>)

  function HistoryOf(events: seq<Event>, key: string): Option<History>
    decreases |events|
  {
    if events == [] then None
    else
      var last, before := events[|events| - 1], HistoryOf(events[..|events| - 1], key);
      match last.op
      case DoSet(k, value, opts) => if k == key then Some(History(value, opts, last.now, [])) else before
      case DoGet(k) =>
        if k == key && before.Some? then Some(before.value.(readAt := before.value.readAt + [last.now])) else before
      case _ => before
  }

  function NamespaceOf(h: History): string {
    match h.opts.namespace
    case Some(name) => name
    case None => "default"
  }

  /** The caller's TTL when there is one, else the cache's; a sliding TTL runs from the last read.
      Nothing means that the entry stays for good. */
  function Deadline(cfg: Config, h: History): Option<int> {
    var ttl := match h.opts.ttl case Some(t) => t case None => cfg.defaultTtl;
    if h.readAt != [] && cfg.slidingTtl > 0 then Some(h.readAt[|h.readAt| - 1] + 1000 * cfg.slidingTtl)
    else if ttl > 0 then Some(h.at + 1000 * ttl)
    else None
  }

  /** An entry lasts up to its deadline, that millisecond included. A deadline at or before the zero of
      the clock counts as none. */
  predicate InTime(cfg: Config, h: History, now: int) {
    match Deadline(cfg, h)
    case Some(end) => end <= 0 || now <= end
    case None => true
  }

  ghost predicate AsWritten(cfg: Config, m: Meta, h: History) {
    && m.value == h.value && m.createdAt == h.at
    && m.tags == (match h.opts.tags case Some(tags) => tags case None => [])
    && m.namespace == NamespaceOf(h)
    && m.hits == |h.readAt| && m.accessCount == |h.readAt| + 1
    && m.lastAccessed == (if h.readAt == [] then h.at else h.readAt[|h.readAt| - 1])
    && m.expiresAt == match Deadline(cfg, h) case Some(end) => end case None => 0
  }

  // ---- where entries come from ----

  /** Entries of distinct keys are found under them. */
  lemma FoundIn(es: seq<Entry>, e: Entry)
    requires NoDup(Keys(es))
    ensures e in es <==> Has(es, e.key) && Find(es, e.key) == e.meta
  {
    if e in es {
      var i :| 0 <= i < |es| && es[i] == e;
      HasIndex(es, e.key, i);
    }
    if Has(es, e.key) && Find(es, e.key) == e.meta {
      assert es[IndexOf(es, e.key)] == e;
    }
  }

  lemma ExcludedEntry(es: seq<Entry>, ks: set<string>, e: Entry)
    requires NoDup(Keys(es))
    ensures e in Exclude(es, ks) <==> e in es && e.key !in ks
  {
    ExcludeHas(es, ks);
    FoundIn(es, e);
    FoundIn(Exclude(es, ks), e);
    if Has(Exclude(es, ks), e.key) {
      FindExcluded(es, ks, e.key);
    }
  }

  lemma WithoutEntry(es: seq<Entry>, key: string, e: Entry)
    requires NoDup(Keys(es))
    ensures e in Without(es, key) <==> e in es && e.key != key
  {
    ExcludeNone(es);
    ExcludeOneMore(es, {}, key);
    assert {} + {key} == {key};
    ExcludedEntry(es, {key}, e);
  }

  lemma UpdatedEntry(es: seq<Entry>, cfg: Config, key: string, meta: Meta, e: Entry)
    requires NoDup(Keys(es)) && Has(es, key)
    ensures e in Update(es, cfg, key, meta) <==> if e.key == key then e.meta == meta else e in es
  {
    var i := IndexOf(es, key);
    var u := es[i := Entry(key, meta)];
    UpdatedKeys(es, i, Entry(key, meta));
    FrontKeys(u, i);
    var f := MoveToFront(u, i);
    assert e in u <==> if e.key == key then e.meta == meta else e in es by {
      FoundIn(u, e);
      HasIndex(u, key, i);
      assert e in es ==> exists j | 0 <= j < |es| :: es[j] == e;
      forall j | 0 <= j < |es| && es[j].key != key ensures u[j] == es[j] {
      }
    }
    assert e in f <==> e in u by {
      if e in u {
        var j :| 0 <= j < |u| && u[j] == e;
        assert f[if j == i then 0 else if j < i then j + 1 else j] == e;
      }
    }
  }

  lemma EvictOneEntry(s: State, strategy: Strategy, e: Entry)
    requires Wf(s) && e in EvictOne(s, strategy).entries
    ensures e in s.entries
  {
    if s.entries != [] {
      TargetPresent(s, strategy);
      WithoutEntry(s.entries, Target(s, strategy), e);
    }
  }

  lemma {:induction false} EvictEntry(s: State, cfg: Config, needed: nat, e: Entry)
    requires Wf(s) && e in Evict(s, cfg, needed).entries
    ensures e in s.entries
    decreases |s.entries|
  {
    if Bytes(s.entries) + needed > cfg.maxMemoryBytes && s.entries != [] {
      EvictOneWf(s, cfg.strategy);
      EvictEntry(EvictOne(s, cfg.strategy), cfg, needed, e);
      EvictOneEntry(s, cfg.strategy, e);
    }
  }

  lemma InsertEntry(s: State, cfg: Config, key: string, meta: Meta, e: Entry)
    requires Wf(s) && e in Insert(s, cfg, key, meta).entries
    ensures if e.key == key then e.meta == meta else e in s.entries
  {
    if Has(s.entries, key) {
      UpdatedEntry(s.entries, cfg, key, meta, e);
    } else {
      InsertWfBut(s, cfg, key, meta);
      FoundIn(Insert(s, cfg, key, meta).entries, e);
      if e.key != key {
        var room := if |s.order| >= cfg.maxSize then EvictOne(s, cfg.strategy) else s;
        assert e in room.entries;
        if |s.order| >= cfg.maxSize {
          EvictOneEntry(s, cfg.strategy, e);
        }
      }
    }
  }

  lemma SetEntry(s: State, cfg: Config, key: string, value: string, opts: SetOptions, now: int, e: Entry)
    requires Wf(s) && e in Set(s, cfg, key, value, opts, now).entries
    ensures if e.key == key then e.meta == NewMeta(cfg, value, opts, now) else e in s.entries
  {
    EvictWf(s, cfg, |value|);
    var room := MakeRoom(s, cfg, |value|);
    InsertEntry(room, cfg, key, NewMeta(cfg, value, opts, now), e);
    if e.key != key && room != s {
      EvictEntry(s, cfg, |value|, e);
    }
  }

  lemma RemovedEntry(s: State, cfg: Config, event: Event, e: Entry)
    requires Wf(s) && !event.op.DoGet? && !event.op.DoSet? && e in Step(s, cfg, event).entries
    ensures e in s.entries
  {
    match event.op
    case DoDelete(key) => WithoutEntry(s.entries, key, e);
    case DoClear(namespace) =>
      if namespace.Some? {
        ExcludedEntry(s.entries, KeysIn(s.entries, namespace.value), e);
      }
    case DoInvalidate(tag) =>
      if tag in s.tagIndex {
        ExcludedEntry(s.entries, s.tagIndex[tag], e);
      }
    case DoCleanup => ExcludedEntry(s.entries, ExpiredKeys(s.entries, event.now), e);
  }

  /** Every entry after a step was there before, or is the one written or touched. */
  lemma StepEntry(s: State, cfg: Config, event: Event, e: Entry)
    requires Wf(s) && Fresh(s, event) && e in Step(s, cfg, event).entries
    ensures match event.op
            case DoGet(key) =>
              if e.key == key then Has(s.entries, key) && e.meta == Touched(Find(s.entries, key), cfg, event.now)
              else e in s.entries
            case DoSet(key, value, opts) =>
              if e.key == key then e.meta == NewMeta(cfg, value, opts, event.now) else e in s.entries
            case _ => e in s.entries
  {
    match event.op
    case DoGet(key) =>
      if Has(s.entries, key) {
        UpdatedEntry(s.entries, cfg, key, Touched(Find(s.entries, key), cfg, event.now), e);
      } else if e.key == key {
        FoundIn(s.entries, e);
      }
    case DoSet(key, value, opts) => SetEntry(s, cfg, key, value, opts, event.now, e);
    case _ => RemovedEntry(s, cfg, event, e);
  }

  // ---- over runs ----

  /** In every run an entry is as it was last written, with its counters, its access time and a sliding
      expiry as the reads since have left them. */
  lemma {:induction false} HeldAsWritten(cfg: Config, events: seq<Event>, e: Entry)
    requires FreshRun(cfg, events) && e in Run(cfg, events).entries
    ensures HistoryOf(events, e.key).Some? && AsWritten(cfg, e.meta, HistoryOf(events, e.key).value)
  {
    var front, last := events[..|events| - 1], events[|events| - 1];
    var s := Run(cfg, front);
    hide Run, Step, AsWritten;
    assert e in Step(s, cfg, last).entries by {
      RunStep(cfg, events);
    }
    StepEntry(s, cfg, last, e);
    if last.op.DoSet? && last.op.key == e.key {
      NewAsWritten(cfg, e.meta, events);
    } else if last.op.DoGet? && last.op.key == e.key {
      var before := Entry(e.key, Find(s.entries, e.key));
      FoundIn(s.entries, before);
      HeldAsWritten(cfg, front, before);
      TouchedAsWritten(cfg, before.meta, events, e.key);
    } else {
      HeldAsWritten(cfg, front, e);
    }
  }

  lemma RunStep(cfg: Config, events: seq<Event>)
    requires FreshRun(cfg, events) && events != []
    ensures Run(cfg, events) == Step(Run(cfg, events[..|events| - 1]), cfg, events[|events| - 1])
  {
  }

  lemma NewAsWritten(cfg: Config, m: Meta, events: seq<Event>)
    requires events != [] && events[|events| - 1].op.DoSet?
    requires var e := events[|events| - 1]; m == NewMeta(cfg, e.op.value, e.op.opts, e.now)
    ensures var h := HistoryOf(events, events[|events| - 1].op.key); h.Some? && AsWritten(cfg, m, h.value)
  {
  }

  lemma TouchedAsWritten(cfg: Config, m: Meta, events: seq<Event>, key: string)
    requires events != [] && events[|events| - 1].op == DoGet(key)
    requires var h := HistoryOf(events[..|events| - 1], key); h.Some? && AsWritten(cfg, m, h.value)
    ensures var h := HistoryOf(events, key);
            h.Some? && AsWritten(cfg, Touched(m, cfg, events[|events| - 1].now), h.value)
  {
    var h, now := HistoryOf(events[..|events| - 1], key).value, events[|events| - 1].now;
    TouchedOnce(cfg, m, h, now);
    hide AsWritten, Touched;
  }

  lemma TouchedOnce(cfg: Config, m: Meta, h: History, now: int)
    requires AsWritten(cfg, m, h)
    ensures AsWritten(cfg, Touched(m, cfg, now), h.(readAt := h.readAt + [now]))
  {
    var more := h.readAt + [now];
    assert more[|more| - 1] == now && |more| == |h.readAt| + 1;
  }

  /** A read of a held key, and the sweep, take an entry as expired exactly when it is out of time. */
  lemma ExpiresExactly(cfg: Config, events: seq<Event>, e: Entry, now: int)
    requires FreshRun(cfg, events) && e in Run(cfg, events).entries
    ensures var h := HistoryOf(events, e.key);
            && h.Some? && (Expired(e.meta, now) <==> !InTime(cfg, h.value, now))
            && (FreshRun(cfg, events + [Event(DoGet(e.key), now)]) <==> InTime(cfg, h.value, now))
  {
    var s, more := Run(cfg, events), events + [Event(DoGet(e.key), now)];
    HeldAsWritten(cfg, events, e);
    FoundIn(s.entries, e);
    assert more[..|more| - 1] == events;
    hide Run, HistoryOf;
    assert FreshRun(cfg, more) <==> Fresh(s, Event(DoGet(e.key), now));
  }

  /** After any run the sweep removes exactly the entries that are out of time. */
  lemma SweptExactly(cfg: Config, events: seq<Event>, e: Entry, now: int)
    requires FreshRun(cfg, events) && e in Run(cfg, events).entries
    ensures var h := HistoryOf(events, e.key);
            h.Some? && (e in Cleanup(Run(cfg, events), now).entries <==> InTime(cfg, h.value, now))
  {
    var es := Run(cfg, events).entries;
    ExpiresExactly(cfg, events, e, now);
    ExcludedEntry(es, ExpiredKeys(es, now), e);
    hide Run, FreshRun, Expired;
    FoundIn(es, e);
    if e.key in ExpiredKeys(es, now) {
      var i :| 0 <= i < |es| && Expired(es[i].meta, now) && es[i].key == e.key;
      HasIndex(es, e.key, i);
    }
  }

  /** Clearing a namespace removes exactly what was last written to it; without a name, everything. */
  lemma ClearedExactly(cfg: Config, events: seq<Event>, e: Entry, namespace: Option<string>)
    requires FreshRun(cfg, events) && e in Run(cfg, events).entries
    ensures var h := HistoryOf(events, e.key);
            h.Some? && (e in Clear(Run(cfg, events), namespace).entries <==>
                        namespace.Some? && namespace.value != "" && NamespaceOf(h.value) != namespace.value)
  {
    var es := Run(cfg, events).entries;
    HeldAsWritten(cfg, events, e);
    hide Run, FreshRun, HistoryOf;
    if namespace.Some? && namespace.value != "" {
      ExcludedEntry(es, KeysIn(es, namespace.value), e);
      FoundIn(es, e);
      if e.key in KeysIn(es, namespace.value) {
        var i :| 0 <= i < |es| && es[i].meta.namespace == namespace.value && es[i].key == e.key;
        HasIndex(es, e.key, i);
      }
    }
  }

  // ---- tags ----

  /** Some write of the run put the key under the tag. */
  predicate WrittenWith(events: seq<Event>, key: string, tag: string) {
    exists i | 0 <= i < |events| :: Tags(events[i], key, tag)
  }

  predicate Tags(e: Event, key: string, tag: string) {
    e.op.DoSet? && e.op.key == key && e.op.opts.tags.Some? && tag in e.op.opts.tags.value
  }

  lemma {:induction false} EvictListed(s: State, cfg: Config, needed: nat, key: string, tag: string)
    requires Wf(s) && key in Listed(Evict(s, cfg, needed).tagIndex, tag)
    ensures key in Listed(s.tagIndex, tag)
    decreases |s.entries|
  {
    if Bytes(s.entries) + needed > cfg.maxMemoryBytes && s.entries != [] {
      EvictOneWf(s, cfg.strategy);
      EvictListed(EvictOne(s, cfg.strategy), cfg, needed, key, tag);
    }
  }

  lemma SetListed(s: State, cfg: Config, e: Event, key: string, tag: string)
    requires Wf(s) && e.op.DoSet? && key in Listed(Step(s, cfg, e).tagIndex, tag)
    ensures key in Listed(s.tagIndex, tag) || Tags(e, key, tag)
  {
    var size := |e.op.value|;
    EvictWf(s, cfg, size);
    var room := MakeRoom(s, cfg, size);
    var t := Insert(room, cfg, e.op.key, NewMeta(cfg, e.op.value, e.op.opts, e.now));
    hide Insert, MakeRoom, Wf, NewMeta;
    InsertListed(room, cfg, e.op.key, NewMeta(cfg, e.op.value, e.op.opts, e.now));
    if e.op.opts.tags.Some? {
      TagsAdded(t.tagIndex, e.op.opts.tags.value, e.op.key);
    }
    if key in Listed(room.tagIndex, tag) {
      RoomListed(s, cfg, size, key, tag);
    }
  }

  lemma InsertListed(s: State, cfg: Config, key: string, meta: Meta)
    requires Wf(s)
    ensures forall k, tag | k in Listed(Insert(s, cfg, key, meta).tagIndex, tag) :: k in Listed(s.tagIndex, tag)
  {
  }

  lemma RoomListed(s: State, cfg: Config, size: nat, key: string, tag: string)
    requires Wf(s) && key in Listed(MakeRoom(s, cfg, size).tagIndex, tag)
    ensures key in Listed(s.tagIndex, tag)
  {
    if Bytes(s.entries) + size > cfg.maxMemoryBytes {
      EvictListed(s, cfg, size, key, tag);
    }
  }

  lemma StepListed(s: State, cfg: Config, e: Event, key: string, tag: string)
    requires Wf(s) && Fresh(s, e) && key in Listed(Step(s, cfg, e).tagIndex, tag)
    ensures key in Listed(s.tagIndex, tag) || Tags(e, key, tag)
  {
    if e.op.DoSet? {
      SetListed(s, cfg, e, key, tag);
    } else {
      hide Wf, Exclude, ExcludeKeys, Without, DropKey, Update;
    }
  }

  lemma {:induction false} ListedWereWritten(cfg: Config, events: seq<Event>, key: string, tag: string)
    requires FreshRun(cfg, events) && key in Listed(Run(cfg, events).tagIndex, tag)
    ensures WrittenWith(events, key, tag)
  {
    if events != [] {
      var front, last := events[..|events| - 1], events[|events| - 1];
      RunStep(cfg, events);
      hide Run, Step, Tags;
      StepListed(Run(cfg, front), cfg, last, key, tag);
      if Tags(last, key, tag) {
        assert Tags(events[|events| - 1], key, tag);
      } else {
        ListedWereWritten(cfg, front, key, tag);
        var i :| 0 <= i < |front| && Tags(front[i], key, tag);
        assert Tags(events[i], key, tag);
      }
    }
  }

  /** Invalidating a tag removes every entry whose last write carries it, and no entry that was never
      written with it. */
  lemma InvalidatedWereTagged(cfg: Config, events: seq<Event>, e: Entry, tag: string)
    requires FreshRun(cfg, events) && e in Run(cfg, events).entries
    ensures var h := HistoryOf(events, e.key);
            && h.Some?
            && (h.value.opts.tags.Some? && tag in h.value.opts.tags.value ==>
                  e !in InvalidateTag(Run(cfg, events), tag).entries)
            && (!WrittenWith(events, e.key, tag) ==> e in InvalidateTag(Run(cfg, events), tag).entries)
  {
    var s := Run(cfg, events);
    HeldAsWritten(cfg, events, e);
    TagInvalidationComplete(cfg, events, tag);
    ExcludedEntry(s.entries, Listed(s.tagIndex, tag), e);
    if e.key in Listed(s.tagIndex, tag) {
      ListedWereWritten(cfg, events, e.key, tag);
    }
  }
}
