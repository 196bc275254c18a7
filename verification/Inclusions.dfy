/** When does a larger LRU cache hold all that a smaller one holds, whatever the run? A program is the
    set of operations it may perform; tag invalidation makes the difference. */
module Inclusions {
  import opened Wrappers
  import opened CacheSpec
  import opened Recency

  /** The configuration with another number of entries and bytes. */
  function Sized(cfg: Config, maxSize: nat, memory: nat): Config {
    cfg.(maxSize := maxSize, maxMemoryBytes := memory)
  }

  /** The smaller cache holds part of what the larger one holds, unchanged and in the same order. */
  ghost predicate Included(small: Config, large: Config, events: seq<Event>)
    requires FreshRun(large, events)
  {
    FreshRun(small, events) &&
    exists lost: set<string> :: Run(small, events).entries == Exclude(Run(large, events).entries, lost)
  }

  /** Every hit of the smaller cache is a hit of the larger one with the same entry. */
  ghost predicate HitsKept(small: Config, large: Config, events: seq<Event>)
    requires FreshRun(large, events)
  {
    FreshRun(small, events) &&
    forall key | Has(Run(small, events).entries, key) ::
      Has(Run(large, events).entries, key) &&
      Find(Run(large, events).entries, key) == Find(Run(small, events).entries, key)
  }

  /** A run of the program that reads no expired entry and never meets the memory limit. */
  ghost predicate Proper(cfg: Config, ops: iset<Op>, events: seq<Event>) {
    Drawn(events, ops) && FreshRun(cfg, events) && NoPressure(cfg, events)
  }

  ghost predicate AlwaysIncluded(cfg: Config, small: nat, large: nat, ops: iset<Op>) {
    forall memory: nat, events: seq<Event> | Proper(Sized(cfg, large, memory), ops, events) ::
      Included(Sized(cfg, small, memory), Sized(cfg, large, memory), events)
  }

  ghost predicate NeverLosesHit(cfg: Config, small: nat, large: nat, ops: iset<Op>) {
    forall memory: nat, events: seq<Event> | Proper(Sized(cfg, large, memory), ops, events) ::
      HitsKept(Sized(cfg, small, memory), Sized(cfg, large, memory), events)
  }

  /** Writes of the program, each of another key. */
  ghost predicate Distinctly(ws: seq<Op>, ops: iset<Op>) {
    && (forall i | 0 <= i < |ws| :: ws[i] in ops && ws[i].DoSet?)
    && (forall i, j | 0 <= i < j < |ws| :: ws[i].key != ws[j].key)
  }

  /** The program writes more than n different keys. */
  ghost predicate Crowded(ops: iset<Op>, n: nat) {
    exists ws: seq<Op> :: |ws| == n + 1 && Distinctly(ws, ops)
  }

  // ---- caches that behave alike ----

  lemma SameInsert(s: State, small: Config, large: Config, key: string, meta: Meta)
    requires Wf(s) && large.strategy.Lru? && small == large.(maxSize := small.maxSize)
    requires small.maxSize <= large.maxSize
    requires Room(small) == Room(large) || Has(s.entries, key) || |s.entries| < Room(small)
    ensures Insert(s, small, key, meta) == Insert(s, large, key, meta)
  {
    if Has(s.entries, key) {
      UpdateLru(s.entries, small, key, meta);
      UpdateLru(s.entries, large, key, meta);
    } else {
      hide Update, Has, Drop;
      assert |s.order| == |s.entries|;
    }
  }

  lemma SameWrite(s: State, small: Config, large: Config, e: Event)
    requires Wf(s) && large.strategy.Lru? && small == large.(maxSize := small.maxSize) && e.op.DoSet?
    requires small.maxSize <= large.maxSize && Bytes(s.entries) + |e.op.value| <= large.maxMemoryBytes
    requires Room(small) == Room(large) || Has(s.entries, e.op.key) || |s.entries| < Room(small)
    ensures Set(s, small, e.op.key, e.op.value, e.op.opts, e.now) ==
            Set(s, large, e.op.key, e.op.value, e.op.opts, e.now)
  {
    SameMeta(small, large, e.op.value, e.op.opts, e.now);
    SameInsert(s, small, large, e.op.key, NewMeta(large, e.op.value, e.op.opts, e.now));
    hide Insert, NewMeta, Has, Wf, Room, AddTags;
  }

  lemma SameStep(s: State, small: Config, large: Config, e: Event)
    requires Wf(s) && Fresh(s, e) && large.strategy.Lru? && small == large.(maxSize := small.maxSize)
    requires small.maxSize <= large.maxSize
    requires e.op.DoSet? ==> Bytes(s.entries) + |e.op.value| <= large.maxMemoryBytes
    requires e.op.DoSet? ==>
               Room(small) == Room(large) || Has(s.entries, e.op.key) || |s.entries| < Room(small)
    ensures Step(s, small, e) == Step(s, large, e)
  {
    if e.op.DoSet? {
      SameWrite(s, small, large, e);
    }
  }

  /** The writes that the entries of a list come from. */
  lemma {:induction false} Writers(es: seq<Entry>, ops: iset<Op>) returns (ws: seq<Op>)
    requires NoDup(Keys(es)) && forall e | e in es :: WrittenWith(ops, e.key, e.meta.tags)
    ensures Distinctly(ws, ops) && |ws| == |es| && forall i | 0 <= i < |es| :: ws[i].key == es[i].key
  {
    ws := [];
    if es != [] {
      NoDupTail(es);
      assert WrittenWith(ops, es[0].key, es[0].meta.tags);
      var op: Op :| op in ops && op.DoSet? && op.key == es[0].key;
      var rest := Writers(es[1..], ops);
      assert forall i | 0 <= i < |rest| :: rest[i].key == es[i + 1].key && es[1..][i] == es[i + 1];
      ws := [op] + rest;
    }
  }

  /** As long as a program writes no more keys than there is room for, nothing is pushed out. */
  lemma RoomLeft(s: State, ops: iset<Op>, op: Op, n: nat)
    requires Wf(s) && Traced(s, ops) && op in ops && op.DoSet? && !Has(s.entries, op.key) && !Crowded(ops, n)
    ensures |s.entries| < n
  {
    if |s.entries| >= n {
      var ws := Writers(s.entries, ops);
      var few := [op] + ws[..n];
      assert Distinctly(few, ops);
    }
  }

  lemma {:induction false} SameRun(small: Config, large: Config, ops: iset<Op>, events: seq<Event>)
    requires large.strategy.Lru? && small.maxSize <= large.maxSize && small == large.(maxSize := small.maxSize)
    requires Proper(large, ops, events) && (Room(small) == Room(large) || !Crowded(ops, Room(small)))
    ensures FreshRun(small, events) && Run(small, events) == Run(large, events)
    decreases |events|
  {
    if events != [] {
      var front, e := events[..|events| - 1], events[|events| - 1];
      SameRun(small, large, ops, front);
      var s := Run(large, front);
      RunTraced(large, ops, front);
      if e.op.DoSet? && !Has(s.entries, e.op.key) && Room(small) != Room(large) {
        RoomLeft(s, ops, e.op, Room(small));
      }
      hide Traced, Step, Wf, Drawn, Crowded;
      SameStep(s, small, large, e);
    }
  }

  // ---- the run that fails ----

  function Written(ws: seq<Op>): seq<Event> {
    seq(|ws|, i requires 0 <= i < |ws| => Event(ws[i], 0))
  }

  function Size(ws: seq<Op>): nat
    requires forall i | 0 <= i < |ws| :: ws[i].DoSet?
  {
    if ws == [] then 0 else Size(ws[..|ws| - 1]) + |ws[|ws| - 1].value|
  }

  lemma SizeOne(ws: seq<Op>)
    requires ws != [] && forall i | 0 <= i < |ws| :: ws[i].DoSet?
    ensures Size(ws) == Size(ws[..|ws| - 1]) + |ws[|ws| - 1].value|
  {
  }

  lemma {:induction false} WritesProper(cfg: Config, ws: seq<Op>)
    requires cfg.strategy.Lru? && (forall i | 0 <= i < |ws| :: ws[i].DoSet?) && Size(ws) <= cfg.maxMemoryBytes
    ensures FreshRun(cfg, Written(ws)) && NoPressure(cfg, Written(ws))
    ensures Bytes(Run(cfg, Written(ws)).entries) <= Size(ws)
    decreases |ws|
  {
    if ws != [] {
      var front, w, events := ws[..|ws| - 1], ws[|ws| - 1], Written(ws);
      WritesProper(cfg, front);
      assert events[..|events| - 1] == Written(front) && events[|events| - 1] == Event(w, 0);
      WriteBytes(Run(cfg, Written(front)), cfg, w.key, w.value, w.opts, 0);
    }
  }

  lemma WriteBytes(s: State, cfg: Config, key: string, value: string, opts: SetOptions, now: int)
    requires Wf(s) && cfg.strategy.Lru? && Bytes(s.entries) + |value| <= cfg.maxMemoryBytes
    ensures Bytes(Set(s, cfg, key, value, opts, now).entries) <= Bytes(s.entries) + |value|
  {
    var x, e := Victims(s.entries, key, cfg.maxSize), Entry(key, NewMeta(cfg, value, opts, now));
    WriteIs(s, cfg, key, value, opts, now);
    ExcludeBytes(s.entries, x);
    BytesPrepend(e, Exclude(s.entries, x));
  }

  /** One more write of a run. */
  lemma LastWrite(cfg: Config, ws: seq<Op>)
    requires cfg.strategy.Lru? && ws != [] && (forall i | 0 <= i < |ws| :: ws[i].DoSet?)
    requires Size(ws) <= cfg.maxMemoryBytes
    ensures var front, w := ws[..|ws| - 1], ws[|ws| - 1];
            && FreshRun(cfg, Written(front)) && FreshRun(cfg, Written(ws)) && Wf(Run(cfg, Written(front)))
            && Bytes(Run(cfg, Written(front)).entries) + |w.value| <= cfg.maxMemoryBytes
            && Run(cfg, Written(ws)) == Set(Run(cfg, Written(front)), cfg, w.key, w.value, w.opts, 0)
  {
    var front, events := ws[..|ws| - 1], Written(ws);
    SizeOne(ws);
    WrittenLast(ws);
    hide Size, Set, Wf, Bytes, NoPressure, Written;
    WritesProper(cfg, front);
    WritesProper(cfg, ws);
  }

  lemma WrittenLast(ws: seq<Op>)
    requires ws != []
    ensures var events, front := Written(ws), ws[..|ws| - 1];
            && |events| == |ws| && events[..|events| - 1] == Written(front)
            && events[|events| - 1] == Event(ws[|ws| - 1], 0)
  {
  }

  /** The first key written stands at the end of a list of the keys written since. */
  ghost predicate Filled(s: State, ws: seq<Op>)
    requires ws != [] && forall i | 0 <= i < |ws| :: ws[i].DoSet?
  {
    && |s.entries| == |ws|
    && s.entries[|ws| - 1].key == ws[0].key && s.entries[|ws| - 1].meta.tags == TagsOf(ws[0].opts)
    && (forall e | e in s.entries :: exists i | 0 <= i < |ws| :: e.key == ws[i].key)
  }

  lemma {:induction false} Filling(cfg: Config, ws: seq<Op>, ops: iset<Op>)
    requires cfg.strategy.Lru? && Distinctly(ws, ops) && 0 < |ws| <= Room(cfg) && Size(ws) <= cfg.maxMemoryBytes
    ensures FreshRun(cfg, Written(ws)) && Filled(Run(cfg, Written(ws)), ws)
    decreases |ws|
  {
    hide Run, FreshRun, Filled, Size, Written, Set, Wf, NoPressure;
    var front, w := ws[..|ws| - 1], ws[|ws| - 1];
    Front(ws, ops);
    LastWrite(cfg, ws);
    var s := Run(cfg, Written(front));
    if front == [] {
      NothingWritten(cfg);
    } else {
      Filling(cfg, front, ops);
      NewKey(s, ws, ops);
    }
    hide Distinctly, Bytes;
    WriteIs(s, cfg, w.key, w.value, w.opts, 0);
    FillsUp(s, cfg, ws);
    FilledNext(s, Run(cfg, Written(ws)), cfg, ws);
  }

  lemma Front(ws: seq<Op>, ops: iset<Op>)
    requires Distinctly(ws, ops) && ws != []
    ensures Distinctly(ws[..|ws| - 1], ops) && Size(ws[..|ws| - 1]) <= Size(ws)
  {
    SizeOne(ws);
  }

  lemma NothingWritten(cfg: Config)
    ensures FreshRun(cfg, Written([])) && Run(cfg, Written([])) == EMPTY
  {
  }

  lemma FillsUp(s: State, cfg: Config, ws: seq<Op>)
    requires ws != [] && |ws| <= Room(cfg) && forall i | 0 <= i < |ws| :: ws[i].DoSet?
    requires if |ws| == 1 then s.entries == [] else Filled(s, ws[..|ws| - 1]) && !Has(s.entries, ws[|ws| - 1].key)
    ensures Exclude(s.entries, Victims(s.entries, ws[|ws| - 1].key, cfg.maxSize)) == s.entries
  {
    ExcludeNone(s.entries);
  }

  lemma FirstLast(s: State, ws: seq<Op>)
    requires ws != [] && (forall i | 0 <= i < |ws| :: ws[i].DoSet?) && Filled(s, ws)
    ensures s.entries != [] && |s.entries| == |ws| && s.entries[|s.entries| - 1].key == ws[0].key
    ensures s.entries[|s.entries| - 1].meta.tags == TagsOf(ws[0].opts)
  {
  }

  lemma NewKey(s: State, ws: seq<Op>, ops: iset<Op>)
    requires |ws| > 1 && Distinctly(ws, ops) && Filled(s, ws[..|ws| - 1])
    ensures !Has(s.entries, ws[|ws| - 1].key)
  {
    var front := ws[..|ws| - 1];
    forall j | 0 <= j < |s.entries| ensures s.entries[j].key != ws[|ws| - 1].key {
      assert s.entries[j] in s.entries;
      var i :| 0 <= i < |front| && s.entries[j].key == front[i].key;
      assert front[i] == ws[i];
    }
  }

  lemma FilledNext(s: State, t: State, cfg: Config, ws: seq<Op>)
    requires ws != [] && (forall i | 0 <= i < |ws| :: ws[i].DoSet?)
    requires if |ws| == 1 then s.entries == [] else Filled(s, ws[..|ws| - 1])
    requires var w := ws[|ws| - 1];
             t.entries == [Entry(w.key, NewMeta(cfg, w.value, w.opts, 0))] + s.entries
    ensures Filled(t, ws)
  {
    var front := ws[..|ws| - 1];
    forall e | e in t.entries ensures exists i | 0 <= i < |ws| :: e.key == ws[i].key {
      if e in s.entries {
        var i :| 0 <= i < |front| && e.key == front[i].key;
        assert e.key == ws[i].key;
      } else {
        assert e.key == ws[|ws| - 1].key;
      }
    }
  }

  /** In a cache without room for the last key the first one is gone, also from the tag index. */
  lemma PushedOut(cfg: Config, ws: seq<Op>, ops: iset<Op>, tag: string)
    requires cfg.strategy.Lru? && Distinctly(ws, ops) && |ws| == Room(cfg) + 1 && Size(ws) <= cfg.maxMemoryBytes
    requires tag in TagsOf(ws[0].opts)
    ensures FreshRun(cfg, Written(ws))
    ensures var t := Run(cfg, Written(ws)); !Has(t.entries, ws[0].key) && ws[0].key !in Listed(t.tagIndex, tag)
  {
    hide Run, FreshRun, Size, Written, Set, Wf, NoPressure, Bytes;
    var front, w := ws[..|ws| - 1], ws[|ws| - 1];
    Front(ws, ops);
    LastWrite(cfg, ws);
    Filling(cfg, front, ops);
    var s := Run(cfg, Written(front));
    NewKey(s, ws, ops);
    FirstLast(s, front);
    hide Distinctly, Has, Filled;
    VictimGone(s, cfg, w.key, w.value, w.opts, tag);
  }

  lemma VictimGone(s: State, cfg: Config, key: string, value: string, opts: SetOptions, tag: string)
    requires Wf(s) && cfg.strategy.Lru? && Bytes(s.entries) + |value| <= cfg.maxMemoryBytes
    requires !Has(s.entries, key) && s.entries != [] && |s.entries| >= cfg.maxSize
    requires tag in s.entries[|s.entries| - 1].meta.tags
    ensures var t, last := Set(s, cfg, key, value, opts, 0), s.entries[|s.entries| - 1].key;
            !Has(t.entries, last) && last !in Listed(t.tagIndex, tag)
  {
    var last, meta := |s.entries| - 1, NewMeta(cfg, value, opts, 0);
    var gone, room := s.entries[last].key, EvictOne(s, cfg.strategy);
    HasIndex(s.entries, gone, last);
    assert gone !in Listed(room.tagIndex, tag);
    var t := Insert(s, cfg, key, meta);
    assert t.tagIndex == room.tagIndex;
    if opts.tags.Some? {
      TagsAdded(t.tagIndex, opts.tags.value, key);
    }
    hide Insert, NewMeta, EvictOne;
    WriteIs(s, cfg, key, value, opts, 0);
    ExcludeHas(s.entries, {gone});
    HasStep(Set(s, cfg, key, value, opts, 0).entries, gone);
    assert ([Entry(key, meta)] + Exclude(s.entries, {gone}))[1..] == Exclude(s.entries, {gone});
  }

  /** Writing a key again leaves what the index lists for it. */
  lemma StillListed(s: State, cfg: Config, key: string, value: string, opts: SetOptions, tag: string)
    requires Wf(s) && Bytes(s.entries) + |value| <= cfg.maxMemoryBytes
    requires Has(s.entries, key) && key in Listed(s.tagIndex, tag)
    ensures key in Listed(Set(s, cfg, key, value, opts, 0).tagIndex, tag)
  {
    if opts.tags.Some? {
      TagsAdded(s.tagIndex, opts.tags.value, key);
    }
  }

  /** A run of the program: a key is written with a tag, as many other keys as the smaller cache has
      room for, the key again without the tag; then the tag is invalidated. */
  function Failing(ws: seq<Op>, again: Op, tag: string): seq<Event> {
    Written(ws + [again]) + [Event(DoInvalidate(tag), 0)]
  }

  /** The entry of the key is new in the smaller cache and is not listed under the tag; the larger
      cache still lists it. */
  lemma TagLosesHit(small: Config, large: Config, ops: iset<Op>, ws: seq<Op>, again: Op, tag: string)
    requires large.strategy.Lru? && small == large.(maxSize := small.maxSize) && Room(small) < Room(large)
    requires Distinctly(ws, ops) && |ws| == Room(small) + 1 && again.DoSet? && again.key == ws[0].key
    requires Size(ws + [again]) <= large.maxMemoryBytes
    requires tag in TagsOf(ws[0].opts) && tag !in TagsOf(again.opts)
    ensures var events := Failing(ws, again, tag);
            && FreshRun(small, events) && FreshRun(large, events) && NoPressure(large, events)
            && Has(Run(small, events).entries, again.key) && !Has(Run(large, events).entries, again.key)
  {
    WritesProper(large, ws + [again]);
    RewrittenSmall(small, ops, ws, again, tag);
    RewrittenLarge(large, ops, ws, again, tag);
    Invalidated(small, ws + [again], tag, again.key);
    Invalidated(large, ws + [again], tag, again.key);
  }

  lemma Invalidated(cfg: Config, ws: seq<Op>, tag: string, key: string)
    requires FreshRun(cfg, Written(ws)) && Has(Run(cfg, Written(ws)).entries, key)
    ensures var events := Written(ws) + [Event(DoInvalidate(tag), 0)];
            && FreshRun(cfg, events) && (NoPressure(cfg, Written(ws)) ==> NoPressure(cfg, events))
            && (Has(Run(cfg, events).entries, key) <==> key !in Listed(Run(cfg, Written(ws)).tagIndex, tag))
  {
    var events, s := Written(ws) + [Event(DoInvalidate(tag), 0)], Run(cfg, Written(ws));
    assert events[..|events| - 1] == Written(ws);
    InvalidatedAre(s, tag);
    ExcludeHas(s.entries, Listed(s.tagIndex, tag));
  }

  lemma RewrittenSmall(cfg: Config, ops: iset<Op>, ws: seq<Op>, again: Op, tag: string)
    requires cfg.strategy.Lru? && Distinctly(ws, ops) && |ws| == Room(cfg) + 1
    requires again.DoSet? && again.key == ws[0].key && Size(ws + [again]) <= cfg.maxMemoryBytes
    requires tag in TagsOf(ws[0].opts) && tag !in TagsOf(again.opts)
    ensures FreshRun(cfg, Written(ws + [again]))
    ensures var t := Run(cfg, Written(ws + [again])); Has(t.entries, again.key) && again.key !in Listed(t.tagIndex, tag)
  {
    var all := ws + [again];
    assert all[..|all| - 1] == ws;
    LastWrite(cfg, all);
    PushedOut(cfg, ws, ops, tag);
    var s := Run(cfg, Written(ws));
    WriteAdds(s, cfg, again.key, again.value, again.opts, 0);
    WriteIs(s, cfg, again.key, again.value, again.opts, 0);
    HeadFound(Run(cfg, Written(all)).entries, again.key);
  }

  lemma RewrittenLarge(cfg: Config, ops: iset<Op>, ws: seq<Op>, again: Op, tag: string)
    requires cfg.strategy.Lru? && Distinctly(ws, ops) && 0 < |ws| <= Room(cfg)
    requires again.DoSet? && again.key == ws[0].key && Size(ws + [again]) <= cfg.maxMemoryBytes
    requires tag in TagsOf(ws[0].opts)
    ensures FreshRun(cfg, Written(ws + [again]))
    ensures var t := Run(cfg, Written(ws + [again])); Has(t.entries, again.key) && again.key in Listed(t.tagIndex, tag)
  {
    var all := ws + [again];
    assert all[..|all| - 1] == ws;
    LastWrite(cfg, all);
    Filling(cfg, ws, ops);
    var s := Run(cfg, Written(ws));
    assert Covered(s.entries[|ws| - 1], s.tagIndex);
    assert Has(s.entries, again.key);
    StillListed(s, cfg, again.key, again.value, again.opts, tag);
    WriteIs(s, cfg, again.key, again.value, again.opts, 0);
    HeadFound(Run(cfg, Written(all)).entries, again.key);
  }

  // ---- main results ----

  /** For these sizes tag invalidation does no harm: the writes of a key agree on every tag that is
      invalidated, or all keys fit into the smaller cache, or both caches hold as many entries. */
  ghost predicate Harmless(small: nat, large: nat, ops: iset<Op>) {
    TagsAgree(ops) || !Crowded(ops, Capacity(small)) || Capacity(small) == Capacity(large)
  }

  lemma HarmlessIncludes(cfg: Config, small: nat, large: nat, ops: iset<Op>, memory: nat, events: seq<Event>)
    requires cfg.strategy.Lru? && small <= large && Harmless(small, large, ops)
    requires Proper(Sized(cfg, large, memory), ops, events)
    ensures Included(Sized(cfg, small, memory), Sized(cfg, large, memory), events)
  {
    var a, b := Sized(cfg, small, memory), Sized(cfg, large, memory);
    if TagsAgree(ops) {
      var lost := Inclusion(a, b, ops, events);
      assert Run(a, events).entries == Exclude(Run(b, events).entries, lost);
    } else {
      SameRun(a, b, ops, events);
      ExcludeNone(Run(b, events).entries);
      assert Run(a, events).entries == Exclude(Run(b, events).entries, {});
    }
  }

  lemma IncludedKeepsHits(small: Config, large: Config, events: seq<Event>)
    requires FreshRun(large, events) && Included(small, large, events)
    ensures HitsKept(small, large, events)
  {
    var lost: set<string> :| Run(small, events).entries == Exclude(Run(large, events).entries, lost);
    forall key | Has(Run(small, events).entries, key)
      ensures Has(Run(large, events).entries, key) &&
              Find(Run(large, events).entries, key) == Find(Run(small, events).entries, key)
    {
      FindExcluded(Run(large, events).entries, lost, key);
    }
  }

  /** Distinct writes that begin with one of the key. */
  lemma Begin(ops: iset<Op>, first: Op, n: nat) returns (ws: seq<Op>)
    requires Crowded(ops, n) && first in ops && first.DoSet?
    ensures Distinctly(ws, ops) && |ws| == n + 1 && ws[0] == first
  {
    var all: seq<Op> :| |all| == n + 1 && Distinctly(all, ops);
    if i :| 0 <= i < |all| && all[i].key == first.key {
      ws := [first] + RemoveAt(all, i);
      assert forall j | 0 <= j < n :: RemoveAt(all, i)[j] == all[if j < i then j else j + 1];
    } else {
      ws := [first] + all[..n];
    }
  }

  lemma FailingDrawn(ops: iset<Op>, ws: seq<Op>, again: Op, tag: string)
    requires Distinctly(ws, ops) && again in ops && DoInvalidate(tag) in ops
    ensures Drawn(Failing(ws, again, tag), ops)
  {
  }

  lemma HarmLosesHit(cfg: Config, small: nat, large: nat, ops: iset<Op>)
    requires cfg.strategy.Lru? && small <= large && !Harmless(small, large, ops)
    ensures !NeverLosesHit(cfg, small, large, ops)
  {
    var tag: string, a: Op, b: Op :| DoInvalidate(tag) in ops && a in ops && b in ops && a.DoSet? && b.DoSet? &&
      a.key == b.key && tag in TagsOf(a.opts) && tag !in TagsOf(b.opts);
    var ws := Begin(ops, a, Capacity(small));
    var memory, events := Size(ws + [b]), Failing(ws, b, tag);
    FailingDrawn(ops, ws, b, tag);
    hide Distinctly, Harmless, TagsAgree, Crowded, TagsOf, Size, Drawn, Failing;
    TagLosesHit(Sized(cfg, small, memory), Sized(cfg, large, memory), ops, ws, b, tag);
    assert Proper(Sized(cfg, large, memory), ops, events);
  }

  /** Whatever the TTLs, and for any two sizes: all runs of a program keep inclusion, and no run loses
      a hit, exactly when the sizes make tag invalidation harmless. */
  lemma InclusionExactly(cfg: Config, small: nat, large: nat, ops: iset<Op>)
    requires cfg.strategy.Lru? && small <= large
    ensures AlwaysIncluded(cfg, small, large, ops) <==> Harmless(small, large, ops)
    ensures NeverLosesHit(cfg, small, large, ops) <==> Harmless(small, large, ops)
  {
    hide Harmless, Included, HitsKept;
    if Harmless(small, large, ops) {
      forall memory: nat, events: seq<Event> | Proper(Sized(cfg, large, memory), ops, events)
        ensures Included(Sized(cfg, small, memory), Sized(cfg, large, memory), events)
      {
        HarmlessIncludes(cfg, small, large, ops, memory, events);
      }
    } else {
      HarmLosesHit(cfg, small, large, ops);
    }
    forall memory: nat, events: seq<Event>
      | Proper(Sized(cfg, large, memory), ops, events) && AlwaysIncluded(cfg, small, large, ops)
      ensures HitsKept(Sized(cfg, small, memory), Sized(cfg, large, memory), events)
    {
      ProperIsFresh(Sized(cfg, large, memory), ops, events);
      IncludedKeepsHits(Sized(cfg, small, memory), Sized(cfg, large, memory), events);
    }
  }

  lemma ProperIsFresh(cfg: Config, ops: iset<Op>, events: seq<Event>)
    requires Proper(cfg, ops, events)
    ensures FreshRun(cfg, events)
  {
  }

  /** At all sizes inclusion is kept exactly when no key is written both with and without a tag that
      is invalidated, or no two keys are written. */
  lemma InclusionAtAllSizes(cfg: Config, ops: iset<Op>)
    requires cfg.strategy.Lru?
    ensures (forall small: nat, large: nat | small <= large :: AlwaysIncluded(cfg, small, large, ops)) <==>
            TagsAgree(ops) || !Crowded(ops, 1)
  {
    hide AlwaysIncluded, NeverLosesHit, TagsAgree;
    forall small: nat, large: nat | small <= large && (TagsAgree(ops) || !Crowded(ops, 1))
      ensures AlwaysIncluded(cfg, small, large, ops)
    {
      CrowdedLess(ops, 1, Capacity(small));
      InclusionExactly(cfg, small, large, ops);
    }
    InclusionExactly(cfg, 1, 2, ops);
  }

  lemma CrowdedLess(ops: iset<Op>, m: nat, n: nat)
    requires m <= n
    ensures Crowded(ops, n) ==> Crowded(ops, m)
  {
    if Crowded(ops, n) {
      var ws: seq<Op> :| |ws| == n + 1 && Distinctly(ws, ops);
      assert Distinctly(ws[..m + 1], ops);
    }
  }

  const PLAIN := SetOptions(None, None, None)

  const TAGGED := SetOptions(None, Some(["t"]), None)

  /** A key is written with a tag, pushed out of a cache for one entry, and written again without it:
      the cache for two entries then loses it to the invalidation of the tag. */
  lemma StaleTagLosesHit()
    ensures var small, large := Config(1, Lru, 0, 0, 3), Config(2, Lru, 0, 0, 3);
            var events := [Event(DoSet("k", "1", TAGGED), 0), Event(DoSet("j", "2", PLAIN), 0),
                           Event(DoSet("k", "3", PLAIN), 0), Event(DoInvalidate("t"), 0)];
            && FreshRun(small, events) && FreshRun(large, events)
            && Has(Run(small, events).entries, "k") && !Has(Run(large, events).entries, "k")
  {
    var ws, again := [DoSet("k", "1", TAGGED), DoSet("j", "2", PLAIN)], DoSet("k", "3", PLAIN);
    var events := [Event(ws[0], 0), Event(ws[1], 0), Event(again, 0), Event(DoInvalidate("t"), 0)];
    assert Failing(ws, again, "t") == events;
    assert (ws + [again])[..2] == ws && ws[..1] == [ws[0]];
    SizeOne(ws + [again]);
    SizeOne(ws);
    SizeOne(ws[..1]);
    TagLosesHit(Config(1, Lru, 0, 0, 3), Config(2, Lru, 0, 0, 3), iset{ws[0], ws[1]}, ws, again, "t");
  }
}
