/** The memory cache as values: what every operation makes of the recency list, the tag index,
    the insertion order of the key map and the LFU counters. */
module CacheSpec {
  import opened Wrappers

  /** `value` is the serialized form, whose length is the size the cache accounts for. */
  datatype Meta = Meta(value: string, expiresAt: int, tags: seq<string>, namespace: string,
                       createdAt: int, lastAccessed: int, accessCount: nat, hits: nat)

  datatype Entry = Entry(key: string, meta: Meta)

  datatype Strategy = Lru | Lfu | Fifo | TtlOnly

  /** Times are in milliseconds, TTLs in seconds. */
  datatype Config = Config(maxSize: nat, strategy: Strategy, defaultTtl: int, slidingTtl: int, maxMemoryBytes: nat)

  datatype SetOptions = SetOptions(ttl: Option<int>, tags: Option<seq<string>>, namespace: Option<string>)

  /** `entries` runs from head to tail; `order` is the iteration order of the key map. */
  datatype State = State(entries: seq<Entry>, order: seq<string>, tagIndex: map<string, set<string>>,
                         freq: map<string, nat>)

  const EMPTY: State := State([], [], map[], map[])

  // ---- entries ----

  function Keys(es: seq<Entry>): seq<string> {
    seq(|es|, i requires 0 <= i < |es| => es[i].key)
  }

  predicate NoDup(ks: seq<string>) {
    forall i, j | 0 <= i < j < |ks| :: ks[i] != ks[j]
  }

  function Bytes(es: seq<Entry>): nat {
    if es == [] then 0 else |es[0].meta.value| + Bytes(es[1..])
  }

  predicate Has(es: seq<Entry>, key: string) {
    exists i | 0 <= i < |es| :: es[i].key == key
  }

  function IndexOf(es: seq<Entry>, key: string): (i: nat)
    requires Has(es, key)
    ensures i < |es| && es[i].key == key
  {
    if es[0].key == key then 0 else
      assert Has(es[1..], key) by {
        var i :| 0 <= i < |es| && es[i].key == key;
        assert es[1..][i - 1] == es[i];
      }
      1 + IndexOf(es[1..], key)
  }

  function Find(es: seq<Entry>, key: string): Meta
    requires Has(es, key)
  {
    es[IndexOf(es, key)].meta
  }

  function Without(es: seq<Entry>, key: string): seq<Entry> {
    if Has(es, key) then RemoveAt(es, IndexOf(es, key)) else es
  }

  function Position(ks: seq<string>, key: string): (i: nat)
    requires key in ks
    ensures i < |ks| && ks[i] == key
  {
    if ks[0] == key then 0 else 1 + Position(ks[1..], key)
  }

  function DropKey(ks: seq<string>, key: string): seq<string> {
    if key in ks then RemoveAt(ks, Position(ks, key)) else ks
  }

  function MoveToFront(es: seq<Entry>, i: nat): seq<Entry>
    requires i < |es|
  {
    [es[i]] + RemoveAt(es, i)
  }

  // ---- tags ----

  function Untag(index: map<string, set<string>>, tags: seq<string>, key: string): map<string, set<string>> {
    map t | t in index :: if t in tags then index[t] - {key} else index[t]
  }

  function AddTag(index: map<string, set<string>>, tag: string, key: string): map<string, set<string>> {
    index[tag := (if tag in index then index[tag] else {}) + {key}]
  }

  function AddTags(index: map<string, set<string>>, tags: seq<string>, key: string): map<string, set<string>> {
    if tags == [] then index else AddTag(AddTags(index, tags[..|tags| - 1], key), tags[|tags| - 1], key)
  }

  // ---- eviction ----

  /** The first key in map order with the least LFU count. */
  function LeastUsed(order: seq<string>, freq: map<string, nat>): string
    requires order != []
  {
    var last := order[|order| - 1];
    if |order| == 1 then last
    else
      var best := LeastUsed(order[..|order| - 1], freq);
      if Count(freq, last) < Count(freq, best) then last else best
  }

  function Count(freq: map<string, nat>, key: string): nat {
    if key in freq then freq[key] else 0
  }

  /** The first key in map order that expires first; the fallback when none expires. */
  function NearestExpiring(order: seq<string>, es: seq<Entry>, fallback: string): (string, Option<int>)
    requires forall k | k in order :: Has(es, k)
  {
    if order == [] then (fallback, None)
    else
      var last := order[|order| - 1];
      var (best, expiry) := NearestExpiring(order[..|order| - 1], es, fallback);
      var e := Find(es, last).expiresAt;
      if e > 0 && (expiry.None? || e < expiry.value) then (last, Some(e)) else (best, expiry)
  }

  ghost predicate Wf(s: State) {
    && NoDup(Keys(s.entries)) && NoDup(s.order) && |s.order| == |s.entries|
    && (forall k :: k in s.order <==> Has(s.entries, k))
    && (forall i | 0 <= i < |s.entries| :: Covered(s.entries[i], s.tagIndex))
  }

  /** The tag index lists the entry under each of its tags. */
  predicate Covered(e: Entry, index: map<string, set<string>>) {
    forall t | t in e.meta.tags :: t in index && e.key in index[t]
  }

  function Target(s: State, strategy: Strategy): (k: string)
    requires Wf(s) && s.entries != []
  {
    var tail := s.entries[|s.entries| - 1].key;
    match strategy
    case Lru => tail
    case Fifo => tail
    case Lfu => if s.order == [] then tail else LeastUsed(s.order, s.freq)
    case TtlOnly => NearestExpiring(s.order, s.entries, tail).0
  }

  /** Removes one entry together with everything that refers to it. */
  function Drop(s: State, key: string): State
    requires Has(s.entries, key)
  {
    State(Without(s.entries, key), DropKey(s.order, key), Untag(s.tagIndex, Find(s.entries, key).tags, key), s.freq)
  }

  function Forget(s: State, key: string): State {
    s.(freq := s.freq - {key})
  }

  function EvictOne(s: State, strategy: Strategy): State
    requires Wf(s)
  {
    if s.entries == [] then s
    else
      TargetPresent(s, strategy);
      Forget(Drop(s, Target(s, strategy)), Target(s, strategy))
  }

  /** Evicts until `needed` more bytes fit or nothing is left. */
  function Evict(s: State, cfg: Config, needed: nat): State
    requires Wf(s)
    decreases |s.entries|
  {
    if Bytes(s.entries) + needed > cfg.maxMemoryBytes && s.entries != [] then
      EvictOneWf(s, cfg.strategy);
      Evict(EvictOne(s, cfg.strategy), cfg, needed)
    else s
  }

  // ---- operations ----

  predicate Expired(m: Meta, now: int) {
    m.expiresAt > 0 && now > m.expiresAt
  }

  /** The metadata of a hit: counters, access time and the sliding expiration. */
  function Touched(m: Meta, cfg: Config, now: int): Meta {
    m.(hits := m.hits + 1, lastAccessed := now, accessCount := m.accessCount + 1,
       expiresAt := if cfg.slidingTtl > 0 then now + cfg.slidingTtl * 1000 else m.expiresAt)
  }

  /** Replaces the metadata of an entry; under LRU the entry also becomes the most recent one. */
  function Update(es: seq<Entry>, cfg: Config, key: string, meta: Meta): seq<Entry>
    requires Has(es, key)
  {
    var i := IndexOf(es, key);
    var updated := es[i := Entry(key, meta)];
    if cfg.strategy.Lru? then MoveToFront(updated, i) else updated
  }

  /** `get` of a key that is absent or whose entry has not expired. */
  function Get(s: State, cfg: Config, key: string, now: int): State {
    if !Has(s.entries, key) then s
    else s.(entries := Update(s.entries, cfg, key, Touched(Find(s.entries, key), cfg, now)))
  }

  function NewMeta(cfg: Config, value: string, opts: SetOptions, now: int): Meta {
    var ttl := if opts.ttl.Some? then opts.ttl.value else cfg.defaultTtl;
    Meta(value, if ttl > 0 then now + ttl * 1000 else 0, if opts.tags.Some? then opts.tags.value else [],
         if opts.namespace.Some? then opts.namespace.value else "default", now, now, 1, 0)
  }

  /** Makes room in bytes first; this may remove the very key that is being overwritten. */
  function MakeRoom(s: State, cfg: Config, size: nat): State
    requires Wf(s)
  {
    if Bytes(s.entries) + size > cfg.maxMemoryBytes then Evict(s, cfg, size) else s
  }

  function Insert(s: State, cfg: Config, key: string, meta: Meta): State
    requires Wf(s)
  {
    if Has(s.entries, key) then s.(entries := Update(s.entries, cfg, key, meta))
    else
      var room := if |s.order| >= cfg.maxSize then EvictOne(s, cfg.strategy) else s;
      room.(entries := [Entry(key, meta)] + room.entries, order := room.order + [key])
  }

  function Set(s: State, cfg: Config, key: string, value: string, opts: SetOptions, now: int): State
    requires Wf(s)
  {
    EvictWf(s, cfg, |value|);
    Indexed(Insert(MakeRoom(s, cfg, |value|), cfg, key, NewMeta(cfg, value, opts, now)), cfg, key, opts)
  }

  /** Lists the key under its tags and starts its LFU count. */
  function Indexed(s: State, cfg: Config, key: string, opts: SetOptions): State {
    s.(tagIndex := if opts.tags.Some? then AddTags(s.tagIndex, opts.tags.value, key) else s.tagIndex,
       freq := if cfg.strategy.Lfu? then s.freq[key := 1] else s.freq)
  }

  function Delete(s: State, key: string): State {
    if Has(s.entries, key) then Drop(s, key) else s
  }

  // ---- what removal does ----

  lemma HasIndex(es: seq<Entry>, key: string, i: nat)
    requires NoDup(Keys(es)) && i < |es| && es[i].key == key
    ensures Has(es, key) && IndexOf(es, key) == i
  {
    var j := IndexOf(es, key);
    assert Keys(es)[i] == Keys(es)[j];
  }

  lemma RemovedKeys(es: seq<Entry>, key: string)
    requires NoDup(Keys(es)) && Has(es, key)
    ensures NoDup(Keys(Without(es, key))) && |Without(es, key)| == |es| - 1
    ensures forall k :: Has(Without(es, key), k) <==> Has(es, k) && k != key
  {
    var i, r := IndexOf(es, key), Without(es, key);
    forall a | 0 <= a < |r| ensures r[a] == es[if a < i then a else a + 1] {
    }
    assert |r| == |es| - 1 && es[i].key == key;
    hide Has, NoDup, Without, IndexOf;
    RemovedNoDup(es, r, i);
    forall k ensures Has(r, k) <==> Has(es, k) && k != key {
      RemovedHas(es, r, i, k);
    }
  }

  lemma RemovedNoDup(es: seq<Entry>, r: seq<Entry>, i: nat)
    requires NoDup(Keys(es)) && i < |es| && |r| == |es| - 1
    requires forall a | 0 <= a < |r| :: r[a] == es[if a < i then a else a + 1]
    ensures NoDup(Keys(r))
  {
    forall a, b | 0 <= a < b < |r| ensures Keys(r)[a] != Keys(r)[b] {
      assert Keys(es)[if a < i then a else a + 1] != Keys(es)[if b < i then b else b + 1];
    }
  }

  lemma RemovedHas(es: seq<Entry>, r: seq<Entry>, i: nat, k: string)
    requires NoDup(Keys(es)) && i < |es| && |r| == |es| - 1
    requires forall a | 0 <= a < |r| :: r[a] == es[if a < i then a else a + 1]
    ensures Has(r, k) <==> Has(es, k) && k != es[i].key
  {
    if Has(r, k) {
      var a :| 0 <= a < |r| && r[a].key == k;
      var a' := if a < i then a else a + 1;
      assert es[a'].key == k && Keys(es)[a'] != Keys(es)[i];
    }
    if Has(es, k) && k != es[i].key {
      var a :| 0 <= a < |es| && es[a].key == k;
      assert r[if a < i then a else a - 1] == es[a];
    }
  }

  lemma DroppedKeys(ks: seq<string>, key: string)
    requires NoDup(ks) && key in ks
    ensures NoDup(DropKey(ks, key)) && |DropKey(ks, key)| == |ks| - 1
    ensures forall k :: k in DropKey(ks, key) <==> k in ks && k != key
  {
    var i := Position(ks, key);
    hide Position, NoDup, RemoveAt;
    RemovedSpots(ks, i);
    assert RemoveAt(ks, i) == DropKey(ks, key);
    DroppedDistinct(ks, RemoveAt(ks, i), i);
    forall k ensures k in RemoveAt(ks, i) <==> k in ks && k != key {
      DroppedMember(ks, RemoveAt(ks, i), i, k);
    }
  }

  lemma RemovedSpots<T>(s: seq<T>, i: nat)
    requires i < |s|
    ensures |RemoveAt(s, i)| == |s| - 1
    ensures forall a | 0 <= a < |RemoveAt(s, i)| :: RemoveAt(s, i)[a] == s[if a < i then a else a + 1]
  {
  }

  lemma DroppedDistinct(ks: seq<string>, r: seq<string>, i: nat)
    requires NoDup(ks) && i < |ks| && |r| == |ks| - 1
    requires forall a | 0 <= a < |r| :: r[a] == ks[if a < i then a else a + 1]
    ensures NoDup(r)
  {
    forall a, b | 0 <= a < b < |r| ensures r[a] != r[b] {
      assert ks[if a < i then a else a + 1] != ks[if b < i then b else b + 1];
    }
  }

  lemma DroppedMember(ks: seq<string>, r: seq<string>, i: nat, k: string)
    requires NoDup(ks) && i < |ks| && |r| == |ks| - 1
    requires forall a | 0 <= a < |r| :: r[a] == ks[if a < i then a else a + 1]
    ensures k in r <==> k in ks && k != ks[i]
  {
    if k in r {
      var a :| 0 <= a < |r| && r[a] == k;
      assert ks[if a < i then a else a + 1] != ks[i];
    }
    if k in ks && k != ks[i] {
      var a :| 0 <= a < |ks| && ks[a] == k;
      assert r[if a < i then a else a - 1] == k;
    }
  }

  lemma {:induction false} BytesRemoved(es: seq<Entry>, i: nat)
    requires i < |es|
    ensures Bytes(RemoveAt(es, i)) == Bytes(es) - |es[i].meta.value|
  {
    var r := RemoveAt(es, i);
    if i == 0 {
      assert r == es[1..];
    } else {
      BytesRemoved(es[1..], i - 1);
      assert r[1..] == RemoveAt(es[1..], i - 1);
    }
  }

  lemma BytesPrepend(e: Entry, es: seq<Entry>)
    ensures Bytes([e] + es) == |e.meta.value| + Bytes(es)
  {
    assert ([e] + es)[1..] == es;
  }

  lemma BytesFront(es: seq<Entry>, i: nat)
    requires i < |es|
    ensures Bytes(MoveToFront(es, i)) == Bytes(es)
  {
    BytesRemoved(es, i);
    assert MoveToFront(es, i)[1..] == RemoveAt(es, i);
  }

  lemma {:induction false} BytesUpdated(es: seq<Entry>, i: nat, e: Entry)
    requires i < |es|
    ensures Bytes(es[i := e]) == Bytes(es) - |es[i].meta.value| + |e.meta.value|
  {
    if i == 0 {
      assert es[i := e][1..] == es[1..];
    } else {
      BytesUpdated(es[1..], i - 1, e);
      assert es[i := e][1..] == es[1..][i - 1 := e];
    }
  }

  lemma {:induction false} LeastUsedIn(order: seq<string>, freq: map<string, nat>)
    requires order != []
    ensures LeastUsed(order, freq) in order
    ensures forall k | k in order :: Count(freq, LeastUsed(order, freq)) <= Count(freq, k)
  {
    if |order| > 1 {
      LeastUsedIn(order[..|order| - 1], freq);
      assert order == order[..|order| - 1] + [order[|order| - 1]];
    }
  }

  lemma {:induction false} NearestIn(order: seq<string>, es: seq<Entry>, fallback: string)
    requires forall k | k in order :: Has(es, k)
    ensures var (k, e) := NearestExpiring(order, es, fallback); k in order || (k == fallback && e.None?)
  {
    if order != [] {
      NearestIn(order[..|order| - 1], es, fallback);
      assert order == order[..|order| - 1] + [order[|order| - 1]];
    }
  }

  lemma TargetPresent(s: State, strategy: Strategy)
    requires Wf(s) && s.entries != []
    ensures Has(s.entries, Target(s, strategy)) && Target(s, strategy) in s.order
  {
    var tail := s.entries[|s.entries| - 1].key;
    assert Has(s.entries, tail);
    NearestIn(s.order, s.entries, tail);
    if s.order != [] {
      LeastUsedIn(s.order, s.freq);
    }
  }

  lemma DropWf(s: State, key: string)
    requires Wf(s) && Has(s.entries, key)
    ensures Wf(Drop(s, key)) && |Drop(s, key).entries| == |s.entries| - 1 && |Drop(s, key).order| == |s.order| - 1
    ensures forall k :: Has(Drop(s, key).entries, k) <==> Has(s.entries, k) && k != key
  {
    RemovedKeys(s.entries, key);
    DroppedKeys(s.order, key);
    DropCovered(s, key);
  }

  /** Every entry that stays keeps its place under its tags. */
  lemma DropCovered(s: State, key: string)
    requires Wf(s) && Has(s.entries, key)
    ensures forall a | 0 <= a < |Without(s.entries, key)| ::
              Covered(Without(s.entries, key)[a], Untag(s.tagIndex, Find(s.entries, key).tags, key))
  {
    var i, r := IndexOf(s.entries, key), Without(s.entries, key);
    RemovedSpots(s.entries, i);
    forall a | 0 <= a < |r| ensures Covered(r[a], Untag(s.tagIndex, Find(s.entries, key).tags, key)) {
      var a' := if a < i then a else a + 1;
      assert Keys(s.entries)[a'] != Keys(s.entries)[i];
      OtherStaysCovered(s.entries[a'], s.tagIndex, Find(s.entries, key).tags, key);
    }
  }

  lemma OtherStaysCovered(e: Entry, index: map<string, set<string>>, tags: seq<string>, key: string)
    requires Covered(e, index) && e.key != key
    ensures Covered(e, Untag(index, tags, key))
  {
  }

  lemma EvictOneWf(s: State, strategy: Strategy)
    requires Wf(s)
    ensures Wf(EvictOne(s, strategy))
    ensures s.entries != [] ==> |EvictOne(s, strategy).entries| == |s.entries| - 1
  {
    if s.entries != [] {
      TargetPresent(s, strategy);
      DropWf(s, Target(s, strategy));
    }
  }

  lemma {:induction false} EvictWf(s: State, cfg: Config, needed: nat)
    requires Wf(s)
    ensures Wf(Evict(s, cfg, needed))
    ensures Bytes(Evict(s, cfg, needed).entries) + needed <= cfg.maxMemoryBytes || Evict(s, cfg, needed).entries == []
    ensures |Evict(s, cfg, needed).entries| <= |s.entries|
    decreases |s.entries|
  {
    if Bytes(s.entries) + needed > cfg.maxMemoryBytes && s.entries != [] {
      EvictOneWf(s, cfg.strategy);
      EvictWf(EvictOne(s, cfg.strategy), cfg, needed);
    }
  }

  lemma UpdateBytes(es: seq<Entry>, cfg: Config, key: string, meta: Meta)
    requires Has(es, key)
    ensures Bytes(Update(es, cfg, key, meta)) == Bytes(es) - |Find(es, key).value| + |meta.value|
  {
    var i := IndexOf(es, key);
    BytesUpdated(es, i, Entry(key, meta));
    BytesFront(es[i := Entry(key, meta)], i);
  }

  lemma UpdatedKeys(es: seq<Entry>, i: nat, e: Entry)
    requires i < |es| && e.key == es[i].key
    ensures Keys(es[i := e]) == Keys(es)
    ensures forall k :: Has(es[i := e], k) <==> Has(es, k)
  {
    SameKeysHas(es[i := e], es);
  }

  lemma SameKeysHas(a: seq<Entry>, b: seq<Entry>)
    requires Keys(a) == Keys(b)
    ensures forall k :: Has(a, k) <==> Has(b, k)
  {
    assert |Keys(a)| == |a| && |Keys(b)| == |b|;
    forall i | 0 <= i < |a| ensures a[i].key == b[i].key {
      assert Keys(a)[i] == Keys(b)[i];
    }
  }

  lemma FrontKeys(es: seq<Entry>, i: nat)
    requires NoDup(Keys(es)) && i < |es|
    ensures NoDup(Keys(MoveToFront(es, i))) && |MoveToFront(es, i)| == |es|
    ensures forall k :: Has(MoveToFront(es, i), k) <==> Has(es, k)
    ensures forall j | 0 <= j < |es| :: MoveToFront(es, i)[j] == es[if j == 0 then i else if j <= i then j - 1 else j]
  {
    var f := MoveToFront(es, i);
    forall a, b | 0 <= a < b < |f| ensures Keys(f)[a] != Keys(f)[b] {
      assert Keys(es)[if a == 0 then i else if a <= i then a - 1 else a] != Keys(es)[if b <= i then b - 1 else b];
    }
    forall k ensures Has(f, k) <==> Has(es, k) {
      if Has(es, k) {
        var a :| 0 <= a < |es| && es[a].key == k;
        assert f[if a == i then 0 else if a < i then a + 1 else a] == es[a];
      }
    }
  }

  // ---- every operation keeps the state well formed ----

  lemma GetWf(s: State, cfg: Config, key: string, now: int)
    requires Wf(s)
    ensures Wf(Get(s, cfg, key, now)) && |Get(s, cfg, key, now).entries| == |s.entries|
    ensures Bytes(Get(s, cfg, key, now).entries) == Bytes(s.entries)
  {
    if Has(s.entries, key) {
      var i := IndexOf(s.entries, key);
      var e := Entry(key, Touched(s.entries[i].meta, cfg, now));
      UpdatedWf(s, i, e);
      BytesUpdated(s.entries, i, e);
      FrontWf(s.(entries := s.entries[i := e]), i);
      BytesFront(s.entries[i := e], i);
    }
  }

  lemma UpdatedWf(s: State, i: nat, e: Entry)
    requires Wf(s) && i < |s.entries| && e.key == s.entries[i].key && e.meta.tags == s.entries[i].meta.tags
    ensures Wf(s.(entries := s.entries[i := e]))
  {
    UpdatedKeys(s.entries, i, e);
    assert Covered(s.entries[i], s.tagIndex);
  }

  lemma FrontWf(s: State, i: nat)
    requires Wf(s) && i < |s.entries|
    ensures Wf(s.(entries := MoveToFront(s.entries, i)))
  {
    FrontKeys(s.entries, i);
  }

  /** Well formed but for the tags of one entry, which are indexed last. */
  ghost predicate WfBut(s: State, key: string) {
    && NoDup(Keys(s.entries)) && NoDup(s.order) && |s.order| == |s.entries|
    && (forall k :: k in s.order <==> Has(s.entries, k))
    && (forall i | 0 <= i < |s.entries| && s.entries[i].key != key :: Covered(s.entries[i], s.tagIndex))
  }

  lemma InsertWfBut(s: State, cfg: Config, key: string, meta: Meta)
    requires Wf(s)
    ensures var t := Insert(s, cfg, key, meta);
            WfBut(t, key) && Has(t.entries, key) && t.entries[IndexOf(t.entries, key)] == Entry(key, meta)
    ensures |Insert(s, cfg, key, meta).entries| <= if |s.entries| <= cfg.maxSize
            then (if cfg.maxSize == 0 then 1 else cfg.maxSize) else |s.entries|
    ensures Bytes(Insert(s, cfg, key, meta).entries) <= Bytes(s.entries) + |meta.value|
  {
    if Has(s.entries, key) {
      OverwriteWfBut(s, cfg, key, meta);
      UpdateBytes(s.entries, cfg, key, meta);
    } else {
      var room := if |s.order| >= cfg.maxSize then EvictOne(s, cfg.strategy) else s;
      EvictOneWf(s, cfg.strategy);
      EvictOneShrinks(s, cfg.strategy);
      PrependKeys(room, key, meta);
      BytesPrepend(Entry(key, meta), room.entries);
      HasIndex([Entry(key, meta)] + room.entries, key, 0);
    }
  }

  lemma OverwriteWfBut(s: State, cfg: Config, key: string, meta: Meta)
    requires Wf(s) && Has(s.entries, key)
    ensures var es := Update(s.entries, cfg, key, meta);
            && WfBut(s.(entries := es), key) && |es| == |s.entries|
            && Has(es, key) && es[IndexOf(es, key)] == Entry(key, meta)
  {
    var i := IndexOf(s.entries, key);
    var u := s.entries[i := Entry(key, meta)];
    UpdatedKeys(s.entries, i, Entry(key, meta));
    HasIndex(u, key, i);
    FrontKeys(u, i);
    if cfg.strategy.Lru? {
      HasIndex(MoveToFront(u, i), key, 0);
    }
  }

  lemma EvictOneShrinks(s: State, strategy: Strategy)
    requires Wf(s)
    ensures Bytes(EvictOne(s, strategy).entries) <= Bytes(s.entries)
    ensures forall k :: Has(EvictOne(s, strategy).entries, k) ==> Has(s.entries, k)
  {
    if s.entries != [] {
      TargetPresent(s, strategy);
      BytesRemoved(s.entries, IndexOf(s.entries, Target(s, strategy)));
      DropWf(s, Target(s, strategy));
    }
  }

  lemma PrependKeys(s: State, key: string, meta: Meta)
    requires Wf(s) && !Has(s.entries, key)
    ensures WfBut(s.(entries := [Entry(key, meta)] + s.entries, order := s.order + [key]), key)
  {
    var es := [Entry(key, meta)] + s.entries;
    assert Keys(es) == [key] + Keys(s.entries);
    forall k ensures k in s.order + [key] <==> Has(es, k) {
      if Has(s.entries, k) {
        var i :| 0 <= i < |s.entries| && s.entries[i].key == k;
        assert es[i + 1] == s.entries[i];
      }
      assert es[0].key == key;
    }
    forall i | 0 <= i < |s.entries| ensures Keys(s.entries)[i] != key {
      assert s.entries[i].key == Keys(s.entries)[i];
    }
  }

  /** What the index lists under a tag. */
  function Listed(index: map<string, set<string>>, tag: string): set<string> {
    if tag in index then index[tag] else {}
  }

  lemma {:induction false} TagsAdded(index: map<string, set<string>>, tags: seq<string>, key: string)
    ensures forall t :: t in AddTags(index, tags, key) <==> t in index || t in tags
    ensures forall t :: Listed(AddTags(index, tags, key), t) == Listed(index, t) + if t in tags then {key} else {}
  {
    if tags != [] {
      var front, last := tags[..|tags| - 1], tags[|tags| - 1];
      TagsAdded(index, front, key);
      assert tags == front + [last];
    }
  }

  lemma SetWf(s: State, cfg: Config, key: string, value: string, opts: SetOptions, now: int)
    requires Wf(s)
    ensures Wf(Set(s, cfg, key, value, opts, now))
  {
    EvictWf(s, cfg, |value|);
    var meta := NewMeta(cfg, value, opts, now);
    var room := MakeRoom(s, cfg, |value|);
    InsertWfBut(room, cfg, key, meta);
    var t, r := Insert(room, cfg, key, meta), Set(s, cfg, key, value, opts, now);
    forall i | 0 <= i < |r.entries| ensures Covered(r.entries[i], r.tagIndex) {
      if r.entries[i].key == key {
        HasIndex(t.entries, key, i);
      }
      CoveredGrows(t.entries[i], t.tagIndex, meta.tags, key);
    }
  }

  lemma CoveredGrows(e: Entry, index: map<string, set<string>>, tags: seq<string>, key: string)
    ensures Covered(e, index) ==> Covered(e, AddTags(index, tags, key))
    ensures e.key == key && e.meta.tags == tags ==> Covered(e, AddTags(index, tags, key))
  {
    TagsAdded(index, tags, key);
    forall t | t in AddTags(index, tags, key)
      ensures AddTags(index, tags, key)[t] == Listed(AddTags(index, tags, key), t)
    {
    }
  }

  lemma DeleteWf(s: State, key: string)
    requires Wf(s)
    ensures Wf(Delete(s, key))
  {
    if Has(s.entries, key) {
      DropWf(s, key);
    }
  }

  // ---- removing many keys ----

  function Exclude(es: seq<Entry>, ks: set<string>): seq<Entry> {
    if es == [] then [] else (if es[0].key in ks then [] else [es[0]]) + Exclude(es[1..], ks)
  }

  function ExcludeKeys(order: seq<string>, ks: set<string>): seq<string> {
    if order == [] then [] else (if order[0] in ks then [] else [order[0]]) + ExcludeKeys(order[1..], ks)
  }

  /** The keys of `ks` whose entry carries the tag. */
  function Carriers(es: seq<Entry>, ks: set<string>, tag: string): set<string> {
    set k | k in ks && Has(es, k) && tag in Find(es, k).tags
  }

  /** `delete` of every key of a set, in whatever order. */
  function DropAll(s: State, ks: set<string>): State {
    State(Exclude(s.entries, ks), ExcludeKeys(s.order, ks),
          map t | t in s.tagIndex :: s.tagIndex[t] - Carriers(s.entries, ks, t), s.freq)
  }

  function InvalidateTag(s: State, tag: string): State {
    if tag !in s.tagIndex then s
    else
      var dropped := DropAll(s, s.tagIndex[tag]);
      dropped.(tagIndex := dropped.tagIndex - {tag})
  }

  function KeysIn(es: seq<Entry>, namespace: string): set<string> {
    set i | 0 <= i < |es| && es[i].meta.namespace == namespace :: es[i].key
  }

  /** Without a namespace, or with an empty one, everything goes. */
  function Clear(s: State, namespace: Option<string>): State {
    if namespace.None? || namespace.value == "" then EMPTY else DropAll(s, KeysIn(s.entries, namespace.value))
  }

  function ExpiredKeys(es: seq<Entry>, now: int): set<string> {
    set i | 0 <= i < |es| && Expired(es[i].meta, now) :: es[i].key
  }

  /** The timer's sweep leaves the tag index as it is. */
  function Cleanup(s: State, now: int): State {
    Sweep(s, ExpiredKeys(s.entries, now))
  }

  function Sweep(s: State, ks: set<string>): State {
    State(Exclude(s.entries, ks), ExcludeKeys(s.order, ks), s.tagIndex, s.freq - ks)
  }

  lemma {:induction false} WithoutStep(es: seq<Entry>, key: string)
    requires es != []
    ensures Without(es, key) == if es[0].key == key then es[1..] else [es[0]] + Without(es[1..], key)
  {
    if es[0].key == key {
      assert Has(es, key);
    } else if Has(es[1..], key) {
      var i := IndexOf(es[1..], key);
      assert es[i + 1].key == key;
      assert RemoveAt(es, i + 1) == [es[0]] + RemoveAt(es[1..], i);
    } else {
      assert !Has(es, key) by {
        forall i | 0 <= i < |es| ensures es[i].key != key {
          if i > 0 {
            assert es[1..][i - 1] == es[i];
          }
        }
      }
      assert es == [es[0]] + es[1..];
    }
  }

  lemma NoDupTail(es: seq<Entry>)
    requires NoDup(Keys(es)) && es != []
    ensures NoDup(Keys(es[1..])) && !Has(es[1..], es[0].key)
  {
    assert Keys(es[1..]) == Keys(es)[1..];
    forall i | 0 <= i < |es[1..]| ensures es[1..][i].key != es[0].key {
      assert Keys(es)[i + 1] != Keys(es)[0];
    }
  }

  lemma {:induction false} ExcludeHas(es: seq<Entry>, ks: set<string>)
    requires NoDup(Keys(es))
    ensures forall k :: Has(Exclude(es, ks), k) <==> Has(es, k) && k !in ks
    ensures forall i | 0 <= i < |Exclude(es, ks)| :: Exclude(es, ks)[i] in es
    ensures NoDup(Keys(Exclude(es, ks)))
  {
    if es != [] {
      NoDupTail(es);
      ExcludeHas(es[1..], ks);
      var rest := Exclude(es[1..], ks);
      forall k ensures Has(es, k) <==> es[0].key == k || Has(es[1..], k) { HasStep(es, k); }
      if es[0].key in ks {
        assert Exclude(es, ks) == rest;
      } else {
        var r := [es[0]] + rest;
        assert r[1..] == rest;
        forall k ensures Has(r, k) <==> es[0].key == k || Has(rest, k) { HasStep(r, k); }
        assert Keys(r) == [es[0].key] + Keys(rest);
        forall i | 0 <= i < |rest| ensures Keys(rest)[i] != es[0].key {
          assert rest[i].key == Keys(rest)[i];
        }
      }
    }
  }

  lemma HasStep(es: seq<Entry>, k: string)
    requires es != []
    ensures Has(es, k) <==> es[0].key == k || Has(es[1..], k)
  {
    if Has(es, k) {
      var i :| 0 <= i < |es| && es[i].key == k;
      if i > 0 {
        assert es[1..][i - 1] == es[i];
      }
    }
    if Has(es[1..], k) {
      var i :| 0 <= i < |es[1..]| && es[1..][i].key == k;
      assert es[i + 1].key == k;
    }
  }

  lemma {:induction false} ExcludeOneMore(es: seq<Entry>, ks: set<string>, key: string)
    requires NoDup(Keys(es))
    ensures Without(Exclude(es, ks), key) == Exclude(es, ks + {key})
  {
    if es != [] {
      NoDupTail(es);
      var rest := Exclude(es[1..], ks);
      ExcludeOneMore(es[1..], ks, key);
      if es[0].key in ks {
        assert Exclude(es, ks) == rest && Exclude(es, ks + {key}) == Exclude(es[1..], ks + {key});
      } else {
        assert ([es[0]] + rest)[1..] == rest;
        WithoutStep([es[0]] + rest, key);
        if es[0].key == key {
          ExcludeHas(es[1..], ks);
          assert !Has(rest, key);
        }
      }
    }
  }

  lemma DropStep(order: seq<string>, key: string)
    requires order != []
    ensures DropKey(order, key) == if order[0] == key then order[1..] else [order[0]] + DropKey(order[1..], key)
  {
    if order[0] != key {
      if key in order[1..] {
        var i := Position(order[1..], key);
        assert RemoveAt(order, i + 1) == [order[0]] + RemoveAt(order[1..], i);
      } else {
        assert order == [order[0]] + order[1..];
      }
    }
  }

  lemma {:induction false} ExcludedKeys(order: seq<string>, ks: set<string>)
    requires NoDup(order)
    ensures forall k :: k in ExcludeKeys(order, ks) <==> k in order && k !in ks
    ensures NoDup(ExcludeKeys(order, ks))
  {
    if order != [] {
      ExcludedKeys(order[1..], ks);
    }
  }

  lemma {:induction false} ExcludeKeysOneMore(order: seq<string>, ks: set<string>, key: string)
    requires NoDup(order)
    ensures DropKey(ExcludeKeys(order, ks), key) == ExcludeKeys(order, ks + {key})
  {
    if order != [] {
      var rest := ExcludeKeys(order[1..], ks);
      ExcludeKeysOneMore(order[1..], ks, key);
      if order[0] in ks {
        assert ExcludeKeys(order, ks) == rest && ExcludeKeys(order, ks + {key}) == ExcludeKeys(order[1..], ks + {key});
      } else {
        assert ([order[0]] + rest)[1..] == rest;
        DropStep([order[0]] + rest, key);
        if order[0] == key {
          ExcludedKeys(order[1..], ks);
        }
      }
    }
  }

  lemma {:induction false} ExcludeNone(es: seq<Entry>)
    ensures Exclude(es, {}) == es
  {
    if es != [] {
      ExcludeNone(es[1..]);
    }
  }

  lemma {:induction false} ExcludeNoKey(order: seq<string>)
    ensures ExcludeKeys(order, {}) == order
  {
    if order != [] {
      ExcludeNoKey(order[1..]);
    }
  }

  lemma FindExcluded(es: seq<Entry>, ks: set<string>, key: string)
    requires NoDup(Keys(es)) && Has(Exclude(es, ks), key)
    ensures Has(es, key) && Find(Exclude(es, ks), key) == Find(es, key)
  {
    ExcludeHas(es, ks);
    var i := IndexOf(Exclude(es, ks), key);
    assert Exclude(es, ks)[i] in es;
    var j :| 0 <= j < |es| && es[j] == Exclude(es, ks)[i];
    HasIndex(es, key, j);
  }

  /** One more `delete` after those of `ks`. */
  lemma DropAllStep(s: State, ks: set<string>, key: string)
    requires Wf(s)
    ensures Delete(DropAll(s, ks), key) == DropAll(s, ks + {key})
  {
    ExcludeHas(s.entries, ks);
    ExcludeOneMore(s.entries, ks, key);
    ExcludeKeysOneMore(s.order, ks, key);
    ExcludedKeys(s.order, ks);
    var before := DropAll(s, ks);
    IndexStep(s, ks, key);
    if !Has(before.entries, key) {
      assert Without(before.entries, key) == before.entries;
      assert key !in before.order && DropKey(before.order, key) == before.order;
    }
  }

  lemma IndexStep(s: State, ks: set<string>, key: string)
    requires Wf(s)
    ensures Delete(DropAll(s, ks), key).tagIndex == DropAll(s, ks + {key}).tagIndex
  {
    var before, after := DropAll(s, ks), DropAll(s, ks + {key});
    ExcludeHas(s.entries, ks);
    if Has(before.entries, key) {
      FindExcluded(s.entries, ks, key);
      forall t | t in s.tagIndex ensures Delete(before, key).tagIndex[t] == after.tagIndex[t] {
        CarriersStep(s.entries, ks, key, t);
      }
    } else {
      forall t | t in s.tagIndex ensures Carriers(s.entries, ks, t) == Carriers(s.entries, ks + {key}, t) {
      }
    }
  }

  lemma CarriersStep(es: seq<Entry>, ks: set<string>, key: string, tag: string)
    requires Has(es, key)
    ensures Carriers(es, ks + {key}, tag) == Carriers(es, ks, tag) + if tag in Find(es, key).tags then {key} else {}
  {
  }

  lemma DropNone(s: State)
    ensures DropAll(s, {}) == s
  {
    ExcludeNone(s.entries);
    ExcludeNoKey(s.order);
    forall t | t in s.tagIndex ensures DropAll(s, {}).tagIndex[t] == s.tagIndex[t] {
      assert Carriers(s.entries, {}, t) == {};
    }
  }

  lemma {:induction false} DropAllWf(s: State, ks: set<string>)
    requires Wf(s)
    ensures Wf(DropAll(s, ks)) && |DropAll(s, ks).entries| <= |s.entries|
  {
    if ks == {} {
      DropNone(s);
    } else {
      var k :| k in ks;
      DropAllWf(s, ks - {k});
      DropAllStep(s, ks - {k}, k);
      assert ks - {k} + {k} == ks;
      DeleteWf(DropAll(s, ks - {k}), k);
      if Has(DropAll(s, ks - {k}).entries, k) {
        DropWf(DropAll(s, ks - {k}), k);
      }
    }
  }

  lemma InvalidateTagWf(s: State, tag: string)
    requires Wf(s)
    ensures Wf(InvalidateTag(s, tag))
  {
    if tag in s.tagIndex {
      var d, r := DropAll(s, s.tagIndex[tag]), InvalidateTag(s, tag);
      DropAllWf(s, s.tagIndex[tag]);
      ExcludeHas(s.entries, s.tagIndex[tag]);
      forall i | 0 <= i < |r.entries| ensures Covered(r.entries[i], r.tagIndex) {
        assert Covered(d.entries[i], d.tagIndex);
        NotCarried(s, tag, r.entries[i]);
      }
    }
  }

  lemma NotCarried(s: State, tag: string, e: Entry)
    requires Wf(s) && e in Exclude(s.entries, if tag in s.tagIndex then s.tagIndex[tag] else {})
    ensures tag !in e.meta.tags
  {
    var ks := if tag in s.tagIndex then s.tagIndex[tag] else {};
    ExcludeHas(s.entries, ks);
    var i :| 0 <= i < |Exclude(s.entries, ks)| && Exclude(s.entries, ks)[i] == e;
    assert Has(Exclude(s.entries, ks), e.key);
    assert e in s.entries;
    var j :| 0 <= j < |s.entries| && s.entries[j] == e;
    assert Covered(s.entries[j], s.tagIndex);
  }

  lemma SweepWf(s: State, ks: set<string>)
    requires Wf(s)
    ensures Wf(Sweep(s, ks)) && Bytes(Sweep(s, ks).entries) <= Bytes(s.entries)
    ensures |Sweep(s, ks).entries| <= |s.entries|
  {
    ExcludeHas(s.entries, ks);
    ExcludedKeys(s.order, ks);
    DropAllWf(s, ks);
    ExcludeBytes(s.entries, ks);
    forall i | 0 <= i < |Sweep(s, ks).entries| ensures Covered(Sweep(s, ks).entries[i], s.tagIndex) {
      assert Sweep(s, ks).entries[i] in s.entries;
    }
  }

  lemma {:induction false} ExcludeBytes(es: seq<Entry>, ks: set<string>)
    ensures Bytes(Exclude(es, ks)) <= Bytes(es)
  {
    if es != [] {
      ExcludeBytes(es[1..], ks);
      if es[0].key !in ks {
        assert ([es[0]] + Exclude(es[1..], ks))[1..] == Exclude(es[1..], ks);
      } else {
        assert Exclude(es, ks) == Exclude(es[1..], ks);
      }
    }
  }

  lemma SweepNone(s: State)
    ensures Sweep(s, {}) == s
  {
    ExcludeNone(s.entries);
    ExcludeNoKey(s.order);
  }

  /** One more expired key. */
  lemma SweepOneMore(s: State, ks: set<string>, key: string)
    requires Wf(s)
    ensures Sweep(Sweep(s, ks), {key}) == Sweep(s, ks + {key})
  {
    SweepWf(s, ks);
    var t := Sweep(s, ks);
    ExcludeNone(t.entries);
    ExcludeNoKey(t.order);
    ExcludeOneMore(t.entries, {}, key);
    ExcludeKeysOneMore(t.order, {}, key);
    assert {} + {key} == {key};
    ExcludeOneMore(s.entries, ks, key);
    ExcludeKeysOneMore(s.order, ks, key);
  }

  /** Sweeping one key is taking its entry out without touching the tag index. */
  lemma SweepOne(s: State, key: string)
    requires Wf(s)
    ensures Wf(Sweep(s, {key}))
    ensures Sweep(s, {key}) == State(Without(s.entries, key), DropKey(s.order, key), s.tagIndex, s.freq - {key})
  {
    SweepWf(s, {key});
    ExcludeNone(s.entries);
    ExcludeNoKey(s.order);
    ExcludeOneMore(s.entries, {}, key);
    ExcludeKeysOneMore(s.order, {}, key);
    assert {} + {key} == {key};
  }

  /** A key that is not yet swept still has its entry. */
  lemma SweptEntry(s: State, ks: set<string>, key: string)
    requires Wf(s) && key in s.order && key !in ks
    ensures Has(s.entries, key) && Has(Sweep(s, ks).entries, key)
    ensures Find(Sweep(s, ks).entries, key) == Find(s.entries, key)
  {
    ExcludeHas(s.entries, ks);
    FindExcluded(s.entries, ks, key);
  }

  lemma ExpiredAre(s: State, now: int)
    requires Wf(s)
    ensures ExpiredKeys(s.entries, now) == set k | k in s.order && Has(s.entries, k) && Expired(Find(s.entries, k), now)
  {
    var es := s.entries;
    forall k ensures k in ExpiredKeys(es, now) <==> k in s.order && Has(es, k) && Expired(Find(es, k), now) {
      if k in ExpiredKeys(es, now) {
        var i :| 0 <= i < |es| && Expired(es[i].meta, now) && es[i].key == k;
        HasIndex(es, k, i);
      }
      if Has(es, k) && Expired(Find(es, k), now) {
        assert Expired(es[IndexOf(es, k)].meta, now);
      }
    }
  }

  lemma DropOne(s: State, key: string)
    requires Wf(s)
    ensures |Delete(s, key).entries| == |s.entries| - if Has(s.entries, key) then 1 else 0
  {
    if Has(s.entries, key) {
      DropWf(s, key);
    }
  }

  // ---- runs ----

  datatype Op =
    | DoGet(key: string)
    | DoSet(key: string, value: string, opts: SetOptions)
    | DoDelete(key: string)
    | DoClear(namespace: Option<string>)
    | DoInvalidate(tag: string)
    | DoCleanup

  /** An operation at a moment of the clock. */
  datatype Event = Event(op: Op, now: int)

  /** The event is not a read of an expired entry, the one operation that breaks the structure. */
  predicate Fresh(s: State, e: Event) {
    e.op.DoGet? && Has(s.entries, e.op.key) ==> !Expired(Find(s.entries, e.op.key), e.now)
  }

  function Step(s: State, cfg: Config, e: Event): State
    requires Wf(s) && Fresh(s, e)
  {
    match e.op
    case DoGet(key) => Get(s, cfg, key, e.now)
    case DoSet(key, value, opts) => Set(s, cfg, key, value, opts, e.now)
    case DoDelete(key) => Delete(s, key)
    case DoClear(namespace) => Clear(s, namespace)
    case DoInvalidate(tag) => InvalidateTag(s, tag)
    case DoCleanup => Cleanup(s, e.now)
  }

  lemma ClearWf(s: State, namespace: Option<string>)
    requires Wf(s)
    ensures Wf(Clear(s, namespace))
  {
    if namespace.Some? {
      DropAllWf(s, KeysIn(s.entries, namespace.value));
    }
  }

  lemma StepWf(s: State, cfg: Config, e: Event)
    requires Wf(s) && Fresh(s, e)
    ensures Wf(Step(s, cfg, e))
  {
    hide Wf, Get, Set, Delete, Clear, InvalidateTag, Sweep, ExpiredKeys;
    match e.op
    case DoGet(key) => GetWf(s, cfg, key, e.now);
    case DoSet(key, value, opts) => SetWf(s, cfg, key, value, opts, e.now);
    case DoDelete(key) => DeleteWf(s, key);
    case DoClear(namespace) => ClearWf(s, namespace);
    case DoInvalidate(tag) => InvalidateTagWf(s, tag);
    case DoCleanup => SweepWf(s, ExpiredKeys(s.entries, e.now));
  }

  /** The run never reads an expired entry. */
  predicate FreshRun(cfg: Config, events: seq<Event>)
    decreases |events|, 0
  {
    events == [] || (FreshRun(cfg, events[..|events| - 1]) &&
                     Fresh(Run(cfg, events[..|events| - 1]), events[|events| - 1]))
  }

  /** The state after a run from the empty cache. */
  function Run(cfg: Config, events: seq<Event>): (s: State)
    requires FreshRun(cfg, events)
    ensures Wf(s)
    decreases |events|, 1
  {
    if events == [] then EMPTY
    else
      var before := Run(cfg, events[..|events| - 1]);
      StepWf(before, cfg, events[|events| - 1]);
      Step(before, cfg, events[|events| - 1])
  }

  lemma FreshPrefix(cfg: Config, events: seq<Event>, i: nat)
    requires FreshRun(cfg, events) && i <= |events|
    ensures FreshRun(cfg, events[..i])
    decreases |events|
  {
    if i == |events| {
      assert events[..i] == events;
    } else {
      FreshPrefix(cfg, events[..|events| - 1], i);
      assert events[..|events| - 1][..i] == events[..i];
    }
  }

  // ---- bounds ----

  predicate Bounded(s: State, cfg: Config) {
    |s.entries| <= (if cfg.maxSize == 0 then 1 else cfg.maxSize) && Bytes(s.entries) <= cfg.maxMemoryBytes
  }

  /** A `set` keeps the bounds exactly when the value alone fits in memory. */
  lemma SetBounded(s: State, cfg: Config, key: string, value: string, opts: SetOptions, now: int)
    requires Wf(s) && Bounded(s, cfg)
    ensures Bounded(Set(s, cfg, key, value, opts, now), cfg) <==> |value| <= cfg.maxMemoryBytes
  {
    EvictWf(s, cfg, |value|);
    var meta := NewMeta(cfg, value, opts, now);
    var room := MakeRoom(s, cfg, |value|);
    InsertWfBut(room, cfg, key, meta);
    var t := Insert(room, cfg, key, meta);
    BytesRemoved(t.entries, IndexOf(t.entries, key));
    if room.entries == [] {
      assert Bytes(room.entries) == 0;
    }
  }

  lemma RemovalBounded(s: State, cfg: Config, key: string, ks: set<string>)
    requires Wf(s) && Bounded(s, cfg)
    ensures Bounded(Delete(s, key), cfg) && Bounded(DropAll(s, ks), cfg) && Bounded(Sweep(s, ks), cfg)
  {
    if Has(s.entries, key) {
      BytesRemoved(s.entries, IndexOf(s.entries, key));
      DropWf(s, key);
    }
    DropAllWf(s, ks);
    SweepWf(s, ks);
  }

  predicate FitsAll(cfg: Config, events: seq<Event>) {
    forall i | 0 <= i < |events| && events[i].op.DoSet? :: |events[i].op.value| <= cfg.maxMemoryBytes
  }

  /** In every run whose values each fit in memory, under every strategy, the cache never holds
      more than `maxSize` entries (one, if `maxSize` is 0) nor more than `maxMemoryBytes`. */
  lemma {:induction false} RunBounded(cfg: Config, events: seq<Event>)
    requires FreshRun(cfg, events) && FitsAll(cfg, events)
    ensures Bounded(Run(cfg, events), cfg)
  {
    if events != [] {
      var front, e := events[..|events| - 1], events[|events| - 1];
      RunBounded(cfg, front);
      var s := Run(cfg, front);
      match e.op {
        case DoGet(key) => GetWf(s, cfg, key, e.now);
        case DoSet(key, value, opts) => SetBounded(s, cfg, key, value, opts, e.now);
        case DoDelete(key) => RemovalBounded(s, cfg, key, {});
        case DoClear(namespace) =>
          if namespace.Some? { RemovalBounded(s, cfg, "", KeysIn(s.entries, namespace.value)); }
        case DoInvalidate(tag) =>
          if tag in s.tagIndex {
            RemovalBounded(s, cfg, "", s.tagIndex[tag]);
          }
        case DoCleanup => RemovalBounded(s, cfg, "", ExpiredKeys(s.entries, e.now));
      }
    }
  }

  // ---- tags ----

  /** After any run, invalidating a tag leaves no entry that carries it, and leaves every entry
      not indexed under it in place, in order and unchanged. */
  lemma TagInvalidationComplete(cfg: Config, events: seq<Event>, tag: string)
    requires FreshRun(cfg, events)
    ensures var s := Run(cfg, events);
            var r := InvalidateTag(s, tag);
            && (forall e | e in r.entries :: tag !in e.meta.tags)
            && r.entries == Exclude(s.entries, if tag in s.tagIndex then s.tagIndex[tag] else {})
            && (forall e | e in s.entries && tag in e.meta.tags :: !Has(r.entries, e.key))
  {
    var s := Run(cfg, events);
    var ks := if tag in s.tagIndex then s.tagIndex[tag] else {};
    ExcludeNone(s.entries);
    ExcludeHas(s.entries, ks);
    forall e | e in Exclude(s.entries, ks) ensures tag !in e.meta.tags {
      NotCarried(s, tag, e);
    }
    forall e | e in s.entries && tag in e.meta.tags ensures !Has(Exclude(s.entries, ks), e.key) {
      var i :| 0 <= i < |s.entries| && s.entries[i] == e;
      assert Covered(s.entries[i], s.tagIndex);
    }
  }
}
