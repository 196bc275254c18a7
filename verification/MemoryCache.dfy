/** The memory cache as objects: a doubly linked list and a key map over shared nodes, updated in
    place. Every method is proved to do to the heap what module CacheSpec does to the state. */
module MemoryCaches {
  import opened Wrappers
  import opened CacheSpec

  class ListNode {
    const key: string
    var meta: Meta
    var prev: ListNode?
    var next: ListNode?

    constructor (key: string, meta: Meta)
      ensures this.key == key && this.meta == meta && prev == null && next == null
    {
      this.key := key;
      this.meta := meta;
      prev := null;
      next := null;
    }
  }

  /** `nodes` is the list from head to tail: no node twice, every link matched by its inverse. */
  ghost predicate Chain(nodes: seq<ListNode>, head: ListNode?, tail: ListNode?)
    reads nodes
  {
    && (forall i, j | 0 <= i < j < |nodes| :: nodes[i] != nodes[j])
    && head == (if nodes == [] then null else nodes[0])
    && tail == (if nodes == [] then null else nodes[|nodes| - 1])
    && (forall i {:trigger nodes[i].prev} | 0 <= i < |nodes| :: nodes[i].prev == if i == 0 then null else nodes[i - 1])
    && (forall i {:trigger nodes[i].next} | 0 <= i < |nodes| :: nodes[i].next == if i == |nodes| - 1 then null
        else nodes[i + 1])
  }

  ghost function EntriesOf(nodes: seq<ListNode>): seq<Entry>
    reads nodes
  {
    seq(|nodes|, i requires 0 <= i < |nodes| reads nodes => Entry(nodes[i].key, nodes[i].meta))
  }

  /** The key map holds exactly the nodes of the list, each under its own key. */
  ghost predicate MapOf(map_: map<string, ListNode>, nodes: seq<ListNode>) {
    && (forall k | k in map_ :: map_[k] in nodes && map_[k].key == k)
    && (forall n | n in nodes :: n.key in map_ && map_[n.key] == n)
  }

  lemma UntagStep(index: map<string, set<string>>, tags: seq<string>, i: nat, key: string)
    requires i < |tags|
    ensures var before := Untag(index, tags[..i], key);
            Untag(index, tags[..i + 1], key) ==
            if tags[i] in before then before[tags[i] := before[tags[i]] - {key}] else before
    ensures Untag(index, [], key) == index
  {
    var before, after := Untag(index, tags[..i], key), Untag(index, tags[..i + 1], key);
    assert tags[..i + 1] == tags[..i] + [tags[i]];
    forall t | t in index
      ensures after[t] == if t == tags[i] then before[t] - {key} else before[t]
    {
      assert t in tags[..i + 1] <==> t in tags[..i] || t == tags[i];
    }
  }

  lemma MapHas(map_: map<string, ListNode>, ns: seq<ListNode>, key: string)
    requires MapOf(map_, ns)
    ensures key in map_ <==> Has(EntriesOf(ns), key)
  {
    if key in map_ {
      var i :| 0 <= i < |ns| && ns[i] == map_[key];
      assert EntriesOf(ns)[i].key == key;
    }
    if Has(EntriesOf(ns), key) {
      var i :| 0 <= i < |EntriesOf(ns)| && EntriesOf(ns)[i].key == key;
      assert ns[i] in ns;
    }
  }

  /** Once no listed key is left to visit, all keys that were listed at the start have been. */
  lemma AllVisited(s: State, visited: set<string>, tag: string)
    requires tag in s.tagIndex
    requires var index := DropAll(s, visited).tagIndex; tag !in index || index[tag] - visited == {}
    ensures s.tagIndex[tag] <= visited
  {
    var index := DropAll(s, visited).tagIndex;
    assert tag in index && index[tag] == s.tagIndex[tag] - Carriers(s.entries, visited, tag);
    forall k | k in s.tagIndex[tag] ensures k in visited {
      assert k !in index[tag] - visited;
    }
  }

  lemma LinkedMap(m: map<string, ListNode>, ns: seq<ListNode>, node: ListNode)
    requires MapOf(m, ns) && node.key !in m
    ensures MapOf(m[node.key := node], [node] + ns)
  {
    var m', ns' := m[node.key := node], [node] + ns;
    forall k | k in m' ensures m'[k] in ns' && m'[k].key == k {
      if k != node.key {
        assert m[k] in ns;
      }
    }
  }

  lemma DetachedMap(map_: map<string, ListNode>, ns: seq<ListNode>, es: seq<Entry>, i: nat)
    requires MapOf(map_, ns) && i < |ns| && |es| == |ns| && NoDup(Keys(es))
    requires forall k | 0 <= k < |ns| :: es[k].key == ns[k].key
    ensures MapOf(map_ - {ns[i].key}, RemoveAt(ns, i))
  {
    var m, r := map_ - {ns[i].key}, RemoveAt(ns, i);
    forall k | k in m ensures m[k] in r && m[k].key == k {
      var j :| 0 <= j < |ns| && ns[j] == map_[k];
      assert r[if j < i then j else j - 1] == ns[j];
    }
    forall n | n in r ensures n.key in m && m[n.key] == n {
      var a :| 0 <= a < |r| && r[a] == n;
      var j := if a < i then a else a + 1;
      assert n == ns[j] && Keys(es)[j] != Keys(es)[i];
    }
  }

  lemma DetachedFacts(m: map<string, ListNode>, ns: seq<ListNode>, es: seq<Entry>, i: nat)
    requires MapOf(m, ns) && i < |ns| && |es| == |ns| && NoDup(Keys(es))
    requires forall k | 0 <= k < |ns| :: es[k].key == ns[k].key
    ensures MapOf(m - {ns[i].key}, RemoveAt(ns, i))
    ensures Has(es, ns[i].key) && Without(es, ns[i].key) == RemoveAt(es, i)
    ensures Bytes(RemoveAt(es, i)) == Bytes(es) - |es[i].meta.value|
    ensures forall n | n in RemoveAt(ns, i) :: n in ns
  {
    DetachedMap(m, ns, es, i);
    HasIndex(es, ns[i].key, i);
    BytesRemoved(es, i);
  }

  lemma SameMap(m: map<string, ListNode>, a: seq<ListNode>, b: seq<ListNode>)
    requires MapOf(m, a) && forall n :: n in b <==> n in a
    ensures MapOf(m, b)
  {
  }

  lemma NoEvents(cfg: Config, events: seq<Event>)
    ensures FreshRun(cfg, events[..0]) && Run(cfg, events[..0]) == EMPTY
  {
  }

  lemma NextEvent(cfg: Config, events: seq<Event>, i: nat)
    requires FreshRun(cfg, events) && i < |events| && FreshRun(cfg, events[..i])
    ensures FreshRun(cfg, events[..i + 1]) && Fresh(Run(cfg, events[..i]), events[i])
    ensures Run(cfg, events[..i + 1]) == Step(Run(cfg, events[..i]), cfg, events[i])
  {
    FreshPrefix(cfg, events, i + 1);
    assert events[..i + 1][..i] == events[..i];
  }

  class MemoryCache {
    const cfg: Config
    var entryMap: map<string, ListNode>
    var order: seq<string> // the iteration order of the key map; its length is the map's size
    var head: ListNode?
    var tail: ListNode?
    var totalBytes: int
    var lfuFreq: map<string, nat>
    var tagIndex: map<string, set<string>>
    ghost var nodes: seq<ListNode>

    ghost function Abs(): State
      reads this, nodes
    {
      State(EntriesOf(nodes), order, tagIndex, lfuFreq)
    }

    ghost predicate Valid()
      reads this, nodes
    {
      && Chain(nodes, head, tail) && MapOf(entryMap, nodes)
      && Wf(Abs()) && totalBytes == Bytes(EntriesOf(nodes))
    }

    constructor (cfg: Config)
      ensures Valid() && Abs() == EMPTY && this.cfg == cfg && nodes == []
    {
      this.cfg := cfg;
      entryMap, order, head, tail := map[], [], null, null;
      totalBytes, lfuFreq, tagIndex, nodes := 0, map[], map[], [];
    }

    // ---- the linked list ----

    method PushHead(node: ListNode)
      requires Chain(nodes, head, tail) && node !in nodes
      modifies this`head, this`tail, this`nodes, node`prev, node`next, nodes`prev
      ensures Chain(nodes, head, tail) && nodes == [node] + old(nodes)
    {
      node.prev := null;
      node.next := head;
      if head != null {
        head.prev := node;
      }
      head := node;
      if tail == null {
        tail := node;
      }
      nodes := [node] + nodes;
      forall k | 0 <= k < |nodes| ensures nodes[k].prev == if k == 0 then null else nodes[k - 1] {
        if k > 0 {
          assert nodes[k] == old(nodes)[k - 1];
        }
      }
      forall k | 0 <= k < |nodes| ensures nodes[k].next == if k == |nodes| - 1 then null else nodes[k + 1] {
        if k > 0 {
          assert nodes[k] == old(nodes)[k - 1] && old(nodes[k - 1].next) == nodes[k].next;
        }
      }
    }

    /** Unlinks a node; its own `prev` and `next` keep their old values. */
    method RemoveNode(node: ListNode) returns (ghost i: nat)
      requires Chain(nodes, head, tail) && node in nodes
      modifies this`head, this`tail, this`nodes, nodes`prev, nodes`next
      ensures i < |old(nodes)| && old(nodes)[i] == node && nodes == RemoveAt(old(nodes), i)
      ensures Chain(nodes, head, tail) && node !in nodes
    {
      i :| 0 <= i < |nodes| && nodes[i] == node;
      assert node.prev == if i == 0 then null else nodes[i - 1];
      assert node.next == if i == |nodes| - 1 then null else nodes[i + 1];
      assert i > 0 ==> nodes[i - 1] in nodes && nodes[i - 1] != nodes[i];
      assert i < |nodes| - 1 ==> nodes[i + 1] in nodes && nodes[i + 1] != nodes[i];
      if node.prev != null {
        node.prev.next := node.next;
      } else {
        head := node.next;
      }
      if node.next != null {
        node.next.prev := node.prev;
      } else {
        tail := node.prev;
      }
      nodes := RemoveAt(nodes, i);
      Relinked(i);
    }

    twostate lemma Relinked(i: nat)
      requires i < |old(nodes)| && nodes == RemoveAt(old(nodes), i) && old(Chain(nodes, head, tail))
      requires head == (if i == 0 then if |old(nodes)| == 1 then null else old(nodes)[1] else old(head))
      requires tail == (if i == |old(nodes)| - 1 then if i == 0 then null else old(nodes)[i - 1] else old(tail))
      requires forall k {:trigger old(nodes)[k].prev} | 0 <= k < |old(nodes)| ::
                 old(nodes)[k].prev == if k == i + 1 then if i == 0 then null else old(nodes)[i - 1]
                     else old(nodes[k].prev)
      requires forall k {:trigger old(nodes)[k].next} | 0 <= k < |old(nodes)| ::
                 old(nodes)[k].next == if k + 1 == i then if k + 2 == |old(nodes)| then null else old(nodes)[k + 2]
                     else old(nodes[k].next)
      ensures Chain(nodes, head, tail)
    {
      var ns := old(nodes);
      forall a, b | 0 <= a < b < |nodes| ensures nodes[a] != nodes[b] {
        assert ns[if a < i then a else a + 1] != ns[if b < i then b else b + 1];
      }
      forall k | 0 <= k < |nodes| ensures nodes[k].prev == if k == 0 then null else nodes[k - 1] {
        var j := if k < i then k else k + 1;
        assert nodes[k] == ns[j] && old(nodes[j].prev) == if j == 0 then null else ns[j - 1];
      }
      forall k | 0 <= k < |nodes| ensures nodes[k].next == if k == |nodes| - 1 then null else nodes[k + 1] {
        var j := if k < i then k else k + 1;
        assert nodes[k] == ns[j] && old(nodes[j].next) == if j == |ns| - 1 then null else ns[j + 1];
      }
    }

    method MoveToHead(node: ListNode) returns (ghost i: nat)
      requires Chain(nodes, head, tail) && node in nodes
      modifies this`head, this`tail, this`nodes, nodes`prev, nodes`next
      ensures i < |old(nodes)| && old(nodes)[i] == node && nodes == [node] + RemoveAt(old(nodes), i)
      ensures Chain(nodes, head, tail)
    {
      if node == head {
        i := 0;
        assert nodes == [node] + RemoveAt(nodes, 0);
        return;
      }
      i := RemoveNode(node);
      PushHead(node);
    }

    // ---- removal ----

    /** What `delete`, eviction and the sweep have in common. */
    method Detach(node: ListNode)
      requires Chain(nodes, head, tail) && MapOf(entryMap, nodes) && node in nodes
      requires NoDup(Keys(EntriesOf(nodes))) && totalBytes == Bytes(EntriesOf(nodes))
      modifies this`head, this`tail, this`nodes, this`totalBytes, this`entryMap, this`order, nodes`prev, nodes`next
      ensures Chain(nodes, head, tail) && MapOf(entryMap, nodes)
      ensures forall n | n in nodes :: n in old(nodes)
      ensures Has(old(EntriesOf(nodes)), node.key) && EntriesOf(nodes) == Without(old(EntriesOf(nodes)), node.key)
      ensures totalBytes == Bytes(EntriesOf(nodes))
      ensures order == DropKey(old(order), node.key)
      ensures entryMap == old(entryMap) - {node.key}
    {
      hide Chain, MapOf, DropKey, Without, Has, NoDup, Bytes;
      ghost var ns, es, m := nodes, EntriesOf(nodes), entryMap;
      totalBytes := totalBytes - |node.meta.value|;
      ghost var i := Unlink(node);
      entryMap := entryMap - {node.key};
      order := DropKey(order, node.key);
      DetachedFacts(m, ns, es, i);
    }

    /** `removeNode`, seen on the entries. */
    method Unlink(node: ListNode) returns (ghost i: nat)
      requires Chain(nodes, head, tail) && node in nodes
      modifies this`head, this`tail, this`nodes, nodes`prev, nodes`next
      ensures i < |old(nodes)| && old(nodes)[i] == node && nodes == RemoveAt(old(nodes), i)
      ensures Chain(nodes, head, tail)
      ensures EntriesOf(nodes) == RemoveAt(old(EntriesOf(nodes)), i)
    {
      hide Chain;
      ghost var es := EntriesOf(nodes);
      i := RemoveNode(node);
      forall k | 0 <= k < |nodes| ensures EntriesOf(nodes)[k] == RemoveAt(es, i)[k] {
        assert nodes[k] == old(nodes)[if k < i then k else k + 1];
      }
    }

    method UntagAll(tags: seq<string>, key: string)
      modifies this`tagIndex
      ensures tagIndex == Untag(old(tagIndex), tags, key)
    {
      for i := 0 to |tags|
        invariant tagIndex == Untag(old(tagIndex), tags[..i], key)
      {
        UntagStep(old(tagIndex), tags, i, key);
        if tags[i] in tagIndex {
          tagIndex := tagIndex[tags[i] := tagIndex[tags[i]] - {key}];
        }
      }
      assert tags[..|tags|] == tags;
    }

    method Delete(key: string) returns (deleted: bool)
      requires Valid()
      modifies this, nodes
      ensures Valid() && Abs() == CacheSpec.Delete(old(Abs()), key)
      ensures deleted == Has(old(Abs()).entries, key)
      ensures forall n | n in nodes :: n in old(nodes)
    {
      MapHas(entryMap, nodes, key);
      if key !in entryMap {
        return false;
      }
      NodeEntry(entryMap[key]);
      Remove(entryMap[key]);
      return true;
    }

    /** Takes one linked node out of the list, the map, the byte count and the tag index. */
    method Remove(node: ListNode)
      requires Valid() && node in nodes
      modifies this, nodes
      ensures Has(old(Abs()).entries, node.key)
      ensures Valid() && Abs() == Drop(old(Abs()), node.key) && lfuFreq == old(lfuFreq)
      ensures forall n | n in nodes :: n in old(nodes)
    {
      NodeEntry(node);
      DropWf(Abs(), node.key);
      hide DropKey, Without, Has, NoDup, Untag, IndexOf, MapOf, Chain, Wf, Bytes;
      Parts();
      ghost var before := Abs();
      Detach(node);
      UntagAll(node.meta.tags, node.key);
      assert Abs() == Drop(before, node.key);
      Whole();
    }

    lemma Parts()
      requires Valid()
      ensures Chain(nodes, head, tail) && MapOf(entryMap, nodes) && NoDup(Keys(EntriesOf(nodes))) && Wf(Abs())
      ensures totalBytes == Bytes(EntriesOf(nodes))
    {
    }

    lemma Whole()
      requires Chain(nodes, head, tail) && MapOf(entryMap, nodes) && Wf(Abs()) && totalBytes == Bytes(EntriesOf(nodes))
      ensures Valid()
    {
    }

    /** The entry that a linked node stands for. */
    lemma NodeEntry(node: ListNode)
      requires Valid() && node in nodes
      ensures node.key in entryMap && entryMap[node.key] == node
      ensures Has(Abs().entries, node.key) && Find(Abs().entries, node.key) == node.meta
      ensures IndexOf(Abs().entries, node.key) < |nodes| && nodes[IndexOf(Abs().entries, node.key)] == node
    {
      var i :| 0 <= i < |nodes| && nodes[i] == node;
      HasIndex(EntriesOf(nodes), node.key, i);
    }

    // ---- eviction ----

    method LeastUsedNode() returns (target: ListNode)
      requires Valid() && nodes != []
      ensures target in nodes && target.key == LeastUsed(order, lfuFreq)
    {
      OrderInMap();
      target := entryMap[order[0]];
      var minFreq := Count(lfuFreq, order[0]);
      for i := 1 to |order|
        invariant target in nodes && target.key == LeastUsed(order[..i], lfuFreq) &&
                  minFreq == Count(lfuFreq, target.key)
      {
        var freq := Count(lfuFreq, order[i]);
        assert order[..i + 1][..i] == order[..i];
        if freq < minFreq {
          minFreq := freq;
          target := entryMap[order[i]];
        }
      }
      assert order[..|order|] == order;
    }

    method NearestExpiringNode() returns (target: ListNode)
      requires Valid() && nodes != []
      ensures target in nodes && target.key == NearestExpiring(order, Abs().entries, nodes[|nodes| - 1].key).0
    {
      hide Valid, Abs, Wf;
      OrderInMap();
      target := tail;
      var minExpiry: Option<int> := None;
      ghost var es, last := Abs().entries, nodes[|nodes| - 1].key;
      for i := 0 to |order|
        invariant target in nodes && forall k | k in order[..i] :: Has(es, k)
        invariant (target.key, minExpiry) == NearestExpiring(order[..i], es, last)
      {
        MappedEntry(order[i]);
        var node := entryMap[order[i]];
        var exp := node.meta.expiresAt;
        assert order[..i + 1][..i] == order[..i] && order[..i + 1][i] == order[i];
        if exp > 0 && (minExpiry.None? || exp < minExpiry.value) {
          minExpiry := Some(exp);
          target := node;
        }
      }
      assert order[..|order|] == order;
    }

    /** The iteration order lists the keys of the map. */
    lemma OrderInMap()
      requires Valid()
      ensures forall k | k in order ::
                k in entryMap && entryMap[k] in nodes && entryMap[k].key == k && Has(Abs().entries, k)
      ensures nodes != [] <==> order != []
      ensures nodes != [] ==> tail == nodes[|nodes| - 1] && Abs().entries[|nodes| - 1].key == tail.key
    {
      forall k | k in order ensures k in entryMap {
        MapHas(entryMap, nodes, k);
      }
    }

    method ChooseTarget() returns (target: ListNode)
      requires Valid() && nodes != []
      ensures target in nodes && target.key == Target(Abs(), cfg.strategy)
    {
      Sizes();
      OrderInMap();
      AbsParts();
      hide Valid, Wf, Abs;
      match cfg.strategy {
        case Lfu => target := LeastUsedNode();
        case TtlOnly => target := NearestExpiringNode();
        case Fifo => target := tail;
        case Lru => target := tail;
      }
    }

    /** What validity says about sizes. */
    lemma Sizes()
      requires Valid()
      ensures Wf(Abs()) && totalBytes == Bytes(Abs().entries)
      ensures |nodes| == |order| == |Abs().entries| && (tail == null <==> nodes == [])
    {
    }

    method EvictOne()
      requires Valid() || tail == null
      modifies this, nodes
      ensures old(Valid()) ==> Valid() && Abs() == CacheSpec.EvictOne(old(Abs()), cfg.strategy)
      ensures old(tail) == null ==> unchanged(this)
      ensures forall n | n in nodes :: n in old(nodes)
    {
      hide Valid, Abs, Wf;
      if tail == null {
        if Valid() {
          Sizes();
        }
        return;
      }
      Sizes();
      var target := ChooseTarget();
      Remove(target);
      Uncount(target.key);
    }

    method Uncount(key: string)
      requires Valid()
      modifies this`lfuFreq
      ensures Valid() && Abs() == Forget(old(Abs()), key)
    {
      lfuFreq := lfuFreq - {key};
    }

    method Evict(neededBytes: nat)
      requires Valid()
      modifies this, nodes
      ensures Valid() && Abs() == CacheSpec.Evict(old(Abs()), cfg, neededBytes)
      ensures forall n | n in nodes :: n in old(nodes)
    {
      hide Valid, Abs, Wf, CacheSpec.EvictOne;
      Sizes();
      while totalBytes + neededBytes > cfg.maxMemoryBytes && |order| > 0
        invariant Valid() && Wf(Abs()) && totalBytes == Bytes(Abs().entries) && |nodes| == |order| == |Abs().entries|
        invariant forall n | n in nodes :: n in old(nodes)
        invariant Wf(old(Abs())) && CacheSpec.Evict(Abs(), cfg, neededBytes) ==
                  CacheSpec.Evict(old(Abs()), cfg, neededBytes)
        decreases |nodes|
      {
        EvictOneWf(Abs(), cfg.strategy);
        assert forall i | 0 <= i < |nodes| :: nodes[i] in old(nodes);
        EvictOne();
        Sizes();
      }
    }

    // ---- operations ----

    method Get(key: string, now: int) returns (r: Option<Meta>)
      requires Valid()
      modifies this, nodes
      ensures var live := Has(old(Abs()).entries, key) && !Expired(Find(old(Abs()).entries, key), now);
              && r == (if live then Some(Touched(Find(old(Abs()).entries, key), cfg, now)) else None)
              && (Valid() <==> live || !Has(old(Abs()).entries, key))
      ensures Valid() ==> Abs() == CacheSpec.Get(old(Abs()), cfg, key, now)
      ensures forall n | n in nodes :: n in old(nodes)
      ensures !Valid() ==> // the expired node leaves the list but stays in the map and in the byte count
                && Chain(nodes, head, tail) && EntriesOf(nodes) == Without(old(Abs()).entries, key)
                && entryMap == old(entryMap) && order == old(order) && totalBytes == old(totalBytes)
    {
      MapHas(entryMap, nodes, key);
      if key !in entryMap {
        return None;
      }
      var node := entryMap[key];
      NodeEntry(node);
      GetWf(Abs(), cfg, key, now);
      if node.meta.expiresAt > 0 && now > node.meta.expiresAt {
        r := None;
        GetExpired(node);
      } else {
        r := GetLive(node, now);
      }
    }

    method GetExpired(node: ListNode)
      requires Valid() && node in nodes
      modifies this`head, this`tail, this`nodes, nodes`prev, nodes`next
      ensures !Valid() && forall n | n in nodes :: n in old(nodes)
      ensures Chain(nodes, head, tail) && EntriesOf(nodes) == Without(old(Abs()).entries, node.key)
    {
      NodeEntry(node);
      ghost var es := EntriesOf(nodes);
      ghost var i := Unlink(node);
      HasIndex(es, node.key, i);
      RemovedKeys(es, node.key);
      assert node.key in entryMap && entryMap[node.key] == node;
      MissingKey(node.key);
    }

    lemma MissingKey(key: string)
      requires key in entryMap && !Has(EntriesOf(nodes), key)
      ensures !Valid()
    {
      if Valid() {
        MapHas(entryMap, nodes, key);
      }
    }

    method GetLive(node: ListNode, now: int) returns (r: Option<Meta>)
      requires Valid() && node in nodes
      modifies this, nodes
      ensures Has(old(Abs()).entries, node.key)
      ensures r == Some(Touched(Find(old(Abs()).entries, node.key), cfg, now))
      ensures Valid() && Abs() == CacheSpec.Get(old(Abs()), cfg, node.key, now)
      ensures forall n | n in nodes :: n in old(nodes)
    {
      NodeEntry(node);
      GetWf(Abs(), cfg, node.key, now);
      hide MapOf, Chain, Wf, Bytes, Update, Has, IndexOf, NoDup;
      Parts();
      Touch(node, Touched(node.meta, cfg, now));
      r := Some(node.meta);
      assert Abs() == CacheSpec.Get(old(Abs()), cfg, node.key, now);
      Whole();
    }

    /** Replaces the metadata of a linked node and, under LRU, moves it to the head. */
    method Touch(node: ListNode, meta: Meta)
      requires Chain(nodes, head, tail) && MapOf(entryMap, nodes) && NoDup(Keys(EntriesOf(nodes))) && node in nodes
      modifies node`meta, this`head, this`tail, this`nodes, nodes`prev, nodes`next
      ensures node.meta == meta && Has(old(EntriesOf(nodes)), node.key)
      ensures Chain(nodes, head, tail) && MapOf(entryMap, nodes) && (forall n :: n in nodes <==> n in old(nodes))
      ensures EntriesOf(nodes) == Update(old(EntriesOf(nodes)), cfg, node.key, meta)
    {
      ghost var es := EntriesOf(nodes);
      ghost var i :| 0 <= i < |nodes| && nodes[i] == node;
      HasIndex(es, node.key, i);
      hide MapOf, Chain, Wf, IndexOf, NoDup;
      node.meta := meta;
      SameChain();
      assert EntriesOf(nodes) == es[i := Entry(node.key, meta)];
      if cfg.strategy.Lru? {
        Promote(node);
      }
      SameMap(entryMap, old(nodes), nodes);
    }

    /** Metadata plays no part in the links. */
    twostate lemma SameChain()
      requires old(Chain(nodes, head, tail))
      requires nodes == old(nodes) && head == old(head) && tail == old(tail)
      requires forall n | n in nodes :: n.prev == old(n.prev) && n.next == old(n.next)
      ensures Chain(nodes, head, tail)
    {
    }

    /** A node stands at one place of the list only. */
    lemma SingleNode(node: ListNode)
      requires Chain(nodes, head, tail)
      ensures forall i, j | 0 <= i < |nodes| && 0 <= j < |nodes| && nodes[i] == node && nodes[j] == node :: i == j
    {
    }

    lemma SameMembers(a: seq<ListNode>, b: seq<ListNode>, i: nat, n: ListNode)
      requires i < |a| && b == [a[i]] + RemoveAt(a, i)
      ensures n in b <==> n in a
    {
      assert a == a[..i] + [a[i]] + a[i + 1..];
    }

    /** `moveToHead`, seen on the entries. */
    method Promote(node: ListNode)
      requires Chain(nodes, head, tail) && node in nodes
      modifies this`head, this`tail, this`nodes, nodes`prev, nodes`next
      ensures Chain(nodes, head, tail) && (forall n :: n in nodes <==> n in old(nodes))
      ensures forall i | 0 <= i < |old(nodes)| && old(nodes)[i] == node ::
                EntriesOf(nodes) == MoveToFront(old(EntriesOf(nodes)), i)
    {
      SingleNode(node);
      ghost var es := EntriesOf(nodes);
      hide Chain;
      ghost var i := MoveToHead(node);
      forall k | 0 <= k < |nodes| ensures EntriesOf(nodes)[k] == MoveToFront(es, i)[k] {
        assert nodes[k] == old(nodes)[if k == 0 then i else if k <= i then k - 1 else k];
      }
      forall n ensures n in nodes <==> n in old(nodes) {
        SameMembers(old(nodes), nodes, i, n);
      }
    }

    method Set(key: string, value: string, opts: SetOptions, now: int)
      requires Valid()
      modifies this, nodes
      ensures Valid() && Abs() == CacheSpec.Set(old(Abs()), cfg, key, value, opts, now)
      ensures forall n | n in nodes :: n in old(nodes) || fresh(n)
    {
      SetWf(Abs(), cfg, key, value, opts, now);
      hide Valid, Abs, Chain, MapOf, Wf, Insert, MakeRoom, Indexed, EntriesOf, Bytes, NewMeta;
      Sizes();
      FreeBytes(|value|);
      assert forall j | 0 <= j < |nodes| :: nodes[j] in old(nodes);
      Put(key, NewMeta(cfg, value, opts, now));
      Index(key, opts);
    }

    /** Evicts if the new value does not fit beside what is stored. */
    method FreeBytes(size: nat)
      requires Valid()
      modifies this, nodes
      ensures Valid() && Wf(old(Abs())) && Abs() == MakeRoom(old(Abs()), cfg, size)
      ensures Wf(Abs()) && forall n | n in nodes :: n in old(nodes)
    {
      hide Valid, Abs, Wf, CacheSpec.Evict;
      Sizes();
      EvictWf(Abs(), cfg, size);
      if totalBytes + size > cfg.maxMemoryBytes {
        Evict(size);
      }
    }

    method Index(key: string, opts: SetOptions)
      requires Chain(nodes, head, tail) && MapOf(entryMap, nodes) && totalBytes == Bytes(EntriesOf(nodes))
      requires Wf(Indexed(Abs(), cfg, key, opts))
      modifies this`tagIndex, this`lfuFreq
      ensures Valid() && Abs() == Indexed(old(Abs()), cfg, key, opts)
    {
      hide Chain, MapOf, Wf;
      if opts.tags.Some? {
        IndexTags(opts.tags.value, key);
      }
      if cfg.strategy.Lfu? {
        lfuFreq := lfuFreq[key := 1];
      }
      Whole();
    }

    /** Overwrites the entry in place, or makes room for one more and links a new node. */
    method Put(key: string, meta: Meta)
      requires Valid()
      modifies this, nodes
      ensures Abs() == Insert(old(Abs()), cfg, key, meta)
      ensures Chain(nodes, head, tail) && MapOf(entryMap, nodes) && totalBytes == Bytes(EntriesOf(nodes))
      ensures forall n | n in nodes :: n in old(nodes) || fresh(n)
    {
      NotMapped(key);
      if key in entryMap {
        NodeEntry(entryMap[key]);
        Overwrite(entryMap[key], meta);
      } else {
        PutNew(key, meta);
      }
    }

    method PutNew(key: string, meta: Meta)
      requires Valid() && !Has(Abs().entries, key)
      modifies this, nodes
      ensures Abs() == Insert(old(Abs()), cfg, key, meta)
      ensures Chain(nodes, head, tail) && MapOf(entryMap, nodes) && totalBytes == Bytes(EntriesOf(nodes))
      ensures forall n | n in nodes :: n in old(nodes) || fresh(n)
    {
      EvictOneShrinks(Abs(), cfg.strategy) by { Sizes(); }
      hide Valid, Abs, Wf, Chain, MapOf, Has, CacheSpec.EvictOne, EntriesOf, Bytes;
      Sizes();
      AbsParts();
      MakeSpace();
      assert forall j | 0 <= j < |nodes| :: nodes[j] in old(nodes);
      LinkNew(key, meta);
    }

    /** Evicts one entry if the map is full. */
    method MakeSpace()
      requires Valid()
      modifies this, nodes
      ensures Valid() && forall n | n in nodes :: n in old(nodes)
      ensures Wf(old(Abs())) && Abs() ==
              if |old(Abs()).order| >= cfg.maxSize then CacheSpec.EvictOne(old(Abs()), cfg.strategy) else old(Abs())
    {
      hide Valid, Abs, Wf, CacheSpec.EvictOne;
      Sizes();
      AbsParts();
      if |order| >= cfg.maxSize {
        EvictOne();
      }
    }

    method LinkNew(key: string, meta: Meta)
      requires Valid() && !Has(Abs().entries, key)
      modifies this, nodes
      ensures Abs() == old(Abs()).(entries := [Entry(key, meta)] + old(Abs()).entries,
                                   order := old(Abs()).order + [key])
      ensures Chain(nodes, head, tail) && MapOf(entryMap, nodes) && totalBytes == Bytes(EntriesOf(nodes))
      ensures forall n | n in nodes :: n in old(nodes) || fresh(n)
    {
      NotMapped(key);
      Parts();
      hide Valid, Wf, Chain, MapOf, Has, Bytes, EntriesOf;
      var node := new ListNode(key, meta);
      Link(node);
    }

    lemma NotMapped(key: string)
      requires Valid()
      ensures key !in entryMap <==> !Has(Abs().entries, key)
    {
      MapHas(entryMap, nodes, key);
    }

    method Overwrite(node: ListNode, meta: Meta)
      requires Valid() && node in nodes
      modifies this, nodes
      ensures Has(old(Abs()).entries, node.key) && Abs() == Insert(old(Abs()), cfg, node.key, meta)
      ensures Chain(nodes, head, tail) && MapOf(entryMap, nodes) && totalBytes == Bytes(EntriesOf(nodes))
      ensures forall n :: n in nodes <==> n in old(nodes)
    {
      NodeEntry(node);
      Parts();
      UpdateBytes(Abs().entries, cfg, node.key, meta);
      hide MapOf, Chain, Wf, Bytes, Update, Has, IndexOf, NoDup;
      totalBytes := totalBytes - |node.meta.value|;
      Touch(node, meta);
      totalBytes := totalBytes + |meta.value|;
    }

    method Link(node: ListNode)
      requires Chain(nodes, head, tail) && MapOf(entryMap, nodes) && totalBytes == Bytes(EntriesOf(nodes))
      requires node.key !in entryMap && node !in nodes
      modifies this`entryMap, this`order, this`head, this`tail, this`nodes, this`totalBytes
      modifies node`prev, node`next, nodes`prev
      ensures EntriesOf(nodes) == [Entry(node.key, node.meta)] + old(EntriesOf(nodes))
      ensures order == old(order) + [node.key]
      ensures Chain(nodes, head, tail) && MapOf(entryMap, nodes) && totalBytes == Bytes(EntriesOf(nodes))
      ensures nodes == [node] + old(nodes)
    {
      hide MapOf, Chain, Bytes;
      BytesPrepend(Entry(node.key, node.meta), EntriesOf(nodes));
      LinkedMap(entryMap, nodes, node);
      entryMap := entryMap[node.key := node];
      order := order + [node.key];
      Prepend(node);
      totalBytes := totalBytes + |node.meta.value|;
    }

    /** `pushHead`, seen on the entries. */
    method Prepend(node: ListNode)
      requires Chain(nodes, head, tail) && node !in nodes
      modifies this`head, this`tail, this`nodes, node`prev, node`next, nodes`prev
      ensures Chain(nodes, head, tail) && nodes == [node] + old(nodes)
      ensures EntriesOf(nodes) == [Entry(node.key, node.meta)] + old(EntriesOf(nodes))
    {
      PushHead(node);
    }

    method IndexTags(tags: seq<string>, key: string)
      modifies this`tagIndex
      ensures tagIndex == AddTags(old(tagIndex), tags, key)
    {
      for i := 0 to |tags|
        invariant tagIndex == AddTags(old(tagIndex), tags[..i], key)
      {
        var listed := if tags[i] in tagIndex then tagIndex[tags[i]] else {};
        tagIndex := tagIndex[tags[i] := listed + {key}];
        assert tags[..i + 1][..i] == tags[..i] && tags[..i + 1] != [];
      }
      assert tags[..|tags|] == tags;
    }

    /** Clearing everything restores the structure from whatever state it is in. */
    method Clear(namespace: Option<string>)
      requires namespace.Some? && namespace.value != "" ==> Valid()
      modifies this, nodes
      ensures Valid() && Abs() == CacheSpec.Clear(old(Abs()), namespace)
      ensures forall n | n in nodes :: n in old(nodes)
    {
      if namespace.None? || namespace.value == "" {
        ClearAll();
      } else {
        ClearNamespace(namespace.value);
      }
    }

    method ClearAll()
      modifies this
      ensures Valid() && Abs() == EMPTY && nodes == []
    {
      entryMap, order, head, tail := map[], [], null, null;
      lfuFreq, tagIndex, totalBytes, nodes := map[], map[], 0, [];
    }

    method ClearNamespace(namespace: string)
      requires Valid()
      modifies this, nodes
      ensures Valid() && Abs() == DropAll(old(Abs()), KeysIn(old(Abs()).entries, namespace))
      ensures forall n | n in nodes :: n in old(nodes)
    {
      ghost var s := Abs();
      OrderInMap();
      var toDelete: seq<string> := [];
      for i := 0 to |order|
        invariant forall k :: k in toDelete <==> k in order[..i] && entryMap[k].meta.namespace == namespace
      {
        assert order[..i + 1] == order[..i] + [order[i]];
        if entryMap[order[i]].meta.namespace == namespace {
          toDelete := toDelete + [order[i]];
        }
      }
      assert order[..|order|] == order;
      NamespaceKeys(toDelete, namespace);
      DeleteEach(toDelete);
    }

    lemma NamespaceKeys(ks: seq<string>, namespace: string)
      requires Valid()
      requires forall k :: k in ks <==> k in order && k in entryMap && entryMap[k].meta.namespace == namespace
      ensures (set k | k in ks) == KeysIn(Abs().entries, namespace)
    {
      var es := Abs().entries;
      forall k ensures k in ks <==> k in KeysIn(es, namespace) {
        if k in ks {
          NodeEntry(entryMap[k]);
          assert es[IndexOf(es, k)].meta.namespace == namespace;
        }
        if k in KeysIn(es, namespace) {
          var i :| 0 <= i < |es| && es[i].meta.namespace == namespace && es[i].key == k;
          NodeEntry(nodes[i]);
          assert Has(es, k);
        }
      }
    }

    method DeleteEach(ks: seq<string>)
      requires Valid()
      modifies this, nodes
      ensures Valid() && Abs() == DropAll(old(Abs()), set k | k in ks)
      ensures forall n | n in nodes :: n in old(nodes)
    {
      hide Valid, Abs, Wf;
      Sizes();
      DropNone(Abs());
      ghost var done: set<string> := {};
      for i := 0 to |ks|
        invariant Valid() && Wf(old(Abs())) && Abs() == DropAll(old(Abs()), done) && done == set k | k in ks[..i]
        invariant forall n | n in nodes :: n in old(nodes)
      {
        assert forall j | 0 <= j < |nodes| :: nodes[j] in old(nodes);
        DropAllStep(old(Abs()), done, ks[i]);
        var _ := Delete(ks[i]);
        done := done + {ks[i]};
        assert ks[..i + 1] == ks[..i] + [ks[i]];
      }
      assert ks[..|ks|] == ks;
    }

    /** Walks the live set of keys while `Delete` shrinks it. */
    method InvalidateTag(tag: string) returns (count: nat)
      requires Valid()
      modifies this, nodes
      ensures Valid() && Abs() == CacheSpec.InvalidateTag(old(Abs()), tag)
      ensures forall n | n in nodes :: n in old(nodes)
      ensures count == |old(Abs()).entries| - |Abs().entries|
    {
      if tag !in tagIndex {
        return 0;
      }
      count := DeleteListed(tag);
      UnlistTag(tag);
    }

    method UnlistTag(tag: string)
      requires Valid() && forall e | e in Abs().entries :: tag !in e.meta.tags
      modifies this`tagIndex
      ensures Valid() && Abs() == old(Abs()).(tagIndex := old(Abs()).tagIndex - {tag}) && nodes == old(nodes)
    {
      assert forall i | 0 <= i < |Abs().entries| ::
          Abs().entries[i] in Abs().entries && Covered(Abs().entries[i], tagIndex);
      tagIndex := tagIndex - {tag};
    }

    method DeleteListed(tag: string) returns (count: nat)
      requires Valid() && tag in tagIndex
      modifies this, nodes
      ensures Valid() && Abs() == DropAll(old(Abs()), old(tagIndex)[tag])
      ensures forall n | n in nodes :: n in old(nodes)
      ensures forall e | e in Abs().entries :: tag !in e.meta.tags
      ensures count == |old(Abs()).entries| - |Abs().entries|
    {
      ghost var s, listed := Abs(), tagIndex[tag];
      Sizes();
      DropNone(s);
      var visited: set<string> := {};
      count := 0;
      assert tagIndex == s.tagIndex;
      while tag in tagIndex && tagIndex[tag] - visited != {}
        invariant Valid() && Wf(s) && Abs() == DropAll(s, visited) && tagIndex == Abs().tagIndex
        invariant visited <= listed == s.tagIndex[tag] && tag in s.tagIndex
        invariant count == |s.entries| - |Abs().entries|
        invariant forall n | n in nodes :: n in old(nodes)
        decreases listed - visited
      {
        hide Valid, Abs, Wf;
        var key :| key in tagIndex[tag] - visited;
        assert key in listed;
        assert forall j | 0 <= j < |nodes| :: nodes[j] in old(nodes);
        DropAllStep(s, visited, key);
        DropOne(DropAll(s, visited), key) by { DropAllWf(s, visited); }
        var deleted := Delete(key);
        if deleted {
          count := count + 1;
        }
        visited := visited + {key};
        AbsIndex();
      }
      AllVisited(s, visited, tag);
      assert visited == listed;
      forall e | e in Abs().entries ensures tag !in e.meta.tags {
        NotCarried(s, tag, e);
      }
    }

    lemma AbsIndex()
      ensures tagIndex == Abs().tagIndex
    {
    }

    /** The timer's sweep over the map while it deletes from it. */
    method Cleanup(now: int)
      requires Valid()
      modifies this, nodes
      ensures Valid() && Abs() == CacheSpec.Cleanup(old(Abs()), now)
      ensures forall n | n in nodes :: n in old(nodes)
    {
      hide Valid, Abs, Wf, Sweep, CacheSpec.Cleanup;
      ghost var s := Abs();
      Sizes();
      AbsParts();
      var keys := order;
      ghost var swept: set<string> := {};
      SweepNone(s);
      OrderDistinct();
      for i := 0 to |keys|
        invariant Valid() && Wf(s) && keys == s.order && Abs() == Sweep(s, swept)
        invariant swept == set k | k in keys[..i] && Has(s.entries, k) && Expired(Find(s.entries, k), now)
        invariant forall n | n in nodes :: n in old(nodes)
      {
        assert keys[..i + 1] == keys[..i] + [keys[i]] && keys[i] !in keys[..i];
        assert forall j | 0 <= j < |nodes| :: nodes[j] in old(nodes);
        SweptEntry(s, swept, keys[i]);
        MappedEntry(keys[i]);
        var node := entryMap[keys[i]];
        if node.meta.expiresAt > 0 && now > node.meta.expiresAt {
          SweepOneMore(s, swept, node.key);
          SweepNode(node);
          swept := swept + {keys[i]};
        }
      }
      assert keys[..|keys|] == keys;
      CleanupIs(s, swept, now);
    }

    /** One event of a run. */
    method Perform(e: Event)
      requires Valid() && Fresh(Abs(), e)
      modifies this, nodes
      ensures Valid() && Abs() == Step(old(Abs()), cfg, e)
      ensures forall n | n in nodes :: n in old(nodes) || fresh(n)
    {
      hide Valid, Abs, Wf, CacheSpec.Get, CacheSpec.Set, CacheSpec.Delete, CacheSpec.Clear, CacheSpec.InvalidateTag,
          CacheSpec.Cleanup;
      Sizes();
      match e.op {
        case DoGet(key) => var _ := Get(key, e.now);
        case DoSet(key, value, opts) => Set(key, value, opts, e.now);
        case DoDelete(key) => var _ := Delete(key);
        case DoClear(namespace) => Clear(namespace);
        case DoInvalidate(tag) => var _ := InvalidateTag(tag);
        case DoCleanup => Cleanup(e.now);
      }
    }

    lemma AbsParts()
      ensures Abs().order == order && Abs().tagIndex == tagIndex && Abs().freq == lfuFreq
    {
    }

    lemma OrderDistinct()
      requires Valid()
      ensures NoDup(order)
    {
    }

    lemma MappedEntry(key: string)
      requires Valid() && Has(Abs().entries, key)
      ensures key in entryMap && entryMap[key] in nodes && entryMap[key].key == key
      ensures entryMap[key].meta == Find(Abs().entries, key)
    {
      MapHas(entryMap, nodes, key);
      NodeEntry(entryMap[key]);
    }

    lemma CleanupIs(s: State, swept: set<string>, now: int)
      requires Wf(s)
      requires swept == set k | k in s.order && Has(s.entries, k) && Expired(Find(s.entries, k), now)
      ensures Sweep(s, swept) == CacheSpec.Cleanup(s, now)
    {
      ExpiredAre(s, now);
    }

    method SweepNode(node: ListNode)
      requires Valid() && node in nodes
      modifies this, nodes
      ensures Valid() && Abs() == Sweep(old(Abs()), {node.key})
      ensures forall n | n in nodes :: n in old(nodes)
    {
      NodeEntry(node);
      Parts();
      ghost var s := Abs();
      SweepOne(s, node.key);
      hide MapOf, Chain, Wf, Bytes, Has, Without, DropKey, NoDup, Sweep;
      Detach(node);
      lfuFreq := lfuFreq - {node.key};
      assert Abs() == Sweep(s, {node.key});
      Whole();
    }
  }

  /** The object follows the run of the values, whatever the events. */
  method Replay(cfg: Config, events: seq<Event>) returns (cache: MemoryCache)
    requires FreshRun(cfg, events)
    ensures cache.Valid() && cache.cfg == cfg && cache.Abs() == Run(cfg, events)
  {
    hide MemoryCache.Valid, MemoryCache.Abs, FreshRun, Fresh, Step, Run;
    cache := new MemoryCache(cfg);
    NoEvents(cfg, events);
    for i := 0 to |events|
      invariant fresh(cache) && cache.Valid() && cache.cfg == cfg && forall n | n in cache.nodes :: fresh(n)
      invariant FreshRun(cfg, events[..i]) && cache.Abs() == Run(cfg, events[..i])
    {
      NextEvent(cfg, events, i);
      forall j | 0 <= j < |cache.nodes| ensures fresh(cache.nodes[j]) {
        assert cache.nodes[j] in cache.nodes;
      }
      cache.Perform(events[i]);
    }
    assert events[..|events|] == events;
  }

  /** An expired entry that is read once leaves the list but not the map, and from then on the loop
      of `evict` makes no headway: its guard holds, and evicting one entry changes nothing. */
  method ExpiredReadStalls() returns (cache: MemoryCache)
    ensures fresh(cache) && !cache.Valid()
    ensures cache.tail == null && cache.order == ["k"] && cache.totalBytes == 3 == cache.cfg.maxMemoryBytes
  {
    cache := new MemoryCache(Config(10, Lru, 1, 0, 3));
    cache.Set("k", "abc", SetOptions(None, None, None), 0);
    var s := cache.Abs();
    assert s == CacheSpec.Set(EMPTY, cache.cfg, "k", "abc", SetOptions(None, None, None), 0);
    var r := cache.Get("k", 1001);
    cache.EvictOne();
  }
}
