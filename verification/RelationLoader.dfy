/** The batched loader as it runs: one query per relation, rows grouped by key, links set before the
    linked rows are themselves completed in place. */
module RelationLoader {
  import opened Wrappers
  import opened RelationSpec

  datatype Link = LinkNil | LinkOne(row: Row) | LinkMany(rows: seq<Row>)

  /** `tree` is what the row stands for once everything beneath it is loaded. */
  class Row {
    const cols: Record
    var rels: map<string, Link>
    ghost var tree: Tree

    constructor (cols: Record, rels: map<string, Link>)
      ensures this.cols == cols && this.rels == rels && tree == Tree(cols, map[])
    {
      this.cols := cols;
      this.rels := rels;
      tree := Tree(cols, map[]);
    }
  }

  ghost function Linked(l: Link): set<Row> {
    match l
    case LinkNil => {}
    case LinkOne(r) => {r}
    case LinkMany(rs) => set r | r in rs
  }

  ghost function Children(rels: map<string, Link>): set<Row> {
    set n, r | n in rels && r in Linked(rels[n]) :: r
  }

  ghost predicate LinkShows(l: Link, b: Branch)
    reads Linked(l)
  {
    match l
    case LinkNil => b == Nil
    case LinkOne(r) => b == One(r.tree)
    case LinkMany(rs) => b.Many? && |b.trees| == |rs| && forall i | 0 <= i < |rs| :: rs[i].tree == b.trees[i]
  }

  ghost predicate RelsShow(rels: map<string, Link>, branches: map<string, Branch>)
    reads Children(rels)
  {
    rels.Keys == branches.Keys &&
    forall n | n in rels :: Linked(rels[n]) <= Children(rels) && LinkShows(rels[n], branches[n])
  }

  /** The row's own columns and links are those of the tree. */
  ghost predicate Shows(r: Row, t: Tree)
    reads r, Children(r.rels)
  {
    r.cols == t.cols && RelsShow(r.rels, t.rels)
  }

  /** A closed set of rows, each of which shows its tree: nothing in it is left to be completed. */
  ghost predicate Settled(s: set<Row>)
    reads s
  {
    forall r | r in s :: Children(r.rels) <= s && Shows(r, r.tree)
  }

  predicate Distinct(rows: seq<Row>) {
    forall i, j | 0 <= i < j < |rows| :: rows[i] != rows[j]
  }

  function Cols(rows: seq<Row>): seq<Record> {
    seq(|rows|, i requires 0 <= i < |rows| => rows[i].cols)
  }

  /** The rows with a given key, in order. */
  function Group(rows: seq<Row>, col: string, key: Value): seq<Row> {
    if rows == [] then []
    else Group(rows[..|rows| - 1], col, key) + if Key(rows[|rows| - 1].cols, col) == key then [rows[|rows| - 1]] else []
  }

  // ---- keys and groups ----

  function KeySet(keys: seq<Value>): set<Value> {
    set k | k in keys
  }

  lemma GroupStep(rows: seq<Row>, i: nat, col: string, key: Value)
    requires i < |rows|
    ensures Group(rows[..i + 1], col, key) ==
            Group(rows[..i], col, key) + if Key(rows[i].cols, col) == key then [rows[i]] else []
  {
    assert rows[..i + 1][..i] == rows[..i];
  }

  lemma {:induction false} GroupMembers(rows: seq<Row>, col: string, key: Value)
    ensures forall r | r in Group(rows, col, key) :: r in rows && Key(r.cols, col) == key
    ensures Distinct(rows) ==> Distinct(Group(rows, col, key))
  {
    if rows != [] {
      var front, last := rows[..|rows| - 1], rows[|rows| - 1];
      GroupMembers(front, col, key);
      if Distinct(rows) {
        assert last !in front;
      }
    }
  }

  /** Grouping what one query returned gives what a query for the one key would have returned. */
  lemma {:induction false} GroupIsMatching(rows: seq<Row>, recs: seq<Record>, col: string, keys: set<Value>, key: Value)
    requires Cols(rows) == Matching(recs, col, keys) && key in keys
    ensures Cols(Group(rows, col, key)) == Matching(recs, col, {key})
  {
    if recs != [] {
      var last, rest := recs[|recs| - 1], recs[..|recs| - 1];
      if Key(last, col) in keys {
        LastRow(rows, Matching(rest, col, keys), last);
        var front := rows[..|rows| - 1];
        GroupIsMatching(front, rest, col, keys, key);
        hide Key;
        ColsLast(Group(front, col, key), rows[|rows| - 1]);
      } else {
        GroupIsMatching(rows, rest, col, keys, key);
      }
    }
  }

  lemma LastRow(rows: seq<Row>, recs: seq<Record>, last: Record)
    requires Cols(rows) == recs + [last]
    ensures rows != [] && rows[|rows| - 1].cols == last && Cols(rows[..|rows| - 1]) == recs
  {
    assert Cols(rows)[|rows| - 1] == last;
    assert Cols(rows)[..|rows| - 1] == recs;
  }

  lemma ColsLast(rows: seq<Row>, row: Row)
    ensures Cols(rows + [row]) == Cols(rows) + [row.cols]
  {
  }

  method DistinctKeys(rows: seq<Row>, col: string) returns (keys: seq<Value>)
    ensures forall k :: k in keys <==> Truthy(k) && exists i | 0 <= i < |rows| :: Key(rows[i].cols, col) == k
  {
    keys := [];
    for i := 0 to |rows|
      invariant forall k :: k in keys <==> Truthy(k) && exists j | 0 <= j < i :: Key(rows[j].cols, col) == k
    {
      var k := Key(rows[i].cols, col);
      if Truthy(k) && k !in keys {
        keys := keys + [k];
      }
    }
  }

  predicate DistinctValues(keys: seq<Value>) {
    forall i, j | 0 <= i < j < |keys| :: keys[i] != keys[j]
  }

  /** Later rows replace earlier ones under the same key. */
  method LastByKey(raw: seq<Row>, col: string) returns (m: map<Value, Row>, order: seq<Value>)
    ensures forall k :: k in m <==> Group(raw, col, k) != []
    ensures forall k | k in m :: var g := Group(raw, col, k); m[k] == g[|g| - 1]
    ensures DistinctValues(order) && forall k :: k in order <==> k in m
  {
    m, order := map[], [];
    for i := 0 to |raw|
      invariant forall k :: k in m <==> Group(raw[..i], col, k) != []
      invariant forall k | k in m :: var g := Group(raw[..i], col, k); m[k] == g[|g| - 1]
      invariant DistinctValues(order) && forall k :: k in order <==> k in m
    {
      var key := Key(raw[i].cols, col);
      forall k ensures Group(raw[..i + 1], col, k) == Group(raw[..i], col, k) + if key == k then [raw[i]] else [] {
        GroupStep(raw, i, col, k);
      }
      if key !in m {
        order := order + [key];
      }
      m := m[key := raw[i]];
    }
    assert raw[..|raw|] == raw;
  }

  /** Only the first row under a key is kept. */
  method FirstByKey(raw: seq<Row>, col: string) returns (m: map<Value, Row>, order: seq<Value>)
    ensures forall k :: k in m <==> Group(raw, col, k) != []
    ensures forall k | k in m :: m[k] == Group(raw, col, k)[0]
    ensures DistinctValues(order) && forall k :: k in order <==> k in m
  {
    m, order := map[], [];
    for i := 0 to |raw|
      invariant forall k :: k in m <==> Group(raw[..i], col, k) != []
      invariant forall k | k in m :: m[k] == Group(raw[..i], col, k)[0]
      invariant DistinctValues(order) && forall k :: k in order <==> k in m
    {
      var key := Key(raw[i].cols, col);
      forall k ensures Group(raw[..i + 1], col, k) == Group(raw[..i], col, k) + if key == k then [raw[i]] else [] {
        GroupStep(raw, i, col, k);
      }
      if key !in m {
        order := order + [key];
        m := m[key := raw[i]];
      }
    }
    assert raw[..|raw|] == raw;
  }

  method GroupByKey(raw: seq<Row>, col: string) returns (m: map<Value, seq<Row>>, order: seq<Value>)
    ensures forall k :: k in m <==> Group(raw, col, k) != []
    ensures forall k | k in m :: m[k] == Group(raw, col, k)
    ensures DistinctValues(order) && forall k :: k in order <==> k in m
  {
    m, order := map[], [];
    for i := 0 to |raw|
      invariant forall k :: k in m <==> Group(raw[..i], col, k) != []
      invariant forall k | k in m :: m[k] == Group(raw[..i], col, k)
      invariant DistinctValues(order) && forall k :: k in order <==> k in m
    {
      var key := Key(raw[i].cols, col);
      forall k ensures Group(raw[..i + 1], col, k) == Group(raw[..i], col, k) + if key == k then [raw[i]] else [] {
        GroupStep(raw, i, col, k);
      }
      if key !in m {
        order := order + [key];
        m := m[key := []];
      }
      m := m[key := m[key] + [raw[i]]];
    }
    assert raw[..|raw|] == raw;
  }

  // ---- rows ----

  ghost predicate Plain(r: Row)
    reads r
  {
    r.rels == map[] && r.tree == Tree(r.cols, map[])
  }

  /** One query; every row it returns is a new object. */
  method Query(recs: seq<Record>, col: string, keys: seq<Value>) returns (raw: seq<Row>)
    ensures Cols(raw) == Matching(recs, col, KeySet(keys))
    ensures Distinct(raw) && forall r | r in raw :: fresh(r) && Plain(r)
  {
    raw := [];
    for i := 0 to |recs|
      invariant Cols(raw) == Matching(recs[..i], col, KeySet(keys))
      invariant Distinct(raw) && forall r | r in raw :: fresh(r) && Plain(r)
    {
      assert recs[..i + 1][..i] == recs[..i];
      if Key(recs[i], col) in keys {
        var row := new Row(recs[i], map[]);
        assert Cols(raw + [row]) == Cols(raw) + [row.cols];
        raw := raw + [row];
      }
    }
    assert recs[..|recs|] == recs;
  }

  /** New parents that carry the link; the old ones stay as they are. */
  method Attach(rows: seq<Row>, name: string, col: string, links: map<Value, Link>, missing: Link)
      returns (next: seq<Row>)
    ensures |next| == |rows| && forall i | 0 <= i < |rows| ::
              && fresh(next[i]) && next[i].cols == rows[i].cols
              && next[i].rels == rows[i].rels[name := LinkFor(links, Key(rows[i].cols, col), missing)]
  {
    next := [];
    for i := 0 to |rows|
      invariant |next| == i && forall j | 0 <= j < i ::
                  && fresh(next[j]) && next[j].cols == rows[j].cols
                  && next[j].rels == rows[j].rels[name := LinkFor(links, Key(rows[j].cols, col), missing)]
    {
      var row := new Row(rows[i].cols, rows[i].rels[name := LinkFor(links, Key(rows[i].cols, col), missing)]);
      next := next + [row];
    }
  }

  function LinkFor(links: map<Value, Link>, key: Value, missing: Link): Link {
    if key in links then links[key] else missing
  }

  /** Completes linked rows in place, one batch of one row at a time. */
  method LoadNested(c: Catalog, rel: Relation, list: seq<Row>, e: WithEntry, depth: nat, ghost p: set<Row>)
      returns (ghost q: set<Row>)
    requires Distinct(list) && (forall r | r in list :: Plain(r) && r !in p) && Settled(p)
    modifies list
    ensures p <= q && fresh(q - p) && Settled(q + set r | r in list)
    ensures forall i | 0 <= i < |list| :: list[i].tree == Child(c, rel, list[i].cols, e, depth)
    decreases e, 1
  {
    q := p;
    if e.nested.None? {
      PlainSettled(c, rel, list, e, depth, q);
      return;
    }
    hide Settled, Complete, Shows, Child;
    for i := 0 to |list|
      invariant p <= q && fresh(q - p) && Settled(q) && forall j | 0 <= j < |list| :: list[j] !in q
      invariant forall j | 0 <= j < i :: Complete(list[j], Child(c, rel, list[j].cols, e, depth), q)
      invariant forall j | i <= j < |list| :: Plain(list[j])
    {
      ghost var was := q;
      assert list[i] in list;
      q := LoadOne(c, rel, list[i], e, depth, q);
      forall j | 0 <= j < i ensures Complete(list[j], Child(c, rel, list[j].cols, e, depth), q) {
        StillComplete(list[j], Child(c, rel, list[j].cols, e, depth), was, q);
      }
    }
    AllComplete(c, rel, list, e, depth, q);
  }

  method LoadOne(c: Catalog, rel: Relation, row: Row, e: WithEntry, depth: nat, ghost p: set<Row>)
      returns (ghost q: set<Row>)
    requires Plain(row) && row !in p && Settled(p) && e.nested.Some?
    modifies row
    ensures p <= q && fresh(q - p) && Settled(q) && row !in q
    ensures Complete(row, Child(c, rel, row.cols, e, depth), q)
    decreases e, 0
  {
    hide Settled, Child;
    var loaded, s := Resolve(c, FindTable(c.tables, rel.target), [row], e.nested.value, depth + 1);
    q := p + s;
    BothSettled(p, s);
    ChildIs(c, rel, row, e, depth);
    assert map[] + loaded[0].rels == loaded[0].rels;
    row.rels := row.rels + loaded[0].rels;
    row.tree := Child(c, rel, row.cols, e, depth);
  }

  lemma ChildIs(c: Catalog, rel: Relation, row: Row, e: WithEntry, depth: nat)
    requires e.nested.Some?
    ensures Child(c, rel, row.cols, e, depth) ==
            Expected(c, FindTable(c.tables, rel.target), Cols([row]), row.cols, e.nested.value, depth + 1)
    ensures Child(c, rel, row.cols, e, depth).cols == row.cols
  {
    assert Cols([row]) == [row.cols];
  }

  lemma BothSettled(a: set<Row>, b: set<Row>)
    requires Settled(a) && Settled(b)
    ensures Settled(a + b)
  {
  }

  lemma StillComplete(r: Row, t: Tree, p: set<Row>, q: set<Row>)
    requires Complete(r, t, p) && p <= q
    ensures Complete(r, t, q)
  {
  }

  lemma PlainSettled(c: Catalog, rel: Relation, list: seq<Row>, e: WithEntry, depth: nat, q: set<Row>)
    requires Settled(q) && e.nested.None? && forall r | r in list :: Plain(r)
    ensures Settled(q + set r | r in list)
    ensures forall i | 0 <= i < |list| :: list[i].tree == Child(c, rel, list[i].cols, e, depth)
  {
    forall r | r in list ensures Children(r.rels) <= q && Shows(r, r.tree) {
      NoChildren(r.rels);
    }
    forall i | 0 <= i < |list| ensures list[i].tree == Child(c, rel, list[i].cols, e, depth) {
      assert list[i] in list;
    }
  }

  lemma NoChildren(rels: map<string, Link>)
    requires rels == map[]
    ensures Children(rels) == {} && RelsShow(rels, map[])
  {
  }

  lemma AllComplete(c: Catalog, rel: Relation, list: seq<Row>, e: WithEntry, depth: nat, q: set<Row>)
    requires Settled(q)
    requires forall j | 0 <= j < |list| :: Complete(list[j], Child(c, rel, list[j].cols, e, depth), q)
    ensures Settled(q + set r | r in list)
    ensures forall i | 0 <= i < |list| :: list[i].tree == Child(c, rel, list[i].cols, e, depth)
  {
    hide Child;
    forall r | r in list ensures Children(r.rels) <= q && Shows(r, r.tree) {
      var j :| 0 <= j < |list| && list[j] == r;
      assert Complete(list[j], Child(c, rel, list[j].cols, e, depth), q);
    }
  }

  /** A row that shows its tree, with settled rows beneath it. */
  ghost predicate Complete(r: Row, t: Tree, s: set<Row>)
    reads r, s
  {
    r.tree == t && Children(r.rels) <= s && Shows(r, t)
  }

  // ---- one relation ----

  /** What a parent links to, given the rows with its key. */
  function Pick(kind: Kind, group: seq<Row>): Link
    requires group != []
  {
    match kind
    case BelongsTo => LinkOne(group[|group| - 1])
    case HasOne => LinkOne(group[0])
    case HasMany => LinkMany(group)
  }

  function Missing(kind: Kind): Link {
    if kind.HasMany? then LinkMany([]) else LinkNil
  }

  ghost predicate Picked(rel: Relation, raw: seq<Row>, links: map<Value, Link>) {
    && (forall k :: k in links <==> Group(raw, TheirColumn(rel), k) != [])
    && (forall k | k in links :: links[k] == Pick(rel.kind, Group(raw, TheirColumn(rel), k)))
  }

  /** Groups the rows by key; `list` holds every row that some parent will link to. */
  method PickLinks(rel: Relation, raw: seq<Row>) returns (links: map<Value, Link>, list: seq<Row>)
    requires Distinct(raw)
    ensures Picked(rel, raw, links)
    ensures Distinct(list) && (forall r | r in list :: r in raw) && forall k | k in links ::
            Linked(links[k]) <= set r | r in list
  {
    if rel.kind.HasMany? {
      links, list := PickMany(rel, raw);
    } else {
      links, list := PickOne(rel, raw);
    }
  }

  method PickOne(rel: Relation, raw: seq<Row>) returns (links: map<Value, Link>, list: seq<Row>)
    requires !rel.kind.HasMany?
    ensures Picked(rel, raw, links)
    ensures Distinct(list) && (forall r | r in list :: r in raw) && forall k | k in links ::
            Linked(links[k]) <= set r | r in list
  {
    hide Group;
    var col := TheirColumn(rel);
    var m, order;
    if rel.kind.BelongsTo? {
      m, order := LastByKey(raw, col);
    } else {
      m, order := FirstByKey(raw, col);
    }
    links := map k | k in m :: LinkOne(m[k]);
    list := Values(raw, col, m, order);
  }

  method PickMany(rel: Relation, raw: seq<Row>) returns (links: map<Value, Link>, list: seq<Row>)
    requires Distinct(raw) && rel.kind.HasMany?
    ensures Picked(rel, raw, links)
    ensures Distinct(list) && (forall r | r in list :: r in raw) && forall k | k in links ::
            Linked(links[k]) <= set r | r in list
  {
    hide Group;
    var col := TheirColumn(rel);
    var m, order := GroupByKey(raw, col);
    links := map k | k in m :: LinkMany(m[k]);
    list := Flatten(raw, col, m, order);
  }

  method Values(raw: seq<Row>, col: string, m: map<Value, Row>, order: seq<Value>) returns (list: seq<Row>)
    requires DistinctValues(order) && (forall k :: k in order <==> k in m) && forall k | k in m ::
             m[k] in Group(raw, col, k)
    ensures Distinct(list) && (forall r | r in list :: r in raw) && forall k | k in m :: m[k] in list
  {
    list := [];
    for i := 0 to |order|
      invariant |list| == i && forall j | 0 <= j < i :: list[j] == m[order[j]]
    {
      list := list + [m[order[i]]];
    }
    forall j | 0 <= j < |list| ensures list[j] in raw && Key(list[j].cols, col) == order[j] {
      GroupMembers(raw, col, order[j]);
    }
    forall k | k in m ensures m[k] in list {
      var j :| 0 <= j < |order| && order[j] == k;
      assert list[j] == m[k];
    }
  }

  lemma BothDistinct(a: seq<Row>, b: seq<Row>)
    requires Distinct(a) && Distinct(b) && forall r | r in a :: r !in b
    ensures Distinct(a + b)
  {
    forall i, j | 0 <= i < j < |a + b| ensures (a + b)[i] != (a + b)[j] {
      if i < |a| <= j {
        assert a[i] in a && b[j - |a|] in b;
      }
    }
  }

  method Flatten(raw: seq<Row>, col: string, m: map<Value, seq<Row>>, order: seq<Value>) returns (list: seq<Row>)
    requires Distinct(raw) && DistinctValues(order) && (forall k :: k in order <==> k in m)
    requires forall k | k in m :: m[k] == Group(raw, col, k)
    ensures Distinct(list) && (forall r | r in list :: r in raw) && forall k, r | k in m && r in m[k] :: r in list
  {
    list := [];
    for i := 0 to |order|
      invariant Distinct(list)
      invariant forall r | r in list :: r in raw && Key(r.cols, col) in order[..i]
      invariant forall k, r | k in order[..i] && r in m[k] :: r in list
    {
      GroupMembers(raw, col, order[i]);
      assert order[..i + 1] == order[..i] + [order[i]] && order[i] !in order[..i];
      BothDistinct(list, m[order[i]]);
      list := list + m[order[i]];
    }
    assert order[..|order|] == order;
  }

  lemma {:induction false} MatchingKeys(recs: seq<Record>, col: string, keys: set<Value>)
    ensures forall rec | rec in Matching(recs, col, keys) :: Key(rec, col) in keys
  {
    if recs != [] {
      MatchingKeys(recs[..|recs| - 1], col, keys);
    }
  }

  /** The link of a parent shows what a lookup for its own key would have answered. */
  lemma LinkIsAnswer(c: Catalog, rel: Relation, raw: seq<Row>, keys: seq<Value>, links: map<Value, Link>, key: Value,
                     e: WithEntry, depth: nat)
    requires Cols(raw) == Matching(c.rows(rel.target), TheirColumn(rel), KeySet(keys))
    requires Picked(rel, raw, links) && (forall k | k in keys :: Truthy(k)) && (Truthy(key) ==> key in keys)
    requires forall k, r | k in links && r in Linked(links[k]) :: r.tree == Child(c, rel, r.cols, e, depth)
    ensures LinkShows(LinkFor(links, key, Missing(rel.kind)), Answer(c, rel, key, e, depth))
  {
    var col := TheirColumn(rel);
    if Truthy(key) {
      GroupMembers(raw, col, key);
      GroupIsMatching(raw, c.rows(rel.target), col, KeySet(keys), key);
      PickShows(c, rel, Group(raw, col, key), key, e, depth);
    } else {
      NoGroup(c.rows(rel.target), raw, col, keys, key);
    }
  }

  lemma PickShows(c: Catalog, rel: Relation, group: seq<Row>, key: Value, e: WithEntry, depth: nat)
    requires Truthy(key) && Cols(group) == Matching(c.rows(rel.target), TheirColumn(rel), {key})
    requires group != [] ==> forall r | r in Linked(Pick(rel.kind, group)) :: r.tree == Child(c, rel, r.cols, e, depth)
    ensures LinkShows(if group != [] then Pick(rel.kind, group) else Missing(rel.kind), Answer(c, rel, key, e, depth))
  {
    assert Matches(c, rel, key) == Cols(group);
    hide Matching, Matches, Child;
    assert forall i | 0 <= i < |group| :: Cols(group)[i] == group[i].cols;
    assert forall i | 0 <= i < |group| :: group[i] in group;
  }

  lemma NoGroup(recs: seq<Record>, raw: seq<Row>, col: string, keys: seq<Value>, key: Value)
    requires Cols(raw) == Matching(recs, col, KeySet(keys)) && key !in keys
    ensures Group(raw, col, key) == []
  {
    MatchingKeys(recs, col, KeySet(keys));
    forall i | 0 <= i < |raw| ensures Key(raw[i].cols, col) != key {
      assert Cols(raw)[i] == raw[i].cols && Cols(raw)[i] in Matching(recs, col, KeySet(keys));
    }
    EmptyGroup(raw, col, key);
  }

  lemma {:induction false} EmptyGroup(rows: seq<Row>, col: string, key: Value)
    requires forall i | 0 <= i < |rows| :: Key(rows[i].cols, col) != key
    ensures Group(rows, col, key) == []
  {
    if rows != [] {
      EmptyGroup(rows[..|rows| - 1], col, key);
    }
  }

  method Load(c: Catalog, rel: Relation, rows: seq<Row>, keys: seq<Value>, e: WithEntry, depth: nat,
              ghost s: set<Row>, ghost trees: seq<map<string, Branch>>)
      returns (next: seq<Row>, ghost s': set<Row>)
    requires |trees| == |rows| && Settled(s)
    requires forall i | 0 <= i < |rows| :: Children(rows[i].rels) <= s && RelsShow(rows[i].rels, trees[i])
    requires forall k | k in keys :: Truthy(k)
    requires forall i | 0 <= i < |rows| :: var k := Key(rows[i].cols, OwnColumn(rel)); Truthy(k) ==> k in keys
    ensures s <= s' && fresh(s' - s) && Settled(s') && |next| == |rows|
    ensures forall i | 0 <= i < |rows| ::
              && next[i].cols == rows[i].cols && Children(next[i].rels) <= s'
              && RelsShow(next[i].rels, trees[i][e.name := Answer(c, rel, Key(rows[i].cols, OwnColumn(rel)), e, depth)])
    decreases e, 2
  {
    hide Settled, RelsShow, Picked, Answer, Child, Distinct, Children, Matching;
    var raw := Query(c.rows(rel.target), TheirColumn(rel), keys);
    var links, list := PickLinks(rel, raw);
    next := Attach(rows, e.name, OwnColumn(rel), links, Missing(rel.kind));
    forall j | 0 <= j < |list| ensures fresh(list[j]) && Plain(list[j]) {
      assert list[j] in list;
    }
    ghost var q := LoadNested(c, rel, list, e, depth, s);
    s' := q + set r | r in list;
    LinkedDone(c, rel, list, links, e, depth);
    forall i | 0 <= i < |rows|
      ensures Children(next[i].rels) <= s'
      ensures RelsShow(next[i].rels, trees[i][e.name := Answer(c, rel, Key(rows[i].cols, OwnColumn(rel)), e, depth)])
    {
      var key := Key(rows[i].cols, OwnColumn(rel));
      LinkIsAnswer(c, rel, raw, keys, links, key, e, depth);
      LinkInList(links, list, key, rel.kind);
      OneMoreRelation(rows[i].rels, trees[i], e.name, LinkFor(links, key, Missing(rel.kind)),
                      Answer(c, rel, key, e, depth));
    }
  }

  lemma LinkedDone(c: Catalog, rel: Relation, list: seq<Row>, links: map<Value, Link>, e: WithEntry, depth: nat)
    requires forall i | 0 <= i < |list| :: list[i].tree == Child(c, rel, list[i].cols, e, depth)
    requires forall k | k in links :: Linked(links[k]) <= set r | r in list
    ensures forall k, r | k in links && r in Linked(links[k]) :: r.tree == Child(c, rel, r.cols, e, depth)
  {
    hide Child, Linked;
    forall k, r | k in links && r in Linked(links[k]) ensures r.tree == Child(c, rel, r.cols, e, depth) {
      var i :| 0 <= i < |list| && list[i] == r;
    }
  }

  lemma LinkInList(links: map<Value, Link>, list: seq<Row>, key: Value, kind: Kind)
    requires forall k | k in links :: Linked(links[k]) <= set r | r in list
    ensures Linked(LinkFor(links, key, Missing(kind))) <= set r | r in list
  {
  }

  lemma OneMoreRelation(rels: map<string, Link>, branches: map<string, Branch>, name: string, link: Link,
                        branch: Branch)
    requires RelsShow(rels, branches) && LinkShows(link, branch)
    ensures RelsShow(rels[name := link], branches[name := branch])
    ensures Children(rels[name := link]) <= Children(rels) + Linked(link)
  {
    var more := rels[name := link];
    forall n | n in more ensures Linked(more[n]) <= Children(more) && LinkShows(more[n], branches[name := branch][n]) {
      if n != name {
        assert more[n] == rels[n];
      }
    }
  }

  // ---- the loader ----

  /** Loads the relations of a batch of rows that come straight from a query. Each result row shows
      the expected tree, and that tree agrees with loading the row naively. */
  method Resolve(c: Catalog, table: Table, rows: seq<Row>, w: With, depth: nat)
      returns (resolved: seq<Row>, ghost s: set<Row>)
    requires forall r | r in rows :: r.rels == map[]
    ensures Settled(s) && fresh(s) && |resolved| == |rows|
    ensures forall i | 0 <= i < |rows| ::
              Children(resolved[i].rels) <= s &&
              Shows(resolved[i], Expected(c, table, Cols(rows), rows[i].cols, w, depth))
    ensures forall i | 0 <= i < |rows| ::
            Agrees(Expected(c, table, Cols(rows), rows[i].cols, w, depth), Naive(c, table, rows[i].cols, w, depth))
    decreases w, 2
  {
    forall i | 0 <= i < |rows|
      ensures Agrees(Expected(c, table, Cols(rows), rows[i].cols, w, depth), Naive(c, table, rows[i].cols, w, depth))
    {
      assert Cols(rows)[i] == rows[i].cols;
      BatchIsNaive(c, table, Cols(rows), i, w, depth);
    }
    resolved, s := rows, {};
    hide Settled, Shows, RelsShow, Children, Branches, Agrees, Naive;
    PlainRows(c, table, rows, w, depth);
    if depth > MAX_DEPTH || |rows| == 0 || table.relations.None? {
      return;
    }
    resolved, s := LoadEntries(c, table.relations.value, rows, w, depth);
    AllLoaded(c, table, rows, resolved, w, depth, s);
  }

  lemma AllLoaded(c: Catalog, table: Table, rows: seq<Row>, resolved: seq<Row>, w: With, depth: nat, s: set<Row>)
    requires depth <= MAX_DEPTH && table.relations.Some?
    requires LoadedUpTo(c, table.relations.value, rows, resolved, w, |w.entries|, depth, s)
    ensures |resolved| == |rows|
    ensures forall i | 0 <= i < |rows| ::
              Children(resolved[i].rels) <= s &&
              Shows(resolved[i], Expected(c, table, Cols(rows), rows[i].cols, w, depth))
  {
    hide RelsShow, Children, Branches;
  }

  lemma PlainRows(c: Catalog, table: Table, rows: seq<Row>, w: With, depth: nat)
    requires forall r | r in rows :: r.rels == map[]
    ensures forall i | 0 <= i < |rows| :: Children(rows[i].rels) == {} && Shows(rows[i], Tree(rows[i].cols, map[]))
    ensures Settled({}) && table.relations.Some? ==> LoadedUpTo(c, table.relations.value, rows, rows, w, 0, depth, {})
  {
    forall i | 0 <= i < |rows| ensures Children(rows[i].rels) == {} && RelsShow(rows[i].rels, map[]) {
      assert rows[i] in rows;
      NoChildren(rows[i].rels);
    }
  }

  method LoadEntries(c: Catalog, rels: seq<Relation>, rows: seq<Row>, w: With, depth: nat)
      returns (resolved: seq<Row>, ghost s: set<Row>)
    requires LoadedUpTo(c, rels, rows, rows, w, 0, depth, {}) && Settled({})
    ensures Settled(s) && fresh(s) && LoadedUpTo(c, rels, rows, resolved, w, |w.entries|, depth, s)
    decreases w, 1
  {
    hide Settled, LoadedUpTo;
    resolved, s := rows, {};
    for n := 0 to |w.entries|
      invariant Settled(s) && fresh(s) && LoadedUpTo(c, rels, rows, resolved, w, n, depth, s)
    {
      resolved, s := LoadEntry(c, rels, rows, resolved, w, n, depth, s);
    }
  }

  /** The first `n` entries of the `with` tree are loaded for every row. */
  ghost predicate LoadedUpTo(c: Catalog, rels: seq<Relation>, rows: seq<Row>, resolved: seq<Row>, w: With, n: nat,
                             depth: nat, s: set<Row>)
    requires n <= |w.entries|
    reads resolved, s
  {
    && |resolved| == |rows|
    && forall i | 0 <= i < |rows| ::
         && resolved[i].cols == rows[i].cols && Children(resolved[i].rels) <= s
         && RelsShow(resolved[i].rels, Branches(c, rels, Cols(rows), rows[i].cols, w, n, depth))
  }

  method LoadEntry(c: Catalog, rels: seq<Relation>, rows: seq<Row>, before: seq<Row>, w: With, n: nat, depth: nat,
                   ghost p: set<Row>)
      returns (resolved: seq<Row>, ghost s: set<Row>)
    requires n < |w.entries| && Settled(p) && LoadedUpTo(c, rels, rows, before, w, n, depth, p)
    ensures p <= s && fresh(s - p) && Settled(s) && LoadedUpTo(c, rels, rows, resolved, w, n + 1, depth, s)
    decreases w, 0
  {
    hide Settled, RelsShow, Children, Answer;
    resolved, s := before, p;
    var e := w.entries[n];
    match FindRelation(rels, e.name) {
      case None =>
      case Some(rel) =>
        var keys := DistinctKeys(before, OwnColumn(rel));
        SameKeys(before, rows, rel, keys);
        if |keys| > 0 {
          ghost var trees := seq(|rows|, i requires 0 <= i < |rows| =>
            Branches(c, rels, Cols(rows), rows[i].cols, w, n, depth));
          resolved, s := Load(c, rel, before, keys, e, depth, p, trees);
        }
    }
  }

  lemma SameKeys(resolved: seq<Row>, rows: seq<Row>, rel: Relation, keys: seq<Value>)
    requires |resolved| == |rows| && forall i | 0 <= i < |rows| :: resolved[i].cols == rows[i].cols
    requires forall k :: k in keys <==>
             Truthy(k) && exists i | 0 <= i < |resolved| :: Key(resolved[i].cols, OwnColumn(rel)) == k
    ensures keys != [] <==> Asked(rel, Cols(rows))
  {
    if Asked(rel, Cols(rows)) {
      var i :| 0 <= i < |rows| && Truthy(Key(Cols(rows)[i], OwnColumn(rel)));
      assert Key(resolved[i].cols, OwnColumn(rel)) in keys;
    }
    if keys != [] {
      assert keys[0] in keys;
      var i :| 0 <= i < |resolved| && Key(resolved[i].cols, OwnColumn(rel)) == keys[0];
      assert Cols(rows)[i] == resolved[i].cols;
    }
  }
}
