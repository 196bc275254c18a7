/** What a loaded row links to, read off the tables: which row or rows, in which columns, in which order,
    and with which relations beneath. */
module RelationLinks {
  import opened Wrappers
  import opened RelationSpec

  /** What JavaScript takes for true. */
  predicate Usable(v: Value) {
    v != Null && v != Num(0) && v != Text("") && v != Bool(false)
  }

  /** The row has something to look for in the column. */
  predicate Keyed(rec: Record, col: string) {
    col in rec && Usable(rec[col])
  }

  predicate Meets(rec: Record, col: string, other: Record, otherCol: string) {
    Keyed(rec, col) && otherCol in other && other[otherCol] == rec[col]
  }

  /** A belongsTo row holds the key of its target; of the others, the targets hold its key. */
  predicate Points(rel: Relation, parent: Record, target: Record) {
    match rel.kind
    case BelongsTo => Meets(parent, rel.foreignKey, target, rel.localKey)
    case HasOne => Meets(parent, rel.localKey, target, rel.foreignKey)
    case HasMany => Meets(parent, rel.localKey, target, rel.foreignKey)
  }

  predicate Looks(rel: Relation, parent: Record) {
    match rel.kind
    case BelongsTo => Keyed(parent, rel.foreignKey)
    case HasOne => Keyed(parent, rel.localKey)
    case HasMany => Keyed(parent, rel.localKey)
  }

  /** The places of the rows that the parent points at, in order, none missing and none foreign. */
  ghost predicate Selects(ks: seq<nat>, rel: Relation, parent: Record, targets: seq<Record>) {
    && (forall i | 0 <= i < |ks| :: ks[i] < |targets| && Points(rel, parent, targets[ks[i]]))
    && (forall i, j | 0 <= i < j < |ks| :: ks[i] < ks[j])
    && (forall k | 0 <= k < |targets| && Points(rel, parent, targets[k]) :: k in ks)
  }

  predicate FirstTable(tables: seq<Table>, name: string, m: nat) {
    m < |tables| && tables[m].name == name && forall i | 0 <= i < m :: tables[i].name != name
  }

  /** A linked row and what is loaded beneath it: the relations of the table of that name, a row by
      itself, one level deeper; a table that is not known has none. */
  ghost predicate Beneath(c: Catalog, target: string, e: WithEntry, depth: nat, rec: Record, tree: Tree) {
    && tree.cols == rec
    && (e.nested.None? ==> tree.rels == map[])
    && (e.nested.Some? ==>
          && (forall m: nat | FirstTable(c.tables, target, m) ::
                tree == Expected(c, c.tables[m], [rec], rec, e.nested.value, depth + 1))
          && ((forall m | 0 <= m < |c.tables| :: c.tables[m].name != target) ==> tree.rels == map[]))
  }

  ghost predicate Linked(c: Catalog, rel: Relation, e: WithEntry, depth: nat, parent: Record, b: Branch) {
    var targets := c.rows(rel.target);
    match rel.kind
    case BelongsTo =>
      if exists k | 0 <= k < |targets| :: Points(rel, parent, targets[k]) then
        exists k ::
          && 0 <= k < |targets| && Points(rel, parent, targets[k])
          && (forall l | k < l < |targets| :: !Points(rel, parent, targets[l]))
          && b.One? && Beneath(c, rel.target, e, depth, targets[k], b.tree)
      else b == Nil
    case HasOne =>
      if exists k | 0 <= k < |targets| :: Points(rel, parent, targets[k]) then
        exists k ::
          && 0 <= k < |targets| && Points(rel, parent, targets[k])
          && (forall l | 0 <= l < k :: !Points(rel, parent, targets[l]))
          && b.One? && Beneath(c, rel.target, e, depth, targets[k], b.tree)
      else b == Nil
    case HasMany =>
      exists ks: seq<nat> ::
        && Selects(ks, rel, parent, targets) && b.Many? && |b.trees| == |ks|
        && forall i | 0 <= i < |ks| :: Beneath(c, rel.target, e, depth, targets[ks[i]], b.trees[i])
  }

  /** The first relation of the name is the one meant. */
  predicate Meant(rels: seq<Relation>, name: string, j: nat) {
    j < |rels| && rels[j].name == name && forall i | 0 <= i < j :: rels[i].name != name
  }

  /** The last entry of the name decides; entries come from the keys of an object. */
  predicate Decides(w: With, n: nat) {
    n < |w.entries| && forall m | n < m < |w.entries| :: w.entries[m].name != w.entries[n].name
  }

  // ---- the rows that match ----

  /** The places of the records with the value in the column. */
  predicate Holding(ks: seq<nat>, recs: seq<Record>, col: string, v: Value) {
    && (forall i | 0 <= i < |ks| :: ks[i] < |recs| && Key(recs[ks[i]], col) == v)
    && (forall i, j | 0 <= i < j < |ks| :: ks[i] < ks[j])
    && (forall k | 0 <= k < |recs| && Key(recs[k], col) == v :: k in ks)
  }

  lemma HoldingNext(ks: seq<nat>, recs: seq<Record>, last: Record, col: string, v: Value)
    requires Holding(ks, recs, col, v)
    ensures Holding(ks + if Key(last, col) == v then [|recs|] else [], recs + [last], col, v)
  {
    var all := recs + [last];
    forall k | 0 <= k < |all| && Key(all[k], col) == v
      ensures k in ks + if Key(last, col) == v then [|recs|] else []
    {
      if k < |recs| {
        assert all[k] == recs[k] && k in ks;
      }
    }
  }

  lemma {:induction false} MatchPlaces(recs: seq<Record>, col: string, v: Value) returns (ks: seq<nat>)
    ensures Holding(ks, recs, col, v)
    ensures |ks| == |Matching(recs, col, {v})|
    ensures forall i | 0 <= i < |ks| :: Matching(recs, col, {v})[i] == recs[ks[i]]
  {
    ks := [];
    if recs != [] {
      var front, last := recs[..|recs| - 1], recs[|recs| - 1];
      var before := MatchPlaces(front, col, v);
      HoldingNext(before, front, last, col, v);
      assert recs == front + [last];
      ks := before + if Key(last, col) == v then [|front|] else [];
      hide Holding;
      PlacesExtend(before, front, last, Matching(front, col, {v}));
    }
  }

  lemma PlacesExtend(ks: seq<nat>, recs: seq<Record>, last: Record, ms: seq<Record>)
    requires |ks| == |ms| && forall i | 0 <= i < |ks| :: ks[i] < |recs| && ms[i] == recs[ks[i]]
    ensures forall i | 0 <= i <= |ks| :: (ms + [last])[i] == (recs + [last])[(ks + [|recs|])[i]]
    ensures forall i | 0 <= i < |ks| :: ms[i] == (recs + [last])[ks[i]]
  {
  }

  lemma Places(c: Catalog, rel: Relation, parent: Record) returns (ks: seq<nat>)
    ensures var ms := Matches(c, rel, Key(parent, OwnColumn(rel)));
            && Selects(ks, rel, parent, c.rows(rel.target)) && |ks| == |ms|
            && forall i | 0 <= i < |ks| :: ms[i] == c.rows(rel.target)[ks[i]]
  {
    var key, targets := Key(parent, OwnColumn(rel)), c.rows(rel.target);
    ks := [];
    if Truthy(key) {
      ks := MatchPlaces(targets, TheirColumn(rel), key);
    }
  }

  // ---- what is loaded beneath ----

  lemma {:induction false} TableFound(tables: seq<Table>, name: string)
    ensures forall m: nat | FirstTable(tables, name, m) :: FindTable(tables, name) == tables[m]
    ensures (forall m | 0 <= m < |tables| :: tables[m].name != name) ==> FindTable(tables, name).relations == Some([])
  {
    if tables != [] && tables[0].name != name {
      TableFound(tables[1..], name);
      assert forall i | 0 <= i < |tables| - 1 :: tables[1..][i] == tables[i + 1];
      forall m: nat | FirstTable(tables, name, m) ensures FindTable(tables, name) == tables[m] {
        assert FirstTable(tables[1..], name, m - 1);
      }
    }
  }

  lemma {:induction false} NoRelations(c: Catalog, batch: seq<Record>, rec: Record, w: With, n: nat, depth: nat)
    requires n <= |w.entries|
    ensures Branches(c, [], batch, rec, w, n, depth) == map[]
  {
    if n > 0 {
      NoRelations(c, batch, rec, w, n - 1, depth);
    }
  }

  lemma ChildBeneath(c: Catalog, rel: Relation, rec: Record, e: WithEntry, depth: nat)
    ensures Beneath(c, rel.target, e, depth, rec, Child(c, rel, rec, e, depth))
  {
    if e.nested.Some? {
      TableFound(c.tables, rel.target);
      if forall m | 0 <= m < |c.tables| :: c.tables[m].name != rel.target {
        NoRelations(c, [rec], rec, e.nested.value, |e.nested.value.entries|, depth + 1);
      }
    }
  }

  lemma AnswerLinked(c: Catalog, rel: Relation, parent: Record, e: WithEntry, depth: nat)
    ensures Linked(c, rel, e, depth, parent, Answer(c, rel, Key(parent, OwnColumn(rel)), e, depth))
  {
    var targets, key := c.rows(rel.target), Key(parent, OwnColumn(rel));
    var ms := Matches(c, rel, key);
    var ks := Places(c, rel, parent);
    hide Matches, Beneath, Child, Points, OwnColumn;
    forall i | 0 <= i < |ms| ensures Beneath(c, rel.target, e, depth, targets[ks[i]], Child(c, rel, ms[i], e, depth)) {
      ChildBeneath(c, rel, ms[i], e, depth);
    }
    match rel.kind {
      case BelongsTo => if ms != [] { LastOf(ks, rel, parent, targets); }
      case HasOne => if ms != [] { FirstOf(ks, rel, parent, targets); }
      case HasMany =>
    }
  }

  lemma LastOf(ks: seq<nat>, rel: Relation, parent: Record, targets: seq<Record>)
    requires Selects(ks, rel, parent, targets) && ks != []
    ensures forall l | ks[|ks| - 1] < l < |targets| :: !Points(rel, parent, targets[l])
  {
    forall l | ks[|ks| - 1] < l < |targets| ensures !Points(rel, parent, targets[l]) {
      assert Points(rel, parent, targets[l]) ==> l in ks;
    }
  }

  lemma FirstOf(ks: seq<nat>, rel: Relation, parent: Record, targets: seq<Record>)
    requires Selects(ks, rel, parent, targets) && ks != []
    ensures forall l | 0 <= l < ks[0] :: !Points(rel, parent, targets[l])
  {
    forall l | 0 <= l < ks[0] ensures !Points(rel, parent, targets[l]) {
      assert Points(rel, parent, targets[l]) ==> l in ks;
    }
  }

  // ---- the entry of a relation ----

  lemma {:induction false} RelationFound(rels: seq<Relation>, name: string, j: nat)
    requires Meant(rels, name, j)
    ensures FindRelation(rels, name) == Some(rels[j])
  {
    if rels[0].name != name {
      assert forall i | 0 <= i < |rels| - 1 :: rels[1..][i] == rels[i + 1];
      RelationFound(rels[1..], name, j - 1);
    }
  }

  lemma {:induction false} EntryStays(c: Catalog, rels: seq<Relation>, batch: seq<Record>, rec: Record, w: With, n: nat,
                                      m: nat, depth: nat)
    requires Decides(w, n) && n < m <= |w.entries|
    ensures var a, b := Branches(c, rels, batch, rec, w, n + 1, depth), Branches(c, rels, batch, rec, w, m, depth);
            var name := w.entries[n].name;
            (name in b <==> name in a) && (name in a ==> b[name] == a[name])
    decreases m
  {
    if m > n + 1 {
      EntryStays(c, rels, batch, rec, w, n, m - 1, depth);
    }
  }

  /** Nothing is left over from earlier entries of the name when the relation is not asked for. */
  lemma NotAsked(c: Catalog, rels: seq<Relation>, batch: seq<Record>, rec: Record, w: With, n: nat, rel: Relation,
                 depth: nat)
    requires n <= |w.entries| && FindRelation(rels, rel.name) == Some(rel) && !Asked(rel, batch)
    ensures rel.name !in Branches(c, rels, batch, rec, w, n, depth)
  {
    OnlyAsked(c, rels, batch, rec, w, n, depth);
  }

  lemma AskedIsKeyed(rel: Relation, batch: seq<Record>)
    ensures Asked(rel, batch) <==> exists i | 0 <= i < |batch| :: Looks(rel, batch[i])
  {
    if Asked(rel, batch) {
      var i :| 0 <= i < |batch| && Truthy(Key(batch[i], OwnColumn(rel)));
      assert Looks(rel, batch[i]);
    }
    if exists i | 0 <= i < |batch| :: Looks(rel, batch[i]) {
      var i :| 0 <= i < |batch| && Looks(rel, batch[i]);
      assert Truthy(Key(batch[i], OwnColumn(rel)));
    }
  }

  /** Down to depth 4, the tree of a row has a relation that was asked for exactly when some row of the
      batch has a key for it, and then links the rows that the row points at: for belongsTo the last,
      for hasOne the first, for hasMany all in order. */
  lemma LinksRight(c: Catalog, table: Table, batch: seq<Record>, rec: Record, w: With, n: nat, j: nat, depth: nat)
    requires depth <= 4 && table.relations.Some? && Decides(w, n)
    requires Meant(table.relations.value, w.entries[n].name, j)
    ensures var t, e, rel := Expected(c, table, batch, rec, w, depth), w.entries[n], table.relations.value[j];
            && t.cols == rec
            && (e.name in t.rels <==> exists i | 0 <= i < |batch| :: Looks(rel, batch[i]))
            && (e.name in t.rels ==> Linked(c, rel, e, depth, rec, t.rels[e.name]))
  {
    var rels, e := table.relations.value, w.entries[n];
    var rel := rels[j];
    RelationFound(rels, e.name, j);
    EntryStays(c, rels, batch, rec, w, n, |w.entries|, depth);
    AskedIsKeyed(rel, batch);
    if Asked(rel, batch) {
      AnswerLinked(c, rel, rec, e, depth);
    } else {
      NotAsked(c, rels, batch, rec, w, |w.entries|, rel, depth);
    }
  }

  /** Nothing is loaded below depth 4, and nothing that was not asked for. */
  lemma NothingElse(c: Catalog, table: Table, batch: seq<Record>, rec: Record, w: With, depth: nat)
    ensures var t := Expected(c, table, batch, rec, w, depth);
            && t.cols == rec
            && (depth > 4 || table.relations.None? ==> t.rels == map[])
            && (table.relations.Some? ==>
                  forall k | k in t.rels ::
                    (exists n | 0 <= n < |w.entries| :: w.entries[n].name == k) &&
                    (exists j | 0 <= j < |table.relations.value| :: table.relations.value[j].name == k))
  {
    if depth <= 4 && table.relations.Some? {
      Asking(c, table.relations.value, batch, rec, w, |w.entries|, depth);
    }
  }

  lemma {:induction false} Asking(c: Catalog, rels: seq<Relation>, batch: seq<Record>, rec: Record, w: With, n: nat,
                                  depth: nat)
    requires n <= |w.entries|
    ensures forall k | k in Branches(c, rels, batch, rec, w, n, depth) ::
              (exists m | 0 <= m < n :: w.entries[m].name == k) &&
              (exists j | 0 <= j < |rels| :: rels[j].name == k)
  {
    if n > 0 {
      Asking(c, rels, batch, rec, w, n - 1, depth);
    }
  }
}
