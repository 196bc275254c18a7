/** What eager loading of relations must deliver: one row at a time, one lookup per relation. */
module RelationSpec {
  import opened Wrappers

  datatype Value = Null | Num(n: int) | Text(s: string) | Bool(b: bool)

  type Record = map<string, Value>

  datatype Kind = BelongsTo | HasMany | HasOne

  datatype Relation = Relation(name: string, target: string, kind: Kind, foreignKey: string, localKey: string)

  datatype Table = Table(name: string, relations: Option<seq<Relation>>)

  /** The `with` tree of a query: relations to load, each with what to load beneath it. */
  datatype With = With(entries: seq<WithEntry>)

  datatype WithEntry = WithEntry(name: string, nested: Option<With>)

  /** The known tables, and what a table holds, in the order a query returns it. */
  datatype Catalog = Catalog(tables: seq<Table>, rows: string -> seq<Record>)

  /** A row with its loaded relations. */
  datatype Tree = Tree(cols: Record, rels: map<string, Branch>)

  datatype Branch = Nil | One(tree: Tree) | Many(trees: seq<Tree>)

  const MAX_DEPTH := 4

  /** A missing column reads as null. */
  function Key(rec: Record, col: string): Value {
    if col in rec then rec[col] else Null
  }

  predicate Truthy(v: Value) {
    match v
    case Null => false
    case Num(n) => n != 0
    case Text(s) => s != ""
    case Bool(b) => b
  }

  function FindRelation(rels: seq<Relation>, name: string): (r: Option<Relation>)
    ensures r.Some? ==> r.value in rels && r.value.name == name
    ensures r.None? ==> forall rel | rel in rels :: rel.name != name
  {
    if rels == [] then None else if rels[0].name == name then Some(rels[0]) else FindRelation(rels[1..], name)
  }

  /** A table that is not known has no relations. */
  function FindTable(tables: seq<Table>, name: string): (t: Table)
    ensures t.name == name
  {
    if tables == [] then Table(name, Some([])) else if tables[0].name == name then tables[0]
    else FindTable(tables[1..], name)
  }

  /** The column of the parent row that a relation looks at. */
  function OwnColumn(rel: Relation): string {
    if rel.kind.BelongsTo? then rel.foreignKey else rel.localKey
  }

  /** The column of the related table that a relation looks at. */
  function TheirColumn(rel: Relation): string {
    if rel.kind.BelongsTo? then rel.localKey else rel.foreignKey
  }

  /** `SELECT * ... WHERE col IN (keys)`. */
  function Matching(recs: seq<Record>, col: string, keys: set<Value>): seq<Record> {
    if recs == [] then []
    else
      var last := recs[|recs| - 1];
      Matching(recs[..|recs| - 1], col, keys) + if Key(last, col) in keys then [last] else []
  }

  // ---- naive loading ----

  /** One row at a time: last match for belongsTo, first for hasOne, all in order for hasMany; a falsy
      key has no match. */
  function Naive(c: Catalog, table: Table, rec: Record, w: With, depth: nat): Tree
    decreases w, 2
  {
    if depth > MAX_DEPTH || table.relations.None? then Tree(rec, map[])
    else Tree(rec, NaiveBranches(c, table.relations.value, rec, w, |w.entries|, depth))
  }

  function NaiveBranches(c: Catalog, rels: seq<Relation>, rec: Record, w: With, n: nat, depth: nat): map<string, Branch>
    requires n <= |w.entries|
    decreases w, 1, n
  {
    if n == 0 then map[]
    else
      var e, before := w.entries[n - 1], NaiveBranches(c, rels, rec, w, n - 1, depth);
      match FindRelation(rels, e.name)
      case None => before
      case Some(rel) => before[e.name := NaiveAnswer(c, rel, Key(rec, OwnColumn(rel)), e, depth)]
  }

  function NaiveAnswer(c: Catalog, rel: Relation, key: Value, e: WithEntry, depth: nat): Branch
    decreases e, 1
  {
    var ms := Matches(c, rel, key);
    match rel.kind
    case BelongsTo => if ms == [] then Nil else One(NaiveChild(c, rel, ms[|ms| - 1], e, depth))
    case HasOne => if ms == [] then Nil else One(NaiveChild(c, rel, ms[0], e, depth))
    case HasMany => Many(seq(|ms|, i requires 0 <= i < |ms| => NaiveChild(c, rel, ms[i], e, depth)))
  }

  function NaiveChild(c: Catalog, rel: Relation, rec: Record, e: WithEntry, depth: nat): Tree
    decreases e, 0
  {
    if e.nested.None? then Tree(rec, map[])
    else Naive(c, FindTable(c.tables, rel.target), rec, e.nested.value, depth + 1)
  }

  function Matches(c: Catalog, rel: Relation, key: Value): seq<Record> {
    if Truthy(key) then Matching(c.rows(rel.target), TheirColumn(rel), {key}) else []
  }

  // ---- loading in a batch ----

  /** A relation is looked up only if some row of the batch has a key for it. */
  predicate Asked(rel: Relation, batch: seq<Record>) {
    exists i | 0 <= i < |batch| :: Truthy(Key(batch[i], OwnColumn(rel)))
  }

  /** What the batched loader makes of one row of a batch: a relation without a key in the whole
      batch is left out, and beneath the first level every row is a batch of its own. */
  function Expected(c: Catalog, table: Table, batch: seq<Record>, rec: Record, w: With, depth: nat): Tree
    decreases w, 2
  {
    if depth > MAX_DEPTH || table.relations.None? then Tree(rec, map[])
    else Tree(rec, Branches(c, table.relations.value, batch, rec, w, |w.entries|, depth))
  }

  function Branches(c: Catalog, rels: seq<Relation>, batch: seq<Record>, rec: Record, w: With, n: nat,
                    depth: nat): map<string, Branch>
    requires n <= |w.entries|
    decreases w, 1, n
  {
    if n == 0 then map[]
    else
      var e, before := w.entries[n - 1], Branches(c, rels, batch, rec, w, n - 1, depth);
      match FindRelation(rels, e.name)
      case None => before
      case Some(rel) =>
        if Asked(rel, batch) then before[e.name := Answer(c, rel, Key(rec, OwnColumn(rel)), e, depth)] else before
  }

  function Answer(c: Catalog, rel: Relation, key: Value, e: WithEntry, depth: nat): Branch
    decreases e, 1
  {
    var ms := Matches(c, rel, key);
    match rel.kind
    case BelongsTo => if ms == [] then Nil else One(Child(c, rel, ms[|ms| - 1], e, depth))
    case HasOne => if ms == [] then Nil else One(Child(c, rel, ms[0], e, depth))
    case HasMany => Many(seq(|ms|, i requires 0 <= i < |ms| => Child(c, rel, ms[i], e, depth)))
  }

  function Child(c: Catalog, rel: Relation, rec: Record, e: WithEntry, depth: nat): Tree
    decreases e, 0
  {
    if e.nested.None? then Tree(rec, map[])
    else Expected(c, FindTable(c.tables, rel.target), [rec], rec, e.nested.value, depth + 1)
  }

  // ---- the two agree ----

  /** Equal trees, where a relation missing on the left counts as null or empty. */
  ghost predicate Agrees(t: Tree, n: Tree)
    decreases t, 0
  {
    && t.cols == n.cols && t.rels.Keys <= n.rels.Keys
    && (forall k | k in t.rels :: BranchAgrees(t.rels[k], n.rels[k]))
    && (forall k | k in n.rels && k !in t.rels :: n.rels[k] == Nil || n.rels[k] == Many([]))
  }

  ghost predicate BranchAgrees(b: Branch, n: Branch)
    decreases b, 1
  {
    match b
    case Nil => n == Nil
    case One(t) => n.One? && Agrees(t, n.tree)
    case Many(ts) => n.Many? && |n.trees| == |ts| && forall i | 0 <= i < |ts| :: Agrees(ts[i], n.trees[i])
  }

  /** Every row of a batch is loaded as it would be on its own, at every depth. */
  lemma {:induction false} BatchIsNaive(c: Catalog, table: Table, batch: seq<Record>, i: nat, w: With, depth: nat)
    requires i < |batch|
    ensures Agrees(Expected(c, table, batch, batch[i], w, depth), Naive(c, table, batch[i], w, depth))
    decreases w, 2
  {
    if depth <= MAX_DEPTH && table.relations.Some? {
      BranchesAgree(c, table.relations.value, batch, i, w, |w.entries|, depth);
    }
  }

  lemma {:induction false} BranchesAgree(c: Catalog, rels: seq<Relation>, batch: seq<Record>, i: nat, w: With, n: nat,
                                         depth: nat)
    requires n <= |w.entries| && i < |batch|
    ensures Agrees(Tree(batch[i], Branches(c, rels, batch, batch[i], w, n, depth)),
                   Tree(batch[i], NaiveBranches(c, rels, batch[i], w, n, depth)))
    decreases w, 1, n
  {
    if n > 0 {
      BranchesAgree(c, rels, batch, i, w, n - 1, depth);
      var e := w.entries[n - 1];
      match FindRelation(rels, e.name)
      case None =>
      case Some(rel) =>
        AnswersAgree(c, rel, Key(batch[i], OwnColumn(rel)), e, depth);
        OnlyAsked(c, rels, batch, batch[i], w, n - 1, depth);
    }
  }

  lemma {:induction false} OnlyAsked(c: Catalog, rels: seq<Relation>, batch: seq<Record>, rec: Record, w: With, n: nat,
                                     depth: nat)
    requires n <= |w.entries|
    ensures forall k | k in Branches(c, rels, batch, rec, w, n, depth) ::
              FindRelation(rels, k).Some? && Asked(FindRelation(rels, k).value, batch)
  {
    if n > 0 {
      OnlyAsked(c, rels, batch, rec, w, n - 1, depth);
    }
  }

  lemma {:induction false} AnswersAgree(c: Catalog, rel: Relation, key: Value, e: WithEntry, depth: nat)
    ensures BranchAgrees(Answer(c, rel, key, e, depth), NaiveAnswer(c, rel, key, e, depth))
    ensures !Truthy(key) ==> NaiveAnswer(c, rel, key, e, depth) == if rel.kind.HasMany? then Many([]) else Nil
    decreases e, 1
  {
    var ms := Matches(c, rel, key);
    forall i | 0 <= i < |ms|
      ensures Agrees(Child(c, rel, ms[i], e, depth), NaiveChild(c, rel, ms[i], e, depth))
    {
      if e.nested.Some? {
        BatchIsNaive(c, FindTable(c.tables, rel.target), [ms[i]], 0, e.nested.value, depth + 1);
      }
    }
  }
}
