# MountSQLI: a verified model

MountSQLI is a TypeScript SQL toolkit: a query-plan compiler for three SQL dialects, a two-level
query cache, batched loading of relations, schema migrations, and the small concurrent services
around them. This project models the parts where a fast or side-effecting form must agree with a
simple one, in Dafny, and proves that it does, or exactly when it does.

Code that changes things step by step is modelled by classes and methods that do the same; each
is proved against functions on values, and the main results are lemmas about those functions over
all inputs, runs or interleavings.

| files | what they model |
|---|---|
| `Plans`, `Emission`, `Compiler` | query plans, what a compilation prints and pushes, and the compiler with its shared parameter list |
| `Reference`, `Placeholders`, `TextOrder`, `Skeleton`, `Binding` | the rendering with values in place, and what it means that placeholders bind rightly |
| `Rewriting`, `Tame` | the regular expression that renumbers UNION branches, and the texts it leaves alone |
| `Positional`, `Numbered`, `NumberedNecessary`, `Shapes`, `Misbindings` | which plans bind rightly by position and by number whatever their values, and the smallest ones that do not |
| `Lexical`, `Spacing`, `Dialects` | statements as characters: renumbering, the plan cache key, the PostgreSQL driver's rewriting |
| `Sql` | the compiler's string templates, character by character, which every compiled plan equals |
| `Balance`, `Reading`, `Where`, `Clauses` | reading the WHERE clause back, its meaning in three-valued logic, and what the bound statement says |
| `CacheSpec`, `MemoryCache`, `Recency`, `Inclusions` | the memory cache as values and as a heap structure; what LRU promises over runs, and when a larger cache is never worse |
| `Lifetimes`, `Victims` | what the cache keeps of an entry and for how long, and whom the other strategies evict |
| `Levels`, `CacheLevels` | the first cache level as its users see it, which every run of the memory cache follows |
| `CacheKeys`, `Coherence`, `Expiry` | hashed cache keys, the manager, the bridge, coherence over runs, and how long a result is answered |
| `Locks`, `Refresh`, `RateLimits` | the lease lock, stale-while-revalidate, the two rate limiters |
| `RelationSpec`, `RelationLoader`, `RelationLinks` | naive and batched loading of relations, and which rows they link |
| `Schemas`, `SchemaDiff`, `SchemaMeaning`, `Generation`, `Undoing`, `Reaching`, `Migrations` | schema diff, what it lists and delivers, generated DDL, what its up reaches and its down undoes, the migrator and its log |

Several properties that the design suggests do not hold of the code everywhere. In those places
the model keeps the code as it is, a lemma or method names an input that fails, and the property
is proved with its exact condition:

- In five places of the compiler values are pushed elsewhere than they are printed, or numbered
  from the wrong start (`Misbindings`); `Shapes.ShapeBindsByPosition` and `Shapes.ShapeBindsByNumber`
  say which plans are right whatever their values.
- The `$n` of a raw filter count from 1, which is right only where nothing has been pushed before
  (`Misbindings.RawParameterMisnumbers`).
- A UNION branch is renumbered as text, so a column `c$1` in it is renamed to `c$2`
  (`Misbindings.UnionRenamesColumn`); `Rewriting.TameStays` says which texts stay.
- Raw filters are not put in parentheses (`Where.ConjunctionExactly`, `Clauses.BoundExactly`), a
  search behind a raw OR joins its last alternative only (`Clauses.BoundClause`), and full-text
  search beside raw filters alone prints WHERE twice (`Where.SecondWhere`).
- Reading an expired entry takes it off the recency list only; the map and the byte count keep it.
  That breaks the invariant, and the eviction loop may never end
  (`MemoryCaches.MemoryCache.Get`, `MemoryCaches.ExpiredReadStalls`); clearing everything restores it
  (`MemoryCaches.MemoryCache.Clear`). Results over whole runs are about runs that read no expired
  entry.
- Tag pairs survive an overwrite, so a larger cache can lose a hit that a smaller one keeps
  (`Inclusions.StaleTagLosesHit`); `Inclusions.InclusionExactly` says for which programs and sizes it
  never does.
- LFU never counts a use: a read raises no frequency, so the strategy evicts as FIFO does
  (`Victims.LfuIsFifo`).
- The key of a cached read depends on the table name alone, and names collide
  (`CacheKeys.KeysCollide`). A program that reads one plan per table is coherent
  (`Coherence.OnePlanCoherent`); `Coherence.CoherentExactly` says which programs are.
- A refresh that throws before returning a promise is never counted down (`Refresh.ThrowsUseUp`).
- The two rate limiters differ for a maximum below one (`RateLimits.SameDecisions`).
- The diff does not look at primary keys (`SchemaDiff.RediffEmpty`), index names can collide
  (`Generation.NamesCollide`), not every generated up leaves the new schema, since an altered column
  changes its type and becomes NOT NULL at most (`Reaching.UpReachesExactly`), and not every generated
  down undoes its up (`Generation.UndoesExactly`, `Undoing.DiffUndone`).

## Model

| member | source | states |
|---|---|---|
| `Compiler.CompilePlan` | packages/compiler/src/plan.ts:163-512 | pushing into one shared list while printing gives exactly the specified tokens and values, and the values do not depend on the dialect |
| `Compiler.Compilation.Push` | packages/compiler/src/plan.ts:223-224 | a pushed value gets the placeholder of its own position |
| `Compiler.Compilation.CompileFilter` | packages/compiler/src/plan.ts:190-225 | a filter of any depth, nested plans included, pushes its values behind what is there and prints placeholders counted from there; nested plans are numbered from 1 again |
| `Compiler.Compilation.BuildWhere` | packages/compiler/src/plan.ts:228-238 | the WHERE clause pushes filter values, then the parameters of raw filters, whose text may hold placeholders of its own |
| `Compiler.Compilation.CompileFts` | packages/compiler/src/plan.ts:258-276 | the full-text condition pushes its query once, in all three modes |
| `Compiler.Compilation.CompileJsonOps` | packages/compiler/src/plan.ts:278-309 | only `json_set` binds, in list order |
| `Compiler.Compilation.CompileFrom` | packages/compiler/src/plan.ts:350-367 | a FROM subquery pushes its values even when an FTS5 source takes its place; the full-text condition is compiled behind them |
| `Compiler.Compilation.CompileSelect` | packages/compiler/src/plan.ts:311-431 | order of pushing over the whole SELECT, and the deny branch |
| `Compiler.Compilation.CompileBranches` | packages/compiler/src/plan.ts:394-428 | UNION branches inherit columns, and everything in their finished statement that the regular expression matches is raised by what the parent has pushed; WITH queries are not renumbered |
| `Compiler.Compilation.CompileInsert` | packages/compiler/src/plan.ts:433-491 | row values for the keys of the first row, then the conflict assignments |
| `Compiler.Compilation.CompileConflict` | packages/compiler/src/plan.ts:458-479 | the four outcomes of an ON CONFLICT clause |
| `Compiler.Compilation.CompileUpdate` | packages/compiler/src/plan.ts:493-505 | assignments before conditions |
| `Compiler.Compilation.CompileDelete` | packages/compiler/src/plan.ts:507-511 | conditions only |
| `Sql.PlanSame` | packages/compiler/src/plan.ts:163-512 | for every plan nested to any depth and every dialect the compiled text is, character for character, what the compiler's string templates give, operators, keywords, lists, placeholders and renumbered branches spelled out independently of the token stream |
| `Sql.NameReads` | packages/compiler/src/dialect.ts:29-57 | a quoted name, whatever characters it has, reads back as that name and ends where it ends |
| `Binding.InsertBinds` | packages/compiler/src/plan.ts:433-456 | at row r and column c an INSERT binds the value that the row itself pairs with the c-th key of the first row, wherever it stands in the row, and undefined when the row lacks the key |
| `Skeleton.MatchPlan` | packages/compiler/src/plan.ts:163-512 | for every plan nested to any depth the printed tokens are the value-in-place reference with placeholders for values, and the values in text order and the numbers in text order are as computed from the plan |
| `Placeholders.FillIsBinding` | packages/compiler/src/plan.ts:163-512 | filling the placeholders of a rendering gives the rendering back exactly when the list holds its values in text order |
| `Placeholders.ResolveIsBinding` | packages/compiler/src/plan.ts:163-512 | resolving numbered placeholders gives the rendering back exactly when each number points at its value |
| `Binding.PositionalIsTextOrder` | packages/compiler/src/plan.ts:163-512 | positional binding is right exactly when push order is text order |
| `Binding.NumberedIsPointing` | packages/compiler/src/plan.ts:163-512 | numbered binding is right exactly when every `$n` points at the value in its place and renumbering meets placeholders only |
| `Positional.OrderedPlansBind` | packages/compiler/src/plan.ts:311-512 | the k-th `?` takes `params[k-1]` and gives the reference, for every plan nested to any depth in the stated fragment; a raw filter belongs to it when its placeholders take its parameters in order, each once |
| `NumberedNecessary.NumberablePlansBind` | packages/compiler/src/plan.ts:200-238 | every `$n` resolves to the reference when nested plans with values, and raw filters with placeholders, are compiled while the list is empty, UNION branches being arbitrary such plans whose names and raw text renumbering leaves alone |
| `Shapes.PlanPrintsSame` | packages/compiler/src/plan.ts:514-517 | whatever values are put into a plan, at any depth, its compiled text, and with it the key for reusing prepared statements, is the same |
| `Shapes.ShapeBindsByPosition` | packages/compiler/src/plan.ts:311-512 | a statement whose values are left open binds rightly by position for all values exactly when its plan is in the fragment |
| `Shapes.ShapeBindsByNumber` | packages/compiler/src/plan.ts:200-238 | a statement whose values are left open binds rightly by number for all values exactly when its plan is in the fragment and renumbering meets placeholders only |
| `NumberedNecessary.PlanCounts` | packages/compiler/src/plan.ts:394-417 | in plans of both fragments the `$n` count 1, 2, 3 through the text |
| `Numbered.BranchPoints` | packages/compiler/src/plan.ts:400-411 | raising the numbers of a rightly numbered UNION branch by what its parent has pushed keeps it right |
| `Misbindings.SearchMisbinds` | packages/compiler/src/plan.ts:366-375 | full-text search beside a filter is bound in the wrong order |
| `Misbindings.WithMisbinds` | packages/compiler/src/plan.ts:420-429 | a WITH query with a value before a filter with a value is bound in the wrong order |
| `Misbindings.DeniedMisbinds` | packages/compiler/src/plan.ts:337-339 | a denied SELECT with `json_set` has a placeholder without a value |
| `Misbindings.DisplacedMisbinds` | packages/compiler/src/plan.ts:360-365 | an FTS5 source over a FROM subquery with a value is misbound |
| `Misbindings.SubqueryMisnumbers` | packages/compiler/src/plan.ts:200-203 | a filter subquery behind another value is misnumbered in PostgreSQL |
| `Misbindings.UnionRenamesColumn` | packages/compiler/src/plan.ts:400-411 | the renumbering of a UNION branch renames its column `c$1` to `c$2` |
| `Misbindings.RawParameterBinds` | packages/compiler/src/plan.ts:228-238 | a raw filter with a placeholder and its parameter binds rightly in every dialect |
| `Misbindings.RawParameterMisnumbers` | packages/compiler/src/plan.ts:228-238 | in PostgreSQL the `$1` of a raw filter behind a filter takes the value of that filter |
| `Lexical.ReplaceIsTokenwise` | packages/compiler/src/plan.ts:407-410 | the regular expression works token by token on every stream whose tokens keep apart |
| `Lexical.RenumberIsReplace` | packages/compiler/src/plan.ts:407-410 | renumbering the text of a statement, names and raw text included, is renumbering its tokens |
| `Rewriting.TameStays` | packages/compiler/src/plan.ts:407-410 | renumbering leaves a text as it is exactly when it has no number behind a `$`, or nothing is added and no number has a leading zero |
| `Dialects.BranchIsRewritten` | packages/compiler/src/plan.ts:400-415 | on every plan nested to any depth, the text of a UNION branch is its keyword and, in parentheses, the finished text of its statement put through the regular expression |
| `Dialects.ErasedPostgresIsSqlite` | packages/compiler/src/dialect.ts:29-57 | the PostgreSQL statement without its numbers is the SQLite statement exactly when renumbering meets placeholders only |
| `Dialects.NumberFreeIsTame` | packages/compiler/src/plan.ts:407-410 | names and raw text without a number behind a `$` are safe in UNION branches at any depth |
| `Dialects.CacheKeyIsSqlite` | packages/compiler/src/optimizer.ts:89-91 | the plan cache key of the PostgreSQL form is the SQLite text, when names and raw text have no number behind a `$` |
| `Dialects.PgSqlAgrees` | packages/driver-postgres/src/index.ts:243-251 | on plans of both fragments the driver's rewriting of the SQLite form is the PostgreSQL form, exactly when that form has no question mark of its own |
| `PgDriver.PostgresDriver.PgSql` | packages/driver-postgres/src/index.ts:243-251 | the rewriting is the same whatever the memo holds, and every memo entry stays a rewriting of its key |
| `Balance.PlanBalanced` | packages/compiler/src/plan.ts:163-512 | the parentheses of every rendered statement are balanced, so a nested statement can be skipped as a whole |
| `Reading.ConditionsRead` | packages/compiler/src/plan.ts:228-238 | the text behind WHERE reads back, AND before OR and BETWEEN with its own AND, as the parts it was printed from, whatever follows and whatever is joined to it; it is unreadable exactly when a group is empty or an IN subquery has no column |
| `Reading.SearchReads` | packages/compiler/src/plan.ts:258-276 | the full-text condition reads back as one test in all three modes |
| `Reading.SetOpsRead` | packages/compiler/src/plan.ts:394-417 | the set operations behind a SELECT read back, keyword by keyword and statement by statement, in order |
| `Where.SecondWhere` | packages/compiler/src/plan.ts:369-375 | full-text search prints a second WHERE exactly when there are raw filters and no others |
| `Where.WhereMeans` | packages/compiler/src/plan.ts:190-238 | in three-valued logic, for every meaning of the tests, the conditions are the conjunction of the filter trees |
| `Where.ConjunctionExactly` | packages/compiler/src/plan.ts:228-238 | with filters present this holds exactly when no raw filter has an OR at its top level, raw text not being parenthesised |
| `Where.FiltersIntersect` | packages/query/src/index.ts:55-62 | a row passes after adding filters exactly when it passed before and passes the added ones, the first filter of a builder included |
| `Clauses.BoundClause` | packages/compiler/src/plan.ts:228-238 | the compiled and bound UPDATE, DELETE or SELECT has its WHERE clause behind its head, ending where the rest begins, and reads as the parts of the plan: a search is joined to the last alternative of a raw OR only, and a second WHERE makes the clause unreadable |
| `Clauses.BoundMeans` | packages/compiler/src/plan.ts:493-511 | without a raw OR and a second WHERE the bound statement lets a row through exactly as filters, raw filters and search, each taken as a whole, do together |
| `Clauses.BoundExactly` | packages/compiler/src/plan.ts:369-375 | behind at least one filter this holds on all rows exactly when no raw filter has an OR at its top level |
| `Where.BuildersMean` | packages/query/src/index.ts:789-804 | `and` and `or` mean conjunction and disjunction, single filters included |
| `Where.RowPasses` | packages/compiler/src/plan.ts:190-238 | without raw ORs the clause lets a row through exactly when it passes every filter and raw filter, where it passes an AND when it passes all parts and an OR when it passes one |
| `MemoryCaches.MemoryCache.PushHead` | packages/cache/src/memory.ts:289-295 | the new node is first, and the chain of matching links stays |
| `MemoryCaches.MemoryCache.RemoveNode` | packages/cache/src/memory.ts:297-302 | the node leaves the chain, all others keep their order and matching links |
| `MemoryCaches.MemoryCache.MoveToHead` | packages/cache/src/memory.ts:304-308 | the node moves to the front, the others keep their order |
| `MemoryCaches.MemoryCache.Get` | packages/cache/src/memory.ts:87-117 | a hit returns the touched entry and keeps the structure; the structure breaks exactly on a hit that has expired, which leaves the list but stays in the map and the byte count |
| `MemoryCaches.MemoryCache.Set` | packages/cache/src/memory.ts:119-183 | list, map, bytes, tag index and counters follow the specified write, including eviction of the very key that is overwritten |
| `MemoryCaches.MemoryCache.Delete` | packages/cache/src/memory.ts:185-196 | the entry leaves list, map, byte count and its tags; the answer says whether it was there |
| `MemoryCaches.MemoryCache.Clear` | packages/cache/src/memory.ts:198-215 | everything, or one namespace; an empty namespace means everything, and clearing everything restores the structure from any state |
| `MemoryCaches.MemoryCache.InvalidateTag` | packages/cache/src/memory.ts:262-271 | walking the key set while it shrinks deletes exactly the listed keys, and the count is the drop in size |
| `MemoryCaches.MemoryCache.Evict` | packages/cache/src/memory.ts:310-314 | the loop ends, with room for the bytes needed or nothing left |
| `MemoryCaches.MemoryCache.EvictOne` | packages/cache/src/memory.ts:316-359 | the victim of each of the four strategies leaves all five structures; an empty list makes it do nothing |
| `MemoryCaches.MemoryCache.NearestExpiringNode` | packages/cache/src/memory.ts:361-372 | the first entry in map order that expires first, else the tail |
| `MemoryCaches.MemoryCache.Cleanup` | packages/cache/src/memory.ts:374-385 | sweeping the map while deleting from it removes exactly the expired entries and leaves the tag index alone |
| `MemoryCaches.Replay` | packages/cache/src/memory.ts:87-385 | over any run that reads no expired entry the object keeps its invariant and follows the run of values |
| `MemoryCaches.ExpiredReadStalls` | packages/cache/src/memory.ts:95-98 | a run of two calls that breaks the invariant and after which evicting makes no headway, so the eviction loop cannot end |
| `CacheSpec.SetBounded` | packages/cache/src/memory.ts:119-165 | under every strategy a write keeps the entry and byte limits exactly when the value alone fits |
| `CacheSpec.RunBounded` | packages/cache/src/memory.ts:119-165 | in every run whose values fit, size and bytes stay within the limits |
| `CacheSpec.EvictWf` | packages/cache/src/memory.ts:310-359 | evicting keeps the invariant and stops with room or empty |
| `CacheSpec.TagInvalidationComplete` | packages/cache/src/memory.ts:262-271 | in every reachable state nothing tagged survives invalidation and entries not listed under the tag stay as they are, in order |
| `Lifetimes.HeldAsWritten` | packages/cache/src/memory.ts:87-183 | in every run a held entry has the value, tags, namespace and creation time of the last write, counts the reads since, and expires by the TTL of the write or, once read, by the sliding TTL |
| `Lifetimes.ExpiresExactly` | packages/cache/src/memory.ts:94-109 | a held entry counts as expired exactly past the deadline that its last write and last read set |
| `Lifetimes.SweptExactly` | packages/cache/src/memory.ts:374-390 | the sweep removes exactly the entries past their deadline |
| `Lifetimes.ClearedExactly` | packages/cache/src/memory.ts:198-216 | clearing a namespace removes exactly what was last written to it, absent counting as `default`; without a name everything goes |
| `Lifetimes.InvalidatedWereTagged` | packages/cache/src/memory.ts:167-271 | invalidating a tag removes every entry whose last write carries it, and none that was never written with it |
| `Victims.InsertionOrder` | packages/cache/src/memory.ts:119-165 | in every run under any strategy but LRU the list is in order of insertion, which overwriting does not change, and the key map in the opposite order |
| `Victims.FirstInFirstOut` | packages/cache/src/memory.ts:316-359 | FIFO evicts the entry that was inserted first; so does LFU |
| `Victims.FirstToExpire` | packages/cache/src/memory.ts:361-372 | the ttl-only strategy evicts the entry that expires first, among equals the one inserted first, and when none expires the one inserted first |
| `Victims.LfuIsFifo` | packages/cache/src/memory.ts:322-333 | every run under LFU has the same entries in the same order as under FIFO, since no read raises a frequency |
| `Victims.EvictsAtNeed` | packages/cache/src/memory.ts:310-314 | the eviction loop stops as soon as the value fits: before the last victim went it did not |
| `Victims.RoomKeeps` | packages/cache/src/memory.ts:119-165 | a write for which there is room loses no other entry |
| `Recency.RecencyOrder` | packages/cache/src/memory.ts:111-114 | in every LRU run the list is ordered by last touch, so the victim is the least recently used entry |
| `Recency.Inclusion` | packages/cache/src/memory.ts:148-163 | on a common run without byte pressure and reads of expired entries, in which the writes of a key agree on every tag that is invalidated, a larger LRU cache holds everything a smaller one holds, unchanged and in the same relative order |
| `Recency.NoLostHit` | packages/cache/src/memory.ts:87-163 | on such a run a larger cache never loses a hit and answers with the same entry |
| `Recency.Survival` | packages/cache/src/memory.ts:304-359 | in a run without byte pressure and reads of expired entries, a touched key is still a hit with its value while fewer other keys than there is room for are touched, whatever writes, deletions, clears, invalidations and sweeps of other keys there are |
| `Inclusions.InclusionExactly` | packages/cache/src/memory.ts:119-271 | for every set of operations that a program performs, any TTLs and any two sizes: all its runs without byte pressure and reads of expired entries keep inclusion, and none loses a hit, exactly when no key is written both with and without a tag that is invalidated, or the smaller cache has room for all keys written, or both have the same room |
| `Inclusions.InclusionAtAllSizes` | packages/cache/src/memory.ts:119-271 | at all sizes they do exactly when no key is written both with and without a tag that is invalidated, or no two keys are written |
| `Inclusions.TagLosesHit` | packages/cache/src/memory.ts:148-177 | the run that fails, for all writes it can be made of: a key with the tag, as many others as the smaller cache has room for, the key without the tag, the invalidation |
| `Inclusions.StaleTagLosesHit` | packages/cache/src/memory.ts:167-177 | a run in which a stale tag pair survives an overwrite in the larger cache only, which then loses the hit |
| `CacheLevels.Simulation` | packages/cache/src/memory.ts:87-385 | every run of the memory cache, operation by operation, is a run of a map of values with losses where it evicts; the tag index agrees throughout, stale pairs included |
| `CacheLevels.LastWriteHeld` | packages/cache/src/memory.ts:87-183 | in every run a key that is held has the value last written under it |
| `CacheKeys.Hash` | packages/cache/src/query.ts:55-61 | wrapping to 32 bits at every step gives the polynomial of the UTF-16 code units wrapped once |
| `CacheKeys.KeysAreHashes` | packages/cache/src/query.ts:45-61 | two keys, written in base 36 with a sign, are equal exactly when the hashes are |
| `CacheKeys.KeyReads` | packages/cache/src/query.ts:45-61 | the hash reads back from the base-36 digits of the key |
| `CacheKeys.UsersKey` | packages/cache/src/query.ts:45-61 | the key of a table named `users`, digit by digit |
| `CacheKeys.KeysCollide` | packages/cache/src/query.ts:45-61 | a family of name pairs, in any context, that share a key |
| `CacheBridges.CacheManager.Get` | packages/cache/src/manager.ts:112-133 | first level, then second with a refill that drops the tags |
| `CacheBridges.CacheManager.Set` | packages/cache/src/manager.ts:135-148 | both levels get the value with the caller's TTL, or the manager's when there is none |
| `CacheBridges.CacheManager.Delete` | packages/cache/src/manager.ts:150-158 | the key leaves both levels |
| `CacheBridges.CacheManager.InvalidateTag` | packages/cache/src/manager.ts:168-172 | only the first level is invalidated by tag, down to the stale pairs of its tag index, and the count is the drop in size |
| `CacheBridges.CacheBridge.ResolvePlan` | packages/cache/src/bridge.ts:35-80 | bypass, uncacheable, hit, and miss with population |
| `CacheBridges.CacheBridge.InvalidateAfterWrite` | packages/cache/src/bridge.ts:86-95 | tag invalidation, then deletion of the plan's own key at both levels |
| `Expiry.AnsweredInTime` | packages/cache/src/manager.ts:112-172 | over every run of the manager without a sliding TTL, with losses at any time: a value that is answered is the last one written under the key and neither deleted since, within the caller's TTL or else the manager's, or, with a second level, within the memory cache's own TTL of a read that was |
| `Expiry.AnsweredUntil` | packages/cache/src/manager.ts:112-172 | conversely the last write is answered until its TTL has run out, unless the level that answers in the end has lost it |
| `Expiry.BridgeCalls` | packages/cache/src/bridge.ts:35-95 | every run of the bridge is the run of the manager over the calls it stands for: which reads are looked up, under which key, with which TTL and tags they are stored, and what a write invalidates and deletes |
| `Expiry.ReadThrough` | packages/cache/src/bridge.ts:35-80 | a read gives what executing its plan returns, or the last result stored for its table within the TTL it was stored with |
| `Expiry.ReadAgain` | packages/cache/src/bridge.ts:35-80 | within that TTL, and undisturbed, the plan is not executed again |
| `Coherence.StepCurrent` | packages/cache/src/bridge.ts:35-95 | every read, write and loss of a program keeps what both levels hold for its reads current, and a read returns what executing returns now |
| `Coherence.CoherentExactly` | packages/cache/src/bridge.ts:35-95 | for every set of plans that a program reads and writes with, with or without a second level, with losses at any time and any clock: all runs are coherent exactly when reads that share a key agree and a write changes only results of these reads under the key it deletes |
| `Coherence.ApartExactly` | packages/cache/src/bridge.ts:35-95 | when no two reads share a key, all runs are coherent exactly when writes change results under the deleted key only |
| `Coherence.OnePlanCoherent` | packages/cache/src/bridge.ts:35-95 | with one read plan per table, no colliding names, and writes that touch their own table, every read of every run returns what executing returns now |
| `Coherence.CoherenceAsks` | packages/cache/src/query.ts:95-100 | coherence needs all reads of one table, and of tables with colliding names, to return the same |
| `LockObjects.InProcessLock.Acquire` | packages/cache/src/manager.ts:31-39 | granted exactly when there is no lease or it has run out; a refusal changes nothing |
| `LockObjects.InProcessLock.Release` | packages/cache/src/manager.ts:41-43 | the entry of the key is removed |
| `LockObjects.Interleave` | packages/cache/src/manager.ts:45-53 | every interleaving of callers drives the lock through the run of the state machine |
| `Locks.ExclusiveExactly` | packages/cache/src/manager.ts:28-54 | mutual exclusion holds throughout exactly when nobody asks for a key at or after the expiry of a body still running under it |
| `Locks.ReleasesItsOwn` | packages/cache/src/manager.ts:41-53 | leaving removes the caller's own entry and no other; a caller turned away changes nothing |
| `Locks.WithinLeasesExclusive` | packages/cache/src/manager.ts:28-54 | bodies that finish within their leases are exclusive |
| `Locks.GrantedExactly` | packages/cache/src/manager.ts:28-54 | in a run that is in time a caller is let in, with a lease to its own expiry, exactly when no body runs under the key |
| `Locks.RefusalExplained` | packages/cache/src/manager.ts:31-39 | in any run whoever is turned away meets a lease that was granted under the key, not released since and not run out |
| `Refreshers.BackgroundRefresher.ResolveKey` | packages/cache/src/warming.ts:126-151 | fresh, stale with a refresh, or fetched |
| `Refreshers.BackgroundRefresher.RefreshInBackground` | packages/cache/src/warming.ts:153-164 | one refresh per key and no more than the limit; a fetch that throws at once is counted but not pending |
| `Refreshers.Interleave` | packages/cache/src/warming.ts:109-164 | any interleaving of reads and of fetches that settle drives the refresher through the run of the state machine, with its answers |
| `Refresh.Conservation` | packages/cache/src/warming.ts:109-164 | over every interleaving the counter is the number of pending keys plus the throws so far, never above the limit, and no key is refreshed twice at a time |
| `Refresh.ThrowsUseUp` | packages/cache/src/warming.ts:157-158 | after as many such throws as the limit no refresh starts again |
| `Refresh.ReadReturns` | packages/cache/src/warming.ts:126-151 | over every run a cached value is returned exactly below one of the two limits, as it is, and flagged stale exactly from the refresh limit on |
| `Refresh.StaleReadRefreshes` | packages/cache/src/warming.ts:142-164 | a stale read starts a refresh exactly when its key has none under way and those under way and thrown are fewer than the limit |
| `RateLimiters.RateLimiter.Check` | packages/driver/src/security.ts:217-226 | counting within a window and the decision |
| `RateLimiters.RateLimiter.Cleanup` | packages/driver/src/security.ts:235-240 | exactly the windows that are over are deleted |
| `RateLimiters.InMemoryRateLimiter.Check` | packages/auth/src/core/rate-limiter.ts:34-56 | decision, end of the window, and remaining requests, which for the first request of a window are the maximum less one even if that is negative |
| `RateLimiters.InMemoryRateLimiter.Cleanup` | packages/auth/src/core/rate-limiter.ts:58-65 | exactly the windows that are over are deleted |
| `RateLimits.CleanupInvisible` | packages/driver/src/security.ts:235-240 | cleaning up at any points of a trace changes no answer |
| `RateLimits.SameDecisions` | packages/auth/src/core/rate-limiter.ts:34-56 | the two limiters decide alike on every trace exactly when the maximum is at least one |
| `RateLimits.SpanBound` | packages/driver/src/security.ts:204-241 | any span of one window length, ends included, lets at most `2 * max - 1` requests of a key pass |
| `RateLimits.SpanBoundReached` | packages/driver/src/security.ts:217-226 | a trace that reaches the bound |
| `RateLimits.RefusedOnlyWhenFull` | packages/driver/src/security.ts:204-241 | with cleanups at any points, a request is refused only if as many requests of its key as the maximum have passed within the window length before it |
| `RelationLoader.Resolve` | packages/query/src/index.ts:818-906 | the batched loader with its in-place completion of shared rows keeps count, order and columns of the parents, and every row shows the tree that naive loading gives, an absent relation counting as null or empty |
| `RelationLoader.LoadEntry` | packages/query/src/index.ts:834-902 | one entry of the `with` tree for a whole batch; unknown relations and batches without keys are skipped |
| `RelationLoader.Load` | packages/query/src/index.ts:845-900 | one query, new parents with links, then completion of the linked rows, gives each parent what a lookup of its own key gives |
| `RelationLoader.LoadNested` | packages/query/src/index.ts:858-862 | linked rows are completed one by one in place; nothing else changes |
| `RelationLoader.LastByKey` | packages/query/src/index.ts:856 | the last row under a key wins |
| `RelationLoader.FirstByKey` | packages/query/src/index.ts:886-891 | the first row under a key wins |
| `RelationLoader.GroupByKey` | packages/query/src/index.ts:873-878 | all rows under a key, in order |
| `RelationLoader.Query` | packages/query/src/index.ts:847-855 | one query for all keys, in table order, every row a new object |
| `RelationLoader.GroupIsMatching` | packages/query/src/index.ts:873-879 | grouping the answer to one query for many keys gives what one query per key gives |
| `RelationSpec.BatchIsNaive` | packages/query/src/index.ts:818-906 | for all tables, cyclic ones included, all `with` trees and batches, batched loading agrees with naive loading cut at depth 4 |
| `RelationLinks.LinksRight` | packages/query/src/index.ts:845-900 | for the catalog's first table of the name, down to depth 4: belongsTo links the last target row whose localKey is the parent's foreignKey, hasOne the first and hasMany all in order whose foreignKey is the parent's localKey, none missing and none foreign |
| `RelationLinks.NothingElse` | packages/query/src/index.ts:818-834 | nothing is loaded below depth 4 and nothing that was not asked for |
| `SchemaDiff.DiffSchemas` | packages/migration/src/diff.ts:31-78 | the loops push exactly the specified changes in order, with the destructive ones singled out |
| `SchemaDiff.TableCarried` | packages/migration/src/diff.ts:44-65 | the changes of one table can all be carried out and leave the kept columns in old order, revised where they differ, then the new ones |
| `SchemaDiff.DiffCarries` | packages/migration/src/diff.ts:31-97 | applying the diff in order never fails and gives the new schema up to column order and what the diff counts as the same column |
| `SchemaDiff.RediffEmpty` | packages/migration/src/diff.ts:62-97 | diffing the result again finds nothing, except for a unique column that silently stopped being the primary key |
| `SchemaMeaning.DiffDelivers` | packages/migration/src/diff.ts:31-97 | what the diff delivers agrees with the new schema field by field: type, nullable, unique, default, default expression, on-update, check, reference and enum values, absent text read as empty |
| `SchemaMeaning.DiffIs` | packages/migration/src/diff.ts:31-97 | the diff lists a change exactly when it belongs to the difference; among others it alters a column exactly when one of these fields differs |
| `SchemaMeaning.ReviewIs` | packages/migration/src/diff.ts:67-78 | what is singled out as destructive is exactly the dropped tables, dropped columns and altered columns |
| `SchemaMeaning.LatestIs` | packages/migration/src/diff.ts:31-42 | of definitions with one name the last counts |
| `Generation.GenerateMigrationSql` | packages/migration/src/generate.ts:49-63 | up in order, down reversed, review flag |
| `Generation.ApplyChange` | packages/migration/src/generate.ts:65-105 | the statements of each kind of change |
| `Generation.UndoesExactly` | packages/migration/src/generate.ts:65-105 | down right after up restores tables, column order and indexes exactly when the change is undoable: never for drops of tables and columns, for an altered column when the old type was as recorded and NOT NULL was not newly set, for a dropped index when it was not unique |
| `Generation.MigrationUndone` | packages/migration/src/generate.ts:49-105 | a whole migration of undoable changes is undone by its generated down |
| `Generation.DiffMigration` | packages/migration/src/generate.ts:49-105 | a diff without destructive changes runs through exactly when its index names are free, leaves the new schema, and its down restores the database exactly |
| `Undoing.DiffUndone` | packages/migration/src/generate.ts:49-105 | once the up of a diff, destructive or not, has run, its generated down restores the database exactly when nothing is dropped and no column becomes NOT NULL that admitted NULL |
| `Reaching.UpLeaves` | packages/migration/src/generate.ts:49-105 | once the up of any diff has run, the database has the tables of the new schema with its columns and no others: new ones as defined, kept ones with the new type, NOT NULL if they were or are asked to be, and otherwise as they were |
| `Reaching.UpReachesExactly` | packages/migration/src/generate.ts:84-95 | that is the new schema field by field exactly when every altered column differs in its type and in becoming NOT NULL only |
| `Generation.NamesCollide` | packages/migration/src/generate.ts:95-98 | two different columns whose indexes get the same name |
| `Migrations.LogIsReplayed` | packages/migration/src/migrator.ts:76-132 | over any run of applying and rolling back the live schema is the replay of the recorded log |
| `Migrations.AdditiveRunsUndo` | packages/migration/src/migrator.ts:76-132 | for steps that only add this needs no condition on rollbacks |
| `Migrations.RollbackConsistent` | packages/migration/src/migrator.ts:109-119 | rolling back drops the last record and restores the schema before it; an empty down is refused |
| `Migrations.AppliedIsNotPending` | packages/migration/src/migrator.ts:65-69 | an applied step leaves the pending list, which otherwise stays as it is |
| `Migrations.PendingIs` | packages/migration/src/migrator.ts:65-69 | pending are exactly the known steps whose names are not in the log |
| `Migrations.AppliedExactly` | packages/migration/src/migrator.ts:76-101 | after any run a step is recorded, and its statements carried out, exactly when it is no preview, drops nothing or has consent, has a new name and runs through; otherwise log and schema stay |
| `Migrations.LogHasConsent` | packages/migration/src/migrator.ts:76-85 | over any run no step enters the log without an event that applies it, and no destructive one without the caller's consent |
| `Migrators.Migrator.Execute` | packages/migration/src/migrator.ts:90-92 | statement by statement, up to the first refusal |
| `Migrators.Migrator.Apply` | packages/migration/src/migrator.ts:76-101 | refusal of destructive steps, preview, and the transaction with its record |
| `Migrators.Migrator.RollbackLast` | packages/migration/src/migrator.ts:109-119 | nothing to undo, refusal of an empty down, or the down of the last record |
| `Migrators.Migrator.ApplyDown` | packages/migration/src/migrator.ts:122-132 | the down and the deletion of the record stand or fall together |
| `Migrators.Migrator.Pending` | packages/migration/src/migrator.ts:65-69 | the known migrations not recorded, in the order given |

## Left out

- Raw text other than raw filters (select expressions, window functions, aggregates, joins, ORDER BY, LIMIT, locks, JSON paths) is opaque and binds nothing.
- The text of a raw filter is given as the database of the dialect reads it, its placeholders `?` or `$n` among opaque pieces; SQLite's named and numbered parameters are not modelled.
- Numbers behind a `$` beyond the exact integers of JavaScript, which `Number` would round.
- The check of filter columns against a populated `columnTypes`, a search that ends in an error before anything is compiled.
- The other fields of a compiled statement (`columnTypes`, `table`, `returning`).
- Reading.Readable: an empty IN list counts as readable and as a test that SQLite accepts, also in PostgreSQL and MySQL, which refuse `IN ()`; this carries over to the results of `Reading`, `Where` and `Clauses`.
- The bound clause of INSERT (it has none) and of denied SELECTs; HAVING, which is bound like WHERE, is given no meaning.
- `close`, `increment`, `keys`, `has`, `getByTag`, statistics and the JSON text of values other than strings in the memory cache; a cached value is its serialized text.
- MemoryCaches.MemoryCache.Get: returns the metadata as a value, not the shared object that the cache goes on updating.
- Ties between awaits: every operation of a cache, limiter, lock or refresher runs as one step at one clock reading.
- Writes to the second cache level happen at once and never fail; nothing in the code orders the unawaited ones. A read racing with a write is not modelled either.
- Expiry.AnsweredInTime: only managers without a sliding TTL, which lets every read move the deadline; `Lifetimes` covers the memory cache with one.
- Invalidation events and their listeners, and the analysis of raw SQL text for caching.
- CacheLevels.Simulation: covers runs that read no expired entry, after which the object no longer has its invariant; in the level such a read is a miss that changes nothing.
- `resolveRelations` of the schema package, which batches and completes rows the same way as the loader modelled here; relation names that are also column names; a failing query; values that SQL compares as equal although JavaScript does not.
- `where`, `orderBy` and `limit` inside relation options: the loader does not read them.
- The SQL text of DDL: type names per dialect, defaults, checks, references, and engine-specific refusals; a column that an index uses cannot be dropped, and a dropped table takes its indexes along.
- Table-level keys and constraints, which the diff ignores; the checksum and time of a migration record; statements that touch the record table itself.
- Connection pools, retries, drivers, servers, authentication, encryption and the rest of the repository.
