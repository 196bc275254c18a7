/** The first cache level as the manager sees it: values under keys, and the tag index. */
module Levels {
  import opened Wrappers
  import CacheSpec

  datatype Entry = Entry(value: string, expiresAt: int, tags: seq<string>)

  /** `index` lists keys under tags; a pair outlives an overwrite of its entry. */
  datatype Level = Level(entries: map<string, Entry>, index: map<string, set<string>>)

  const NOTHING := Level(map[], map[])

  predicate Live(entries: map<string, Entry>, key: string, now: int) {
    key in entries && !(entries[key].expiresAt > 0 && now > entries[key].expiresAt)
  }

  function ExpiresAt(ttl: int, now: int): int {
    if ttl > 0 then now + ttl * 1000 else 0
  }

  /** A hit moves a sliding expiry; a miss, also of an expired entry, changes nothing here. */
  function Touch(s: Level, sliding: int, key: string, now: int): Level {
    if Live(s.entries, key, now) && sliding > 0 then
      s.(entries := s.entries[key := s.entries[key].(expiresAt := now + sliding * 1000)])
    else s
  }

  function Put(s: Level, key: string, value: string, ttl: int, tags: Option<seq<string>>, now: int): Level {
    Level(s.entries[key := Entry(value, ExpiresAt(ttl, now), if tags.Some? then tags.value else [])],
          if tags.Some? then CacheSpec.AddTags(s.index, tags.value, key) else s.index)
  }

  /** The keys of `gone` whose entry carries the tag. */
  function Carriers(s: Level, gone: set<string>, tag: string): set<string> {
    set k | k in gone && k in s.entries && tag in s.entries[k].tags
  }

  /** Entries that go are taken off the tag index under the tags they carry. */
  function Lose(s: Level, gone: set<string>): Level {
    Level(s.entries - gone, map t | t in s.index :: s.index[t] - Carriers(s, gone, t))
  }

  /** The sweep of expired entries leaves the tag index as it is. */
  function Sweep(s: Level, gone: set<string>): Level {
    s.(entries := s.entries - gone)
  }

  /** Everything that the index lists under the tag goes, whether or not it still carries the tag. */
  function DropTag(s: Level, tag: string): Level {
    if tag !in s.index then s
    else
      var t := Lose(s, s.index[tag]);
      t.(index := t.index - {tag})
  }

  // ---- runs of a level ----

  datatype Move =
    | DoTouch(key: string, now: int)
    | DoPut(key: string, value: string, ttl: int, tags: Option<seq<string>>, now: int)
    | DoLose(gone: set<string>)
    | DoSweep(gone: set<string>)
    | DoDropTag(tag: string)
    | DoReset

  function Moved(s: Level, sliding: int, m: Move): Level {
    match m
    case DoTouch(key, now) => Touch(s, sliding, key, now)
    case DoPut(key, value, ttl, tags, now) => Put(s, key, value, ttl, tags, now)
    case DoLose(gone) => Lose(s, gone)
    case DoSweep(gone) => Sweep(s, gone)
    case DoDropTag(tag) => DropTag(s, tag)
    case DoReset => NOTHING
  }

  function After(s: Level, sliding: int, moves: seq<Move>): Level
    decreases |moves|
  {
    if moves == [] then s else Moved(After(s, sliding, moves[..|moves| - 1]), sliding, moves[|moves| - 1])
  }

  lemma {:induction false} AfterConcat(s: Level, sliding: int, a: seq<Move>, b: seq<Move>)
    ensures After(s, sliding, a + b) == After(After(s, sliding, a), sliding, b)
    decreases |b|
  {
    if b == [] {
      assert a + b == a;
    } else {
      var c := a + b;
      assert c[..|c| - 1] == a + b[..|b| - 1] && c[|c| - 1] == b[|b| - 1];
      AfterConcat(s, sliding, a, b[..|b| - 1]);
    }
  }
}
