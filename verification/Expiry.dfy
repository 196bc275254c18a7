/** How long a value is answered by the manager over its levels, and by the bridge that reads query
    results through it. Times are milliseconds of a clock that starts at 0, TTLs are seconds; a TTL of 0
    or less means for good. */
module Expiry {
  import opened Wrappers
  import opened CacheKeys
  import opened Coherence
  import CacheSpec
  import Levels

  // ---- runs of the manager ----

  datatype Call =
    | DoGet(key: string, now: nat)
    | DoSet(key: string, value: string, opts: CacheSpec.SetOptions, now: nat)
    | DoDelete(key: string)
    | DoInvalidate(tag: string)
    | DoLose(gone1: set<string>, swept1: set<string>, gone2: set<string>)

  function Next(s: Caches, cfg: Config, call: Call): Caches {
    match call
    case DoGet(key, now) => Get(s, cfg, key, now).0
    case DoSet(key, value, opts, now) => Set(s, cfg, key, value, opts, now)
    case DoDelete(key) => Delete(s, key)
    case DoInvalidate(tag) => InvalidateTag(s, tag)
    case DoLose(gone1, swept1, gone2) => Evict(s, gone1, swept1, gone2)
  }

  function After(cfg: Config, second: bool, calls: seq<Call>): Caches
    decreases |calls|
  {
    if calls == [] then Empty(second) else Next(After(cfg, second, calls[..|calls| - 1]), cfg, calls[|calls| - 1])
  }

  /** What a read answers after the calls. */
  function Answered(cfg: Config, second: bool, calls: seq<Call>, key: string, now: nat): Option<string> {
    Get(After(cfg, second, calls), cfg, key, now).1
  }

  // ---- the last write ----

  datatype Stored = Stored(value: string, ttl: int, at: nat)

  /** The caller's TTL when there is one, else the manager's. */
  function LastWrite(cfg: Config, calls: seq<Call>, key: string): Option<Stored>
    decreases |calls|
  {
    if calls == [] then None
    else
      var last, before := calls[|calls| - 1], calls[..|calls| - 1];
      match last
      case DoSet(k, value, opts, now) =>
        if k == key then Some(Stored(value, match opts.ttl case Some(t) => t case None => cfg.defaultTtl, now))
        else LastWrite(cfg, before, key)
      case DoDelete(k) => if k == key then None else LastWrite(cfg, before, key)
      case _ => LastWrite(cfg, before, key)
  }

  /** When the key was read since it was last written or deleted. */
  function ReadsSince(calls: seq<Call>, key: string): seq<nat>
    decreases |calls|
  {
    if calls == [] then []
    else
      var last, before := calls[|calls| - 1], calls[..|calls| - 1];
      match last
      case DoGet(k, now) => ReadsSince(before, key) + if k == key then [now] else []
      case DoSet(k, _, _, _) => if k == key then [] else ReadsSince(before, key)
      case DoDelete(k) => if k == key then [] else ReadsSince(before, key)
      case _ => ReadsSince(before, key)
  }

  predicate InTime(ttl: int, at: nat, now: nat) {
    ttl <= 0 || now <= at + 1000 * ttl
  }

  /** Since it was last written the key was not taken from the level that answers in the end. */
  predicate Undisturbed(second: bool, calls: seq<Call>, key: string)
    decreases |calls|
  {
    if calls == [] then false
    else
      var last, before := calls[|calls| - 1], calls[..|calls| - 1];
      match last
      case DoGet(_, _) => Undisturbed(second, before, key)
      case DoSet(k, _, _, _) => k == key || Undisturbed(second, before, key)
      case DoDelete(k) => k != key && Undisturbed(second, before, key)
      case DoInvalidate(_) => second && Undisturbed(second, before, key)
      case DoLose(gone1, swept1, gone2) =>
        (if second then key !in gone2 else key !in gone1 && key !in swept1) && Undisturbed(second, before, key)
  }

  // ---- what the levels hold ----

  function Ends(ttl: int, at: nat): int {
    if ttl > 0 then at + 1000 * ttl else 0
  }

  /** An entry of the first level: from the last write, or filled again by a read since. */
  ghost predicate HeldFirst(cfg: Config, second: bool, calls: seq<Call>, key: string, e: Levels.Entry) {
    var w := LastWrite(cfg, calls, key);
    && w.Some? && e.value == w.value.value
    && (e.expiresAt == Ends(w.value.ttl, w.value.at) ||
        (second && exists r | r in ReadsSince(calls, key) ::
           InTime(w.value.ttl, w.value.at, r) && e.expiresAt == Ends(cfg.memoryTtl, r)))
  }

  ghost predicate HeldSecond(cfg: Config, calls: seq<Call>, key: string, e: Levels.Entry) {
    var w := LastWrite(cfg, calls, key);
    w.Some? && e.value == w.value.value && e.expiresAt == Ends(w.value.ttl, w.value.at)
  }

  ghost predicate Holds(cfg: Config, second: bool, calls: seq<Call>, s: Caches) {
    && (s.l2.Some? <==> second)
    && (forall k | k in s.l1.entries :: HeldFirst(cfg, second, calls, k, s.l1.entries[k]))
    && (second ==> forall k | k in s.l2.value :: HeldSecond(cfg, calls, k, s.l2.value[k]))
  }

  lemma {:induction false} RunHolds(cfg: Config, second: bool, calls: seq<Call>)
    requires cfg.slidingTtl <= 0
    ensures Holds(cfg, second, calls, After(cfg, second, calls))
    decreases |calls|
  {
    if calls != [] {
      var before := calls[..|calls| - 1];
      RunHolds(cfg, second, before);
      StepHolds(cfg, second, calls, After(cfg, second, before));
    }
  }

  lemma StepHolds(cfg: Config, second: bool, calls: seq<Call>, s: Caches)
    requires cfg.slidingTtl <= 0 && calls != [] && Holds(cfg, second, calls[..|calls| - 1], s)
    ensures Holds(cfg, second, calls, Next(s, cfg, calls[|calls| - 1]))
  {
    hide Get, Set, Delete, InvalidateTag, Evict, HeldFirst, HeldSecond, LastWrite, ReadsSince;
    match calls[|calls| - 1] {
      case DoGet(key, now) => ReadHolds(cfg, second, calls, s, key, now);
      case DoSet(key, value, opts, now) => WriteHolds(cfg, second, calls, s);
      case DoDelete(key) => DeleteHolds(cfg, second, calls, s);
      case DoInvalidate(tag) => FewerHold(cfg, second, calls, s, InvalidateTag(s, tag)) by { Dropped(s, tag); }
      case DoLose(gone1, swept1, gone2) =>
        FewerHold(cfg, second, calls, s, Evict(s, gone1, swept1, gone2)) by { Lost(s, gone1, swept1, gone2); }
    }
  }

  /** The second state holds part of what the first one holds. */
  ghost predicate Part(t: Caches, s: Caches) {
    && (t.l2.Some? <==> s.l2.Some?)
    && (forall k | k in t.l1.entries :: k in s.l1.entries && t.l1.entries[k] == s.l1.entries[k])
    && (s.l2.Some? ==> forall k | k in t.l2.value :: k in s.l2.value && t.l2.value[k] == s.l2.value[k])
  }

  lemma Dropped(s: Caches, tag: string)
    ensures Part(InvalidateTag(s, tag), s) && InvalidateTag(s, tag).l2 == s.l2
  {
  }

  lemma Lost(s: Caches, gone1: set<string>, swept1: set<string>, gone2: set<string>)
    ensures Part(Evict(s, gone1, swept1, gone2), s)
  {
  }

  /** A call on another key, or on none, leaves the key's history alone. */
  lemma HeldOn(cfg: Config, second: bool, calls: seq<Call>, key: string, e: Levels.Entry)
    requires calls != []
    requires calls[|calls| - 1].DoSet? || calls[|calls| - 1].DoDelete? ==> calls[|calls| - 1].key != key
    ensures HeldFirst(cfg, second, calls[..|calls| - 1], key, e) ==> HeldFirst(cfg, second, calls, key, e)
    ensures HeldSecond(cfg, calls[..|calls| - 1], key, e) ==> HeldSecond(cfg, calls, key, e)
  {
    var before := calls[..|calls| - 1];
    assert LastWrite(cfg, calls, key) == LastWrite(cfg, before, key);
    assert forall r | r in ReadsSince(before, key) :: r in ReadsSince(calls, key);
  }

  lemma FewerHold(cfg: Config, second: bool, calls: seq<Call>, s: Caches, t: Caches)
    requires calls != [] && Holds(cfg, second, calls[..|calls| - 1], s) && Part(t, s)
    requires calls[|calls| - 1].DoGet? || calls[|calls| - 1].DoInvalidate? || calls[|calls| - 1].DoLose?
    ensures Holds(cfg, second, calls, t)
  {
    hide HeldFirst, HeldSecond;
    forall k | k in t.l1.entries ensures HeldFirst(cfg, second, calls, k, t.l1.entries[k]) {
      HeldOn(cfg, second, calls, k, t.l1.entries[k]);
    }
    if second {
      forall k | k in t.l2.value ensures HeldSecond(cfg, calls, k, t.l2.value[k]) {
        HeldOn(cfg, second, calls, k, t.l2.value[k]);
      }
    }
  }

  lemma DeleteHolds(cfg: Config, second: bool, calls: seq<Call>, s: Caches)
    requires calls != [] && Holds(cfg, second, calls[..|calls| - 1], s) && calls[|calls| - 1].DoDelete?
    ensures Holds(cfg, second, calls, Delete(s, calls[|calls| - 1].key))
  {
    hide HeldFirst, HeldSecond;
    var t := Delete(s, calls[|calls| - 1].key);
    forall k | k in t.l1.entries ensures HeldFirst(cfg, second, calls, k, t.l1.entries[k]) {
      HeldOn(cfg, second, calls, k, t.l1.entries[k]);
    }
    if second {
      forall k | k in t.l2.value ensures HeldSecond(cfg, calls, k, t.l2.value[k]) {
        HeldOn(cfg, second, calls, k, t.l2.value[k]);
      }
    }
  }

  lemma WriteHolds(cfg: Config, second: bool, calls: seq<Call>, s: Caches)
    requires calls != [] && Holds(cfg, second, calls[..|calls| - 1], s) && calls[|calls| - 1].DoSet?
    ensures Holds(cfg, second, calls, Next(s, cfg, calls[|calls| - 1]))
  {
    var call := calls[|calls| - 1];
    var t := Next(s, cfg, call);
    Written(cfg, second, calls, s);
    hide HeldFirst, HeldSecond;
    forall k | k in t.l1.entries ensures HeldFirst(cfg, second, calls, k, t.l1.entries[k]) {
      if k != call.key {
        HeldOn(cfg, second, calls, k, t.l1.entries[k]);
      }
    }
    if second {
      forall k | k in t.l2.value ensures HeldSecond(cfg, calls, k, t.l2.value[k]) {
        if k != call.key {
          HeldOn(cfg, second, calls, k, t.l2.value[k]);
        }
      }
    }
  }

  lemma Written(cfg: Config, second: bool, calls: seq<Call>, s: Caches)
    requires calls != [] && calls[|calls| - 1].DoSet? && (s.l2.Some? <==> second)
    ensures var t, key := Next(s, cfg, calls[|calls| - 1]), calls[|calls| - 1].key;
            && key in t.l1.entries && HeldFirst(cfg, second, calls, key, t.l1.entries[key])
            && HeldSecond(cfg, calls, key, t.l1.entries[key])
            && (second ==> key in t.l2.value && HeldSecond(cfg, calls, key, t.l2.value[key]))
  {
  }

  lemma ReadHolds(cfg: Config, second: bool, calls: seq<Call>, s: Caches, key: string, now: nat)
    requires cfg.slidingTtl <= 0 && calls != [] && Holds(cfg, second, calls[..|calls| - 1], s)
    requires calls[|calls| - 1] == DoGet(key, now)
    ensures Holds(cfg, second, calls, Get(s, cfg, key, now).0)
  {
    var t := Get(s, cfg, key, now).0;
    if Levels.Live(s.l1.entries, key, now) || !second || !Levels.Live(s.l2.value, key, now) {
      FewerHold(cfg, second, calls, s, t);
    } else {
      FewerHold(cfg, second, calls, s, s);
      Refilled(cfg, calls, s, key, now);
    }
  }

  lemma Refilled(cfg: Config, calls: seq<Call>, s: Caches, key: string, now: nat)
    requires calls != [] && calls[|calls| - 1] == DoGet(key, now) && s.l2.Some?
    requires Levels.Live(s.l2.value, key, now) && HeldSecond(cfg, calls, key, s.l2.value[key])
    requires !Levels.Live(s.l1.entries, key, now)
    ensures var t := Get(s, cfg, key, now).0;
            && t.l2 == s.l2 && t.l1.entries.Keys == s.l1.entries.Keys + {key}
            && (forall k | k in s.l1.entries && k != key :: t.l1.entries[k] == s.l1.entries[k])
            && HeldFirst(cfg, true, calls, key, t.l1.entries[key])
  {
    assert now in ReadsSince(calls, key);
  }

  // ---- the last write decides ----

  /** A read that answers follows a write of that value under the key, the last one, and comes within
      its TTL; or, with a second level, within the memory cache's own TTL of a read that did. */
  lemma AnsweredInTime(cfg: Config, second: bool, calls: seq<Call>, key: string, now: nat)
    requires cfg.slidingTtl <= 0 && Answered(cfg, second, calls, key, now).Some?
    ensures var w := LastWrite(cfg, calls, key);
            && w.Some? && Answered(cfg, second, calls, key, now) == Some(w.value.value)
            && (InTime(w.value.ttl, w.value.at, now) ||
                (second && exists r | r in ReadsSince(calls, key) ::
                   InTime(w.value.ttl, w.value.at, r) && InTime(cfg.memoryTtl, r, now)))
  {
    RunHolds(cfg, second, calls);
    var s, w := After(cfg, second, calls), LastWrite(cfg, calls, key);
    if Levels.Live(s.l1.entries, key, now) {
      assert HeldFirst(cfg, second, calls, key, s.l1.entries[key]);
      if s.l1.entries[key].expiresAt != Ends(w.value.ttl, w.value.at) {
        var r :| r in ReadsSince(calls, key) && InTime(w.value.ttl, w.value.at, r) &&
          s.l1.entries[key].expiresAt == Ends(cfg.memoryTtl, r);
        assert InTime(cfg.memoryTtl, r, now);
      }
    } else {
      assert HeldSecond(cfg, calls, key, s.l2.value[key]);
    }
  }

  /** The level that answers in the end has the last write; the first level has no other value. */
  ghost predicate Kept(cfg: Config, second: bool, calls: seq<Call>, key: string, s: Caches) {
    && LastWrite(cfg, calls, key).Some?
    && (if second then s.l2.Some? && key in s.l2.value && HeldSecond(cfg, calls, key, s.l2.value[key])
        else s.l2.None? && key in s.l1.entries && HeldSecond(cfg, calls, key, s.l1.entries[key]))
  }

  lemma {:induction false} RunKept(cfg: Config, second: bool, calls: seq<Call>, key: string)
    requires cfg.slidingTtl <= 0 && Undisturbed(second, calls, key)
    ensures Kept(cfg, second, calls, key, After(cfg, second, calls))
    decreases |calls|
  {
    var before, call := calls[..|calls| - 1], calls[|calls| - 1];
    RunHolds(cfg, second, before);
    if call.DoSet? && call.key == key {
      Written(cfg, second, calls, After(cfg, second, before));
    } else {
      RunKept(cfg, second, before, key);
      StepKept(cfg, second, calls, key, After(cfg, second, before));
    }
  }

  lemma StepKept(cfg: Config, second: bool, calls: seq<Call>, key: string, s: Caches)
    requires cfg.slidingTtl <= 0 && calls != [] && Undisturbed(second, calls, key)
    requires !(calls[|calls| - 1].DoSet? && calls[|calls| - 1].key == key)
    requires Kept(cfg, second, calls[..|calls| - 1], key, s)
    ensures Kept(cfg, second, calls, key, Next(s, cfg, calls[|calls| - 1]))
  {
    var t := Next(s, cfg, calls[|calls| - 1]);
    if second {
      HeldOn(cfg, second, calls, key, s.l2.value[key]);
      assert key in t.l2.value && t.l2.value[key] == s.l2.value[key];
    } else {
      HeldOn(cfg, second, calls, key, s.l1.entries[key]);
      assert key in t.l1.entries && t.l1.entries[key] == s.l1.entries[key];
    }
  }

  /** A write is answered until its TTL has run out, as long as it is neither overwritten nor deleted,
      and not lost to the level that answers in the end. */
  lemma AnsweredUntil(cfg: Config, second: bool, calls: seq<Call>, key: string, now: nat)
    requires cfg.slidingTtl <= 0 && Undisturbed(second, calls, key)
    ensures var w := LastWrite(cfg, calls, key);
            w.Some? && (InTime(w.value.ttl, w.value.at, now) ==>
                          Answered(cfg, second, calls, key, now) == Some(w.value.value))
  {
    RunKept(cfg, second, calls, key);
    RunHolds(cfg, second, calls);
    var s := After(cfg, second, calls);
    assert key in s.l1.entries ==> HeldFirst(cfg, second, calls, key, s.l1.entries[key]);
  }

  // ---- the bridge ----

  datatype Use =
    | DoResolve(plan: Plan, opts: QueryOptions, fetched: string, now: nat)
    | AfterDoing(plan: Plan)
    | DoEvict(gone1: set<string>, swept1: set<string>, gone2: set<string>)

  function NextUsed(s: Caches, cfg: Config, use: Use): Caches {
    match use
    case DoResolve(p, opts, fetched, now) => Resolve(s, cfg, p, opts, fetched, now).0
    case AfterDoing(p) => AfterWrite(s, p)
    case DoEvict(gone1, swept1, gone2) => Evict(s, gone1, swept1, gone2)
  }

  function Used(cfg: Config, second: bool, uses: seq<Use>): Caches
    decreases |uses|
  {
    if uses == [] then Empty(second) else NextUsed(Used(cfg, second, uses[..|uses| - 1]), cfg, uses[|uses| - 1])
  }

  /** Only a SELECT is looked up, unless the caller bypasses or switches off the cache; a TTL of zero
      seconds switches it off too. */
  predicate LookedUp(p: Plan, opts: QueryOptions) {
    && p.op == "select" && !opts.bypass
    && match opts.cache
       case Unset => true
       case Flag(on) => on
       case Seconds(n) => n != 0
       case Custom(_) => true
  }

  function TableOr(p: Plan, other: string): string {
    match p.table
    case Some(t) => t
    case None => other
  }

  /** The table as a tag; an empty name is none. */
  function TagsOf(p: Plan): seq<string> {
    if TableOr(p, "") == "" then [] else [TableOr(p, "")]
  }

  /** A result is stored with the caller's seconds or options as they are, and otherwise with the
      manager's TTL under the tag of its table. */
  function StoredWith(p: Plan, opts: QueryOptions): CacheSpec.SetOptions {
    match opts.cache
    case Seconds(n) => CacheSpec.SetOptions(Some(n), None, None)
    case Custom(o) => o
    case Unset => CacheSpec.SetOptions(None, Some(TagsOf(p)), None)
    case Flag(_) => CacheSpec.SetOptions(None, Some(TagsOf(p)), None)
  }

  /** What the bridge asks of the manager after the calls so far. */
  function MoreCalls(cfg: Config, second: bool, calls: seq<Call>, use: Use): seq<Call> {
    match use
    case DoResolve(p, opts, fetched, now) =>
      var key := CacheKey(TableOr(p, "unknown"));
      if !LookedUp(p, opts) then calls
      else if Answered(cfg, second, calls, key, now).Some? then calls + [DoGet(key, now)]
      else calls + [DoGet(key, now), DoSet(key, fetched, StoredWith(p, opts), now)]
    case AfterDoing(p) =>
      calls + (if TagsOf(p) == [] then [] else [DoInvalidate(TagsOf(p)[0])]) +
          [DoDelete(CacheKey(TableOr(p, "write")))]
    case DoEvict(gone1, swept1, gone2) => calls + [DoLose(gone1, swept1, gone2)]
  }

  function CallsOf(cfg: Config, second: bool, uses: seq<Use>): seq<Call>
    decreases |uses|
  {
    if uses == [] then []
    else MoreCalls(cfg, second, CallsOf(cfg, second, uses[..|uses| - 1]), uses[|uses| - 1])
  }

  lemma OneMore(cfg: Config, second: bool, calls: seq<Call>, call: Call)
    ensures After(cfg, second, calls + [call]) == Next(After(cfg, second, calls), cfg, call)
  {
    assert (calls + [call])[..|calls|] == calls;
  }

  lemma TwoMore(cfg: Config, second: bool, calls: seq<Call>, a: Call, b: Call)
    ensures After(cfg, second, calls + [a, b]) == Next(Next(After(cfg, second, calls), cfg, a), cfg, b)
  {
    assert calls + [a, b] == calls + [a] + [b];
    OneMore(cfg, second, calls, a);
    OneMore(cfg, second, calls + [a], b);
  }

  lemma ResolveCalls(cfg: Config, second: bool, calls: seq<Call>, p: Plan, opts: QueryOptions, fetched: string,
                     now: nat)
    ensures var s, key := After(cfg, second, calls), CacheKey(TableOr(p, "unknown"));
            var answer := if LookedUp(p, opts) then Answered(cfg, second, calls, key, now) else None;
            && Resolve(s, cfg, p, opts, fetched, now).1 == (match answer case Some(v) => v case None => fetched)
            && Resolve(s, cfg, p, opts, fetched, now).0 ==
               if !LookedUp(p, opts) then s
               else if answer.Some? then After(cfg, second, calls + [DoGet(key, now)])
               else After(cfg, second, calls + [DoGet(key, now), DoSet(key, fetched, StoredWith(p, opts), now)])
  {
    hide After, Get, Set, CacheKey;
    var key := CacheKey(TableOr(p, "unknown"));
    OneMore(cfg, second, calls, DoGet(key, now));
    TwoMore(cfg, second, calls, DoGet(key, now), DoSet(key, fetched, StoredWith(p, opts), now));
  }

  lemma WriteCalls(cfg: Config, second: bool, calls: seq<Call>, p: Plan)
    ensures AfterWrite(After(cfg, second, calls), p) ==
            After(cfg, second, calls + (if TagsOf(p) == [] then [] else [DoInvalidate(TagsOf(p)[0])]) +
                               [DoDelete(CacheKey(TableOr(p, "write")))])
  {
    hide After, Delete, InvalidateTag, CacheKey;
    var gone := DoDelete(CacheKey(TableOr(p, "write")));
    if TagsOf(p) == [] {
      assert calls + [] == calls;
      OneMore(cfg, second, calls, gone);
    } else {
      OneMore(cfg, second, calls, DoInvalidate(TagsOf(p)[0]));
      OneMore(cfg, second, calls + [DoInvalidate(TagsOf(p)[0])], gone);
    }
  }

  lemma UseCalls(cfg: Config, second: bool, calls: seq<Call>, use: Use)
    ensures NextUsed(After(cfg, second, calls), cfg, use) == After(cfg, second, MoreCalls(cfg, second, calls, use))
  {
    hide After, Resolve, AfterWrite, Evict, Answered, CacheKey, LookedUp, StoredWith, TagsOf;
    match use
    case DoResolve(p, opts, fetched, now) => ResolveCalls(cfg, second, calls, p, opts, fetched, now);
    case AfterDoing(p) => WriteCalls(cfg, second, calls, p);
    case DoEvict(gone1, swept1, gone2) => OneMore(cfg, second, calls, DoLose(gone1, swept1, gone2));
  }

  /** Every run of the bridge is the run of the manager over the calls it stands for. */
  lemma {:induction false} BridgeCalls(cfg: Config, second: bool, uses: seq<Use>)
    ensures Used(cfg, second, uses) == After(cfg, second, CallsOf(cfg, second, uses))
    decreases |uses|
  {
    hide NextUsed, MoreCalls;
    if uses != [] {
      BridgeCalls(cfg, second, uses[..|uses| - 1]);
      UseCalls(cfg, second, CallsOf(cfg, second, uses[..|uses| - 1]), uses[|uses| - 1]);
    }
  }

  /** After any run of the bridge, a read gives what executing its plan returns, or the last result stored
      under the key of its table, within the TTL it was stored with, or, with a second level, within the
      memory cache's own TTL of a read that was. */
  lemma ReadThrough(cfg: Config, second: bool, uses: seq<Use>, p: Plan, opts: QueryOptions, fetched: string, now: nat)
    requires cfg.slidingTtl <= 0
    ensures var calls, key := CallsOf(cfg, second, uses), CacheKey(TableOr(p, "unknown"));
            var rows, w := Resolve(Used(cfg, second, uses), cfg, p, opts, fetched, now).1, LastWrite(cfg, calls, key);
            || rows == fetched
            || (&& LookedUp(p, opts) && w.Some? && rows == w.value.value
                && (InTime(w.value.ttl, w.value.at, now) ||
                    (second && exists r | r in ReadsSince(calls, key) ::
                       InTime(w.value.ttl, w.value.at, r) && InTime(cfg.memoryTtl, r, now))))
  {
    var calls, key := CallsOf(cfg, second, uses), CacheKey(TableOr(p, "unknown"));
    BridgeCalls(cfg, second, uses);
    ResolveCalls(cfg, second, calls, p, opts, fetched, now);
    hide After, Resolve, Answered, CacheKey, CallsOf, Used, LastWrite, ReadsSince;
    if Answered(cfg, second, calls, key, now).Some? {
      AnsweredInTime(cfg, second, calls, key, now);
    }
  }

  /** Read again within the TTL that the result was stored with, and with nothing in between, the plan is
      not executed: this is what the cache is for. */
  lemma ReadAgain(cfg: Config, second: bool, uses: seq<Use>, p: Plan, opts: QueryOptions, fetched: string, now: nat)
    requires cfg.slidingTtl <= 0 && LookedUp(p, opts)
    requires Undisturbed(second, CallsOf(cfg, second, uses), CacheKey(TableOr(p, "unknown")))
    ensures var w := LastWrite(cfg, CallsOf(cfg, second, uses), CacheKey(TableOr(p, "unknown")));
            w.Some? && (InTime(w.value.ttl, w.value.at, now) ==>
                          Resolve(Used(cfg, second, uses), cfg, p, opts, fetched, now).1 == w.value.value)
  {
    var calls, key := CallsOf(cfg, second, uses), CacheKey(TableOr(p, "unknown"));
    BridgeCalls(cfg, second, uses);
    ResolveCalls(cfg, second, calls, p, opts, fetched, now);
    hide After, Resolve, Answered, CacheKey, CallsOf, Used, LastWrite, ReadsSince;
    AnsweredUntil(cfg, second, calls, key, now);
  }
}
