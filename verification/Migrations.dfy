/** The migrator as a state machine over the live schema and the log of applied migrations, and the
    object that keeps them. */
module Migrations {
  import opened Wrappers
  import opened Schemas
  import opened Generation
  import SchemaDiff

  datatype Step = Step(name: string, diff: DiffResult)

  /** `steps` are the recorded migrations in id order; `tracked` says that the record table exists. */
  datatype State = State(live: Live, steps: seq<Step>, tracked: bool)

  datatype Outcome = Applied | Previewed(sql: seq<Statement>) | Refused | Failed | NothingToUndo

  predicate Recorded(steps: seq<Step>, name: string) {
    exists i | 0 <= i < |steps| :: steps[i].name == name
  }

  function Forget(steps: seq<Step>, name: string): seq<Step> {
    if steps == [] then []
    else
      var last, rest := steps[|steps| - 1], Forget(steps[..|steps| - 1], name);
      if last.name == name then rest else rest + [last]
  }

  /** Destructive steps need the caller's consent; the statements and the record stand or fall together. */
  function Apply(s: State, step: Step, allowDestructive: bool, dryRun: bool): (State, Outcome) {
    if step.diff.destructive != [] && !allowDestructive then (s, Refused)
    else if dryRun then (s, Previewed(UpAll(step.diff.changes)))
    else
      var done := ExecAll(s.live, UpAll(step.diff.changes));
      if done.None? || Recorded(s.steps, step.name) then (s.(tracked := true), Failed)
      else (State(done.value, s.steps + [step], true), Applied)
  }

  function ApplyDown(s: State, name: string, down: seq<Statement>, dryRun: bool): (State, Outcome) {
    if dryRun then (s, Previewed(down))
    else
      var done := ExecAll(s.live, down);
      if done.None? || !s.tracked then (s, Failed) else (State(done.value, Forget(s.steps, name), true), Applied)
  }

  /** Without a down there is no rollback: the record is not deleted behind the schema's back. */
  function RollbackLast(s: State, down: seq<Statement>, dryRun: bool): (State, Outcome) {
    if !s.tracked then (s, Failed)
    else if s.steps == [] then (s, NothingToUndo)
    else if down == [] then (s, Refused)
    else ApplyDown(s, s.steps[|s.steps| - 1].name, down, dryRun)
  }

  // ---- runs ----

  /** The schema that the recorded migrations lead to. */
  function Replay(initial: Live, steps: seq<Step>): Option<Live> {
    if steps == [] then Some(initial)
    else
      var before := Replay(initial, steps[..|steps| - 1]);
      if before.None? then None else ExecAll(before.value, UpAll(steps[|steps| - 1].diff.changes))
  }

  predicate DistinctNames(steps: seq<Step>) {
    forall i, j | 0 <= i < j < |steps| :: steps[i].name != steps[j].name
  }

  /** The live schema is the replay of the log, and no name is recorded twice. */
  ghost predicate Consistent(initial: Live, s: State) {
    && Sound(initial) && DistinctNames(s.steps) && Replay(initial, s.steps) == Some(s.live)
    && (s.steps != [] ==> s.tracked)
    && forall i | 0 <= i < |s.steps| :: ProperTables(s.steps[i].diff.changes)
  }

  datatype Event =
    | DoApply(step: Step, allowDestructive: bool, dryRun: bool)
    | DoRollback(dryRun: bool)

  /** A rollback gets the down that was generated for the last recorded migration. */
  function Next(s: State, e: Event): State {
    match e
    case DoApply(step, allow, dry) => Apply(s, step, allow, dry).0
    case DoRollback(dry) =>
      RollbackLast(s, if s.steps == [] then [] else DownAll(s.steps[|s.steps| - 1].diff.changes), dry).0
  }

  function Run(s: State, events: seq<Event>): State {
    if events == [] then s else Next(Run(s, events[..|events| - 1]), events[|events| - 1])
  }

  /** Every rollback finds a last migration whose changes were all undoable when it ran. */
  predicate RollsBackUndoable(initial: Live, s: State, e: Event) {
    e.DoRollback? && s.steps != [] ==>
      var front, last := s.steps[..|s.steps| - 1], s.steps[|s.steps| - 1];
      Replay(initial, front).Some? && AllUndoable(Replay(initial, front).value, last.diff.changes)
  }

  predicate ProperStep(e: Event) {
    e.DoApply? ==> ProperTables(e.step.diff.changes)
  }

  predicate UndoableRun(initial: Live, s: State, events: seq<Event>) {
    events == [] ||
      var front, e := events[..|events| - 1], events[|events| - 1];
      && UndoableRun(initial, s, front) && RollsBackUndoable(initial, Run(s, front), e) && ProperStep(e)
  }

  lemma {:induction false} ReplaySound(initial: Live, steps: seq<Step>)
    requires Sound(initial) && Replay(initial, steps).Some?
    requires forall i | 0 <= i < |steps| :: ProperTables(steps[i].diff.changes)
    ensures Sound(Replay(initial, steps).value)
  {
    if steps != [] {
      ReplaySound(initial, steps[..|steps| - 1]);
      UpAllSound(Replay(initial, steps[..|steps| - 1]).value, steps[|steps| - 1].diff.changes);
    }
  }

  lemma {:induction false} ForgetUnknown(steps: seq<Step>, name: string)
    requires !Recorded(steps, name)
    ensures Forget(steps, name) == steps
  {
    if steps != [] {
      var front := steps[..|steps| - 1];
      assert forall i | 0 <= i < |front| :: front[i] == steps[i];
      ForgetUnknown(front, name);
    }
  }

  lemma ForgetLast(steps: seq<Step>)
    requires steps != [] && DistinctNames(steps)
    ensures Forget(steps, steps[|steps| - 1].name) == steps[..|steps| - 1]
  {
    ForgetUnknown(steps[..|steps| - 1], steps[|steps| - 1].name);
  }

  lemma ApplyConsistent(initial: Live, s: State, step: Step, allow: bool, dry: bool)
    requires Consistent(initial, s) && ProperTables(step.diff.changes)
    ensures Consistent(initial, Apply(s, step, allow, dry).0)
  {
    hide ExecAll, UpAll, ProperTables, Sound;
    if Apply(s, step, allow, dry).1 == Applied {
      OneMoreReplayed(initial, s.steps, step);
      OneMoreName(s.steps, step);
      assert forall i | 0 <= i < |s.steps| :: (s.steps + [step])[i] == s.steps[i];
    }
  }

  lemma OneMoreReplayed(initial: Live, steps: seq<Step>, step: Step)
    ensures Replay(initial, steps + [step]) ==
            if Replay(initial, steps).None? then None
            else ExecAll(Replay(initial, steps).value, UpAll(step.diff.changes))
  {
    assert (steps + [step])[..|steps|] == steps;
  }

  lemma OneMoreName(steps: seq<Step>, step: Step)
    requires DistinctNames(steps) && !Recorded(steps, step.name)
    ensures DistinctNames(steps + [step])
  {
  }

  lemma RollbackConsistent(initial: Live, s: State, dry: bool)
    requires Consistent(initial, s) && RollsBackUndoable(initial, s, DoRollback(dry))
    ensures Consistent(initial, Next(s, DoRollback(dry)))
    ensures s.steps != [] && DownAll(s.steps[|s.steps| - 1].diff.changes) != [] && !dry ==>
              Next(s, DoRollback(dry)).steps == s.steps[..|s.steps| - 1]
  {
    hide DistinctNames, Sound, ProperTables, AllUndoable;
    if s.steps != [] {
      UndoneState(initial, s, dry);
      ForgetLast(s.steps);
      var front, last := s.steps[..|s.steps| - 1], s.steps[|s.steps| - 1];
      RollbackGives(s, DownAll(last.diff.changes), Replay(initial, front).value, dry);
      Popped(initial, s);
    }
  }

  lemma UndoneState(initial: Live, s: State, dry: bool)
    requires Consistent(initial, s) && s.steps != [] && RollsBackUndoable(initial, s, DoRollback(dry))
    ensures Replay(initial, s.steps[..|s.steps| - 1]).Some?
    ensures ExecAll(s.live, DownAll(s.steps[|s.steps| - 1].diff.changes)) == Replay(initial, s.steps[..|s.steps| - 1])
  {
    var front, last := s.steps[..|s.steps| - 1], s.steps[|s.steps| - 1];
    hide Sound, ProperTables, AllUndoable, DownAll, UpAll, ExecAll;
    ReplaySound(initial, front);
    MigrationUndone(Replay(initial, front).value, last.diff.changes);
  }

  lemma RollbackGives(s: State, down: seq<Statement>, before: Live, dry: bool)
    requires s.steps != [] && s.tracked && ExecAll(s.live, down) == Some(before)
    ensures RollbackLast(s, down, dry).0 ==
            if down == [] || dry then s else State(before, Forget(s.steps, s.steps[|s.steps| - 1].name), true)
  {
  }

  lemma Popped(initial: Live, s: State)
    requires Consistent(initial, s) && s.steps != []
    ensures var front := s.steps[..|s.steps| - 1];
            Replay(initial, front).Some? && Consistent(initial, State(Replay(initial, front).value, front, true))
  {
  }

  /** Over any run of applying and rolling back, with refusals, previews, duplicate names and failing
      statements, the live schema stays the replay of the recorded log. */
  lemma {:induction false} LogIsReplayed(initial: Live, s: State, events: seq<Event>)
    requires Consistent(initial, s) && UndoableRun(initial, s, events)
    ensures Consistent(initial, Run(s, events))
  {
    if events != [] {
      var front, e := events[..|events| - 1], events[|events| - 1];
      LogIsReplayed(initial, s, front);
      match e
      case DoApply(step, allow, dry) => ApplyConsistent(initial, Run(s, front), step, allow, dry);
      case DoRollback(dry) => RollbackConsistent(initial, Run(s, front), dry);
    }
  }

  /** Steps that only add. */
  predicate AdditiveSteps(steps: seq<Step>) {
    forall i | 0 <= i < |steps| :: AllAdditive(steps[i].diff.changes)
  }

  predicate AdditiveEvent(e: Event) {
    e.DoApply? ==> AllAdditive(e.step.diff.changes) && ProperTables(e.step.diff.changes)
  }

  /** In runs whose steps come from diffs without destructive changes no rollback needs a condition. */
  lemma {:induction false} AdditiveRunsUndo(initial: Live, s: State, events: seq<Event>)
    requires Consistent(initial, s) && AdditiveSteps(s.steps)
    requires forall i | 0 <= i < |events| :: AdditiveEvent(events[i])
    ensures UndoableRun(initial, s, events) && Consistent(initial, Run(s, events)) &&
            AdditiveSteps(Run(s, events).steps)
  {
    if events != [] {
      var front, e := events[..|events| - 1], events[|events| - 1];
      assert forall i | 0 <= i < |front| :: front[i] == events[i];
      AdditiveRunsUndo(initial, s, front);
      var t := Run(s, front);
      if t.steps != [] {
        AdditiveUndoable(Replay(initial, t.steps[..|t.steps| - 1]).value, t.steps[|t.steps| - 1].diff.changes);
      }
      NextAdditive(initial, t, e);
      LogIsReplayed(initial, s, events);
    }
  }

  lemma NextAdditive(initial: Live, s: State, e: Event)
    requires Consistent(initial, s) && AdditiveSteps(s.steps) && AdditiveEvent(e) && RollsBackUndoable(initial, s, e)
    ensures AdditiveSteps(Next(s, e).steps)
  {
    hide ExecAll, UpAll, DownAll, AllAdditive, AllUndoable, Replay, Sound, ProperTables;
    match e
    case DoApply(step, allow, dry) =>
    case DoRollback(dry) =>
      if s.steps != [] {
        ForgetLast(s.steps);
      }
  }

  // ---- consent ----

  /** After any run, a step is added to the log, and its statements to the live schema, exactly when it
      drops nothing or the caller consents, its name is new and its statements run through; otherwise
      log and schema stay as they are. */
  lemma AppliedExactly(s: State, events: seq<Event>, step: Step, allow: bool, dry: bool)
    ensures var t := Run(s, events);
            var done := ExecAll(t.live, UpAll(step.diff.changes));
            var applies := !dry && (step.diff.destructive == [] || allow) && done.Some? &&
              forall i | 0 <= i < |t.steps| :: t.steps[i].name != step.name;
            var u := Run(s, events + [DoApply(step, allow, dry)]);
            && u.steps == (if applies then t.steps + [step] else t.steps)
            && u.live == if applies then done.value else t.live
  {
    hide ExecAll, UpAll;
    var more := events + [DoApply(step, allow, dry)];
    assert more[..|more| - 1] == events;
  }

  /** The event applies the step, not as a preview, and with consent if the step is destructive. */
  predicate Consented(e: Event, step: Step) {
    e.DoApply? && e.step == step && !e.dryRun && (step.diff.destructive != [] ==> e.allowDestructive)
  }

  /** Over any run no step enters the log without an event that applies it, and no destructive one
      without the caller's consent. */
  lemma {:induction false} LogHasConsent(s: State, events: seq<Event>, step: Step)
    requires step in Run(s, events).steps && step !in s.steps
    ensures exists i | 0 <= i < |events| :: Consented(events[i], step)
  {
    var front, e := events[..|events| - 1], events[|events| - 1];
    var t := Run(s, front);
    hide ExecAll, UpAll, DownAll, Run;
    if step in t.steps {
      LogHasConsent(s, front, step);
      var i :| 0 <= i < |front| && Consented(front[i], step);
      assert Consented(events[i], step);
    } else {
      NewIsApplied(t, e, step);
      assert Consented(events[|events| - 1], step);
    }
  }

  lemma NewIsApplied(s: State, e: Event, step: Step)
    requires step in Next(s, e).steps && step !in s.steps
    ensures Consented(e, step)
  {
    hide ExecAll, UpAll, DownAll;
    if e.DoRollback? && s.steps != [] {
      ForgottenWithin(s.steps, s.steps[|s.steps| - 1].name, step);
    }
  }

  lemma {:induction false} ForgottenWithin(steps: seq<Step>, name: string, step: Step)
    requires step in Forget(steps, name)
    ensures step in steps
  {
    var front, last := steps[..|steps| - 1], steps[|steps| - 1];
    if step in Forget(front, name) {
      ForgottenWithin(front, name, step);
    } else {
      assert step == last;
    }
  }

  // ---- the object ----

  function NamesOf(steps: seq<Step>): seq<string> {
    seq(|steps|, i requires 0 <= i < |steps| => steps[i].name)
  }

  lemma {:induction false} NamesForgotten(steps: seq<Step>, name: string)
    ensures NamesOf(Forget(steps, name)) == Deleted(NamesOf(steps), name)
  {
    if steps != [] {
      var front, last := steps[..|steps| - 1], steps[|steps| - 1];
      NamesForgotten(front, name);
      assert NamesOf(steps)[..|steps| - 1] == NamesOf(front);
      var rest := Forget(front, name);
      assert NamesOf(rest + [last]) == NamesOf(rest) + [last.name];
    }
  }

  lemma NamesExtended(steps: seq<Step>, step: Step)
    ensures NamesOf(steps + [step]) == NamesOf(steps) + [step.name]
  {
  }

  lemma InLog(steps: seq<Step>, name: string)
    ensures name in NamesOf(steps) <==> Recorded(steps, name)
  {
    if Recorded(steps, name) {
      var i :| 0 <= i < |steps| && steps[i].name == name;
      assert NamesOf(steps)[i] == name;
    }
  }

  function Deleted(names: seq<string>, name: string): seq<string> {
    if names == [] then []
    else
      var last, rest := names[|names| - 1], Deleted(names[..|names| - 1], name);
      if last == name then rest else rest + [last]
  }

  function NotRecorded(known: seq<Step>, steps: seq<Step>): seq<Step> {
    if known == [] then []
    else
      var last, rest := known[|known| - 1], NotRecorded(known[..|known| - 1], steps);
      if Recorded(steps, last.name) then rest else rest + [last]
  }

  /** Pending are the known steps whose names are not in the log. */
  lemma {:induction false} PendingIs(known: seq<Step>, steps: seq<Step>, step: Step)
    ensures step in NotRecorded(known, steps) <==>
            step in known && forall i | 0 <= i < |steps| :: steps[i].name != step.name
  {
    if known != [] {
      PendingIs(known[..|known| - 1], steps, step);
      assert known == known[..|known| - 1] + [known[|known| - 1]];
    }
  }

  /** Once a step has been applied, the pending list is the same without it. */
  lemma {:induction false} AppliedIsNotPending(known: seq<Step>, s: State, step: Step, allow: bool)
    requires Apply(s, step, allow, false).1 == Applied
    ensures NotRecorded(known, Apply(s, step, allow, false).0.steps) == Forget(NotRecorded(known, s.steps), step.name)
  {
    hide ExecAll, UpAll;
    if known != [] {
      var last := known[|known| - 1];
      AppliedIsNotPending(known[..|known| - 1], s, step, allow);
      OneMoreRecorded(s.steps, step, last.name);
    }
  }

  lemma OneMoreRecorded(steps: seq<Step>, step: Step, name: string)
    ensures Recorded(steps + [step], name) <==> Recorded(steps, name) || step.name == name
  {
    var after := steps + [step];
    assert after[|steps|] == step;
    assert forall i | 0 <= i < |steps| :: after[i] == steps[i];
  }
}

/** The object that runs the statements and keeps the log. */
module Migrators {
  import opened Wrappers
  import opened Generation
  import opened Migrations

  class Migrator {
    var live: Live
    var log: seq<string>
    var tracked: bool
    ghost var steps: seq<Step>

    ghost function Abs(): State
      reads this
    {
      State(live, steps, tracked)
    }

    ghost predicate Valid()
      reads this
    {
      log == NamesOf(steps) && (steps != [] ==> tracked)
    }

    constructor (live: Live)
      ensures Valid() && Abs() == State(live, [], false)
    {
      this.live := live;
      log, tracked, steps := [], false, [];
    }

    /** Statement by statement; a refused statement stops the run where it is. */
    method Execute(sql: seq<Statement>) returns (ok: bool)
      modifies this`live
      ensures ok <==> ExecAll(old(live), sql).Some?
      ensures ok ==> live == ExecAll(old(live), sql).value
    {
      for i := 0 to |sql|
        invariant ExecAll(old(live), sql[..i]) == Some(live)
      {
        assert sql[..i + 1][..i] == sql[..i];
        var next := Exec(live, sql[i]);
        if next.None? {
          FailsFromHere(old(live), sql, i + 1);
          return false;
        }
        live := next.value;
      }
      assert sql[..|sql|] == sql;
      return true;
    }

    method Apply(step: Step, allowDestructive: bool, dryRun: bool) returns (r: Outcome)
      requires Valid()
      modifies this
      ensures Valid() && (Abs(), r) == Migrations.Apply(old(Abs()), step, allowDestructive, dryRun)
    {
      hide ExecAll, UpAll, DownAll, Recorded, NamesOf;
      var gen := GenerateMigrationSql(step.diff);
      if gen.requiresReview && !allowDestructive {
        return Refused;
      }
      if dryRun {
        return Previewed(gen.up);
      }
      tracked := true;
      var before := live;
      var ok := Execute(gen.up);
      InLog(steps, step.name);
      if ok && step.name !in log {
        NamesExtended(steps, step);
        log, steps := log + [step.name], steps + [step];
        return Applied;
      }
      live := before;
      return Failed;
    }

    method RollbackLast(down: seq<Statement>, dryRun: bool) returns (r: Outcome)
      requires Valid()
      modifies this
      ensures Valid() && (Abs(), r) == Migrations.RollbackLast(old(Abs()), down, dryRun)
    {
      if !tracked {
        return Failed;
      }
      if |log| == 0 {
        return NothingToUndo;
      }
      if |down| == 0 {
        return Refused;
      }
      r := ApplyDown(log[|log| - 1], down, dryRun);
    }

    method ApplyDown(name: string, down: seq<Statement>, dryRun: bool) returns (r: Outcome)
      requires Valid()
      modifies this
      ensures Valid() && (Abs(), r) == Migrations.ApplyDown(old(Abs()), name, down, dryRun)
    {
      if dryRun {
        return Previewed(down);
      }
      var before := live;
      var ok := Execute(down);
      if ok && tracked {
        NamesForgotten(steps, name);
        log, steps := Deleted(log, name), Forget(steps, name);
        return Applied;
      }
      live := before;
      return Failed;
    }

    /** The known migrations that are not recorded yet, in the order given. */
    method Pending(known: seq<Step>) returns (pending: seq<Step>)
      requires Valid()
      ensures pending == NotRecorded(known, steps)
    {
      pending := [];
      for i := 0 to |known|
        invariant pending == NotRecorded(known[..i], steps)
      {
        assert known[..i + 1][..i] == known[..i];
        InLog(steps, known[i].name);
        if known[i].name !in log {
          pending := pending + [known[i]];
        }
      }
      assert known[..|known|] == known;
    }
  }

  lemma {:induction false} FailsFromHere(db: Live, sql: seq<Statement>, i: nat)
    requires i <= |sql| && ExecAll(db, sql[..i]).None?
    ensures ExecAll(db, sql).None?
    decreases |sql| - i
  {
    if i == |sql| {
      assert sql[..i] == sql;
    } else {
      assert sql[..i + 1][..i] == sql[..i];
      FailsFromHere(db, sql, i + 1);
    }
  }
}
